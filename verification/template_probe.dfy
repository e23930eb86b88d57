/**
 Worlds made up to tell meanings apart.  They show that the guards of regular templates are exact: where
 one of them fails, some world shows the difference.
 */
module TemplateProbe {
  import opened JsRuntime
  import opened TemplateAst
  import opened TemplateEval
  import opened TemplateQuirks

  const HELPER := Function(Custom(0))

  /**
   Every name is the same helper; it runs one of its two programs once and says whether that returned the empty
   text.
   */
  function Probe(inverse: bool): World {
    World(_ => HELPER, (_, _) => HELPER, _ => "shown", _ => Ok(Text("escaped")), _ => Undefined,
          (_, _) => Ok(Text("partial")),
          _ => [], _ => Ok(Undefined), _ => Ok(Undefined),
          (_, history) => if history == [] then RunProgram(inverse, HELPER)
              else Return(Text(if history[0] == Text("") then "empty" else "full")),
          _ => 1)
  }

  /** Every name is the same helper, which returns a text; contexts are texts. */
  function Plain(): World {
    World(_ => HELPER, (_, _) => Text("value"), _ => "shown", _ => Ok(Text("escaped")), _ => Undefined,
          (_, _) => Ok(Text("partial")),
          _ => [], _ => Ok(Undefined), _ => Ok(Undefined), (_, _) => Return(Text("called")), _ => 1)
  }

  // ----- contexts deep enough

  function DeepestParam(param: Param): nat {
    if param.IdParam? then param.id.depth else 0
  }

  function Max(a: nat, b: nat): nat {
    if a < b then b else a
  }

  function DeepestParams(params: seq<Param>): nat {
    if params == [] then 0 else Max(DeepestParams(params[1..]), DeepestParam(params[0]))
  }

  function DeepestPairs(pairs: seq<Pair>): nat {
    if pairs == [] then 0 else Max(DeepestPairs(pairs[..|pairs| - 1]), DeepestParam(pairs[|pairs| - 1].value))
  }

  /** The outermost context that a mustache reads. */
  function Deepest(m: Mustache): nat {
    Max(m.id.depth, Max(DeepestParams(m.params), if m.hash.Some? then DeepestPairs(m.hash.value) else 0))
  }

  /** The same context on every level. */
  function Contexts(n: nat, c: Value): seq<Value> {
    seq(n, _ => c)
  }

  predicate AllAre(ctxs: seq<Value>, c: Value) {
    |ctxs| > 0 && forall i :: 0 <= i < |ctxs| ==> ctxs[i] == c
  }

  // ----- evaluating in these worlds

  /** A world in which names and properties always give something to look on in. */
  ghost predicate Bountiful(w: World, c: Value) {
    && !c.Undefined? && !c.Null?
    && (forall name :: w.helper(name) == HELPER)
    && (forall v, name :: w.prop(v, name) == c)
  }

  lemma {:induction false} PathGives(w: World, c: Value, v: Value, names: seq<string>)
    requires Bountiful(w, c) && !v.Undefined? && !v.Null?
    ensures EvalPath(w, v, names) == Ok(if names == [] then v else c)
    decreases |names|
  {
    if names != [] {
      PathGives(w, c, c, names[1..]);
    }
  }

  /** A path gives the context or the helper or a property of them. */
  lemma IdGives(w: World, o: Options, c: Value, id: IdNode, ctxs: seq<Value>)
    requires Bountiful(w, c) && AllAre(ctxs, c)
    ensures id.depth < |ctxs| ==> EvalId(w, o, id, ctxs).Ok? && EvalId(w, o, id, ctxs).value in {c, HELPER}
    ensures id.depth < |ctxs| && Head(id).None? ==> EvalId(w, o, id, ctxs) == Ok(c)
    ensures EvalId(w, o, id, ctxs).Ok? ==> EvalId(w, o, id, ctxs).value in {c, HELPER, Undefined}
  {
    var head := EvalHead(w, o, id, ctxs);
    assert id.depth < |ctxs| ==> ContextAt(ctxs, id.depth) == c;
    if head.Ok? && !head.value.Undefined? {
      PathGives(w, c, head.value, Tail(id));
    } else if head.Ok? {
      assert Tail(id) == [] || EvalPath(w, Undefined, Tail(id)).Throw?;
    }
  }

  lemma {:induction false} ParamsGive(w: World, o: Options, c: Value, params: seq<Param>, ctxs: seq<Value>)
    requires Bountiful(w, c) && AllAre(ctxs, c) && DeepestParams(params) < |ctxs|
    ensures EvalParams(w, o, params, ctxs).Ok?
    decreases |params|
  {
    hide EvalId;
    if params != [] {
      ParamsGive(w, o, c, params[1..], ctxs);
      if params[0].IdParam? {
        IdGives(w, o, c, params[0].id, ctxs);
      }
    }
  }

  lemma {:induction false} PairsGive(w: World, o: Options, c: Value, pairs: seq<Pair>, ctxs: seq<Value>)
    requires Bountiful(w, c) && AllAre(ctxs, c) && DeepestPairs(pairs) < |ctxs|
    ensures EvalPairs(w, o, pairs, ctxs).Ok?
    decreases |pairs|
  {
    hide EvalId;
    if pairs != [] {
      PairsGive(w, o, c, pairs[..|pairs| - 1], ctxs);
      if pairs[|pairs| - 1].value.IdParam? {
        IdGives(w, o, c, pairs[|pairs| - 1].value.id, ctxs);
      }
    }
  }

  lemma PartsGive(w: World, o: Options, c: Value, m: Mustache, ctxs: seq<Value>)
    requires Bountiful(w, c) && AllAre(ctxs, c) && Deepest(m) < |ctxs|
    ensures var x := EvalParts(w, o, m, ctxs);
            && x.Ok? && x.value.head in {c, HELPER} && (Head(m.id).None? ==> x.value.head == c)
  {
    hide EvalId, EvalParams, EvalPairs;
    ParamsGive(w, o, c, m.params, ctxs);
    if m.hash.Some? {
      PairsGive(w, o, c, m.hash.value, ctxs);
    }
    IdGives(w, o, c, m.id, ctxs);
  }

  // ----- the probing helper

  lemma ProbeBountiful(inverse: bool)
    ensures Bountiful(Probe(inverse), HELPER)
  {
  }

  lemma PlainBountiful()
    ensures Bountiful(Plain(), Text("value"))
  {
  }

  /** In a block the helper passes on what it throws, and otherwise tells the empty text from everything else. */
  function ProbeAnswer(r: Res<Value>): Res<Value> {
    match r
    case Throw(e) => Throw(e)
    case Ok(v) => Ok(Text(if v == Text("") then "empty" else "full"))
  }

  lemma ProbeCalled(inverse: bool, self: Value, args: seq<Value>, hash: Value, contexts: seq<Value>, isBlock: bool,
                    runner: (bool, Value) -> Res<Value>)
    ensures var r := CallValue(Probe(inverse), HELPER, self, args, hash, contexts, isBlock, runner);
            if isBlock then r == ProbeAnswer(runner(inverse, HELPER)) else r.Throw?
  {
    var w, call := Probe(inverse), Call(Custom(0), self, args, hash, contexts);
    assert HelperStep(w, call, []) == RunProgram(inverse, HELPER);
    if isBlock {
      var v := runner(inverse, HELPER);
      if v.Ok? {
        assert [] + [v.value] == [v.value];
        assert HelperStep(w, call, [v.value]) == Return(Text(if v.value == Text("") then "empty" else "full"));
        assert Drive(w, call, true, runner, [v.value]) == ProbeAnswer(v);
      }
    }
  }

  /** So does a whole section, if it can read its contexts. */
  lemma ProbeSection(inverse: bool, o: Options, known: bool, m: Mustache, ctxs: seq<Value>,
                     runner: (bool, Value) -> Res<Value>)
    requires AllAre(ctxs, HELPER) && Deepest(m) < |ctxs|
    ensures EvalSection(Probe(inverse), o, known, m, ctxs, runner) == ProbeAnswer(runner(inverse, HELPER))
  {
    hide CallValue, EvalParts;
    var w := Probe(inverse);
    ProbeBountiful(inverse);
    PartsGive(w, o, HELPER, m, ctxs);
    var x := EvalParts(w, o, m, ctxs).value;
    ProbeCalled(inverse, ctxs[0], x.args.values, x.hash, x.args.contexts, true, runner);
    ProbeCalled(inverse, ctxs[0], [x.head] + x.args.values, x.hash, x.args.contexts, true, runner);
  }

  // ----- what shows nothing in the probing world

  ghost predicate IsText(r: Res<Value>) {
    r.Ok? ==> r.value.Text? && r.value.s != ""
  }

  /** Whatever the contexts are deep enough for, a call outside of a block throws. */
  lemma ProbeOutput(inverse: bool, o: Options, known: bool, m: Mustache, ctxs: seq<Value>)
    requires AllAre(ctxs, HELPER)
    ensures EvalOutput(Probe(inverse), o, known, m, ctxs).Throw?
  {
    hide CallValue, EvalId, EvalParams, EvalHash;
    var w := Probe(inverse);
    ProbeBountiful(inverse);
    IdGives(w, o, HELPER, m.id, ctxs);
    var x := EvalParts(w, o, m, ctxs);
    if x.Ok? {
      var a := x.value.args;
      ProbeCalled(inverse, ctxs[0], a.values, x.value.hash, a.contexts, false, NoRunner());
      ProbeCalled(inverse, ctxs[0], [Text(m.id.original)] + a.values, x.value.hash, a.contexts, false, NoRunner());
      UndefinedCalled(w, ctxs[0], a.values, x.value.hash, a.contexts, false, NoRunner());
    }
  }

  lemma UndefinedCalled(w: World, self: Value, args: seq<Value>, hash: Value, contexts: seq<Value>, isBlock: bool,
                        runner: (bool, Value) -> Res<Value>)
    ensures CallValue(w, Undefined, self, args, hash, contexts, isBlock, runner).Throw?
  {
  }

  lemma ProbeInnerSection(inverse: bool, o: Options, known: bool, m: Mustache, ctxs: seq<Value>,
                          runner: (bool, Value) -> Res<Value>)
    requires AllAre(ctxs, HELPER)
    ensures IsText(EvalSection(Probe(inverse), o, known, m, ctxs, runner))
  {
    hide CallValue, EvalId, EvalParams, EvalHash;
    var w := Probe(inverse);
    ProbeBountiful(inverse);
    IdGives(w, o, HELPER, m.id, ctxs);
    var x := EvalParts(w, o, m, ctxs);
    if x.Ok? {
      var a := x.value.args;
      ProbeCalled(inverse, ctxs[0], a.values, x.value.hash, a.contexts, true, runner);
      ProbeCalled(inverse, ctxs[0], [x.value.head] + a.values, x.value.hash, a.contexts, true, runner);
      UndefinedCalled(w, ctxs[0], a.values, x.value.hash, a.contexts, true, runner);
    }
  }

  lemma ProbePartial(inverse: bool, o: Options, name: string, context: Option<IdNode>, ctxs: seq<Value>)
    requires AllAre(ctxs, HELPER)
    ensures IsText(EvalPartial(Probe(inverse), o, name, context, ctxs))
  {
    hide EvalId;
  }

  /** Every statement that may show text throws or shows some. */
  lemma ProbeStatement(inverse: bool, o: Options, mode: Mode, q: Program, j: nat, ctxs: seq<Value>)
    requires j < |q.statements| && AllAre(ctxs, HELPER) && !SaysNothing(q.statements[j])
    ensures IsText(EvalStatement(Probe(inverse), o, mode, q, j, ctxs))
  {
    hide EvalOutput, EvalSection, EvalPartial, Runner, CallsKnownHelper, ElseBranch;
    var w := Probe(inverse);
    assert q.statements[j] < q;
    match q.statements[j]
    case Output(m) => ProbeOutput(inverse, o, CallsKnownHelper(o, mode, q, j, m), m, ctxs);
    case Partial(name, context) => ProbePartial(inverse, o, name, context, ctxs);
    case Block(m, r) =>
      ProbeInnerSection(inverse, o, CallsKnownHelper(o, mode, q, j, m), m, ctxs,
                        Runner(w, o, mode, q, Some(r), ElseBranch(mode, q, j), ctxs));
    case Inverse(m, r) =>
      ProbeInnerSection(inverse, o, CallsKnownHelper(o, mode, q, j, m), m, ctxs,
                        Runner(w, o, mode, q, InverseMain(mode, r), Some(r), ctxs));
    case _ =>
  }

  lemma {:induction false} ProbeText(inverse: bool, o: Options, mode: Mode, q: Program, n: nat, ctxs: seq<Value>)
    requires n <= |q.statements| && AllAre(ctxs, HELPER) && EvalText(Probe(inverse), o, mode, q, n, ctxs) == Ok("")
    ensures forall j :: 0 <= j < n ==> SaysNothing(q.statements[j])
    decreases n
  {
    hide EvalStatement;
    if n > 0 {
      var text := EvalText(Probe(inverse), o, mode, q, n - 1, ctxs);
      var v := EvalStatement(Probe(inverse), o, mode, q, n - 1, ctxs);
      assert text.Ok? && v.Ok? && text.value + ToText(Probe(inverse), v.value) == "";
      assert text.value == "" && ToText(Probe(inverse), v.value) == "";
      ProbeText(inverse, o, mode, q, n - 1, ctxs);
      if !SaysNothing(q.statements[n - 1]) {
        ProbeStatement(inverse, o, mode, q, n - 1, ctxs);
        assert false;
      }
    }
  }

  /** In the probing world a program returns the empty text only if it does so in every world. */
  lemma EmptyOnlyIfAlways(inverse: bool, o: Options, mode: Mode, q: Program, ctxs: seq<Value>)
    requires AllAre(ctxs, HELPER)
    ensures EvalProgram(Probe(inverse), o, mode, q, ctxs) == Ok(Text("")) <==> IsEmptyText(mode, q)
  {
    hide EvalStatement, EvalText;
    if IsEmptyText(mode, q) {
      EmptyTexts(Probe(inverse), o, mode, q, ctxs);
    } else if |q.statements| == 1 {
      if !SaysNothing(q.statements[0]) {
        ProbeStatement(inverse, o, mode, q, 0, ctxs);
      }
    } else if EvalText(Probe(inverse), o, mode, q, |q.statements|, ctxs) == Ok("") {
      ProbeText(inverse, o, mode, q, |q.statements|, ctxs);
    }
  }

  // ----- exact conditions

  /** A section nested so deep that there are `n` contexts shows the same with the inverse branch `a` as with none. */
  ghost predicate SameWithoutInverse(n: nat, o: Options, known: bool, m: Mustache, mode: Mode, p: Program,
                                     main: Option<Program>, a: Option<Program>)
    requires n > 0
    requires main.Some? ==> main.value < p
    requires a.Some? ==> a.value < p
  {
    forall w: World, ctxs: seq<Value> :: |ctxs| == n ==>
      EvalSection(w, o, known, m, ctxs, Runner(w, o, mode, p, main, a, ctxs)) ==
      EvalSection(w, o, known, m, ctxs, Runner(w, o, mode, p, main, None, ctxs))
  }

  /** And the same with the main branch `a` as with none. */
  ghost predicate SameWithoutMain(n: nat, o: Options, known: bool, m: Mustache, mode: Mode, p: Program,
                                  a: Option<Program>, inverse: Option<Program>)
    requires n > 0
    requires a.Some? ==> a.value < p
    requires inverse.Some? ==> inverse.value < p
  {
    forall w: World, ctxs: seq<Value> :: |ctxs| == n ==>
      EvalSection(w, o, known, m, ctxs, Runner(w, o, mode, p, a, inverse, ctxs)) ==
      EvalSection(w, o, known, m, ctxs, Runner(w, o, mode, p, None, inverse, ctxs))
  }

  lemma EmptyBranchIs(w: World, o: Options, mode: Mode, a: Option<Program>, ctxs: seq<Value>)
    requires |ctxs| > 0 && (a.Some? ==> IsEmptyText(mode, a.value))
    ensures BranchText(w, o, mode, a, ctxs) == Ok(Text(""))
  {
    if a.Some? {
      EmptyTexts(w, o, mode, a.value, ctxs);
    }
  }

  /** In the probing world a section tells whether the branch that is run always returns the empty text. */
  lemma ProbeBranch(n: nat, inverse: bool, o: Options, known: bool, m: Mustache, mode: Mode, p: Program,
                    main: Option<Program>, other: Option<Program>)
    requires n > Deepest(m)
    requires main.Some? ==> main.value < p
    requires other.Some? ==> other.value < p
    ensures var w, ctxs, a := Probe(inverse), Contexts(n, HELPER), if inverse then other else main;
            EvalSection(w, o, known, m, ctxs, Runner(w, o, mode, p, main, other, ctxs)) == Ok(Text("empty")) <==>
            a.None? || IsEmptyText(mode, a.value)
  {
    hide EvalSection, EvalProgram, Runner, IsEmptyText;
    var w, ctxs, a := Probe(inverse), Contexts(n, HELPER), if inverse then other else main;
    ProbeSection(inverse, o, known, m, ctxs, Runner(w, o, mode, p, main, other, ctxs));
    RunnerIs(w, o, mode, p, main, other, ctxs, inverse, HELPER);
    if a.Some? {
      EmptyOnlyIfAlways(inverse, o, mode, a.value, [HELPER] + ctxs);
    }
  }

  /** An inverse branch makes no difference exactly if it returns the empty text in every world. */
  lemma InverseMatters(n: nat, o: Options, known: bool, m: Mustache, mode: Mode, p: Program, main: Option<Program>,
                       a: Option<Program>)
    requires main.Some? ==> main.value < p
    requires a.Some? ==> a.value < p
    requires n > 0
    ensures a.None? || IsEmptyText(mode, a.value) ==> SameWithoutInverse(n, o, known, m, mode, p, main, a)
    ensures n > Deepest(m) && SameWithoutInverse(n, o, known, m, mode, p, main, a) ==>
            a.None? || IsEmptyText(mode, a.value)
  {
    hide EvalSection, Runner, IsEmptyText, Probe, Deepest;
    if a.None? || IsEmptyText(mode, a.value) {
      forall w: World, ctxs: seq<Value> | |ctxs| == n
        ensures EvalSection(w, o, known, m, ctxs, Runner(w, o, mode, p, main, a, ctxs)) ==
                EvalSection(w, o, known, m, ctxs, Runner(w, o, mode, p, main, None, ctxs))
      {
        forall b, c
          ensures Runner(w, o, mode, p, main, a, ctxs)(b, c) == Runner(w, o, mode, p, main, None, ctxs)(b, c)
        {
          RunnerIs(w, o, mode, p, main, a, ctxs, b, c);
          RunnerIs(w, o, mode, p, main, None, ctxs, b, c);
          EmptyBranchIs(w, o, mode, a, [c] + ctxs);
        }
        SectionAgrees(w, o, known, m, ctxs, Runner(w, o, mode, p, main, a, ctxs),
                      Runner(w, o, mode, p, main, None, ctxs));
      }
    } else if n > Deepest(m) {
      ProbeBranch(n, true, o, known, m, mode, p, main, a);
      ProbeBranch(n, true, o, known, m, mode, p, main, None);
      assert |Contexts(n, HELPER)| == n;
    }
  }

  lemma MainMatters(n: nat, o: Options, known: bool, m: Mustache, mode: Mode, p: Program, a: Option<Program>,
                    inverse: Option<Program>)
    requires a.Some? ==> a.value < p
    requires inverse.Some? ==> inverse.value < p
    requires n > 0
    ensures a.None? || IsEmptyText(mode, a.value) ==> SameWithoutMain(n, o, known, m, mode, p, a, inverse)
    ensures n > Deepest(m) && SameWithoutMain(n, o, known, m, mode, p, a, inverse) ==>
            a.None? || IsEmptyText(mode, a.value)
  {
    hide EvalSection, Runner, IsEmptyText, Probe, Deepest;
    if a.None? || IsEmptyText(mode, a.value) {
      forall w: World, ctxs: seq<Value> | |ctxs| == n
        ensures EvalSection(w, o, known, m, ctxs, Runner(w, o, mode, p, a, inverse, ctxs)) ==
                EvalSection(w, o, known, m, ctxs, Runner(w, o, mode, p, None, inverse, ctxs))
      {
        forall b, c
          ensures Runner(w, o, mode, p, a, inverse, ctxs)(b, c) == Runner(w, o, mode, p, None, inverse, ctxs)(b, c)
        {
          RunnerIs(w, o, mode, p, a, inverse, ctxs, b, c);
          RunnerIs(w, o, mode, p, None, inverse, ctxs, b, c);
          EmptyBranchIs(w, o, mode, a, [c] + ctxs);
        }
        SectionAgrees(w, o, known, m, ctxs, Runner(w, o, mode, p, a, inverse, ctxs),
                      Runner(w, o, mode, p, None, inverse, ctxs));
      }
    } else if n > Deepest(m) {
      ProbeBranch(n, false, o, known, m, mode, p, a, inverse);
      ProbeBranch(n, false, o, known, m, mode, p, None, inverse);
      assert |Contexts(n, HELPER)| == n;
    }
  }

  /** The body of the inverse section that a block inherits. */
  function StickyProgram(p: Program, i: nat): Program
    requires i <= |p.statements|
  {
    if StickyInverse(p, i).Some? then StickyInverse(p, i).value else Program([], None)
  }

  /**
   What is compiled for a block shows the same, in all worlds and contexts of a nesting that its paths do not
   reach out of, as with the block's own else branch, if and only if it has one, or no inverse section has come
   since the last block, or that section's body returns the empty text in every world.  If so, it does in any
   nesting.
   */
  lemma ElseBranchMatters(n: nat, o: Options, known: bool, p: Program, i: nat)
    requires n > 0 && i < |p.statements| && p.statements[i].Block? && p.statements[i].program < p &&
             p.statements[i].program.inverse.None?
    ensures var m, q := p.statements[i].mustache, p.statements[i].program;
            var same := SameWithoutInverse(n, o, known, m, AsEmitted, p, Some(q), ElseBranch(AsEmitted, p, i));
            (KeepsElse(p, i) ==> same) && (n > Deepest(m) ==> (same <==> KeepsElse(p, i)))
    ensures KeepsElse(p, i) <==> (AfterInverse(p, i) ==> IsEmptyText(AsEmitted, StickyProgram(p, i)))
  {
    hide SameWithoutInverse, IsEmptyText;
    StickyExactly(p, i);
    InverseMatters(n, o, known, p.statements[i].mustache, AsEmitted, p, Some(p.statements[i].program),
                   ElseBranch(AsEmitted, p, i));
  }

  /**
   What is compiled for an inverse section, which leaves out its else branch, shows what was meant if and
   only if it has none, or one that is empty in every world.
   */
  lemma DroppedElseMatters(n: nat, o: Options, known: bool, p: Program, i: nat)
    requires n > 0 && i < |p.statements| && p.statements[i].Inverse? && p.statements[i].program < p
    ensures var m, q := p.statements[i].mustache, p.statements[i].program;
            var same := SameWithoutMain(n, o, known, m, Intended, p, InverseMain(Intended, q), Some(q));
            var harmless := q.inverse.None? || IsEmptyText(Intended, q.inverse.value);
            (harmless ==> same) && (n > Deepest(m) ==> (same <==> harmless))
  {
    hide SameWithoutMain, IsEmptyText;
    var q := p.statements[i].program;
    MainMatters(n, o, known, p.statements[i].mustache, Intended, p, InverseMain(Intended, q), Some(q));
  }

  // ----- the known-helper flag

  /** A head without a name that is called as a helper throws, where it should show. */
  lemma PlainOutput(n: nat, o: Options, m: Mustache)
    requires Head(m.id).None? && n > Deepest(m)
    ensures var w, ctxs := Plain(), Contexts(n, Text("value"));
            EvalOutput(w, o, true, m, ctxs).Throw? && EvalOutput(w, o, false, m, ctxs).Ok?
  {
    hide EvalParts, Deepest;
    PlainBountiful();
    PartsGive(Plain(), o, Text("value"), m, Contexts(n, Text("value")));
  }

  lemma PlainSection(n: nat, o: Options, m: Mustache, runner: (bool, Value) -> Res<Value>)
    requires Head(m.id).None? && n > Deepest(m)
    ensures var w, ctxs := Plain(), Contexts(n, Text("value"));
            EvalSection(w, o, true, m, ctxs, runner).Throw? && EvalSection(w, o, false, m, ctxs, runner).Ok?
  {
    hide EvalParts, Deepest;
    PlainBountiful();
    PartsGive(Plain(), o, Text("value"), m, Contexts(n, Text("value")));
  }

  /**
   The flag makes no difference to what an output shows, in a nesting that its paths do not reach out of, if and
   only if its head has a name, or the last named path looked up since the last call did not name a known helper.
   */
  lemma FlagMatters(n: nat, o: Options, p: Program, i: nat, m: Mustache)
    requires n > 0 && i < |p.statements|
    ensures var same := forall w: World, ctxs: seq<Value> :: |ctxs| == n ==>
              EvalOutput(w, o, CallsKnownHelper(o, AsEmitted, p, i, m), m, ctxs) ==
              EvalOutput(w, o, CallsKnownHelper(o, Intended, p, i, m), m, ctxs);
            var harmless := Head(m.id).Some? || !EndsInHelper(o, PathsBefore(o, p, i, m));
            (harmless ==> same) && (n > Deepest(m) ==> (same <==> harmless))
  {
    hide EvalOutput, EndsInHelper, PathsBefore, Plain, Deepest;
    CallsExactly(o, p, i, m);
    if n > Deepest(m) && Head(m.id).None? && EndsInHelper(o, PathsBefore(o, p, i, m)) {
      PlainOutput(n, o, m);
      assert |Contexts(n, Text("value"))| == n;
    }
  }

  /** The same for a section, whatever its programs are. */
  lemma FlagMattersToSections(n: nat, o: Options, p: Program, i: nat, m: Mustache, runner: (bool, Value) -> Res<Value>)
    requires n > 0 && i < |p.statements|
    ensures var same := forall w: World, ctxs: seq<Value> :: |ctxs| == n ==>
              EvalSection(w, o, CallsKnownHelper(o, AsEmitted, p, i, m), m, ctxs, runner) ==
              EvalSection(w, o, CallsKnownHelper(o, Intended, p, i, m), m, ctxs, runner);
            var harmless := Head(m.id).Some? || !EndsInHelper(o, PathsBefore(o, p, i, m));
            (harmless ==> same) && (n > Deepest(m) ==> (same <==> harmless))
  {
    hide EvalSection, EndsInHelper, PathsBefore, Plain, Deepest;
    CallsExactly(o, p, i, m);
    if n > Deepest(m) && Head(m.id).None? && EndsInHelper(o, PathsBefore(o, p, i, m)) {
      PlainSection(n, o, m, runner);
      assert |Contexts(n, Text("value"))| == n;
    }
  }

  // ----- lone comments

  /** As long as escaping never gives an undefined value, a program returns one if and only if it is a lone comment. */
  lemma LoneCommentExactly(w: World, o: Options, p: Program, ctxs: seq<Value>)
    requires |ctxs| > 0 && forall v :: w.escape(v) != Ok(Undefined)
    ensures EvalProgram(w, o, AsEmitted, p, ctxs) == Ok(Undefined) <==> LoneComment(p)
    ensures LoneComment(p) ==> EvalProgram(w, o, Intended, p, ctxs) == Ok(Text(""))
  {
    hide EvalParts, EvalId, ApplyHead, ApplySection, EvalText, Runner;
  }
}
