/**
 What the evaluator says, told apart from how it is computed: which param ends up as which argument, whose value a
 repeated hash key has, where a name is looked up, in which order texts are joined, and what the built-in blocks show.
 */
module TemplateLaws {
  import opened JsRuntime
  import opened TemplateAst
  import opened TemplateEval
  import JsText

  // ----- paths

  /** Each `../` leads to the next context further out, and beyond the outermost there is nothing. */
  lemma ContextsCount(c: Value, ctxs: seq<Value>, d: nat)
    ensures ContextAt([c] + ctxs, 0) == c && ContextAt([c] + ctxs, d + 1) == ContextAt(ctxs, d)
    ensures ContextAt(ctxs, |ctxs| + d) == Undefined
  {
  }

  /** A name is looked up in anything but undefined and null, which throw. */
  lemma NameLookedUp(w: World, v: Value, name: string)
    ensures EvalPath(w, v, [name]) ==
            if v in [Undefined, Null] then Throw("cannot read property " + name) else Ok(w.prop(v, name))
  {
    assert [name][1..] == [];
  }

  /** The last name of a path is looked up in what the names in front of it lead to. */
  lemma {:induction false} PathStep(w: World, v: Value, names: seq<string>, name: string)
    ensures var r := EvalPath(w, v, names);
            EvalPath(w, v, names + [name]) == if r.Throw? then r else GetProp(w, r.value, name)
    decreases |names|
  {
    if names == [] {
      assert [] + [name] == [name] && [name][1..] == [];
    } else {
      assert (names + [name])[1..] == names[1..] + [name];
      var next := GetProp(w, v, names[0]);
      if next.Ok? {
        PathStep(w, next.value, names[1..], name);
      }
    }
  }

  /**
   The first name of a path is a helper if the path does not start with `this` and the name is a known helper or, unless
   only known helpers are allowed, any helper at all; otherwise it is a property of the context.
   */
  lemma HeadFrom(w: World, o: Options, id: IdNode, ctxs: seq<Value>, name: string)
    requires Head(id) == Some(name)
    ensures EvalHead(w, o, id, ctxs) ==
            if !id.isScoped && (name in o.known || (!o.knownOnly && w.helper(name) !in FALSY)) then Ok(w.helper(name))
            else GetProp(w, ContextAt(ctxs, id.depth), name)
  {
    TruthyExactly(w.helper(name));
  }

  // ----- arguments

  /** Literals stand for themselves; the text of an integer is read by the host. */
  lemma LiteralsGiven(w: World, o: Options, s: string, n: Numeral, b: bool, ctxs: seq<Value>)
    ensures EvalParam(w, o, StringParam(s), ctxs) == Ok(Text(s)) && EvalParam(w, o, IntegerParam(n), ctxs) ==
            Ok(w.literal(n))
    ensures EvalParam(w, o, BooleanParam(b), ctxs) == Ok(Bool(b))
  {
  }

  /**
   The arguments are those of the params, one for one and in order, with one context each in string mode and none
   otherwise.  An exception is that of the last param that throws.
   */
  lemma {:induction false} ParamsGiven(w: World, o: Options, params: seq<Param>, ctxs: seq<Value>)
    ensures var r := EvalParams(w, o, params, ctxs);
            && (r.Ok? <==> forall i :: 0 <= i < |params| ==> EvalArgument(w, o, params[i], ctxs).Ok?)
            && (r.Ok? ==>
                  && |r.value.values| == |params| && |r.value.contexts| == (if o.stringParams then |params| else 0)
                  && forall i :: 0 <= i < |params| ==>
                       EvalArgument(w, o, params[i], ctxs) ==
                       Ok((r.value.values[i], if o.stringParams then r.value.contexts[i] else Undefined)))
            && (r.Throw? ==> exists i :: 0 <= i < |params| && EvalArgument(w, o, params[i], ctxs) == Throw(r.error) &&
                              forall j :: i < j < |params| ==> EvalArgument(w, o, params[j], ctxs).Ok?)
    decreases |params|
  {
    hide EvalParam;
    if params != [] {
      var rest, a := EvalParams(w, o, params[1..], ctxs), EvalArgument(w, o, params[0], ctxs);
      ParamsGiven(w, o, params[1..], ctxs);
      assert forall i :: 0 < i < |params| ==> params[i] == params[1..][i - 1];
      if rest.Throw? {
        var i :| 0 <= i < |params[1..]| && EvalArgument(w, o, params[1..][i], ctxs) == Throw(rest.error) &&
                 forall j :: i < j < |params[1..]| ==> EvalArgument(w, o, params[1..][j], ctxs).Ok?;
        assert EvalArgument(w, o, params[i + 1], ctxs) == Throw(rest.error);
      } else if a.Throw? {
        assert EvalArgument(w, o, params[0], ctxs) == Throw(a.error);
      }
    }
  }

  /** With string params a path is passed as its text, which tells its names, with the context that it leads to. */
  lemma PathAsText(w: World, o: Options, id: IdNode, ctxs: seq<Value>)
    requires o.stringParams
    ensures var r := EvalArgument(w, o, IdParam(id), ctxs);
            && r.Ok? && r.value.0.Text? && r.value.1 == ContextAt(ctxs, id.depth)
            && (JsText.Split(r.value.0.s, '.') == id.parts <==> DotFree(id.parts))
  {
    DotsSplitExactly(id.parts);
  }

  /** No later pair has the key of this one. */
  predicate IsLast(pairs: seq<Pair>, i: int) {
    0 <= i < |pairs| && forall j :: i < j < |pairs| ==> pairs[j].key != pairs[i].key
  }

  predicate HasKey(pairs: seq<Pair>, key: string) {
    exists i :: 0 <= i < |pairs| && pairs[i].key == key
  }

  /** Exactly the keys of the pairs, each with the value of the last pair that gives it. */
  ghost predicate HoldsLast(w: World, o: Options, pairs: seq<Pair>, ctxs: seq<Value>, fields: map<string, Value>) {
    && (forall key :: key in fields <==> HasKey(pairs, key))
    && forall i :: IsLast(pairs, i) ==> EvalParam(w, o, pairs[i].value, ctxs) == Ok(fields[pairs[i].key])
  }

  ghost predicate AllGiven(w: World, o: Options, pairs: seq<Pair>, ctxs: seq<Value>, n: int) {
    n <= |pairs| && forall i :: 0 <= i < n ==> EvalParam(w, o, pairs[i].value, ctxs).Ok?
  }

  /** The value of this pair is the first that throws. */
  ghost predicate ThrowsAt(w: World, o: Options, pairs: seq<Pair>, ctxs: seq<Value>, error: string, i: int) {
    0 <= i < |pairs| && EvalParam(w, o, pairs[i].value, ctxs) == Throw(error) && AllGiven(w, o, pairs, ctxs, i)
  }

  /** The hash holds the value of the last pair for each key.  An exception is that of the first value that throws. */
  lemma {:induction false} PairsGiven(w: World, o: Options, pairs: seq<Pair>, ctxs: seq<Value>)
    ensures var r := EvalPairs(w, o, pairs, ctxs);
            && (r.Ok? <==> AllGiven(w, o, pairs, ctxs, |pairs|))
            && (r.Ok? ==> HoldsLast(w, o, pairs, ctxs, r.value))
            && (r.Throw? ==> exists i :: ThrowsAt(w, o, pairs, ctxs, r.error, i))
    decreases |pairs|
  {
    hide EvalParam, HoldsLast, AllGiven, ThrowsAt;
    if pairs == [] {
      NoPairs(w, o, ctxs);
    } else {
      var n := |pairs| - 1;
      var front, v := EvalPairs(w, o, pairs[..n], ctxs), EvalParam(w, o, pairs[n].value, ctxs);
      PairsGiven(w, o, pairs[..n], ctxs);
      assert pairs == pairs[..n] + [pairs[n]];
      GivenOn(w, o, pairs[..n], pairs[n], ctxs);
      if front.Throw? {
        var i :| ThrowsAt(w, o, pairs[..n], ctxs, front.error, i);
        ThrowsOn(w, o, pairs[..n], pairs[n], ctxs, front.error, i);
      } else if v.Throw? {
        ThrowsLast(w, o, pairs[..n], pairs[n], ctxs, v.error);
      } else {
        OneMorePair(w, o, pairs[..n], pairs[n], ctxs, front.value, v.value);
      }
    }
  }

  lemma GivenOn(w: World, o: Options, pairs: seq<Pair>, last: Pair, ctxs: seq<Value>)
    ensures AllGiven(w, o, pairs + [last], ctxs, |pairs| + 1) <==>
            AllGiven(w, o, pairs, ctxs, |pairs|) && EvalParam(w, o, last.value, ctxs).Ok?
  {
    hide EvalParam;
    var all := pairs + [last];
    assert all[|pairs|] == last && forall i :: 0 <= i < |pairs| ==> all[i] == pairs[i];
  }

  lemma ThrowsOn(w: World, o: Options, pairs: seq<Pair>, last: Pair, ctxs: seq<Value>, error: string, i: int)
    requires ThrowsAt(w, o, pairs, ctxs, error, i)
    ensures ThrowsAt(w, o, pairs + [last], ctxs, error, i)
  {
    hide EvalParam;
  }

  lemma ThrowsLast(w: World, o: Options, pairs: seq<Pair>, last: Pair, ctxs: seq<Value>, error: string)
    requires AllGiven(w, o, pairs, ctxs, |pairs|) && EvalParam(w, o, last.value, ctxs) == Throw(error)
    ensures ThrowsAt(w, o, pairs + [last], ctxs, error, |pairs|)
  {
    hide EvalParam;
  }

  lemma NoPairs(w: World, o: Options, ctxs: seq<Value>)
    ensures HoldsLast(w, o, [], ctxs, map[]) && AllGiven(w, o, [], ctxs, 0)
  {
  }

  lemma OneMorePair(w: World, o: Options, pairs: seq<Pair>, last: Pair, ctxs: seq<Value>, fields: map<string, Value>,
                    v: Value)
    requires HoldsLast(w, o, pairs, ctxs, fields) && EvalParam(w, o, last.value, ctxs) == Ok(v)
    ensures HoldsLast(w, o, pairs + [last], ctxs, fields[last.key := v])
  {
    hide EvalParam;
    var all, n := pairs + [last], |pairs|;
    assert all[n] == last && forall i :: 0 <= i < n ==> all[i] == pairs[i];
    forall key
      ensures key in fields[last.key := v] <==> HasKey(all, key)
    {
      if HasKey(pairs, key) {
        var i :| 0 <= i < n && pairs[i].key == key;
        assert all[i].key == key;
      }
    }
    forall i | IsLast(all, i)
      ensures EvalParam(w, o, all[i].value, ctxs) == Ok(fields[last.key := v][all[i].key])
    {
      if i < n {
        assert IsLast(pairs, i) && all[n].key != all[i].key;
      }
    }
  }

  // ----- what is shown

  /** What reaches the buffer unescaped: nothing for false, undefined and null, and 0 as it is. */
  lemma ShownExactly(v: Value)
    ensures Shown(v) == if v in [Undefined, Null, Bool(false)] then Text("") else v
  {
    TruthyExactly(v);
  }

  function ShownRes(r: Res<Value>): Res<Value> {
    if r.Ok? then Ok(if r.value in [Undefined, Null, Bool(false)] then Text("") else r.value) else r
  }

  /** A plain mustache shows the value of its path, escaped or not; an undefined one shows nothing. */
  lemma PlainOutput(w: World, o: Options, m: Mustache, ctxs: seq<Value>, v: Value)
    requires |ctxs| > 0 && m.params == [] && m.hash.None? && EvalId(w, o, m.id, ctxs) == Ok(v) && !v.Function?
    requires w.helper("helperMissing") == Function(HelperMissing)
    ensures EvalOutput(w, o, false, m, ctxs) == if m.escaped then w.escape(v) else ShownRes(Ok(v))
  {
    ShownExactly(v);
    assert EvalParts(w, o, m, ctxs) == Ok(Parts(Args([], []), Record(map[]), v));
    if v.Undefined? {
      var call := Call(HelperMissing, ctxs[0], [Text(m.id.original)] + [], Record(map[]), []);
      assert HelperStep(w, call, []) == Return(Undefined);
    }
  }

  /** An undefined head with arguments throws. */
  lemma MissingHelperThrows(w: World, o: Options, m: Mustache, ctxs: seq<Value>, x: Parts)
    requires |ctxs| > 0 && m.params != [] && EvalParts(w, o, m, ctxs) == Ok(x) && x.head.Undefined?
    requires w.helper("helperMissing") == Function(HelperMissing)
    ensures EvalOutput(w, o, false, m, ctxs) == Throw("Could not find property")
  {
    ParamsGiven(w, o, m.params, ctxs);
    var call := Call(HelperMissing, ctxs[0], [Text(m.id.original)] + x.args.values, x.hash, x.args.contexts);
    assert HelperStep(w, call, []) == Raise("Could not find property");
  }

  /**
   A user-written helper is called with the current context, the arguments, the hash and the contexts; if it stands in
   for a missing one, the path as it is written comes before the arguments.
   */
  lemma HelperGets(w: World, o: Options, m: Mustache, ctxs: seq<Value>, x: Parts, id: nat, v: Value)
    requires |ctxs| > 0 && EvalParts(w, o, m, ctxs) == Ok(x) && !m.escaped
    requires || x.head == Function(Custom(id))
             || (x.head.Undefined? && w.helper("helperMissing") == Function(Custom(id)))
    requires var values := if x.head.Undefined? then [Text(m.id.original)] + x.args.values else x.args.values;
             w.customStep(Call(Custom(id), ctxs[0], values, x.hash, x.args.contexts), []) == Return(v)
    ensures EvalOutput(w, o, false, m, ctxs) == ShownRes(Ok(v))
  {
    ShownExactly(v);
    hide EvalParts;
  }

  /**
   A section calls a user-written helper in the same way; one that stands in for `blockHelperMissing` gets the value of
   the path before the arguments.
   */
  lemma SectionHelperGets(w: World, o: Options, m: Mustache, ctxs: seq<Value>, x: Parts, id: nat, v: Value,
                          runner: (bool, Value) -> Res<Value>)
    requires |ctxs| > 0 && EvalParts(w, o, m, ctxs) == Ok(x)
    requires || x.head == Function(Custom(id))
             || (!x.head.Function? && w.helper("blockHelperMissing") == Function(Custom(id)))
    requires var values := if x.head.Function? then x.args.values else [x.head] + x.args.values;
             w.customStep(Call(Custom(id), ctxs[0], values, x.hash, x.args.contexts), []) == Return(v)
    ensures EvalSection(w, o, false, m, ctxs, runner) == ShownRes(Ok(v))
  {
    ShownExactly(v);
    hide EvalParts;
  }

  // ----- blocks

  /** The programs of a block run in the context that the helper gives them, inside the contexts around the block. */
  lemma ProgramsRun(w: World, o: Options, mode: Mode, p: Program, q: Program, other: Option<Program>,
                    ctxs: seq<Value>, c: Value)
    requires q < p && (other.Some? ==> other.value < p)
    ensures var runner := Runner(w, o, mode, p, Some(q), other, ctxs);
            && runner(false, c) == EvalProgram(w, o, mode, q, [c] + ctxs)
            && runner(true, c) == if other.Some? then EvalProgram(w, o, mode, other.value, [c] + ctxs) else Ok(Text(""))
  {
    hide EvalProgram;
  }

  /** A block of a known helper with one param. */
  ghost predicate HelperBlock(w: World, o: Options, p: Program, i: nat, name: string, f: FunctionId) {
    && i < |p.statements| && p.statements[i].Block? && name in o.known && name != "" && !o.stringParams
    && w.helper(name) == Function(f)
    && var m := p.statements[i].mustache;
       m.id.parts == [name] && !m.id.isScoped && |m.params| == 1 && m.hash.None?
  }

  function BlockRunner(w: World, o: Options, p: Program, i: nat, ctxs: seq<Value>): (bool, Value) -> Res<Value>
    requires i < |p.statements| && p.statements[i].Block?
  {
    (inverse, c) =>
      var q := if inverse then p.statements[i].program.inverse else Some(p.statements[i].program);
      if q.None? then Ok(Text("")) else EvalProgram(w, o, Intended, q.value, [c] + ctxs)
  }

  lemma HelperBlockRuns(w: World, o: Options, p: Program, i: nat, name: string, f: FunctionId, ctxs: seq<Value>,
                        v: Value)
    requires HelperBlock(w, o, p, i, name, f) && |ctxs| > 0
    requires EvalParam(w, o, p.statements[i].mustache.params[0], ctxs) == Ok(v)
    ensures EvalStatement(w, o, Intended, p, i, ctxs) ==
            ShownRes(Drive(w, Call(f, ctxs[0], [v], Record(map[]), []), true, BlockRunner(w, o, p, i, ctxs), []))
  {
    hide EvalProgram, Drive, EvalParam;
    var m, q := p.statements[i].mustache, p.statements[i].program;
    assert p.statements[i] < p;
    var runner := Runner(w, o, Intended, p, Some(q), ElseBranch(Intended, p, i), ctxs);
    DriveAgrees(w, Call(f, ctxs[0], [v], Record(map[]), []), true, runner, BlockRunner(w, o, p, i, ctxs), []);
    assert EvalParts(w, o, m, ctxs) == Ok(Parts(Args([v], []), Record(map[]), Function(f))) by {
      OneParam(w, o, m, ctxs, v);
      assert Tail(m.id) == [] && EvalId(w, o, m.id, ctxs) == Ok(Function(f));
    }
    var r := Drive(w, Call(f, ctxs[0], [v], Record(map[]), []), true, runner, []);
    if r.Ok? {
      ShownExactly(r.value);
    }
  }

  lemma OneParam(w: World, o: Options, m: Mustache, ctxs: seq<Value>, v: Value)
    requires !o.stringParams && |m.params| == 1 && EvalParam(w, o, m.params[0], ctxs) == Ok(v)
    ensures EvalParams(w, o, m.params, ctxs) == Ok(Args([v], []))
  {
    hide EvalParam;
    assert m.params[1..] == [] && [v] + [] == [v];
    assert EvalParams(w, o, [], ctxs) == Ok(Args([], []));
  }

  /** `{{#if x}}A{{else}}B{{/if}}` shows A in the current context if x holds and is no empty list, and otherwise B. */
  lemma IfBlockShows(w: World, o: Options, p: Program, i: nat, ctxs: seq<Value>, v: Value)
    requires HelperBlock(w, o, p, i, "if", If) && |ctxs| > 0
    requires EvalParam(w, o, p.statements[i].mustache.params[0], ctxs) == Ok(v)
    ensures var q := p.statements[i].program;
            EvalStatement(w, o, Intended, p, i, ctxs) ==
            ShownRes(if v !in FALSY + [List([])] then EvalProgram(w, o, Intended, q, [ctxs[0]] + ctxs)
                     else if q.inverse.None? then Ok(Text(""))
                     else EvalProgram(w, o, Intended, q.inverse.value, [ctxs[0]] + ctxs))
  {
    hide EvalProgram, Drive, EvalStatement;
    HelperBlockRuns(w, o, p, i, "if", If, ctxs, v);
    IfRuns(w, ctxs[0], v, Record(map[]), [], BlockRunner(w, o, p, i, ctxs));
  }

  /** `{{#with x}}A{{/with}}` shows A in the context x. */
  lemma WithBlockShows(w: World, o: Options, p: Program, i: nat, ctxs: seq<Value>, v: Value)
    requires HelperBlock(w, o, p, i, "with", With) && |ctxs| > 0
    requires EvalParam(w, o, p.statements[i].mustache.params[0], ctxs) == Ok(v)
    ensures EvalStatement(w, o, Intended, p, i, ctxs) ==
            ShownRes(EvalProgram(w, o, Intended, p.statements[i].program, [v] + ctxs))
  {
    hide EvalProgram, Drive, EvalStatement;
    HelperBlockRuns(w, o, p, i, "with", With, ctxs, v);
    WithRuns(w, ctxs[0], v, Record(map[]), [], BlockRunner(w, o, p, i, ctxs));
  }

  /** `{{#each xs}}A{{else}}B{{/each}}` over a list shows A for every element, in order, or B if there is none. */
  lemma EachBlockShows(w: World, o: Options, p: Program, i: nat, ctxs: seq<Value>, items: seq<Value>)
    requires HelperBlock(w, o, p, i, "each", Each) && |ctxs| > 0
    requires EvalParam(w, o, p.statements[i].mustache.params[0], ctxs) == Ok(List(items))
    ensures var runner := BlockRunner(w, o, p, i, ctxs);
            EvalStatement(w, o, Intended, p, i, ctxs) ==
            ShownRes(if items == [] then runner(true, ctxs[0]) else AsText(RunOver(w, items, runner)))
  {
    hide EvalProgram, Drive, EvalStatement, RunOver;
    HelperBlockRuns(w, o, p, i, "each", Each, ctxs, List(items));
    EachRuns(w, ctxs[0], List(items), Record(map[]), [], BlockRunner(w, o, p, i, ctxs));
  }

  // ----- sections without a helper

  /** What a section over a value shows, given what its two programs return. */
  function SectionOf(w: World, self: Value, v: Value, runner: (bool, Value) -> Res<Value>): Res<Value> {
    if v == Bool(true) then runner(false, self)
    else if v in [Bool(false), Undefined, Null, List([])] then runner(true, self)
    else if v.List? then AsText(RunOver(w, v.items, runner))
    else runner(false, v)
  }

  lemma SectionShows(w: World, o: Options, m: Mustache, ctxs: seq<Value>, v: Value, runner: (bool, Value) -> Res<Value>)
    requires |ctxs| > 0 && m.params == [] && m.hash.None? && EvalId(w, o, m.id, ctxs) == Ok(v) && !v.Function?
    requires w.helper("blockHelperMissing") == Function(BlockHelperMissing)
    ensures EvalSection(w, o, false, m, ctxs, runner) == ShownRes(SectionOf(w, ctxs[0], v, runner))
  {
    hide Drive, RunOver, EvalId;
    assert EvalParts(w, o, m, ctxs) == Ok(Parts(Args([], []), Record(map[]), v));
    assert [v] + [] == [v];
    BlockMissingRuns(w, ctxs[0], v, Record(map[]), [], runner);
    var r := SectionOf(w, ctxs[0], v, runner);
    if r.Ok? {
      ShownExactly(r.value);
    }
  }

  /** `{{#x}}A{{else}}B{{/x}}` is a section over x of A and B, run inside the contexts around it. */
  lemma BlockShows(w: World, o: Options, p: Program, i: nat, ctxs: seq<Value>, v: Value)
    requires i < |p.statements| && p.statements[i].Block? && |ctxs| > 0
    requires var m := p.statements[i].mustache;
             m.params == [] && m.hash.None? && !NamesKnownHelper(o, m.id) && EvalId(w, o, m.id, ctxs) == Ok(v)
    requires !v.Function? && w.helper("blockHelperMissing") == Function(BlockHelperMissing)
    ensures EvalStatement(w, o, Intended, p, i, ctxs) ==
            ShownRes(SectionOf(w, ctxs[0], v, BlockRunner(w, o, p, i, ctxs)))
  {
    hide EvalProgram, EvalSection, SectionOf;
    var q := p.statements[i].program;
    assert p.statements[i] < p;
    var runner := Runner(w, o, Intended, p, Some(q), ElseBranch(Intended, p, i), ctxs);
    SectionShows(w, o, p.statements[i].mustache, ctxs, v, runner);
    SameSection(w, ctxs[0], v, runner, BlockRunner(w, o, p, i, ctxs));
  }

  /** `{{^x}}A{{else}}B{{/x}}` is meant as a section over x of B and A. */
  lemma InverseShows(w: World, o: Options, p: Program, i: nat, ctxs: seq<Value>, v: Value)
    requires i < |p.statements| && p.statements[i].Inverse? && |ctxs| > 0
    requires var m := p.statements[i].mustache;
             m.params == [] && m.hash.None? && !NamesKnownHelper(o, m.id) && EvalId(w, o, m.id, ctxs) == Ok(v)
    requires !v.Function? && w.helper("blockHelperMissing") == Function(BlockHelperMissing)
    ensures EvalStatement(w, o, Intended, p, i, ctxs) ==
            ShownRes(SectionOf(w, ctxs[0], v, InverseRunner(w, o, p, i, ctxs)))
  {
    hide EvalProgram, EvalSection, SectionOf;
    var q := p.statements[i].program;
    assert p.statements[i] < p;
    var runner := Runner(w, o, Intended, p, InverseMain(Intended, q), Some(q), ctxs);
    SectionShows(w, o, p.statements[i].mustache, ctxs, v, runner);
    SameSection(w, ctxs[0], v, runner, InverseRunner(w, o, p, i, ctxs));
  }

  function InverseRunner(w: World, o: Options, p: Program, i: nat, ctxs: seq<Value>): (bool, Value) -> Res<Value>
    requires i < |p.statements| && p.statements[i].Inverse?
  {
    (inverse, c) =>
      var q := if inverse then Some(p.statements[i].program) else p.statements[i].program.inverse;
      if q.None? then Ok(Text("")) else EvalProgram(w, o, Intended, q.value, [c] + ctxs)
  }

  lemma SameSection(w: World, self: Value, v: Value, r1: (bool, Value) -> Res<Value>, r2: (bool, Value) -> Res<Value>)
    requires forall b, c :: r1(b, c) == r2(b, c)
    ensures SectionOf(w, self, v, r1) == SectionOf(w, self, v, r2)
  {
    if v.List? {
      SameRows(w, v.items, r1, r2);
    }
  }

  lemma {:induction false} SameRows(w: World, items: seq<Value>, r1: (bool, Value) -> Res<Value>,
                                    r2: (bool, Value) -> Res<Value>)
    requires forall b, c :: r1(b, c) == r2(b, c)
    ensures RunOver(w, items, r1) == RunOver(w, items, r2)
    decreases |items|
  {
    if items != [] {
      assert r1(false, items[0]) == r2(false, items[0]);
      SameRows(w, items[1..], r1, r2);
    }
  }

  // ----- partials and programs

  /** A partial without a context is one in the context `this`. */
  lemma PartialInThis(w: World, o: Options, name: string, original: string, ctxs: seq<Value>)
    requires |ctxs| > 0
    ensures EvalPartial(w, o, name, None, ctxs) == EvalPartial(w, o, name, Some(Id([], 0, true, original)), ctxs)
    ensures EvalPartial(w, o, name, None, ctxs) == ShownRes(w.partialCall(name, ctxs[0]))
  {
    var r := w.partialCall(name, ctxs[0]);
    if r.Ok? {
      ShownExactly(r.value);
    }
  }

  /**
   What a program puts into the buffer is the text of its statements, one behind the other: behind the first `k` of
   them stands the text of the next one.
   */
  lemma {:induction false} TextPieces(w: World, o: Options, mode: Mode, p: Program, k: nat, n: nat, ctxs: seq<Value>)
    requires k < n <= |p.statements| && |ctxs| > 0 && EvalText(w, o, mode, p, n, ctxs).Ok?
    ensures var s, before, v := EvalText(w, o, mode, p, n, ctxs).value, EvalText(w, o, mode, p, k, ctxs),
                EvalStatement(w, o, mode, p, k, ctxs);
            before.Ok? && v.Ok? && before.value + ToText(w, v.value) <= s
    ensures EvalText(w, o, mode, p, 0, ctxs) == Ok("")
    ensures k + 1 == n ==> |EvalText(w, o, mode, p, n, ctxs).value| == |EvalText(w, o, mode, p, k, ctxs).value| +
                                                                       |ToText(w, EvalStatement(w, o, mode, p, k,
                                                                           ctxs).value)|
    decreases n
  {
    hide EvalStatement, ToText;
    if k + 1 < n {
      TextPieces(w, o, mode, p, k, n - 1, ctxs);
    }
  }
}
