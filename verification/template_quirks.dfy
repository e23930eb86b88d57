/**
 Where the compiled code departs from the intended meaning of a template, and exactly when.
 Three pieces of state leak: the declared inverse, the known-helper flag and the last parameter of
 some nested functions.
 */
module TemplateQuirks {
  import opened JsRuntime
  import opened TemplateAst
  import opened TemplateEval
  import FirstPass
  import SlotMachine
  import TemplateLink
  import opened TemplateProof

  // ----- the declared inverse

  /** An inverse section before statement `i` with no block between. */
  ghost predicate AfterInverse(p: Program, i: nat)
    requires i <= |p.statements|
  {
    exists j :: 0 <= j < i && p.statements[j].Inverse? && forall k :: j < k < i ==> !p.statements[k].Block?
  }

  /** An inverse is still declared exactly after an inverse section that no block has followed. */
  lemma {:induction false} StickyExactly(p: Program, i: nat)
    requires i <= |p.statements|
    ensures StickyInverse(p, i).Some? <==> AfterInverse(p, i)
    decreases i
  {
    if i > 0 {
      StickyExactly(p, i - 1);
      if p.statements[i - 1].Inverse? {
        assert AfterInverse(p, i);
      } else if !p.statements[i - 1].Block? && AfterInverse(p, i - 1) {
        var j :| 0 <= j < i - 1 && p.statements[j].Inverse? && forall k :: j < k < i - 1 ==> !p.statements[k].Block?;
        assert AfterInverse(p, i);
      }
    }
  }

  /** A block gets a foreign else branch exactly when it has none of its own and follows an inverse section. */
  lemma ElseBranchExactly(p: Program, i: nat)
    requires i < |p.statements| && p.statements[i].Block?
    ensures ElseBranch(AsEmitted, p, i) == ElseBranch(Intended, p, i) <==>
            p.statements[i].program.inverse.Some? || !AfterInverse(p, i)
  {
    StickyExactly(p, i);
  }

  // ----- the known-helper flag

  /** The contexts of partials that are looked up since the last call before statement `i`, in order. */
  function PartialPaths(stmts: seq<Statement>, i: nat): seq<IdNode>
    requires i <= |stmts|
  {
    if i == 0 then []
    else
      match stmts[i - 1]
      case Content(_) => PartialPaths(stmts, i - 1)
      case Comment => PartialPaths(stmts, i - 1)
      case Partial(_, context) => PartialPaths(stmts, i - 1) + (if context.Some? then [context.value] else [])
      case _ => []
  }

  function PathOf(param: Param): seq<IdNode> {
    if param.IdParam? then [param.id] else []
  }

  /** Params are looked up from the last to the first. */
  function ParamPaths(o: Options, params: seq<Param>): seq<IdNode> {
    if o.stringParams || params == [] then [] else ParamPaths(o, params[1..]) + PathOf(params[0])
  }

  function PairPaths(pairs: seq<Pair>): seq<IdNode> {
    if pairs == [] then [] else PairPaths(pairs[..|pairs| - 1]) + PathOf(pairs[|pairs| - 1].value)
  }

  /** All paths looked up between the last call and the head of mustache `m` of statement `i`. */
  function PathsBefore(o: Options, p: Program, i: nat, m: Mustache): seq<IdNode>
    requires i <= |p.statements|
  {
    PartialPaths(p.statements, i) + ParamPaths(o, m.params) + (if m.hash.Some? then PairPaths(m.hash.value) else [])
  }

  /** The last of the paths that starts with a name starts with that of a known helper. */
  predicate EndsInHelper(o: Options, paths: seq<IdNode>) {
    exists j :: 0 <= j < |paths| && NamesKnownHelper(o, paths[j]) && forall k :: j < k < |paths| ==>
        Head(paths[k]).None?
  }

  lemma EndsInAppended(o: Options, a: seq<IdNode>, id: IdNode)
    ensures EndsInHelper(o, a + [id]) <==> KnownAfterId(o, id, EndsInHelper(o, a))
  {
    var b := a + [id];
    if Head(id).None? {
      if j :| 0 <= j < |a| && NamesKnownHelper(o, a[j]) && forall k :: j < k < |a| ==> Head(a[k]).None? {
        assert NamesKnownHelper(o, b[j]);
      }
      if j :| 0 <= j < |b| && NamesKnownHelper(o, b[j]) && forall k :: j < k < |b| ==> Head(b[k]).None? {
        assert NamesKnownHelper(o, a[j]);
        assert forall k :: j < k < |a| ==> b[k] == a[k];
      }
    } else {
      if NamesKnownHelper(o, id) {
        assert NamesKnownHelper(o, b[|a|]);
      }
      if j :| 0 <= j < |b| && NamesKnownHelper(o, b[j]) && forall k :: j < k < |b| ==> Head(b[k]).None? {
        assert Head(b[|a|]).Some?;
        assert j == |a|;
      }
    }
  }

  lemma EndsAfterParam(o: Options, a: seq<IdNode>, param: Param)
    ensures EndsInHelper(o, a + PathOf(param)) <==> KnownAfterParam(o, param, EndsInHelper(o, a))
  {
    hide EndsInHelper;
    if param.IdParam? {
      EndsInAppended(o, a, param.id);
    } else {
      assert a + [] == a;
    }
  }

  lemma {:induction false} FlagAfterPartials(o: Options, stmts: seq<Statement>, i: nat)
    requires i <= |stmts|
    ensures StaleKnown(o, stmts, i) <==> EndsInHelper(o, PartialPaths(stmts, i))
    decreases i
  {
    if i > 0 {
      FlagAfterPartials(o, stmts, i - 1);
      var before := PartialPaths(stmts, i - 1);
      match stmts[i - 1] {
        case Partial(_, context) =>
          if context.Some? {
            EndsInAppended(o, before, context.value);
          } else {
            assert before + [] == before;
          }
        case _ =>
      }
    }
  }

  lemma {:induction false} FlagAfterParams(o: Options, a: seq<IdNode>, params: seq<Param>)
    ensures KnownAfterParams(o, params, EndsInHelper(o, a)) <==> EndsInHelper(o, a + ParamPaths(o, params))
    decreases |params|
  {
    hide EndsInHelper;
    if o.stringParams || params == [] {
      assert a + [] == a;
    } else {
      FlagAfterParams(o, a, params[1..]);
      EndsAfterParam(o, a + ParamPaths(o, params[1..]), params[0]);
      assert a + ParamPaths(o, params) == a + ParamPaths(o, params[1..]) + PathOf(params[0]);
    }
  }

  lemma {:induction false} FlagAfterPairs(o: Options, a: seq<IdNode>, pairs: seq<Pair>)
    ensures KnownAfterPairs(o, pairs, EndsInHelper(o, a)) <==> EndsInHelper(o, a + PairPaths(pairs))
    decreases |pairs|
  {
    hide EndsInHelper;
    if pairs == [] {
      assert a + [] == a;
    } else {
      var rest, last := pairs[..|pairs| - 1], pairs[|pairs| - 1].value;
      FlagAfterPairs(o, a, rest);
      EndsAfterParam(o, a + PairPaths(rest), last);
      assert a + PairPaths(pairs) == a + PairPaths(rest) + PathOf(last);
    }
  }

  /**
   The flag is wrong exactly for a head without a name, when the last named path looked up since the last
   call named a known helper.
   */
  lemma CallsExactly(o: Options, p: Program, i: nat, m: Mustache)
    requires i < |p.statements|
    ensures CallsKnownHelper(o, AsEmitted, p, i, m) == CallsKnownHelper(o, Intended, p, i, m) <==>
            Head(m.id).Some? || !EndsInHelper(o, PathsBefore(o, p, i, m))
  {
    hide EndsInHelper;
    var partials := PartialPaths(p.statements, i);
    FlagAfterPartials(o, p.statements, i);
    FlagAfterParams(o, partials, m.params);
    if m.hash.Some? {
      FlagAfterPairs(o, partials + ParamPaths(o, m.params), m.hash.value);
    } else {
      assert PathsBefore(o, p, i, m) == partials + ParamPaths(o, m.params);
    }
  }

  // ----- programs that show nothing

  /** A statement that contributes no text in any world. */
  predicate SaysNothing(s: Statement) {
    s.Comment? || s == Content("")
  }

  predicate LoneComment(q: Program) {
    |q.statements| == 1 && q.statements[0].Comment?
  }

  /** A program that returns the empty text in every world. */
  predicate IsEmptyText(mode: Mode, q: Program) {
    (forall j :: 0 <= j < |q.statements| ==> SaysNothing(q.statements[j])) && (mode.AsEmitted? ==> !LoneComment(q))
  }

  lemma {:induction false} SilentText(w: World, o: Options, mode: Mode, q: Program, n: nat, ctxs: seq<Value>)
    requires n <= |q.statements| && |ctxs| > 0 && forall j :: 0 <= j < |q.statements| ==> SaysNothing(q.statements[j])
    ensures EvalText(w, o, mode, q, n, ctxs) == Ok("")
    decreases n
  {
    if n > 0 {
      SilentText(w, o, mode, q, n - 1, ctxs);
      assert SaysNothing(q.statements[n - 1]);
      assert EvalStatement(w, o, mode, q, n - 1, ctxs) == Ok(Text(""));
      assert "" + "" == "";
    }
  }

  lemma EmptyTexts(w: World, o: Options, mode: Mode, q: Program, ctxs: seq<Value>)
    requires IsEmptyText(mode, q) && |ctxs| > 0
    ensures EvalProgram(w, o, mode, q, ctxs) == Ok(Text(""))
  {
    if |q.statements| == 1 {
      assert SaysNothing(q.statements[0]);
    } else {
      SilentText(w, o, mode, q, |q.statements|, ctxs);
    }
  }

  // ----- regular templates

  function MustacheOf(s: Statement): Option<Mustache> {
    match s
    case Output(m) => Some(m)
    case Block(m, _) => Some(m)
    case Inverse(m, _) => Some(m)
    case _ => None
  }

  /** A block that is given no foreign text: it has an else branch, or inherits none, or inherits one without text. */
  ghost predicate KeepsElse(p: Program, i: nat)
    requires i < |p.statements| && p.statements[i].Block?
  {
    p.statements[i].program.inverse.Some? || StickyInverse(p, i).None? ||
        IsEmptyText(AsEmitted, StickyInverse(p, i).value)
  }

  ghost predicate RegularStatement(o: Options, p: Program, i: nat)
    requires i < |p.statements|
  {
    var s := p.statements[i];
    var m := MustacheOf(s);
    && (m.Some? ==> Head(m.value.id).Some? || !EndsInHelper(o, PathsBefore(o, p, i, m.value)))
    && (s.Block? ==> KeepsElse(p, i))
    && (s.Inverse? ==> s.program.inverse.None? || IsEmptyText(Intended, s.program.inverse.value))
  }

  ghost predicate Regular(o: Options, p: Program) {
    && !LoneComment(p)
    && (forall i :: 0 <= i < |p.statements| ==> RegularStatement(o, p, i))
    && (forall k :: 0 <= k < |Nested(p)| ==> RegularKid(o, p, k))
  }

  ghost predicate RegularKid(o: Options, p: Program, k: nat)
    requires k < |Nested(p)|
  {
    NestedSmaller(p, |p.statements|, k);
    Regular(o, Nested(p)[k])
  }

  /** A whole template: what stands behind an `{{else}}` outside of all blocks is never compiled. */
  ghost predicate RegularTemplate(o: Options, p: Program) {
    p.inverse.None? && Regular(o, p)
  }

  /** What a program returns, an absent one being empty. */
  function BranchText(w: World, o: Options, mode: Mode, q: Option<Program>, ctxs: seq<Value>): Res<Value>
    requires |ctxs| > 0
  {
    if q.None? then Ok(Text("")) else EvalProgram(w, o, mode, q.value, ctxs)
  }

  /** One branch as emitted returns what another one is meant to return, in all contexts. */
  ghost predicate SameBranch(w: World, o: Options, emitted: Option<Program>, intended: Option<Program>) {
    forall ctxs: seq<Value> :: |ctxs| > 0 ==>
        BranchText(w, o, AsEmitted, emitted, ctxs) == BranchText(w, o, Intended, intended, ctxs)
  }

  lemma RunnerIs(w: World, o: Options, mode: Mode, p: Program, main: Option<Program>, inverse: Option<Program>,
                 ctxs: seq<Value>, b: bool, c: Value)
    requires main.Some? ==> main.value < p
    requires inverse.Some? ==> inverse.value < p
    ensures Runner(w, o, mode, p, main, inverse, ctxs)(b, c) ==
            BranchText(w, o, mode, if b then inverse else main, [c] + ctxs)
  {
  }

  /** A section depends on its two programs only through what they return. */
  lemma SectionAgrees(w: World, o: Options, known: bool, m: Mustache, ctxs: seq<Value>,
                      r1: (bool, Value) -> Res<Value>, r2: (bool, Value) -> Res<Value>)
    requires |ctxs| > 0 && forall b, c :: r1(b, c) == r2(b, c)
    ensures EvalSection(w, o, known, m, ctxs, r1) == EvalSection(w, o, known, m, ctxs, r2)
  {
    hide EvalParts, CallValue;
    var x := EvalParts(w, o, m, ctxs);
    if x.Ok? {
      var a := x.value.args;
      CallAgrees(w, x.value.head, ctxs[0], a.values, x.value.hash, a.contexts, true, r1, r2);
      CallAgrees(w, w.helper("blockHelperMissing"), ctxs[0], [x.value.head] + a.values, x.value.hash, a.contexts, true,
                 r1, r2);
    }
  }

  lemma SectionsSame(w: World, o: Options, p: Program, known: bool, m: Mustache, ctxs: seq<Value>,
                     main: Option<Program>, inverse: Option<Program>, main': Option<Program>, inverse': Option<Program>)
    requires |ctxs| > 0 && SameBranch(w, o, main, main') && SameBranch(w, o, inverse, inverse')
    requires main.Some? ==> main.value < p
    requires inverse.Some? ==> inverse.value < p
    requires main'.Some? ==> main'.value < p
    requires inverse'.Some? ==> inverse'.value < p
    ensures EvalSection(w, o, known, m, ctxs, Runner(w, o, AsEmitted, p, main, inverse, ctxs)) ==
            EvalSection(w, o, known, m, ctxs, Runner(w, o, Intended, p, main', inverse', ctxs))
  {
    hide Runner, BranchText, EvalSection;
    var r1, r2 := Runner(w, o, AsEmitted, p, main, inverse, ctxs), Runner(w, o, Intended, p, main', inverse', ctxs);
    forall b, c
      ensures r1(b, c) == r2(b, c)
    {
      RunnerIs(w, o, AsEmitted, p, main, inverse, ctxs, b, c);
      RunnerIs(w, o, Intended, p, main', inverse', ctxs, b, c);
      assert |[c] + ctxs| > 0;
    }
    SectionAgrees(w, o, known, m, ctxs, r1, r2);
  }

  lemma NoBranch(w: World, o: Options)
    ensures SameBranch(w, o, None, None)
  {
  }

  lemma KidSame(w: World, o: Options, p: Program, k: nat, q: Program)
    requires k < |Nested(p)| && q == Nested(p)[k] && q < p && Regular(o, p)
    ensures SameBranch(w, o, Some(q), Some(q))
    decreases p, 0
  {
    assert RegularKid(o, p, k);
    forall cs: seq<Value> | |cs| > 0
      ensures EvalProgram(w, o, AsEmitted, q, cs) == EvalProgram(w, o, Intended, q, cs)
    {
      RegularMeaning(w, o, q, cs);
    }
  }

  lemma EmptyInherited(w: World, o: Options, q: Program)
    requires IsEmptyText(AsEmitted, q)
    ensures SameBranch(w, o, Some(q), None)
  {
    forall cs: seq<Value> | |cs| > 0
      ensures EvalProgram(w, o, AsEmitted, q, cs) == Ok(Text(""))
    {
      EmptyTexts(w, o, AsEmitted, q, cs);
    }
  }

  lemma EmptyDropped(w: World, o: Options, q: Program)
    requires IsEmptyText(Intended, q)
    ensures SameBranch(w, o, None, Some(q))
  {
    forall cs: seq<Value> | |cs| > 0
      ensures EvalProgram(w, o, Intended, q, cs) == Ok(Text(""))
    {
      EmptyTexts(w, o, Intended, q, cs);
    }
  }

  lemma BlockSame(w: World, o: Options, p: Program, i: nat, ctxs: seq<Value>)
    requires i < |p.statements| && p.statements[i].Block? && Regular(o, p) && |ctxs| > 0
    ensures EvalStatement(w, o, AsEmitted, p, i, ctxs) == EvalStatement(w, o, Intended, p, i, ctxs)
    decreases p, 1
  {
    hide Runner, EvalSection, SameBranch, IsEmptyText, EndsInHelper, PathsBefore, CallsKnownHelper;
    var m, q := p.statements[i].mustache, p.statements[i].program;
    assert p.statements[i] < p && RegularStatement(o, p, i);
    CallsExactly(o, p, i, m);
    NestedAt(p, i, 0);
    KidSame(w, o, p, |NestedUpTo(p.statements, i)|, q);
    if q.inverse.Some? {
      NestedAt(p, i, 1);
      KidSame(w, o, p, |NestedUpTo(p.statements, i)| + 1, q.inverse.value);
    } else if StickyInverse(p, i).Some? {
      EmptyInherited(w, o, StickyInverse(p, i).value);
    } else {
      NoBranch(w, o);
    }
    SectionsSame(w, o, p, CallsKnownHelper(o, Intended, p, i, m), m, ctxs,
                 Some(q), ElseBranch(AsEmitted, p, i), Some(q), ElseBranch(Intended, p, i));
  }

  lemma InverseSame(w: World, o: Options, p: Program, i: nat, ctxs: seq<Value>)
    requires i < |p.statements| && p.statements[i].Inverse? && Regular(o, p) && |ctxs| > 0
    ensures EvalStatement(w, o, AsEmitted, p, i, ctxs) == EvalStatement(w, o, Intended, p, i, ctxs)
    decreases p, 1
  {
    hide Runner, EvalSection, SameBranch, IsEmptyText, EndsInHelper, PathsBefore, CallsKnownHelper;
    var m, q := p.statements[i].mustache, p.statements[i].program;
    assert p.statements[i] < p && RegularStatement(o, p, i);
    CallsExactly(o, p, i, m);
    NestedAt(p, i, 0);
    KidSame(w, o, p, |NestedUpTo(p.statements, i)|, q);
    if q.inverse.Some? {
      EmptyDropped(w, o, q.inverse.value);
    } else {
      NoBranch(w, o);
    }
    SectionsSame(w, o, p, CallsKnownHelper(o, Intended, p, i, m), m, ctxs, None, Some(q), InverseMain(Intended, q),
                 Some(q));
  }

  lemma StatementSame(w: World, o: Options, p: Program, i: nat, ctxs: seq<Value>)
    requires i < |p.statements| && Regular(o, p) && |ctxs| > 0
    ensures EvalStatement(w, o, AsEmitted, p, i, ctxs) == EvalStatement(w, o, Intended, p, i, ctxs)
    decreases p, 2
  {
    match p.statements[i]
    case Output(m) =>
      assert RegularStatement(o, p, i);
      CallsExactly(o, p, i, m);
    case Block(_, _) => BlockSame(w, o, p, i, ctxs);
    case Inverse(_, _) => InverseSame(w, o, p, i, ctxs);
    case _ =>
  }

  lemma {:induction false} TextSame(w: World, o: Options, p: Program, n: nat, ctxs: seq<Value>)
    requires n <= |p.statements| && Regular(o, p) && |ctxs| > 0
    ensures EvalText(w, o, AsEmitted, p, n, ctxs) == EvalText(w, o, Intended, p, n, ctxs)
    decreases p, 3, n
  {
    hide Regular, EvalStatement, ToText;
    if n > 0 {
      TextSame(w, o, p, n - 1, ctxs);
      StatementSame(w, o, p, n - 1, ctxs);
    }
  }

  /** A regular template means what it should. */
  lemma {:induction false} RegularMeaning(w: World, o: Options, p: Program, ctxs: seq<Value>)
    requires Regular(o, p) && |ctxs| > 0
    ensures EvalProgram(w, o, AsEmitted, p, ctxs) == EvalProgram(w, o, Intended, p, ctxs)
    decreases p, 4
  {
    hide EvalStatement, EvalText, RegularStatement, RegularKid;
    if |p.statements| == 1 {
      StatementSame(w, o, p, 0, ctxs);
    } else {
      TextSame(w, o, p, |p.statements|, ctxs);
    }
  }

  /** Compiled regular templates have their intended meaning. */
  lemma CompiledMeaning(w: World, o: Options, p: Program, junk: SlotMachine.Tmp, ctx: Value)
    requires FirstPass.Encodable(o, p) && KeepsDepths(o, p) && RegularTemplate(o, p)
    ensures Render(w, CompiledOf(o, TemplateLink.UnitOf(o, p)), junk, ctx) == EvalProgram(w, o, Intended, p, [ctx])
  {
    hide Render, EvalProgram, KeepsDepths, Regular, FirstPass.Encodable, CompiledOf, TemplateLink.UnitOf;
    CompilerCorrect(w, o, p, junk, ctx);
    RegularMeaning(w, o, p, [ctx]);
  }
}
