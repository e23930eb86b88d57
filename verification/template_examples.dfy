/** Templates that show where the compiled code departs from their intended meaning. */
module TemplateExamples {
  import opened JsRuntime
  import opened TemplateAst
  import opened TemplateEval
  import opened Opcodes
  import opened FirstPass
  import opened CodeGen
  import opened SlotMachine
  import opened ExpressionProof
  import CallProof
  import opened TemplateLink
  import opened TemplateProof

  // ----- the dropped parameter

  /**
   A nested function sees all the contexts it needs, whatever they are, exactly when it does not have
   two depths and no partial.
   */
  lemma DepthsSeenExactly(o: Options, l: Linked, q: Program, index: nat, c: Value)
    ensures (forall ctxs: seq<Value> :: |ctxs| > 0 ==> ChildSeesAll(o, l, q, index, c, ctxs)) <==>
            !DropsLastDepth(Ascending(Needs(o, q)), UsesPartial(q))
  {
    var depths := Ascending(Needs(o, q));
    if DropsLastDepth(depths, UsesPartial(q)) {
      var d := depths[1];
      assert d in ToSet(depths) && depths[0] < d;
      var ctxs := seq(d + 1, i => Null);
      var f := FrameOf(ChildFn(o, UnitOf(o, q), index), index, c, OuterValues(ctxs, depths));
      assert d !in f.scope;
      assert ContextAt([c] + ctxs, d) == Null;
      assert !ChildSeesAll(o, l, q, index, c, ctxs);
    } else {
      forall ctxs: seq<Value> | |ctxs| > 0 {
        ChildSees(o, l, q, index, c, ctxs);
      }
    }
  }

  ghost predicate ChildSeesAll(o: Options, l: Linked, q: Program, index: nat, c: Value, ctxs: seq<Value>) {
    SeesContexts(l, FrameOf(ChildFn(o, UnitOf(o, q), index), index, c, OuterValues(ctxs, Ascending(Needs(o, q)))),
                 [c] + ctxs, Needs(o, q))
  }

  const PLAIN_OPTIONS := Options({"if"}, false, false)

  /** `{{{../../y}}}{{{../x}}}` */
  const TWO_DEPTHS := Program([Output(Mustache(Id(["y"], 2, false, "y"), [], None, false)),
                              Output(Mustache(Id(["x"], 1, false, "x"), [], None, false))], None)

  lemma TwoDepthsNeeds()
    ensures Needs(PLAIN_OPTIONS, TWO_DEPTHS) == {1, 2} && !UsesPartial(TWO_DEPTHS)
    ensures DropsLastDepth(Ascending(Needs(PLAIN_OPTIONS, TWO_DEPTHS)), UsesPartial(TWO_DEPTHS))
  {
    var o, p := PLAIN_OPTIONS, TWO_DEPTHS;
    assert NeedsUpTo(o, p, 1) == NeedsUpTo(o, p, 0) + {2};
    assert NeedsUpTo(o, p, 2) == NeedsUpTo(o, p, 1) + {1};
    assert !UsesPartialUpTo(p, 0) && !UsesPartialUpTo(p, 1) && !UsesPartialUpTo(p, 2);
    var depths := Ascending({1, 2});
    assert 1 in ToSet(depths) && 2 in ToSet(depths);
    assert |depths| == 2 by {
      AscendingUnique(depths, [1, 2]);
    }
  }

  /** As a nested program it throws. */
  lemma NestedThrows(w: World, l: Linked, index: nat, c0: Value, c1: Value, c2: Value)
    requires index < |l.table| && l.table[index] ==
             Some(ChildFn(PLAIN_OPTIONS, UnitOf(PLAIN_OPTIONS, TWO_DEPTHS), index))
    requires l.globals == {} && w.helper("y") == Undefined
    ensures RunFn(w, l, index, c0, OuterValues([c1, c2], Ascending(Needs(PLAIN_OPTIONS, TWO_DEPTHS)))).Throw?
  {
    TwoDepthsChild(index);
    hide ChildFn, UnitOf, OuterValues, Needs, Ascending, RunFn;
    FnThrows(w, l, index, ChildFn(PLAIN_OPTIONS, UnitOf(PLAIN_OPTIONS, TWO_DEPTHS), index), c0,
             OuterValues([c1, c2], Ascending(Needs(PLAIN_OPTIONS, TWO_DEPTHS))));
  }

  lemma FnThrows(w: World, l: Linked, index: nat, fn: Fn, c0: Value, args: seq<Value>)
    requires index < |l.table| && l.table[index] == Some(fn)
    requires fn.params == [1] && |fn.code| > 0 && fn.code[0] == LoadEither(1, 2, "y")
    requires l.globals == {} && w.helper("y") == Undefined
    ensures RunFn(w, l, index, c0, args).Throw?
  {
    hide RunCode;
    LoadThrows(w, l, FrameOf(fn, index, c0, args), fn.code, StartMachine(l));
  }

  lemma TwoDepthsChild(index: nat)
    ensures var fn := ChildFn(PLAIN_OPTIONS, UnitOf(PLAIN_OPTIONS, TWO_DEPTHS), index);
            fn.params == [1] && |fn.code| > 0 && fn.code[0] == LoadEither(1, 2, "y")
  {
    TwoDepthsNeeds();
    AscendingUnique(Ascending(Needs(PLAIN_OPTIONS, TWO_DEPTHS)), [1, 2]);
    FirstLoad(KidsOf(UnitOf(PLAIN_OPTIONS, TWO_DEPTHS).kids, index));
  }

  lemma LoadThrows(w: World, l: Linked, f: Frame, code: seq<Instr>, m: Machine)
    requires |code| > 0 && code[0] == LoadEither(1, 2, "y") && w.helper("y") == Undefined
    requires 2 !in f.scope && 2 !in l.globals
    ensures RunCode(w, l, f, code, m).Threw?
  {
    assert RunInstr(w, l, f, code[0], m).Threw?;
  }

  /** The instructions of its two outputs, one after the other. */
  lemma TwoDepthsOps()
    ensures var o, p := PLAIN_OPTIONS, TWO_DEPTHS;
            OpsOf(o, p) == [] + StatementOps(o, p.statements[0], 0) + StatementOps(o, p.statements[1],
                |NestedUpTo(p.statements, 1)|)
  {
    var o, p := PLAIN_OPTIONS, TWO_DEPTHS;
    hide StatementOps;
    assert OpsUpTo(o, p.statements, 0) == [] && NestedUpTo(p.statements, 0) == [];
    assert OpsUpTo(o, p.statements, 1) == [] + StatementOps(o, p.statements[0], 0);
  }

  lemma FirstOps()
    ensures StatementOps(PLAIN_OPTIONS, TWO_DEPTHS.statements[0], 0) ==
            [GetContext(2), LookupWithHelpers(Some("y"), false)] + [InvokeMustache(0, "y", false), Append]
  {
    assert SetupOps(PLAIN_OPTIONS, TWO_DEPTHS.statements[0].mustache) ==
           [GetContext(2), LookupWithHelpers(Some("y"), false)];
  }

  lemma FirstLoad(kids: seq<Kid>)
    ensures var g := GenFused(PLAIN_OPTIONS, kids, OpsOf(PLAIN_OPTIONS, TWO_DEPTHS), START_STATE);
            |g.code| > 0 && g.code[0] == LoadEither(1, 2, "y")
  {
    hide OpsOf, StatementOps, GenFused;
    var o, p := PLAIN_OPTIONS, TWO_DEPTHS;
    var get, look := GetContext(2), LookupWithHelpers(Some("y"), false);
    TwoDepthsOps();
    FirstOps();
    var second := StatementOps(o, p.statements[1], |NestedUpTo(p.statements, 1)|);
    var rest := [InvokeMustache(0, "y", false), Append] + second;
    assert OpsOf(o, p) == [get, look] + rest;
    GenTwo(o, kids, get, look, rest);
  }

  lemma GenTwo(o: Options, kids: seq<Kid>, get: Op, look: Op, rest: seq<Op>)
    requires o == PLAIN_OPTIONS && get == GetContext(2) && look == LookupWithHelpers(Some("y"), false)
    ensures var g := GenFused(o, kids, [get, look] + rest, START_STATE);
            |g.code| > 0 && g.code[0] == LoadEither(1, 2, "y")
  {
    var ops := [get, look] + rest;
    assert ops[1..] == [look] + rest;
    var st := START_STATE.(ctx := 2);
    assert GenOp(o, kids, get, START_STATE) == Gen([], st);
    assert GenOp(o, kids, look, st).code == [LoadEither(1, 2, "y")];
  }

  lemma TwoDepthsText(w: World, c0: Value, c1: Value, c2: Value)
    requires w.helper("y") == Undefined && w.helper("x") == Undefined
    requires c1.Object? && c2.Object? && w.prop(c2, "y") == Text("Y") && w.prop(c1, "x") == Text("X")
    ensures EvalProgram(w, PLAIN_OPTIONS, Intended, TWO_DEPTHS, [c0, c1, c2]) == Ok(Text("YX"))
  {
    var o, p, ctxs := PLAIN_OPTIONS, TWO_DEPTHS, [c0, c1, c2];
    assert EvalStatement(w, o, Intended, p, 0, ctxs) == Ok(Text("Y")) by {
      assert EvalId(w, o, p.statements[0].mustache.id, ctxs) == Ok(Text("Y"));
    }
    assert EvalStatement(w, o, Intended, p, 1, ctxs) == Ok(Text("X")) by {
      assert EvalId(w, o, p.statements[1].mustache.id, ctxs) == Ok(Text("X"));
    }
    assert EvalText(w, o, Intended, p, 0, ctxs) == Ok("");
    assert EvalText(w, o, Intended, p, 1, ctxs) == Ok("" + "Y");
    assert "" + "Y" + "X" == "YX";
  }

  // ----- a whole template that loses a parameter

  function Named(name: string): Mustache {
    Mustache(Id([name], 0, false, name), [], None, false)
  }

  /** `{{#x}}...{{/x}}` around a program. */
  function Around(name: string, q: Program): Program {
    Program([Block(Named(name), q)], None)
  }

  const MIDDLE := Around("b", TWO_DEPTHS)

  /** `{{#a}}{{#b}}{{{../../y}}}{{{../x}}}{{/b}}{{/a}}` */
  const LOSES_DEPTH := Around("a", MIDDLE)

  lemma NestedAround(name: string, q: Program)
    requires q.inverse.None?
    ensures var p := Around(name, q);
            && Nested(p) == [q] && q < p && NestedUpTo(p.statements, 0) == []
  {
    var p := Around(name, q);
    assert p.statements[0] < p;
    assert NestedUpTo(p.statements, 1) == NestedUpTo(p.statements, 0) + NestedIn(p.statements[0]);
  }

  lemma NeedsAround(o: Options, name: string, q: Program)
    ensures Needs(o, Around(name, q)) == OneOut(Needs(o, q)) + (if q.inverse.Some? then
            OneOut(Needs(o, q.inverse.value)) else {})
    ensures UsesPartial(Around(name, q)) == (UsesPartial(q) || (q.inverse.Some? && UsesPartial(q.inverse.value)))
  {
    var p := Around(name, q);
    hide OneOut;
    assert NeedsUpTo(o, p, 1) == NeedsUpTo(o, p, 0) + StatementDepths(o, p.statements[0]);
    assert UsesPartialUpTo(p, 1) == (UsesPartialUpTo(p, 0) || StatementUsesPartial(p.statements[0]));
  }

  /** A helper of its own finds neither name, so that the section is run by `blockHelperMissing`. */
  ghost predicate NotAHelper(w: World, name: string) {
    name != "" && name != "if" && w.helper(name) == Undefined
  }

  /** A section over an object throws what its program throws. */
  lemma ObjectSectionThrows(w: World, name: string, ctxs: seq<Value>, v: Value, runner: (bool, Value) -> Res<Value>)
    requires |ctxs| > 0 && ctxs[0].Object? && v.Object? && w.prop(ctxs[0], name) == v && NotAHelper(w, name)
    requires w.helper("blockHelperMissing") == Function(BlockHelperMissing) && runner(false, v).Throw?
    ensures EvalSection(w, PLAIN_OPTIONS, false, Named(name), ctxs, runner).Throw?
  {
    var o, m := PLAIN_OPTIONS, Named(name);
    assert EvalId(w, o, m.id, ctxs) == Ok(v) by { assert EvalPath(w, v, []) == Ok(v); }
    assert EvalParts(w, o, m, ctxs) == Ok(Parts(Args([], []), Record(map[]), v));
    var call := Call(BlockHelperMissing, ctxs[0], [v], Record(map[]), []);
    assert [v] + [] == [v];
    assert HelperStep(w, call, []) == RunProgram(false, v);
    assert Drive(w, call, true, runner, []).Throw?;
  }

  lemma AroundOps(name: string, q: Program)
    requires q.inverse.None?
    ensures var o, p := PLAIN_OPTIONS, Around(name, q);
            && OpsOf(o, p) == CallProof.SectionOps(o, Named(name), None, Some(0), true)
            && (NoContent(OpsOf(o, p)) || |OpsOf(o, p)| == 1)
  {
    var o, p := PLAIN_OPTIONS, Around(name, q);
    assert OpsUpTo(o, p.statements, 0) == [] && NestedUpTo(p.statements, 0) == [];
    var ops := StatementOps(o, p.statements[0], 0);
    assert OpsOf(o, p) == [] + ops == ops;
    StatementNoFusion(o, p.statements[0], 0);
    assert ops == CallProof.SectionOps(o, Named(name), None, Some(0), true);
  }

  lemma AroundSees(l: Linked, f: Frame, ctxs: seq<Value>, name: string, q: Program)
    requires SeesContexts(l, f, ctxs, Needs(PLAIN_OPTIONS, Around(name, q)))
    ensures SeesContexts(l, f, ctxs, MustacheDepths(PLAIN_OPTIONS, Named(name))) && |ctxs| > 0 && f.ctx == ctxs[0]
    ensures EncodableMustache(PLAIN_OPTIONS, Named(name))
  {
    assert MustacheDepths(PLAIN_OPTIONS, Named(name)) == {};
    hide Needs;
  }

  /** If the nested program throws, so does the program around it. */
  lemma AroundThrows(w: World, l: Linked, f: Frame, ctxs: seq<Value>, name: string, q: Program, v: Value)
    requires q.inverse.None? && f.simple && Nested(Around(name, q)) == [q]
    requires SeesContexts(l, f, ctxs, Needs(PLAIN_OPTIONS, Around(name, q)))
    requires ctxs[0].Object? && v.Object? && w.prop(ctxs[0], name) == v && NotAHelper(w, name)
    requires w.helper("blockHelperMissing") == Function(BlockHelperMissing)
    requires var i := KidIndex(PLAIN_OPTIONS, Around(name, q), 0, f.index);
             f.index < i < |l.table| && l.table[i].Some? &&
                 RunFn(w, l, i, v, OuterValues(ctxs, KidDepths(PLAIN_OPTIONS, Around(name, q), 0))).Throw?
    ensures Finish(f, RunCode(w, l, f, GenOf(PLAIN_OPTIONS, UnitOf(PLAIN_OPTIONS, Around(name, q)), f.index).code,
                              StartMachine(l))).Throw?
  {
    hide RunCode, GenFused, GenPlain, UnitOf, KidsOf, KidIndex, KidDepths, OuterValues, EvalSection, SeesContexts,
         Needs, RunFn, CallProof.SectionOps, ExprOf,
         EvalExpr, MustacheDepths, EncodableMustache, OpsOf, KnownAtHead, NoContent;
    var o, p, m := PLAIN_OPTIONS, Around(name, q), Named(name);
    var kids := KidsOf(UnitOf(o, p).kids, f.index);
    var self, inv := RefOf(o, p, f.index, Some(0), ctxs), NoopRef;
    ExprDenotes(o, l, f, p, Some(0), ctxs);
    ExprDenotes(o, l, f, p, None, ctxs);
    var runner := OptionsRunner(w, l, f.index, self, inv);
    assert runner(false, v).Throw?;
    AroundSees(l, f, ctxs, name, q);
    ObjectSectionThrows(w, name, ctxs, v, runner);
    HeadIsPlain(w, name);
    CallProof.SectionRuns(w, o, l, f, kids, ctxs, m, START_STATE, StartMachine(l), None, Some(0), true, self, inv,
                          runner);
    AroundOps(name, q);
    NothingToFuse(o, kids, OpsOf(o, p), START_STATE);
    UnitIs(o, p);
  }

  lemma HeadIsPlain(w: World, name: string)
    requires NotAHelper(w, name)
    ensures !KnownAtHead(PLAIN_OPTIONS, Named(name), false)
  {
  }

  lemma UnitIs(o: Options, p: Program)
    ensures UnitOf(o, p).ops == OpsOf(o, p) && UnitOf(o, p).simple == (|p.statements| == 1)
    ensures UnitOf(o, p).depths == Ascending(Needs(o, p)) && UnitOf(o, p).usePartial == UsesPartial(p)
    ensures |UnitOf(o, p).kids| == |Nested(p)|
    ensures forall k :: 0 <= k < |Nested(p)| ==> UnitOf(o, p).kids[k] == UnitOf(o, Nested(p)[k])
  {
    hide OpsOf, Needs, UsesPartial;
  }

  lemma OneOutOfTwo()
    ensures OneOut({1, 2}) == {1} && OneOut({1}) == {}
  {
    assert 2 in {1, 2};
  }

  lemma ShortLists()
    ensures Ascending({1}) == [1] && Ascending({}) == []
  {
    AscendingUnique(Ascending({1}), [1]);
    ToSetEmpty(Ascending({}));
  }

  lemma Depths()
    ensures Needs(PLAIN_OPTIONS, MIDDLE) == {1} && !UsesPartial(MIDDLE)
    ensures Needs(PLAIN_OPTIONS, LOSES_DEPTH) == {} && !UsesPartial(LOSES_DEPTH)
    ensures Ascending({1}) == [1] && Ascending({}) == []
  {
    hide Needs, UsesPartial, OneOut, Ascending;
    TwoDepthsNeeds();
    OneOutOfTwo();
    NeedsAround(PLAIN_OPTIONS, "b", TWO_DEPTHS);
    NeedsAround(PLAIN_OPTIONS, "a", MIDDLE);
    ShortLists();
  }

  /** The middle function, called with the object `a`, runs into the innermost one and throws. */
  lemma MiddleThrows(w: World, l: Linked, i: nat, j: nat, a: Value, b: Value, ctx: Value)
    requires a.Object? && b.Object? && w.prop(a, "b") == b && NotAHelper(w, "b") && NotAHelper(w, "y")
    requires w.helper("blockHelperMissing") == Function(BlockHelperMissing)
    requires l.globals == {} && j == IndexOf(UnitOf(PLAIN_OPTIONS, MIDDLE).kids, 0, i) && i < j < |l.table|
    requires l.table[i] == Some(ChildFn(PLAIN_OPTIONS, UnitOf(PLAIN_OPTIONS, MIDDLE), i))
    requires l.table[j] == Some(ChildFn(PLAIN_OPTIONS, UnitOf(PLAIN_OPTIONS, TWO_DEPTHS), j))
    ensures RunFn(w, l, i, a, OuterValues([ctx], [1])).Throw?
  {
    hide RunCode, RunFn, UnitOf, GenOf, Needs, UsesPartial, SeesContexts, KidsOf, OuterValues, IndexOf, ChildFn,
         FrameOf, Ascending, Finish;
    var o := PLAIN_OPTIONS;
    var f := FrameOf(l.table[i].value, i, a, OuterValues([ctx], [1]));
    NestedAround("b", TWO_DEPTHS);
    MiddleFrame(l, i, a, ctx);
    NestedThrows(w, l, j, b, a, ctx);
    AroundThrows(w, l, f, [a, ctx], "b", TWO_DEPTHS, b);
    RunFnIs(w, l, i, a, OuterValues([ctx], [1]));
  }

  lemma RunFnIs(w: World, l: Linked, i: nat, c: Value, args: seq<Value>)
    requires i < |l.table| && l.table[i].Some?
    ensures var fn := l.table[i].value; var f := FrameOf(fn, i, c, args);
            RunFn(w, l, i, c, args) == Finish(f, RunCode(w, l, f, fn.code, StartMachine(l)))
  {
    hide RunCode, FrameOf, Finish;
  }

  lemma MiddleFrame(l: Linked, i: nat, a: Value, ctx: Value)
    ensures var fn := ChildFn(PLAIN_OPTIONS, UnitOf(PLAIN_OPTIONS, MIDDLE), i);
            var f := FrameOf(fn, i, a, OuterValues([ctx], [1]));
            && fn.code == GenOf(PLAIN_OPTIONS, UnitOf(PLAIN_OPTIONS, MIDDLE), i).code
            && f.simple && f.index == i && SeesContexts(l, f, [a, ctx], Needs(PLAIN_OPTIONS, MIDDLE))
  {
    hide UnitOf, GenOf, Needs, UsesPartial, SeesContexts, KidsOf, OuterValues, Bind;
    UnitIs(PLAIN_OPTIONS, MIDDLE);
    Depths();
    ChildSees(PLAIN_OPTIONS, l, MIDDLE, i, a, [ctx]);
    assert [a] + [ctx] == [a, ctx];
  }

  lemma NoContextsNeeded(l: Linked, f: Frame, ctx: Value)
    requires f.ctx == ctx
    ensures SeesContexts(l, f, [ctx], {})
  {
  }

  /**
   The whole template throws in every world where `a` and `b` are objects, `b` below `a`, and no helper is
   called `y`; wherever `y` and `x` lead to a text it should show them.
   */
  lemma DroppedDepthThrows(w: World, junk: Tmp, ctx: Value, a: Value, b: Value)
    requires ctx.Object? && a.Object? && b.Object? && w.prop(ctx, "a") == a && w.prop(a, "b") == b
    requires NotAHelper(w, "a") && NotAHelper(w, "b") && NotAHelper(w, "y")
    requires w.helper("blockHelperMissing") == Function(BlockHelperMissing)
    ensures Render(w, CompiledOf(PLAIN_OPTIONS, UnitOf(PLAIN_OPTIONS, LOSES_DEPTH)), junk, ctx).Throw?
  {
    hide RunCode, UnitOf, RunFn, GenOf, Needs, UsesPartial, SeesContexts, KidsOf, FillUpTo, OuterValues, Holds,
         IndexOf, NotAHelper;
    var o, p := PLAIN_OPTIONS, LOSES_DEPTH;
    var u := UnitOf(o, p);
    var l := Linked(TableOf(o, u), {}, junk);
    NestedAround("a", MIDDLE);
    NestedAround("b", TWO_DEPTHS);
    UnitIs(o, p);
    UnitIs(o, MIDDLE);
    UnitIs(o, TWO_DEPTHS);
    Depths();
    TwoDepthsNeeds();
    FillHolds(o, u.kids, 1, []);
    KidHolds(o, l.table, u.kids, 1, 0, 0);
    var i := IndexOf(u.kids, 0, 0);
    KidHolds(o, l.table, UnitOf(o, MIDDLE).kids, 1, i, 0);
    var j := IndexOf(UnitOf(o, MIDDLE).kids, 0, i);
    MiddleThrows(w, l, i, j, a, b, ctx);
    var f := FrameOf(CompiledOf(o, u).main, 0, ctx, []);
    NoContextsNeeded(l, f, ctx);
    AroundThrows(w, l, f, [ctx], "a", MIDDLE, a);
  }
  /** A section over an object shows what its program returns. */
  lemma ObjectSectionShows(w: World, name: string, ctxs: seq<Value>, v: Value, runner: (bool, Value) -> Res<Value>)
    requires |ctxs| > 0 && ctxs[0].Object? && v.Object? && w.prop(ctxs[0], name) == v && NotAHelper(w, name)
    requires w.helper("blockHelperMissing") == Function(BlockHelperMissing)
    requires runner(false, v).Ok? && Truthy(runner(false, v).value)
    ensures EvalSection(w, PLAIN_OPTIONS, false, Named(name), ctxs, runner) == runner(false, v)
  {
    var o, m := PLAIN_OPTIONS, Named(name);
    assert EvalId(w, o, m.id, ctxs) == Ok(v) by { assert EvalPath(w, v, []) == Ok(v); }
    assert EvalParts(w, o, m, ctxs) == Ok(Parts(Args([], []), Record(map[]), v));
    var call, r := Call(BlockHelperMissing, ctxs[0], [v], Record(map[]), []), runner(false, v).value;
    assert [v] + [] == [v] && [] + [r] == [r];
    assert HelperStep(w, call, []) == RunProgram(false, v);
    assert HelperStep(w, call, [r]) == Return(r);
    assert Drive(w, call, true, runner, []) == Ok(r);
  }

  lemma AroundShows(w: World, name: string, q: Program, ctxs: seq<Value>, v: Value)
    requires |ctxs| > 0 && ctxs[0].Object? && v.Object? && w.prop(ctxs[0], name) == v && NotAHelper(w, name)
    requires w.helper("blockHelperMissing") == Function(BlockHelperMissing)
    requires EvalProgram(w, PLAIN_OPTIONS, Intended, q, [v] + ctxs).Ok? &&
             Truthy(EvalProgram(w, PLAIN_OPTIONS, Intended, q, [v] + ctxs).value)
    ensures EvalProgram(w, PLAIN_OPTIONS, Intended, Around(name, q), ctxs) ==
            EvalProgram(w, PLAIN_OPTIONS, Intended, q, [v] + ctxs)
  {
    hide EvalSection, NotAHelper;
    var o, p := PLAIN_OPTIONS, Around(name, q);
    assert p.statements[0] < p;
    var runner := Runner(w, o, Intended, p, Some(q), q.inverse, ctxs);
    assert runner(false, v) == EvalProgram(w, o, Intended, q, [v] + ctxs);
    ObjectSectionShows(w, name, ctxs, v, runner);
    assert !CallsKnownHelper(o, Intended, p, 0, Named(name)) by { HeadIsPlain(w, name); }
  }

  /** What the template that throws is meant to show. */
  lemma LosesDepthText(w: World, ctx: Value, a: Value, b: Value)
    requires ctx.Object? && a.Object? && b.Object? && w.prop(ctx, "a") == a && w.prop(a, "b") == b
    requires NotAHelper(w, "a") && NotAHelper(w, "b") && NotAHelper(w, "y") && NotAHelper(w, "x")
    requires w.helper("blockHelperMissing") == Function(BlockHelperMissing)
    requires w.prop(ctx, "y") == Text("Y") && w.prop(a, "x") == Text("X")
    ensures EvalProgram(w, PLAIN_OPTIONS, Intended, LOSES_DEPTH, [ctx]) == Ok(Text("YX"))
  {
    hide EvalProgram;
    TwoDepthsText(w, b, a, ctx);
    assert [b] + [a, ctx] == [b, a, ctx] && [a] + [ctx] == [a, ctx];
    AroundShows(w, "b", TWO_DEPTHS, [a, ctx], b);
    AroundShows(w, "a", MIDDLE, [ctx], a);
  }

  // ----- examples of irregular templates

  const JUST_A := Program([Content("A")], None)
  const JUST_B := Program([Content("B")], None)

  /** `{{^x}}A{{/x}}{{#y}}B{{/y}}` */
  const STICKY_TEMPLATE := Program([Inverse(Named("x"), JUST_A), Block(Named("y"), JUST_B)], None)

  /** With x true and y false nothing should show, but the A of the first section does. */
  lemma StickyInverseShows(w: World, c: Value)
    requires c.Object? && w.prop(c, "x") == Bool(true) && w.prop(c, "y") == Bool(false)
    requires w.helper("x") == Undefined && w.helper("y") == Undefined
    requires w.helper("blockHelperMissing") == Function(BlockHelperMissing)
    ensures EvalProgram(w, PLAIN_OPTIONS, Intended, STICKY_TEMPLATE, [c]) == Ok(Text(""))
    ensures EvalProgram(w, PLAIN_OPTIONS, AsEmitted, STICKY_TEMPLATE, [c]) == Ok(Text("A"))
  {
    var o, p, ctxs := PLAIN_OPTIONS, STICKY_TEMPLATE, [c];
    forall mode: Mode
      ensures EvalStatement(w, o, mode, p, 0, ctxs) == Ok(Text(""))
      ensures EvalStatement(w, o, mode, p, 1, ctxs) == Ok(Text(if mode.AsEmitted? then "A" else ""))
    {
      StickyFirst(w, mode, c);
      StickySecond(w, mode, c);
    }
    forall mode: Mode
      ensures EvalProgram(w, o, mode, p, ctxs) == Ok(Text(if mode.AsEmitted? then "A" else ""))
    {
      assert EvalText(w, o, mode, p, 0, ctxs) == Ok("");
      assert EvalText(w, o, mode, p, 1, ctxs) == Ok("" + "");
      var last := if mode.AsEmitted? then "A" else "";
      assert "" + "" + last == last;
      assert EvalText(w, o, mode, p, 2, ctxs) == Ok(last);
    }
  }

  lemma NamedParts(w: World, o: Options, name: string, c: Value)
    requires c.Object? && w.helper(name) == Undefined && name != "" && name !in o.known && !o.knownOnly
    ensures EvalParts(w, o, Named(name), [c]) == Ok(Parts(Args([], []), Record(map[]), w.prop(c, name)))
  {
    assert EvalId(w, o, Named(name).id, [c]) == Ok(w.prop(c, name));
  }

  lemma OnceRuns(w: World, self: Value, context: bool, runner: (bool, Value) -> Res<Value>)
    ensures var call := Call(BlockHelperMissing, self, [Bool(context)], Record(map[]), []);
            Drive(w, call, true, runner, []) == runner(!context, self)
  {
    var call := Call(BlockHelperMissing, self, [Bool(context)], Record(map[]), []);
    assert HelperStep(w, call, []) == RunProgram(!context, self);
    var v := runner(!context, self);
    if v.Ok? {
      assert [] + [v.value] == [v.value];
      assert HelperStep(w, call, [v.value]) == Return(v.value);
    }
  }

  lemma StickyFirst(w: World, mode: Mode, c: Value)
    requires c.Object? && w.prop(c, "x") == Bool(true) && w.helper("x") == Undefined
    requires w.helper("blockHelperMissing") == Function(BlockHelperMissing)
    ensures EvalStatement(w, PLAIN_OPTIONS, mode, STICKY_TEMPLATE, 0, [c]) == Ok(Text(""))
  {
    var o, p := PLAIN_OPTIONS, STICKY_TEMPLATE;
    NamedParts(w, o, "x", c);
    assert p.statements[0] < p;
    var runner := Runner(w, o, mode, p, None, Some(JUST_A), [c]);
    OnceRuns(w, c, true, runner);
    assert runner(false, c) == Ok(Text(""));
    assert [Bool(true)] + [] == [Bool(true)];
  }

  lemma StickySecond(w: World, mode: Mode, c: Value)
    requires c.Object? && w.prop(c, "y") == Bool(false) && w.helper("y") == Undefined
    requires w.helper("blockHelperMissing") == Function(BlockHelperMissing)
    ensures EvalStatement(w, PLAIN_OPTIONS, mode, STICKY_TEMPLATE, 1, [c]) ==
            Ok(Text(if mode.AsEmitted? then "A" else ""))
  {
    hide StickyInverse;
    var o, p := PLAIN_OPTIONS, STICKY_TEMPLATE;
    assert p.statements[1] < p;
    var other := ElseBranch(mode, p, 1);
    assert other == if mode.AsEmitted? then Some(JUST_A) else None by { StickyHere(); }
    var runner := Runner(w, o, mode, p, Some(JUST_B), other, [c]);
    assert EvalProgram(w, o, mode, JUST_A, [c] + [c]) == Ok(Text("A"));
    assert runner(true, c) == Ok(Text(if mode.AsEmitted? then "A" else ""));
    FalseSectionShows(w, "y", c, runner);
  }

  lemma StickyHere()
    ensures StickyInverse(STICKY_TEMPLATE, 1) == Some(JUST_A)
  {
    assert StickyInverse(STICKY_TEMPLATE, 1) == Some(STICKY_TEMPLATE.statements[0].program);
  }

  /** A section over false shows what its else branch returns. */
  lemma FalseSectionShows(w: World, name: string, c: Value, runner: (bool, Value) -> Res<Value>)
    requires c.Object? && w.prop(c, name) == Bool(false) && w.helper(name) == Undefined && name != "" && name != "if"
    requires w.helper("blockHelperMissing") == Function(BlockHelperMissing) && runner(true, c).Ok? &&
             runner(true, c).value.Text?
    ensures EvalSection(w, PLAIN_OPTIONS, false, Named(name), [c], runner) == runner(true, c)
  {
    hide EvalParts;
    NamedParts(w, PLAIN_OPTIONS, name, c);
    OnceRuns(w, c, false, runner);
    assert [Bool(false)] + [] == [Bool(false)];
  }

  /** `{{this if}}`: a path without a name after a param that names a known helper. */
  const STALE_TEMPLATE := Program([Output(Mustache(Id([], 0, true, "this"), [IdParam(Id(["if"], 0, false, "if"))],
      None, false))], None)

  /** The context should show; the compiled code calls it as if it were the helper. */
  lemma StaleFlagCalls(w: World, s: string)
    requires s != ""
    ensures EvalProgram(w, PLAIN_OPTIONS, Intended, STALE_TEMPLATE, [Text(s)]) == Ok(Text(s))
    ensures EvalProgram(w, PLAIN_OPTIONS, AsEmitted, STALE_TEMPLATE, [Text(s)]) == Throw("not a function")
  {
    var o, p, ctxs := PLAIN_OPTIONS, STALE_TEMPLATE, [Text(s)];
    var m := p.statements[0].mustache;
    assert EvalParam(w, o, m.params[0], ctxs) == Ok(w.helper("if"));
    assert m.params[1..] == [];
    assert EvalParams(w, o, [], ctxs) == Ok(Args([], []));
    assert EvalArgument(w, o, m.params[0], ctxs) == Ok((w.helper("if"), Undefined));
    assert EvalParams(w, o, m.params, ctxs) == Ok(Args([w.helper("if")] + [], []));
    assert EvalId(w, o, m.id, ctxs) == Ok(Text(s));
    assert EvalParts(w, o, m, ctxs) == Ok(Parts(Args([w.helper("if")] + [], []), Record(map[]), Text(s)));
    assert KnownAfterParams(o, m.params, false);
    assert CallsKnownHelper(o, AsEmitted, p, 0, m) && !CallsKnownHelper(o, Intended, p, 0, m);
  }

  /** A param without a `string` leaves `pushStringParam` without its operand: it takes the next opcode instead. */
  lemma MissingOperand(before: seq<Cell>, next: Op, rest: seq<Cell>)
    ensures NextOpcode(before + Cells(PushStringParam(None)) + (Cells(next) + rest), |before|) ==
            Instruction(16, [Cells(next)[0]])
  {
    var cells, k := before + Cells(PushStringParam(None)) + (Cells(next) + rest), |before|;
    assert cells[k] == Num(16) && cells[k + 1] == Cells(next)[0];
    assert cells[k + 1..k + 2] == [cells[k + 1]];
  }

  /** `{{^x}}A{{else}}B{{/x}}` */
  const LOSES_ELSE := Program([Inverse(Named("x"), Program([Content("A")], Some(JUST_B)))], None)

  /** With x true the B should show, but nothing does. */
  lemma InverseLosesElse(w: World, c: Value)
    requires c.Object? && w.prop(c, "x") == Bool(true) && w.helper("x") == Undefined
    requires w.helper("blockHelperMissing") == Function(BlockHelperMissing)
    ensures EvalProgram(w, PLAIN_OPTIONS, Intended, LOSES_ELSE, [c]) == Ok(Text("B"))
    ensures EvalProgram(w, PLAIN_OPTIONS, AsEmitted, LOSES_ELSE, [c]) == Ok(Text(""))
  {
    var o, p := PLAIN_OPTIONS, LOSES_ELSE;
    var q := p.statements[0].program;
    assert p.statements[0] < p;
    NamedParts(w, o, "x", c);
    forall mode: Mode
      ensures EvalProgram(w, o, mode, p, [c]) == Ok(Text(if mode.Intended? then "B" else ""))
    {
      var runner := Runner(w, o, mode, p, InverseMain(mode, q), Some(q), [c]);
      OnceRuns(w, c, true, runner);
      assert EvalProgram(w, o, mode, JUST_B, [c] + [c]) == Ok(Text("B"));
      assert runner(false, c) == Ok(Text(if mode.Intended? then "B" else ""));
      assert [Bool(true)] + [] == [Bool(true)];
    }
  }

  const JUST_COMMENT := Program([Comment], None)

  /** `{{#xs}}{{! c}}{{/xs}}` */
  const COMMENTS := Program([Block(Named("xs"), JUST_COMMENT)], None)

  /** A comment in a loop should show nothing, but shows the text of an undefined value for every item. */
  lemma LoneCommentShows(w: World, c: Value, a: Value, b: Value)
    requires c.Object? && w.prop(c, "xs") == List([a, b]) && w.helper("xs") == Undefined
    requires w.helper("blockHelperMissing") == Function(BlockHelperMissing) && w.show(Undefined) != ""
    ensures EvalProgram(w, PLAIN_OPTIONS, Intended, COMMENTS, [c]) == Ok(Text(""))
    ensures EvalProgram(w, PLAIN_OPTIONS, AsEmitted, COMMENTS, [c]) == Ok(Text(w.show(Undefined) + w.show(Undefined)))
  {
    hide EvalProgram;
    CommentsEval(w, Intended, c, a, b);
    CommentsEval(w, AsEmitted, c, a, b);
    assert "" + "" == "";
  }

  lemma CommentsEval(w: World, mode: Mode, c: Value, a: Value, b: Value)
    requires c.Object? && w.prop(c, "xs") == List([a, b]) && w.helper("xs") == Undefined
    requires w.helper("blockHelperMissing") == Function(BlockHelperMissing)
    ensures var v := if mode.Intended? then Text("") else Undefined;
            EvalProgram(w, PLAIN_OPTIONS, mode, COMMENTS, [c]) == Ok(Text(ToText(w, v) + ToText(w, v)))
  {
    var o, p := PLAIN_OPTIONS, COMMENTS;
    assert p.statements[0] < p;
    var v := if mode.Intended? then Text("") else Undefined;
    var runner := Runner(w, o, mode, p, Some(JUST_COMMENT), ElseBranch(mode, p, 0), [c]);
    assert forall x :: runner(false, x) == Ok(v) by {
      assert forall x :: EvalProgram(w, o, mode, JUST_COMMENT, [x] + [c]) == Ok(v);
    }
    ListSectionShows(w, "xs", c, a, b, v, runner);
  }

  /** A section over a list of two shows what its program returns twice. */
  lemma ListSectionShows(w: World, name: string, c: Value, a: Value, b: Value, v: Value,
                         runner: (bool, Value) -> Res<Value>)
    requires c.Object? && w.prop(c, name) == List([a, b]) && w.helper(name) == Undefined && name != "" && name != "if"
    requires w.helper("blockHelperMissing") == Function(BlockHelperMissing) && forall x :: runner(false, x) == Ok(v)
    ensures EvalSection(w, PLAIN_OPTIONS, false, Named(name), [c], runner) == Ok(Text(ToText(w, v) + ToText(w, v)))
  {
    hide ToText, EvalParts, Drive;
    NamedParts(w, PLAIN_OPTIONS, name, c);
    TwoItems(w, c, a, b, v, runner);
    assert [List([a, b])] + [] == [List([a, b])];
  }

  lemma TwoTexts(w: World, v: Value)
    ensures ConcatText(w, [v, v]) == ToText(w, v) + ToText(w, v)
  {
    hide ToText;
    assert [v, v][..1] == [v] && [v][..0] == [];
    assert ConcatText(w, [v][..0]) == "";
    assert ConcatText(w, [v]) == "" + ToText(w, v) == ToText(w, v);
  }

  lemma TwoItems(w: World, self: Value, a: Value, b: Value, v: Value, runner: (bool, Value) -> Res<Value>)
    requires forall x :: runner(false, x) == Ok(v)
    ensures var call := Call(BlockHelperMissing, self, [List([a, b])], Record(map[]), []);
            Drive(w, call, true, runner, []) == Ok(Text(ToText(w, v) + ToText(w, v)))
  {
    hide ToText, ConcatText;
    var call := Call(BlockHelperMissing, self, [List([a, b])], Record(map[]), []);
    assert HelperStep(w, call, []) == RunProgram(false, a);
    assert [] + [v] == [v] && [v] + [v] == [v, v];
    assert HelperStep(w, call, [v]) == RunProgram(false, b);
    TwoTexts(w, v);
    assert HelperStep(w, call, [v, v]) == Return(Text(ToText(w, v) + ToText(w, v)));
    hide HelperStep;
    assert Drive(w, call, true, runner, [v, v]) == Ok(Text(ToText(w, v) + ToText(w, v)));
    assert Drive(w, call, true, runner, [v]) == Drive(w, call, true, runner, [v, v]);
  }

  /** What stands behind an `{{else}}` outside of all blocks is not compiled at all. */
  lemma RootElseIsDropped(o: Options, p: Program)
    ensures CompiledOf(o, UnitOf(o, p)) == CompiledOf(o, UnitOf(o, p.(inverse := None)))
  {
    var q := p.(inverse := None);
    SameNeeds(o, p, q, |p.statements|);
    UnitIs(o, p);
    UnitIs(o, q);
    hide Needs, UsesPartial, OpsOf;
    assert UnitOf(o, p).kids == UnitOf(o, q).kids;
    assert UnitOf(o, p) == UnitOf(o, q);
  }

  lemma {:induction false} SameNeeds(o: Options, p: Program, q: Program, n: nat)
    requires p.statements == q.statements && n <= |p.statements|
    ensures NeedsUpTo(o, p, n) == NeedsUpTo(o, q, n) && UsesPartialUpTo(p, n) == UsesPartialUpTo(q, n)
    decreases n
  {
    hide StatementDepths, StatementUsesPartial;
    if n > 0 {
      SameNeeds(o, p, q, n - 1);
    }
  }
}
