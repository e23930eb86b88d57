/** The compiler is correct: running the emitted code of a template gives what the evaluator gives. */
module TemplateProof {
  import opened JsRuntime
  import opened TemplateAst
  import opened TemplateEval
  import opened Opcodes
  import opened FirstPass
  import opened CodeGen
  import opened SlotMachine
  import opened ExpressionProof
  import opened CallProof
  import opened TemplateLink

  // ----- fusing does not change what the code does

  lemma {:induction false} FusedRuns(w: World, o: Options, l: Linked, f: Frame, kids: seq<Kid>, ops: seq<Op>,
                                     st: GenState, m: Machine)
    requires !f.simple
    ensures GenFused(o, kids, ops, st).st == GenPlain(o, kids, ops, st).st
    ensures RunCode(w, l, f, GenFused(o, kids, ops, st).code, m) == RunCode(w, l, f, GenPlain(o, kids, ops, st).code, m)
    decreases |ops|
  {
    if ops == [] {
    } else if Fuses(ops) {
      var st1, rest := PopStack(st, 1), ops[2..];
      var pair := [BufferEscaped(st.slot, None), BufferText(ops[1].text)];
      PlainPair(o, kids, ops, st);
      var plain, fused := GenPlain(o, kids, rest, st1), GenFused(o, kids, rest, st1);
      RunConcat(w, l, f, pair, plain.code, m);
      RunConcat(w, l, f, [BufferEscaped(st.slot, Some(ops[1].text))], fused.code, m);
      RunOne(w, l, f, BufferEscaped(st.slot, Some(ops[1].text)), m);
      TwoRun(w, l, f, pair[0], pair[1], m);
      PairRuns(w, l, f, st.slot, ops[1].text, m);
      hide RunCode, RunInstr, GenPlain;
      var x := RunInstr(w, l, f, BufferEscaped(st.slot, Some(ops[1].text)), m);
      FusedRuns(w, o, l, f, kids, rest, st1, if x.Next? then x.m else m);
    } else {
      var g := GenOp(o, kids, ops[0], st);
      var plain, fused := GenPlain(o, kids, ops[1..], g.st), GenFused(o, kids, ops[1..], g.st);
      RunConcat(w, l, f, g.code, plain.code, m);
      RunConcat(w, l, f, g.code, fused.code, m);
      hide RunCode, GenOp;
      var x := RunCode(w, l, f, g.code, m);
      FusedRuns(w, o, l, f, kids, ops[1..], g.st, if x.Next? then x.m else m);
    }
  }

  lemma PlainPair(o: Options, kids: seq<Kid>, ops: seq<Op>, st: GenState)
    requires Fuses(ops)
    ensures var rest := GenPlain(o, kids, ops[2..], PopStack(st, 1));
            GenPlain(o, kids, ops, st) == Gen([BufferEscaped(st.slot, None), BufferText(ops[1].text)] + rest.code,
                                              rest.st)
  {
    assert ops[1..][1..] == ops[2..];
    var rest := GenPlain(o, kids, ops[2..], PopStack(st, 1));
    assert GenPlain(o, kids, ops[1..], PopStack(st, 1)) == Gen([BufferText(ops[1].text)] + rest.code, rest.st);
    assert [BufferEscaped(st.slot, None)] + ([BufferText(ops[1].text)] + rest.code) ==
           [BufferEscaped(st.slot, None), BufferText(ops[1].text)] + rest.code;
  }

  /** The fused statement against the two it replaces. */
  lemma PairRuns(w: World, l: Linked, f: Frame, slot: int, text: string, m: Machine)
    requires !f.simple
    ensures var x := RunInstr(w, l, f, BufferEscaped(slot, None), m);
            RunInstr(w, l, f, BufferEscaped(slot, Some(text)), m) ==
            if x.Next? then RunInstr(w, l, f, BufferText(text), x.m) else x
  {
    var v := w.escape(Slot(m, slot));
    if v.Ok? {
      assert m.buffer + (ToText(w, v.value) + text) == m.buffer + ToText(w, v.value) + text;
    }
  }

  ghost predicate NoContent(ops: seq<Op>) {
    forall op <- ops :: !op.AppendContent?
  }

  lemma {:induction false} NothingToFuse(o: Options, kids: seq<Kid>, ops: seq<Op>, st: GenState)
    requires NoContent(ops) || |ops| == 1
    ensures GenFused(o, kids, ops, st) == GenPlain(o, kids, ops, st)
    decreases |ops|
  {
    hide GenOp;
    if ops != [] {
      assert |ops| >= 2 ==> ops[1] in ops;
      assert NoContent(ops[1..]);
      NothingToFuse(o, kids, ops[1..], GenOp(o, kids, ops[0], st).st);
    }
  }

  lemma {:induction false} LookupsNoContent(names: seq<string>)
    ensures NoContent(LookupOps(names))
    decreases |names|
  {
    if names != [] {
      LookupsNoContent(names[..|names| - 1]);
    }
  }

  lemma ValueNoContent(param: Param)
    ensures NoContent(ValueOps(param))
  {
    if param.IdParam? {
      LookupsNoContent(Tail(param.id));
    }
  }

  lemma {:induction false} ParamsNoContent(o: Options, params: seq<Param>)
    ensures NoContent(ParamsOps(o, params))
    decreases |params|
  {
    if params != [] {
      ParamsNoContent(o, params[1..]);
      ValueNoContent(params[0]);
    }
  }

  lemma {:induction false} PairsNoContent(pairs: seq<Pair>)
    ensures NoContent(PairsOps(pairs))
    decreases |pairs|
  {
    if pairs != [] {
      PairsNoContent(pairs[..|pairs| - 1]);
      ValueNoContent(pairs[|pairs| - 1].value);
    }
  }

  lemma SetupNoContent(o: Options, mu: Mustache)
    ensures NoContent(SetupOps(o, mu))
  {
    ParamsNoContent(o, mu.params);
    if mu.hash.Some? {
      PairsNoContent(mu.hash.value);
    }
    LookupsNoContent(Tail(mu.id));
  }

  lemma StatementNoFusion(o: Options, s: Statement, guid: nat)
    ensures NoContent(StatementOps(o, s, guid)) || |StatementOps(o, s, guid)| == 1
  {
    match s
    case Output(mu) => SetupNoContent(o, mu);
    case Block(mu, _) => SetupNoContent(o, mu);
    case Inverse(mu, _) => SetupNoContent(o, mu);
    case Partial(_, context) => if context.Some? { LookupsNoContent(Tail(context.value)); }
    case _ =>
  }

  // ----- the programs handed to a call

  /** The number of the nested program that is still declared as the inverse when statement `i` starts. */
  function StickyGuid(stmts: seq<Statement>, i: nat): Option<nat>
    requires i <= |stmts|
  {
    if i == 0 then None
    else
      match stmts[i - 1]
      case Block(_, _) => None
      case Inverse(_, _) => Some(|NestedUpTo(stmts, i - 1)|)
      case _ => StickyGuid(stmts, i - 1)
  }

  /** A number stands for a nested program. */
  ghost predicate Numbers(p: Program, guid: Option<nat>, q: Option<Program>) {
    if guid.None? then q.None? else guid.value < |Nested(p)| && q == Some(Nested(p)[guid.value])
  }

  lemma NestedStep(stmts: seq<Statement>, i: nat)
    requires i < |stmts|
    ensures NestedUpTo(stmts, i + 1) == NestedUpTo(stmts, i) + NestedIn(stmts[i])
  {
    hide NestedIn;
  }

  lemma PrefixAt<T>(a: seq<T>, b: seq<T>, c: seq<T>, j: nat)
    requires a + b <= c && j < |b|
    ensures |a| + j < |c| && c[|a| + j] == b[j]
  {
    assert (a + b)[|a| + j] == b[j];
  }

  lemma NestedAt(p: Program, i: nat, j: nat)
    requires i < |p.statements| && j < |NestedIn(p.statements[i])|
    ensures Numbers(p, Some(|NestedUpTo(p.statements, i)| + j), Some(NestedIn(p.statements[i])[j]))
  {
    hide NestedUpTo, NestedIn;
    NestedUpToPrefix(p.statements, i + 1, |p.statements|);
    NestedStep(p.statements, i);
    PrefixAt(NestedUpTo(p.statements, i), NestedIn(p.statements[i]), Nested(p), j);
  }

  lemma {:induction false} StickyNumbers(p: Program, i: nat)
    requires i <= |p.statements|
    ensures Numbers(p, StickyGuid(p.statements, i), StickyInverse(p, i))
    decreases i
  {
    if i > 0 {
      if p.statements[i - 1].Inverse? {
        NestedAt(p, i - 1, 0);
      } else {
        StickyNumbers(p, i - 1);
      }
    }
  }

  /** The contexts a nested program is given, from the contexts of the program around it. */
  function OuterValues(ctxs: seq<Value>, depths: seq<nat>): seq<Value> {
    seq(|depths|, i requires 0 <= i < |depths| => ContextAt(ctxs, if depths[i] == 0 then 0 else depths[i] - 1))
  }

  ghost function KidDepths(o: Options, p: Program, k: nat): seq<nat>
    requires k < |Nested(p)|
  {
    Ascending(Needs(o, Nested(p)[k]))
  }

  ghost function KidIndex(o: Options, p: Program, k: nat, index: nat): nat
    requires k < |Nested(p)|
  {
    IndexOf(UnitOf(o, p).kids, k, index)
  }

  ghost function RefOf(o: Options, p: Program, index: nat, guid: Option<nat>, ctxs: seq<Value>): Ref
    requires guid.Some? ==> guid.value < |Nested(p)|
  {
    if guid.None? then NoopRef
    else ProgramRef(KidIndex(o, p, guid.value, index), OuterValues(ctxs, KidDepths(o, p, guid.value)))
  }

  /** The k-th nested program, called with context `c`, does what the evaluator says. */
  ghost predicate KidRuns(w: World, o: Options, l: Linked, p: Program, index: nat, ctxs: seq<Value>, k: nat, c: Value)
    requires k < |Nested(p)|
  {
    var i := KidIndex(o, p, k, index);
    && index < i < |l.table| && l.table[i].Some?
    && RunFn(w, l, i, c, OuterValues(ctxs, KidDepths(o, p, k))) ==
        EvalProgram(w, o, AsEmitted, Nested(p)[k], [c] + ctxs)
  }

  ghost predicate KidsRun(w: World, o: Options, l: Linked, p: Program, index: nat, ctxs: seq<Value>) {
    forall k, c :: 0 <= k < |Nested(p)| ==> KidRuns(w, o, l, p, index, ctxs, k, c)
  }

  lemma {:induction false} NestedNeedsUpTo(o: Options, p: Program, n: nat, k: nat)
    requires n <= |p.statements| && k < |NestedUpTo(p.statements, n)|
    ensures OneOut(Needs(o, NestedUpTo(p.statements, n)[k])) <= NeedsUpTo(o, p, n)
    decreases n
  {
    hide Needs, OneOut, MustacheDepths;
    if k < |NestedUpTo(p.statements, n - 1)| {
      NestedNeedsUpTo(o, p, n - 1, k);
    }
  }

  function ContextsAtDepths(ctxs: seq<Value>, ds: seq<nat>): seq<Value> {
    seq(|ds|, i requires 0 <= i < |ds| => ContextAt(ctxs, ds[i]))
  }

  lemma {:induction false} ReadsContexts(l: Linked, f: Frame, ctxs: seq<Value>, depths: set<nat>, ds: seq<nat>)
    requires SeesContexts(l, f, ctxs, depths)
    requires forall i :: 0 <= i < |ds| ==> ds[i] == 0 || ds[i] in depths
    ensures ReadDepths(l, f, ds) == Ok(ContextsAtDepths(ctxs, ds))
    decreases |ds|
  {
    if ds == [] {
      assert ContextsAtDepths(ctxs, ds) == [];
    } else {
      ReadsContexts(l, f, ctxs, depths, ds[1..]);
      assert ReadDepth(l, f, ds[0]) == Ok(ContextAt(ctxs, ds[0]));
      assert ContextsAtDepths(ctxs, ds) == [ContextAt(ctxs, ds[0])] + ContextsAtDepths(ctxs, ds[1..]);
    }
  }

  lemma ExprDenotes(o: Options, l: Linked, f: Frame, p: Program, guid: Option<nat>, ctxs: seq<Value>)
    requires SeesContexts(l, f, ctxs, Needs(o, p))
    requires guid.Some? ==> guid.value < |Nested(p)|
    ensures EvalExpr(l, f, ExprOf(KidsOf(UnitOf(o, p).kids, f.index), guid)) == Ok(RefOf(o, p, f.index, guid, ctxs))
  {
    if guid.Some? {
      var k := guid.value;
      var depths := KidDepths(o, p, k);
      var outer := OuterDepths(depths);
      NestedNeedsUpTo(o, p, |p.statements|, k);
      forall i | 0 <= i < |outer|
        ensures outer[i] == 0 || outer[i] in Needs(o, p)
      {
        assert depths[i] in ToSet(depths);
        if depths[i] >= 2 {
          assert depths[i] - 1 in OneOut(Needs(o, Nested(p)[k]));
        }
      }
      ReadsContexts(l, f, ctxs, Needs(o, p), outer);
      assert OuterValues(ctxs, depths) == ContextsAtDepths(ctxs, outer);
    }
  }

  lemma RunnersAgree(w: World, o: Options, l: Linked, p: Program, index: nat, ctxs: seq<Value>,
                     guid: Option<nat>, q: Option<Program>, inv: Option<nat>, r: Option<Program>, b: bool, c: Value)
    requires KidsRun(w, o, l, p, index, ctxs)
    requires Numbers(p, guid, q) && Numbers(p, inv, r)
    requires q.Some? ==> q.value < p
    requires r.Some? ==> r.value < p
    ensures OptionsRunner(w, l, index, RefOf(o, p, index, guid, ctxs), RefOf(o, p, index, inv, ctxs))(b, c) ==
            Runner(w, o, AsEmitted, p, q, r, ctxs)(b, c)
  {
    var g := if b then inv else guid;
    if g.Some? {
      assert KidRuns(w, o, l, p, index, ctxs, g.value, c);
    }
  }

  lemma ProgramsAgree(w: World, o: Options, l: Linked, f: Frame, p: Program, ctxs: seq<Value>,
                      guid: Option<nat>, q: Option<Program>, inv: Option<nat>, r: Option<Program>)
    requires SeesContexts(l, f, ctxs, Needs(o, p)) && KidsRun(w, o, l, p, f.index, ctxs)
    requires Numbers(p, guid, q) && Numbers(p, inv, r)
    requires q.Some? ==> q.value < p
    requires r.Some? ==> r.value < p
    ensures Programs(w, o, l, f, KidsOf(UnitOf(o, p).kids, f.index), guid, inv,
                     RefOf(o, p, f.index, guid, ctxs), RefOf(o, p, f.index, inv, ctxs),
                         Runner(w, o, AsEmitted, p, q, r, ctxs))
  {
    ExprDenotes(o, l, f, p, guid, ctxs);
    ExprDenotes(o, l, f, p, inv, ctxs);
    forall b, c {
      RunnersAgree(w, o, l, p, f.index, ctxs, guid, q, inv, r, b, c);
    }
  }

  // ----- statements

  lemma {:induction false} StatementSees(o: Options, l: Linked, f: Frame, ctxs: seq<Value>, p: Program, n: nat, i: nat)
    requires i < n <= |p.statements| && SeesContexts(l, f, ctxs, NeedsUpTo(o, p, n))
    ensures SeesContexts(l, f, ctxs, StatementDepths(o, p.statements[i]))
    decreases n
  {
    hide StatementDepths;
    if i < n - 1 {
      StatementSees(o, l, f, ctxs, p, n - 1, i);
    }
  }

  /** The inverse declared when block `i` is called. */
  function BlockInverse(p: Program, i: nat): Option<nat>
    requires i < |p.statements| && p.statements[i].Block?
  {
    if p.statements[i].program.inverse.Some? then Some(|NestedUpTo(p.statements, i)| + 1)
        else StickyGuid(p.statements, i)
  }

  lemma BlockNumbers(p: Program, i: nat)
    requires i < |p.statements| && p.statements[i].Block?
    ensures p.statements[i].program < p
    ensures Numbers(p, Some(|NestedUpTo(p.statements, i)|), Some(p.statements[i].program))
    ensures Numbers(p, BlockInverse(p, i), ElseBranch(AsEmitted, p, i))
  {
    assert p.statements[i] < p;
    hide NestedUpTo, Nested, StickyInverse, StickyGuid;
    NestedAt(p, i, 0);
    if p.statements[i].program.inverse.Some? {
      NestedAt(p, i, 1);
    } else {
      StickyNumbers(p, i);
    }
  }

  lemma BlockPrograms(w: World, o: Options, l: Linked, f: Frame, ctxs: seq<Value>, p: Program, i: nat)
    requires i < |p.statements| && p.statements[i].Block?
    requires SeesContexts(l, f, ctxs, Needs(o, p)) && KidsRun(w, o, l, p, f.index, ctxs)
    ensures var q, g := p.statements[i].program, |NestedUpTo(p.statements, i)|;
            && q < p && g < |Nested(p)|
            && (BlockInverse(p, i).Some? ==> BlockInverse(p, i).value < |Nested(p)|)
            && Programs(w, o, l, f, KidsOf(UnitOf(o, p).kids, f.index), Some(g), BlockInverse(p, i),
                        RefOf(o, p, f.index, Some(g), ctxs), RefOf(o, p, f.index, BlockInverse(p, i), ctxs),
                        Runner(w, o, AsEmitted, p, Some(q), ElseBranch(AsEmitted, p, i), ctxs))
  {
    hide Programs, Runner, UnitOf, KidsOf, KidsRun, SeesContexts, Needs, NestedUpTo, Nested, ElseBranch, BlockInverse,
         RefOf;
    BlockNumbers(p, i);
    ProgramsAgree(w, o, l, f, p, ctxs, Some(|NestedUpTo(p.statements, i)|), Some(p.statements[i].program),
                  BlockInverse(p, i), ElseBranch(AsEmitted, p, i));
  }

  lemma BlockRuns(w: World, o: Options, l: Linked, f: Frame, ctxs: seq<Value>, p: Program, i: nat, st: GenState,
                  m: Machine)
    requires i < |p.statements| && p.statements[i].Block?
    requires EncodableStatement(o, p.statements[i]) && SeesContexts(l, f, ctxs, Needs(o, p)) &&
             KidsRun(w, o, l, p, f.index, ctxs)
    requires SeesContexts(l, f, ctxs, MustacheDepths(o, p.statements[i].mustache))
    requires Between(st, StaleKnown(o, p.statements, i), StickyGuid(p.statements, i))
    ensures var ops := StatementOps(o, p.statements[i], |NestedUpTo(p.statements, i)|);
            var kids := KidsOf(UnitOf(o, p).kids, f.index);
            && Between(GenAfter(o, kids, ops, st), false, None)
            && Emits(w, f, RunOps(w, o, l, f, kids, ops, st, m), m, EvalStatement(w, o, AsEmitted, p, i, ctxs))
  {
    hide Programs, RunOps, GenAfter, Runner, EvalSection, EvalStatement, SectionOps, StatementOps, UnitOf, KidsOf,
         KidsRun, SeesContexts, Needs,
         Emits, EncodableMustache, EncodableStatement, MustacheDepths, NestedUpTo, StaleKnown, StickyGuid, ElseBranch,
             RefOf, KnownAtHead;
    var mu, q, g := p.statements[i].mustache, p.statements[i].program, |NestedUpTo(p.statements, i)|;
    CurrentContext(l, f, ctxs, Needs(o, p));
    BlockPrograms(w, o, l, f, ctxs, p, i);
    BlockShape(w, o, ctxs, p, i, g);
    var declared: Option<nat> := if q.inverse.Some? then Some(g + 1) else None;
    SectionRuns(w, o, l, f, KidsOf(UnitOf(o, p).kids, f.index), ctxs, mu, st, m, declared, Some(g), true,
                RefOf(o, p, f.index, Some(g), ctxs), RefOf(o, p, f.index, BlockInverse(p, i), ctxs),
                Runner(w, o, AsEmitted, p, Some(q), ElseBranch(AsEmitted, p, i), ctxs));
  }

  /** What is emitted and what is evaluated for a block. */
  lemma BlockShape(w: World, o: Options, ctxs: seq<Value>, p: Program, i: nat, g: nat)
    requires i < |p.statements| && p.statements[i].Block? && EncodableStatement(o, p.statements[i]) && |ctxs| > 0
    ensures var mu, q := p.statements[i].mustache, p.statements[i].program;
            && q < p && EncodableMustache(o, mu)
            && StatementOps(o, p.statements[i], g) ==
                SectionOps(o, mu, if q.inverse.Some? then Some(g + 1) else None, Some(g), true)
            && EvalStatement(w, o, AsEmitted, p, i, ctxs) ==
               EvalSection(w, o, KnownAtHead(o, mu, StaleKnown(o, p.statements, i)), mu, ctxs,
                           Runner(w, o, AsEmitted, p, Some(q), ElseBranch(AsEmitted, p, i), ctxs))
  {
    hide Runner, EvalSection, KnownAtHead, StaleKnown, SetupOps, EncodableMustache, ElseBranch;
    assert p.statements[i] < p;
  }

  /** What is emitted and what is evaluated for an inverse section. */
  lemma InverseShape(w: World, o: Options, ctxs: seq<Value>, p: Program, i: nat, g: nat)
    requires i < |p.statements| && p.statements[i].Inverse? && EncodableStatement(o, p.statements[i]) && |ctxs| > 0
    ensures var mu, q := p.statements[i].mustache, p.statements[i].program;
            && q < p && EncodableMustache(o, mu)
            && StatementOps(o, p.statements[i], g) == SectionOps(o, mu, Some(g), None, false)
            && EvalStatement(w, o, AsEmitted, p, i, ctxs) ==
               EvalSection(w, o, KnownAtHead(o, mu, StaleKnown(o, p.statements, i)), mu, ctxs,
                           Runner(w, o, AsEmitted, p, None, Some(q), ctxs))
  {
    hide Runner, EvalSection, KnownAtHead, StaleKnown, SetupOps, EncodableMustache;
    assert p.statements[i] < p;
  }

  lemma {:induction false} InversePrograms(w: World, o: Options, l: Linked, f: Frame, ctxs: seq<Value>, p: Program,
                                           i: nat)
    requires i < |p.statements| && p.statements[i].Inverse?
    requires SeesContexts(l, f, ctxs, Needs(o, p)) && KidsRun(w, o, l, p, f.index, ctxs)
    ensures var q, g := p.statements[i].program, |NestedUpTo(p.statements, i)|;
            && q < p && g < |Nested(p)| && |ctxs| > 0
            && Programs(w, o, l, f, KidsOf(UnitOf(o, p).kids, f.index), None, Some(g),
                        RefOf(o, p, f.index, None, ctxs), RefOf(o, p, f.index, Some(g), ctxs),
                        Runner(w, o, AsEmitted, p, None, Some(q), ctxs))
  {
    hide Programs, Runner, UnitOf, KidsOf, KidsRun, SeesContexts, Needs, RefOf;
    assert p.statements[i] < p;
    CurrentContext(l, f, ctxs, Needs(o, p));
    NestedAt(p, i, 0);
    ProgramsAgree(w, o, l, f, p, ctxs, None, None, Some(|NestedUpTo(p.statements, i)|), Some(p.statements[i].program));
  }

  lemma InverseRuns(w: World, o: Options, l: Linked, f: Frame, ctxs: seq<Value>, p: Program, i: nat, st: GenState,
                    m: Machine)
    requires i < |p.statements| && p.statements[i].Inverse?
    requires EncodableStatement(o, p.statements[i]) && SeesContexts(l, f, ctxs, Needs(o, p)) &&
             KidsRun(w, o, l, p, f.index, ctxs)
    requires SeesContexts(l, f, ctxs, MustacheDepths(o, p.statements[i].mustache))
    requires Between(st, StaleKnown(o, p.statements, i), StickyGuid(p.statements, i))
    ensures var g := |NestedUpTo(p.statements, i)|;
            var ops := StatementOps(o, p.statements[i], g);
            var kids := KidsOf(UnitOf(o, p).kids, f.index);
            && Between(GenAfter(o, kids, ops, st), false, Some(g))
            && Emits(w, f, RunOps(w, o, l, f, kids, ops, st, m), m, EvalStatement(w, o, AsEmitted, p, i, ctxs))
  {
    hide Programs, RunOps, GenAfter, Runner, EvalSection, EvalStatement, SectionOps, StatementOps, UnitOf, KidsOf,
         KidsRun, SeesContexts, Needs,
         Emits, EncodableMustache, EncodableStatement, MustacheDepths, NestedUpTo, StaleKnown, StickyGuid, RefOf,
             KnownAtHead, StickyInverse;
    var mu, q, g := p.statements[i].mustache, p.statements[i].program, |NestedUpTo(p.statements, i)|;
    InversePrograms(w, o, l, f, ctxs, p, i);
    InverseShape(w, o, ctxs, p, i, g);
    SectionRuns(w, o, l, f, KidsOf(UnitOf(o, p).kids, f.index), ctxs, mu, st, m, Some(g), None, false,
                RefOf(o, p, f.index, None, ctxs), RefOf(o, p, f.index, Some(g), ctxs),
                    Runner(w, o, AsEmitted, p, None, Some(q), ctxs));
  }

  lemma ContentRuns(w: World, o: Options, l: Linked, f: Frame, kids: seq<Kid>, text: string, st: GenState, m: Machine)
    ensures GenAfter(o, kids, [AppendContent(text)], st) == st
    ensures Emits(w, f, RunOps(w, o, l, f, kids, [AppendContent(text)], st, m), m, Ok(Text(text)))
  {
    Single(w, o, l, f, kids, AppendContent(text), st, m);
  }

  /** Every statement but a comment contributes what the evaluator says, and leaves the stack as it was. */
  lemma StatementRuns(w: World, o: Options, l: Linked, f: Frame, ctxs: seq<Value>, p: Program, i: nat, st: GenState,
                      m: Machine)
    requires i < |p.statements| && !p.statements[i].Comment?
    requires EncodableStatement(o, p.statements[i]) && SeesContexts(l, f, ctxs, Needs(o, p)) &&
             KidsRun(w, o, l, p, f.index, ctxs)
    requires Between(st, StaleKnown(o, p.statements, i), StickyGuid(p.statements, i))
    ensures var ops := StatementOps(o, p.statements[i], |NestedUpTo(p.statements, i)|);
            var kids := KidsOf(UnitOf(o, p).kids, f.index);
            && Between(GenAfter(o, kids, ops, st), StaleKnown(o, p.statements, i + 1), StickyGuid(p.statements, i + 1))
            && Emits(w, f, RunOps(w, o, l, f, kids, ops, st, m), m, EvalStatement(w, o, AsEmitted, p, i, ctxs))
  {
    var kids := KidsOf(UnitOf(o, p).kids, f.index);
    StatementSees(o, l, f, ctxs, p, |p.statements|, i);
    hide GenAfter, RunOps, UnitOf, KidsOf, KidsRun, Emits, EvalSection, EvalOutput, EvalPartial, MustacheDepths, Needs,
         EncodableMustache;
    match p.statements[i]
    case Content(text) => ContentRuns(w, o, l, f, kids, text, st, m);
    case Output(mu) => OutputRuns(w, o, l, f, kids, ctxs, mu, st, m);
    case Partial(name, context) => PartialRuns(w, o, l, f, kids, ctxs, name, context, st, m);
    case Block(mu, q) =>
      SeesFewer(l, f, ctxs, MustacheDepths(o, mu), StatementDepths(o, p.statements[i]));
      BlockRuns(w, o, l, f, ctxs, p, i, st, m);
    case Inverse(mu, q) =>
      SeesFewer(l, f, ctxs, MustacheDepths(o, mu), StatementDepths(o, p.statements[i]));
      InverseRuns(w, o, l, f, ctxs, p, i, st, m);
  }

  // ----- whole programs

  /** The buffer holds the text of the statements run so far. */
  ghost predicate Buffered(x: Exec, m: Machine, r: Res<string>) {
    match r
    case Ok(text) => x.Next? && x.m.buffer == m.buffer + text
    case Throw(e) => x == Threw(e)
  }

  /** Everything the proof of one program needs to know. */
  ghost predicate Linkable(w: World, o: Options, l: Linked, f: Frame, ctxs: seq<Value>, p: Program) {
    Encodable(o, p) && SeesContexts(l, f, ctxs, Needs(o, p)) && KidsRun(w, o, l, p, f.index, ctxs)
  }

  lemma PrefixStart(w: World, o: Options, l: Linked, f: Frame, kids: seq<Kid>, ctxs: seq<Value>, p: Program, m: Machine)
    requires |ctxs| > 0
    ensures Between(GenAfter(o, kids, OpsUpTo(o, p.statements, 0), START_STATE), StaleKnown(o, p.statements, 0),
                    StickyGuid(p.statements, 0))
    ensures Buffered(RunOps(w, o, l, f, kids, OpsUpTo(o, p.statements, 0), START_STATE, m), m,
                     EvalText(w, o, AsEmitted, p, 0, ctxs))
  {
    Nothing(w, o, l, f, kids, START_STATE, m);
    assert m.buffer + "" == m.buffer;
  }

  /** Running one more statement. */
  lemma PrefixStep(w: World, o: Options, l: Linked, f: Frame, ctxs: seq<Value>, p: Program, i: nat, st: GenState,
                   x: Exec, m: Machine, text: Res<string>)
    requires i < |p.statements| && !f.simple && |ctxs| > 0 && Linkable(w, o, l, f, ctxs, p)
    requires Between(st, StaleKnown(o, p.statements, i), StickyGuid(p.statements, i)) && Buffered(x, m, text)
    ensures var ops := StatementOps(o, p.statements[i], |NestedUpTo(p.statements, i)|);
            var kids := KidsOf(UnitOf(o, p).kids, f.index);
            && Between(GenAfter(o, kids, ops, st), StaleKnown(o, p.statements, i + 1), StickyGuid(p.statements, i + 1))
            && Buffered(if x.Next? then RunOps(w, o, l, f, kids, ops, st, x.m) else x, m,
                        TextThen(w, text, EvalStatement(w, o, AsEmitted, p, i, ctxs)))
  {
    var ops := StatementOps(o, p.statements[i], |NestedUpTo(p.statements, i)|);
    AnyStatementRuns(w, o, l, f, ctxs, p, i, st, if x.Next? then x.m else m);
    hide GenAfter, RunOps, UnitOf, KidsOf, KidsRun, StatementOps, EncodableStatement, EvalStatement, Needs,
         SeesContexts, Linkable,
         Buffered, Emits, TextThen, StaleKnown, StickyGuid, Between;
    var y := if x.Next? then RunOps(w, o, l, f, KidsOf(UnitOf(o, p).kids, f.index), ops, st, x.m) else x;
    BufferedThen(w, f, x, y, m, text, EvalStatement(w, o, AsEmitted, p, i, ctxs));
  }

  lemma {:induction false} PrefixRuns(w: World, o: Options, l: Linked, f: Frame, ctxs: seq<Value>, p: Program, n: nat,
                                      m: Machine)
    requires n <= |p.statements| && !f.simple && |ctxs| > 0 && Linkable(w, o, l, f, ctxs, p)
    ensures var ops := OpsUpTo(o, p.statements, n);
            var kids := KidsOf(UnitOf(o, p).kids, f.index);
            && Between(GenAfter(o, kids, ops, START_STATE), StaleKnown(o, p.statements, n), StickyGuid(p.statements, n))
            && Buffered(RunOps(w, o, l, f, kids, ops, START_STATE, m), m, EvalText(w, o, AsEmitted, p, n, ctxs))
    decreases n
  {
    hide GenAfter, RunOps, UnitOf, KidsOf, StatementOps, EvalStatement, EvalText, Linkable, Buffered, TextThen,
         StaleKnown, StickyGuid, Between;
    var kids := KidsOf(UnitOf(o, p).kids, f.index);
    if n == 0 {
      PrefixStart(w, o, l, f, kids, ctxs, p, m);
    } else {
      var before := OpsUpTo(o, p.statements, n - 1);
      PrefixRuns(w, o, l, f, ctxs, p, n - 1, m);
      Sequence(w, o, l, f, kids, before, StatementOps(o, p.statements[n - 1], |NestedUpTo(p.statements, n - 1)|),
               START_STATE, m);
      TextStep(w, o, p, n, ctxs);
      PrefixStep(w, o, l, f, ctxs, p, n - 1, GenAfter(o, kids, before, START_STATE),
                 RunOps(w, o, l, f, kids, before, START_STATE, m), m, EvalText(w, o, AsEmitted, p, n - 1, ctxs));
    }
  }

  function TextThen(w: World, r: Res<string>, v: Res<Value>): Res<string> {
    var text :- r;
    var x :- v;
    Ok(text + ToText(w, x))
  }

  lemma TextStep(w: World, o: Options, p: Program, n: nat, ctxs: seq<Value>)
    requires 0 < n <= |p.statements| && |ctxs| > 0
    ensures EvalText(w, o, AsEmitted, p, n, ctxs) ==
            TextThen(w, EvalText(w, o, AsEmitted, p, n - 1, ctxs), EvalStatement(w, o, AsEmitted, p, n - 1, ctxs))
  {
    hide EvalStatement;
  }

  lemma BufferedThen(w: World, f: Frame, x: Exec, y: Exec, m: Machine, r: Res<string>, v: Res<Value>)
    requires !f.simple && Buffered(x, m, r)
    requires if x.Next? then Emits(w, f, y, x.m, v) else y == x
    ensures Buffered(y, m, TextThen(w, r, v))
  {
    if r.Ok? && v.Ok? {
      assert m.buffer + (r.value + ToText(w, v.value)) == m.buffer + r.value + ToText(w, v.value);
    }
  }

  /** A comment emits nothing, which in a buffer is the empty text. */
  lemma AnyStatementRuns(w: World, o: Options, l: Linked, f: Frame, ctxs: seq<Value>, p: Program, i: nat, st: GenState,
                         m: Machine)
    requires i < |p.statements| && !f.simple
    requires EncodableStatement(o, p.statements[i]) && SeesContexts(l, f, ctxs, Needs(o, p)) &&
             KidsRun(w, o, l, p, f.index, ctxs)
    requires Between(st, StaleKnown(o, p.statements, i), StickyGuid(p.statements, i))
    ensures var ops := StatementOps(o, p.statements[i], |NestedUpTo(p.statements, i)|);
            var kids := KidsOf(UnitOf(o, p).kids, f.index);
            && Between(GenAfter(o, kids, ops, st), StaleKnown(o, p.statements, i + 1), StickyGuid(p.statements, i + 1))
            && Emits(w, f, RunOps(w, o, l, f, kids, ops, st, m), m, EvalStatement(w, o, AsEmitted, p, i, ctxs))
  {
    if p.statements[i].Comment? {
      var kids := KidsOf(UnitOf(o, p).kids, f.index);
      Nothing(w, o, l, f, kids, st, m);
      assert m.buffer + "" == m.buffer;
    } else {
      StatementRuns(w, o, l, f, ctxs, p, i, st, m);
    }
  }

  /** A program of one statement. */
  lemma SimpleRuns(w: World, o: Options, l: Linked, f: Frame, ctxs: seq<Value>, p: Program, m: Machine)
    requires |p.statements| == 1 && f.simple
    requires Encodable(o, p) && SeesContexts(l, f, ctxs, Needs(o, p)) && KidsRun(w, o, l, p, f.index, ctxs)
    ensures Finish(f, RunCode(w, l, f, GenOf(o, UnitOf(o, p), f.index).code, m)) ==
            EvalProgram(w, o, AsEmitted, p, ctxs)
  {
    var kids := KidsOf(UnitOf(o, p).kids, f.index);
    var ops := StatementOps(o, p.statements[0], 0);
    assert OpsUpTo(o, p.statements, 0) == [] && NestedUpTo(p.statements, 0) == [];
    assert OpsOf(o, p) == [] + ops == ops;
    StatementNoFusion(o, p.statements[0], 0);
    NothingToFuse(o, kids, ops, START_STATE);
    if p.statements[0].Comment? {
      Nothing(w, o, l, f, kids, START_STATE, m);
    } else {
      StatementRuns(w, o, l, f, ctxs, p, 0, START_STATE, m);
      hide RunCode, GenFused, EvalStatement, StatementOps, UnitOf, KidsRun, Needs, SeesContexts, KidsOf;
      var v := EvalStatement(w, o, AsEmitted, p, 0, ctxs);
      assert Emits(w, f, RunOps(w, o, l, f, kids, ops, START_STATE, m), m, v);
    }
  }

  lemma {:induction false} BufferedProgramRuns(w: World, o: Options, l: Linked, f: Frame, ctxs: seq<Value>, p: Program)
    requires |p.statements| != 1 && !f.simple
    requires Encodable(o, p) && SeesContexts(l, f, ctxs, Needs(o, p)) && KidsRun(w, o, l, p, f.index, ctxs)
    ensures Finish(f, RunCode(w, l, f, GenOf(o, UnitOf(o, p), f.index).code, StartMachine(l))) ==
            EvalProgram(w, o, AsEmitted, p, ctxs)
  {
    var kids := KidsOf(UnitOf(o, p).kids, f.index);
    FusedRuns(w, o, l, f, kids, OpsOf(o, p), START_STATE, StartMachine(l));
    PrefixRuns(w, o, l, f, ctxs, p, |p.statements|, StartMachine(l));
    hide RunCode, GenFused, GenPlain, EvalText, OpsUpTo, UnitOf, KidsRun, Needs, SeesContexts, KidsOf;
    var text := EvalText(w, o, AsEmitted, p, |p.statements|, ctxs);
    assert Buffered(RunOps(w, o, l, f, kids, OpsOf(o, p), START_STATE, StartMachine(l)), StartMachine(l), text);
    assert text.Ok? ==> "" + text.value == text.value;
  }

  lemma BodyRuns(w: World, o: Options, l: Linked, f: Frame, ctxs: seq<Value>, p: Program)
    requires f.simple == (|p.statements| == 1)
    requires Encodable(o, p) && SeesContexts(l, f, ctxs, Needs(o, p)) && KidsRun(w, o, l, p, f.index, ctxs)
    ensures Finish(f, RunCode(w, l, f, GenOf(o, UnitOf(o, p), f.index).code, StartMachine(l))) ==
            EvalProgram(w, o, AsEmitted, p, ctxs)
  {
    hide RunCode, GenOf, EvalProgram, UnitOf, KidsRun, Needs, SeesContexts;
    if f.simple {
      SimpleRuns(w, o, l, f, ctxs, p, StartMachine(l));
    } else {
      BufferedProgramRuns(w, o, l, f, ctxs, p);
    }
  }

  /** No program nested in `p`, at any level, loses a parameter. */
  ghost predicate KeepsDepths(o: Options, p: Program) {
    forall k :: 0 <= k < |Nested(p)| ==> KidKeepsDepths(o, p, k)
  }

  ghost predicate KidKeepsDepths(o: Options, p: Program, k: nat)
    requires k < |Nested(p)|
  {
    NestedSmaller(p, |p.statements|, k);
    var q := Nested(p)[k];
    !DropsLastDepth(Ascending(Needs(o, q)), UsesPartial(q)) && KeepsDepths(o, q)
  }

  lemma {:induction false} KidHolds(o: Options, table: seq<Option<Fn>>, us: seq<Unit>, n: nat, index: nat, k: nat)
    requires k < n <= |us| && Holds(o, table, us, n, index)
    ensures var i := IndexOf(us, k, index);
            && index < i < |table| && table[i] == Some(ChildFn(o, us[k], i))
            && Holds(o, table, us[k].kids, |us[k].kids|, i)
    decreases n
  {
    hide ChildFn;
    if k < n - 1 {
      KidHolds(o, table, us, n - 1, index, k);
    }
  }

  lemma {:induction false} NestedEncodable(o: Options, p: Program, n: nat, k: nat)
    requires n <= |p.statements| && Encodable(o, p) && k < |NestedUpTo(p.statements, n)|
    ensures Encodable(o, NestedUpTo(p.statements, n)[k])
    decreases n
  {
    if k < |NestedUpTo(p.statements, n - 1)| {
      NestedEncodable(o, p, n - 1, k);
    } else {
      assert EncodableStatement(o, p.statements[n - 1]);
    }
  }

  /** Positional arguments reach the parameters of the same position. */
  lemma {:induction false} ArgumentAt(params: seq<nat>, args: seq<Value>, i: nat)
    requires IsAscending(params) && i < |params| == |args|
    ensures ArgumentOf(params, args, params[i]) == args[i]
    decreases |params|
  {
    if i > 0 {
      ArgumentAt(params[1..], args[1..], i - 1);
    }
  }

  lemma DepthPassed(depths: seq<nat>, ctxs: seq<Value>, c: Value, d: nat)
    requires IsAscending(depths) && d in ToSet(depths) && d > 0
    ensures ArgumentOf(depths, OuterValues(ctxs, depths), d) == ContextAt([c] + ctxs, d)
  {
    var i :| 0 <= i < |depths| && depths[i] == d;
    ArgumentAt(depths, OuterValues(ctxs, depths), i);
  }

  /** A nested function with all its parameters sees the contexts of the programs around it. */
  lemma ChildSees(o: Options, l: Linked, q: Program, index: nat, c: Value, ctxs: seq<Value>)
    requires |ctxs| > 0 && !DropsLastDepth(Ascending(Needs(o, q)), UsesPartial(q))
    ensures var f := FrameOf(ChildFn(o, UnitOf(o, q), index), index, c, OuterValues(ctxs, Ascending(Needs(o, q))));
            SeesContexts(l, f, [c] + ctxs, Needs(o, q))
  {
    var depths := Ascending(Needs(o, q));
    var args := OuterValues(ctxs, depths);
    var f := FrameOf(ChildFn(o, UnitOf(o, q), index), index, c, args);
    assert f.scope == Bind(depths, args);
    assert ToSet(depths) == Needs(o, q);
    hide UnitOf, GenOf, Needs, Ascending, ChildFn, FrameOf, OuterValues, ArgumentOf;
    forall d | d in Needs(o, q)
      ensures ReadDepth(l, f, d) == Ok(ContextAt([c] + ctxs, d))
    {
      assert d in depths;
      if d > 0 {
        DepthPassed(depths, ctxs, c, d);
      }
    }
  }

  /** The program with index `f.index`, entered with the contexts it needs, does what the evaluator says. */
  lemma {:induction false} ProgramRuns(w: World, o: Options, l: Linked, f: Frame, ctxs: seq<Value>, p: Program)
    requires f.simple == (|p.statements| == 1)
    requires Encodable(o, p) && KeepsDepths(o, p) && SeesContexts(l, f, ctxs, Needs(o, p))
    requires Holds(o, l.table, UnitOf(o, p).kids, |Nested(p)|, f.index)
    ensures Finish(f, RunCode(w, l, f, GenOf(o, UnitOf(o, p), f.index).code, StartMachine(l))) ==
            EvalProgram(w, o, AsEmitted, p, ctxs)
    decreases p, 1
  {
    forall k, c | 0 <= k < |Nested(p)|
      ensures KidRuns(w, o, l, p, f.index, ctxs, k, c)
    {
      KidRunsProof(w, o, l, f, ctxs, p, k, c);
    }
    BodyRuns(w, o, l, f, ctxs, p);
  }

  lemma {:induction false} KidRunsProof(w: World, o: Options, l: Linked, f: Frame, ctxs: seq<Value>, p: Program,
                                        k: nat, c: Value)
    requires k < |Nested(p)| && |ctxs| > 0
    requires Encodable(o, p) && KeepsDepths(o, p)
    requires Holds(o, l.table, UnitOf(o, p).kids, |Nested(p)|, f.index)
    ensures KidRuns(w, o, l, p, f.index, ctxs, k, c)
    decreases p, 0
  {
    NestedSmaller(p, |p.statements|, k);
    var q := Nested(p)[k];
    assert q < p;
    assert KidKeepsDepths(o, p, k);
    NestedEncodable(o, p, |p.statements|, k);
    var i := KidIndex(o, p, k, f.index);
    KidHolds(o, l.table, UnitOf(o, p).kids, |Nested(p)|, f.index, k);
    assert UnitOf(o, p).kids[k] == UnitOf(o, q);
    ChildSees(o, l, q, i, c, ctxs);
    var child := FrameOf(ChildFn(o, UnitOf(o, q), i), i, c, OuterValues(ctxs, KidDepths(o, p, k)));
    ProgramRuns(w, o, l, child, [c] + ctxs, q);
  }

  // ----- the theorem

  /** A compiled template: its main function and the list of the programs nested in it. */
  datatype Compiled = Compiled(main: Fn, programs: seq<Option<Fn>>)

  function CompiledOf(o: Options, u: Unit): Compiled {
    Compiled(FnOf(o, u, 0, u.depths), TableOf(o, u))
  }

  /** Renders a compiled template in context `ctx`; `junk` is what the register `tmp1` happens to hold. */
  function Render(w: World, c: Compiled, junk: Tmp, ctx: Value): Res<Value> {
    var l := Linked(c.programs, ToSet(c.main.params), junk);
    var f := FrameOf(c.main, 0, ctx, []);
    Finish(f, RunCode(w, l, f, c.main.code, StartMachine(l)))
  }

  lemma {:induction false} NoArguments(params: seq<nat>, d: nat)
    ensures ArgumentOf(params, [], d) == Undefined
  {
  }

  /**
   Compiler correctness: for every template whose params can be encoded and whose nested programs keep
   their parameters, every world and every context, running the emitted code gives exactly the value or
   the exception that evaluating the syntax tree gives.
   */
  lemma CompilerCorrect(w: World, o: Options, p: Program, junk: Tmp, ctx: Value)
    requires Encodable(o, p) && KeepsDepths(o, p)
    ensures Render(w, CompiledOf(o, UnitOf(o, p)), junk, ctx) == EvalProgram(w, o, AsEmitted, p, [ctx])
  {
    var u := UnitOf(o, p);
    var c := CompiledOf(o, u);
    var l := Linked(c.programs, ToSet(c.main.params), junk);
    var f := FrameOf(c.main, 0, ctx, []);
    forall d | d in Needs(o, p)
      ensures ReadDepth(l, f, d) == Ok(ContextAt([ctx], d))
    {
      assert d in ToSet(u.depths);
      NoArguments(u.depths, d);
    }
    assert SeesContexts(l, f, [ctx], Needs(o, p));
    FillHolds(o, u.kids, |u.kids|, []);
    ProgramRuns(w, o, l, f, [ctx], p);
  }
}
