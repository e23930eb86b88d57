/** Emitted code for calls and statements does what the evaluator does. */
module CallProof {
  import opened JsRuntime
  import opened TemplateAst
  import opened TemplateEval
  import opened Opcodes
  import opened FirstPass
  import opened CodeGen
  import opened SlotMachine
  import opened ExpressionProof

  // ----- the options object

  function ContextsAt(m: Machine, top: int, n: nat): seq<Value> {
    seq(n, i requires 0 <= i < n => Slot(m, top - 2 * i - 1))
  }

  lemma {:induction false} ContextPushesRun(w: World, l: Linked, f: Frame, top: int, n: nat, m: Machine)
    ensures RunCode(w, l, f, ContextPushes(top, n), m) ==
            Next(m.(tmp := m.tmp.(contexts := m.tmp.contexts + ContextsAt(m, top, n))))
  {
    if n == 0 {
      assert m.tmp.contexts + ContextsAt(m, top, 0) == m.tmp.contexts;
    } else {
      ContextPushesRun(w, l, f, top, n - 1, m);
      var last := TmpPushContext(top - 2 * (n - 1) - 1);
      RunConcat(w, l, f, ContextPushes(top, n - 1), [last], m);
      hide RunCode;
      var m1 := m.(tmp := m.tmp.(contexts := m.tmp.contexts + ContextsAt(m, top, n - 1)));
      RunOne(w, l, f, last, m1);
      assert m.tmp.contexts + ContextsAt(m, top, n) ==
             m.tmp.contexts + ContextsAt(m, top, n - 1) + [Slot(m, top - 2 * (n - 1) - 1)];
    }
  }

  predicate NeedsRegister(o: Options, hasHash: bool, inverse: Option<ProgramExpr>) {
    hasHash || o.stringParams || inverse.Some?
  }

  function ParamTop(top: int, hasHash: bool): int {
    if hasHash then top - 2 else top - 1
  }

  function TmpAfter(o: Options, m: Machine, top: int, size: nat, self: Option<Ref>, inverse: Option<Ref>,
                    hasHash: bool): Tmp {
    Tmp(self,
        if inverse.Some? then self else None,
        inverse,
        if hasHash then Slot(m, top - 1) else Record(map[]),
        if o.stringParams then ContextsAt(m, ParamTop(top, hasHash), size) else [])
  }

  ghost predicate Denotes(l: Linked, f: Frame, e: Option<ProgramExpr>, r: Option<Ref>) {
    if e.None? then r.None? else r.Some? && EvalExpr(l, f, e.value) == Ok(r.value)
  }

  lemma TwoRun(w: World, l: Linked, f: Frame, a: Instr, b: Instr, m: Machine)
    ensures var x := RunInstr(w, l, f, a, m);
            RunCode(w, l, f, [a, b], m) == if x.Next? then RunInstr(w, l, f, b, x.m) else x
  {
    assert [a, b] == [a] + [b];
    RunConcat(w, l, f, [a], [b], m);
    hide RunCode;
    RunOne(w, l, f, a, m);
    var x := RunInstr(w, l, f, a, m);
    if x.Next? {
      RunOne(w, l, f, b, x.m);
    }
  }

  lemma ContextsRun(w: World, l: Linked, f: Frame, top: int, n: nat, m: Machine)
    ensures RunCode(w, l, f, [TmpContexts] + ContextPushes(top, n), m) ==
            Next(m.(tmp := m.tmp.(contexts := ContextsAt(m, top, n))))
  {
    RunConcat(w, l, f, [TmpContexts], ContextPushes(top, n), m);
    RunOne(w, l, f, TmpContexts, m);
    hide RunCode;
    var m1 := m.(tmp := m.tmp.(contexts := []));
    ContextPushesRun(w, l, f, top, n, m1);
    assert ContextsAt(m1, top, n) == ContextsAt(m, top, n);
    assert [] + ContextsAt(m, top, n) == ContextsAt(m, top, n);
  }

  /** The register and its hash. */
  lemma RegisterRuns(w: World, l: Linked, f: Frame, program: Option<ProgramExpr>, from: Option<int>, self: Option<Ref>,
                     m: Machine)
    requires Denotes(l, f, program, self)
    ensures RunCode(w, l, f, [SetTmp(program), TmpHash(from)], m) ==
            Next(m.(tmp := Tmp(self, None, None, if from.Some? then Slot(m, from.value) else Record(map[]), [])))
  {
    TwoRun(w, l, f, SetTmp(program), TmpHash(from), m);
  }

  /** The contexts of the params, if they are passed. */
  lemma PassContexts(w: World, o: Options, l: Linked, f: Frame, top: int, n: nat, m: Machine)
    requires m.tmp.contexts == []
    ensures RunCode(w, l, f, if o.stringParams then [TmpContexts] + ContextPushes(top, n) else [], m) ==
            Next(m.(tmp := m.tmp.(contexts := if o.stringParams then ContextsAt(m, top, n) else [])))
  {
    if o.stringParams {
      ContextsRun(w, l, f, top, n, m);
    } else {
      RunNothing(w, l, f, m);
    }
  }

  lemma PassPrograms(w: World, l: Linked, f: Frame, inverse: Option<ProgramExpr>, inv: Option<Ref>, m: Machine)
    requires Denotes(l, f, inverse, inv)
    requires m.tmp.fn == None && m.tmp.inverse == None
    ensures RunCode(w, l, f, if inverse.Some? then [TmpInverse(inverse.value)] else [], m) ==
            Next(m.(tmp := m.tmp.(fn := if inv.Some? then m.tmp.self else None, inverse := inv)))
  {
    if inverse.Some? {
      RunOne(w, l, f, TmpInverse(inverse.value), m);
    } else {
      RunNothing(w, l, f, m);
    }
  }

  lemma ThreeRun(w: World, l: Linked, f: Frame, a: seq<Instr>, b: seq<Instr>, c: seq<Instr>, m: Machine, m1: Machine,
                 m2: Machine)
    requires RunCode(w, l, f, a, m) == Next(m1) && RunCode(w, l, f, b, m1) == Next(m2)
    ensures RunCode(w, l, f, a + b + c, m) == RunCode(w, l, f, c, m2)
  {
    hide RunCode;
    RunConcat(w, l, f, a + b, c, m);
    RunConcat(w, l, f, a, b, m);
  }

  lemma SetupTmpRuns(w: World, o: Options, l: Linked, f: Frame, top: int, size: nat, program: Option<ProgramExpr>,
                     inverse: Option<ProgramExpr>, hasHash: bool, self: Option<Ref>, inv: Option<Ref>, m: Machine)
    requires Denotes(l, f, program, self) && Denotes(l, f, inverse, inv)
    ensures RunCode(w, l, f, SetupTmp(o, top, size, program, inverse, hasHash), m) ==
            Next(if NeedsRegister(o, hasHash, inverse) then m.(tmp := TmpAfter(o, m, top, size, self, inv, hasHash))
                 else m)
  {
    if NeedsRegister(o, hasHash, inverse) {
      hide RunCode, ContextPushes;
      var from := if hasHash then Some(top - 1) else None;
      var m1 := m.(tmp := Tmp(self, None, None, if from.Some? then Slot(m, from.value) else Record(map[]), []));
      var contexts := if o.stringParams then ContextsAt(m1, ParamTop(top, hasHash), size) else [];
      var m2 := m1.(tmp := m1.tmp.(contexts := contexts));
      RegisterRuns(w, l, f, program, from, self, m);
      PassContexts(w, o, l, f, ParamTop(top, hasHash), size, m1);
      PassPrograms(w, l, f, inverse, inv, m2);
      ThreeRun(w, l, f, [SetTmp(program), TmpHash(from)],
               if o.stringParams then [TmpContexts] + ContextPushes(ParamTop(top, hasHash), size) else [],
               if inverse.Some? then [TmpInverse(inverse.value)] else [], m, m1, m2);
      assert ContextsAt(m1, ParamTop(top, hasHash), size) == ContextsAt(m, ParamTop(top, hasHash), size);
    } else {
      RunNothing(w, l, f, m);
    }
  }

  lemma RunNothing(w: World, l: Linked, f: Frame, m: Machine)
    ensures RunCode(w, l, f, [], m) == Next(m)
  {
  }

  // ----- the call

  /** A call has left its result on top of stack level `n`. */
  ghost predicate Answers(x: Exec, m: Machine, n: int, r: Res<Value>) {
    match r
    case Ok(v) => x.Next? && x.m.buffer == m.buffer && Slot(x.m, n + 1) == v
    case Throw(e) => x == Threw(e)
  }

  /** The machine when the options object is ready. */
  ghost predicate Ready(o: Options, m: Machine, n: int, hasHash: bool, useTmp: bool, x: Parts) {
    && PartsOnStack(o, m, n, hasHash, x)
    && HashOf(m, useTmp) == x.hash
    && ContextsOf(m, useTmp) == x.args.contexts
  }

  function TopOf(o: Options, n: int, size: nat, hasHash: bool): int {
    n + Height(o, size) + (if hasHash then 2 else 1)
  }

  lemma ParamsRead(o: Options, m: Machine, n: int, hasHash: bool, x: Parts)
    requires PartsOnStack(o, m, n, hasHash, x)
    ensures var top := TopOf(o, n, |x.args.values|, hasHash);
            && Params(m, ParamSlots(o, ParamTop(top, hasHash), |x.args.values|)) == x.args.values
            && (o.stringParams ==> ContextsAt(m, ParamTop(top, hasHash), |x.args.values|) == x.args.contexts)
            && Slot(m, top) == x.head
            && (hasHash ==> Slot(m, top - 1) == x.hash)
  {
    var k := |x.args.values|;
    var top := TopOf(o, n, k, hasHash);
    assert ParamTop(top, hasHash) == n + Height(o, k);
    forall i | 0 <= i < k
      ensures Slot(m, n + Height(o, k) - Height(o, i)) == x.args.values[i]
      ensures o.stringParams ==> Slot(m, n + Height(o, k) - 2 * i - 1) == x.args.contexts[i]
    {
      assert Height(o, k) - Height(o, i) == Height(o, k - i);
    }
  }

  lemma TmpReady(o: Options, m: Machine, n: int, hasHash: bool, inverse: Option<ProgramExpr>, self: Option<Ref>,
                 inv: Option<Ref>, x: Parts)
    requires PartsOnStack(o, m, n, hasHash, x)
    ensures var top := TopOf(o, n, |x.args.values|, hasHash);
            var useTmp := NeedsRegister(o, hasHash, inverse);
            Ready(o, if useTmp then m.(tmp := TmpAfter(o, m, top, |x.args.values|, self, inv, hasHash)) else m, n,
                  hasHash, useTmp, x)
  {
    ParamsRead(o, m, n, hasHash, x);
  }

  /** A mustache outside a block: the options object carries no programs. */
  lemma InvokePlain(w: World, o: Options, l: Linked, f: Frame, m: Machine, n: int, hasHash: bool, useTmp: bool,
                    x: Parts, callee: Value, args: seq<Value>)
    requires Ready(o, m, n, hasHash, useTmp, x) && !HasPrograms(m, useTmp)
    ensures Invoke(w, l, f, m, callee, args, useTmp) ==
            CallValue(w, callee, f.ctx, args, x.hash, x.args.contexts, false, NoRunner())
  {
    CallAgrees(w, callee, f.ctx, args, x.hash, x.args.contexts, false, NoPrograms(), NoRunner());
  }

  /** In a block the options object carries two programs that answer as `runner` does. */
  lemma InvokeBlock(w: World, o: Options, l: Linked, f: Frame, m: Machine, n: int, hasHash: bool, x: Parts,
                    callee: Value, args: seq<Value>, runner: (bool, Value) -> Res<Value>)
    requires Ready(o, m, n, hasHash, true, x) && HasPrograms(m, true)
    requires forall b, c :: OptionsRunner(w, l, f.index, m.tmp.fn.value, m.tmp.inverse.value)(b, c) == runner(b, c)
    ensures Invoke(w, l, f, m, callee, args, true) ==
            CallValue(w, callee, f.ctx, args, x.hash, x.args.contexts, true, runner)
  {
    CallAgrees(w, callee, f.ctx, args, x.hash, x.args.contexts, true,
               OptionsRunner(w, l, f.index, m.tmp.fn.value, m.tmp.inverse.value), runner);
  }

  function CallInstr(o: Options, known: bool, n: int, size: nat, hasHash: bool, useTmp: bool,
                     original: Option<string>): Instr {
    var id := TopOf(o, n, size, hasHash);
    var params := ParamSlots(o, ParamTop(id, hasHash), size);
    if known then CallKnown(n + 1, id, params, useTmp)
    else if original.Some? then CallMustache(n + 1, id, params, useTmp, original.value)
    else CallBlock(n + 1, id, params)
  }

  lemma PlainInstrRuns(w: World, o: Options, l: Linked, f: Frame, m: Machine, n: int, hasHash: bool, useTmp: bool,
                       x: Parts, known: bool, original: string)
    requires Ready(o, m, n, hasHash, useTmp, x) && !HasPrograms(m, useTmp)
    ensures Answers(RunInstr(w, l, f, CallInstr(o, known, n, |x.args.values|, hasHash, useTmp, Some(original)), m), m,
                    n, ApplyHead(w, original, known, x, f.ctx))
  {
    ParamsRead(o, m, n, hasHash, x);
    InvokePlain(w, o, l, f, m, n, hasHash, useTmp, x, x.head, x.args.values);
    InvokePlain(w, o, l, f, m, n, hasHash, useTmp, x, w.helper("helperMissing"), [Text(original)] + x.args.values);
    hide Invoke, CallValue, ParamSlots, Ready;
  }

  lemma BlockInstrRuns(w: World, o: Options, l: Linked, f: Frame, m: Machine, n: int, hasHash: bool, x: Parts,
                       known: bool, runner: (bool, Value) -> Res<Value>)
    requires Ready(o, m, n, hasHash, true, x) && HasPrograms(m, true)
    requires forall b, c :: OptionsRunner(w, l, f.index, m.tmp.fn.value, m.tmp.inverse.value)(b, c) == runner(b, c)
    ensures Answers(RunInstr(w, l, f, CallInstr(o, known, n, |x.args.values|, hasHash, true, None), m), m, n,
                    ApplySection(w, known, x, f.ctx, runner))
  {
    hide Invoke, CallValue, ParamSlots, Ready, PartsOnStack, OptionsRunner, TopOf, ParamTop;
    assert PartsOnStack(o, m, n, hasHash, x) by { ReadyParts(o, m, n, hasHash, true, x); }
    ParamsRead(o, m, n, hasHash, x);
    InvokeBlock(w, o, l, f, m, n, hasHash, x, x.head, x.args.values, runner);
    InvokeBlock(w, o, l, f, m, n, hasHash, x, w.helper("blockHelperMissing"), [x.head] + x.args.values, runner);
  }

  lemma ReadyParts(o: Options, m: Machine, n: int, hasHash: bool, useTmp: bool, x: Parts)
    requires Ready(o, m, n, hasHash, useTmp, x)
    ensures PartsOnStack(o, m, n, hasHash, x)
  {
  }

  lemma {:induction false} GenCallRuns(w: World, o: Options, l: Linked, f: Frame, st: GenState, m: Machine, n: int,
                                       hasHash: bool, x: Parts,
                    program: Option<ProgramExpr>, inverse: Option<ProgramExpr>, self: Option<Ref>, inv: Option<Ref>,
                    original: Option<string>) returns (m': Machine)
    requires PartsOnStack(o, m, n, hasHash, x) && st.slot == TopOf(o, n, |x.args.values|, hasHash)
    requires Denotes(l, f, program, self) && Denotes(l, f, inverse, inv)
    ensures var useTmp := NeedsRegister(o, hasHash, inverse);
            var g := GenCall(o, st, |x.args.values|, program, inverse, hasHash, original);
            && g.st.slot == n + 1 && g.st.inverse == st.inverse && !g.st.known
            && m'.buffer == m.buffer
            && (useTmp ==> m'.tmp.fn == (if inv.Some? then self else None) && m'.tmp.inverse == inv)
            && Ready(o, m', n, hasHash, useTmp, x)
            && RunCode(w, l, f, g.code, m) ==
               RunInstr(w, l, f, CallInstr(o, st.known, n, |x.args.values|, hasHash, useTmp, original), m')
  {
    hide RunCode, SetupTmp, PartsOnStack, Ready, ParamSlots, Denotes, RunInstr;
    var size := |x.args.values|;
    var useTmp := NeedsRegister(o, hasHash, inverse);
    m' := if useTmp then m.(tmp := TmpAfter(o, m, st.slot, size, self, inv, hasHash)) else m;
    var setup := SetupTmp(o, st.slot, size, program, inverse, hasHash);
    var call := CallInstr(o, st.known, n, size, hasHash, useTmp, original);
    SetupTmpRuns(w, o, l, f, st.slot, size, program, inverse, hasHash, self, inv, m);
    TmpReady(o, m, n, hasHash, inverse, self, inv, x);
    RunConcat(w, l, f, setup, [call], m);
    RunOne(w, l, f, call, m');
    assert GenCall(o, st, size, program, inverse, hasHash, original).code == setup + [call];
  }

  lemma MustacheCallRuns(w: World, o: Options, l: Linked, f: Frame, kids: seq<Kid>, st: GenState, m: Machine, n: int,
                         hasHash: bool, x: Parts, original: string)
    requires PartsOnStack(o, m, n, hasHash, x) && st.slot == TopOf(o, n, |x.args.values|, hasHash)
    ensures var op := InvokeMustache(|x.args.values|, original, hasHash);
            && GenAfter(o, kids, [op], st).slot == n + 1 && GenAfter(o, kids, [op], st).inverse == st.inverse
            && !GenAfter(o, kids, [op], st).known
            && Answers(RunOps(w, o, l, f, kids, [op], st, m), m, n, ApplyHead(w, original, st.known, x, f.ctx))
  {
    GenOne(o, kids, InvokeMustache(|x.args.values|, original, hasHash), st);
    hide RunCode, RunInstr, GenPlain, GenCall, ApplyHead, Ready, PartsOnStack;
    var m' := GenCallRuns(w, o, l, f, st, m, n, hasHash, x, None, None, None, None, Some(original));
    PlainInstrRuns(w, o, l, f, m', n, hasHash, NeedsRegister(o, hasHash, None), x, st.known, original);
  }

  lemma ProgramCallRuns(w: World, o: Options, l: Linked, f: Frame, kids: seq<Kid>, st: GenState, m: Machine, n: int,
                        hasHash: bool,
                        x: Parts, guid: Option<nat>, self: Ref, inv: Ref, runner: (bool, Value) -> Res<Value>)
    requires PartsOnStack(o, m, n, hasHash, x) && st.slot == TopOf(o, n, |x.args.values|, hasHash)
    requires EvalExpr(l, f, ExprOf(kids, guid)) == Ok(self) && EvalExpr(l, f, ExprOf(kids, st.inverse)) == Ok(inv)
    requires forall b, c :: OptionsRunner(w, l, f.index, self, inv)(b, c) == runner(b, c)
    ensures var op := InvokeProgram(guid, |x.args.values|, hasHash);
            && GenAfter(o, kids, [op], st).slot == n + 1 && GenAfter(o, kids, [op], st).inverse == st.inverse
            && !GenAfter(o, kids, [op], st).known
            && Answers(RunOps(w, o, l, f, kids, [op], st, m), m, n, ApplySection(w, st.known, x, f.ctx, runner))
  {
    GenOne(o, kids, InvokeProgram(guid, |x.args.values|, hasHash), st);
    hide RunCode, RunInstr, GenPlain, GenCall, ApplySection, Ready, PartsOnStack, EvalExpr, ExprOf, OptionsRunner;
    var m' := GenCallRuns(w, o, l, f, st, m, n, hasHash, x, Some(ExprOf(kids, guid)), Some(ExprOf(kids, st.inverse)),
                          Some(self), Some(inv), None);
    BlockInstrRuns(w, o, l, f, m', n, hasHash, x, st.known, runner);
  }

  // ----- statements

  /** A statement has contributed `r`: it has returned it or added its text to the buffer. */
  ghost predicate Emits(w: World, f: Frame, x: Exec, m: Machine, r: Res<Value>) {
    match r
    case Ok(v) => if f.simple then x == Returned(v) else x.Next? && x.m.buffer == m.buffer + ToText(w, v)
    case Throw(e) => x == Threw(e)
  }

  lemma AppendRuns(w: World, o: Options, l: Linked, f: Frame, kids: seq<Kid>, st: GenState, m: Machine)
    ensures GenAfter(o, kids, [Append], st) == PopStack(st, 1)
    ensures Emits(w, f, RunOps(w, o, l, f, kids, [Append], st, m), m, Ok(Shown(Slot(m, st.slot))))
  {
    Single(w, o, l, f, kids, Append, st, m);
    assert m.buffer + "" == m.buffer;
  }

  lemma AppendEscapedRuns(w: World, o: Options, l: Linked, f: Frame, kids: seq<Kid>, st: GenState, m: Machine)
    ensures GenAfter(o, kids, [AppendEscaped], st) == PopStack(st, 1)
    ensures Emits(w, f, RunOps(w, o, l, f, kids, [AppendEscaped], st, m), m, w.escape(Slot(m, st.slot)))
  {
    Single(w, o, l, f, kids, AppendEscaped, st, m);
  }

  /** The compile-time state between statements: an empty stack. */
  ghost predicate Between(st: GenState, known: bool, inverse: Option<nat>) {
    st.slot == 0 && st.known == known && st.inverse == inverse
  }

  /** A call replaces head, hash and params by one result. */
  lemma CallMoves(o: Options, kids: seq<Kid>, st: GenState, op: Op)
    requires op.InvokeMustache? || op.InvokeProgram?
    ensures var after := GenAfter(o, kids, [op], st);
            after.slot == st.slot - (if op.hasHash then 2 else 1) - Height(o, op.size) + 1 && !after.known &&
                after.inverse == st.inverse
  {
    GenOne(o, kids, op, st);
  }

  lemma SilentDeclare(w: World, o: Options, l: Linked, f: Frame, kids: seq<Kid>, g: Option<nat>, st: GenState,
                      m: Machine)
    ensures GenAfter(o, kids, [DeclareInverse(g)], st) == st.(inverse := g)
    ensures RunOps(w, o, l, f, kids, [DeclareInverse(g)], st, m) == Next(m)
  {
    Silent(w, o, l, f, kids, DeclareInverse(g), st, m);
  }

  function Bound(r: Res<Value>, escaped: bool, w: World): Res<Value> {
    match r
    case Ok(v) => if escaped then w.escape(v) else Ok(Shown(v))
    case Throw(e) => Throw(e)
  }

  function ShowOp(escaped: bool): Op {
    if escaped then AppendEscaped else Append
  }

  /** The result of a call goes to the buffer. */
  lemma ShowRuns(w: World, o: Options, l: Linked, f: Frame, kids: seq<Kid>, escaped: bool, st: GenState, m: Machine,
                 x: Exec, r: Res<Value>)
    requires Answers(x, m, st.slot - 1, r)
    ensures GenAfter(o, kids, [ShowOp(escaped)], st) == PopStack(st, 1)
    ensures Emits(w, f, if x.Next? then RunOps(w, o, l, f, kids, [ShowOp(escaped)], st, x.m) else x, m,
                  Bound(r, escaped, w))
  {
    hide GenAfter, RunOps, Shown;
    var m1 := if x.Next? then x.m else m;
    if escaped {
      AppendEscapedRuns(w, o, l, f, kids, st, m1);
    } else {
      AppendRuns(w, o, l, f, kids, st, m1);
    }
  }

  lemma OutputTail(w: World, o: Options, l: Linked, f: Frame, kids: seq<Kid>, st: GenState, m: Machine, hasHash: bool,
                   x: Parts, original: string, escaped: bool)
    requires PartsOnStack(o, m, 0, hasHash, x) && st.slot == TopOf(o, 0, |x.args.values|, hasHash)
    ensures Emits(w, f, RunOps(w, o, l, f, kids, [InvokeMustache(|x.args.values|, original, hasHash), ShowOp(escaped)],
                               st, m), m,
                  Bound(ApplyHead(w, original, st.known, x, f.ctx), escaped, w))
  {
    hide GenAfter, RunOps, PartsOnStack, ApplyHead, Bound, Height;
    var invoke, show := InvokeMustache(|x.args.values|, original, hasHash), ShowOp(escaped);
    Sequence(w, o, l, f, kids, [invoke], [show], st, m);
    assert [invoke] + [show] == [invoke, show];
    MustacheCallRuns(w, o, l, f, kids, st, m, 0, hasHash, x, original);
    var st1 := GenAfter(o, kids, [invoke], st);
    ShowRuns(w, o, l, f, kids, escaped, st1, m, RunOps(w, o, l, f, kids, [invoke], st, m),
             ApplyHead(w, original, st.known, x, f.ctx));
  }

  lemma OutputMoves(w: World, o: Options, l: Linked, f: Frame, kids: seq<Kid>, st: GenState, size: nat,
                    original: string, hasHash: bool, escaped: bool, m: Machine)
    requires st.slot == TopOf(o, 0, size, hasHash)
    ensures Between(GenAfter(o, kids, [InvokeMustache(size, original, hasHash), ShowOp(escaped)], st), false,
                    st.inverse)
  {
    hide GenAfter, RunOps;
    var invoke, show := InvokeMustache(size, original, hasHash), ShowOp(escaped);
    Sequence(w, o, l, f, kids, [invoke], [show], st, m);
    assert [invoke] + [show] == [invoke, show];
    CallMoves(o, kids, st, invoke);
    var st1 := GenAfter(o, kids, [invoke], st);
    ShowRuns(w, o, l, f, kids, escaped, st1, m, Threw(""), Throw(""));
  }

  lemma PartsCases(o: Options, x: Exec, m: Machine, n: int, count: nat, hash: bool, r: Res<Parts>)
    requires YieldsParts(o, x, m, n, count, hash, r)
    ensures r.Ok? ==>
              && x.Next? && x.m.buffer == m.buffer && |r.value.args.values| == count
              && PartsOnStack(o, x.m, n, hash, r.value)
    ensures r.Throw? ==> x == Threw(r.error)
  {
  }

  lemma EmitsAfter(w: World, f: Frame, x: Exec, m: Machine, m': Machine, r: Res<Value>)
    requires Emits(w, f, x, m', r) && m'.buffer == m.buffer
    ensures Emits(w, f, x, m, r)
  {
  }

  lemma EmitsThrow(w: World, f: Frame, m: Machine, e: string)
    ensures Emits(w, f, Threw(e), m, Throw(e))
  {
  }

  lemma OutputRuns(w: World, o: Options, l: Linked, f: Frame, kids: seq<Kid>, ctxs: seq<Value>, mu: Mustache,
                   st: GenState, m: Machine)
    requires EncodableMustache(o, mu) && SeesContexts(l, f, ctxs, MustacheDepths(o, mu)) && st.slot == 0
    ensures Between(GenAfter(o, kids, OutputOps(o, mu), st), false, st.inverse)
    ensures Emits(w, f, RunOps(w, o, l, f, kids, OutputOps(o, mu), st, m), m,
                  EvalOutput(w, o, KnownAtHead(o, mu, st.known), mu, ctxs))
  {
    assert f.ctx == ctxs[0];
    hide GenAfter, RunOps, SetupOps, EvalParts, ApplyHead, KnownAtHead, MustacheDepths, PartsOnStack, Height, Shown,
         SeesContexts,
         EncodableMustache, YieldsParts, Emits;
    SetupRuns(w, o, l, f, kids, ctxs, mu, st, m);
    var size, original, hasHash := |mu.params|, mu.id.original, mu.hash.Some?;
    var tail := [InvokeMustache(size, original, hasHash), ShowOp(mu.escaped)];
    assert OutputOps(o, mu) == SetupOps(o, mu) + tail;
    Sequence(w, o, l, f, kids, SetupOps(o, mu), tail, st, m);
    var st1, x1 := GenAfter(o, kids, SetupOps(o, mu), st), RunOps(w, o, l, f, kids, SetupOps(o, mu), st, m);
    OutputMoves(w, o, l, f, kids, st1, size, original, hasHash, mu.escaped, m);
    var parts := EvalParts(w, o, mu, ctxs);
    PartsCases(o, x1, m, st.slot, size, hasHash, parts);
    if parts.Ok? {
      OutputTail(w, o, l, f, kids, st1, x1.m, hasHash, parts.value, original, mu.escaped);
      EmitsAfter(w, f, RunOps(w, o, l, f, kids, tail, st1, x1.m), m, x1.m,
                 Bound(ApplyHead(w, original, st1.known, parts.value, f.ctx), mu.escaped, w));
    } else {
      EmitsThrow(w, f, m, parts.error);
    }
  }

  // ----- sections

  /** What the programs that a call hands over evaluate to. */
  ghost predicate Programs(w: World, o: Options, l: Linked, f: Frame, kids: seq<Kid>, guid: Option<nat>,
                           inverse: Option<nat>, self: Ref, inv: Ref, runner: (bool, Value) -> Res<Value>)
  {
    && EvalExpr(l, f, ExprOf(kids, guid)) == Ok(self)
    && EvalExpr(l, f, ExprOf(kids, inverse)) == Ok(inv)
    && forall b, c :: OptionsRunner(w, l, f.index, self, inv)(b, c) == runner(b, c)
  }

  /** The call of a section, the declarations around it being `quiet`. */
  function SectionTail(guid: Option<nat>, size: nat, hasHash: bool, reset: bool): seq<Op> {
    [InvokeProgram(guid, size, hasHash)] + (if reset then [DeclareInverse(None)] else []) + [Append]
  }

  lemma ResetRuns(w: World, o: Options, l: Linked, f: Frame, kids: seq<Kid>, reset: bool, st: GenState, m: Machine)
    ensures var ops := if reset then [DeclareInverse(None)] else [];
            && GenAfter(o, kids, ops, st) == (if reset then st.(inverse := None) else st)
            && RunOps(w, o, l, f, kids, ops, st, m) == Next(m)
  {
    SilentDeclare(w, o, l, f, kids, None, st, m);
    Nothing(w, o, l, f, kids, st, m);
  }

  lemma SectionCallRuns(w: World, o: Options, l: Linked, f: Frame, kids: seq<Kid>, st: GenState, m: Machine,
                        hasHash: bool,
                        x: Parts, guid: Option<nat>, self: Ref, inv: Ref, runner: (bool, Value) -> Res<Value>)
    requires PartsOnStack(o, m, 0, hasHash, x) && st.slot == TopOf(o, 0, |x.args.values|, hasHash)
    requires Programs(w, o, l, f, kids, guid, st.inverse, self, inv, runner)
    ensures var op := InvokeProgram(guid, |x.args.values|, hasHash);
            && GenAfter(o, kids, [op], st).slot == 1 && GenAfter(o, kids, [op], st).inverse == st.inverse
            && !GenAfter(o, kids, [op], st).known
            && Answers(RunOps(w, o, l, f, kids, [op], st, m), m, 0, ApplySection(w, st.known, x, f.ctx, runner))
  {
    hide GenAfter, RunOps, PartsOnStack, ApplySection, Height, Answers, EvalExpr, ExprOf, OptionsRunner, TopOf;
    ProgramCallRuns(w, o, l, f, kids, st, m, 0, hasHash, x, guid, self, inv, runner);
  }

  lemma SectionTailRuns(w: World, o: Options, l: Linked, f: Frame, kids: seq<Kid>, st: GenState, m: Machine,
                        hasHash: bool, x: Parts, guid: Option<nat>, reset: bool, self: Ref, inv: Ref,
                            runner: (bool, Value) -> Res<Value>)
    requires PartsOnStack(o, m, 0, hasHash, x) && st.slot == TopOf(o, 0, |x.args.values|, hasHash)
    requires Programs(w, o, l, f, kids, guid, st.inverse, self, inv, runner)
    ensures Emits(w, f, RunOps(w, o, l, f, kids, SectionTail(guid, |x.args.values|, hasHash, reset), st, m), m,
                  Bound(ApplySection(w, st.known, x, f.ctx, runner), false, w))
  {
    hide GenAfter, RunOps, PartsOnStack, ApplySection, Bound, Height, Programs, TopOf;
    SectionCallRuns(w, o, l, f, kids, st, m, hasHash, x, guid, self, inv, runner);
    var invoke := InvokeProgram(guid, |x.args.values|, hasHash);
    var quiet := if reset then [DeclareInverse(None)] else [];
    Sequence3(w, o, l, f, kids, [invoke], quiet, [Append], st, m);
    var st1, x1 := GenAfter(o, kids, [invoke], st), RunOps(w, o, l, f, kids, [invoke], st, m);
    ResetRuns(w, o, l, f, kids, reset, st1, if x1.Next? then x1.m else m);
    var st2 := GenAfter(o, kids, quiet, st1);
    ShowRuns(w, o, l, f, kids, false, st2, m, x1, ApplySection(w, st.known, x, f.ctx, runner));
  }

  lemma SectionTailMoves(w: World, o: Options, l: Linked, f: Frame, kids: seq<Kid>, st: GenState, m: Machine,
                         guid: Option<nat>, size: nat, hasHash: bool, reset: bool)
    requires st.slot == TopOf(o, 0, size, hasHash)
    ensures Between(GenAfter(o, kids, SectionTail(guid, size, hasHash, reset), st), false, if reset then None
                    else st.inverse)
  {
    hide GenAfter, RunOps;
    var invoke := InvokeProgram(guid, size, hasHash);
    var quiet := if reset then [DeclareInverse(None)] else [];
    Sequence3(w, o, l, f, kids, [invoke], quiet, [Append], st, m);
    CallMoves(o, kids, st, invoke);
    var st1 := GenAfter(o, kids, [invoke], st);
    ResetRuns(w, o, l, f, kids, reset, st1, m);
    ShowRuns(w, o, l, f, kids, false, GenAfter(o, kids, quiet, st1), m, Threw(""), Throw(""));
  }

  /** The declaration in front of the call, if there is one. */
  function DeclareOps(declared: Option<nat>): seq<Op> {
    if declared.Some? then [DeclareInverse(declared)] else []
  }

  function SectionOps(o: Options, mu: Mustache, declared: Option<nat>, guid: Option<nat>, reset: bool): seq<Op> {
    SetupOps(o, mu) + DeclareOps(declared) + SectionTail(guid, |mu.params|, mu.hash.Some?, reset)
  }

  lemma DeclareRuns(w: World, o: Options, l: Linked, f: Frame, kids: seq<Kid>, declared: Option<nat>, st: GenState,
                    m: Machine)
    ensures GenAfter(o, kids, DeclareOps(declared), st) == (if declared.Some? then st.(inverse := declared) else st)
    ensures RunOps(w, o, l, f, kids, DeclareOps(declared), st, m) == Next(m)
  {
    hide GenAfter, RunOps;
    if declared.Some? {
      SilentDeclare(w, o, l, f, kids, declared, st, m);
    } else {
      Nothing(w, o, l, f, kids, st, m);
    }
  }

  lemma SectionMoves(w: World, o: Options, l: Linked, f: Frame, kids: seq<Kid>, ctxs: seq<Value>, mu: Mustache,
                     st: GenState, m: Machine,
                     declared: Option<nat>, guid: Option<nat>, reset: bool)
    requires EncodableMustache(o, mu) && SeesContexts(l, f, ctxs, MustacheDepths(o, mu)) && st.slot == 0
    ensures Between(GenAfter(o, kids, SectionOps(o, mu, declared, guid, reset), st), false,
                    if reset then None else if declared.Some? then declared else st.inverse)
  {
    hide GenAfter, RunOps, SetupOps, DeclareOps, EvalParts, KnownAtHead, MustacheDepths, YieldsParts, SeesContexts,
         SectionTail, EncodableMustache;
    var tail := SectionTail(guid, |mu.params|, mu.hash.Some?, reset);
    SetupRuns(w, o, l, f, kids, ctxs, mu, st, m);
    Sequence3(w, o, l, f, kids, SetupOps(o, mu), DeclareOps(declared), tail, st, m);
    var st1 := GenAfter(o, kids, SetupOps(o, mu), st);
    DeclareRuns(w, o, l, f, kids, declared, st1, m);
    SectionTailMoves(w, o, l, f, kids, GenAfter(o, kids, DeclareOps(declared), st1), m, guid, |mu.params|,
                     mu.hash.Some?, reset);
  }

  lemma CurrentContext(l: Linked, f: Frame, ctxs: seq<Value>, depths: set<nat>)
    requires SeesContexts(l, f, ctxs, depths)
    ensures |ctxs| > 0 && f.ctx == ctxs[0]
  {
  }

  lemma SectionEmits(w: World, o: Options, l: Linked, f: Frame, kids: seq<Kid>, ctxs: seq<Value>, mu: Mustache,
                     st: GenState, m: Machine,
                     declared: Option<nat>, guid: Option<nat>, reset: bool, self: Ref, inv: Ref,
                         runner: (bool, Value) -> Res<Value>)
    requires EncodableMustache(o, mu) && SeesContexts(l, f, ctxs, MustacheDepths(o, mu)) && st.slot == 0
    requires Programs(w, o, l, f, kids, guid, if declared.Some? then declared else st.inverse, self, inv, runner)
    ensures Emits(w, f, RunOps(w, o, l, f, kids, SectionOps(o, mu, declared, guid, reset), st, m), m,
                  EvalSection(w, o, KnownAtHead(o, mu, st.known), mu, ctxs, runner))
  {
    hide GenAfter, RunOps, SetupOps, DeclareOps, EvalParts, ApplySection, KnownAtHead, MustacheDepths, PartsOnStack,
         Height, Shown, Programs,
         SectionTail, SeesContexts, EncodableMustache, YieldsParts, Emits;
    CurrentContext(l, f, ctxs, MustacheDepths(o, mu));
    var tail := SectionTail(guid, |mu.params|, mu.hash.Some?, reset);
    SetupRuns(w, o, l, f, kids, ctxs, mu, st, m);
    Sequence3(w, o, l, f, kids, SetupOps(o, mu), DeclareOps(declared), tail, st, m);
    var st1, x1 := GenAfter(o, kids, SetupOps(o, mu), st), RunOps(w, o, l, f, kids, SetupOps(o, mu), st, m);
    var parts := EvalParts(w, o, mu, ctxs);
    PartsCases(o, x1, m, st.slot, |mu.params|, mu.hash.Some?, parts);
    if parts.Ok? {
      DeclareRuns(w, o, l, f, kids, declared, st1, x1.m);
      var st2 := GenAfter(o, kids, DeclareOps(declared), st1);
      SectionTailRuns(w, o, l, f, kids, st2, x1.m, mu.hash.Some?, parts.value, guid, reset, self, inv, runner);
      EmitsAfter(w, f, RunOps(w, o, l, f, kids, tail, st2, x1.m), m, x1.m,
                 Bound(ApplySection(w, st2.known, parts.value, f.ctx, runner), false, w));
    } else {
      EmitsThrow(w, f, m, parts.error);
    }
  }

  lemma SectionRuns(w: World, o: Options, l: Linked, f: Frame, kids: seq<Kid>, ctxs: seq<Value>, mu: Mustache,
                    st: GenState, m: Machine,
                    declared: Option<nat>, guid: Option<nat>, reset: bool, self: Ref, inv: Ref,
                        runner: (bool, Value) -> Res<Value>)
    requires EncodableMustache(o, mu) && SeesContexts(l, f, ctxs, MustacheDepths(o, mu)) && st.slot == 0
    requires Programs(w, o, l, f, kids, guid, if declared.Some? then declared else st.inverse, self, inv, runner)
    ensures var ops := SectionOps(o, mu, declared, guid, reset);
            && Between(GenAfter(o, kids, ops, st), false, if reset then None else if declared.Some? then declared
                       else st.inverse)
            && Emits(w, f, RunOps(w, o, l, f, kids, ops, st, m), m,
                     EvalSection(w, o, KnownAtHead(o, mu, st.known), mu, ctxs, runner))
  {
    hide GenAfter, RunOps, SectionOps, EvalSection, KnownAtHead, MustacheDepths, Programs, SeesContexts,
         EncodableMustache, Between, Emits;
    SectionMoves(w, o, l, f, kids, ctxs, mu, st, m, declared, guid, reset);
    SectionEmits(w, o, l, f, kids, ctxs, mu, st, m, declared, guid, reset, self, inv, runner);
  }

  // ----- partials

  lemma PartialHeadRuns(w: World, o: Options, l: Linked, f: Frame, kids: seq<Kid>, ctxs: seq<Value>,
                        context: Option<IdNode>, st: GenState, m: Machine)
    requires SeesContexts(l, f, ctxs, if context.Some? then IdDepths(context.value) else {})
    ensures var ops := if context.Some? then IdOps(context.value) else [Push(Str("depth0"))];
            && Moved(st, GenAfter(o, kids, ops, st), 1, if context.Some? then KnownAfterId(o, context.value, st.known)
                     else st.known)
            && Yields(RunOps(w, o, l, f, kids, ops, st, m), m, st.slot, if context.None? then Ok(ctxs[0])
                      else EvalId(w, o, context.value, ctxs))
  {
    if context.Some? {
      IdRuns(w, o, l, f, kids, ctxs, context.value, st, m);
    } else {
      Single(w, o, l, f, kids, Push(Str("depth0")), st, m);
      assert "depth0"[0] != "{}"[0];
    }
  }

  lemma PartialRuns(w: World, o: Options, l: Linked, f: Frame, kids: seq<Kid>, ctxs: seq<Value>, name: string,
                    context: Option<IdNode>,
                    st: GenState, m: Machine)
    requires SeesContexts(l, f, ctxs, if context.Some? then IdDepths(context.value) else {}) && st.slot == 0
    ensures Between(GenAfter(o, kids, PartialOps(name, context), st),
                    if context.Some? then KnownAfterId(o, context.value, st.known) else st.known, st.inverse)
    ensures Emits(w, f, RunOps(w, o, l, f, kids, PartialOps(name, context), st, m), m,
                  EvalPartial(w, o, name, context, ctxs))
  {
    hide GenAfter, RunOps, IdOps, EvalId, KnownAfterId, IdDepths, Shown;
    var head := if context.Some? then IdOps(context.value) else [Push(Str("depth0"))];
    PartialHeadRuns(w, o, l, f, kids, ctxs, context, st, m);
    Sequence3(w, o, l, f, kids, head, [InvokePartial(name)], [Append], st, m);
    assert head + [InvokePartial(name)] + [Append] == PartialOps(name, context);
    var st1, x1 := GenAfter(o, kids, head, st), RunOps(w, o, l, f, kids, head, st, m);
    var m1 := if x1.Next? then x1.m else m;
    Single(w, o, l, f, kids, InvokePartial(name), st1, m1);
    var x2 := RunOps(w, o, l, f, kids, [InvokePartial(name)], st1, m1);
    AppendRuns(w, o, l, f, kids, GenAfter(o, kids, [InvokePartial(name)], st1), if x2.Next? then x2.m else m);
  }
}
