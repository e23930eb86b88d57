/** The generated code never pops an empty stack and only uses slots that it declares. */
module StackDiscipline {
  import opened JsRuntime
  import Collections
  import opened TemplateAst
  import opened Opcodes
  import opened FirstPass
  import opened CodeGen
  import opened SlotMachine

  function Pops(o: Options, op: Op): nat {
    match op
    case Lookup(_) => 1
    case Append => 1
    case AppendEscaped => 1
    case InvokeMustache(size, _, hasHash) => Height(o, size) + (if hasHash then 2 else 1)
    case InvokeProgram(_, size, hasHash) => Height(o, size) + (if hasHash then 2 else 1)
    case InvokePartial(_) => 1
    case AssignToHash(_) => 2
    case _ => 0
  }

  function Pushes(op: Op): nat {
    match op
    case LookupWithHelpers(_, _) => 1
    case Lookup(_) => 1
    case InvokeMustache(_, _, _) => 1
    case InvokeProgram(_, _, _) => 1
    case PushString(_) => 1
    case InvokePartial(_) => 1
    case Push(_) => 1
    case AssignToHash(_) => 1
    case PushStringParam(_) => 2
    case _ => 0
  }

  /** Starting with `h` slots in use, no instruction pops more than there are. */
  predicate Fits(o: Options, ops: seq<Op>, h: nat) {
    ops == [] || (Pops(o, ops[0]) <= h && Fits(o, ops[1..], h - Pops(o, ops[0]) + Pushes(ops[0])))
  }

  function HeightAfter(o: Options, ops: seq<Op>, h: nat): nat
    requires Fits(o, ops, h)
  {
    if ops == [] then h else HeightAfter(o, ops[1..], h - Pops(o, ops[0]) + Pushes(ops[0]))
  }

  /** A group of instructions that adds `n` slots to any stack. */
  ghost predicate Adds(o: Options, ops: seq<Op>, n: nat) {
    forall h: nat :: Fits(o, ops, h) && HeightAfter(o, ops, h) == h + n
  }

  lemma {:induction false} FitsConcat(o: Options, a: seq<Op>, b: seq<Op>, h: nat)
    requires Fits(o, a, h) && Fits(o, b, HeightAfter(o, a, h))
    ensures Fits(o, a + b, h) && HeightAfter(o, a + b, h) == HeightAfter(o, b, HeightAfter(o, a, h))
    decreases |a|
  {
    hide Pops, Pushes;
    if a == [] {
      assert a + b == b;
    } else {
      assert (a + b)[1..] == a[1..] + b;
      FitsConcat(o, a[1..], b, h - Pops(o, a[0]) + Pushes(a[0]));
    }
  }

  lemma AddsConcat(o: Options, a: seq<Op>, m: nat, b: seq<Op>, n: nat)
    requires Adds(o, a, m) && Adds(o, b, n)
    ensures Adds(o, a + b, m + n)
  {
    forall h: nat
      ensures Fits(o, a + b, h) && HeightAfter(o, a + b, h) == h + m + n
    {
      assert Fits(o, a, h) && HeightAfter(o, a, h) == h + m;
      assert Fits(o, b, h + m) && HeightAfter(o, b, h + m) == h + m + n;
      FitsConcat(o, a, b, h);
    }
  }

  /** One instruction in front of the height it needs. */
  lemma OneOp(o: Options, op: Op, h: nat)
    ensures Fits(o, [op], h) <==> Pops(o, op) <= h
    ensures Fits(o, [op], h) ==> HeightAfter(o, [op], h) == h - Pops(o, op) + Pushes(op)
  {
    assert [op][1..] == [];
    if Pops(o, op) <= h {
      assert Fits(o, [], h - Pops(o, op) + Pushes(op));
    }
  }

  /** A group that adds `n` slots, followed by an instruction that takes some of them away. */
  lemma AddsThen(o: Options, a: seq<Op>, n: nat, op: Op)
    requires Adds(o, a, n) && Pops(o, op) <= n
    ensures Adds(o, a + [op], n - Pops(o, op) + Pushes(op))
  {
    forall h: nat
      ensures Fits(o, a + [op], h) && HeightAfter(o, a + [op], h) == h + n - Pops(o, op) + Pushes(op)
    {
      assert Fits(o, a, h) && HeightAfter(o, a, h) == h + n;
      OneOp(o, op, h + n);
      FitsConcat(o, a, [op], h);
    }
  }

  lemma AddsNothing(o: Options)
    ensures Adds(o, [], 0)
  {
  }

  lemma {:induction false} LookupsAdd(o: Options, names: seq<string>, a: seq<Op>)
    requires Adds(o, a, 1)
    ensures Adds(o, a + LookupOps(names), 1)
    decreases |names|
  {
    if names == [] {
      assert a + [] == a;
    } else {
      var n := |names| - 1;
      LookupsAdd(o, names[..n], a);
      AddsThen(o, a + LookupOps(names[..n]), 1, Lookup(names[n]));
      assert a + LookupOps(names) == a + LookupOps(names[..n]) + [Lookup(names[n])];
    }
  }

  lemma IdAdds(o: Options, id: IdNode)
    ensures Adds(o, IdOps(id), 1)
  {
    var get, look := GetContext(id.depth), LookupWithHelpers(Head(id), id.isScoped);
    AddsNothing(o);
    AddsThen(o, [], 0, get);
    assert [] + [get] == [get];
    AddsThen(o, [get], 0, look);
    assert [get] + [look] == [get, look];
    LookupsAdd(o, Tail(id), [get, look]);
  }

  lemma ValueAdds(o: Options, param: Param)
    ensures Adds(o, ValueOps(param), 1)
  {
    if param.IdParam? {
      IdAdds(o, param.id);
    } else {
      var op := ValueOps(param)[0];
      AddsNothing(o);
      AddsThen(o, [], 0, op);
      assert [] + [op] == ValueOps(param);
    }
  }

  lemma ParamAdds(o: Options, param: Param)
    ensures Adds(o, ParamOps(o, param), Height(o, 1))
  {
    if o.stringParams {
      var ops := ParamOps(o, param);
      AddsNothing(o);
      AddsThen(o, [], 0, ops[0]);
      assert [] + [ops[0]] == [ops[0]];
      AddsThen(o, [ops[0]], 0, ops[1]);
      assert [ops[0]] + [ops[1]] == ops;
    } else {
      ValueAdds(o, param);
    }
  }

  lemma {:induction false} ParamsAdd(o: Options, params: seq<Param>)
    ensures Adds(o, ParamsOps(o, params), Height(o, |params|))
    decreases |params|
  {
    if params == [] {
      AddsNothing(o);
    } else {
      ParamsAdd(o, params[1..]);
      ParamAdds(o, params[0]);
      hide Adds, ParamOps;
      AddsConcat(o, ParamsOps(o, params[1..]), Height(o, |params| - 1), ParamOps(o, params[0]), Height(o, 1));
    }
  }

  lemma {:induction false} PairsAdd(o: Options, pairs: seq<Pair>, a: seq<Op>)
    requires Adds(o, a, 1)
    ensures Adds(o, a + PairsOps(pairs), 1)
    decreases |pairs|
  {
    hide Adds, ValueOps;
    if pairs == [] {
      assert a + [] == a;
    } else {
      var n := |pairs| - 1;
      var before, value, assign := PairsOps(pairs[..n]), ValueOps(pairs[n].value), AssignToHash(pairs[n].key);
      LastPair(pairs, a);
      hide PairsOps;
      PairsAdd(o, pairs[..n], a);
      ValueAdds(o, pairs[n].value);
      AddsConcat(o, a + before, 1, value, 1);
      AddsThen(o, a + before + value, 2, assign);
    }
  }

  lemma LastPair(pairs: seq<Pair>, a: seq<Op>)
    requires pairs != []
    ensures var n := |pairs| - 1;
            a + PairsOps(pairs) == a + PairsOps(pairs[..n]) + ValueOps(pairs[n].value) + [AssignToHash(pairs[n].key)]
  {
    hide ValueOps;
    var n := |pairs| - 1;
    var before, value, assign := PairsOps(pairs[..n]), ValueOps(pairs[n].value), [AssignToHash(pairs[n].key)];
    assert PairsOps(pairs) == before + (value + assign);
    hide PairsOps;
    Collections.Concat3(a, before, value, assign);
    Collections.Concat2(before, value, assign);
  }

  function SetupHeight(o: Options, mu: Mustache): nat {
    Height(o, |mu.params|) + (if mu.hash.Some? then 2 else 1)
  }

  lemma SetupAdds(o: Options, mu: Mustache)
    ensures Adds(o, SetupOps(o, mu), SetupHeight(o, mu))
  {
    var params, hash, id := ParamsOps(o, mu.params), HashOps(mu.hash), IdOps(mu.id);
    ParamsAdd(o, mu.params);
    AddsNothing(o);
    if mu.hash.Some? {
      AddsThen(o, [], 0, Push(Str("{}")));
      assert [] + [Push(Str("{}"))] == [Push(Str("{}"))];
      PairsAdd(o, mu.hash.value, [Push(Str("{}"))]);
    }
    IdAdds(o, mu.id);
    hide Adds, ParamsOps, PairsOps, IdOps;
    AddsConcat(o, params, Height(o, |mu.params|), hash, if mu.hash.Some? then 1 else 0);
    AddsConcat(o, params + hash, Height(o, |mu.params|) + (if mu.hash.Some? then 1 else 0), id, 1);
  }

  lemma BlockAddsNothing(o: Options, mu: Mustache, q: Program, guid: nat)
    ensures Adds(o, BlockOps(o, mu, q, guid), 0)
  {
    SetupAdds(o, mu);
    var setup, n := SetupOps(o, mu), SetupHeight(o, mu);
    var declare := if q.inverse.Some? then [DeclareInverse(Some(guid + 1))] else [];
    var invoke := InvokeProgram(Some(guid), |mu.params|, mu.hash.Some?);
    if q.inverse.Some? {
      AddsThen(o, setup, n, declare[0]);
    } else {
      assert setup + [] == setup;
    }
    AddsThen(o, setup + declare, n, invoke);
    AddsThen(o, setup + declare + [invoke], 1, DeclareInverse(None));
    AddsThen(o, setup + declare + [invoke] + [DeclareInverse(None)], 1, Append);
    assert BlockOps(o, mu, q, guid) == setup + declare + [invoke] + [DeclareInverse(None)] + [Append];
  }

  lemma InverseAddsNothing(o: Options, mu: Mustache, guid: nat)
    ensures Adds(o, InverseOps(o, mu, guid), 0)
  {
    SetupAdds(o, mu);
    var setup, n := SetupOps(o, mu), SetupHeight(o, mu);
    var invoke := InvokeProgram(None, |mu.params|, mu.hash.Some?);
    AddsThen(o, setup, n, DeclareInverse(Some(guid)));
    AddsThen(o, setup + [DeclareInverse(Some(guid))], n, invoke);
    AddsThen(o, setup + [DeclareInverse(Some(guid))] + [invoke], 1, Append);
    assert InverseOps(o, mu, guid) == setup + [DeclareInverse(Some(guid))] + [invoke] + [Append];
  }

  /** Every statement returns the stack to where it found it. */
  lemma StatementAddsNothing(o: Options, s: Statement, guid: nat)
    ensures Adds(o, StatementOps(o, s, guid), 0)
  {
    hide Adds, SetupOps, IdOps;
    AddsNothing(o);
    match s
    case Content(text) =>
      AddsThen(o, [], 0, AppendContent(text));
      assert [] + [AppendContent(text)] == [AppendContent(text)];
    case Comment =>
    case Output(mu) =>
      SetupAdds(o, mu);
      var invoke := InvokeMustache(|mu.params|, mu.id.original, mu.hash.Some?);
      AddsThen(o, SetupOps(o, mu), SetupHeight(o, mu), invoke);
      AddsThen(o, SetupOps(o, mu) + [invoke], 1, if mu.escaped then AppendEscaped else Append);
    case Partial(name, context) =>
      var head := if context.Some? then IdOps(context.value) else [Push(Str("depth0"))];
      if context.Some? {
        IdAdds(o, context.value);
      } else {
        AddsThen(o, [], 0, Push(Str("depth0")));
        assert [] + [Push(Str("depth0"))] == head;
      }
      AddsThen(o, head, 1, InvokePartial(name));
      AddsThen(o, head + [InvokePartial(name)], 1, Append);
      assert PartialOps(name, context) == head + [InvokePartial(name)] + [Append];
    case Block(mu, q) => BlockAddsNothing(o, mu, q, guid);
    case Inverse(mu, _) => InverseAddsNothing(o, mu, guid);
  }

  lemma {:induction false} StatementsAddNothing(o: Options, stmts: seq<Statement>, n: nat)
    requires n <= |stmts|
    ensures Adds(o, OpsUpTo(o, stmts, n), 0)
  {
    hide Adds, StatementOps, NestedUpTo;
    if n == 0 {
      AddsNothing(o);
    } else {
      StatementsAddNothing(o, stmts, n - 1);
      StatementAddsNothing(o, stmts[n - 1], |NestedUpTo(stmts, n - 1)|);
      AddsConcat(o, OpsUpTo(o, stmts, n - 1), 0, StatementOps(o, stmts[n - 1], |NestedUpTo(stmts, n - 1)|), 0);
    }
  }

  // ----- slots

  function OptionalSlot(k: Option<int>): set<int> {
    if k.Some? then {k.value} else {}
  }

  function SlotsOf(instr: Instr): set<int> {
    match instr
    case BufferSlot(k) => {k}
    case BufferEscaped(k, _) => {k}
    case LoadHelper(k, _) => {k}
    case LoadContext(k, _, _) => {k}
    case LoadEither(k, _, _) => {k}
    case LoadDepth(k, _) => {k}
    case LoadProp(k, _) => {k}
    case LoadLiteral(k, _) => {k}
    case LoadString(k, _) => {k}
    case SetField(k, _, from) => {k, from}
    case TmpHash(from) => OptionalSlot(from)
    case TmpPushContext(k) => {k}
    case CallKnown(to, id, params, _) => {to, id} + (set k | k in params)
    case CallMustache(to, id, params, _, _) => {to, id} + (set k | k in params)
    case CallBlock(to, id, params) => {to, id} + (set k | k in params)
    case CallPartial(k, _) => {k}
    case _ => {}
  }

  /** All slots lie among the declared ones, `stack1` to `stackN`. */
  ghost predicate Within(code: seq<Instr>, vars: nat) {
    forall i, k :: 0 <= i < |code| && k in SlotsOf(code[i]) ==> 1 <= k <= vars
  }

  lemma WithinConcat(a: seq<Instr>, b: seq<Instr>, m: nat, n: nat)
    requires Within(a, m) && Within(b, n) && m <= n
    ensures Within(a + b, n)
  {
  }

  lemma {:induction false} PushesWithin(top: int, n: nat, vars: nat)
    requires 2 * n <= top <= vars
    ensures Within(ContextPushes(top, n), vars)
  {
    if n > 0 {
      PushesWithin(top, n - 1, vars);
    }
  }

  lemma SetupTmpWithin(o: Options, top: int, size: nat, program: Option<ProgramExpr>, inverse: Option<ProgramExpr>,
                       hasHash: bool, vars: nat)
    requires Height(o, size) + (if hasHash then 2 else 1) <= top <= vars
    ensures Within(SetupTmp(o, top, size, program, inverse, hasHash), vars)
  {
    if o.stringParams {
      PushesWithin(if hasHash then top - 2 else top - 1, size, vars);
    }
  }

  lemma CallWithin(o: Options, st: GenState, size: nat, program: Option<ProgramExpr>, inverse: Option<ProgramExpr>,
                   hasHash: bool, original: Option<string>)
    requires Height(o, size) + (if hasHash then 2 else 1) <= st.slot <= st.vars
    ensures var g := GenCall(o, st, size, program, inverse, hasHash, original);
            && Within(g.code, g.st.vars) && g.st.vars == st.vars
            && g.st.slot == st.slot - Height(o, size) - (if hasHash then 2 else 1) + 1
  {
    var g := GenCall(o, st, size, program, inverse, hasHash, original);
    SetupTmpWithin(o, st.slot, size, program, inverse, hasHash, st.vars);
    var setup := SetupTmp(o, st.slot, size, program, inverse, hasHash);
    hide SetupTmp;
    assert Within([g.code[|setup|]], st.vars);
    WithinConcat(setup, [g.code[|setup|]], st.vars, st.vars);
    assert g.code == setup + [g.code[|setup|]];
  }

  lemma OpWithin(o: Options, kids: seq<Kid>, op: Op, st: GenState)
    requires Pops(o, op) <= st.slot <= st.vars
    ensures var g := GenOp(o, kids, op, st);
            && Within(g.code, g.st.vars) && st.vars <= g.st.vars
            && g.st.slot == st.slot - Pops(o, op) + Pushes(op) <= g.st.vars
  {
    hide GenCall;
    match op
    case InvokeMustache(size, original, hasHash) => CallWithin(o, st, size, None, None, hasHash, Some(original));
    case InvokeProgram(guid, size, hasHash) =>
      CallWithin(o, st, size, Some(ExprOf(kids, guid)), Some(ExprOf(kids, st.inverse)), hasHash, None);
    case _ =>
  }

  lemma {:induction false} FusedWithin(o: Options, kids: seq<Kid>, ops: seq<Op>, st: GenState)
    requires 0 <= st.slot <= st.vars && Fits(o, ops, st.slot)
    ensures var g := GenFused(o, kids, ops, st);
            && Within(g.code, g.st.vars) && st.vars <= g.st.vars && g.st.slot == HeightAfter(o, ops, st.slot)
    decreases |ops|
  {
    if ops != [] {
      if Fuses(ops) {
        var rest := ops[2..];
        assert ops[1..][1..] == rest;
        assert Fits(o, ops[1..], st.slot - 1) && Fits(o, rest, st.slot - 1);
        FusedWithin(o, kids, rest, PopStack(st, 1));
        var g := GenFused(o, kids, rest, PopStack(st, 1));
        assert Within([BufferEscaped(st.slot, Some(ops[1].text))], st.vars);
        hide SlotsOf;
        WithinConcat([BufferEscaped(st.slot, Some(ops[1].text))], g.code, st.vars, g.st.vars);
      } else {
        OpWithin(o, kids, ops[0], st);
        hide GenOp, SlotsOf, Pops, Pushes;
        var first := GenOp(o, kids, ops[0], st);
        FusedWithin(o, kids, ops[1..], first.st);
        var g := GenFused(o, kids, ops[1..], first.st);
        WithinConcat(first.code, g.code, first.st.vars, g.st.vars);
      }
    }
  }

  /** Stack discipline of a whole generated function. */
  lemma FunctionWithin(o: Options, kids: seq<Kid>, p: Program)
    ensures Fits(o, OpsOf(o, p), 0)
    ensures var g := GenFused(o, kids, OpsOf(o, p), START_STATE);
            g.st.slot == 0 && Within(g.code, g.st.vars)
  {
    StatementsAddNothing(o, p.statements, |p.statements|);
    assert Fits(o, OpsOf(o, p), 0);
    FusedWithin(o, kids, OpsOf(o, p), START_STATE);
  }

  // ----- what the slots are for

  /** Machines that differ at most in slots that are not declared. */
  ghost predicate SameOn(vars: nat, m: Machine, n: Machine) {
    m.buffer == n.buffer && m.tmp == n.tmp && forall k: int :: 1 <= k <= vars ==> Slot(m, k) == Slot(n, k)
  }

  ghost predicate SameExec(vars: nat, x: Exec, y: Exec) {
    if x.Next? then y.Next? && SameOn(vars, x.m, y.m) else x == y
  }

  ghost predicate Mentions(instr: Instr, vars: nat) {
    forall k :: k in SlotsOf(instr) ==> 1 <= k <= vars
  }

  lemma SameSet(vars: nat, m: Machine, n: Machine, tmp: Tmp, buffer: string)
    requires SameOn(vars, m, n)
    ensures SameOn(vars, m.(tmp := tmp), n.(tmp := tmp)) && SameOn(vars, m.(buffer := buffer), n.(buffer := buffer))
  {
    forall j: int | 1 <= j <= vars
      ensures Slot(m.(tmp := tmp), j) == Slot(n.(tmp := tmp), j)
      ensures Slot(m.(buffer := buffer), j) == Slot(n.(buffer := buffer), j)
    {
      assert Slot(m, j) == Slot(n, j);
    }
  }

  lemma SameSlotSet(vars: nat, m: Machine, n: Machine, k: int, v: Value)
    requires SameOn(vars, m, n)
    ensures SameOn(vars, SetSlot(m, k, v), SetSlot(n, k, v))
  {
    forall j: int | 1 <= j <= vars
      ensures Slot(SetSlot(m, k, v), j) == Slot(SetSlot(n, k, v), j)
    {
      assert Slot(m, j) == Slot(n, j);
    }
  }

  lemma SameStored(vars: nat, l: Linked, m: Machine, n: Machine, k: int, v: Res<Value>)
    requires SameOn(vars, m, n)
    ensures SameExec(vars, Store(m, k, v), Store(n, k, v)) &&
            SameExec(vars, StoreCall(l, m, k, v), StoreCall(l, n, k, v))
  {
    hide SameOn;
    SameSet(vars, m, n, l.junk, "");
    if v.Ok? {
      SameSlotSet(vars, m, n, k, v.value);
      SameSlotSet(vars, m.(tmp := l.junk), n.(tmp := l.junk), k, v.value);
    }
  }

  lemma SameShown(w: World, f: Frame, vars: nat, m: Machine, n: Machine, v: Res<Value>, extra: Option<string>)
    requires SameOn(vars, m, n)
    ensures SameExec(vars, EmitEscaped(w, f, m, v, extra), EmitEscaped(w, f, n, v, extra))
    ensures v.Ok? ==> SameExec(vars, Emit(w, f, m, v.value), Emit(w, f, n, v.value))
  {
    if v.Ok? {
      var text := if extra.Some? then Text(ToText(w, v.value) + extra.value) else v.value;
      SameSet(vars, m, n, m.tmp, m.buffer + ToText(w, text));
      SameSet(vars, m, n, m.tmp, m.buffer + ToText(w, v.value));
    }
    hide ToText;
  }

  lemma SameCalled(w: World, l: Linked, f: Frame, vars: nat, m: Machine, n: Machine, callee: Value, front: seq<Value>,
                   params: seq<int>, useTmp: bool)
    requires SameOn(vars, m, n) && forall k :: k in params ==> 1 <= k <= vars
    ensures Invoke(w, l, f, m, callee, front + Params(m, params), useTmp) ==
            Invoke(w, l, f, n, callee, front + Params(n, params), useTmp)
    ensures Params(m, params) == Params(n, params)
  {
    hide CallValue;
    assert forall i :: 0 <= i < |params| ==> params[i] in params;
    assert Params(m, params) == Params(n, params);
  }

  lemma CallReads(w: World, l: Linked, f: Frame, instr: Instr, vars: nat, m: Machine, n: Machine)
    requires SameOn(vars, m, n) && Mentions(instr, vars) &&
             (instr.CallKnown? || instr.CallMustache? || instr.CallBlock?)
    ensures SameExec(vars, RunInstr(w, l, f, instr, m), RunInstr(w, l, f, instr, n))
  {
    hide Invoke, Store, StoreCall, SameOn, SameExec, Params;
    var callee, params := Slot(m, instr.id), instr.params;
    CallSlots(instr, vars, m, n);
    var useTmp := if instr.CallBlock? then true else instr.useTmp;
    var missing := w.helper(if instr.CallBlock? then "blockHelperMissing" else "helperMissing");
    var front := if instr.CallMustache? then [Text(instr.original)] else [callee];
    SameCalled(w, l, f, vars, m, n, callee, [], params, useTmp);
    SameCalled(w, l, f, vars, m, n, missing, front, params, useTmp);
    assert [] + Params(m, params) == Params(m, params);
    SameStored(vars, l, m, n, instr.to, Ok(callee));
    SameStored(vars, l, m, n, instr.to, Invoke(w, l, f, m, callee, Params(m, params), useTmp));
    SameStored(vars, l, m, n, instr.to, Invoke(w, l, f, m, missing, front + Params(m, params), useTmp));
    assert Store(m, instr.to, Ok(callee)) == Next(SetSlot(m, instr.to, callee)) by { StoreOk(m, instr.to, callee); }
    assert Store(n, instr.to, Ok(callee)) == Next(SetSlot(n, instr.to, callee)) by { StoreOk(n, instr.to, callee); }
  }

  lemma StoreOk(m: Machine, k: int, v: Value)
    ensures Store(m, k, Ok(v)) == Next(SetSlot(m, k, v))
  {
  }

  lemma CallSlots(instr: Instr, vars: nat, m: Machine, n: Machine)
    requires SameOn(vars, m, n) && Mentions(instr, vars) &&
             (instr.CallKnown? || instr.CallMustache? || instr.CallBlock?)
    ensures Slot(m, instr.id) == Slot(n, instr.id) && forall k :: k in instr.params ==> 1 <= k <= vars
  {
    assert instr.id in SlotsOf(instr) && forall k :: k in instr.params ==> k in SlotsOf(instr);
  }

  /** A statement reads no slots but those it mentions. */
  lemma InstrReads(w: World, l: Linked, f: Frame, instr: Instr, vars: nat, m: Machine, n: Machine)
    requires SameOn(vars, m, n) && Mentions(instr, vars)
    ensures SameExec(vars, RunInstr(w, l, f, instr, m), RunInstr(w, l, f, instr, n))
  {
    if instr.CallKnown? || instr.CallMustache? || instr.CallBlock? {
      CallReads(w, l, f, instr, vars, m, n);
    } else if instr.BufferText? || instr.BufferSlot? || instr.BufferEscaped? {
      BufferReads(w, l, f, instr, vars, m, n);
    } else if Loads(instr) {
      LoadReads(w, l, f, instr, vars, m, n);
    } else {
      TmpReads(w, l, f, instr, vars, m, n);
    }
  }

  lemma BufferReads(w: World, l: Linked, f: Frame, instr: Instr, vars: nat, m: Machine, n: Machine)
    requires SameOn(vars, m, n) && Mentions(instr, vars)
    requires instr.BufferText? || instr.BufferSlot? || instr.BufferEscaped?
    ensures SameExec(vars, RunInstr(w, l, f, instr, m), RunInstr(w, l, f, instr, n))
  {
    hide Emit, EmitEscaped, Truthy;
    match instr {
      case BufferText(t) => SameShown(w, f, vars, m, n, Ok(Text(t)), None);
      case BufferSlot(k) =>
        assert k in SlotsOf(instr);
        SameShown(w, f, vars, m, n, Ok(Slot(m, k)), None);
      case BufferEscaped(k, extra) =>
        assert k in SlotsOf(instr);
        SameShown(w, f, vars, m, n, w.escape(Slot(m, k)), extra);
    }
  }

  predicate Loads(instr: Instr) {
    || instr.LoadHelper? || instr.LoadContext? || instr.LoadEither? || instr.LoadDepth? || instr.LoadProp?
    || instr.LoadLiteral? || instr.LoadString? || instr.SetField? || instr.CallPartial?
  }

  lemma LoadReads(w: World, l: Linked, f: Frame, instr: Instr, vars: nat, m: Machine, n: Machine)
    requires SameOn(vars, m, n) && Mentions(instr, vars) && Loads(instr)
    ensures SameExec(vars, RunInstr(w, l, f, instr, m), RunInstr(w, l, f, instr, n))
  {
    hide Truthy, ReadDepth, LiteralOf, GetPropOf, GetProp, Store, StoreCall, SetSlot, FieldsOf;
    match instr {
      case LoadHelper(k, name) => SameSlotSet(vars, m, n, k, w.helper(name));
      case LoadContext(k, d, name) => SameStored(vars, l, m, n, k, GetPropOf(w, ReadDepth(l, f, d), name));
      case LoadEither(k, d, name) =>
        SameSlotSet(vars, m, n, k, w.helper(name));
        SameStored(vars, l, m, n, k, GetPropOf(w, ReadDepth(l, f, d), name));
      case LoadDepth(k, d) => SameStored(vars, l, m, n, k, ReadDepth(l, f, d));
      case LoadProp(k, name) =>
        assert k in SlotsOf(instr);
        SameStored(vars, l, m, n, k, GetProp(w, Slot(m, k), name));
      case LoadLiteral(k, c) => SameSlotSet(vars, m, n, k, LiteralOf(w, f, c));
      case LoadString(k, s) => SameSlotSet(vars, m, n, k, Text(s));
      case SetField(k, key, from) =>
        assert k in SlotsOf(instr) && from in SlotsOf(instr);
        SameSlotSet(vars, m, n, k, Record(FieldsOf(Slot(m, k))[key := Slot(m, from)]));
      case CallPartial(k, name) =>
        assert k in SlotsOf(instr);
        SameStored(vars, l, m, n, k, w.partialCall(name, Slot(m, k)));
    }
  }

  lemma TmpReads(w: World, l: Linked, f: Frame, instr: Instr, vars: nat, m: Machine, n: Machine)
    requires SameOn(vars, m, n) && Mentions(instr, vars)
    requires instr.SetTmp? || instr.TmpHash? || instr.TmpContexts? || instr.TmpPushContext? || instr.TmpInverse?
    ensures SameExec(vars, RunInstr(w, l, f, instr, m), RunInstr(w, l, f, instr, n))
  {
    hide EvalExpr;
    if instr.TmpPushContext? {
      assert instr.slot in SlotsOf(instr);
    } else if instr.TmpHash? && instr.hash.Some? {
      assert instr.hash.value in SlotsOf(instr);
    }
    var x := RunInstr(w, l, f, instr, m);
    SameSet(vars, m, n, if x.Next? then x.m.tmp else m.tmp, m.buffer);
  }

  lemma OthersKept(l: Linked, m: Machine, to: int, v: Res<Value>, k: int)
    requires k != to
    ensures Store(m, to, v).Next? ==> Slot(Store(m, to, v).m, k) == Slot(m, k)
    ensures StoreCall(l, m, to, v).Next? ==> Slot(StoreCall(l, m, to, v).m, k) == Slot(m, k)
    ensures v.Ok? ==> Slot(SetSlot(m, to, v.value), k) == Slot(m, k)
  {
  }

  /** It writes no others either. */
  lemma InstrWrites(w: World, l: Linked, f: Frame, instr: Instr, m: Machine, k: int)
    requires k !in SlotsOf(instr) && RunInstr(w, l, f, instr, m).Next?
    ensures Slot(RunInstr(w, l, f, instr, m).m, k) == Slot(m, k)
  {
    if instr.CallKnown? || instr.CallMustache? || instr.CallBlock? {
      CallWrites(w, l, f, instr, m, k);
    } else {
      hide Invoke, Truthy, ReadDepth, EvalExpr, LiteralOf, GetProp, Params;
    }
  }

  lemma CallWrites(w: World, l: Linked, f: Frame, instr: Instr, m: Machine, k: int)
    requires instr.CallKnown? || instr.CallMustache? || instr.CallBlock?
    requires k !in SlotsOf(instr) && RunInstr(w, l, f, instr, m).Next?
    ensures Slot(RunInstr(w, l, f, instr, m).m, k) == Slot(m, k)
  {
    hide Invoke, Store, StoreCall, SetSlot, Params;
    var callee, params := Slot(m, instr.id), Params(m, instr.params);
    var useTmp := if instr.CallBlock? then true else instr.useTmp;
    var missing := w.helper(if instr.CallBlock? then "blockHelperMissing" else "helperMissing");
    var front := if instr.CallMustache? then [Text(instr.original)] else [callee];
    assert instr.to in SlotsOf(instr);
    OthersKept(l, m, instr.to, Ok(callee), k);
    OthersKept(l, m, instr.to, Invoke(w, l, f, m, callee, params, useTmp), k);
    OthersKept(l, m, instr.to, Invoke(w, l, f, m, missing, front + params, useTmp), k);
  }

  /** Code does the same whatever the slots hold that it does not mention. */
  lemma {:induction false} CodeReads(w: World, l: Linked, f: Frame, code: seq<Instr>, vars: nat, m: Machine, n: Machine)
    requires SameOn(vars, m, n) && Within(code, vars)
    ensures SameExec(vars, RunCode(w, l, f, code, m), RunCode(w, l, f, code, n))
    decreases |code|
  {
    hide SlotsOf, RunInstr, SameOn;
    if code != [] {
      assert Mentions(code[0], vars);
      InstrReads(w, l, f, code[0], vars, m, n);
      var x, y := RunInstr(w, l, f, code[0], m), RunInstr(w, l, f, code[0], n);
      if x.Next? {
        CodeReads(w, l, f, code[1..], vars, x.m, y.m);
      }
    }
  }

  /**
   The slots that a function declares are all that it needs: what any others hold makes no difference to what it
   returns or throws.
   */
  lemma DeclaredSlotsSuffice(w: World, o: Options, kids: seq<Kid>, p: Program, l: Linked, f: Frame, m: Machine,
                             n: Machine)
    requires SameOn(GenFused(o, kids, OpsOf(o, p), START_STATE).st.vars, m, n)
    ensures var code := GenFused(o, kids, OpsOf(o, p), START_STATE).code;
            Finish(f, RunCode(w, l, f, code, m)) == Finish(f, RunCode(w, l, f, code, n))
  {
    hide RunCode, GenFused, OpsOf, Within;
    FunctionWithin(o, kids, p);
    var g := GenFused(o, kids, OpsOf(o, p), START_STATE);
    CodeReads(w, l, f, g.code, g.st.vars, m, n);
  }
}
