/**
 The second compiler pass as a function: the JavaScript statements it writes for an instruction,
 given what it tracks about the run-time stack.  One `Instr` stands for one emitted statement.
 */
module CodeGen {
  import opened JsRuntime
  import opened TemplateAst
  import opened Opcodes

  /** `self.noop`, or `self.program(...)` and `self.programWithDepth(...)` with the contexts passed along. */
  datatype ProgramExpr = NoopExpr | ClosureExpr(index: nat, args: seq<nat>)

  datatype Instr =
    | BufferText(text: string)  // buffer += "text"
    | BufferSlot(slot: int)  // if(slot || slot === 0) { buffer += slot }
    | BufferEscaped(slot: int, extra: Option<string>)  // buffer += escapeExpression(slot) + "extra"
    | LoadHelper(slot: int, name: string)  // slot = helpers.name
    | LoadContext(slot: int, depth: nat, name: string)  // slot = depthN.name
    | LoadEither(slot: int, depth: nat, name: string)  // slot = helpers.name || depthN.name
    | LoadDepth(slot: int, depth: nat)  // slot = depthN
    | LoadProp(slot: int, name: string)  // slot = slot.name
    | LoadLiteral(slot: int, literal: Cell)  // slot = literal
    | LoadString(slot: int, text: string)  // slot = "text"
    | SetField(slot: int, key: string, from: int)  // slot['key'] = from
    | SetTmp(program: Option<ProgramExpr>)  // tmp1 = program, or tmp1 = {}
    | TmpHash(hash: Option<int>)  // tmp1.hash = slot, or {}
    | TmpContexts  // tmp1.contexts = []
    | TmpPushContext(slot: int)  // tmp1.contexts.push(slot)
    | TmpInverse(inverse: ProgramExpr)  // tmp1.fn = tmp1; tmp1.inverse = inverse
    | CallKnown(to: int, id: int, params: seq<int>, useTmp: bool)
    | CallMustache(to: int, id: int, params: seq<int>, useTmp: bool, original: string)
    | CallBlock(to: int, id: int, params: seq<int>)
    | CallPartial(slot: int, name: string)

  /** A nested program as its parent refers to it: the index in its name and its list of depths. */
  datatype Kid = Kid(index: nat, depths: seq<nat>)

  /** `stackSlot`, the number of `stackVars`, `lastContext`, `usingKnownHelper` and the declared `inverse`. */
  datatype GenState = GenState(slot: int, vars: nat, ctx: nat, known: bool, inverse: Option<nat>)

  datatype Gen = Gen(code: seq<Instr>, st: GenState)

  const START_STATE := GenState(0, 0, 0, false, None)

  function NextStack(st: GenState): GenState {
    st.(slot := st.slot + 1, vars := if st.slot + 1 > st.vars then st.vars + 1 else st.vars)
  }

  function PopStack(st: GenState, n: nat): GenState {
    st.(slot := st.slot - n)
  }

  /** A child's depth d is the parent's d - 1; its depth 1 is the parent's own context. */
  function OuterDepths(depths: seq<nat>): seq<nat> {
    seq(|depths|, i requires 0 <= i < |depths| => if depths[i] == 0 then 0 else depths[i] - 1)
  }

  /** `programExpression` */
  function ExprOf(kids: seq<Kid>, guid: Option<nat>): ProgramExpr {
    if guid.Some? && guid.value < |kids| then
      ClosureExpr(kids[guid.value].index, OuterDepths(kids[guid.value].depths))
    else NoopExpr
  }

  /** The number of slots that `n` params take. */
  function Height(o: Options, n: nat): nat {
    if o.stringParams then 2 * n else n
  }

  /** The slots from which `n` params are popped, the first one at `top`. */
  function ParamSlots(o: Options, top: int, n: nat): seq<int> {
    seq(n, i requires 0 <= i < n => top - Height(o, i))
  }

  /** With `stringParams` the context of a param lies under it. */
  function ContextPushes(top: int, n: nat): seq<Instr>
    decreases n
  {
    if n == 0 then [] else ContextPushes(top, n - 1) + [TmpPushContext(top - 2 * (n - 1) - 1)]
  }

  /** The statements of `populateParams` in front of the call. */
  function SetupTmp(o: Options, top: int, size: nat, program: Option<ProgramExpr>, inverse: Option<ProgramExpr>,
                    hasHash: bool): seq<Instr>
  {
    var needsRegister := hasHash || o.stringParams || inverse.Some?;
    var paramTop := if hasHash then top - 2 else top - 1;
    (if needsRegister then [SetTmp(program), TmpHash(if hasHash then Some(top - 1) else None)] else [])
    + (if o.stringParams then [TmpContexts] + ContextPushes(paramTop, size) else [])
    + (if inverse.Some? then [TmpInverse(inverse.value)] else [])
  }

  /** `invokeMustache` and `invokeProgram`: pops the head, the hash and the params, pushes the result. */
  function GenCall(o: Options, st: GenState, size: nat, program: Option<ProgramExpr>, inverse: Option<ProgramExpr>,
                   hasHash: bool, original: Option<string>): Gen
  {
    var id := st.slot;
    var paramTop := if hasHash then id - 2 else id - 1;
    var params := ParamSlots(o, paramTop, size);
    var useTmp := hasHash || o.stringParams || inverse.Some?;
    var after := NextStack(PopStack(st, (if hasHash then 2 else 1) + Height(o, size)));
    var call :=
      if st.known then CallKnown(after.slot, id, params, useTmp)
      else if original.Some? then CallMustache(after.slot, id, params, useTmp, original.value)
      else CallBlock(after.slot, id, params);
    Gen(SetupTmp(o, id, size, program, inverse, hasHash) + [call], after.(known := false))
  }

  function GenLookup(o: Options, name: Option<string>, scoped: bool, st: GenState): Gen {
    var next := NextStack(st);
    if name.None? || name.value == "" then Gen([LoadDepth(next.slot, st.ctx)], next)
    else
      var n := name.value;
      if !scoped && n in o.known then Gen([LoadHelper(next.slot, n)], next.(known := true))
      else if scoped || o.knownOnly then Gen([LoadContext(next.slot, st.ctx, n)], next.(known := false))
      else Gen([LoadEither(next.slot, st.ctx, n)], next.(known := false))
  }

  function GenOp(o: Options, kids: seq<Kid>, op: Op, st: GenState): Gen {
    match op
    case AppendContent(text) => Gen([BufferText(text)], st)
    case GetContext(d) => Gen([], st.(ctx := d))
    case LookupWithHelpers(name, scoped) => GenLookup(o, name, scoped, st)
    case Lookup(name) => Gen([LoadProp(st.slot, name)], st)
    case Append => Gen([BufferSlot(st.slot)], PopStack(st, 1))
    case AppendEscaped => Gen([BufferEscaped(st.slot, None)], PopStack(st, 1))
    case InvokeMustache(size, original, hasHash) => GenCall(o, st, size, None, None, hasHash, Some(original))
    case InvokeProgram(guid, size, hasHash) =>
      GenCall(o, st, size, Some(ExprOf(kids, guid)), Some(ExprOf(kids, st.inverse)), hasHash, None)
    case PushString(s) => Gen([LoadString(st.slot + 1, s)], NextStack(st))
    case InvokePartial(name) => Gen([CallPartial(st.slot, name)], NextStack(PopStack(st, 1)))
    case Push(literal) => Gen([LoadLiteral(st.slot + 1, literal)], NextStack(st))
    case AssignToHash(key) => Gen([SetField(st.slot - 1, key, st.slot)], PopStack(st, 1))
    case PushStringParam(s) =>
      Gen([LoadDepth(st.slot + 1, st.ctx), LoadString(st.slot + 2, if s.Some? then s.value else "")],
          NextStack(NextStack(st)))
    case DeclareInverse(g) => Gen([], st.(inverse := g))
  }

  /** Instruction by instruction, without looking ahead. */
  function GenPlain(o: Options, kids: seq<Kid>, ops: seq<Op>, st: GenState): Gen {
    if ops == [] then Gen([], st)
    else
      var first := GenOp(o, kids, ops[0], st);
      var rest := GenPlain(o, kids, ops[1..], first.st);
      Gen(first.code + rest.code, rest.st)
  }

  /** An escaped value directly followed by text: the two are written as one statement. */
  predicate Fuses(ops: seq<Op>) {
    |ops| >= 2 && ops[0].AppendEscaped? && ops[1].AppendContent?
  }

  /** As the second pass does it. */
  function GenFused(o: Options, kids: seq<Kid>, ops: seq<Op>, st: GenState): Gen {
    if ops == [] then Gen([], st)
    else if Fuses(ops) then
      var rest := GenFused(o, kids, ops[2..], PopStack(st, 1));
      Gen([BufferEscaped(st.slot, Some(ops[1].text))] + rest.code, rest.st)
    else
      var first := GenOp(o, kids, ops[0], st);
      var rest := GenFused(o, kids, ops[1..], first.st);
      Gen(first.code + rest.code, rest.st)
  }

  lemma {:induction false} GenConcat(o: Options, kids: seq<Kid>, a: seq<Op>, b: seq<Op>, st: GenState)
    ensures var x := GenPlain(o, kids, a, st);
            var y := GenPlain(o, kids, b, x.st);
            GenPlain(o, kids, a + b, st) == Gen(x.code + y.code, y.st)
    decreases |a|
  {
    hide GenOp;
    if a == [] {
      assert a + b == b;
    } else {
      var first := GenOp(o, kids, a[0], st);
      assert (a + b)[1..] == a[1..] + b;
      GenConcat(o, kids, a[1..], b, first.st);
      var x := GenPlain(o, kids, a[1..], first.st);
      var y := GenPlain(o, kids, b, x.st);
      assert first.code + (x.code + y.code) == first.code + x.code + y.code;
    }
  }

  lemma GenOne(o: Options, kids: seq<Kid>, op: Op, st: GenState)
    ensures GenPlain(o, kids, [op], st) == GenOp(o, kids, op, st)
  {
    hide GenOp;
    var first := GenOp(o, kids, op, st);
    assert [op][1..] == [];
    assert GenPlain(o, kids, [], first.st) == Gen([], first.st);
    assert first.code + [] == first.code;
  }
}
