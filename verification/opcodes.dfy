/**
 The intermediate code between the two compiler passes.  The first pass writes a flat array of
 untagged cells: opcode numbers, operands and the string "DECLARE" are all plain values.  `Op` is
 the instruction meant by a group of cells.
 */
module Opcodes {
  import opened JsRuntime

  datatype Cell = Num(n: int) | Str(s: string) | Flag(b: bool) | NullCell

  datatype Op =
    | AppendContent(text: string)
    | GetContext(depth: nat)
    | LookupWithHelpers(name: Option<string>, scoped: bool)
    | Lookup(name': string)
    | Append
    | InvokeMustache(size: nat, original: string, hasHash: bool)
    | AppendEscaped
    | PushString(s: string)
    | InvokeProgram(guid: Option<nat>, size: nat, hasHash: bool)
    | InvokePartial(partialName: string)
    | Push(literal: Cell)
    | AssignToHash(key: string)
    | PushStringParam(param: Option<string>)
    | DeclareInverse(inverse: Option<nat>)

  function TextCell(t: Option<string>): Cell {
    if t.Some? then Str(t.value) else NullCell
  }

  function GuidCell(g: Option<nat>): Cell {
    if g.Some? then Num(g.value) else NullCell
  }

  /** `OPCODE_MAP` */
  function CodeOf(op: Op): int {
    match op
    case AppendContent(_) => 1
    case GetContext(_) => 2
    case LookupWithHelpers(_, _) => 3
    case Lookup(_) => 4
    case Append => 5
    case InvokeMustache(_, _, _) => 6
    case AppendEscaped => 7
    case PushString(_) => 8
    case InvokeProgram(_, _, _) => 11
    case InvokePartial(_) => 12
    case Push(_) => 13
    case AssignToHash(_) => 15
    case PushStringParam(_) => 16
    case DeclareInverse(_) => 0
  }

  function Operands(op: Op): seq<Cell> {
    match op
    case AppendContent(t) => [Str(t)]
    case GetContext(d) => [Num(d)]
    case LookupWithHelpers(name, scoped) => [TextCell(name), Flag(scoped)]
    case Lookup(name) => [Str(name)]
    case Append => []
    case InvokeMustache(size, original, hasHash) => [Num(size), Str(original), Flag(hasHash)]
    case AppendEscaped => []
    case PushString(s) => [Str(s)]
    case InvokeProgram(guid, size, hasHash) => [GuidCell(guid), Num(size), Flag(hasHash)]
    case InvokePartial(name) => [Str(name)]
    case Push(literal) => [literal]
    case AssignToHash(key) => [Str(key)]
    case PushStringParam(s) => if s.Some? then [Str(s.value)] else []
    case DeclareInverse(g) => [Str("inverse"), GuidCell(g)]
  }

  /** The first pass leaves out an operand that is undefined, as the text of an integer or boolean param is. */
  predicate Complete(op: Op) {
    op.PushStringParam? ==> op.param.Some?
  }

  predicate AllComplete(ops: seq<Op>) {
    forall op <- ops :: Complete(op)
  }

  /** The cells that the first pass pushes for one instruction. */
  function Cells(op: Op): seq<Cell> {
    (if op.DeclareInverse? then [Str("DECLARE")] else [Num(CodeOf(op))]) + Operands(op)
  }

  function Encode(ops: seq<Op>): seq<Cell> {
    if ops == [] then [] else Cells(ops[0]) + Encode(ops[1..])
  }

  /** `MULTI_PARAM_OPCODES[DISASSEMBLE_MAP[code]]`; `None` is an unknown code. */
  function OperandCount(code: int): Option<nat> {
    match code
    case 1 => Some(1)
    case 2 => Some(1)
    case 3 => Some(2)
    case 4 => Some(1)
    case 5 => Some(0)
    case 6 => Some(3)
    case 7 => Some(0)
    case 8 => Some(1)
    case 9 => Some(1)
    case 10 => Some(1)
    case 11 => Some(3)
    case 12 => Some(1)
    case 13 => Some(1)
    case 15 => Some(1)
    case 16 => Some(1)
    case _ => None
  }

  /** What `nextOpcode` returns: the name of the instruction, as its code, and its operands. */
  datatype Decoded = Declaration(name: Cell, value: Cell) | Instruction(code: int, codes: seq<Cell>) | Unknown

  /** Reads the instruction whose first cell is at `k`. */
  function NextOpcode(cells: seq<Cell>, k: nat): Decoded {
    if k >= |cells| then Unknown
    else if cells[k] == Str("DECLARE") then
      if k + 2 < |cells| then Declaration(cells[k + 1], cells[k + 2]) else Unknown
    else if cells[k].Num? && OperandCount(cells[k].n).Some? then
      var count := OperandCount(cells[k].n).value;
      if k + count < |cells| then Instruction(cells[k].n, cells[k + 1..k + 1 + count]) else Unknown
    else Unknown
  }

  /** How far the second pass moves to reach the next instruction. */
  function Width(d: Decoded): nat {
    match d
    case Declaration(_, _) => 3
    case Instruction(_, codes) => 1 + |codes|
    case Unknown => 1
  }

  /** The instruction that a decoded group stands for. */
  function Meaning(op: Op): Decoded {
    if op.DeclareInverse? then Declaration(Str("inverse"), GuidCell(op.inverse))
        else Instruction(CodeOf(op), Operands(op))
  }

  /** Reads the whole array, instruction by instruction. */
  function DecodeFrom(cells: seq<Cell>, k: nat): seq<Decoded>
    decreases |cells| - k
  {
    if k >= |cells| then [] else [NextOpcode(cells, k)] + DecodeFrom(cells, k + Width(NextOpcode(cells, k)))
  }

  function Meanings(ops: seq<Op>): seq<Decoded> {
    if ops == [] then [] else [Meaning(ops[0])] + Meanings(ops[1..])
  }

  lemma {:induction false} EncodeConcat(a: seq<Op>, b: seq<Op>)
    ensures Encode(a + b) == Encode(a) + Encode(b)
    decreases |a|
  {
    if a == [] {
      assert a + b == b;
    } else {
      assert (a + b)[1..] == a[1..] + b;
      EncodeConcat(a[1..], b);
      assert Cells(a[0]) + (Encode(a[1..]) + Encode(b)) == (Cells(a[0]) + Encode(a[1..])) + Encode(b);
    }
  }

  lemma EncodeSnoc(ops: seq<Op>, op: Op)
    ensures Encode(ops + [op]) == Encode(ops) + Cells(op)
  {
    EncodeConcat(ops, [op]);
    assert Encode([op]) == Cells(op) + Encode([op][1..]);
  }

  /** At the first cell of an instruction the decoder reads that instruction, whatever its operands are. */
  lemma DecodeOne(before: seq<Cell>, op: Op, rest: seq<Cell>)
    requires Complete(op)
    ensures NextOpcode(before + Cells(op) + rest, |before|) == Meaning(op)
    ensures Width(Meaning(op)) == |Cells(op)| > 0
  {
    var all := before + Cells(op) + rest;
    var k, cells, operands := |before|, Cells(op), Operands(op);
    assert all[k..k + |cells|] == cells;
    assert forall j :: 0 <= j < |cells| ==> all[k + j] == cells[j];
    assert |cells| > 0 && all[k] == cells[0];
    if op.DeclareInverse? {
      assert all[k + 1] == cells[1] && all[k + 2] == cells[2];
    } else {
      CountMatches(op);
      hide Operands, CodeOf, OperandCount;
      assert cells[1..] == operands;
      assert all[k + 1..k + 1 + |operands|] == operands;
    }
  }

  lemma CountMatches(op: Op)
    requires !op.DeclareInverse? && Complete(op)
    ensures OperandCount(CodeOf(op)) == Some(|Operands(op)|)
  {
  }

  lemma DecodeStep(cells: seq<Cell>, k: nat)
    requires k < |cells|
    ensures DecodeFrom(cells, k) == [NextOpcode(cells, k)] + DecodeFrom(cells, k + Width(NextOpcode(cells, k)))
  {
  }

  lemma FirstInstruction(before: seq<Cell>, ops: seq<Op>)
    requires ops != []
    ensures before + Encode(ops) == before + Cells(ops[0]) + Encode(ops[1..])
    ensures Meanings(ops) == [Meaning(ops[0])] + Meanings(ops[1..])
  {
    hide Cells, Meaning;
    assert before + (Cells(ops[0]) + Encode(ops[1..])) == before + Cells(ops[0]) + Encode(ops[1..]);
  }

  lemma NothingDecoded(before: seq<Cell>)
    ensures DecodeFrom(before + Encode([]), |before|) == [] == Meanings([])
  {
  }

  /** The decoder finds exactly the instruction boundaries that the encoder wrote. */
  lemma {:induction false} DecodeEncoded(before: seq<Cell>, ops: seq<Op>)
    requires AllComplete(ops)
    ensures DecodeFrom(before + Encode(ops), |before|) == Meanings(ops)
    decreases |ops|
  {
    hide NextOpcode, Cells, Meaning, Width, Encode, DecodeFrom, Meanings;
    if ops == [] {
      NothingDecoded(before);
    } else {
      var next := before + Cells(ops[0]);
      FirstInstruction(before, ops);
      DecodeOne(before, ops[0], Encode(ops[1..]));
      DecodeEncoded(next, ops[1..]);
      DecodeStep(before + Encode(ops), |before|);
    }
  }

  /** It does for an array with all operands, and for no other. */
  lemma {:induction false} DecodedExactly(before: seq<Cell>, ops: seq<Op>)
    ensures DecodeFrom(before + Encode(ops), |before|) == Meanings(ops) <==> AllComplete(ops)
    decreases |ops|
  {
    hide NextOpcode, Cells, Meaning, Width, Encode, DecodeFrom, Meanings, Complete;
    if ops == [] {
      NothingDecoded(before);
    } else {
      FirstInstruction(before, ops);
      assert ops == [ops[0]] + ops[1..];
      var cells, next := before + Encode(ops), before + Cells(ops[0]);
      NotEmpty(before, ops);
      DecodeStep(cells, |before|);
      if Complete(ops[0]) {
        DecodeOne(before, ops[0], Encode(ops[1..]));
        DecodedExactly(next, ops[1..]);
        ConsEqual(NextOpcode(cells, |before|), DecodeFrom(next + Encode(ops[1..]), |next|), Meanings(ops[1..]));
      } else {
        NeverMeant(cells, |before|, ops[0]);
        assert DecodeFrom(cells, |before|)[0] != Meanings(ops)[0] && ops[0] in ops;
      }
    }
  }

  lemma ConsEqual<T>(x: T, a: seq<T>, b: seq<T>)
    ensures [x] + a == [x] + b <==> a == b
  {
    assert ([x] + a)[1..] == a && ([x] + b)[1..] == b;
  }

  lemma NotEmpty(before: seq<Cell>, ops: seq<Op>)
    requires ops != []
    ensures |before + Encode(ops)| > |before|
  {
  }

  /** No cells are read as an instruction with a missing operand. */
  lemma NeverMeant(cells: seq<Cell>, k: nat, op: Op)
    requires !Complete(op)
    ensures NextOpcode(cells, k) != Meaning(op)
  {
    var d := NextOpcode(cells, k);
    if d.Instruction? {
      assert |d.codes| == OperandCount(d.code).value;
    }
  }

  /** Code and operands tell what the instruction was. */
  lemma MeaningInjective(x: Op, y: Op)
    requires Meaning(x) == Meaning(y)
    ensures x == y
  {
    if !x.DeclareInverse? && !y.DeclareInverse? {
      assert CodeOf(x) == CodeOf(y) && Operands(x) == Operands(y);
      SameOperands(x, y);
    }
  }

  lemma SameOperands(x: Op, y: Op)
    requires !x.DeclareInverse? && !y.DeclareInverse? && CodeOf(x) == CodeOf(y) && Operands(x) == Operands(y)
    ensures x == y
  {
    var a, b := Operands(x), Operands(y);
    assert |a| == |b| && forall i :: 0 <= i < |a| ==> a[i] == b[i];
  }

  /** Different instruction sequences never share an array. */
  lemma {:induction false} EncodeInjective(a: seq<Op>, b: seq<Op>)
    requires Encode(a) == Encode(b) && AllComplete(a) && AllComplete(b)
    ensures a == b
  {
    hide Encode;
    DecodeEncoded([], a);
    DecodeEncoded([], b);
    assert [] + Encode(a) == Encode(a);
    assert [] + Encode(b) == Encode(b);
    MeaningsInjective(a, b);
  }

  lemma {:induction false} MeaningsInjective(a: seq<Op>, b: seq<Op>)
    requires Meanings(a) == Meanings(b)
    ensures a == b
    decreases |a|
  {
    hide Meaning;
    if a != [] {
      assert Meanings(a)[0] == Meanings(b)[0] && Meanings(a)[1..] == Meanings(b)[1..];
      MeaningInjective(a[0], b[0]);
      MeaningsInjective(a[1..], b[1..]);
      assert a == [a[0]] + a[1..] && b == [b[0]] + b[1..];
    }
  }
}
