/**
 `Handlebars.JavaScriptCompiler`: the object that runs the second pass.  It walks the flat opcode
 array with an index, tracks the stack of the code it writes, and files the nested programs in a
 list shared by all compilers of one template.
 */
module JavaScriptCompilerObject {
  import opened JsRuntime
  import Collections
  import opened TemplateAst
  import opened Opcodes
  import opened FirstPass
  import CompilerObject
  import opened CodeGen
  import SlotMachine
  import opened TemplateLink
  import TemplateProof

  function TextOf(c: Cell): Option<string> {
    if c.Str? then Some(c.s) else None
  }

  function NumberOf(c: Cell): nat {
    if c.Num? && c.n >= 0 then c.n else 0
  }

  function GuidOf(c: Cell): Option<nat> {
    if c.Num? && c.n >= 0 then Some(c.n) else None
  }

  ghost predicate Describes(children: seq<Env>, us: seq<Unit>) {
    |children| == |us| && forall k :: 0 <= k < |us| ==> children[k] == EnvOfUnit(us[k])
  }

  lemma DescribesAt(children: seq<Env>, us: seq<Unit>, k: nat)
    requires Describes(children, us) && k < |children|
    ensures k < |us| && children[k] == EnvOfUnit(us[k])
  {
  }

  /** The list of generated programs. */
  class SharedContext {
    var programs: seq<Option<SlotMachine.Fn>>

    constructor ()
      ensures programs == []
    {
      programs := [];
    }
  }

  class JavaScriptCompiler {
    const options: Options
    var opcodes: seq<Cell>
    var kids: seq<Kid>
    var i: int
    var source: seq<Instr>
    var stackSlot: int
    var stackVars: nat
    var lastContext: nat
    var usingKnownHelper: bool
    var inverse: Option<nat>

    ghost function State(): GenState
      reads this
    {
      GenState(stackSlot, stackVars, lastContext, usingKnownHelper, inverse)
    }

    constructor (options: Options)
      ensures this.options == options
      ensures State() == START_STATE && source == []
    {
      this.options := options;
      opcodes, kids, i, source := [], [], 0, [];
      stackSlot, stackVars, lastContext, usingKnownHelper, inverse := 0, 0, 0, false, None;
    }

    // ----- the stack of the generated code

    method NextStack() returns (slot: int)
      modifies `stackSlot, `stackVars
      ensures State() == CodeGen.NextStack(old(State())) && slot == stackSlot
    {
      stackSlot := stackSlot + 1;
      if stackSlot > stackVars {
        stackVars := stackVars + 1;
      }
      slot := stackSlot;
    }

    method PopStack() returns (slot: int)
      modifies `stackSlot
      ensures State() == CodeGen.PopStack(old(State()), 1) && slot == old(stackSlot)
    {
      slot := stackSlot;
      stackSlot := stackSlot - 1;
    }

    // ----- calls

    /** The slots of the params, and the contexts below them that are handed to `tmp1`. */
    method PopParams(size: nat) returns (params: seq<int>)
      modifies `stackSlot, `source
      ensures params == ParamSlots(options, old(stackSlot), size)
      ensures State() == CodeGen.PopStack(old(State()), Height(options, size))
      ensures source == old(source) + (if options.stringParams then ContextPushes(old(stackSlot), size) else [])
    {
      params := [];
      var n := 0;
      while n < size
        invariant 0 <= n <= size
        invariant params == ParamSlots(options, old(stackSlot), n)
        invariant State() == CodeGen.PopStack(old(State()), Height(options, n))
        invariant source == old(source) + (if options.stringParams then ContextPushes(old(stackSlot), n) else [])
      {
        var param := PopStack();
        params := params + [param];
        if options.stringParams {
          var context := PopStack();
          source := source + [TmpPushContext(context)];
        }
        n := n + 1;
      }
    }

    /** The start of the options object, in the register or not at all. */
    method SetRegister(program: Option<ProgramExpr>, hasHash: bool)
      modifies `stackSlot, `source
      ensures State() == CodeGen.PopStack(old(State()), if hasHash then 1 else 0)
      ensures source == old(source) + [SetTmp(program), TmpHash(if hasHash then Some(old(stackSlot)) else None)]
    {
      source := source + [SetTmp(program)];
      if hasHash {
        var hash := PopStack();
        source := source + [TmpHash(Some(hash))];
      } else {
        source := source + [TmpHash(None)];
      }
    }

    /** Fills in the options object and pops the params. */
    method PopOperands(size: nat, program: Option<ProgramExpr>, inverseExpr: Option<ProgramExpr>,
                       hasHash: bool) returns (params: seq<int>)
      modifies `stackSlot, `source
      ensures var top := old(stackSlot) + 1;
              && source == old(source) + SetupTmp(options, top, size, program, inverseExpr, hasHash)
              && params == ParamSlots(options, if hasHash then top - 2 else top - 1, size)
      ensures State() == CodeGen.PopStack(old(State()), (if hasHash then 1 else 0) + Height(options, size))
    {
      hide ContextPushes, ParamSlots;
      ghost var top := stackSlot + 1;
      var needsRegister := hasHash || options.stringParams || inverseExpr.Some?;
      if needsRegister {
        SetRegister(program, hasHash);
      }
      if options.stringParams {
        source := source + [TmpContexts];
      }
      params := PopParams(size);
      if inverseExpr.Some? {
        source := source + [TmpInverse(inverseExpr.value)];
      }
      ghost var first := if needsRegister then [SetTmp(program), TmpHash(if hasHash then Some(top - 1) else None)]
          else [];
      ghost var second := if options.stringParams then
          [TmpContexts] + ContextPushes(if hasHash then top - 2 else top - 1, size) else [];
      ghost var third := if inverseExpr.Some? then [TmpInverse(inverseExpr.value)] else [];
      Collections.Concat3(old(source), first, second, third);
    }

    /** `populateParams` */
    method PopulateParams(size: nat, program: Option<ProgramExpr>, inverseExpr: Option<ProgramExpr>, hasHash: bool,
                          original: Option<string>)
      modifies `stackSlot, `stackVars, `source, `usingKnownHelper
      ensures var g := GenCall(options, old(State()), size, program, inverseExpr, hasHash, original);
              State() == g.st && source == old(source) + g.code
    {
      hide SetupTmp, ParamSlots;
      var needsRegister := hasHash || options.stringParams || inverseExpr.Some?;
      var id := PopStack();
      var params := PopOperands(size, program, inverseExpr, hasHash);
      PopulateCall(id, params, needsRegister, original);
    }

    /** `populateCall` */
    method PopulateCall(id: int, params: seq<int>, useTmp: bool, original: Option<string>)
      modifies `stackSlot, `stackVars, `source, `usingKnownHelper
      ensures State() == CodeGen.NextStack(old(State())).(known := false)
      ensures var to := old(stackSlot) + 1;
              source == old(source) + [if old(usingKnownHelper) then CallKnown(to, id, params, useTmp)
                                       else if original.Some? then CallMustache(to, id, params, useTmp, original.value)
                                       else CallBlock(to, id, params)]
    {
      var to := NextStack();
      if usingKnownHelper {
        source := source + [CallKnown(to, id, params, useTmp)];
      } else if original.Some? {
        source := source + [CallMustache(to, id, params, useTmp, original.value)];
      } else {
        source := source + [CallBlock(to, id, params)];
      }
      usingKnownHelper := false;
    }

    // ----- one method for each instruction

    method AppendEscapedOp(ghost rest: seq<Op>)
      requires 0 <= i < |opcodes| && i + 1 <= |opcodes| && opcodes[i + 1..] == Encode(rest) && AllComplete(rest)
      modifies `i, `stackSlot, `source
      ensures stackSlot == old(stackSlot) - 1
      ensures var fuses := rest != [] && rest[0].AppendContent?;
              && i == old(i) + (if fuses then |Cells(rest[0])| else 0)
              && source == old(source) + [BufferEscaped(old(stackSlot), if fuses then Some(rest[0].text) else None)]
    {
      var next := NextOpcode(opcodes, i + 1);
      PeekMeaning(opcodes, i + 1, rest);
      var extra: Option<string> := None;
      if next.Instruction? && next.code == 1 {
        extra := TextOf(next.codes[0]);
        i := i + 2;  // the length of a decoded pair of name and operands
      }
      var slot := PopStack();
      source := source + [BufferEscaped(slot, extra)];
    }

    method LookupWithHelpersOp(name: Option<string>, isScoped: bool)
      modifies `stackSlot, `stackVars, `source, `usingKnownHelper
      ensures var g := GenLookup(options, name, isScoped, old(State()));
              State() == g.st && source == old(source) + g.code
    {
      if name.Some? && name.value != "" {
        var top := NextStack();
        usingKnownHelper := false;
        if !isScoped && name.value in options.known {
          source := source + [LoadHelper(top, name.value)];
          usingKnownHelper := true;
        } else if isScoped || options.knownOnly {
          source := source + [LoadContext(top, lastContext, name.value)];
        } else {
          source := source + [LoadEither(top, lastContext, name.value)];
        }
      } else {
        var top := NextStack();
        source := source + [LoadDepth(top, lastContext)];
      }
    }

    /** Executes any instruction but `appendEscaped`. */
    method Execute(code: int, codes: seq<Cell>, ghost op: Op)
      requires !op.DeclareInverse? && !op.AppendEscaped? && Complete(op) && code == CodeOf(op) && codes == Operands(op)
      modifies `stackSlot, `stackVars, `source, `usingKnownHelper, `lastContext
      ensures var g := GenOp(options, kids, op, old(State()));
              State() == g.st && source == old(source) + g.code
    {
      hide GenCall, GenLookup;
      match code
      case 1 => source := source + [BufferText(codes[0].s)];
      case 2 => lastContext := NumberOf(codes[0]);
      case 3 => LookupWithHelpersOp(TextOf(codes[0]), codes[1].b);
      case 4 => source := source + [LoadProp(stackSlot, codes[0].s)];
      case 5 =>
        var slot := PopStack();
        source := source + [BufferSlot(slot)];
      case 6 => PopulateParams(NumberOf(codes[0]), None, None, codes[2].b, Some(codes[1].s));
      case 8 =>
        var slot := NextStack();
        source := source + [LoadString(slot, codes[0].s)];
      case 11 =>
        PopulateParams(NumberOf(codes[1]), Some(ExprOf(kids, GuidOf(codes[0]))), Some(ExprOf(kids, inverse)),
                       codes[2].b, None);
      case 12 =>
        var slot := PopStack();
        var to := NextStack();
        source := source + [CallPartial(to, codes[0].s)];
      case 13 =>
        var slot := NextStack();
        source := source + [LoadLiteral(slot, codes[0])];
      case 15 =>
        var value := PopStack();
        source := source + [SetField(stackSlot, codes[0].s, value)];
      case _ =>
        var c := NextStack();
        var s := NextStack();
        source := source + [LoadDepth(c, lastContext), LoadString(s, codes[0].s)];
    }

    // ----- whole programs

    /** One turn of the main loop: reads the instruction at `i` and moves behind it. */
    method Turn(ghost ops: seq<Op>)
      requires ops != [] && AllComplete(ops) && 0 <= i < |opcodes| && opcodes[i..] == Encode(ops)
      modifies `i, `stackSlot, `stackVars, `source, `usingKnownHelper, `lastContext, `inverse
      ensures i == old(i) + |Cells(ops[0])| + (if Fuses(ops) then |Cells(ops[1])| else 0)
      ensures Fuses(ops) ==>
        State() == CodeGen.PopStack(old(State()), 1) &&
            source == old(source) + [BufferEscaped(old(stackSlot), Some(ops[1].text))]
      ensures !Fuses(ops) ==>
        var g := GenOp(options, kids, ops[0], old(State()));
        State() == g.st && source == old(source) + g.code
    {
      var opcode := NextOpcode(opcodes, i);
      PeekMeaning(opcodes, i, ops);
      CellsDrop(opcodes, i, ops);
      ghost var op := ops[0];
      hide Encode, NextOpcode, GenLookup, GenCall;
      match opcode {
        case Declaration(name, value) =>
          i := i + 2;
          inverse := GuidOf(value);
        case Instruction(code, codes) =>
          i := i + |codes|;
          if code == 7 {
            AppendEscapedOp(ops[1..]);
          } else {
            Execute(code, codes, op);
          }
        case Unknown => assert false;
      }
      i := i + 1;
    }

    /** The loop over the opcodes. */
    method GenerateCode(ghost ops: seq<Op>)
      requires opcodes == Encode(ops) && AllComplete(ops) && State() == START_STATE && source == []
      modifies `i, `stackSlot, `stackVars, `source, `usingKnownHelper, `lastContext, `inverse
      ensures Gen(source, State()) == GenFused(options, kids, ops, START_STATE)
    {
      hide GenFused, Encode, GenOp;
      i := 0;
      ghost var left := ops;
      assert opcodes[0..] == opcodes;
      ghost var all := GenFused(options, kids, ops, START_STATE);
      assert [] + all.code == all.code;
      while i < |opcodes|
        invariant 0 <= i <= |opcodes| && opcodes[i..] == Encode(left) && AllComplete(left)
        invariant all.st == GenFused(options, kids, left, State()).st
        invariant all.code == source + GenFused(options, kids, left, State()).code
      {
        EncodeNonEmpty(left);
        CellsDropTurn(opcodes, i, left);
        GenAdvance(options, kids, left, State(), source);
        hide Cells, Fuses;
        Turn(left);
        left := if Fuses(left) then left[2..] else left[1..];
      }
      EncodeNonEmpty(left);
      assert source + [] == source;
    }

    /** Compiles an environment; the object must be new. */
    method Compile(env: Env, context: SharedContext, isChild: bool, ghost u: Unit) returns (fn: SlotMachine.Fn)
      requires env == EnvOfUnit(u) && Legible(u) && State() == START_STATE && source == []
      requires this as object != context
      modifies this, context
      ensures context.programs == FillUpTo(options, u.kids, |u.kids|, old(context.programs))
      ensures fn == FnOf(options, u, |old(context.programs)|, if isChild then ChildParams(u.depths, u.usePartial)
                         else u.depths)
      decreases u, 1
    {
      ghost var index := |context.programs|;
      CompileChildren(env.children, context, u.kids);
      opcodes := env.opcodes;
      GenerateCode(u.ops);
      var depths := env.depths;
      var names := (if isChild then 2 else 5) + |depths|;
      if names == 4 && !env.usePartial {
        depths := depths[..|depths| - 1];
      }
      fn := SlotMachine.Fn(depths, env.isSimple, stackVars, source);
    }

    /** Compiles a nested program into the place behind the placeholder that reserves its name. */
    method CompileChild(child: Env, context: SharedContext, ghost u: Unit) returns (kid: Kid)
      requires child == EnvOfUnit(u) && Legible(u)
      modifies context
      ensures var before := old(context.programs);
              var index := |before| + 1;
              && context.programs == Place(FillUpTo(options, u.kids, |u.kids|, before + [None]), index,
                                           ChildFn(options, u, index))
              && kid == Kid(index, u.depths)
      decreases u, 2
    {
      hide FillUpTo, FnOf, Place;
      var compiler := new JavaScriptCompiler(options);
      context.programs := context.programs + [None];
      var index := |context.programs|;
      kid := Kid(index, child.depths);
      var fn := compiler.Compile(child, context, true, u);
      context.programs := Place(context.programs, index, fn);
    }

    method CompileNext(child: Env, context: SharedContext, ghost us: seq<Unit>, ghost k: nat,
                       ghost start: seq<Option<SlotMachine.Fn>>) returns (kid: Kid)
      requires k < |us| && child == EnvOfUnit(us[k]) && Legible(us[k])
      requires context.programs == FillUpTo(options, us, k, start)
      modifies context
      ensures context.programs == FillUpTo(options, us, k + 1, start)
      ensures kid == KidsOf(us, |start|)[k]
      decreases us[k], 3
    {
      hide FillUpTo, LengthUpTo, ChildFn, Place, KidsOf, EnvOfUnit;
      FillUnfold(options, us, k + 1, start);
      kid := CompileChild(child, context, us[k]);
    }

    method CompileChildren(children: seq<Env>, context: SharedContext, ghost us: seq<Unit>)
      requires Describes(children, us) && forall u <- us :: Legible(u)
      requires this as object != context
      modifies `kids, context
      ensures context.programs == FillUpTo(options, us, |us|, old(context.programs))
      ensures kids == KidsOf(us, |old(context.programs)|)
      decreases us, 0
    {
      hide Describes, FillUpTo, LengthUpTo, KidsOf, EnvOfUnit;
      ghost var start := context.programs;
      ghost var named := KidsOf(us, |start|);
      FillStarts(options, children, us, start);
      kids := [];
      var k := 0;
      while k < |children|
        invariant 0 <= k <= |children| && context.programs == FillUpTo(options, us, k, start)
        invariant kids == named[..k]
      {
        Snoc(named, k);
        DescribesAt(children, us, k);
        var kid := CompileNext(children[k], context, us, k, start);
        kids := kids + [kid];
        k := k + 1;
      }
    }
  }

  lemma FillStarts(o: Options, children: seq<Env>, us: seq<Unit>, programs: seq<Option<SlotMachine.Fn>>)
    requires Describes(children, us)
    ensures |children| == |us| == |KidsOf(us, |programs|)| && FillUpTo(o, us, 0, programs) == programs
  {
  }

  lemma Snoc<T>(s: seq<T>, k: nat)
    requires k < |s|
    ensures s[..k + 1] == s[..k] + [s[k]]
  {
  }

  lemma FillUnfold(o: Options, us: seq<Unit>, n: nat, programs: seq<Option<SlotMachine.Fn>>)
    requires 0 < n <= |us|
    ensures var u, before := us[n - 1], FillUpTo(o, us, n - 1, programs);
            var index := |before| + 1;
            && FillUpTo(o, us, n, programs) == Place(FillUpTo(o, u.kids, |u.kids|, before + [None]), index,
                ChildFn(o, u, index))
            && KidsOf(us, |programs|)[n - 1] == Kid(index, u.depths)
  {
    hide ChildFn, EnvOfUnit, LengthUpTo;
  }

  lemma EncodeNonEmpty(ops: seq<Op>)
    ensures Encode(ops) == [] <==> ops == []
    ensures forall o: Options, kids: seq<Kid>, st :: ops == [] ==> GenFused(o, kids, ops, st) == Gen([], st)
  {
  }

  /** One step of the generator on the whole list of instructions. */
  lemma GenStep(o: Options, kids: seq<Kid>, ops: seq<Op>, st: GenState)
    requires ops != []
    ensures Fuses(ops) ==>
      var h := GenFused(o, kids, ops[2..], CodeGen.PopStack(st, 1));
      && GenFused(o, kids, ops, st) == Gen([BufferEscaped(st.slot, Some(ops[1].text))] + h.code, h.st)
      && ops[1..][1..] == ops[2..]
    ensures !Fuses(ops) ==>
      var g := GenOp(o, kids, ops[0], st);
      var h := GenFused(o, kids, ops[1..], g.st);
      GenFused(o, kids, ops, st) == Gen(g.code + h.code, h.st)
  {
  }

  lemma GenAdvance(o: Options, kids: seq<Kid>, ops: seq<Op>, st: GenState, before: seq<Instr>)
    requires ops != []
    ensures Fuses(ops) ==>
      var h := GenFused(o, kids, ops[2..], CodeGen.PopStack(st, 1));
      && GenFused(o, kids, ops, st).st == h.st
      && before + GenFused(o, kids, ops, st).code == before + [BufferEscaped(st.slot, Some(ops[1].text))] + h.code
    ensures !Fuses(ops) ==>
      var g := GenOp(o, kids, ops[0], st);
      var h := GenFused(o, kids, ops[1..], g.st);
      && GenFused(o, kids, ops, st).st == h.st
      && before + GenFused(o, kids, ops, st).code == before + g.code + h.code
  {
    GenStep(o, kids, ops, st);
    if Fuses(ops) {
      Collections.Concat2(before, [BufferEscaped(st.slot, Some(ops[1].text))],
                          GenFused(o, kids, ops[2..], CodeGen.PopStack(st, 1)).code);
    } else {
      var g := GenOp(o, kids, ops[0], st);
      Collections.Concat2(before, g.code, GenFused(o, kids, ops[1..], g.st).code);
    }
  }

  lemma CellsDropTurn(cells: seq<Cell>, k: nat, ops: seq<Op>)
    requires k <= |cells| && cells[k..] == Encode(ops) && ops != []
    ensures var n := |Cells(ops[0])| + (if Fuses(ops) then |Cells(ops[1])| else 0);
            k + n <= |cells| && cells[k + n..] == Encode(if Fuses(ops) then ops[2..] else ops[1..])
  {
    CellsDrop(cells, k, ops);
    if Fuses(ops) {
      assert ops[1..][1..] == ops[2..];
      CellsDrop(cells, k + |Cells(ops[0])|, ops[1..]);
    }
  }

  lemma CellsDrop(cells: seq<Cell>, k: nat, ops: seq<Op>)
    requires k <= |cells| && cells[k..] == Encode(ops) && ops != []
    ensures k + |Cells(ops[0])| <= |cells| && cells[k + |Cells(ops[0])|..] == Encode(ops[1..])
  {
    assert cells[k..] == Cells(ops[0]) + Encode(ops[1..]);
    assert cells[k + |Cells(ops[0])|..] == cells[k..][|Cells(ops[0])|..];
  }

  lemma PeekMeaning(cells: seq<Cell>, k: nat, rest: seq<Op>)
    requires k <= |cells| && cells[k..] == Encode(rest) && AllComplete(rest)
    ensures NextOpcode(cells, k) == if rest == [] then Unknown else Meaning(rest[0])
  {
    if rest != [] {
      var before, after := cells[..k], Encode(rest[1..]);
      assert Encode(rest) == Cells(rest[0]) + after;
      hide Encode, Cells, NextOpcode, Meaning;
      assert cells == before + cells[k..];
      Collections.Concat2(before, Cells(rest[0]), after);
      DecodeOne(before, rest[0], after);
    } else {
      assert |cells| == k;
    }
  }

  lemma {:induction false} EncodableLegible(o: Options, p: Program)
    requires Encodable(o, p)
    ensures Legible(UnitOf(o, p))
    decreases p
  {
    hide OpsOf, Needs, UsesPartial, Encodable;
    OpsComplete(o, p, |p.statements|);
    assert OpsOf(o, p) == OpsUpTo(o, p.statements, |p.statements|) by { OpsAre(o, p); }
    forall k | 0 <= k < |Nested(p)|
      ensures Legible(UnitOf(o, Nested(p)[k]))
    {
      NestedSmaller(p, |p.statements|, k);
      TemplateProof.NestedEncodable(o, p, |p.statements|, k);
      EncodableLegible(o, Nested(p)[k]);
    }
  }

  lemma OpsAre(o: Options, p: Program)
    ensures OpsOf(o, p) == OpsUpTo(o, p.statements, |p.statements|)
  {
  }

  /** `Handlebars.compile` behind the parser: both passes. */
  method CompileTemplate(o: Options, p: Program) returns (c: TemplateProof.Compiled)
    requires Encodable(o, p)
    ensures c == TemplateProof.CompiledOf(o, UnitOf(o, p))
  {
    var env := CompilerObject.CompileEnvironment(o, p);
    EnvOfUnitOf(o, p);
    EncodableLegible(o, p);
    var compiler := new JavaScriptCompiler(o);
    var context := new SharedContext();
    var main := compiler.Compile(env, context, false, UnitOf(o, p));
    c := TemplateProof.Compiled(main, context.programs);
  }
}
