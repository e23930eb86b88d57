/** `Handlebars.Compiler`: the object that runs the first pass by pushing cells onto its opcode array. */
module CompilerObject {
  import opened JsRuntime
  import opened Collections
  import opened TemplateAst
  import TemplateEval
  import opened Opcodes
  import opened FirstPass

  ghost function EnvsOf(o: Options, qs: seq<Program>): seq<Env> {
    seq(|qs|, k requires 0 <= k < |qs| => EnvOf(o, qs[k]))
  }

  lemma EnvsStep(o: Options, p: Program, n: nat)
    requires n < |p.statements|
    ensures EnvsUpTo(o, p, n + 1) == EnvsUpTo(o, p, n) + EnvsOf(o, NestedIn(p.statements[n]))
  {
    var a, b := NestedUpTo(p.statements, n), NestedIn(p.statements[n]);
    assert NestedUpTo(p.statements, n + 1) == a + b;
    hide EnvOf, NestedUpTo, NestedIn;
  }

  lemma NoStatements(o: Options, p: Program)
    ensures OpsUpTo(o, p.statements, 0) == [] && EnvsUpTo(o, p, 0) == [] && NeedsUpTo(o, p, 0) == {} &&
            !UsesPartialUpTo(p, 0)
  {
  }

  /** What one more statement adds. */
  lemma UpToStep(o: Options, p: Program, n: nat)
    requires n < |p.statements|
    ensures var s := p.statements[n];
            && OpsUpTo(o, p.statements, n + 1) == OpsUpTo(o, p.statements, n) + StatementOps(o, s, |EnvsUpTo(o, p, n)|)
            && EnvsUpTo(o, p, n + 1) == EnvsUpTo(o, p, n) + EnvsOf(o, NestedIn(s))
            && NeedsUpTo(o, p, n + 1) == NeedsUpTo(o, p, n) + StatementDepths(o, s)
            && UsesPartialUpTo(p, n + 1) == (UsesPartialUpTo(p, n) || StatementUsesPartial(s))
  {
    EnvsStep(o, p, n);
    assert |EnvsUpTo(o, p, n)| == |NestedUpTo(p.statements, n)|;
    hide EnvsUpTo, EnvsOf, StatementOps, StatementDepths, StatementUsesPartial, NestedUpTo, NestedIn;
  }

  lemma ToSetAppend(s: seq<nat>, d: nat)
    ensures ToSet(s + [d]) == ToSet(s) + {d}
  {
    assert forall x :: x in s + [d] <==> x in s || x == d;
  }

  lemma OneOutAdd(s: set<nat>, d: nat)
    ensures OneOut(s + {d}) == OneOut(s) + (if d < 2 then {} else {d - 1})
  {
    if d >= 2 {
      assert d in s + {d};
    }
  }

  lemma SortedDepths(o: Options, p: Program, list: seq<nat>)
    requires forall i, j :: 0 <= i < j < |list| ==> list[i] != list[j]
    requires ToSet(list) == Needs(o, p)
    ensures Sorted(list) == Ascending(Needs(o, p))
  {
    SortedCorrect(list);
    assert ToSet(Sorted(list)) == ToSet(list);
    AscendingUnique(Sorted(list), Ascending(Needs(o, p)));
  }

  function Given(v: Option<Cell>): seq<Cell> {
    if v.Some? then [v.value] else []
  }

  class Compiler {
    const options: Options
    var opcodes: seq<Cell>
    var children: seq<Env>
    var guid: nat
    var depths: seq<nat>
    var usePartial: bool

    ghost var ops: seq<Op>  // the instructions that `opcodes` spells
    ghost var noted: set<nat>  // the members of `depths`

    ghost predicate Valid()
      reads this
    {
      && guid == |children|
      && opcodes == Encode(ops)
      && noted == ToSet(depths)
      && (forall i, j :: 0 <= i < j < |depths| ==> depths[i] != depths[j])
    }

    constructor (options: Options)
      ensures Valid() && this.options == options
      ensures ops == [] && children == [] && noted == {} && !usePartial
    {
      this.options := options;
      opcodes, children, guid, depths, usePartial := [], [], 0, [], false;
      ops, noted := [], {};
    }

    /** Pushes an opcode and its operands, leaving out the undefined ones. */
    method Opcode(code: int, v1: Option<Cell>, v2: Option<Cell>, v3: Option<Cell>, ghost op: Op)
      requires Valid() && Cells(op) == [Num(code)] + Given(v1) + Given(v2) + Given(v3)
      modifies `opcodes, `ops
      ensures Valid() && ops == old(ops) + [op]
    {
      hide Encode;
      EncodeSnoc(ops, op);
      opcodes := opcodes + [Num(code)];
      if v1.Some? { opcodes := opcodes + [v1.value]; }
      if v2.Some? { opcodes := opcodes + [v2.value]; }
      if v3.Some? { opcodes := opcodes + [v3.value]; }
      assert opcodes == old(opcodes) + Cells(op);
      ops := ops + [op];
    }

    method DeclareInverseAs(value: Option<nat>)
      requires Valid()
      modifies `opcodes, `ops
      ensures Valid() && ops == old(ops) + [DeclareInverse(value)]
    {
      opcodes := opcodes + [Str("DECLARE")];
      opcodes := opcodes + [Str("inverse")];
      opcodes := opcodes + [GuidCell(value)];
      EncodeSnoc(ops, DeclareInverse(value));
      ops := ops + [DeclareInverse(value)];
    }

    method AddDepth(depth: nat)
      requires Valid()
      modifies `depths, `noted
      ensures Valid() && noted == old(noted) + ({depth} - {0})
    {
      if depth == 0 { return; }
      if depth !in depths {
        ToSetAppend(depths, depth);
        depths := depths + [depth];
        noted := noted + {depth};
      } else {
        assert depth in ToSet(depths);
      }
    }

    method AcceptId(id: IdNode)
      requires Valid()
      modifies `opcodes, `ops, `depths, `noted
      ensures Valid() && noted == old(noted) + IdDepths(id)
      ensures ops == old(ops) + IdOps(id)
    {
      hide Encode, Cells, LookupOps;
      AddDepth(id.depth);
      EmitHead(id);
      EmitLookups(id);
      Concat2(old(ops), [GetContext(id.depth), LookupWithHelpers(Head(id), id.isScoped)], LookupOps(Tail(id)));
    }

    method EmitHead(id: IdNode)
      requires Valid()
      modifies `opcodes, `ops
      ensures Valid() && ops == old(ops) + [GetContext(id.depth), LookupWithHelpers(Head(id), id.isScoped)]
    {
      hide Encode;
      Opcode(2, Some(Num(id.depth)), None, None, GetContext(id.depth));
      Opcode(3, Some(TextCell(Head(id))), Some(Flag(id.isScoped)), None, LookupWithHelpers(Head(id), id.isScoped));
    }

    /** One lookup for each part of the path after the first. */
    method EmitLookups(id: IdNode)
      requires Valid()
      modifies `opcodes, `ops
      ensures Valid() && ops == old(ops) + LookupOps(Tail(id))
    {
      hide Encode;
      ghost var names := Tail(id);
      var i := 1;
      while i < |id.parts|
        invariant 1 <= i && (|id.parts| == 0 ==> i == 1) && (|id.parts| > 0 ==> i <= |id.parts|)
        invariant Valid()
        invariant ops == old(ops) + LookupOps(names[..i - 1])
      {
        Opcode(4, Some(Str(id.parts[i])), None, None, Lookup(id.parts[i]));
        assert names[..i][..i - 1] == names[..i - 1];
        i := i + 1;
      }
      assert names[..i - 1] == names;
    }

    method AcceptValue(param: Param)
      requires Valid()
      modifies `opcodes, `ops, `depths, `noted
      ensures Valid() && noted == old(noted) + ValueDepths(param)
      ensures ops == old(ops) + ValueOps(param)
    {
      match param
      case IdParam(id) => AcceptId(id);
      case StringParam(s) => Opcode(8, Some(Str(s)), None, None, PushString(s));
      case IntegerParam(text) => Opcode(13, Some(Str(text)), None, None, Push(Str(text)));
      case BooleanParam(b) => Opcode(13, Some(Flag(b)), None, None, Push(Flag(b)));
    }

    method PushParam(param: Param)
      requires Valid()
      modifies `opcodes, `ops, `depths, `noted
      ensures Valid() && noted == old(noted) + ParamDepths(options, param)
      ensures ops == old(ops) + ParamOps(options, param)
    {
      hide Encode, ValueOps, ValueDepths;
      if options.stringParams {
        if TemplateEval.ParamDepth(param) != 0 {
          AddDepth(TemplateEval.ParamDepth(param));
        }
        var text := TemplateEval.ParamString(param);
        Opcode(2, Some(Num(TemplateEval.ParamDepth(param))), None, None, GetContext(TemplateEval.ParamDepth(param)));
        Opcode(16, if text.Some? then Some(Str(text.value)) else None, None, None, PushStringParam(text));
      } else {
        AcceptValue(param);
      }
    }

    method PushParams(params: seq<Param>)
      requires Valid()
      modifies `opcodes, `ops, `depths, `noted
      ensures Valid() && noted == old(noted) + ParamsDepths(options, params)
      ensures ops == old(ops) + ParamsOps(options, params)
      ensures options.stringParams ==> forall i :: 0 <= i < |params| ==>
                Spells(ops, |old(ops)| + 2 * (|params| - 1 - i), params[i])
    {
      hide Encode, ParamOps, ParamDepths, Spells;
      var i := |params|;
      while i > 0
        invariant 0 <= i <= |params|
        invariant Valid() && noted == old(noted) + ParamsDepths(options, params[i..])
        invariant ops == old(ops) + ParamsOps(options, params[i..])
      {
        i := i - 1;
        PushParam(params[i]);
        assert params[i..][1..] == params[i + 1..];
        Concat2(old(ops), ParamsOps(options, params[i + 1..]), ParamOps(options, params[i]));
      }
      assert params[0..] == params;
      if options.stringParams {
        ParamsSpelled(options, params);
        forall i | 0 <= i < |params|
          ensures Spells(ops, |old(ops)| + 2 * (|params| - 1 - i), params[i])
        {
          SpelledAfter(old(ops), ParamsOps(options, params), 2 * (|params| - 1 - i), params[i]);
        }
      }
    }

    method AcceptHash(pairs: seq<Pair>)
      requires Valid()
      modifies `opcodes, `ops, `depths, `noted
      ensures Valid() && noted == old(noted) + PairsDepths(pairs)
      ensures ops == old(ops) + HashOps(Some(pairs))
    {
      hide Encode, ValueOps, ValueDepths;
      Opcode(13, Some(Str("{}")), None, None, Push(Str("{}")));
      label Start:
      var i := 0;
      while i < |pairs|
        invariant 0 <= i <= |pairs|
        invariant Valid() && noted == old(noted) + PairsDepths(pairs[..i])
        invariant ops == old@Start(ops) + PairsOps(pairs[..i])
      {
        var pair := pairs[i];
        AcceptValue(pair.value);
        Opcode(15, Some(Str(pair.key)), None, None, AssignToHash(pair.key));
        assert pairs[..i + 1][..i] == pairs[..i];
        Concat3(old@Start(ops), PairsOps(pairs[..i]), ValueOps(pair.value), [AssignToHash(pair.key)]);
        Concat2(PairsOps(pairs[..i]), ValueOps(pair.value), [AssignToHash(pair.key)]);
        i := i + 1;
      }
      assert pairs[..i] == pairs;
      Concat2(old(ops), [Push(Str("{}"))], PairsOps(pairs));
    }

    method SetupStackForMustache(m: Mustache)
      requires Valid()
      modifies `opcodes, `ops, `depths, `noted
      ensures Valid() && noted == old(noted) + MustacheDepths(options, m)
      ensures ops == old(ops) + SetupOps(options, m)
    {
      hide Encode, ParamsOps, PairsOps, IdOps, ParamsDepths, PairsDepths, IdDepths;
      PushParams(m.params);
      if m.hash.Some? {
        AcceptHash(m.hash.value);
      }
      AcceptId(m.id);
      Concat3(old(ops), ParamsOps(options, m.params), HashOps(m.hash), IdOps(m.id));
    }

    method AcceptMustache(m: Mustache)
      requires Valid()
      modifies `opcodes, `ops, `depths, `noted
      ensures Valid() && noted == old(noted) + MustacheDepths(options, m)
      ensures ops == old(ops) + OutputOps(options, m)
    {
      hide Encode, SetupOps, MustacheDepths;
      SetupStackForMustache(m);
      var original, size, hasHash := m.id.original, |m.params|, m.hash.Some?;
      Opcode(6, Some(Num(size)), Some(Str(original)), Some(Flag(hasHash)), InvokeMustache(size, original, hasHash));
      if m.escaped {
        Opcode(7, None, None, None, AppendEscaped);
      } else {
        Opcode(5, None, None, None, Append);
      }
      Concat3(old(ops), SetupOps(options, m), [InvokeMustache(size, original, hasHash)],
              [if m.escaped then AppendEscaped else Append]);
    }

    method AcceptPartial(name: string, context: Option<IdNode>)
      requires Valid()
      modifies `opcodes, `ops, `depths, `noted, `usePartial
      ensures Valid() && usePartial
      ensures noted == old(noted) + (if context.Some? then IdDepths(context.value) else {})
      ensures ops == old(ops) + PartialOps(name, context)
    {
      hide Encode, IdOps, IdDepths;
      usePartial := true;
      if context.Some? {
        AcceptId(context.value);
      } else {
        Opcode(13, Some(Str("depth0")), None, None, Push(Str("depth0")));
      }
      Opcode(12, Some(Str(name)), None, None, InvokePartial(name));
      Opcode(5, None, None, None, Append);
      ghost var first := if context.Some? then IdOps(context.value) else [Push(Str("depth0"))];
      Concat3(old(ops), first, [InvokePartial(name)], [Append]);
      Concat2(first, [InvokePartial(name)], [Append]);
    }

    /** Notes the depths of a nested program, one program further in. */
    method AddDepthsOf(list: seq<nat>)
      requires Valid()
      modifies `depths, `noted
      ensures Valid() && noted == old(noted) + OneOut(ToSet(list))
    {
      var i := 0;
      while i < |list|
        invariant 0 <= i <= |list|
        invariant Valid() && noted == old(noted) + OneOut(ToSet(list[..i]))
      {
        var depth := list[i];
        assert list[..i + 1] == list[..i] + [depth];
        ToSetAppend(list[..i], depth);
        OneOutAdd(ToSet(list[..i]), depth);
        if depth >= 2 {
          AddDepth(depth - 1);
        }
        i := i + 1;
      }
      assert list[..i] == list;
    }

    /** Compiles a nested program with a compiler of its own. */
    method CompileProgram(q: Program) returns (g: nat)
      requires Valid()
      modifies this
      ensures Valid() && ops == old(ops)
      ensures g == old(guid) && children == old(children) + [EnvOf(options, q)]
      ensures noted == old(noted) + OneOut(Needs(options, q))
      ensures usePartial == (old(usePartial) || UsesPartial(q))
      decreases q, 2
    {
      var inner := new Compiler(options);
      var result := inner.AcceptProgram(q);
      g := guid;
      guid := guid + 1;
      usePartial := usePartial || result.usePartial;
      children := children + [result];
      AddDepthsOf(result.depths);
    }

    method AcceptBlock(m: Mustache, q: Program)
      requires Valid()
      modifies this
      ensures Valid() && ops == old(ops) + BlockOps(options, m, q, old(guid))
      ensures children == old(children) + EnvsOf(options, NestedIn(Block(m, q)))
      ensures noted == old(noted) + StatementDepths(options, Block(m, q))
      ensures usePartial == (old(usePartial) || StatementUsesPartial(Block(m, q)))
      decreases q, 3
    {
      hide Encode, SetupOps, MustacheDepths, Needs, OneOut, UsesPartial, EnvOf;
      SetupStackForMustache(m);
      var programGuid := CompileProgram(q);
      ghost var declare := if q.inverse.Some? then [DeclareInverse(Some(programGuid + 1))] else [];
      if q.inverse.Some? {
        assert q.inverse.value < q;
        var inverseGuid := CompileProgram(q.inverse.value);
        DeclareInverseAs(Some(inverseGuid));
      }
      assert ops == old(ops) + SetupOps(options, m) + declare;
      EmitBlockCall(programGuid, |m.params|, m.hash.Some?);
      Concat3(old(ops), SetupOps(options, m), declare,
              [InvokeProgram(Some(programGuid), |m.params|, m.hash.Some?), DeclareInverse(None), Append]);
    }

    /** The call of a block, after which no inverse is declared. */
    method EmitBlockCall(guid: nat, size: nat, hasHash: bool)
      requires Valid()
      modifies `opcodes, `ops
      ensures Valid() && ops == old(ops) + [InvokeProgram(Some(guid), size, hasHash), DeclareInverse(None), Append]
    {
      hide Encode;
      Opcode(11, Some(Num(guid)), Some(Num(size)), Some(Flag(hasHash)), InvokeProgram(Some(guid), size, hasHash));
      DeclareInverseAs(None);
      Opcode(5, None, None, None, Append);
    }

    method AcceptInverse(m: Mustache, q: Program)
      requires Valid()
      modifies this
      ensures Valid() && ops == old(ops) + InverseOps(options, m, old(guid))
      ensures children == old(children) + EnvsOf(options, NestedIn(Inverse(m, q)))
      ensures noted == old(noted) + StatementDepths(options, Inverse(m, q))
      ensures usePartial == (old(usePartial) || StatementUsesPartial(Inverse(m, q)))
      decreases q, 3
    {
      hide Encode, SetupOps, MustacheDepths, Needs, OneOut, UsesPartial, EnvOf;
      SetupStackForMustache(m);
      var programGuid := CompileProgram(q);
      DeclareInverseAs(Some(programGuid));
      var size, hasHash := |m.params|, m.hash.Some?;
      Opcode(11, Some(NullCell), Some(Num(size)), Some(Flag(hasHash)), InvokeProgram(None, size, hasHash));
      Opcode(5, None, None, None, Append);
      Concat3(old(ops) + SetupOps(options, m), [DeclareInverse(Some(programGuid))],
              [InvokeProgram(None, size, hasHash)], [Append]);
      Concat2(old(ops), SetupOps(options, m),
              [DeclareInverse(Some(programGuid)), InvokeProgram(None, size, hasHash), Append]);
    }

    method AcceptStatement(s: Statement)
      requires Valid()
      modifies this
      ensures Valid() && ops == old(ops) + StatementOps(options, s, old(guid))
      ensures children == old(children) + EnvsOf(options, NestedIn(s))
      ensures noted == old(noted) + StatementDepths(options, s)
      ensures usePartial == (old(usePartial) || StatementUsesPartial(s))
      decreases s
    {
      match s
      case Content(text) => Opcode(1, Some(Str(text)), None, None, AppendContent(text));
      case Comment =>
      case Output(m) => AcceptMustache(m);
      case Partial(name, context) => AcceptPartial(name, context);
      case Block(m, q) => AcceptBlock(m, q);
      case Inverse(m, q) => AcceptInverse(m, q);
    }

    method AcceptStatements(p: Program)
      requires Valid()
      requires children == [] && noted == {} && !usePartial && ops == []
      modifies this
      ensures Valid() && ops == OpsOf(options, p)
      ensures children == EnvsUpTo(options, p, |p.statements|)
      ensures noted == Needs(options, p) && usePartial == UsesPartial(p)
      decreases p, 0
    {
      NoStatements(options, p);
      hide Encode, ToSet, OpsUpTo, EnvsUpTo, NeedsUpTo, UsesPartialUpTo, StatementOps, StatementDepths,
           StatementUsesPartial, EnvsOf, NestedIn;
      var i := 0;
      while i < |p.statements|
        invariant 0 <= i <= |p.statements|
        invariant Valid() && ops == OpsUpTo(options, p.statements, i)
        invariant children == EnvsUpTo(options, p, i)
        invariant noted == NeedsUpTo(options, p, i)
        invariant usePartial == UsesPartialUpTo(p, i)
      {
        assert p.statements[i] < p;
        UpToStep(options, p, i);
        AcceptStatement(p.statements[i]);
        i := i + 1;
      }
    }

    /** Compiles a whole program; the object must be new. */
    method AcceptProgram(p: Program) returns (env: Env)
      requires Valid()
      requires children == [] && noted == {} && !usePartial
      modifies this
      ensures env == EnvOf(options, p)
      decreases p, 1
    {
      opcodes, ops := [], [];
      AcceptStatements(p);
      SortedDepths(options, p, depths);
      env := Env(opcodes, children, Sorted(depths), |p.statements| == 1, usePartial);
    }
  }

  /** `new Handlebars.Compiler().compile(program, options)` */
  method CompileEnvironment(o: Options, p: Program) returns (env: Env)
    ensures env == EnvOf(o, p)
  {
    var c := new Compiler(o);
    env := c.AcceptProgram(p);
  }
}
