/**
 The first compiler pass: from the syntax tree to the flat opcode array, the nested environments and
 the list of enclosing contexts that a program needs.
 */
module FirstPass {
  import opened JsRuntime
  import opened TemplateAst
  import TemplateEval
  import opened Opcodes
  import JsText

  /** What the first pass leaves behind for one program. */
  datatype Env = Env(opcodes: seq<Cell>, children: seq<Env>, depths: seq<nat>, isSimple: bool, usePartial: bool)

  // ----- the instructions of each kind of node

  function LookupOps(names: seq<string>): seq<Op> {
    if names == [] then [] else LookupOps(names[..|names| - 1]) + [Lookup(names[|names| - 1])]
  }

  function IdOps(id: IdNode): seq<Op> {
    [GetContext(id.depth), LookupWithHelpers(Head(id), id.isScoped)] + LookupOps(Tail(id))
  }

  function ValueOps(param: Param): seq<Op> {
    match param
    case IdParam(id) => IdOps(id)
    case StringParam(s) => [PushString(s)]
    case IntegerParam(text) => [Push(Str(text))]
    case BooleanParam(b) => [Push(Flag(b))]
  }

  function ParamOps(o: Options, param: Param): seq<Op> {
    if o.stringParams then
      [GetContext(TemplateEval.ParamDepth(param)), PushStringParam(TemplateEval.ParamString(param))]
    else ValueOps(param)
  }

  function ParamsOps(o: Options, params: seq<Param>): seq<Op> {
    if params == [] then [] else ParamsOps(o, params[1..]) + ParamOps(o, params[0])
  }

  /**
   From instruction `k` on a param is passed as text: first its context, then its text, which for a path tells its
   names and their order, and which integers and booleans do not have.
   */
  ghost predicate Spells(ops: seq<Op>, k: nat, param: Param) {
    && k + 1 < |ops| && ops[k] == GetContext(if param.IdParam? then param.id.depth else 0)
    && ops[k + 1].PushStringParam?
    && match param
       case IdParam(id) =>
         && ops[k + 1].param.Some?
         && (JsText.Split(ops[k + 1].param.value, '.') == id.parts <==> TemplateEval.DotFree(id.parts))
       case StringParam(s) => ops[k + 1].param == Some(s)
       case _ => ops[k + 1].param.None?
  }

  /** With `stringParams` the params are passed as text, the last one first. */
  lemma {:induction false} ParamsSpelled(o: Options, params: seq<Param>)
    requires o.stringParams
    ensures |ParamsOps(o, params)| == 2 * |params|
    ensures forall i :: 0 <= i < |params| ==> Spells(ParamsOps(o, params), 2 * (|params| - 1 - i), params[i])
  {
    hide Spells;
    if params != [] {
      var rest, own := ParamsOps(o, params[1..]), ParamOps(o, params[0]);
      ParamsSpelled(o, params[1..]);
      forall i | 0 <= i < |params|
        ensures Spells(rest + own, 2 * (|params| - 1 - i), params[i])
      {
        if i == 0 {
          ParamSpelled(o, params[0], rest);
        } else {
          SpelledBefore(rest, own, 2 * (|params| - 1 - i), params[1..][i - 1]);
        }
      }
    }
  }

  lemma ParamSpelled(o: Options, param: Param, before: seq<Op>)
    requires o.stringParams
    ensures Spells(before + ParamOps(o, param), |before|, param)
  {
    if param.IdParam? {
      TemplateEval.DotsSplitExactly(param.id.parts);
    }
  }

  lemma SpelledBefore(ops: seq<Op>, more: seq<Op>, k: nat, param: Param)
    requires Spells(ops, k, param)
    ensures Spells(ops + more, k, param)
  {
  }

  lemma SpelledAfter(before: seq<Op>, ops: seq<Op>, k: nat, param: Param)
    requires Spells(ops, k, param)
    ensures Spells(before + ops, |before| + k, param)
  {
  }

  function PairsOps(pairs: seq<Pair>): seq<Op> {
    if pairs == [] then []
    else
      var last := pairs[|pairs| - 1];
      PairsOps(pairs[..|pairs| - 1]) + (ValueOps(last.value) + [AssignToHash(last.key)])
  }

  function HashOps(hash: Option<seq<Pair>>): seq<Op> {
    if hash.None? then [] else [Push(Str("{}"))] + PairsOps(hash.value)
  }

  function SetupOps(o: Options, m: Mustache): seq<Op> {
    ParamsOps(o, m.params) + HashOps(m.hash) + IdOps(m.id)
  }

  function OutputOps(o: Options, m: Mustache): seq<Op> {
    SetupOps(o, m) + [InvokeMustache(|m.params|, m.id.original, m.hash.Some?)] + [if m.escaped then AppendEscaped
        else Append]
  }

  function PartialOps(name: string, context: Option<IdNode>): seq<Op> {
    (if context.Some? then IdOps(context.value) else [Push(Str("depth0"))]) + [InvokePartial(name), Append]
  }

  function BlockOps(o: Options, m: Mustache, q: Program, guid: nat): seq<Op> {
    SetupOps(o, m)
    + (if q.inverse.Some? then [DeclareInverse(Some(guid + 1))] else [])
    + [InvokeProgram(Some(guid), |m.params|, m.hash.Some?), DeclareInverse(None), Append]
  }

  function InverseOps(o: Options, m: Mustache, guid: nat): seq<Op> {
    SetupOps(o, m) + [DeclareInverse(Some(guid)), InvokeProgram(None, |m.params|, m.hash.Some?), Append]
  }

  /** The instructions of a statement whose first nested program gets number `guid`. */
  function StatementOps(o: Options, s: Statement, guid: nat): seq<Op> {
    match s
    case Content(text) => [AppendContent(text)]
    case Comment => []
    case Output(m) => OutputOps(o, m)
    case Partial(name, context) => PartialOps(name, context)
    case Block(m, q) => BlockOps(o, m, q, guid)
    case Inverse(m, _) => InverseOps(o, m, guid)
  }

  function OpsUpTo(o: Options, stmts: seq<Statement>, n: nat): seq<Op>
    requires n <= |stmts|
  {
    if n == 0 then [] else OpsUpTo(o, stmts, n - 1) + StatementOps(o, stmts[n - 1], |NestedUpTo(stmts, n - 1)|)
  }

  function OpsOf(o: Options, p: Program): seq<Op> {
    OpsUpTo(o, p.statements, |p.statements|)
  }

  // ----- the enclosing contexts a program needs

  function IdDepths(id: IdNode): set<nat> {
    {id.depth} - {0}
  }

  function ValueDepths(param: Param): set<nat> {
    if param.IdParam? then IdDepths(param.id) else {}
  }

  function ParamDepths(o: Options, param: Param): set<nat> {
    if o.stringParams then {TemplateEval.ParamDepth(param)} - {0} else ValueDepths(param)
  }

  function ParamsDepths(o: Options, params: seq<Param>): set<nat> {
    if params == [] then {} else ParamsDepths(o, params[1..]) + ParamDepths(o, params[0])
  }

  function PairsDepths(pairs: seq<Pair>): set<nat> {
    if pairs == [] then {} else PairsDepths(pairs[..|pairs| - 1]) + ValueDepths(pairs[|pairs| - 1].value)
  }

  function MustacheDepths(o: Options, m: Mustache): set<nat> {
    ParamsDepths(o, m.params) + (if m.hash.Some? then PairsDepths(m.hash.value) else {}) + IdDepths(m.id)
  }

  /** The depths of a nested program as seen from the program around it. */
  function OneOut(depths: set<nat>): set<nat> {
    set d: nat | d in depths && d >= 2 :: d - 1
  }

  function StatementDepths(o: Options, s: Statement): set<nat>
    decreases s
  {
    match s
    case Content(_) => {}
    case Comment => {}
    case Output(m) => MustacheDepths(o, m)
    case Partial(_, context) => if context.Some? then IdDepths(context.value) else {}
    case Block(m, q) =>
      MustacheDepths(o, m) + OneOut(Needs(o, q)) + (if q.inverse.Some? then OneOut(Needs(o, q.inverse.value)) else {})
    case Inverse(m, q) => MustacheDepths(o, m) + OneOut(Needs(o, q))
  }

  function NeedsUpTo(o: Options, p: Program, n: nat): set<nat>
    requires n <= |p.statements|
    decreases p, 0, n
  {
    if n == 0 then {}
    else
      assert p.statements[n - 1] < p;
      NeedsUpTo(o, p, n - 1) + StatementDepths(o, p.statements[n - 1])
  }

  /** The d >= 1 such that some path of the program, or of a program nested in it, leads d programs out. */
  function Needs(o: Options, p: Program): set<nat>
    decreases p, 1
  {
    NeedsUpTo(o, p, |p.statements|)
  }

  predicate StatementUsesPartial(s: Statement)
    decreases s
  {
    match s
    case Partial(_, _) => true
    case Block(_, q) => UsesPartial(q) || (q.inverse.Some? && UsesPartial(q.inverse.value))
    case Inverse(_, q) => UsesPartial(q)
    case _ => false
  }

  predicate UsesPartialUpTo(p: Program, n: nat)
    requires n <= |p.statements|
    decreases p, 0, n
  {
    n > 0 &&
    (assert p.statements[n - 1] < p;
     UsesPartialUpTo(p, n - 1) || StatementUsesPartial(p.statements[n - 1]))
  }

  predicate UsesPartial(p: Program)
    decreases p, 1
  {
    UsesPartialUpTo(p, |p.statements|)
  }

  // ----- ascending lists

  predicate IsAscending(s: seq<nat>) {
    forall i, j :: 0 <= i < j < |s| ==> s[i] < s[j]
  }

  function ToSet(s: seq<nat>): set<nat> {
    set d | d in s
  }

  function Insert(d: nat, s: seq<nat>): seq<nat> {
    if s == [] then [d]
    else if d < s[0] then [d] + s
    else [s[0]] + Insert(d, s[1..])
  }

  lemma {:induction false} InsertMembers(d: nat, s: seq<nat>)
    ensures forall x :: x in Insert(d, s) <==> x == d || x in s
    decreases |s|
  {
    if s != [] && d >= s[0] {
      InsertMembers(d, s[1..]);
      assert s == [s[0]] + s[1..];
    }
  }

  lemma {:induction false} InsertAscends(d: nat, s: seq<nat>)
    requires IsAscending(s) && d !in s
    ensures IsAscending(Insert(d, s))
    decreases |s|
  {
    if s != [] && d >= s[0] {
      var rest := Insert(d, s[1..]);
      InsertAscends(d, s[1..]);
      InsertMembers(d, s[1..]);
      forall j | 0 <= j < |rest|
        ensures s[0] < rest[j]
      {
        assert rest[j] in rest;
      }
    }
  }

  /** `list.sort(function(a, b) { return a - b; })` on a list without repetitions */
  function Sorted(s: seq<nat>): seq<nat> {
    if s == [] then [] else Insert(s[0], Sorted(s[1..]))
  }

  lemma {:induction false} SortedCorrect(s: seq<nat>)
    requires forall i, j :: 0 <= i < j < |s| ==> s[i] != s[j]
    ensures forall x :: x in Sorted(s) <==> x in s
    ensures IsAscending(Sorted(s))
    decreases |s|
  {
    if s != [] {
      SortedCorrect(s[1..]);
      InsertMembers(s[0], Sorted(s[1..]));
      InsertAscends(s[0], Sorted(s[1..]));
      assert s == [s[0]] + s[1..];
    }
  }

  ghost predicate IsLeast(m: nat, s: set<nat>) {
    m in s && forall d :: d in s ==> m <= d
  }

  lemma LeastExists(s: set<nat>)
    requires s != {}
    ensures exists m :: IsLeast(m, s)
  {
    var d :| d in s;
    if s == {d} {
      assert IsLeast(d, s);
    } else {
      LeastExists(s - {d});
      var m :| IsLeast(m, s - {d});
      var least := if m < d then m else d;
      forall x | x in s
        ensures least <= x
      {
        assert x == d || x in s - {d};
      }
      assert IsLeast(least, s);
    }
  }

  /** The members of a set in ascending order. */
  ghost function Ascending(s: set<nat>): (r: seq<nat>)
    ensures IsAscending(r) && ToSet(r) == s
  {
    if s == {} then []
    else
      LeastExists(s);
      var m :| IsLeast(m, s);
      var rest := Ascending(s - {m});
      assert forall x <- rest :: x in ToSet(rest);
      var r := [m] + rest;
      assert ToSet(r) == {m} + ToSet(rest);
      r
  }

  lemma ToSetEmpty(s: seq<nat>)
    ensures s == [] <==> ToSet(s) == {}
  {
    if s != [] {
      assert s[0] in ToSet(s);
    }
  }

  lemma {:induction false} AscendingUnique(a: seq<nat>, b: seq<nat>)
    requires IsAscending(a) && IsAscending(b) && ToSet(a) == ToSet(b)
    ensures a == b
    decreases |a|
  {
    ToSetEmpty(a);
    ToSetEmpty(b);
    if a != [] {
      assert a[0] in ToSet(b) && b[0] in ToSet(a);
      assert a[0] == b[0];
      assert ToSet(a[1..]) == ToSet(a) - {a[0]};
      assert ToSet(b[1..]) == ToSet(b) - {b[0]};
      AscendingUnique(a[1..], b[1..]);
      assert a == [a[0]] + a[1..] && b == [b[0]] + b[1..];
    }
  }

  // ----- the environment of a program

  ghost function EnvsUpTo(o: Options, p: Program, n: nat): seq<Env>
    requires n <= |p.statements|
    decreases p, 0
  {
    var qs := NestedUpTo(p.statements, n);
    seq(|qs|, k requires 0 <= k < |qs| => (NestedSmaller(p, n, k); EnvOf(o, qs[k])))
  }

  /** The result of the first pass. */
  ghost function EnvOf(o: Options, p: Program): Env
    decreases p, 1
  {
    Env(Encode(OpsOf(o, p)), EnvsUpTo(o, p, |p.statements|), Ascending(Needs(o, p)), |p.statements| == 1,
        UsesPartial(p))
  }

  /** With `stringParams`, every param must have a `string`. */
  predicate EncodableMustache(o: Options, m: Mustache) {
    o.stringParams ==> forall param <- m.params :: TemplateEval.ParamString(param).Some?
  }

  predicate EncodableStatement(o: Options, s: Statement) {
    match s
    case Output(m) => EncodableMustache(o, m)
    case Block(m, q) => EncodableMustache(o, m) && Encodable(o, q) &&
        (q.inverse.Some? ==> Encodable(o, q.inverse.value))
    case Inverse(m, q) => EncodableMustache(o, m) && Encodable(o, q)
    case _ => true
  }

  predicate Encodable(o: Options, p: Program) {
    forall s <- p.statements :: EncodableStatement(o, s)
  }

  // ----- no operand is missing

  lemma {:induction false} LookupsComplete(names: seq<string>)
    ensures AllComplete(LookupOps(names))
  {
    if names != [] {
      LookupsComplete(names[..|names| - 1]);
    }
  }

  lemma ValueComplete(param: Param)
    ensures AllComplete(ValueOps(param))
  {
    if param.IdParam? {
      LookupsComplete(Tail(param.id));
    }
  }

  lemma {:induction false} ParamsComplete(o: Options, params: seq<Param>)
    requires o.stringParams ==> forall param <- params :: TemplateEval.ParamString(param).Some?
    ensures AllComplete(ParamsOps(o, params))
  {
    hide ValueOps;
    if params != [] {
      ParamsComplete(o, params[1..]);
      ValueComplete(params[0]);
    }
  }

  lemma {:induction false} PairsComplete(pairs: seq<Pair>)
    ensures AllComplete(PairsOps(pairs))
  {
    hide ValueOps;
    if pairs != [] {
      PairsComplete(pairs[..|pairs| - 1]);
      ValueComplete(pairs[|pairs| - 1].value);
    }
  }

  lemma SetupComplete(o: Options, m: Mustache)
    requires EncodableMustache(o, m)
    ensures AllComplete(SetupOps(o, m))
  {
    hide ParamsOps, PairsOps;
    ParamsComplete(o, m.params);
    if m.hash.Some? {
      PairsComplete(m.hash.value);
    }
    LookupsComplete(Tail(m.id));
  }

  lemma StatementComplete(o: Options, s: Statement, guid: nat)
    requires EncodableStatement(o, s)
    ensures AllComplete(StatementOps(o, s, guid))
  {
    hide SetupOps;
    match s
    case Output(m) => SetupComplete(o, m);
    case Block(m, _) => SetupComplete(o, m);
    case Inverse(m, _) => SetupComplete(o, m);
    case Partial(_, context) => if context.Some? { LookupsComplete(Tail(context.value)); }
    case _ =>
  }

  lemma {:induction false} OpsComplete(o: Options, p: Program, n: nat)
    requires Encodable(o, p) && n <= |p.statements|
    ensures AllComplete(OpsUpTo(o, p.statements, n))
    decreases n
  {
    hide StatementOps, EncodableStatement;
    if n > 0 {
      OpsComplete(o, p, n - 1);
      StatementComplete(o, p.statements[n - 1], |NestedUpTo(p.statements, n - 1)|);
    }
  }
}
