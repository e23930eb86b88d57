/** Emitted code for paths, params and hashes computes what the evaluator computes, in the slots expected. */
module ExpressionProof {
  import opened JsRuntime
  import opened TemplateAst
  import opened TemplateEval
  import opened Opcodes
  import opened FirstPass
  import opened CodeGen
  import opened SlotMachine

  /** Nothing at or below stack level `n` and nothing in the buffer has changed. */
  ghost predicate SameBelow(m: Machine, m': Machine, n: int) {
    m'.buffer == m.buffer && forall k :: k <= n ==> Slot(m', k) == Slot(m, k)
  }

  /** The code has left `r` on top of stack level `n`, or has thrown as `r` does. */
  ghost predicate Yields(x: Exec, m: Machine, n: int, r: Res<Value>) {
    match r
    case Ok(v) => x.Next? && SameBelow(m, x.m, n) && Slot(x.m, n + 1) == v
    case Throw(e) => x == Threw(e)
  }

  /** The compile-time stack has grown by `n`. */
  ghost predicate Moved(st: GenState, st': GenState, n: int, known: bool) {
    st'.slot == st.slot + n && st'.known == known && st'.inverse == st.inverse
  }

  /** The function sees the contexts that the evaluator sees, for all depths in `depths`. */
  ghost predicate SeesContexts(l: Linked, f: Frame, ctxs: seq<Value>, depths: set<nat>) {
    && |ctxs| > 0
    && f.ctx == ctxs[0]
    && forall d :: d in depths ==> ReadDepth(l, f, d) == Ok(ContextAt(ctxs, d))
  }

  lemma SeesDepth(l: Linked, f: Frame, ctxs: seq<Value>, depths: set<nat>, d: nat)
    requires SeesContexts(l, f, ctxs, depths) && {d} - {0} <= depths
    ensures ReadDepth(l, f, d) == Ok(ContextAt(ctxs, d))
  {
    if d > 0 {
      assert d in {d} - {0};
    }
  }

  /** The compile-time state after a group of instructions. */
  ghost function GenAfter(o: Options, kids: seq<Kid>, ops: seq<Op>, st: GenState): GenState {
    GenPlain(o, kids, ops, st).st
  }

  /** What running the code of a group of instructions does. */
  ghost function RunOps(w: World, o: Options, l: Linked, f: Frame, kids: seq<Kid>, ops: seq<Op>, st: GenState,
                        m: Machine): Exec {
    RunCode(w, l, f, GenPlain(o, kids, ops, st).code, m)
  }

  /** Two groups of instructions one after the other. */
  lemma Sequence(w: World, o: Options, l: Linked, f: Frame, kids: seq<Kid>, a: seq<Op>, b: seq<Op>, st: GenState,
                 m: Machine)
    ensures GenAfter(o, kids, a + b, st) == GenAfter(o, kids, b, GenAfter(o, kids, a, st))
    ensures var x := RunOps(w, o, l, f, kids, a, st, m);
            RunOps(w, o, l, f, kids, a + b, st, m) ==
            if x.Next? then RunOps(w, o, l, f, kids, b, GenAfter(o, kids, a, st), x.m) else x
  {
    GenConcat(o, kids, a, b, st);
    var x := GenPlain(o, kids, a, st);
    RunConcat(w, l, f, x.code, GenPlain(o, kids, b, x.st).code, m);
  }

  lemma Sequence3(w: World, o: Options, l: Linked, f: Frame, kids: seq<Kid>, a: seq<Op>, b: seq<Op>, c: seq<Op>,
                  st: GenState, m: Machine)
    ensures var st1 := GenAfter(o, kids, a, st);
            var st2 := GenAfter(o, kids, b, st1);
            var x1 := RunOps(w, o, l, f, kids, a, st, m);
            && GenAfter(o, kids, a + b + c, st) == GenAfter(o, kids, c, st2)
            && RunOps(w, o, l, f, kids, a + b + c, st, m) ==
               if !x1.Next? then x1
               else
                 var x2 := RunOps(w, o, l, f, kids, b, st1, x1.m);
                 if x2.Next? then RunOps(w, o, l, f, kids, c, st2, x2.m) else x2
  {
    hide GenAfter, RunOps;
    Sequence(w, o, l, f, kids, a, b, st, m);
    Sequence(w, o, l, f, kids, a + b, c, st, m);
  }

  lemma Nothing(w: World, o: Options, l: Linked, f: Frame, kids: seq<Kid>, st: GenState, m: Machine)
    ensures GenAfter(o, kids, [], st) == st
    ensures RunOps(w, o, l, f, kids, [], st, m) == Next(m)
  {
  }

  /** An instruction that emits no statement. */
  lemma Silent(w: World, o: Options, l: Linked, f: Frame, kids: seq<Kid>, op: Op, st: GenState, m: Machine)
    requires GenOp(o, kids, op, st).code == []
    ensures GenAfter(o, kids, [op], st) == GenOp(o, kids, op, st).st
    ensures RunOps(w, o, l, f, kids, [op], st, m) == Next(m)
  {
    GenOne(o, kids, op, st);
  }

  /** An instruction that emits one statement. */
  lemma Single(w: World, o: Options, l: Linked, f: Frame, kids: seq<Kid>, op: Op, st: GenState, m: Machine)
    requires |GenOp(o, kids, op, st).code| == 1
    ensures GenAfter(o, kids, [op], st) == GenOp(o, kids, op, st).st
    ensures RunOps(w, o, l, f, kids, [op], st, m) == RunInstr(w, l, f, GenOp(o, kids, op, st).code[0], m)
  {
    GenOne(o, kids, op, st);
    var g := GenOp(o, kids, op, st);
    assert g.code == [g.code[0]];
    RunOne(w, l, f, g.code[0], m);
  }

  // ----- paths

  lemma {:induction false} EvalPathSnoc(w: World, v: Value, names: seq<string>, name: string)
    ensures EvalPath(w, v, names + [name]) ==
            match EvalPath(w, v, names)
            case Ok(u) => GetProp(w, u, name)
            case Throw(e) => Throw(e)
    decreases |names|
  {
    if names == [] {
      assert [] + [name] == [name];
      assert [name][1..] == [];
    } else {
      assert (names + [name])[1..] == names[1..] + [name];
      var next := GetProp(w, v, names[0]);
      if next.Ok? {
        EvalPathSnoc(w, next.value, names[1..], name);
      }
    }
  }

  lemma {:induction false} PathRuns(w: World, o: Options, l: Linked, f: Frame, kids: seq<Kid>, names: seq<string>,
                                    st: GenState, m: Machine)
    ensures GenAfter(o, kids, LookupOps(names), st) == st
    ensures Yields(RunOps(w, o, l, f, kids, LookupOps(names), st, m), m, st.slot - 1,
                   EvalPath(w, Slot(m, st.slot), names))
    decreases |names|
  {
    hide GenAfter, RunOps;
    if names == [] {
      Nothing(w, o, l, f, kids, st, m);
    } else {
      var n := |names| - 1;
      var before, last := names[..n], names[n];
      assert names == before + [last];
      PathRuns(w, o, l, f, kids, before, st, m);
      EvalPathSnoc(w, Slot(m, st.slot), before, last);
      Sequence(w, o, l, f, kids, LookupOps(before), [Lookup(last)], st, m);
      var x := RunOps(w, o, l, f, kids, LookupOps(before), st, m);
      Single(w, o, l, f, kids, Lookup(last), st, if x.Next? then x.m else m);
    }
  }

  lemma HeadRuns(w: World, o: Options, l: Linked, f: Frame, kids: seq<Kid>, ctxs: seq<Value>, id: IdNode, st: GenState,
                 m: Machine)
    requires SeesContexts(l, f, ctxs, IdDepths(id)) && st.ctx == id.depth
    ensures var op := LookupWithHelpers(Head(id), id.isScoped);
            && Moved(st, GenAfter(o, kids, [op], st), 1, KnownAfterId(o, id, st.known))
            && Yields(RunOps(w, o, l, f, kids, [op], st, m), m, st.slot, EvalHead(w, o, id, ctxs))
  {
    hide GenAfter, RunOps;
    SeesDepth(l, f, ctxs, IdDepths(id), id.depth);
    Single(w, o, l, f, kids, LookupWithHelpers(Head(id), id.isScoped), st, m);
  }

  lemma IdRuns(w: World, o: Options, l: Linked, f: Frame, kids: seq<Kid>, ctxs: seq<Value>, id: IdNode, st: GenState,
               m: Machine)
    requires SeesContexts(l, f, ctxs, IdDepths(id))
    ensures Moved(st, GenAfter(o, kids, IdOps(id), st), 1, KnownAfterId(o, id, st.known))
    ensures Yields(RunOps(w, o, l, f, kids, IdOps(id), st, m), m, st.slot, EvalId(w, o, id, ctxs))
  {
    hide GenAfter, RunOps;
    var get, look := GetContext(id.depth), LookupWithHelpers(Head(id), id.isScoped);
    var st1 := st.(ctx := id.depth);
    Silent(w, o, l, f, kids, get, st, m);
    Sequence(w, o, l, f, kids, [get], [look], st, m);
    assert [get] + [look] == [get, look];
    HeadRuns(w, o, l, f, kids, ctxs, id, st1, m);
    var st2 := GenAfter(o, kids, [look], st1);
    var x := RunOps(w, o, l, f, kids, [look], st1, m);
    Sequence(w, o, l, f, kids, [get, look], LookupOps(Tail(id)), st, m);
    PathRuns(w, o, l, f, kids, Tail(id), st2, if x.Next? then x.m else m);
  }

  // ----- params

  lemma LiteralRuns(w: World, o: Options, l: Linked, f: Frame, kids: seq<Kid>, c: Cell, st: GenState, m: Machine)
    requires c.Flag? || (c.Str? && c.s != "" && '0' <= c.s[0] <= '9')
    ensures Moved(st, GenAfter(o, kids, [Push(c)], st), 1, st.known)
    ensures Yields(RunOps(w, o, l, f, kids, [Push(c)], st, m), m, st.slot,
                   Ok(if c.Flag? then Bool(c.b) else w.literal(c.s)))
  {
    hide GenAfter, RunOps;
    Single(w, o, l, f, kids, Push(c), st, m);
    assert c.Str? ==> c.s[0] != "{}"[0] && c.s[0] != "depth0"[0];
  }

  lemma ValueRuns(w: World, o: Options, l: Linked, f: Frame, kids: seq<Kid>, ctxs: seq<Value>, param: Param,
                  st: GenState, m: Machine)
    requires SeesContexts(l, f, ctxs, ValueDepths(param))
    ensures Moved(st, GenAfter(o, kids, ValueOps(param), st), 1, KnownAfterParam(o, param, st.known))
    ensures Yields(RunOps(w, o, l, f, kids, ValueOps(param), st, m), m, st.slot, EvalParam(w, o, param, ctxs))
  {
    hide GenAfter, RunOps;
    match param
    case IdParam(id) => IdRuns(w, o, l, f, kids, ctxs, id, st, m);
    case StringParam(s) => Single(w, o, l, f, kids, PushString(s), st, m);
    case IntegerParam(text) => LiteralRuns(w, o, l, f, kids, Str(text), st, m);
    case BooleanParam(b) => LiteralRuns(w, o, l, f, kids, Flag(b), st, m);
  }

  /** The params lie on the stack with the first one on top, each one on its context if it has one. */
  ghost predicate ParamsOnStack(o: Options, m: Machine, n: int, args: Args) {
    var k := |args.values|;
    && (forall i :: 0 <= i < k ==> Slot(m, n + Height(o, k - i)) == args.values[i])
    && |args.contexts| == (if o.stringParams then k else 0)
    && (o.stringParams ==> forall i :: 0 <= i < k ==> Slot(m, n + Height(o, k - i) - 1) == args.contexts[i])
  }

  ghost predicate YieldsParams(o: Options, x: Exec, m: Machine, n: int, count: nat, r: Res<Args>) {
    match r
    case Ok(args) => x.Next? && SameBelow(m, x.m, n) && |args.values| == count && ParamsOnStack(o, x.m, n, args)
    case Throw(e) => x == Threw(e)
  }

  /** An argument has landed on top of stack level `n`. */
  ghost predicate Lands(o: Options, x: Exec, m: Machine, n: int, r: Res<(Value, Value)>) {
    match r
    case Ok(a) =>
      && x.Next? && SameBelow(m, x.m, n)
      && Slot(x.m, n + Height(o, 1)) == a.0
      && (o.stringParams ==> Slot(x.m, n + 1) == a.1)
    case Throw(e) => x == Threw(e)
  }

  lemma PushStringRuns(w: World, o: Options, l: Linked, f: Frame, kids: seq<Kid>, s: string, st: GenState, m: Machine,
                       c: Value)
    requires ReadDepth(l, f, st.ctx) == Ok(c)
    ensures GenAfter(o, kids, [PushStringParam(Some(s))], st) == NextStack(NextStack(st))
    ensures RunOps(w, o, l, f, kids, [PushStringParam(Some(s))], st, m) ==
            Next(SetSlot(SetSlot(m, st.slot + 1, c), st.slot + 2, Text(s)))
  {
    GenOne(o, kids, PushStringParam(Some(s)), st);
    var c1, c2 := LoadDepth(st.slot + 1, st.ctx), LoadString(st.slot + 2, s);
    RunConcat(w, l, f, [c1], [c2], m);
    assert [c1] + [c2] == [c1, c2];
    hide RunCode;
    RunOne(w, l, f, c1, m);
    RunOne(w, l, f, c2, SetSlot(m, st.slot + 1, c));
  }

  lemma StringParamRuns(w: World, o: Options, l: Linked, f: Frame, kids: seq<Kid>, ctxs: seq<Value>, param: Param,
                        st: GenState, m: Machine)
    requires o.stringParams && ParamString(param).Some?
    requires SeesContexts(l, f, ctxs, ParamDepths(o, param))
    ensures Moved(st, GenAfter(o, kids, ParamOps(o, param), st), 2, st.known)
    ensures Lands(o, RunOps(w, o, l, f, kids, ParamOps(o, param), st, m), m, st.slot, EvalArgument(w, o, param, ctxs))
  {
    hide GenAfter, RunOps, ParamString, ParamDepth;
    var d, s := ParamDepth(param), ParamString(param).value;
    SeesDepth(l, f, ctxs, ParamDepths(o, param), d);
    Silent(w, o, l, f, kids, GetContext(d), st, m);
    PushStringRuns(w, o, l, f, kids, s, st.(ctx := d), m, ContextAt(ctxs, d));
    Sequence(w, o, l, f, kids, [GetContext(d)], [PushStringParam(Some(s))], st, m);
    assert [GetContext(d)] + [PushStringParam(Some(s))] == ParamOps(o, param);
  }

  lemma ParamRuns(w: World, o: Options, l: Linked, f: Frame, kids: seq<Kid>, ctxs: seq<Value>, param: Param,
                  st: GenState, m: Machine)
    requires o.stringParams ==> ParamString(param).Some?
    requires SeesContexts(l, f, ctxs, ParamDepths(o, param))
    ensures Moved(st, GenAfter(o, kids, ParamOps(o, param), st), Height(o, 1),
                  if o.stringParams then st.known else KnownAfterParam(o, param, st.known))
    ensures Lands(o, RunOps(w, o, l, f, kids, ParamOps(o, param), st, m), m, st.slot, EvalArgument(w, o, param, ctxs))
  {
    if o.stringParams {
      StringParamRuns(w, o, l, f, kids, ctxs, param, st, m);
    } else {
      hide GenAfter, RunOps, EvalParam, ValueOps, KnownAfterParam, ValueDepths;
      ValueRuns(w, o, l, f, kids, ctxs, param, st, m);
    }
  }

  /** One more param on top. */
  lemma ParamPushed(o: Options, x: Exec, y: Exec, m: Machine, n: int, k: nat, rest: Args, r: Res<(Value, Value)>)
    requires YieldsParams(o, x, m, n, k, Ok(rest))
    requires Lands(o, y, x.m, n + Height(o, k), r)
    ensures YieldsParams(o, y, m, n, k + 1, match r case Ok(a) => Ok(PushArgument(o, rest,
            a)) case Throw(e) => Throw(e))
  {
    if r.Ok? {
      var all := PushArgument(o, rest, r.value);
      forall i | 0 <= i < k + 1
        ensures Slot(y.m, n + Height(o, k + 1 - i)) == all.values[i]
        ensures o.stringParams ==> Slot(y.m, n + Height(o, k + 1 - i) - 1) == all.contexts[i]
      {
        if i > 0 {
          assert Slot(x.m, n + Height(o, k - (i - 1))) == rest.values[i - 1];
        }
      }
    }
  }

  lemma YieldsParamsCases(o: Options, x: Exec, m: Machine, n: int, k: nat, r: Res<Args>)
    requires YieldsParams(o, x, m, n, k, r)
    ensures r.Ok? ==> x.Next?
    ensures r.Throw? ==> x == Threw(r.error) && forall k' :: YieldsParams(o, x, m, n, k', r)
  {
  }

  lemma NoParams(o: Options, m: Machine, n: int)
    ensures YieldsParams(o, Next(m), m, n, 0, Ok(Args([], [])))
  {
  }

  lemma FirstParamSees(o: Options, l: Linked, f: Frame, ctxs: seq<Value>, params: seq<Param>)
    requires params != [] && SeesContexts(l, f, ctxs, ParamsDepths(o, params))
    ensures SeesContexts(l, f, ctxs, ParamsDepths(o, params[1..])) &&
            SeesContexts(l, f, ctxs, ParamDepths(o, params[0]))
  {
    hide ParamDepths, ReadDepth;
  }

  lemma {:induction false} ParamsRun(w: World, o: Options, l: Linked, f: Frame, kids: seq<Kid>, ctxs: seq<Value>,
                                     params: seq<Param>, st: GenState, m: Machine)
    requires o.stringParams ==> forall param <- params :: ParamString(param).Some?
    requires SeesContexts(l, f, ctxs, ParamsDepths(o, params))
    ensures Moved(st, GenAfter(o, kids, ParamsOps(o, params), st), Height(o, |params|),
                  KnownAfterParams(o, params, st.known))
    ensures YieldsParams(o, RunOps(w, o, l, f, kids, ParamsOps(o, params), st, m), m, st.slot, |params|,
                         EvalParams(w, o, params, ctxs))
    decreases |params|
  {
    hide GenAfter, RunOps, ParamOps, EvalArgument, ParamString, ParamDepths, YieldsParams, Lands, PushArgument,
         KnownAfterParam,
         SeesContexts, ReadDepth, Slot, RunInstr, GenOp, ParamsDepths;
    if params == [] {
      Nothing(w, o, l, f, kids, st, m);
      NoParams(o, m, st.slot);
    } else {
      FirstParamSees(o, l, f, ctxs, params);
      var rest := params[1..];
      ParamsRun(w, o, l, f, kids, ctxs, rest, st, m);
      Sequence(w, o, l, f, kids, ParamsOps(o, rest), ParamOps(o, params[0]), st, m);
      var st1 := GenAfter(o, kids, ParamsOps(o, rest), st);
      var x := RunOps(w, o, l, f, kids, ParamsOps(o, rest), st, m);
      var args := EvalParams(w, o, rest, ctxs);
      ParamRuns(w, o, l, f, kids, ctxs, params[0], st1, if x.Next? then x.m else m);
      YieldsParamsCases(o, x, m, st.slot, |rest|, args);
      if args.Ok? {
        ParamPushed(o, x, RunOps(w, o, l, f, kids, ParamOps(o, params[0]), st1, x.m), m, st.slot, |rest|, args.value,
                    EvalArgument(w, o, params[0], ctxs));
      }
    }
  }

  // ----- hashes

  /** The hash object lies in slot `n`. */
  ghost predicate YieldsFields(x: Exec, m: Machine, n: int, r: Res<map<string, Value>>) {
    match r
    case Ok(fields) => x.Next? && SameBelow(m, x.m, n - 1) && Slot(x.m, n) == Record(fields)
    case Throw(e) => x == Threw(e)
  }

  lemma PairRuns(w: World, o: Options, l: Linked, f: Frame, kids: seq<Kid>, ctxs: seq<Value>, pair: Pair, st: GenState,
                 m: Machine, fields: map<string, Value>)
    requires SeesContexts(l, f, ctxs, ValueDepths(pair.value))
    requires Slot(m, st.slot) == Record(fields)
    ensures Moved(st, GenAfter(o, kids, ValueOps(pair.value) + [AssignToHash(pair.key)], st), 0,
                  KnownAfterParam(o, pair.value, st.known))
    ensures YieldsFields(RunOps(w, o, l, f, kids, ValueOps(pair.value) + [AssignToHash(pair.key)], st, m), m, st.slot,
                         match EvalParam(w, o, pair.value,
                                         ctxs) case Ok(v) => Ok(fields[pair.key := v]) case Throw(e) => Throw(e))
  {
    hide GenAfter, RunOps, EvalParam, ValueOps, KnownAfterParam, ValueDepths;
    ValueRuns(w, o, l, f, kids, ctxs, pair.value, st, m);
    Sequence(w, o, l, f, kids, ValueOps(pair.value), [AssignToHash(pair.key)], st, m);
    var st1 := GenAfter(o, kids, ValueOps(pair.value), st);
    var x := RunOps(w, o, l, f, kids, ValueOps(pair.value), st, m);
    Single(w, o, l, f, kids, AssignToHash(pair.key), st1, if x.Next? then x.m else m);
  }

  lemma {:induction false} PairsRun(w: World, o: Options, l: Linked, f: Frame, kids: seq<Kid>, ctxs: seq<Value>,
                                    pairs: seq<Pair>, st: GenState, m: Machine)
    requires SeesContexts(l, f, ctxs, PairsDepths(pairs))
    requires Slot(m, st.slot) == Record(map[])
    ensures Moved(st, GenAfter(o, kids, PairsOps(pairs), st), 0, KnownAfterPairs(o, pairs, st.known))
    ensures YieldsFields(RunOps(w, o, l, f, kids, PairsOps(pairs), st, m), m, st.slot, EvalPairs(w, o, pairs, ctxs))
    decreases |pairs|
  {
    hide GenAfter, RunOps, EvalParam, ValueOps, KnownAfterParam, ValueDepths;
    if pairs == [] {
      Nothing(w, o, l, f, kids, st, m);
    } else {
      var before, pair := pairs[..|pairs| - 1], pairs[|pairs| - 1];
      PairsRun(w, o, l, f, kids, ctxs, before, st, m);
      Sequence(w, o, l, f, kids, PairsOps(before), ValueOps(pair.value) + [AssignToHash(pair.key)], st, m);
      var st1 := GenAfter(o, kids, PairsOps(before), st);
      var x := RunOps(w, o, l, f, kids, PairsOps(before), st, m);
      var fields := EvalPairs(w, o, before, ctxs);
      if fields.Ok? {
        PairRuns(w, o, l, f, kids, ctxs, pair, st1, x.m, fields.value);
      } else {
        PairRuns(w, o, l, f, kids, ctxs, pair, st1, SetSlot(m, st1.slot, Record(map[])), map[]);
      }
    }
  }

  ghost predicate YieldsHash(x: Exec, m: Machine, n: int, present: bool, r: Res<Value>) {
    match r
    case Ok(v) => x.Next? && SameBelow(m, x.m, n) && (if present then Slot(x.m, n + 1) == v else v == Record(map[]))
    case Throw(e) => x == Threw(e)
  }

  function HashHeight(hash: Option<seq<Pair>>): nat {
    if hash.Some? then 1 else 0
  }

  lemma HashRuns(w: World, o: Options, l: Linked, f: Frame, kids: seq<Kid>, ctxs: seq<Value>, hash: Option<seq<Pair>>,
                 st: GenState, m: Machine)
    requires hash.Some? ==> SeesContexts(l, f, ctxs, PairsDepths(hash.value))
    ensures Moved(st, GenAfter(o, kids, HashOps(hash), st), HashHeight(hash), KnownAfterHash(o, hash, st.known))
    ensures YieldsHash(RunOps(w, o, l, f, kids, HashOps(hash), st, m), m, st.slot, hash.Some?,
                       EvalHash(w, o, hash, ctxs))
  {
    hide GenAfter, RunOps, EvalPairs, PairsOps, KnownAfterPairs, PairsDepths;
    if hash.None? {
      Nothing(w, o, l, f, kids, st, m);
    } else {
      var push := Push(Str("{}"));
      Single(w, o, l, f, kids, push, st, m);
      Sequence(w, o, l, f, kids, [push], PairsOps(hash.value), st, m);
      PairsRun(w, o, l, f, kids, ctxs, hash.value, NextStack(st), SetSlot(m, st.slot + 1, Record(map[])));
    }
  }

  // ----- a whole mustache up to its call

  /** Params, hash and head lie on the stack, from level `n` up. */
  ghost predicate PartsOnStack(o: Options, m: Machine, n: int, hash: bool, x: Parts) {
    var top := n + Height(o, |x.args.values|);
    && ParamsOnStack(o, m, n, x.args)
    && (if hash then Slot(m, top + 1) == x.hash && Slot(m, top + 2) == x.head
        else x.hash == Record(map[]) && Slot(m, top + 1) == x.head)
  }

  ghost predicate YieldsParts(o: Options, x: Exec, m: Machine, n: int, count: nat, hash: bool, r: Res<Parts>) {
    match r
    case Ok(p) => x.Next? && x.m.buffer == m.buffer && |p.args.values| == count && PartsOnStack(o, x.m, n, hash, p)
    case Throw(e) => x == Threw(e)
  }

  lemma ParamsStay(o: Options, m: Machine, m': Machine, n: int, args: Args)
    requires ParamsOnStack(o, m, n, args) && SameBelow(m, m', n + Height(o, |args.values|))
    ensures ParamsOnStack(o, m', n, args)
  {
  }

  lemma SeesFewer(l: Linked, f: Frame, ctxs: seq<Value>, some: set<nat>, all: set<nat>)
    requires SeesContexts(l, f, ctxs, all) && some <= all
    ensures SeesContexts(l, f, ctxs, some)
  {
  }

  function Combined(args: Res<Args>, hash: Res<Value>, head: Res<Value>): Res<Parts> {
    var a :- args;
    var h :- hash;
    var i :- head;
    Ok(Parts(a, h, i))
  }

  lemma PartsCombine(o: Options, m: Machine, x1: Exec, x2: Exec, x3: Exec, n: int, count: nat, hash: bool,
                     args: Res<Args>, h: Res<Value>, head: Res<Value>)
    requires YieldsParams(o, x1, m, n, count, args)
    requires x1.Next? ==> YieldsHash(x2, x1.m, n + Height(o, count), hash, h)
    requires x1.Next? && x2.Next? ==> Yields(x3, x2.m, n + Height(o, count) + (if hash then 1 else 0), head)
    ensures YieldsParts(o, if x1.Next? then (if x2.Next? then x3 else x2) else x1, m, n, count, hash,
                        Combined(args, h, head))
  {
    hide ParamsOnStack, Height;
    if args.Ok? && h.Ok? && head.Ok? {
      ParamsStay(o, x1.m, x2.m, n, args.value);
      ParamsStay(o, x2.m, x3.m, n, args.value);
    }
  }

  lemma SetupMoves(w: World, o: Options, l: Linked, f: Frame, kids: seq<Kid>, ctxs: seq<Value>, mu: Mustache,
                   st: GenState, m: Machine)
    requires o.stringParams ==> forall param <- mu.params :: ParamString(param).Some?
    requires SeesContexts(l, f, ctxs, ParamsDepths(o, mu.params)) && SeesContexts(l, f, ctxs, IdDepths(mu.id))
    requires mu.hash.Some? ==> SeesContexts(l, f, ctxs, PairsDepths(mu.hash.value))
    ensures Moved(st, GenAfter(o, kids, SetupOps(o, mu), st), Height(o, |mu.params|) + HashHeight(mu.hash) + 1,
                  KnownAtHead(o, mu, st.known))
  {
    hide GenAfter, RunOps, ParamsOps, HashOps, IdOps, KnownAfterParams, KnownAfterHash, KnownAfterId,
         ParamsDepths, PairsDepths, IdDepths, SeesContexts, ParamString, YieldsParams, YieldsHash, Yields, Height;
    var p, h, i := ParamsOps(o, mu.params), HashOps(mu.hash), IdOps(mu.id);
    Sequence3(w, o, l, f, kids, p, h, i, st, m);
    ParamsRun(w, o, l, f, kids, ctxs, mu.params, st, m);
    var st1 := GenAfter(o, kids, p, st);
    HashRuns(w, o, l, f, kids, ctxs, mu.hash, st1, m);
    IdRuns(w, o, l, f, kids, ctxs, mu.id, GenAfter(o, kids, h, st1), m);
  }

  lemma SetupYields(w: World, o: Options, l: Linked, f: Frame, kids: seq<Kid>, ctxs: seq<Value>, mu: Mustache,
                    st: GenState, m: Machine)
    requires o.stringParams ==> forall param <- mu.params :: ParamString(param).Some?
    requires SeesContexts(l, f, ctxs, ParamsDepths(o, mu.params)) && SeesContexts(l, f, ctxs, IdDepths(mu.id))
    requires mu.hash.Some? ==> SeesContexts(l, f, ctxs, PairsDepths(mu.hash.value))
    ensures YieldsParts(o, RunOps(w, o, l, f, kids, SetupOps(o, mu), st, m), m, st.slot, |mu.params|, mu.hash.Some?,
                        EvalParts(w, o, mu, ctxs))
  {
    hide GenAfter, RunOps, EvalParams, EvalHash, EvalId, ParamsOps, HashOps, IdOps, KnownAfterParams, KnownAfterHash,
         KnownAfterId,
         ParamsDepths, PairsDepths, IdDepths, SeesContexts, ParamString, YieldsParams, YieldsHash, Yields, YieldsParts,
             Height;
    var p, h, i := ParamsOps(o, mu.params), HashOps(mu.hash), IdOps(mu.id);
    Sequence3(w, o, l, f, kids, p, h, i, st, m);
    ParamsRun(w, o, l, f, kids, ctxs, mu.params, st, m);
    var st1, x1 := GenAfter(o, kids, p, st), RunOps(w, o, l, f, kids, p, st, m);
    var x2, x3 := x1, x1;
    if x1.Next? {
      HashRuns(w, o, l, f, kids, ctxs, mu.hash, st1, x1.m);
      var st2 := GenAfter(o, kids, h, st1);
      x2 := RunOps(w, o, l, f, kids, h, st1, x1.m);
      if x2.Next? {
        IdRuns(w, o, l, f, kids, ctxs, mu.id, st2, x2.m);
        x3 := RunOps(w, o, l, f, kids, i, st2, x2.m);
      }
    }
    PartsCombine(o, m, x1, x2, x3, st.slot, |mu.params|, mu.hash.Some?,
                 EvalParams(w, o, mu.params, ctxs), EvalHash(w, o, mu.hash, ctxs), EvalId(w, o, mu.id, ctxs));
  }

  lemma SetupRuns(w: World, o: Options, l: Linked, f: Frame, kids: seq<Kid>, ctxs: seq<Value>, mu: Mustache,
                  st: GenState, m: Machine)
    requires EncodableMustache(o, mu)
    requires SeesContexts(l, f, ctxs, MustacheDepths(o, mu))
    ensures Moved(st, GenAfter(o, kids, SetupOps(o, mu), st), Height(o, |mu.params|) + HashHeight(mu.hash) + 1,
                  KnownAtHead(o, mu, st.known))
    ensures YieldsParts(o, RunOps(w, o, l, f, kids, SetupOps(o, mu), st, m), m, st.slot, |mu.params|, mu.hash.Some?,
                        EvalParts(w, o, mu, ctxs))
  {
    SeesFewer(l, f, ctxs, ParamsDepths(o, mu.params), MustacheDepths(o, mu));
    SeesFewer(l, f, ctxs, IdDepths(mu.id), MustacheDepths(o, mu));
    if mu.hash.Some? {
      SeesFewer(l, f, ctxs, PairsDepths(mu.hash.value), MustacheDepths(o, mu));
    }
    SetupMoves(w, o, l, f, kids, ctxs, mu, st, m);
    SetupYields(w, o, l, f, kids, ctxs, mu, st, m);
  }
}
