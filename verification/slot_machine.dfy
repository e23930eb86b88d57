/**
 The execution of emitted code.  A generated function has a slot for every stack variable, a buffer
 and the shared register `tmp1`; nested programs are found by the index in their name.
 */
module SlotMachine {
  import opened JsRuntime
  import opened Opcodes
  import opened CodeGen

  /** A generated function; `params` are the depths of its trailing `depthN` parameters. */
  datatype Fn = Fn(params: seq<nat>, simple: bool, vars: nat, code: seq<Instr>)

  datatype Ref = NoopRef | ProgramRef(index: nat, args: seq<Value>)

  /** The options object under construction. */
  datatype Tmp = Tmp(self: Option<Ref>, fn: Option<Ref>, inverse: Option<Ref>, hash: Value, contexts: seq<Value>)

  /**
   A linked template: the functions by index, the depths for which the main function, around all
   the others, declares a parameter (nobody passes an argument for those), and whatever the
   register `tmp1`, which all functions share, holds after other functions have used it.
   */
  datatype Linked = Linked(table: seq<Option<Fn>>, globals: set<nat>, junk: Tmp)

  datatype Machine = Machine(slots: map<int, Value>, buffer: string, tmp: Tmp)

  datatype Frame = Frame(index: nat, ctx: Value, scope: map<nat, Value>, simple: bool)

  datatype Exec = Next(m: Machine) | Returned(v: Value) | Threw(error: string)

  function StartMachine(l: Linked): Machine {
    Machine(map[], "", l.junk)
  }

  function Slot(m: Machine, k: int): Value {
    if k in m.slots then m.slots[k] else Undefined
  }

  function SetSlot(m: Machine, k: int, v: Value): Machine {
    m.(slots := m.slots[k := v])
  }

  function Store(m: Machine, k: int, v: Res<Value>): Exec {
    match v case Ok(x) => Next(SetSlot(m, k, x)) case Throw(e) => Threw(e)
  }

  /** A call may run other functions, so that `tmp1` is not known afterwards. */
  function StoreCall(l: Linked, m: Machine, k: int, v: Res<Value>): Exec {
    Store(m.(tmp := l.junk), k, v)
  }

  /** The variable `depthN` as seen inside a function. */
  function ReadDepth(l: Linked, f: Frame, d: nat): Res<Value> {
    if d == 0 then Ok(f.ctx)
    else if d in f.scope then Ok(f.scope[d])
    else if d in l.globals then Ok(Undefined)
    else Throw("ReferenceError: depth is not defined")
  }

  function ReadDepths(l: Linked, f: Frame, ds: seq<nat>): Res<seq<Value>> {
    if ds == [] then Ok([])
    else
      var v :- ReadDepth(l, f, ds[0]);
      var rest :- ReadDepths(l, f, ds[1..]);
      Ok([v] + rest)
  }

  function EvalExpr(l: Linked, f: Frame, e: ProgramExpr): Res<Ref> {
    match e
    case NoopExpr => Ok(NoopRef)
    case ClosureExpr(index, args) =>
      var vs :- ReadDepths(l, f, args);
      Ok(ProgramRef(index, vs))
  }

  function GetPropOf(w: World, c: Res<Value>, name: string): Res<Value> {
    match c case Ok(v) => GetProp(w, v, name) case Throw(e) => Throw(e)
  }

  function LiteralOf(w: World, f: Frame, c: Cell): Value {
    match c
    case Str(s) => if s == "{}" then Record(map[]) else if s == "depth0" then f.ctx else w.literal(s)
    case Flag(b) => Bool(b)
    case Num(n) => Number(n)
    case NullCell => Null
  }

  /** `return v` in a function of one statement, `buffer += v` in any other. */
  function Emit(w: World, f: Frame, m: Machine, v: Value): Exec {
    if f.simple then Returned(v) else Next(m.(buffer := m.buffer + ToText(w, v)))
  }

  function EmitEscaped(w: World, f: Frame, m: Machine, v: Res<Value>, extra: Option<string>): Exec {
    match v
    case Throw(e) => Threw(e)
    case Ok(x) => Emit(w, f, m, if extra.Some? then Text(ToText(w, x) + extra.value) else x)
  }

  function FieldsOf(v: Value): map<string, Value> {
    if v.Record? then v.fields else map[]
  }

  function Params(m: Machine, slots: seq<int>): seq<Value> {
    seq(|slots|, i requires 0 <= i < |slots| => Slot(m, slots[i]))
  }

  function HashOf(m: Machine, useTmp: bool): Value {
    if useTmp then m.tmp.hash else Record(map[])
  }

  function ContextsOf(m: Machine, useTmp: bool): seq<Value> {
    if useTmp then m.tmp.contexts else []
  }

  /** Does the options object carry programs? */
  predicate HasPrograms(m: Machine, useTmp: bool) {
    useTmp && m.tmp.fn.Some? && m.tmp.inverse.Some?
  }

  function NoPrograms(): (bool, Value) -> Res<Value> {
    (inverse, c) => Throw("options.fn is not a function")
  }

  /** Runs the two programs that an options object carries. */
  function OptionsRunner(w: World, l: Linked, index: nat, fn: Ref, inverse: Ref): (bool, Value) -> Res<Value>
    decreases if index < |l.table| then |l.table| - index else 0, 0
  {
    (inv: bool, c: Value) =>
      var r := if inv then inverse else fn;
      if r.NoopRef? then Ok(Text(""))
      else if index < r.index < |l.table| && l.table[r.index].Some? then RunFn(w, l, r.index, c, r.args)
      else Throw("ReferenceError: program is not defined")
  }

  /** `f.call(depth0, args..., options)` */
  function Invoke(w: World, l: Linked, f: Frame, m: Machine, callee: Value, args: seq<Value>, useTmp: bool): Res<Value>
    decreases if f.index < |l.table| then |l.table| - f.index else 0, 1
  {
    var hash, contexts := HashOf(m, useTmp), ContextsOf(m, useTmp);
    if HasPrograms(m, useTmp) then
      CallValue(w, callee, f.ctx, args, hash, contexts, true,
                OptionsRunner(w, l, f.index, m.tmp.fn.value, m.tmp.inverse.value))
    else
      CallValue(w, callee, f.ctx, args, hash, contexts, false, NoPrograms())
  }

  function RunInstr(w: World, l: Linked, f: Frame, instr: Instr, m: Machine): Exec
    decreases if f.index < |l.table| then |l.table| - f.index else 0, 2
  {
    match instr
    case BufferText(t) => Emit(w, f, m, Text(t))
    case BufferSlot(k) =>
      if Truthy(Slot(m, k)) || Slot(m, k) == Number(0) then Emit(w, f, m, Slot(m, k))
      else if f.simple then Returned(Text(""))
      else Next(m)
    case BufferEscaped(k, extra) => EmitEscaped(w, f, m, w.escape(Slot(m, k)), extra)
    case LoadHelper(k, name) => Next(SetSlot(m, k, w.helper(name)))
    case LoadContext(k, d, name) => Store(m, k, GetPropOf(w, ReadDepth(l, f, d), name))
    case LoadEither(k, d, name) =>
      if Truthy(w.helper(name)) then Next(SetSlot(m, k, w.helper(name)))
      else Store(m, k, GetPropOf(w, ReadDepth(l, f, d), name))
    case LoadDepth(k, d) => Store(m, k, ReadDepth(l, f, d))
    case LoadProp(k, name) => Store(m, k, GetProp(w, Slot(m, k), name))
    case LoadLiteral(k, c) => Next(SetSlot(m, k, LiteralOf(w, f, c)))
    case LoadString(k, s) => Next(SetSlot(m, k, Text(s)))
    case SetField(k, key, from) => Next(SetSlot(m, k, Record(FieldsOf(Slot(m, k))[key := Slot(m, from)])))
    case SetTmp(None) => Next(m.(tmp := Tmp(None, None, None, Undefined, [])))
    case SetTmp(Some(e)) =>
      (match EvalExpr(l, f, e)
       case Ok(r) => Next(m.(tmp := Tmp(Some(r), None, None, Undefined, [])))
       case Throw(x) => Threw(x))
    case TmpHash(from) => Next(m.(tmp := m.tmp.(hash := if from.Some? then Slot(m, from.value) else Record(map[]))))
    case TmpContexts => Next(m.(tmp := m.tmp.(contexts := [])))
    case TmpPushContext(k) => Next(m.(tmp := m.tmp.(contexts := m.tmp.contexts + [Slot(m, k)])))
    case TmpInverse(e) =>
      (match EvalExpr(l, f, e)
       case Ok(r) => Next(m.(tmp := m.tmp.(fn := m.tmp.self, inverse := Some(r))))
       case Throw(x) => Threw(x))
    case CallKnown(to, id, params, useTmp) =>
      StoreCall(l, m, to, Invoke(w, l, f, m, Slot(m, id), Params(m, params), useTmp))
    case CallMustache(to, id, params, useTmp, original) =>
      var callee := Slot(m, id);
      if callee.Function? then StoreCall(l, m, to, Invoke(w, l, f, m, callee, Params(m, params), useTmp))
      else if callee.Undefined? then
        StoreCall(l, m, to, Invoke(w, l, f, m, w.helper("helperMissing"), [Text(original)] + Params(m, params), useTmp))
      else Next(SetSlot(m, to, callee))
    case CallBlock(to, id, params) =>
      var callee := Slot(m, id);
      if callee.Function? then StoreCall(l, m, to, Invoke(w, l, f, m, callee, Params(m, params), true))
      else StoreCall(l, m, to, Invoke(w, l, f, m, w.helper("blockHelperMissing"), [callee] + Params(m, params), true))
    case CallPartial(k, name) => StoreCall(l, m, k, w.partialCall(name, Slot(m, k)))
  }

  function RunCode(w: World, l: Linked, f: Frame, code: seq<Instr>, m: Machine): Exec
    decreases if f.index < |l.table| then |l.table| - f.index else 0, 3, |code|
  {
    if code == [] then Next(m)
    else
      match RunInstr(w, l, f, code[0], m)
      case Next(m') => RunCode(w, l, f, code[1..], m')
      case Returned(v) => Returned(v)
      case Threw(e) => Threw(e)
  }

  /** Falling off the end returns the buffer, or nothing in a function without one. */
  function Finish(f: Frame, x: Exec): Res<Value> {
    match x
    case Returned(v) => Ok(v)
    case Threw(e) => Throw(e)
    case Next(m) => if f.simple then Ok(Undefined) else Ok(Text(m.buffer))
  }

  /** Positional arguments; missing ones are undefined. */
  function Bind(params: seq<nat>, args: seq<Value>): map<nat, Value> {
    map d | d in params :: ArgumentOf(params, args, d)
  }

  function ArgumentOf(params: seq<nat>, args: seq<Value>, d: nat): Value {
    if params == [] || args == [] then Undefined
    else if params[0] == d then args[0]
    else ArgumentOf(params[1..], args[1..], d)
  }

  function FrameOf(fn: Fn, index: nat, ctx: Value, args: seq<Value>): Frame {
    Frame(index, ctx, Bind(fn.params, args), fn.simple)
  }

  function RunFn(w: World, l: Linked, index: nat, ctx: Value, args: seq<Value>): Res<Value>
    requires index < |l.table| && l.table[index].Some?
    decreases |l.table| - index, 4
  {
    var fn := l.table[index].value;
    var f := FrameOf(fn, index, ctx, args);
    Finish(f, RunCode(w, l, f, fn.code, StartMachine(l)))
  }

  /** Code in sequence. */
  lemma {:induction false} RunConcat(w: World, l: Linked, f: Frame, a: seq<Instr>, b: seq<Instr>, m: Machine)
    ensures RunCode(w, l, f, a + b, m) ==
            match RunCode(w, l, f, a, m)
            case Next(m') => RunCode(w, l, f, b, m')
            case other => other
    decreases |a|
  {
    if a == [] {
      assert a + b == b;
    } else {
      assert (a + b)[1..] == a[1..] + b;
      var x := RunInstr(w, l, f, a[0], m);
      if x.Next? {
        RunConcat(w, l, f, a[1..], b, x.m);
      }
    }
  }

  lemma RunOne(w: World, l: Linked, f: Frame, instr: Instr, m: Machine)
    ensures RunCode(w, l, f, [instr], m) == RunInstr(w, l, f, instr, m)
  {
    assert [instr][1..] == [];
    var x := RunInstr(w, l, f, instr, m);
    if x.Next? {
      assert RunCode(w, l, f, [], x.m) == Next(x.m);
    }
  }
}
