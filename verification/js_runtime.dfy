/**
 The JavaScript values and calls that templates meet at run time.  Property lookup, escaping,
 number syntax, partials and user-written helpers stay abstract: they are fields of a `World`.
 The six helpers that the template library registers itself are written out.
 */
module JsRuntime {

  datatype Option<+T> = None | Some(value: T)

  /** The result of an evaluation that may throw. */
  datatype Res<+T> = Ok(value: T) | Throw(error: string) {
    predicate IsFailure() {
      Throw?
    }

    function PropagateFailure<U>(): Res<U>
      requires Throw?
    {
      Throw(error)
    }

    function Extract(): T
      requires Ok?
    {
      value
    }
  }

  datatype FunctionId =
    | HelperMissing
    | BlockHelperMissing
    | Each
    | If
    | Unless
    | With
    | Custom(id: nat)

  datatype Value =
    | Undefined
    | Null
    | Bool(b: bool)
    | Number(n: int)
    | Text(s: string)
    | List(items: seq<Value>)
    | Function(f: FunctionId)
    | Object(ref: nat)
    | Record(fields: map<string, Value>)

  /** One call of a helper; `args` are the arguments in front of the options object. */
  datatype Call = Call(f: FunctionId, self: Value, args: seq<Value>, hash: Value, contexts: seq<Value>)

  /** What a helper does next: run one of the programs it was given, return, or throw. */
  datatype Step =
    | RunProgram(inverse: bool, ctx: Value)
    | Return(v: Value)
    | Raise(error: string)

  /**
   Everything the templates do not define themselves.  A user-written helper is described by the
   step it takes after the answers `history` it got from its programs so far, and by a bound on
   the number of programs it runs for one call.
   */
  datatype World = World(
    helper: string -> Value,
    prop: (Value, string) -> Value,
    show: Value -> string,
    escape: Value -> Res<Value>,
    literal: string -> Value,
    partialCall: (string, Value) -> Res<Value>,
    elements: Value -> seq<Value>,
    bareCall: FunctionId -> Res<Value>,
    foreignOptions: Call -> Res<Value>,
    customStep: (Call, seq<Value>) -> Step,
    customLimit: Call -> nat)

  predicate Truthy(v: Value) {
    match v
    case Undefined => false
    case Null => false
    case Bool(b) => b
    case Number(n) => n != 0
    case Text(s) => s != ""
    case _ => true
  }

  /** String conversion as in `buffer += v`. */
  function ToText(w: World, v: Value): string {
    if v.Text? then v.s else w.show(v)
  }

  /** `v.name`, which throws on undefined and null. */
  function GetProp(w: World, v: Value, name: string): Res<Value> {
    if v.Undefined? || v.Null? then Throw("cannot read property " + name) else Ok(w.prop(v, name))
  }

  /** `Handlebars.Utils.isEmpty` */
  predicate IsEmpty(v: Value) {
    v.Undefined? || v.Null? || v == Bool(false) || v == List([])
  }

  /** The elements that `each` walks over: none unless the value is truthy with a positive length. */
  function EachItems(w: World, v: Value): seq<Value> {
    match v
    case List(items) => items
    case Text(s) => seq(|s|, i requires 0 <= i < |s| => Text([s[i]]))
    case _ => if Truthy(v) then w.elements(v) else []
  }

  function ConcatText(w: World, vs: seq<Value>): string {
    if vs == [] then "" else ConcatText(w, vs[..|vs| - 1]) + ToText(w, vs[|vs| - 1])
  }

  /** Runs `fn` on every item and returns the concatenation of the results. */
  function LoopStep(w: World, items: seq<Value>, history: seq<Value>): Step {
    if |history| < |items| then RunProgram(false, items[|history|]) else Return(Text(ConcatText(w, history)))
  }

  /** Runs one program and returns its result as it is. */
  function OnceStep(inverse: bool, ctx: Value, history: seq<Value>): Step {
    if history == [] then RunProgram(inverse, ctx) else Return(history[0])
  }

  function IfStep(negated: bool, self: Value, context: Value, history: seq<Value>): Step {
    OnceStep((!Truthy(context) || IsEmpty(context)) != negated, self, history)
  }

  /** A function passed as the context is called first; its result is never treated as a list. */
  function BlockMissingStep(w: World, self: Value, context: Value, history: seq<Value>): Step {
    if context.Function? then
      match w.bareCall(context.f)
      case Throw(e) => Raise(e)
      case Ok(v) =>
        if v == Bool(true) then OnceStep(false, self, history)
        else if v == Bool(false) || v.Undefined? || v.Null? then OnceStep(true, self, history)
        else OnceStep(false, v, history)
    else if context == Bool(true) then OnceStep(false, self, history)
    else if context == Bool(false) || context.Undefined? || context.Null? then OnceStep(true, self, history)
    else if context.List? then
      if |context.items| > 0 then LoopStep(w, context.items, history) else OnceStep(true, self, history)
    else OnceStep(false, context, history)
  }

  function EachStep(w: World, self: Value, context: Value, history: seq<Value>): Step {
    var items := EachItems(w, context);
    if |items| > 0 then LoopStep(w, items, history) else OnceStep(true, self, history)
  }

  function HelperStep(w: World, call: Call, history: seq<Value>): Step {
    match call.f
    case Custom(_) => w.customStep(call, history)
    case HelperMissing =>
      if |call.args| == 1 then Return(Undefined) else Raise("Could not find property")
    case _ =>
      // these helpers are declared as function(context, options)
      if |call.args| == 0 then Raise("options is undefined")
      else if |call.args| > 1 then
        (match w.foreignOptions(call) case Ok(v) => Return(v) case Throw(e) => Raise(e))
      else
        var context := call.args[0];
        match call.f
        case BlockHelperMissing => BlockMissingStep(w, call.self, context, history)
        case Each => EachStep(w, call.self, context, history)
        case If => IfStep(false, call.self, context, history)
        case Unless => IfStep(true, call.self, context, history)
        case _ => OnceStep(false, context, history)
  }

  /** How many programs one call may run. */
  function HelperLimit(w: World, call: Call): nat {
    if call.f.Custom? then w.customLimit(call)
    else if |call.args| == 0 then 1
    else 1 + |EachItems(w, call.args[0])|
  }

  /** Runs a helper to its end, answering each request with `runner`. */
  function Drive(w: World, call: Call, isBlock: bool, runner: (bool, Value) -> Res<Value>,
                 history: seq<Value>): Res<Value>
    decreases HelperLimit(w, call) - |history|
  {
    match HelperStep(w, call, history)
    case Return(v) => Ok(v)
    case Raise(e) => Throw(e)
    case RunProgram(inverse, ctx) =>
      if !isBlock then Throw("options.fn is not a function")
      else if |history| >= HelperLimit(w, call) then Throw("helper ran too many programs")
      else
        var v :- runner(inverse, ctx);
        Drive(w, call, isBlock, runner, history + [v])
  }

  /** `f.call(self, args..., options)` */
  function CallValue(w: World, f: Value, self: Value, args: seq<Value>, hash: Value, contexts: seq<Value>,
                     isBlock: bool, runner: (bool, Value) -> Res<Value>): Res<Value>
  {
    if f.Function? then Drive(w, Call(f.f, self, args, hash, contexts), isBlock, runner, [])
    else Throw("not a function")
  }

  /** Helpers cannot tell apart two runners that give the same answers. */
  lemma {:induction false} DriveAgrees(w: World, call: Call, isBlock: bool,
                    r1: (bool, Value) -> Res<Value>, r2: (bool, Value) -> Res<Value>, history: seq<Value>)
    requires isBlock ==> forall b, c :: r1(b, c) == r2(b, c)
    ensures Drive(w, call, isBlock, r1, history) == Drive(w, call, isBlock, r2, history)
    decreases HelperLimit(w, call) - |history|
  {
    var step := HelperStep(w, call, history);
    if step.RunProgram? && isBlock && |history| < HelperLimit(w, call) {
      var v := r1(step.inverse, step.ctx);
      assert v == r2(step.inverse, step.ctx);
      if v.Ok? {
        DriveAgrees(w, call, isBlock, r1, r2, history + [v.value]);
      }
    }
  }

  lemma CallAgrees(w: World, f: Value, self: Value, args: seq<Value>, hash: Value, contexts: seq<Value>,
                   isBlock: bool, r1: (bool, Value) -> Res<Value>, r2: (bool, Value) -> Res<Value>)
    requires isBlock ==> forall b, c :: r1(b, c) == r2(b, c)
    ensures CallValue(w, f, self, args, hash, contexts, isBlock, r1) ==
            CallValue(w, f, self, args, hash, contexts, isBlock, r2)
  {
    if f.Function? {
      DriveAgrees(w, Call(f.f, self, args, hash, contexts), isBlock, r1, r2, []);
    }
  }

  /** `unless` is `if` with its two programs exchanged. */
  lemma UnlessSwapsIf(w: World, self: Value, context: Value, hash: Value, contexts: seq<Value>,
                      r1: (bool, Value) -> Res<Value>, r2: (bool, Value) -> Res<Value>)
    requires forall b, c :: r1(b, c) == r2(!b, c)
    ensures Drive(w, Call(Unless, self, [context], hash, contexts), true, r1, []) ==
            Drive(w, Call(If, self, [context], hash, contexts), true, r2, [])
  {
    var unless, yes := Call(Unless, self, [context], hash, contexts), Call(If, self, [context], hash, contexts);
    var negative := !Truthy(context) || IsEmpty(context);
    assert HelperStep(w, unless, []) == RunProgram(!negative, self);
    assert HelperStep(w, yes, []) == RunProgram(negative, self);
    var v := r1(!negative, self);
    assert v == r2(negative, self);
    if v.Ok? {
      assert [] + [v.value] == [v.value];
      assert HelperStep(w, unless, [v.value]) == Return(v.value) == HelperStep(w, yes, [v.value]);
    }
  }

  // ----- what the built-in helpers return

  /** The values that count as false, and those that a condition treats so. */
  const FALSY := [Undefined, Null, Bool(false), Number(0), Text("")]

  lemma TruthyExactly(v: Value)
    ensures Truthy(v) <==> v !in FALSY
    ensures !Truthy(v) || IsEmpty(v) <==> v in FALSY + [List([])]
  {
    assert v in FALSY <==> v == Undefined || v == Null || v == Bool(false) || v == Number(0) || v == Text("");
  }

  /** A helper that runs one program once returns what that returns, or throws what it throws. */
  lemma OnceRuns(w: World, call: Call, inverse: bool, ctx: Value, runner: (bool, Value) -> Res<Value>)
    requires HelperStep(w, call, []) == RunProgram(inverse, ctx) && HelperLimit(w, call) > 0
    requires forall v :: HelperStep(w, call, [v]) == Return(v)
    ensures Drive(w, call, true, runner, []) == runner(inverse, ctx)
  {
    var v := runner(inverse, ctx);
    if v.Ok? {
      assert [] + [v.value] == [v.value];
      assert HelperStep(w, call, [v.value]) == Return(v.value);
    }
  }

  /** `if` runs its first program in the current context for values that hold, and the second one for all others. */
  lemma IfRuns(w: World, self: Value, context: Value, hash: Value, contexts: seq<Value>,
               runner: (bool, Value) -> Res<Value>)
    ensures Drive(w, Call(If, self, [context], hash, contexts), true, runner, []) ==
            runner(context in FALSY + [List([])], self)
  {
    TruthyExactly(context);
    OnceRuns(w, Call(If, self, [context], hash, contexts), context in FALSY + [List([])], self, runner);
  }

  /** `with` runs its program in the context that it is given. */
  lemma WithRuns(w: World, self: Value, context: Value, hash: Value, contexts: seq<Value>,
                 runner: (bool, Value) -> Res<Value>)
    ensures Drive(w, Call(With, self, [context], hash, contexts), true, runner, []) == runner(false, context)
  {
    OnceRuns(w, Call(With, self, [context], hash, contexts), false, context, runner);
  }

  /** The texts of a program run on one item after the other, from the first; it ends with the first exception. */
  function RunOver(w: World, items: seq<Value>, runner: (bool, Value) -> Res<Value>): Res<string> {
    if items == [] then Ok("")
    else
      var v :- runner(false, items[0]);
      var rest :- RunOver(w, items[1..], runner);
      Ok(ToText(w, v) + rest)
  }

  function AsText(r: Res<string>): Res<Value> {
    match r
    case Ok(s) => Ok(Text(s))
    case Throw(e) => Throw(e)
  }

  /** A helper in the middle of a loop returns what it has, followed by the texts of the items still to come. */
  lemma {:induction false} LoopRuns(w: World, call: Call, items: seq<Value>, runner: (bool, Value) -> Res<Value>,
                                    history: seq<Value>)
    requires forall h :: HelperStep(w, call, h) == LoopStep(w, items, h)
    requires |history| <= |items| <= HelperLimit(w, call)
    ensures var rest := RunOver(w, items[|history|..], runner);
            Drive(w, call, true, runner, history) ==
            AsText(if rest.Ok? then Ok(ConcatText(w, history) + rest.value) else rest)
    decreases |items| - |history|
  {
    hide ToText, HelperLimit, ConcatText, HelperStep;
    assert HelperStep(w, call, history) == LoopStep(w, items, history);
    if |history| == |items| {
      assert items[|history|..] == [] && ConcatText(w, history) + "" == ConcatText(w, history);
    } else {
      var v := runner(false, items[|history|]);
      assert items[|history|..][0] == items[|history|] && items[|history|..][1..] == items[|history| + 1..];
      if v.Ok? {
        LoopRuns(w, call, items, runner, history + [v.value]);
        ConcatLast(w, history, v.value);
        var rest := RunOver(w, items[|history| + 1..], runner);
        if rest.Ok? {
          assert ConcatText(w, history) + (ToText(w, v.value) + rest.value) ==
                 ConcatText(w, history) + ToText(w, v.value) + rest.value;
        }
      }
    }
  }

  lemma WholeLoopRuns(w: World, call: Call, items: seq<Value>, runner: (bool, Value) -> Res<Value>)
    requires forall h :: HelperStep(w, call, h) == LoopStep(w, items, h)
    requires |items| <= HelperLimit(w, call)
    ensures Drive(w, call, true, runner, []) == AsText(RunOver(w, items, runner))
  {
    hide HelperStep, RunOver, HelperLimit, Drive;
    LoopRuns(w, call, items, runner, []);
    var rest := RunOver(w, items, runner);
    assert items[0..] == items && ConcatText(w, []) == "";
    if rest.Ok? {
      assert "" + rest.value == rest.value;
    }
  }

  lemma ConcatLast(w: World, vs: seq<Value>, v: Value)
    ensures ConcatText(w, vs + [v]) == ConcatText(w, vs) + ToText(w, v)
  {
    assert (vs + [v])[..|vs|] == vs;
  }

  /**
   `each` shows its program for every item, in order, and its second program in the current context if there is
   none.  The items of a list are its elements, those of a text its characters; false values have none.
   */
  lemma EachRuns(w: World, self: Value, context: Value, hash: Value, contexts: seq<Value>,
                 runner: (bool, Value) -> Res<Value>)
    ensures var items := EachItems(w, context);
            && Drive(w, Call(Each, self, [context], hash, contexts), true, runner, []) ==
               (if items == [] then runner(true, self) else AsText(RunOver(w, items, runner)))
            && (context.List? ==> items == context.items)
            && (context.Text? ==>
                  |items| == |context.s| && forall i :: 0 <= i < |items| ==> items[i] == Text([context.s[i]]))
            && (context in FALSY ==> items == [])
  {
    hide ToText, RunOver;
    var call, items := Call(Each, self, [context], hash, contexts), EachItems(w, context);
    TruthyExactly(context);
    if items == [] {
      OnceRuns(w, call, true, self, runner);
    } else {
      WholeLoopRuns(w, call, items, runner);
    }
  }

  /**
   A section without a helper: its first program in the current context for true, its second one for false, undefined,
   null and an empty list, its program for every item of a list, in order, and otherwise in the context of the value.
   */
  lemma BlockMissingRuns(w: World, self: Value, context: Value, hash: Value, contexts: seq<Value>,
                         runner: (bool, Value) -> Res<Value>)
    requires !context.Function?
    ensures Drive(w, Call(BlockHelperMissing, self, [context], hash, contexts), true, runner, []) ==
            if context == Bool(true) then runner(false, self)
            else if context in [Bool(false), Undefined, Null, List([])] then runner(true, self)
            else if context.List? then AsText(RunOver(w, context.items, runner))
            else runner(false, context)
  {
    hide ToText, RunOver;
    var call := Call(BlockHelperMissing, self, [context], hash, contexts);
    if context == Bool(true) {
      OnceRuns(w, call, false, self, runner);
    } else if context in [Bool(false), Undefined, Null, List([])] {
      OnceRuns(w, call, true, self, runner);
    } else if context.List? {
      WholeLoopRuns(w, call, context.items, runner);
    } else {
      OnceRuns(w, call, false, context, runner);
    }
  }

  /** A function is called first, and the section is that of its result, except that a list is not walked over. */
  lemma FunctionMissingRuns(w: World, self: Value, f: FunctionId, hash: Value, contexts: seq<Value>,
                           runner: (bool, Value) -> Res<Value>)
    ensures var r := w.bareCall(f);
            Drive(w, Call(BlockHelperMissing, self, [Function(f)], hash, contexts), true, runner, []) ==
            if r.Throw? then r
            else if r.value == Bool(true) then runner(false, self)
            else if r.value in [Bool(false), Undefined, Null] then runner(true, self)
            else runner(false, r.value)
  {
    var call, r := Call(BlockHelperMissing, self, [Function(f)], hash, contexts), w.bareCall(f);
    if r.Throw? {
      assert HelperStep(w, call, []) == Raise(r.error);
    } else if r.value == Bool(true) {
      OnceRuns(w, call, false, self, runner);
    } else if r.value in [Bool(false), Undefined, Null] {
      OnceRuns(w, call, true, self, runner);
    } else {
      OnceRuns(w, call, false, r.value, runner);
    }
  }
}
