/**
 A direct evaluator of template syntax trees: the reference meaning that compiled code is compared
 with.  `ctxs[0]` is the current context and `ctxs[d]` the context of the d-th enclosing program.

 In mode `Intended` every block and inverse section uses its own else branch, every path decides for
 itself whether it calls a known helper, and comments are empty.  Mode `AsEmitted` adds the two pieces
 of compiler state that survive from earlier statements of the same program, the inverse declared by a
 `{{^x}}` section and the known-helper flag left behind by a path, both stated by looking back at those
 statements; it leaves out the else branch of inverse sections, and a lone comment returns nothing.
 */
module TemplateEval {
  import opened JsRuntime
  import opened TemplateAst
  import JsText

  datatype Mode = Intended | AsEmitted

  // ----- state left behind by earlier statements

  /** The inverse program still declared when statement `i` starts. */
  function StickyInverse(p: Program, i: nat): (r: Option<Program>)
    requires i <= |p.statements|
    ensures r.Some? ==> r.value < p
  {
    if i == 0 then None
    else
      match p.statements[i - 1]
      case Block(_, _) => None
      case Inverse(_, q) =>
        assert p.statements[i - 1] < p;
        Some(q)
      case _ => StickyInverse(p, i - 1)
  }

  function KnownAfterId(o: Options, id: IdNode, known: bool): bool {
    if Head(id).None? then known else NamesKnownHelper(o, id)
  }

  function KnownAfterParam(o: Options, param: Param, known: bool): bool {
    if param.IdParam? then KnownAfterId(o, param.id, known) else known
  }

  /** Params are compiled from the last to the first. */
  function KnownAfterParams(o: Options, params: seq<Param>, known: bool): bool {
    if o.stringParams || params == [] then known
    else KnownAfterParam(o, params[0], KnownAfterParams(o, params[1..], known))
  }

  function KnownAfterPairs(o: Options, pairs: seq<Pair>, known: bool): bool {
    if pairs == [] then known
    else KnownAfterParam(o, pairs[|pairs| - 1].value, KnownAfterPairs(o, pairs[..|pairs| - 1], known))
  }

  function KnownAfterHash(o: Options, hash: Option<seq<Pair>>, known: bool): bool {
    if hash.None? then known else KnownAfterPairs(o, hash.value, known)
  }

  /** The flag when the head of a mustache has been compiled, `known` being its value before. */
  function KnownAtHead(o: Options, m: Mustache, known: bool): bool {
    KnownAfterId(o, m.id, KnownAfterHash(o, m.hash, KnownAfterParams(o, m.params, known)))
  }

  /** The flag when statement `i` starts: calls reset it, only a partial's context can leave it set. */
  function StaleKnown(o: Options, stmts: seq<Statement>, i: nat): bool
    requires i <= |stmts|
  {
    if i == 0 then false
    else
      match stmts[i - 1]
      case Content(_) => StaleKnown(o, stmts, i - 1)
      case Comment => StaleKnown(o, stmts, i - 1)
      case Partial(_, context) =>
        if context.None? then StaleKnown(o, stmts, i - 1)
        else KnownAfterId(o, context.value, StaleKnown(o, stmts, i - 1))
      case _ => false
  }

  /** Does statement `i` with mustache `m` call its head as a known helper? */
  predicate CallsKnownHelper(o: Options, mode: Mode, p: Program, i: nat, m: Mustache)
    requires i <= |p.statements|
  {
    match mode
    case Intended => NamesKnownHelper(o, m.id)
    case AsEmitted => KnownAtHead(o, m, StaleKnown(o, p.statements, i))
  }

  /** The else branch of block `i`. */
  function ElseBranch(mode: Mode, p: Program, i: nat): (r: Option<Program>)
    requires i < |p.statements| && p.statements[i].Block?
    ensures r.Some? ==> r.value < p
  {
    assert p.statements[i] < p;
    var own := p.statements[i].program.inverse;
    if own.Some? || mode.Intended? then own else StickyInverse(p, i)
  }

  /**
   The program that an inverse section with body `q` runs where its value is there: its else branch, which is
   never compiled.
   */
  function InverseMain(mode: Mode, q: Program): (r: Option<Program>)
    ensures r.Some? ==> r.value < q
  {
    if mode.Intended? then q.inverse else None
  }

  // ----- expressions

  datatype Args = Args(values: seq<Value>, contexts: seq<Value>)

  datatype Parts = Parts(args: Args, hash: Value, head: Value)

  /** The context `d` programs out; outside the template it is undefined. */
  function ContextAt(ctxs: seq<Value>, d: nat): Value {
    if d < |ctxs| then ctxs[d] else Undefined
  }

  function EvalPath(w: World, v: Value, names: seq<string>): Res<Value>
    decreases |names|
  {
    if names == [] then Ok(v)
    else
      var next :- GetProp(w, v, names[0]);
      EvalPath(w, next, names[1..])
  }

  /** The first name is looked up among the helpers, the context, or both. */
  function EvalHead(w: World, o: Options, id: IdNode, ctxs: seq<Value>): Res<Value> {
    var ctx := ContextAt(ctxs, id.depth);
    match Head(id)
    case None => Ok(ctx)
    case Some(name) =>
      if NamesKnownHelper(o, id) then Ok(w.helper(name))
      else if id.isScoped || o.knownOnly then GetProp(w, ctx, name)
      else if Truthy(w.helper(name)) then Ok(w.helper(name))
      else GetProp(w, ctx, name)
  }

  function EvalId(w: World, o: Options, id: IdNode, ctxs: seq<Value>): Res<Value> {
    var v :- EvalHead(w, o, id, ctxs);
    EvalPath(w, v, Tail(id))
  }

  function EvalParam(w: World, o: Options, param: Param, ctxs: seq<Value>): Res<Value> {
    match param
    case IdParam(id) => EvalId(w, o, id, ctxs)
    case StringParam(s) => Ok(Text(s))
    case IntegerParam(text) => Ok(w.literal(text))
    case BooleanParam(b) => Ok(Bool(b))
  }

  function JoinDots(parts: seq<string>): string {
    if parts == [] then "" else if |parts| == 1 then parts[0] else parts[0] + "." + JoinDots(parts[1..])
  }

  /** The text of a path tells its names apart. */
  predicate DotFree(parts: seq<string>) {
    parts != [] && forall part <- parts :: '.' !in part
  }

  /** Splitting the text of a path at its dots gives the names back, in order, exactly if none holds a dot. */
  lemma {:induction false} DotsSplitExactly(parts: seq<string>)
    ensures JsText.Split(JoinDots(parts), '.') == parts <==> DotFree(parts)
  {
    if DotFree(parts) {
      DotsSplit(parts);
    } else {
      JsText.JoinSplit(JoinDots(parts), '.');
    }
  }

  lemma {:induction false} DotsSplit(parts: seq<string>)
    requires DotFree(parts)
    ensures JsText.Split(JoinDots(parts), '.') == parts
  {
    if |parts| == 1 {
      JsText.SplitNone(parts[0], '.');
      assert parts == [parts[0]];
    } else {
      DotsSplit(parts[1..]);
      JsText.SplitFirst(parts[0], '.', JoinDots(parts[1..]));
      assert parts == [parts[0]] + parts[1..];
    }
  }

  /** `param.string`: integers and booleans have none. */
  function ParamString(param: Param): Option<string> {
    match param
    case IdParam(id) => Some(JoinDots(id.parts))
    case StringParam(s) => Some(s)
    case _ => None
  }

  /** `param.depth || 0` */
  function ParamDepth(param: Param): nat {
    if param.IdParam? then param.id.depth else 0
  }

  /**
   A param as it is passed, with its context: with `stringParams` the text of the param together
   with the context it names, otherwise its value.
   */
  function EvalArgument(w: World, o: Options, param: Param, ctxs: seq<Value>): Res<(Value, Value)> {
    if o.stringParams then
      var text := if ParamString(param).Some? then Text(ParamString(param).value) else Undefined;
      Ok((text, ContextAt(ctxs, ParamDepth(param))))
    else
      var v :- EvalParam(w, o, param, ctxs);
      Ok((v, Undefined))
  }

  function PushArgument(o: Options, args: Args, a: (Value, Value)): Args {
    Args([a.0] + args.values, if o.stringParams then [a.1] + args.contexts else [])
  }

  function EvalParams(w: World, o: Options, params: seq<Param>, ctxs: seq<Value>): Res<Args> {
    if params == [] then Ok(Args([], []))
    else
      var rest :- EvalParams(w, o, params[1..], ctxs);
      var a :- EvalArgument(w, o, params[0], ctxs);
      Ok(PushArgument(o, rest, a))
  }

  function EvalPairs(w: World, o: Options, pairs: seq<Pair>, ctxs: seq<Value>): Res<map<string, Value>> {
    if pairs == [] then Ok(map[])
    else
      var last := pairs[|pairs| - 1];
      var fields :- EvalPairs(w, o, pairs[..|pairs| - 1], ctxs);
      var v :- EvalParam(w, o, last.value, ctxs);
      Ok(fields[last.key := v])
  }

  function EvalHash(w: World, o: Options, hash: Option<seq<Pair>>, ctxs: seq<Value>): Res<Value> {
    if hash.None? then Ok(Record(map[]))
    else
      var fields :- EvalPairs(w, o, hash.value, ctxs);
      Ok(Record(fields))
  }

  function EvalParts(w: World, o: Options, m: Mustache, ctxs: seq<Value>): Res<Parts> {
    var args :- EvalParams(w, o, m.params, ctxs);
    var hash :- EvalHash(w, o, m.hash, ctxs);
    var head :- EvalId(w, o, m.id, ctxs);
    Ok(Parts(args, hash, head))
  }

  // ----- statements

  /** A mustache outside a block gives its helper no program to run. */
  function NoRunner(): (bool, Value) -> Res<Value> {
    (inverse, c) => Ok(Undefined)
  }

  function ApplyHead(w: World, original: string, known: bool, x: Parts, self: Value): Res<Value> {
    if known || x.head.Function? then
      CallValue(w, x.head, self, x.args.values, x.hash, x.args.contexts, false, NoRunner())
    else if x.head.Undefined? then
      CallValue(w, w.helper("helperMissing"), self, [Text(original)] + x.args.values, x.hash, x.args.contexts, false,
                NoRunner())
    else Ok(x.head)
  }

  function ApplySection(w: World, known: bool, x: Parts, self: Value, runner: (bool, Value) -> Res<Value>): Res<Value> {
    if known || x.head.Function? then
      CallValue(w, x.head, self, x.args.values, x.hash, x.args.contexts, true, runner)
    else
      CallValue(w, w.helper("blockHelperMissing"), self, [x.head] + x.args.values, x.hash, x.args.contexts, true,
                runner)
  }

  /** What an unescaped value contributes: falsy values other than 0 contribute nothing. */
  function Shown(v: Value): Value {
    if Truthy(v) || v == Number(0) then v else Text("")
  }

  function EvalOutput(w: World, o: Options, known: bool, m: Mustache, ctxs: seq<Value>): Res<Value>
    requires |ctxs| > 0
  {
    var x :- EvalParts(w, o, m, ctxs);
    var v :- ApplyHead(w, m.id.original, known, x, ctxs[0]);
    if m.escaped then w.escape(v) else Ok(Shown(v))
  }

  function EvalPartial(w: World, o: Options, name: string, context: Option<IdNode>, ctxs: seq<Value>): Res<Value>
    requires |ctxs| > 0
  {
    var c :- if context.None? then Ok(ctxs[0]) else EvalId(w, o, context.value, ctxs);
    var v :- w.partialCall(name, c);
    Ok(Shown(v))
  }

  function EvalSection(w: World, o: Options, known: bool, m: Mustache, ctxs: seq<Value>,
                       runner: (bool, Value) -> Res<Value>): Res<Value>
    requires |ctxs| > 0
  {
    var x :- EvalParts(w, o, m, ctxs);
    var v :- ApplySection(w, known, x, ctxs[0], runner);
    Ok(Shown(v))
  }

  /** The two programs of a block; an absent one returns the empty string. */
  function Runner(w: World, o: Options, mode: Mode, outer: Program, main: Option<Program>, inverse: Option<Program>,
                  ctxs: seq<Value>): (bool, Value) -> Res<Value>
    requires main.Some? ==> main.value < outer
    requires inverse.Some? ==> inverse.value < outer
    decreases outer, 0
  {
    (inv: bool, c: Value) =>
      var q := if inv then inverse else main;
      match q
      case None => Ok(Text(""))
      case Some(r) => EvalProgram(w, o, mode, r, [c] + ctxs)
  }

  function EvalStatement(w: World, o: Options, mode: Mode, p: Program, i: nat, ctxs: seq<Value>): Res<Value>
    requires i < |p.statements| && |ctxs| > 0
    decreases p, 1
  {
    match p.statements[i]
    case Content(text) => Ok(Text(text))
    case Comment => Ok(Text(""))
    case Output(m) => EvalOutput(w, o, CallsKnownHelper(o, mode, p, i, m), m, ctxs)
    case Partial(name, context) => EvalPartial(w, o, name, context, ctxs)
    case Block(m, q) =>
      assert p.statements[i] < p;
      EvalSection(w, o, CallsKnownHelper(o, mode, p, i, m), m, ctxs,
                  Runner(w, o, mode, p, Some(q), ElseBranch(mode, p, i), ctxs))
    case Inverse(m, q) =>
      assert p.statements[i] < p;
      EvalSection(w, o, CallsKnownHelper(o, mode, p, i, m), m, ctxs,
                  Runner(w, o, mode, p, InverseMain(mode, q), Some(q), ctxs))
  }

  /** The text that the first `n` statements put into the buffer. */
  function EvalText(w: World, o: Options, mode: Mode, p: Program, n: nat, ctxs: seq<Value>): Res<string>
    requires n <= |p.statements| && |ctxs| > 0
    decreases p, 2, n
  {
    if n == 0 then Ok("")
    else
      var text :- EvalText(w, o, mode, p, n - 1, ctxs);
      var v :- EvalStatement(w, o, mode, p, n - 1, ctxs);
      Ok(text + ToText(w, v))
  }

  /**
   A program of one statement returns the value of that statement; any other program returns the
   concatenated text.  A lone comment should be empty, but as emitted it returns nothing.
   */
  function EvalProgram(w: World, o: Options, mode: Mode, p: Program, ctxs: seq<Value>): Res<Value>
    requires |ctxs| > 0
    decreases p, 3
  {
    if |p.statements| == 1 then
      if p.statements[0].Comment? then Ok(if mode.Intended? then Text("") else Undefined)
          else EvalStatement(w, o, mode, p, 0, ctxs)
    else
      var text :- EvalText(w, o, mode, p, |p.statements|, ctxs);
      Ok(Text(text))
  }
}
