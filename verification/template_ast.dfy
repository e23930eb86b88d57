/** The syntax tree of a template, as the parser hands it to the compiler. */
module TemplateAst {
  import opened JsRuntime

  type Numeral = s: string | s != "" && forall i :: 0 <= i < |s| ==> '0' <= s[i] <= '9' witness "0"

  /** A path such as `../this.a.b`: `depth` counts the `..`, `isScoped` records a `this` or `.`. */
  datatype IdNode = Id(parts: seq<string>, depth: nat, isScoped: bool, original: string)

  datatype Param =
    | IdParam(id: IdNode)
    | StringParam(s: string)
    | IntegerParam(text: Numeral)
    | BooleanParam(b: bool)

  datatype Pair = Pair(key: string, value: Param)

  datatype Mustache = Mustache(id: IdNode, params: seq<Param>, hash: Option<seq<Pair>>, escaped: bool)

  datatype Program = Program(statements: seq<Statement>, inverse: Option<Program>)

  datatype Statement =
    | Content(text: string)
    | Comment
    | Output(mustache: Mustache)
    | Partial(name: string, context: Option<IdNode>)
    | Block(mustache: Mustache, program: Program)
    | Inverse(mustache: Mustache, program: Program)

  /** Compiler options; `known` is the set of names for which `knownHelpers[name]` is truthy. */
  datatype Options = Options(known: set<string>, knownOnly: bool, stringParams: bool)

  /** The name that a path looks up first, if any: `id.parts[0] || null`. */
  function Head(id: IdNode): Option<string> {
    if |id.parts| > 0 && id.parts[0] != "" then Some(id.parts[0]) else None
  }

  function Tail(id: IdNode): seq<string> {
    if |id.parts| > 0 then id.parts[1..] else []
  }

  /** A path whose head names a known helper, so that the helper table alone is consulted. */
  predicate NamesKnownHelper(o: Options, id: IdNode) {
    Head(id).Some? && !id.isScoped && Head(id).value in o.known
  }

  /** The programs nested directly in a statement, in the order in which they are compiled. */
  function NestedIn(s: Statement): seq<Program> {
    match s
    case Block(_, p) => if p.inverse.Some? then [p, p.inverse.value] else [p]
    case Inverse(_, p) => [p]
    case _ => []
  }

  /** The programs nested in the first `n` statements. */
  function NestedUpTo(stmts: seq<Statement>, n: nat): seq<Program>
    requires n <= |stmts|
  {
    if n == 0 then [] else NestedUpTo(stmts, n - 1) + NestedIn(stmts[n - 1])
  }

  function Nested(p: Program): seq<Program> {
    NestedUpTo(p.statements, |p.statements|)
  }

  lemma {:induction false} NestedUpToPrefix(stmts: seq<Statement>, m: nat, n: nat)
    requires m <= n <= |stmts|
    ensures NestedUpTo(stmts, m) <= NestedUpTo(stmts, n)
    decreases n
  {
    if m < n {
      NestedUpToPrefix(stmts, m, n - 1);
    }
  }

  /** A nested program is smaller than the program around it. */
  lemma {:induction false} NestedSmaller(p: Program, n: nat, k: nat)
    requires n <= |p.statements| && k < |NestedUpTo(p.statements, n)|
    ensures NestedUpTo(p.statements, n)[k] < p
    decreases n
  {
    var before := NestedUpTo(p.statements, n - 1);
    if k < |before| {
      NestedSmaller(p, n - 1, k);
    } else {
      assert p.statements[n - 1] < p;
    }
  }
}
