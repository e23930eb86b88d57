/** Two templates from source to text: compiled by both passes, run, and shown to give the text that they spell. */
module TemplateRendering {
  import opened JsRuntime
  import opened TemplateAst
  import opened TemplateEval
  import opened FirstPass
  import TemplateLink
  import TemplateLaws
  import opened TemplateProof
  import TemplateQuirks
  import SlotMachine

  function Name(name: string): IdNode {
    Id([name], 0, false, name)
  }

  /** The options and the world know the helper, and `name` is a plain property. */
  ghost predicate Plain(w: World, o: Options, helper: string, f: FunctionId, name: string, ctx: Value) {
    && helper in o.known && helper != "" && !o.stringParams && w.helper(helper) == Function(f)
    && name != "" && name !in o.known && w.helper(name) == Undefined && !ctx.Undefined? && !ctx.Null?
  }

  lemma NameGives(w: World, o: Options, helper: string, f: FunctionId, name: string, ctx: Value)
    requires Plain(w, o, helper, f, name, ctx)
    ensures EvalParam(w, o, IdParam(Name(name)), [ctx]) == Ok(w.prop(ctx, name))
  {
    var id := Name(name);
    assert Head(id) == Some(name) && Tail(id) == [];
    assert EvalHead(w, o, id, [ctx]) == Ok(w.prop(ctx, name));
  }

  // ----- a block alone

  /** `{{#helper name}}...{{/helper}}` */
  function Alone(helper: string, name: string, q: Program): Program {
    Program([Block(Mustache(Name(helper), [IdParam(Name(name))], None, false), q)], None)
  }

  lemma NestedAlone(helper: string, name: string, q: Program)
    ensures var p := Alone(helper, name, q);
            q < p && Nested(p) == if q.inverse.Some? then [q, q.inverse.value] else [q]
  {
    var p := Alone(helper, name, q);
    assert p.statements[0] < p;
    assert NestedUpTo(p.statements, 1) == NestedUpTo(p.statements, 0) + NestedIn(p.statements[0]);
    assert NestedUpTo(p.statements, 0) == [];
  }

  /** Programs without blocks, inverse sections, partials and lone comments, whose mustaches have names or no params. */
  ghost predicate Flat(o: Options, q: Program) {
    && !TemplateQuirks.LoneComment(q)
    && forall s <- q.statements :: s.Content? || (s.Output? && s.mustache.params == [] && s.mustache.hash.None?)
  }

  lemma {:induction false} FlatNested(q: Program, n: nat)
    requires n <= |q.statements| && forall s <- q.statements :: s.Content? || s.Output?
    ensures NestedUpTo(q.statements, n) == [] && !UsesPartialUpTo(q, n)
    decreases n
  {
    if n > 0 {
      FlatNested(q, n - 1);
      assert q.statements[n - 1] in q.statements;
    }
  }

  lemma FlatIsRegular(o: Options, q: Program)
    requires Flat(o, q)
    ensures TemplateQuirks.Regular(o, q) && Nested(q) == []
  {
    FlatNested(q, |q.statements|);
    forall i | 0 <= i < |q.statements|
      ensures TemplateQuirks.RegularStatement(o, q, i)
    {
      assert q.statements[i] in q.statements;
      if q.statements[i].Output? {
        NoPathsBefore(o, q, i, q.statements[i].mustache);
      }
    }
  }

  lemma {:induction false} NoPartialPaths(q: Program, i: nat)
    requires i <= |q.statements| && forall s <- q.statements :: s.Content? || s.Output?
    ensures TemplateQuirks.PartialPaths(q.statements, i) == []
    decreases i
  {
    if i > 0 {
      assert q.statements[i - 1] in q.statements;
      if q.statements[i - 1].Content? {
        NoPartialPaths(q, i - 1);
      }
    }
  }

  lemma NoPathsBefore(o: Options, q: Program, i: nat, m: Mustache)
    requires Flat(o, q) && i < |q.statements| && m.params == [] && m.hash.None?
    ensures !TemplateQuirks.EndsInHelper(o, TemplateQuirks.PathsBefore(o, q, i, m))
  {
    NoPartialPaths(q, i);
  }

  lemma StatementIsRegular(o: Options, helper: string, name: string, q: Program)
    requires helper != ""
    ensures TemplateQuirks.RegularStatement(o, Alone(helper, name, q), 0)
  {
    hide TemplateQuirks.PathsBefore, TemplateQuirks.EndsInHelper, TemplateQuirks.IsEmptyText;
    assert StickyInverse(Alone(helper, name, q), 0).None?;
  }

  /** A block around flat programs, in which a name is looked up last before the call, is compiled as it is meant. */
  lemma AloneIsRegular(o: Options, helper: string, name: string, q: Program)
    requires helper != "" && Flat(o, q) && (q.inverse.Some? ==> Flat(o, q.inverse.value))
    requires !TemplateLink.DropsLastDepth(Ascending(Needs(o, q)), UsesPartial(q))
    requires q.inverse.Some? ==>
               var r := q.inverse.value; !TemplateLink.DropsLastDepth(Ascending(Needs(o, r)), UsesPartial(r))
    ensures var p := Alone(helper, name, q); TemplateQuirks.RegularTemplate(o, p) && KeepsDepths(o, p)
  {
    hide TemplateLink.DropsLastDepth, Needs, UsesPartial, Flat, TemplateQuirks.RegularStatement, Nested, KidKeepsDepths,
         TemplateQuirks.RegularKid;
    var p := Alone(helper, name, q);
    NestedAlone(helper, name, q);
    FlatIsRegular(o, q);
    KeepsAlone(o, q);
    if q.inverse.Some? {
      FlatIsRegular(o, q.inverse.value);
      KeepsAlone(o, q.inverse.value);
    }
    StatementIsRegular(o, helper, name, q);
    forall k | 0 <= k < |Nested(p)|
      ensures TemplateQuirks.RegularKid(o, p, k) && KidKeepsDepths(o, p, k)
    {
      KidIsRegular(o, p, k, if k == 0 then q else q.inverse.value);
    }
    assert p.statements[0].Block? && !TemplateQuirks.LoneComment(p);
    assert TemplateQuirks.Regular(o, p);
    assert KeepsDepths(o, p);
  }

  lemma KidIsRegular(o: Options, p: Program, k: nat, q: Program)
    requires k < |Nested(p)| && Nested(p)[k] == q && TemplateQuirks.Regular(o, q) && KeepsDepths(o, q)
    requires !TemplateLink.DropsLastDepth(Ascending(Needs(o, q)), UsesPartial(q))
    ensures TemplateQuirks.RegularKid(o, p, k) && KidKeepsDepths(o, p, k)
  {
    hide TemplateLink.DropsLastDepth, Needs, UsesPartial, TemplateQuirks.Regular, KeepsDepths;
  }

  lemma KeepsAlone(o: Options, q: Program)
    requires Nested(q) == []
    ensures KeepsDepths(o, q)
  {
  }

  lemma AloneRenders(w: World, o: Options, helper: string, name: string, q: Program, junk: SlotMachine.Tmp, ctx: Value)
    requires helper != "" && !o.stringParams && Flat(o, q) && (q.inverse.Some? ==> Flat(o, q.inverse.value))
    requires !TemplateLink.DropsLastDepth(Ascending(Needs(o, q)), UsesPartial(q))
    requires q.inverse.Some? ==>
               var r := q.inverse.value; !TemplateLink.DropsLastDepth(Ascending(Needs(o, r)), UsesPartial(r))
    ensures var p := Alone(helper, name, q);
            Render(w, CompiledOf(o, TemplateLink.UnitOf(o, p)), junk, ctx) == EvalStatement(w, o, Intended, p, 0, [ctx])
  {
    hide Render, CompiledOf, TemplateLink.UnitOf, EvalStatement, KeepsDepths, TemplateQuirks.RegularTemplate, Needs,
         Flat,
         TemplateLink.DropsLastDepth, UsesPartial, Encodable;
    var p := Alone(helper, name, q);
    AloneIsRegular(o, helper, name, q);
    ValuesEncodable(o, p);
    TemplateQuirks.CompiledMeaning(w, o, p, junk, ctx);
    assert p.statements[0].Block?;
  }

  lemma {:induction false} ValuesEncodable(o: Options, p: Program)
    requires !o.stringParams
    ensures Encodable(o, p)
  {
    forall s <- p.statements
      ensures EncodableStatement(o, s)
    {
      match s
      case Block(_, q) =>
        ValuesEncodable(o, q);
        if q.inverse.Some? { ValuesEncodable(o, q.inverse.value); }
      case Inverse(_, q) => ValuesEncodable(o, q);
      case _ =>
    }
  }

  // ----- a condition

  /** `{{#if name}}a{{else}}b{{/if}}` */
  function IfElse(name: string, a: string, b: string): Program {
    Alone("if", name, Program([Content(a)], Some(Program([Content(b)], None))))
  }

  lemma TextProgram(o: Options, text: string, other: Option<Program>)
    ensures var q := Program([Content(text)], other);
            Flat(o, q) && !TemplateLink.DropsLastDepth(Ascending(Needs(o, q)), UsesPartial(q))
  {
    var q := Program([Content(text)], other);
    FlatNested(q, 1);
    assert NeedsUpTo(o, q, 1) == NeedsUpTo(o, q, 0) + StatementDepths(o, q.statements[0]);
    assert Needs(o, q) == {};
    AscendingUnique(Ascending(Needs(o, q)), []);
  }

  /** The compiled condition shows its first text if the property holds, and otherwise its second one. */
  lemma IfElseRenders(w: World, o: Options, name: string, a: string, b: string, junk: SlotMachine.Tmp, ctx: Value)
    requires Plain(w, o, "if", If, name, ctx)
    ensures Render(w, CompiledOf(o, TemplateLink.UnitOf(o, IfElse(name, a, b))), junk, ctx) ==
            Ok(Text(if w.prop(ctx, name) in FALSY + [List([])] then b else a))
  {
    hide Render, CompiledOf, TemplateLink.UnitOf, EvalStatement, TemplateLink.DropsLastDepth, Needs, UsesPartial, Flat,
         EvalParam;
    var q := Program([Content(a)], Some(Program([Content(b)], None)));
    TextProgram(o, a, q.inverse);
    TextProgram(o, b, None);
    AloneRenders(w, o, "if", name, q, junk, ctx);
    NameGives(w, o, "if", If, name, ctx);
    var p := IfElse(name, a, b);
    assert TemplateLaws.HelperBlock(w, o, p, 0, "if", If);
    TemplateLaws.IfBlockShows(w, o, p, 0, [ctx], w.prop(ctx, name));
    TextShows(w, o, a, q.inverse, [ctx, ctx]);
    TextShows(w, o, b, None, [ctx, ctx]);
    assert [ctx] + [ctx] == [ctx, ctx];
  }

  lemma TextShows(w: World, o: Options, text: string, other: Option<Program>, ctxs: seq<Value>)
    requires |ctxs| > 0
    ensures EvalProgram(w, o, Intended, Program([Content(text)], other), ctxs) == Ok(Text(text))
  {
  }

  // ----- a loop that looks outside

  const THIS := Mustache(Id([], 0, true, "this"), [], None, false)

  function Outer(name: string): Mustache {
    Mustache(Id([name], 1, false, "../" + name), [], None, false)
  }

  /** `{{{this}}}{{{../name}}}` */
  function Row(name: string): Program {
    Program([Output(THIS), Output(Outer(name))], None)
  }

  /** `{{#each items}}{{{this}}}{{{../name}}}{{/each}}` */
  function Rows(items: string, name: string): Program {
    Alone("each", items, Row(name))
  }

  /** Each text followed by the same one. */
  function Joined(texts: seq<string>, after: string): string {
    if texts == [] then "" else texts[0] + after + Joined(texts[1..], after)
  }

  function AsTexts(texts: seq<string>): (r: seq<Value>)
    ensures |r| == |texts|
  {
    seq(|texts|, i requires 0 <= i < |texts| => Text(texts[i]))
  }

  lemma RowNeeds(o: Options, name: string)
    ensures Flat(o, Row(name)) &&
            !TemplateLink.DropsLastDepth(Ascending(Needs(o, Row(name))), UsesPartial(Row(name)))
  {
    var q := Row(name);
    FlatNested(q, 2);
    assert NeedsUpTo(o, q, 1) == NeedsUpTo(o, q, 0) + StatementDepths(o, q.statements[0]);
    assert NeedsUpTo(o, q, 2) == NeedsUpTo(o, q, 1) + StatementDepths(o, q.statements[1]);
    assert MustacheDepths(o, THIS) == {} && MustacheDepths(o, Outer(name)) == {1};
    assert Needs(o, q) == {1};
    AscendingUnique(Ascending(Needs(o, q)), [1]);
  }

  lemma RowShows(w: World, o: Options, name: string, after: string, text: string, ctx: Value)
    requires name != "" && name !in o.known && w.helper(name) == Undefined && !ctx.Undefined? && !ctx.Null?
    requires w.prop(ctx, name) == Text(after) && w.helper("helperMissing") == Function(HelperMissing)
    ensures EvalProgram(w, o, Intended, Row(name), [Text(text), ctx]) == Ok(Text(text + after))
  {
    hide EvalOutput;
    var q, ctxs := Row(name), [Text(text), ctx];
    var outer := Outer(name).id;
    assert EvalId(w, o, THIS.id, ctxs) == Ok(Text(text));
    assert Head(outer) == Some(name) && Tail(outer) == [] && EvalHead(w, o, outer, ctxs) == Ok(Text(after));
    TemplateLaws.PlainOutput(w, o, THIS, ctxs, Text(text));
    TemplateLaws.PlainOutput(w, o, Outer(name), ctxs, Text(after));
    assert EvalText(w, o, Intended, q, 0, ctxs) == Ok("");
    assert EvalText(w, o, Intended, q, 1, ctxs) == Ok("" + text);
    assert EvalText(w, o, Intended, q, 2, ctxs) == Ok("" + text + after);
    assert "" + text + after == text + after;
  }

  lemma {:induction false} RowsJoined(w: World, o: Options, items: string, name: string, after: string,
                                      texts: seq<string>, ctx: Value)
    requires name != "" && name !in o.known && w.helper(name) == Undefined && !ctx.Undefined? && !ctx.Null?
    requires w.prop(ctx, name) == Text(after) && w.helper("helperMissing") == Function(HelperMissing)
    ensures RunOver(w, AsTexts(texts), TemplateLaws.BlockRunner(w, o, Rows(items, name), 0, [ctx])) ==
            Ok(Joined(texts, after))
    decreases |texts|
  {
    hide EvalProgram;
    if texts != [] {
      assert AsTexts(texts)[1..] == AsTexts(texts[1..]);
      RowShows(w, o, name, after, texts[0], ctx);
      assert [Text(texts[0])] + [ctx] == [Text(texts[0]), ctx];
      RowsJoined(w, o, items, name, after, texts[1..], ctx);
    }
  }

  /** The compiled loop shows every text of the list, in order, each followed by the text found outside of it. */
  lemma RowsRender(w: World, o: Options, items: string, name: string, after: string, texts: seq<string>,
                   junk: SlotMachine.Tmp, ctx: Value)
    requires Plain(w, o, "each", Each, items, ctx) && Plain(w, o, "each", Each, name, ctx)
    requires w.helper("helperMissing") == Function(HelperMissing)
    requires w.prop(ctx, items) == List(AsTexts(texts)) && w.prop(ctx, name) == Text(after)
    ensures Render(w, CompiledOf(o, TemplateLink.UnitOf(o, Rows(items, name))), junk, ctx) ==
            Ok(Text(Joined(texts, after)))
  {
    hide Render, CompiledOf, TemplateLink.UnitOf, EvalStatement, TemplateLink.DropsLastDepth, Needs, UsesPartial, Flat,
         EvalParam, RunOver, AsTexts;
    RowNeeds(o, name);
    AloneRenders(w, o, "each", items, Row(name), junk, ctx);
    NameGives(w, o, "each", Each, items, ctx);
    var p := Rows(items, name);
    assert TemplateLaws.HelperBlock(w, o, p, 0, "each", Each);
    TemplateLaws.EachBlockShows(w, o, p, 0, [ctx], AsTexts(texts));
    RowsJoined(w, o, items, name, after, texts, ctx);
    if texts == [] {
      assert Joined(texts, after) == "" && TemplateLaws.BlockRunner(w, o, p, 0, [ctx])(true, ctx) == Ok(Text(""));
    }
  }
}
