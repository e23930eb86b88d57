/** Both compiler passes together: what a compiled template renders. */
module Templates {
  import opened JsRuntime
  import opened TemplateAst
  import opened TemplateEval
  import FirstPass
  import SlotMachine
  import TemplateLink
  import opened TemplateProof
  import TemplateQuirks
  import JavaScriptCompilerObject

  /**
   `Handlebars.precompile`, from the syntax tree on.  In every world and every context the compiled
   template renders what the evaluator says for the code as emitted, and what the template was meant to
   say if it is regular.
   */
  method Precompile(o: Options, p: Program) returns (c: Compiled)
    requires FirstPass.Encodable(o, p)
    ensures KeepsDepths(o, p) ==>
              forall w: World, junk: SlotMachine.Tmp, ctx: Value ::
                  Render(w, c, junk, ctx) == EvalProgram(w, o, AsEmitted, p, [ctx])
    ensures KeepsDepths(o, p) && TemplateQuirks.RegularTemplate(o, p) ==>
              forall w: World, junk: SlotMachine.Tmp, ctx: Value ::
                  Render(w, c, junk, ctx) == EvalProgram(w, o, Intended, p, [ctx])
  {
    hide Render, EvalProgram, KeepsDepths, TemplateQuirks.RegularTemplate, FirstPass.Encodable, CompiledOf,
         TemplateLink.UnitOf;
    c := JavaScriptCompilerObject.CompileTemplate(o, p);
    if KeepsDepths(o, p) {
      forall w: World, junk: SlotMachine.Tmp, ctx: Value
        ensures Render(w, c, junk, ctx) == EvalProgram(w, o, AsEmitted, p, [ctx])
      {
        CompilerCorrect(w, o, p, junk, ctx);
      }
      if TemplateQuirks.RegularTemplate(o, p) {
        forall w: World, junk: SlotMachine.Tmp, ctx: Value
          ensures Render(w, c, junk, ctx) == EvalProgram(w, o, Intended, p, [ctx])
        {
          TemplateQuirks.CompiledMeaning(w, o, p, junk, ctx);
        }
      }
    }
  }
}
