# A verified model of the ChiliLog browser client

The ChiliLog web client is written for SproutCore 2, whose two library files it ships.  This project
models the parts of that code that carry real logic, and proves what they keep, compute and bring back.

- **Templates** (`template_*.dfy`, `opcodes.dfy`, `first_pass.dfy`, `compiler.dfy`, `code_gen.dfy`,
  `js_compiler.dfy`, `slot_machine.dfy`, `expression_proof.dfy`, `call_proof.dfy`,
  `stack_discipline.dfy`, `templates.dfy`).  The Handlebars compiler: a first pass that writes an untagged
  opcode array, a second pass that reads it with a symbolic stack and emits slot code, and the program
  closures of the run time.  Emitted code is a list of slot instructions with a machine that runs them; a
  direct evaluator of the syntax tree is the reference.  Both passes are classes that work step by step as
  the originals do.  `js_runtime.dfy` holds JavaScript values, the built-in helpers, and the abstract world:
  property lookup, escaping, number text, partials and user-written helpers.
- **Bindings and computed properties** (`bindings.dfy`, `binding_*.dfy`, `computed.dfy`).  Deferred change
  events, the sync queue of the run loop and two-way bindings as a state machine over whole runs; wirings on
  which the loop comes to rest and wirings on which it does not; the cache of computed properties with its
  depth-first invalidation.
- **Dates** (`js_text.dfy`, `js_date.dfy`, `datetime*.dfy`, `auth_date.dfy`).  The time values of sections
  15.9.1.2 to 15.9.1.13 and 15.9.4.3 of ECMA-262 edition 5.1; the calculations of `SC.DateTime` over one
  shared mutable date; formatter, scanner and parser for any format; the bounded instance cache; and the other
  date reader of the log-in page.
- **Sets** (`sc_set.dfy`).  `SC.Set` with its slots and its index, which `clear` leaves behind.
- **Client logic** (`session.dfy`, `roles.dfy`, `messages.dfy`).  Session keep-alive, the role strings, and the
  markup of log messages.

The functions that both a method and a theorem speak of are in turn pinned by laws that tell them by other means: what
each part of the evaluator gives (`template_laws.dfy`), two templates compiled, run and shown in full
(`template_rendering.dfy`), lines of bindings (`binding_lines.dfy`), and the origin of time, the fields of dates, the
scanner on any text and the texts of known instants (`js_date.dfy`, `datetime_laws.dfy`).

Where the source changes objects in place, the model is a class whose methods are proved against functions on
values; the theorems are about these functions and about runs of them.

## What does not hold

Each of these is proved of the model, most with an input that shows it, and with the exact condition for the
code to be right where the table says "if and only if".

- A nested template program with exactly two depths and no partial loses its second depth parameter
  (`TemplateExamples.DroppedDepthThrows`, `TemplateExamples.DepthsSeenExactly`).
- A declared inverse survives into later blocks, and the known-helper flag into later calls
  (`TemplateExamples.StickyInverseShows`, `TemplateExamples.StaleFlagCalls`; exactly when it shows:
  `TemplateProbe.ElseBranchMatters`, `TemplateProbe.FlagMatters`).
- The else branch of an inverse section is never compiled, nor one outside of all blocks
  (`TemplateExamples.InverseLosesElse`, `TemplateExamples.RootElseIsDropped`; exactly when it shows:
  `TemplateProbe.DroppedElseMatters`).
- A program that is one comment returns nothing instead of an empty text, which a block helper prints
  (`TemplateExamples.LoneCommentShows`, `TemplateProbe.LoneCommentExactly`).
- A binding that is disconnected while a sync is pending, and connected again after a flush, never syncs again
  (`Bindings.ReconnectedLinkIsDead`).  The flag `_readyToSync` is one for the binding, so disconnecting one
  object does this to the pending syncs of all others that share it (`Bindings.SharedBindingSkips`).
- The flush loop need not end: neither in a ring of three or more one-way bindings nor for three two-way bindings into one
  cell (`BindingRings.RingReached`, `BindingStars.StarReached`).  It ends in any wiring if only one value is on
  its way, as after a single change; from any state in layers; and on paths of two-way bindings from any state
  between change brackets with ready links of which no sync was skipped (`BindingRests.OneValueRests`,
  `BindingRests.LayeredRests`, `BindingChains.ChainRests`).
- Redefining a property clears only its own cached value, and removing an observer that was never added takes the
  watch away from a dependency (`ComputedProperties.RedefinedGoesStale`, `ComputedProperties.UnwatchedGoesStale`;
  exactly when the cache goes stale: `ComputedProperties.StaysRightExactly`).
- In the local years 0 to 99 `advance`, `toTimezone` and the weekday getters move to the 20th century, and in
  the year 0 `dayOfYear` loses the leap day (`DateTimeMath.AdvanceExact`, `DateTimeMath.DayOfYearExact`).
- The bounds check of the scanner compares with an undefined length and never fires
  (`DateTimes.Scanner.ScanText`); `%I %p` does not come back at noon and midnight.
- Instances of different instants can share a cache key (`DateTimeCache.KeysCollide`, `DateTimeCache.CollideExactly`),
  and relabelling a parsed instance relabels the cached one (`DateTimes.DateTimeApi.ParseChililogServerDateTime`).
- With string params, an integer or boolean param leaves an opcode without its operand, and the array cannot be read
  back (`Opcodes.DecodedExactly`, `TemplateExamples.MissingOperand`).
- The log-in page reads a month too late on the last days of longer months (`AuthDate.DateSetExactly`).
- After `clear`, `SC.Set` still claims to contain what it dropped, `remove` does not help, and comparing sets goes
  wrong with it (`SparseSet.StaleExactly`, `SparseSet.EqualAfterRun`).
- The search page overwrites the blank of an empty message with an unassigned variable
  (`Messages.InjectKeywordHighlighting`).
- Any delay of the keep-alive timer beyond its minute can log out (`Session.GapExactly`).

The comments of the source describe `week0` as counting from Monday and `week1` from Sunday; the code does the
opposite (`sproutcore-datetime.js:724-735`), and the model follows the code.

## Model

| member | source | states |
|---|---|---|
| Templates.Precompile | src/main/sc2/js/libs/sproutcore-2.0.beta.3.js:1484-1490 | Both passes as they run, one after the other: for every syntax tree whose params can be encoded and whose nested programs keep their parameters, the compiled template renders in every world and context exactly what the evaluator says of the code as emitted, and, if the template is regular, what it was meant to say: inverse sections with their else branches, comments as nothing, calls and inherited inverses as written |
| JsRuntime.UnlessSwapsIf | src/main/sc2/js/libs/sproutcore-2.0.beta.3.js:81-87 | `unless` with its two programs is `if` with them swapped, including what they throw |
| JsRuntime.CallAgrees | src/main/sc2/js/libs/sproutcore-2.0.beta.3.js:22-91 | What a helper call returns or throws depends on its programs only through their results |
| JsRuntime.IfRuns | src/main/sc2/js/libs/sproutcore-2.0.beta.3.js:73-79 | `if` runs its first program in the current context, and its second one exactly for undefined, null, false, 0, the empty text and the empty list |
| JsRuntime.WithRuns | src/main/sc2/js/libs/sproutcore-2.0.beta.3.js:89-91 | `with` runs its program in the context that it is given |
| JsRuntime.EachRuns | src/main/sc2/js/libs/sproutcore-2.0.beta.3.js:59-71 | `each` gives the texts of its program for every item from the first to the last, or the first exception; its second program if there is no item |
| JsRuntime.BlockMissingRuns | src/main/sc2/js/libs/sproutcore-2.0.beta.3.js:35-57 | A section without a helper runs its first program for true, its second one exactly for false, undefined, null and an empty list, its program for every item of a list in order, and otherwise in the context of the value |
| JsRuntime.FunctionMissingRuns | src/main/sc2/js/libs/sproutcore-2.0.beta.3.js:35-57 | Over a function it runs as for what the function returns, except that a list is not walked over |
| TemplateLaws.PathStep | src/main/sc2/js/libs/sproutcore-2.0.beta.3.js:1282-1286 | The last name of a path is looked up in what the names in front of it lead to |
| TemplateLaws.HeadFrom | src/main/sc2/js/libs/sproutcore-2.0.beta.3.js:1252-1275 | The first name is a helper exactly if the path has no `this` and the name is a known helper or, where others are allowed, any helper; otherwise it is a property of the context |
| TemplateLaws.ParamsGiven | src/main/sc2/js/libs/sproutcore-2.0.beta.3.js:1003-1020 | The arguments are those of the params, one for one and in order; they fail exactly if one fails, with the exception of the last that does |
| TemplateLaws.PathAsText | src/main/sc2/js/libs/sproutcore-2.0.beta.3.js:661 | With string params a path is passed as the text that splits into its names, together with the context that it leads to |
| TemplateEval.DotsSplitExactly | src/main/sc2/js/libs/sproutcore-2.0.beta.3.js:661 | Splitting the text of a path at its dots gives its names back, in order, if and only if none of them holds a dot |
| TemplateLaws.PairsGiven | src/main/sc2/js/libs/sproutcore-2.0.beta.3.js:1384-1389 | The hash has exactly the keys of the pairs, each with the value of the last pair that gives it; an exception is that of the first that fails |
| TemplateLaws.PlainOutput | src/main/sc2/js/libs/sproutcore-2.0.beta.3.js:1295-1306 | A mustache without params shows the value of its path, escaped or not, and nothing for undefined, null and false |
| TemplateLaws.MissingHelperThrows | src/main/sc2/js/libs/sproutcore-2.0.beta.3.js:22-28 | With params, an undefined path throws |
| TemplateLaws.HelperGets | src/main/sc2/js/libs/sproutcore-2.0.beta.3.js:1295-1306 | A helper is called with the current context, the arguments, the hash and the contexts, and `helperMissing` with the path as written in front |
| TemplateLaws.SectionHelperGets | src/main/sc2/js/libs/sproutcore-2.0.beta.3.js:1308-1318 | So is one of a section, and `blockHelperMissing` with the value of the path in front |
| TemplateLaws.IfBlockShows | src/main/sc2/js/libs/sproutcore-2.0.beta.3.js:73-79 | `{{#if x}}A{{else}}B{{/if}}` shows A in the current context if x holds and is no empty list, and otherwise B |
| TemplateLaws.WithBlockShows | src/main/sc2/js/libs/sproutcore-2.0.beta.3.js:89-91 | `{{#with x}}A{{/with}}` shows A in the context x, inside the contexts around it |
| TemplateLaws.EachBlockShows | src/main/sc2/js/libs/sproutcore-2.0.beta.3.js:59-71 | `{{#each xs}}A{{else}}B{{/each}}` shows A for every element, in order, or B |
| TemplateLaws.BlockShows | src/main/sc2/js/libs/sproutcore-2.0.beta.3.js:30-57 | `{{#x}}A{{else}}B{{/x}}` over a plain value: A in the current context for true, B exactly for false, undefined, null and an empty list, A for every element of a list in order, and else A in the value, always inside the contexts around it |
| TemplateLaws.InverseShows | src/main/sc2/js/libs/sproutcore-2.0.beta.3.js:30-57 | `{{^x}}A{{else}}B{{/x}}` is meant as the same with A and B exchanged |
| TemplateLaws.PartialInThis | src/main/sc2/js/libs/sproutcore-2.0.beta.3.js:946-958 | A partial without a context is one in the context `this` |
| TemplateLaws.TextPieces | src/main/sc2/js/libs/sproutcore-2.0.beta.3.js:1085-1121 | Behind the text of the first statements of a program stands the text of the next one |
| Opcodes.EncodeSnoc | src/main/sc2/js/libs/sproutcore-2.0.beta.3.js:1022-1033 | Pushing an opcode and its operands appends exactly the cells of one more instruction |
| Opcodes.DecodeOne | src/main/sc2/js/libs/sproutcore-2.0.beta.3.js:1123-1143 | At the first cell of an instruction that has its operands the second pass reads that instruction and its width, whatever the operands are and whatever follows |
| Opcodes.DecodeEncoded | src/main/sc2/js/libs/sproutcore-2.0.beta.3.js:1108-1147 | The second pass finds exactly the instruction boundaries that the first pass wrote, for every instruction sequence with all operands |
| Opcodes.DecodedExactly | src/main/sc2/js/libs/sproutcore-2.0.beta.3.js:1022-1027 | It reads back what was written if and only if no operand is missing |
| Opcodes.EncodeInjective | src/main/sc2/js/libs/sproutcore-2.0.beta.3.js:754-797 | Two instruction sequences with all operands never share one opcode array |
| FirstPass.SortedCorrect | src/main/sc2/js/libs/sproutcore-2.0.beta.3.js:878-880 | Sorting the depth list gives the same depths in ascending order |
| FirstPass.ParamsSpelled | src/main/sc2/js/libs/sproutcore-2.0.beta.3.js:1003-1020 | With string params the instructions of the params come in pairs, last param first: a context, and a text that for a path splits into its names |
| CompilerObject.Compiler.Opcode | src/main/sc2/js/libs/sproutcore-2.0.beta.3.js:1022-1027 | Pushes one instruction and leaves out undefined operands; the array keeps spelling the instructions so far |
| CompilerObject.Compiler.DeclareInverseAs | src/main/sc2/js/libs/sproutcore-2.0.beta.3.js:1029-1033 | Pushes one declaration of the inverse |
| CompilerObject.Compiler.AddDepth | src/main/sc2/js/libs/sproutcore-2.0.beta.3.js:1035-1042 | Notes a depth once, and never depth 0 |
| CompilerObject.Compiler.AcceptId | src/main/sc2/js/libs/sproutcore-2.0.beta.3.js:976-986 | Emits context, head lookup and one lookup for each further name; notes the depth of the path |
| CompilerObject.Compiler.PushParams | src/main/sc2/js/libs/sproutcore-2.0.beta.3.js:1003-1020 | Emits the params from the last to the first; in string mode each as its context and its text, where the text of a path splits at its dots into the names of the path, in order, if and only if no name holds a dot, and integers and booleans have none; notes the depths they read |
| CompilerObject.Compiler.AcceptHash | src/main/sc2/js/libs/sproutcore-2.0.beta.3.js:932-944 | Emits an empty hash and one assignment for each pair, in source order |
| CompilerObject.Compiler.SetupStackForMustache | src/main/sc2/js/libs/sproutcore-2.0.beta.3.js:1044-1056 | Emits params, hash and head in this order; notes all depths they read |
| CompilerObject.Compiler.CompileProgram | src/main/sc2/js/libs/sproutcore-2.0.beta.3.js:885-901 | Compiles a nested program with its own object, numbers it, adds its depths shifted by one, and passes on the use of partials |
| CompilerObject.Compiler.AcceptBlock | src/main/sc2/js/libs/sproutcore-2.0.beta.3.js:903-919 | Emits a block: body and else branch numbered in this order, the inverse declared before the call and withdrawn after it |
| CompilerObject.Compiler.AcceptInverse | src/main/sc2/js/libs/sproutcore-2.0.beta.3.js:921-930 | Emits an inverse section, whose declared inverse stays |
| CompilerObject.Compiler.AcceptMustache | src/main/sc2/js/libs/sproutcore-2.0.beta.3.js:964-974 | Emits an output with or without escaping |
| CompilerObject.Compiler.AcceptPartial | src/main/sc2/js/libs/sproutcore-2.0.beta.3.js:946-958 | Emits a partial with its context and notes that the program uses partials |
| CompilerObject.CompileEnvironment | src/main/sc2/js/libs/sproutcore-2.0.beta.3.js:840-883 | The object as it runs builds exactly the first-pass result: opcodes, nested results, sorted depths and flags |
| CodeGen.GenConcat | src/main/sc2/js/libs/sproutcore-2.0.beta.3.js:1108-1118 | The second pass works instruction by instruction: the code of a sequence is the code of its parts, with the generator state handed on |
| ExpressionProof.IdRuns | src/main/sc2/js/libs/sproutcore-2.0.beta.3.js:1246-1280 | The code of a path leaves one more value on the stack, nothing below it changed, and that value or the exception is what evaluating the path gives |
| ExpressionProof.ValueRuns | src/main/sc2/js/libs/sproutcore-2.0.beta.3.js:1252-1293 | The same for any literal or path given as a param |
| ExpressionProof.ParamsRun | src/main/sc2/js/libs/sproutcore-2.0.beta.3.js:1003-1020 | The code of all params leaves their values, and in string mode their contexts, in the slots from which the call pops them in source order; the first exception in evaluation order is the one thrown |
| ExpressionProof.PairsRun | src/main/sc2/js/libs/sproutcore-2.0.beta.3.js:1384-1389 | The code of the hash pairs leaves exactly the record that the pairs evaluate to |
| ExpressionProof.SetupRuns | src/main/sc2/js/libs/sproutcore-2.0.beta.3.js:1044-1056 | The code in front of a call leaves params, hash and head where the call expects them, with the values the evaluator gives |
| CallProof.SetupTmpRuns | src/main/sc2/js/libs/sproutcore-2.0.beta.3.js:1320-1357 | The shared register ends up with both programs, the hash and the contexts in source order, exactly when a register is needed |
| CallProof.MustacheCallRuns | src/main/sc2/js/libs/sproutcore-2.0.beta.3.js:1295-1306 | A mustache call leaves the result of the known helper, the function, the value or `helperMissing` that the evaluator chooses |
| CallProof.ProgramCallRuns | src/main/sc2/js/libs/sproutcore-2.0.beta.3.js:1308-1318 | A block call does the same with `blockHelperMissing` and with the two programs, run in the current context |
| CallProof.OutputRuns | src/main/sc2/js/libs/sproutcore-2.0.beta.3.js:1226-1244 | The code of an output appends to the buffer, or returns, exactly the text of the evaluated mustache |
| CallProof.SectionRuns | src/main/sc2/js/libs/sproutcore-2.0.beta.3.js:903-930 | The code of a block or inverse section emits exactly the text of the evaluated section, and leaves the declared inverse as the source does |
| CallProof.PartialRuns | src/main/sc2/js/libs/sproutcore-2.0.beta.3.js:946-958 | The code of a partial emits exactly what the evaluated partial returns |
| TemplateLink.EnvOfUnitOf | src/main/sc2/js/libs/sproutcore-2.0.beta.3.js:868-901 | Environments built by recursion over the tree are the first-pass results |
| TemplateLink.FillKeeps | src/main/sc2/js/libs/sproutcore-2.0.beta.3.js:1395-1408 | Compiling nested programs never overwrites an entry of the program list |
| TemplateLink.FillHolds | src/main/sc2/js/libs/sproutcore-2.0.beta.3.js:1395-1408 | After compilation every nested program, at every level, stands under the index that the code refers to |
| TemplateLink.IndicesDistinct | src/main/sc2/js/libs/sproutcore-2.0.beta.3.js:1402-1406 | The programs nested in a template get as many different indices as there are programs |
| TemplateProof.FusedRuns | src/main/sc2/js/libs/sproutcore-2.0.beta.3.js:1234-1244 | Fusing an escaped output with the content after it changes neither the generator state nor what the code does |
| TemplateProof.NestedNeedsUpTo | src/main/sc2/js/libs/sproutcore-2.0.beta.3.js:885-901 | Every depth from 2 on that a nested program reads is, shifted by one, among the depths of its parent |
| TemplateProof.ExprDenotes | src/main/sc2/js/libs/sproutcore-2.0.beta.3.js:1410-1430 | A program expression denotes the right nested program with the contexts of the enclosing programs, in the order of its depths |
| TemplateProof.ChildSees | src/main/sc2/js/libs/sproutcore-2.0.beta.3.js:1203-1209 | A nested function whose last parameter is not dropped sees under each `depthN` the context of the N-th enclosing program |
| TemplateProof.StatementRuns | src/main/sc2/js/libs/sproutcore-2.0.beta.3.js:903-974 | Each statement, from the state its predecessors leave, emits exactly its evaluated text and leaves the state that its successors assume |
| TemplateProof.ProgramRuns | src/main/sc2/js/libs/sproutcore-2.0.beta.3.js:1085-1121 | Every program, nested or not, entered with the contexts it needs, returns exactly what the evaluator gives; by recursion over the tree |
| TemplateProof.CompilerCorrect | src/main/sc2/js/libs/sproutcore-2.0.beta.3.js:868-1057 | Rendering the compiled template from an empty stack gives the text or the exception of direct evaluation, in every world and context, whatever the shared register holds |
| TemplateRendering.IfElseRenders | src/main/sc2/js/libs/sproutcore-2.0.beta.3.js:1484-1490 | For all names and texts: the compiled `{{#if x}}a{{else}}b{{/if}}` renders a if the property holds and is no empty list, and otherwise b |
| TemplateRendering.RowsRender | src/main/sc2/js/libs/sproutcore-2.0.beta.3.js:1484-1490 | For every list of texts: the compiled `{{#each xs}}{{{this}}}{{{../y}}}{{/each}}` renders them in order, each followed by the text found outside of the loop |
| JavaScriptCompilerObject.JavaScriptCompiler.PopParams | src/main/sc2/js/libs/sproutcore-2.0.beta.3.js:1341-1348 | Pops the params in source order, with their contexts in string mode |
| JavaScriptCompilerObject.JavaScriptCompiler.PopulateParams | src/main/sc2/js/libs/sproutcore-2.0.beta.3.js:1320-1378 | Emits register set-up and call, and moves the symbolic stack, as specified |
| JavaScriptCompilerObject.JavaScriptCompiler.Turn | src/main/sc2/js/libs/sproutcore-2.0.beta.3.js:1108-1118 | One turn of the loop moves over one instruction, or over two if it fuses them, and emits what is specified for it |
| JavaScriptCompilerObject.JavaScriptCompiler.GenerateCode | src/main/sc2/js/libs/sproutcore-2.0.beta.3.js:1104-1118 | The loop over the untagged array emits the code and ends in the state specified for the instructions that the array spells |
| JavaScriptCompilerObject.JavaScriptCompiler.CompileChildren | src/main/sc2/js/libs/sproutcore-2.0.beta.3.js:1395-1408 | Fills the shared program list in place, as specified, and gives each child its index |
| JavaScriptCompilerObject.CompileTemplate | src/main/sc2/js/libs/sproutcore-2.0.beta.3.js:1484-1490 | Both objects together compute the compiled template that the correctness theorem is about |
| StackDiscipline.StatementAddsNothing | src/main/sc2/js/libs/sproutcore-2.0.beta.3.js:1444-1461 | The instructions of every statement never take more from the stack than is there, and return it to where it was |
| StackDiscipline.FusedWithin | src/main/sc2/js/libs/sproutcore-2.0.beta.3.js:1449-1457 | Emitted code uses only slots that are declared, and the symbolic stack is always as high as the instructions say |
| StackDiscipline.FunctionWithin | src/main/sc2/js/libs/sproutcore-2.0.beta.3.js:1172-1180 | So every generated function declares all slots that it uses and ends with an empty stack |
| StackDiscipline.InstrWrites | src/main/sc2/js/libs/sproutcore-2.0.beta.3.js:1444-1461 | A statement changes no slot that it does not mention |
| StackDiscipline.DeclaredSlotsSuffice | src/main/sc2/js/libs/sproutcore-2.0.beta.3.js:1172-1180 | What a generated function returns or throws does not depend on any slot that it does not declare |
| TemplateQuirks.StickyExactly | src/main/sc2/js/libs/sproutcore-2.0.beta.3.js:921-930 | An inverse is still declared exactly after an inverse section that no block has followed |
| TemplateQuirks.ElseBranchExactly | src/main/sc2/js/libs/sproutcore-2.0.beta.3.js:903-919 | A block is compiled with its own else branch if and only if it has one or no inverse section has come since the last block |
| TemplateQuirks.CallsExactly | src/main/sc2/js/libs/sproutcore-2.0.beta.3.js:1252-1275 | Whether a mustache calls a known helper is decided rightly if and only if its head has a name, or the last named path looked up since the last call did not name a known helper |
| TemplateQuirks.RegularMeaning | src/main/sc2/js/libs/sproutcore-2.0.beta.3.js:868-930 | For templates in which inherited inverses, dropped else branches and a stale flag cannot show, and no program is a lone comment, the emitted meaning is the intended one, whatever the nesting |
| TemplateQuirks.CompiledMeaning | src/main/sc2/js/libs/sproutcore-2.0.beta.3.js:868-1057 | Compiled regular templates render what they were meant to say |
| TemplateProbe.ElseBranchMatters | src/main/sc2/js/libs/sproutcore-2.0.beta.3.js:903-930 | In any nesting that its paths do not reach out of, a block renders in all worlds and contexts what its own else branch asks for if and only if it has one, or no inverse section has come since the last block, or the body of that section is empty in every world |
| TemplateProbe.DroppedElseMatters | src/main/sc2/js/libs/sproutcore-2.0.beta.3.js:921-930 | In such a nesting an inverse section renders what was meant in all worlds and contexts if and only if it has no else branch, or one that is empty in every world: the code never compiles it |
| TemplateProbe.FlagMatters | src/main/sc2/js/libs/sproutcore-2.0.beta.3.js:1252-1275 | In such a nesting an output renders the same in all worlds and contexts as without the stale flag if and only if its head has a name or the last named path since the last call is no known helper |
| TemplateProbe.FlagMattersToSections | src/main/sc2/js/libs/sproutcore-2.0.beta.3.js:1252-1275 | So does a section, whatever its programs are |
| TemplateProbe.LoneCommentExactly | src/main/sc2/js/libs/sproutcore-2.0.beta.3.js:868-880 | As long as escaping never gives an undefined value, which that of the source never does, a program returns one if and only if it is one comment; it was meant to return the empty text |
| TemplateExamples.DepthsSeenExactly | src/main/sc2/js/libs/sproutcore-2.0.beta.3.js:1203-1209 | A nested function sees all contexts it needs, whatever they are, if and only if it does not have exactly two depths and no partial |
| TemplateExamples.DroppedDepthThrows | src/main/sc2/js/libs/sproutcore-2.0.beta.3.js:1209 | Rendering the compiled template `{{#a}}{{#b}}{{{../../y}}}{{{../x}}}{{/b}}{{/a}}` throws in every world where `a` and `b` are objects and helpers do not get in the way |
| TemplateExamples.LosesDepthText | src/main/sc2/js/libs/sproutcore-2.0.beta.3.js:976-986 | That template was meant to show the two texts |
| TemplateExamples.InverseLosesElse | src/main/sc2/js/libs/sproutcore-2.0.beta.3.js:921-930 | `{{^x}}A{{else}}B{{/x}}` with x true was meant to show B and shows nothing |
| TemplateExamples.LoneCommentShows | src/main/sc2/js/libs/sproutcore-2.0.beta.3.js:868-880 | `{{#xs}}{{! c}}{{/xs}}` shows the text of an undefined value for every item in place of nothing |
| TemplateExamples.RootElseIsDropped | src/main/sc2/js/libs/sproutcore-2.0.beta.3.js:868-883 | What follows an else outside of all blocks is not compiled at all, for any template |
| TemplateExamples.StickyInverseShows | src/main/sc2/js/libs/sproutcore-2.0.beta.3.js:921-930 | A concrete template shows the text of an earlier inverse section in place of nothing |
| TemplateExamples.StaleFlagCalls | src/main/sc2/js/libs/sproutcore-2.0.beta.3.js:1252-1275 | A concrete template calls its context as if it were a helper |
| TemplateExamples.MissingOperand | src/main/sc2/js/libs/sproutcore-2.0.beta.3.js:1009-1015 | A param without a string takes the next opcode for its operand |
| Bindings.ScheduleKeeps | src/main/sc2/js/libs/sproutcore-2.0.beta.3.js:9369-9383 | Scheduling queues a link at most once, in step with the direction noted for it |
| Bindings.SetKeeps | src/main/sc2/js/libs/sproutcore-2.0.beta.3.js:2738-2746 | Setting a cell keeps the invariant: a link whose ends differ has a sync noted or a change event on its way |
| Bindings.SameValueIsSilent | src/main/sc2/js/libs/sproutcore-2.0.beta.3.js:2741 | Setting a value that is already there changes nothing but that it is stored |
| Bindings.SetDirects | src/main/sc2/js/libs/sproutcore-2.0.beta.3.js:2738-2746 | While nothing is suspended: the direction noted for a link changes exactly if the value is new, the link is connected and it hears the cell |
| Bindings.SetWaits | src/main/sc2/js/libs/sproutcore-2.0.beta.3.js:3532-3545 | While changes are suspended: exactly one event is kept for a cell that some link hears, if the value is new |
| Bindings.BracketedSet | src/main/sc2/js/libs/sproutcore-2.0.beta.3.js:3546-3561 | A change in a bracket of its own does what it does outside, and an empty bracket does nothing |
| Bindings.SyncKeeps | src/main/sc2/js/libs/sproutcore-2.0.beta.3.js:9386-9416 | Running one sync keeps the invariant for the rest of the round; it leaves its link stale if the binding is not ready, and no other link |
| Bindings.FlushPassKeeps | src/main/sc2/js/libs/sproutcore-2.0.beta.3.js:8316-8370 | A whole round of the run loop keeps the invariant; a link is stale afterwards exactly if it was before or its sync came up while its binding was not ready |
| Bindings.ConnectKeeps | src/main/sc2/js/libs/sproutcore-2.0.beta.3.js:9305-9324 | Connecting keeps the invariant |
| Bindings.DisconnectKeeps | src/main/sc2/js/libs/sproutcore-2.0.beta.3.js:9335-9352 | Disconnecting keeps the invariant |
| Bindings.RunKeeps | src/main/sc2/js/libs/sproutcore-2.0.beta.3.js:9305-9416 | The invariant holds along every run of sets, nested change brackets, connections, disconnections and rounds, in any topology; links become stale by skipped syncs and in no other way |
| Bindings.AgreeAtRest | src/main/sc2/js/libs/sproutcore-2.0.beta.3.js:9305-9416 | Whenever a run comes to rest, the ends of every connected two-way link agree, unless one of its syncs was skipped on the way |
| Bindings.OnePending | src/main/sc2/js/libs/sproutcore-2.0.beta.3.js:9369-9383 | In every run each link has at most one sync in the queue, and has one exactly if it is noted and none was skipped |
| Bindings.SendAllDirects | src/main/sc2/js/libs/sproutcore-2.0.beta.3.js:9358-9383 | When held-back changes are delivered, a link is to be synced exactly if an end changed or it was pending, and forward exactly if its `from` end is among them or it was pending forward: forward overrides back in any order |
| Bindings.SendInOrder | src/main/sc2/js/libs/sproutcore-2.0.beta.3.js:9369-9383 | Links that hear of a change join the queue at its end, in the order in which they were connected |
| Bindings.SendFirst | src/main/sc2/js/libs/sproutcore-2.0.beta.3.js:3546-3551 | Held-back events are sent from the first to the last |
| Bindings.ConnectCopies | src/main/sc2/js/libs/sproutcore-2.0.beta.3.js:9305-9324 | Connecting a link to a loop at rest and flushing copies its `from` value, and changes no other cell |
| Bindings.WithoutOne | src/main/sc2/js/libs/sproutcore-2.0.beta.3.js:9335-9352 | Disconnecting keeps the order of the other links |
| Bindings.SyncCopies | src/main/sc2/js/libs/sproutcore-2.0.beta.3.js:9386-9416 | A sync makes both ends the `from` value going forward and the `to` value going back, and touches no other cell |
| Bindings.NothingInvented | src/main/sc2/js/libs/sproutcore-2.0.beta.3.js:9386-9416 | A round only copies values that were there before |
| Bindings.AgreedPassRests | src/main/sc2/js/libs/sproutcore-2.0.beta.3.js:8347-8364 | Once all pending links agree, one more round brings the loop to rest and changes no value |
| Bindings.ReconnectedLinkIsDead | src/main/sc2/js/libs/sproutcore-2.0.beta.3.js:9386-9398 | For any two-way link with different end values: connect, disconnect, flush and connect again, and the loop rests with the ends different |
| Bindings.SharedBindingSkips | src/main/sc2/js/libs/sproutcore-2.0.beta.3.js:9335-9352 | Of two objects that share a binding, disconnecting one makes the pending sync of the other be skipped |
| BindingRests.OneValueRests | src/main/sc2/js/libs/sproutcore-2.0.beta.3.js:8347-8370 | If all pending syncs read one value, the flush loop comes to rest in any wiring, with or without cycles, after no more rounds than connected cells have another value, plus one |
| BindingRests.OneChangeRests | src/main/sc2/js/libs/sproutcore-2.0.beta.3.js:8347-8370 | So it does after any single change of a loop at rest |
| BindingRests.LayeredRests | src/main/sc2/js/libs/sproutcore-2.0.beta.3.js:8347-8370 | If the links lead up a ranking of the cells, and what a two-way link leads to is written by no other link and starts no other two-way one, the loop comes to rest from any state, within three rounds more than the highest rank |
| BindingRests.LayeredAgree | src/main/sc2/js/libs/sproutcore-2.0.beta.3.js:8347-8370 | So after any run in such a wiring: then the ends of all two-way links that are not stale agree |
| BindingChains.ChainRests | src/main/sc2/js/libs/sproutcore-2.0.beta.3.js:8347-8370 | On paths of two-way links, however many and long and whichever way round each link lies, the loop comes to rest from any state that keeps the invariant, outside of change brackets and with ready links of which no sync was skipped; and all ends agree |
| BindingChains.ChainAgrees | src/main/sc2/js/libs/sproutcore-2.0.beta.3.js:8347-8370 | So after any run that has left such paths, ready and with no sync skipped |
| BindingChains.WallMoves | src/main/sc2/js/libs/sproutcore-2.0.beta.3.js:9386-9416 | A sync on a path moves the difference it removes to the next link, or removes it for good; it never adds one |
| BindingChains.DownPass | src/main/sc2/js/libs/sproutcore-2.0.beta.3.js:8347-8364 | A round that takes the first difference down loses one, or leaves the first one lower with nothing changed up to it, or turns it up again beyond the cells that had not changed before |
| BindingRings.RingTurns | src/main/sc2/js/libs/sproutcore-2.0.beta.3.js:8347-8364 | In a ring of any number of one-way bindings from three on, a round passes the odd value on and leaves the same state one cell further |
| BindingRings.RingNeverRests | src/main/sc2/js/libs/sproutcore-2.0.beta.3.js:8347-8364 | So the flush loop never ends there |
| BindingRings.RingReached | src/main/sc2/js/libs/sproutcore-2.0.beta.3.js:3532-3561 | That state is reached from nothing: all cells set to one value, all links connected and flushed, one cell changed and another changed and changed back |
| BindingRuns.BegunRuns | src/main/sc2/js/libs/sproutcore-2.0.beta.3.js:9305-9324 | Setting any number of cells, connecting any links whose ends agree and flushing once leaves them connected, ready and at rest |
| BindingLines.LineCopies | src/main/sc2/js/libs/sproutcore-2.0.beta.3.js:8347-8364 | Any number of bindings connected one behind the other, one-way or two-way: a single round gives all cells the value of the first, whatever they held |
| BindingLines.LinesAreFine | src/main/sc2/js/libs/sproutcore-2.0.beta.3.js:8347-8370 | Such lines are covered by the theorems on coming to rest |
| BindingStars.StarTurns | src/main/sc2/js/libs/sproutcore-2.0.beta.3.js:8347-8364 | Three two-way bindings into one cell, without a cycle: a round leaves the state of the other kind, and two rounds the same state with the values exchanged |
| BindingStars.StarReached | src/main/sc2/js/libs/sproutcore-2.0.beta.3.js:3532-3561 | That state is reached from nothing too, and the flush loop never ends there |
| BindingEngine.ObserverSet.Contains | src/main/sc2/js/libs/sproutcore-2.0.beta.3.js:3512-3515 | The membership set and the array of waiting events agree |
| BindingEngine.Engine.ScheduleSync | src/main/sc2/js/libs/sproutcore-2.0.beta.3.js:9369-9383 | The method does to the noted directions and the queue what is specified |
| BindingEngine.Engine.NotifyObservers | src/main/sc2/js/libs/sproutcore-2.0.beta.3.js:3532-3545 | Keeps an event once while changes are suspended, and sends it otherwise |
| BindingEngine.Engine.FlushObserverQueue | src/main/sc2/js/libs/sproutcore-2.0.beta.3.js:3546-3551 | Sends the waiting events in order; what they cause counts as new |
| BindingEngine.Engine.Set | src/main/sc2/js/libs/sproutcore-2.0.beta.3.js:2738-2746 | Writes the value and tells nobody if it was there before; while nothing is suspended, a new value notes a sync for exactly the links that lead from the cell, forward, and the two-way ones that lead to it, back unless they are pending forward |
| BindingEngine.Engine.EndPropertyChanges | src/main/sc2/js/libs/sproutcore-2.0.beta.3.js:3558-3561 | Delivers the waiting events when the outermost bracket ends |
| BindingEngine.Engine.Sync | src/main/sc2/js/libs/sproutcore-2.0.beta.3.js:9386-9416 | Copies in the noted direction; for a binding that is not ready, returns before the direction is forgotten |
| BindingEngine.Engine.FlushRound | src/main/sc2/js/libs/sproutcore-2.0.beta.3.js:8347-8364 | One round over the queue, with syncs scheduled meanwhile left for the next |
| BindingEngine.Engine.Flush | src/main/sc2/js/libs/sproutcore-2.0.beta.3.js:8316-8370 | The loop goes on while the queue has items, and stops at the first round after which it has none, wherever there is one; it keeps the invariant, and if nothing is held back the ends of every connected two-way link that is not stale agree |
| ComputedProperties.ClosureIsReach | src/main/sc2/js/libs/sproutcore-2.0.beta.3.js:3706-3720 | A set that contains a key, is closed under dependents and stays within reach is exactly what the key reaches |
| ComputedProperties.Unreached | src/main/sc2/js/libs/sproutcore-2.0.beta.3.js:3028-3044 | Changing one property does not change the recomputed value of anything it does not reach |
| ComputedProperties.ClearingKeeps | src/main/sc2/js/libs/sproutcore-2.0.beta.3.js:3159-3163 | Clearing the cache of what a change reaches keeps every cached value equal to recomputation |
| ComputedProperties.DependedOnIsWatched | src/main/sc2/js/libs/sproutcore-2.0.beta.3.js:3028-3032 | A key that some property depends on has a positive watch count |
| ComputedProperties.Host.IterDeps | src/main/sc2/js/libs/sproutcore-2.0.beta.3.js:3706-3722 | One search, nested or not, visits each key once, clears the cache of all that is newly reached, and notifies each key once for every newly searched key it depends on; it ends on cyclic tables too |
| ComputedProperties.Host.PropertyDidChange | src/main/sc2/js/libs/sproutcore-2.0.beta.3.js:4165-4172 | A change clears the key itself and what it reaches, and notifies the key after everything that it reaches |
| ComputedProperties.TopSearch | src/main/sc2/js/libs/sproutcore-2.0.beta.3.js:3735-3740 | A search from nothing clears exactly what the key reaches |
| ComputedProperties.Host.Get | src/main/sc2/js/libs/sproutcore-2.0.beta.3.js:3166-3177 | Reading gives what recomputing from the stored values would give, where each function gets one argument for each declared dependency, in their order, and keeps that true of the whole cache |
| ComputedProperties.FreshAllIs | src/main/sc2/js/libs/sproutcore-2.0.beta.3.js:3166-3177 | The arguments are as many as the declared dependencies, and each is what the dependency of its position is worth |
| ComputedProperties.Host.GetAll | src/main/sc2/js/libs/sproutcore-2.0.beta.3.js:3166-3177 | The arguments read through the cache are those, in order |
| ComputedProperties.WorthExactly | src/main/sc2/js/libs/sproutcore-2.0.beta.3.js:3166-3177 | A stored property is worth its value, or undefined; a computed one what its function makes of the values of its dependencies, in order |
| ComputedProperties.Host.Set | src/main/sc2/js/libs/sproutcore-2.0.beta.3.js:2738-2746 | Writing a stored property removes exactly what it reaches from the cache if it is watched and the value is new, and else nothing; the notifications are counted exactly.  Where watch counts tally the cache stays right; where they do not, it does if and only if the property is watched, the value is the same, or nothing in the cache is computed from it, for functions that tell arguments apart |
| ComputedProperties.Host.DefineComputed | src/main/sc2/js/libs/sproutcore-2.0.beta.3.js:3139-3156 | Defining a property in place of another watches its dependencies once more and the old ones once less; it clears the key itself and nothing else, so that the cache stays right if and only if the value is the same or nothing in the cache is computed from it, for functions that tell arguments apart |
| ComputedProperties.ChangeShows | src/main/sc2/js/libs/sproutcore-2.0.beta.3.js:3166-3177 | Where functions tell arguments apart, a new value of one property changes the recomputed value of exactly what is computed from it, directly or not |
| ComputedProperties.StaysRightExactly | src/main/sc2/js/libs/sproutcore-2.0.beta.3.js:3159-3177 | After a change for which only the key itself is cleared, the cache is right if and only if the value is the same or nothing left in it is computed from the key |
| ComputedProperties.RedefinedGoesStale | src/main/sc2/js/libs/sproutcore-2.0.beta.3.js:3139-3156 | A run that defines a property, reads it and redefines its dependency leaves the old value in the cache |
| ComputedProperties.Host.AddDependentKey | src/main/sc2/js/libs/sproutcore-2.0.beta.3.js:3028-3032 | Counts the dependency and one watch more, of that key alone, and adds one dependent to the table |
| ComputedProperties.Host.RemoveDependentKey | src/main/sc2/js/libs/sproutcore-2.0.beta.3.js:3034-3038 | Takes back one dependency and one watch, of that key alone; the table does not forget the dependent |
| ComputedProperties.Host.RemoveObserver | src/main/sc2/js/libs/sproutcore-2.0.beta.3.js:4066-4088 | Takes back one watch, whoever it was counted for; the counts tally afterwards if and only if the observer had been added or nobody was watching |
| ComputedProperties.UnwatchedGoesStale | src/main/sc2/js/libs/sproutcore-2.0.beta.3.js:4066-4088 | A run that defines a property, reads it, removes an observer of its dependency that was never added and writes the dependency leaves the old value in the cache |
| JsDate.YearLength | src/main/sc2/js/libs/sproutcore-datetime.js:666-680 | The closed form of the first day of a year steps by 365 or 366 days |
| JsDate.Epoch | src/main/sc2/js/libs/sproutcore-datetime.js:841 | The time 0 is midnight of Thursday, 1 January 1970 |
| JsDate.EpochUTC | src/main/sc2/js/libs/sproutcore-datetime.js:841 | `Date.UTC` of that day is 0, and it takes the year 70 for it |
| JsDate.Cycle | src/main/sc2/js/libs/sproutcore-datetime.js:666-680 | The calendar repeats after 400 years of 97 leap days, which are whole weeks |
| JsDate.FieldsMakeTime | src/main/sc2/js/libs/sproutcore-datetime.js:820-841 | Putting the UTC fields of an instant together again gives the instant |
| JsDate.DateFieldsUnique | src/main/sc2/js/libs/sproutcore-datetime.js:820-841 | A valid date is read back as the same year, month and day |
| JsDate.TimeFieldsUnique | src/main/sc2/js/libs/sproutcore-datetime.js:820-841 | A valid time of day is read back as the same fields |
| DateTimeMath.AdvanceExact | src/main/sc2/js/libs/sproutcore-datetime.js:762-775 | Advancing by any days, hours, minutes, seconds and milliseconds in any zone moves the instant by exactly their length if and only if the local year is not 0 to 99 |
| DateTimeMath.AdvanceAdds | src/main/sc2/js/libs/sproutcore-datetime.js:762-775 | Two such advances add up if and only if the first does not end in one of the local years 0 to 99 |
| DateTimeMath.MonthsAreYears | src/main/sc2/js/libs/sproutcore-datetime.js:762-775 | Advancing 12k months is advancing k years if and only if both years are among 0 to 99 or both are not |
| DateTimeMath.ToTimezoneKeeps | src/main/sc2/js/libs/sproutcore-datetime.js:435-438 | Changing the zone keeps the instant if and only if the local year there is not 0 to 99 |
| DateTimeLaws.EastIsAhead | src/main/sc2/js/libs/sproutcore-datetime.js:800-806 | UTC shows the instant itself, and a zone n minutes further east a clock n minutes ahead |
| DateTimeLaws.FieldsSet | src/main/sc2/js/libs/sproutcore-datetime.js:783-853 | Setting fields of an instant in a zone gives exactly the local date and time with these fields, as long as there is one, outside the years 0 to 99 |
| DateTimeMath.DayOfYearExact | src/main/sc2/js/libs/sproutcore-datetime.js:711-721 | The month-walking sum is the number of days since 1 January plus one if and only if it is not March or later of the year 0, where it is one short |
| DateTimeMath.CountClosed | src/main/sc2/js/libs/sproutcore-datetime.js:724-735 | The closed form counts the days of a range that fall on a weekday |
| DateTimeMath.WeekCounts | src/main/sc2/js/libs/sproutcore-datetime.js:724-735 | `week0` is the number of Sundays, and `week1` of Mondays, of the year up to and including the day, for every instant |
| DateTimeMath.WeekDayGetterExact | src/main/sc2/js/libs/sproutcore-datetime.js:635-649 | `lastX` is the one instant 1 to 7 days earlier, `nextX` the one 0 to 6 days later, on weekday X, if and only if the local year is not 0 to 99 |
| DateTimeLaws.TwelveHourIs | src/main/sc2/js/libs/sproutcore-datetime.js:1054-1059 | The 12-hour clock shows 1 to 12 and the same position of the hand |
| DateTimeLaws.Rem100Is | src/main/sc2/js/libs/sproutcore-datetime.js:1072 | A year without its centuries stays on its side of zero |
| DateTimeLaws.CountsShown | src/main/sc2/js/libs/sproutcore-datetime.js:1060-1069 | `%U` shows the number of Sundays and `%W` of Mondays so far in the year, `%j` the day of the year, in digits that read back as these numbers, and `%w` the weekday |
| DateTimeEngine.DateTimeClass.SetCalcState | src/main/sc2/js/libs/sproutcore-datetime.js:580-591 | Moves the shared state where a value is given and returns what it was |
| DateTimeEngine.DateTimeClass.ToMilliseconds | src/main/sc2/js/libs/sproutcore-datetime.js:783-853 | Computes the instant of the given fields and puts the shared date back |
| DateTimeEngine.DateTimeClass.Get | src/main/sc2/js/libs/sproutcore-datetime.js:608-744 | For every key, with or without start and zone, and on every recursive path the shared date and zone are put back, and the answer is the one specified |
| DateTimeEngine.WalkedDaysIs | src/main/sc2/js/libs/sproutcore-datetime.js:711-721 | The walk over the months gives the day of the year on a shifted date |
| DateTimeEngine.AnswersInZone | src/main/sc2/js/libs/sproutcore-datetime.js:608-744 | Asked for in a zone, as instances ask, the answers are the calendar ones of the local date |
| DateTimeEngine.DateTimeClass.GetDayOfYear | src/main/sc2/js/libs/sproutcore-datetime.js:711-721 | The loop that moves the shared date through the months adds up the specified sum and puts the date back |
| DateTimeEngine.DateTimeClass.AdvanceBy | src/main/sc2/js/libs/sproutcore-datetime.js:762-775 | Adds each given field to its value in the old zone and leaves the shared state at the sum in the new one |
| DateTimeCache.KeyInjective | src/main/sc2/js/libs/sproutcore-datetime.js:896-897 | Cache keys tell requests apart if the milliseconds have equally many digits |
| DateTimeCache.CollideExactly | src/main/sc2/js/libs/sproutcore-datetime.js:896-897 | Two different instants share a key in some pair of zones if and only if the text of one continues that of the other with anything but a zero |
| DateTimeCache.ThirteenDigits | src/main/sc2/js/libs/sproutcore-datetime.js:896-897 | Instants from 2001 to 2286 have 13 digits |
| DateTimeCache.KeysCollide | src/main/sc2/js/libs/sproutcore-datetime.js:896-897 | Two different requests with one key |
| DateTimeCache.OldestFirst | src/main/sc2/js/libs/sproutcore-datetime.js:899-907 | Over any run of requests, a key is still there, moved up by the evictions, as long as no more keys have gone than stood before it; a key not requested again is gone after that |
| DateTimeCache.StaysBounded | src/main/sc2/js/libs/sproutcore-datetime.js:899-907 | Over any run the live keys stay distinct and at most 1000, and their number is exactly counted |
| DateTimeCache.Survives | src/main/sc2/js/libs/sproutcore-datetime.js:899-907 | A new instance survives at least the next 999 misses |
| DateTimeCache.RingMoves | src/main/sc2/js/libs/sproutcore-datetime.js:902-906 | Writing the next ring slot keeps ring slots and live keys in bijection, oldest out first |
| DateTimeCache.InstanceCache.Create | src/main/sc2/js/libs/sproutcore-datetime.js:892-908 | Returns the live instance of the key or a new one and evicts first in first out; says exactly which instant and zone come back, and that it is the zone asked for if and only if the key is new or its instance still has that zone |
| DateTimes.DateTimeApi.Create | src/main/sc2/js/libs/sproutcore-datetime.js:879-918 | Takes fields that are not given from the current time and serves the result from the cache, with exactly the instant and zone the cache holds for it; live instances of equally many digits stay so |
| DateTimes.DateTimeApi.Advance | src/main/sc2/js/libs/sproutcore-datetime.js:289-291 | Serves the advanced instant from the cache, with exactly the instant and zone the cache holds for it |
| DateTimes.DateTimeApi.ToTimezone | src/main/sc2/js/libs/sproutcore-datetime.js:435-438 | Outside the local years 0 to 99: asks for the same instant in the new zone, and returns exactly the instant and zone that the cache holds for it |
| DateTimes.DateTimeApi.ToFormattedString | src/main/sc2/js/libs/sproutcore-datetime.js:1088-1099 | The replacement loop over the shared state writes the specified text, which the rows on directives and timestamps pin down |
| DateTimes.DateTimeApi.Parse | src/main/sc2/js/libs/sproutcore-datetime.js:943-1010 | The scanner loop finds what is specified for the text; null exactly where a scan throws or the instance that the cache returns has another weekday; otherwise exactly that instance, whose instant counts from 1970 as the rows on the epoch say |
| DateTimes.DateTimeApi.ParseChililogServerDateTime | src/main/sc2/js/app.js:99-103 | Returns exactly the instance that the cache holds for the text, relabelled to the machine zone, which is what the cache then answers the same request with; nothing exactly for texts that do not parse |
| DateTimes.Scanner.ScanNumber | src/main/sc2/js/libs/sproutcore-datetime.js:139-150 | Takes as many digits as there are up to the maximum and moves exactly past them |
| DateTimes.Scanner.ScanName | src/main/sc2/js/libs/sproutcore-datetime.js:173-181 | Finds the first name that the text continues with |
| DateTimes.Scanner.ScanTimezone | src/main/sc2/js/libs/sproutcore-datetime.js:978-988 | Reads `Z` or a signed offset with or without a colon; skips any other character |
| DateTimeLaws.NumberExactly | src/main/sc2/js/libs/sproutcore-datetime.js:139-150 | For every text: a number is read exactly if there are enough digits, and then as far as they go, but no further than allowed |
| DateTimeLaws.NameExactly | src/main/sc2/js/libs/sproutcore-datetime.js:173-181 | For every text: of some names the first one that stands there is read, and none exactly if none stands there |
| DateTimeLaws.ColonOptional | src/main/sc2/js/libs/sproutcore-datetime.js:983-985 | The hours and minutes of an offset may stand without a colon |
| DateTimeLaws.CenturyIs | src/main/sc2/js/libs/sproutcore-datetime.js:976 | Two digits stand for the year of 1971 to 2070 that ends in them |
| DateTimeLaws.LineEndsSkipped | src/main/sc2/js/libs/sproutcore-datetime.js:946 | A line end in a format is matched with nothing, and every other part is matched |
| JsText.Pad | src/main/sc2/js/libs/sproutcore-datetime.js:1022-1027 | Puts zeros in front until the text is long enough |
| JsText.PaddedReadsBack | src/main/sc2/js/libs/sproutcore-datetime.js:1022-1027 | A padded number has exactly the wanted width and reads back as itself |
| DateTimeRoundTrip.ScanIntReads | src/main/sc2/js/libs/sproutcore-datetime.js:139-150 | A number that fits is read in full and no further |
| DateTimeRoundTrip.ScanArrayReads | src/main/sc2/js/libs/sproutcore-datetime.js:173-181 | A name is found if none of the names begins another |
| DateTimeRoundTrip.ZoneReadsBack | src/main/sc2/js/libs/sproutcore-datetime.js:978-988 | Every offset below 100 hours is read back |
| DateTimeRoundTrip.PartReadsBack | src/main/sc2/js/libs/sproutcore-datetime.js:954-995 | Every readable part of a format reads its own text back, in any surroundings |
| DateTimeRoundTrip.AllReadsBack | src/main/sc2/js/libs/sproutcore-datetime.js:954-995 | So does every format whose unpadded directives do not run into digits |
| DateTimeRoundTrip.AllNoted | src/main/sc2/js/libs/sproutcore-datetime.js:948-995 | What the parser has noted at the end is exactly the fields that the format mentions, with the values of the instant |
| DateTimeParse.ParsedFields | src/main/sc2/js/libs/sproutcore-datetime.js:943-1010 | Parsing formatted text is creating from those fields |
| DateTimeParse.RoundTrip | src/main/sc2/js/libs/sproutcore-datetime.js:943-1010 | For any format with a whole date and an hour: the date comes back, units not mentioned are zero, a format without `%Z` is read in the machine zone |
| DateTimeParse.HourReadExactly | src/main/sc2/js/libs/sproutcore-datetime.js:998-1001 | Exactly which hours come back on either clock; with `%I %p` all but noon and midnight |
| DateTimeParse.RoundTripExactly | src/main/sc2/js/libs/sproutcore-datetime.js:943-1010 | Any format down to the second brings back the instant, floored to the second without `%s`, and its zone, if and only if its clock can tell the hour |
| DateTimeParse.ClientRoundTrips | src/main/sc2/js/app.js:99-121 | For local years 1000 to 9999 and offsets below 100 hours: the server and local formats bring back instant and zone, ISO 8601 the instant floored to the second, and the text written for the server is read as the same instant |
| DateTimeLaws.KnownTimestamp | src/main/sc2/js/app.js:99-104 | A known instant in a known zone is written `2011-08-07T13:05:09.042+10:00`, and that text is read as it |
| DateTimeLaws.EpochTimestamp | src/main/sc2/js/app.js:118-121 | The time 0 is written `1970-01-01T00:00:00.000Z`, and that text is read as 0 |
| DateTimeLaws.KnownDateTexts | src/main/sc2/js/libs/sproutcore-datetime.js:1040-1073 | The texts of the date directives for that instant |
| DateTimeLaws.KnownTimeTexts | src/main/sc2/js/libs/sproutcore-datetime.js:1040-1080 | The texts of the time and zone directives for it |
| DateTimeLaws.KnownCounts | src/main/sc2/js/libs/sproutcore-datetime.js:1060-1069 | The texts of the counting directives for it |
| DateTimeParse.NeverParses | src/main/sc2/js/libs/sproutcore-datetime.js:954-990 | A format with a directive that is not implemented parses no text at all |
| AuthDate.DateSetExactly | src/main/sc2/js/authentication.js:42-44 | Setting year, month and day in turn gives the date asked for if and only if the day kept from today exists in that month; otherwise the month is one too late |
| AuthDate.TimeSetTo | src/main/sc2/js/authentication.js:45-48 | Setting the time fields in turn gives the time asked for; milliseconds without a fraction stay those of now |
| AuthDate.TruncatedIs | src/main/sc2/js/authentication.js:42-48 | The setters take of a number the whole number next to it on the side of zero |
| AuthDate.ReadExactly | src/main/sc2/js/authentication.js:42-48 | The fields of any instant give back the instant exactly on those days |
| AuthDate.EarlyDaysFit | src/main/sc2/js/authentication.js:42-44 | Up to the 28th of a month every day is one of them |
| AuthDate.PiecesOfTimestamp | src/main/sc2/js/authentication.js:33-39 | Splitting takes every timestamp of numbers apart into its fields |
| AuthDate.ParseISO8601 | src/main/sc2/js/authentication.js:31-51 | For every text: throws exactly where a `T` or the second is missing, leaves an invalid date exactly where a piece is missing or is no number, and otherwise reads the fields into the date one by one; for digits these are their numbers |
| AuthDate.TwoReadersAgree | src/main/sc2/js/authentication.js:31-51 | On every UTC timestamp of the years 1000 to 9999 it agrees with `SC.DateTime.parse`, to the millisecond with a fraction and to the second without, if and only if today fits the month |
| SparseSet.Refines | src/main/sc2/js/libs/sproutcore-2.0.beta.3.js:7630-7683 | Every operation does to the members what it does to a mathematical set, and keeps the slots distinct |
| SparseSet.StaleExactly | src/main/sc2/js/libs/sproutcore-2.0.beta.3.js:7507-7514 | After any run the stale objects are exactly those that a `clear` dropped and that were not added again |
| SparseSet.Set.IsMember | src/main/sc2/js/libs/sproutcore-2.0.beta.3.js:7635-7639 | The guarded test is exact, whatever stale numbers there are |
| SparseSet.Set.AddObject | src/main/sc2/js/libs/sproutcore-2.0.beta.3.js:7630-7650 | Appends a new object, keeps a present one, ignores null, throws if frozen; stale numbers of other objects stay |
| SparseSet.Set.RemoveObject | src/main/sc2/js/libs/sproutcore-2.0.beta.3.js:7653-7683 | Moves the last object into the gap, and nothing if the object is not a member |
| SparseSet.SwapRemoveAt | src/main/sc2/js/libs/sproutcore-2.0.beta.3.js:7653-7683 | Removing fills the gap from the last slot and leaves all other slots as they were |
| SparseSet.Set.Pop | src/main/sc2/js/libs/sproutcore-2.0.beta.3.js:7566-7571 | Removes and returns the last object, or null |
| SparseSet.Set.Clear | src/main/sc2/js/libs/sproutcore-2.0.beta.3.js:7507-7514 | Empties the set and makes all members stale |
| SparseSet.Set.Contains | src/main/sc2/js/libs/sproutcore-2.0.beta.3.js:7686-7688 | Answers yes for members and stale objects, so it is exact if and only if the object is not stale |
| SparseSet.Set.Copy | src/main/sc2/js/libs/sproutcore-2.0.beta.3.js:7691-7699 | The copy has the same slots and nothing stale |
| SparseSet.Set.IsEqual | src/main/sc2/js/libs/sproutcore-2.0.beta.3.js:7523-7535 | Equal sizes, and every member is one the other set answers yes for |
| SparseSet.EqualExactly | src/main/sc2/js/libs/sproutcore-2.0.beta.3.js:7523-7535 | Comparing with a set is right for every other set if and only if it has nothing stale or no members |
| SparseSet.EqualAfterRun | src/main/sc2/js/libs/sproutcore-2.0.beta.3.js:7507-7535 | After any run that is so if and only if it is empty or everything a `clear` dropped has been added again |
| Session.SessionEngine.CheckExpiry | src/main/sc2/js/app_engine.js:1406-1430 | Logs out less than one poll before the expiry, asks for a new token less than two polls before it |
| Session.CheckExactly | src/main/sc2/js/app_engine.js:1406-1430 | In milliseconds: a check logs out exactly when less than a minute is left, and otherwise asks for a new token exactly when less than two are left and the user is not to be remembered |
| Session.AnswerExactly | src/main/sc2/js/app_engine.js:1540-1543 | An answer gives the token twenty minutes less a second |
| Session.RememberedRuns | src/main/sc2/js/app_engine.js:1406-1430 | A user who is remembered is never asked for, and stays logged in over any run of checks exactly if none comes in the last minute |
| Session.KeptAlive | src/main/sc2/js/app_engine.js:1406-1448 | With the first check a minute before the expiry, gaps of at most a minute and every refresh answered before the next check, no run logs out |
| Session.LongerGapLogsOut | src/main/sc2/js/app_engine.js:1406-1430 | Any longer gap admits a run that logs out |
| Session.GapExactly | src/main/sc2/js/app_engine.js:47-52 | So a minute is the exact bound |
| Roles.UserRecord.FromApiObject | src/main/sc2/js/app_datastore.js:635-671 | Finds the administrator and the repository accesses, sorted by repository in the order of strings |
| Roles.LessExactly | src/main/sc2/js/app_datastore.js:654-663 | One string comes before another exactly if it is a proper beginning of it, or has the smaller character where they part |
| Roles.SortedOnce | src/main/sc2/js/app_datastore.js:654-663 | If no two accesses name one repository there is only one sorted order |
| Roles.AccessesOf | src/main/sc2/js/app_datastore.js:639-652 | Each role that begins with `repo.`, and no other, gives one access, in the order of the roles |
| Roles.ParsedIs | src/main/sc2/js/app_datastore.js:645-648 | The repository is what stands up to the next dot, the role what stands up to the one after it, and the rest is ignored |
| Roles.UserRecord.ToApiObject | src/main/sc2/js/app_datastore.js:675-688 | Prints the administrator first, then the accesses in order |
| Roles.PrintedEach | src/main/sc2/js/app_datastore.js:682-686 | The accesses are printed one for one, in their order |
| Roles.PrintedExactly | src/main/sc2/js/app_datastore.js:645-650 | A repository role is printed as it was if and only if it has three parts |
| Roles.LosslessExactly | src/main/sc2/js/app_datastore.js:635-688 | The same roles come back, as a multiset, if and only if each is the administrator or a repository role of three parts and the administrator is given at most once |
| Roles.RoundTrip | src/main/sc2/js/app_datastore.js:635-688 | The methods one after the other do that, with the administrator in front |
| Messages.WriteLogEntry | src/main/sc2/js/stream_page.js:339-358 | The reassigned text ends up as the specified markup |
| Messages.InjectKeywordHighlighting | src/main/sc2/js/app_engine.js:870-906 | Without keywords the search page computes the same markup, if and only if the message is not empty |
| Messages.Simultaneous | src/main/sc2/js/stream_page.js:344-356 | The replacements one after the other are one map of the characters: three become entities, newlines become line breaks, and in messages of more than 100 characters six punctuation characters get a break |
| Messages.RenderingIsInvertible | src/main/sc2/js/stream_page.js:339-358 | Leaving out break opportunities, turning line breaks into newlines and decoding entities recovers every message |
| Messages.DifferentMessagesDiffer | src/main/sc2/js/stream_page.js:339-358 | Different messages have different markup |

## Left out

- Templates: the parser and lexer, and the text of the emitted JavaScript; compilation starts from the syntax tree and emits instructions.
- Templates: the `data` option, and the wrapper cache of one template object, which hands the closures of its first rendering to later ones.
- Templates: the options object is passed by value, so that changes a helper makes to it are not seen; the shared register is taken to hold anything after a call.
- Templates: a user-written helper is a deterministic function of its arguments and of what its programs returned, with a bound on how often it runs them; primitive `this` is not boxed.
- TemplateProof.CompilerCorrect: asks that no nested program loses a parameter, because the code throws there; `TemplateExamples.DepthsSeenExactly` gives the exact condition.
- Templates: a program of a single statement returns the value of that statement, and not its text, in the intended meaning too.
- JavaScriptCompilerObject.CompileTemplate: asks that with string params each param has a string, as the second pass cannot read the opcode array back otherwise (`Opcodes.DecodedExactly`); the first pass is proved without.
- Bindings: paths of several keys and their chains, transforms, operands, destroyed objects, prototypes and nested run loops; equality is reflexive, as NaN is not a value of the model.
- Bindings: observers other than those of bindings, before-observers, and the queues after `sync`; user code runs between the rounds, as any sequence of actions.
- BindingChains.ChainRests: two bindings between the same two cells the opposite way round, and trees of two-way bindings that branch, are not covered; three into one cell need not rest (`BindingStars.StarReached`).
- BindingEngine.Engine.Flush: asks for a number of rounds after which the queue is empty, as the loop need not end; the theorems on coming to rest provide it.
- Bindings: a cell stands for one property of one object wherever it is reached from; a link is connected at most once at a time, and change brackets are closed as often as opened.
- ComputedProperties.Host.Get: the computed function reads exactly its declared dependencies, in order, and dependencies are acyclic; the search itself is proved for cyclic tables.
- Computed properties: setters, and observers that read or write while a search is going on.
- DateTimeEngine.DateTimeClass.GetWeekDay: gives the milliseconds and zone from which the instance is created, without the cache.
- DateTimes.DateTimeApi.FormatDirective: the text of `%c`, `%x` and `%X` is the host's and stays a parameter.
- Dates: `compareDate`, the binding transform, negative zero, and instants beyond the range of JavaScript dates.
- AuthDate.ParseISO8601: what `Number` makes of a text is a parameter; dates out of range and infinite numbers count as invalid numbers.
- SC.Set: enumerable change notifications and aliases; identities are taken to be unique.
- Roles: labels, the values kept beside them, and the other fields of a user; `sort` is an insertion sort, and the claims hold for any order of equal repositories.
- Session: timers, requests and local storage; a server's answer is an event, and the log-out branch only clears the flag.
- Messages: highlighting with keywords.
- Text: strings are sequences of characters, not of UTF-16 code units, which matters to the order of repository names and to the length of a message only outside the basic plane.
- The Java server, the page statecharts, the views and dialogs, the record store and JSON.
