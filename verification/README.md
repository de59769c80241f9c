# A verified model of the native CLR profiler

The native profiler of the .NET tracer rewrites method bodies while they are being compiled. It
decodes a body into a linked list, replaces calls to instrumented methods by calls to wrappers, and
lays the list out again. Around that stand parsers for metadata signatures, a Unicode library, the
profiler callbacks with their bookkeeping, and a cache of metadata references. This project models
these parts in Dafny and proves what they promise. `dafny verify dfyconfig.toml` checks all of it.

## What is proved

**Rewriting method bodies.** `Pipeline.ProcessReplacementCalls` runs the whole path over mutable
nodes: `ImportPass` and `ClausePass` read bytes and clauses into a doubly linked list,
`ReplacementPass` walks it with a moving pointer and splices, `ExportPass` fills the output buffer and
widens branches until all fit. Each method is proved against functions on instruction lists
(`Layout`, `Codec`, `Replacement`, `Sweeps`), and the theorems are about those functions:

- import and export are inverse to each other (`Codec.ExportImportRoundTrip`,
  `Decoding.ExportAfterImport`), and what the profiler writes it can read again
  (`RegionChain.OutputReadsBack`);
- branch widening ends and reaches the least valid layout (`Layout.SettleIsLeast`);
- on an abstract stack machine with exceptions, filters, finally clauses and switches, the body that is written reaches
  exactly the images of the states the original reaches (`Stages.PipelinePreservesMeaning`), if each
  wrapper acts as its target on the same arguments plus three constants, and no matching call of the
  imported body carries a prefix or ends a handler;
- the header's stack bound stays sufficient through hook, insertions and replacements
  (`Stages.HeaderCoversStack`); that a wrapper takes three arguments more is derived from the
  acceptance test (`Acceptance`);
- exception regions follow their instructions through import, splices and export (`Regions`,
  `ClausePass`, `RegionChain`).

**Signatures.** The recursive skipper accepts exactly the encodings of the type trees its code
admits; the explicit-stack printer refines a recursive one; and it is said exactly when the printed
names and the box and unbox decisions are the ones that are meant.

**Unicode, callbacks, cache.** Validity is the round trip; transcoding repairs exactly the unpaired
surrogates and invalid bytes; canonical ordering is the one stable reordering; every field of the
callback object is characterised by the events of the run so far, and with them the load gate, the
startup hook and everything a compilation does (`CallbackTheorems.EffectsInOrder`); and so is the
wrapper cache.

## Where the code departs from its intent

Each case is stated by lemmas: an input on which the code departs, the exact condition under which it
does not, or both.

- If the replacement loop rewrites the last instruction, its cursor passes the sentinel and starts
  over at the front (`Sweeps.LastSiteWraps`, `Sweeps.SweepIsGreedyIff`). For arbitrary decisions it
  need not end (`Sweeps.LoopEndsIff`); for accepted wrappers it does (`Acceptance.RuleEnds`), as long
  as references carry the wrapper's signature, which they do when cache keys distinguish the wrappers
  (`CachedRules.CachedRulesEnd`).
- Instructions spliced in behind a call that ends a handler fall out of the handler
  (`Regions.BlockKeepsCover`).
- The printer attaches a pending `[]` to the first leaf, which is wrong exactly for arrays directly
  over generic instantiations (`SignatureRendering.EntriesRightIffTame`).
- The skipper takes a function pointer's calling convention for its parameter count unless it is
  GENERIC, and may stop inside the pointer (`SignatureDepartures.StandardPointerMisread`). It has no
  case for native integers although its format comment lists them
  (`SignatureDepartures.NativeIntegersRejected`). The model follows the code.
- With no arguments the box step reads the return type (`SignatureNavigation.BoxStepRightIff`).
- A type variable of the declaring type is looked up among the method's arguments when the call goes
  through a method specification (`SignatureNavigation.MethodSpecRightIff`,
  `SignatureNavigation.TypeVariableThroughMethodSpec`), and a type variable is copied as two bytes
  (`SignatureNavigation.ArgumentAtReads`).
- The cache key omits the signature (`WrapperCacheTheorems.OverloadsShareKey`,
  `WrapperCacheTheorems.AgreementIffKeysDistinguish`); for ordinary names nothing else can collide
  (`WrapperCacheTheorems.SeparableDistinguish`).

## Reading guide

- `Bytes`, `Opcodes`, `OpcodeTable`: little-endian loads and stores, the opcode tables and their columns.
- `Layout`, `Codec`, `Decoding`, `ByteForm`: offsets and widening, the byte format, import of arbitrary
  bytes, the bytes in numbers.
- `Replacement`, `Sweeps`, `RewrittenForm`, `Regions`, `Insertion`: the transformations.
- `StackMachine`, `Simulation`, `Preservation`, `WideningMeaning`: meaning.
- `Acceptance`, `CachedRules`, `SiteConditions`: the decisions and what they guarantee.
- `ILRewriterObject`, `ImportPass`, `ClausePass`, `ReplacementPass`, `ExportPass`, `Pipeline`: the
  linked list; `RegionChain`, `Stages`: the whole path.
- `Signatures`, `SignatureTheorems`, `SignatureCursor`, `SignatureDepartures`: the skipper.
- `SignaturePrinter`, `SignatureRendering`, `SignatureLoop`, `SignatureNavigation`: printer, box and
  unbox decisions.
- `Utf`, `UtfTheorems`, `CanonicalOrder`: Unicode.
- `Callbacks`, `CallbackTheorems`, `CorProfilerObject`: the callbacks.
- `WrapperCache`, `WrapperCacheTheorems`: the cache.

Tokens, the module-version pointer, name resolution, which replacement matches which call, and what
invoked methods do are parameters. Operand kinds and push counts of opcodes are those
of lib/coreclr/src/inc/opcode.def (`OpcodeTable.TablesAreColumns`); element types and compressed
numbers those of sections II.23.1 and II.23.2 of ECMA-335. Where a theorem would otherwise rest on a
constant or a predicate of the model, it is stated in the numbers of these standards.

## Model

| member | source | states |
|---|---|---|
| `OpcodeTable.TablesAreColumns` | lib/coreclr/src/inc/opcode.def:38-335 | operand kind and push count of every opcode are the columns of the opcode list |
| `Opcodes.WideningPairsBranches` | src/Datadog.Trace.ClrProfiler.Native/il_rewriter.cpp:480-491 | widening pairs short and long branches one to one and in order, so a branch keeps its condition |
| `Layout.Settle` | src/Datadog.Trace.ClrProfiler.Native/il_rewriter.cpp:389-508 | the retry loop ends with a list in which no short branch is out of the range of a signed byte |
| `Layout.Passes` | src/Datadog.Trace.ClrProfiler.Native/il_rewriter.cpp:389-508 | the loop body runs at most once more than there are short branches |
| `Layout.WideningCount` | src/Datadog.Trace.ClrProfiler.Native/il_rewriter.cpp:480-491 | widening a branch lowers the number of short branches, the measure of the retry loop |
| `Layout.LayoutBound` | src/Datadog.Trace.ClrProfiler.Native/il_rewriter.cpp:381-447 | for the list and any widening of it, offsets strictly increase and every instruction ends within ten bytes per node |
| `Layout.TooFarPersists` | src/Datadog.Trace.ClrProfiler.Native/il_rewriter.cpp:472-491 | a branch that does not fit keeps not fitting when other branches are widened |
| `Layout.SettleIsLeast` | src/Datadog.Trace.ClrProfiler.Native/il_rewriter.cpp:389-508 | in the result every two-byte branch reaches its target with a signed byte, it is a widening of the list, and it is contained in every such layout that never shortens a branch, so its size is minimal |
| `WideningMeaning.WideningKeepsRuns` | src/Datadog.Trace.ClrProfiler.Native/il_rewriter.cpp:480-508 | on a machine that treats both forms of a branch alike, a widened body runs step for step like the original |
| `WideningMeaning.ImportedAlike` | src/Datadog.Trace.ClrProfiler.Native/il_rewriter.cpp:179-303 | the operands that the bytes have no room for are none that a run depends on |
| `Codec.SwitchBaseIsTableEnd` | src/Datadog.Trace.ClrProfiler.Native/il_rewriter.cpp:458-468 | the base of a switch table is the offset just after its last entry |
| `Codec.ImportAfterExport` | src/Datadog.Trace.ClrProfiler.Native/il_rewriter.cpp:179-303 | importing the bytes of a well-formed laid-out list gives its instructions, operands and target positions |
| `Codec.ExportImportRoundTrip` | src/Datadog.Trace.ClrProfiler.Native/il_rewriter.cpp:381-508 | the same for the whole of Export on any well-formed list, up to short branches in their long forms |
| `Decoding.ImportWellFormed` | src/Datadog.Trace.ClrProfiler.Native/il_rewriter.cpp:179-303 | whatever bytes import with all targets resolved, the list is well formed and its layout is as long as the bytes |
| `Decoding.ExportAfterImport` | src/Datadog.Trace.ClrProfiler.Native/il_rewriter.cpp:179-303 | exporting an imported list unchanged needs no widening and gives back exactly the imported bytes |
| `ByteForm.LittleEndian` | src/Datadog.Trace.ClrProfiler.Native/il_rewriter.cpp:416-446 | integers are written least significant byte first and cut to their width |
| `ByteForm.InstructionBytes` | src/Datadog.Trace.ClrProfiler.Native/il_rewriter.cpp:396-504 | byte for byte what stands at an instruction’s offset: its opcode in one byte or behind FE, its operand, for a branch the distance from its own end to its target |
| `ByteForm.EntryBytes` | src/Datadog.Trace.ClrProfiler.Native/il_rewriter.cpp:458-468 | a switch entry holds the distance from the end of the table to its target |
| `ByteForm.OpcodeAccepted` | src/Datadog.Trace.ClrProfiler.Native/il_rewriter.cpp:193-212 | an opcode is read exactly if it is a byte below F8 or FF, or FE and a byte below 26 |
| `ILRewriterObject.ILRewriter.InsertBefore` | src/Datadog.Trace.ClrProfiler.Native/il_rewriter.cpp:355-363 | the doubly linked list stays linked, the node stands at its place, everything else keeps its order, the stack bound grows by what the opcode pushes |
| `ILRewriterObject.ILRewriter.InsertAfter` | src/Datadog.Trace.ClrProfiler.Native/il_rewriter.cpp:365-373 | likewise for the place after a node |
| `ILRewriterObject.ILRewriter.EmitBefore` | src/Datadog.Trace.ClrProfiler.Native/il_rewriter_wrapper.cpp:79-91 | a fresh node with the given opcode and operand is linked in before a node; the content changes by exactly that instruction |
| `ILRewriterObject.ILRewriter.EmitAfter` | src/Datadog.Trace.ClrProfiler.Native/il_rewriter_wrapper.cpp:93-98 | likewise after a node |
| `ILRewriterObject.ILRewriter.LoadArguments` | src/Datadog.Trace.ClrProfiler.Native/cor_profiler.cpp:934-941 | the three constants stand before the wrapper call in their order and raise the stack bound by three |
| `ILRewriterObject.ILRewriter.ReplaceSite` | src/Datadog.Trace.ClrProfiler.Native/cor_profiler.cpp:823-971 | the list changes by exactly one block in place of the call, whose own node is the nop; the cursor ends on the node behind it |
| `ImportPass.ReadTargets` | src/Datadog.Trace.ClrProfiler.Native/il_rewriter.cpp:266-281 | the inner loop over switch targets succeeds exactly when the table fits and appends its entries |
| `ImportPass.ReadInstructions` | src/Datadog.Trace.ClrProfiler.Native/il_rewriter.cpp:190-290 | the reading loop succeeds exactly when the bytes are a sequence of instructions, and fills the nodes and the offset table accordingly |
| `ImportPass.ResolveTargets` | src/Datadog.Trace.ClrProfiler.Native/il_rewriter.cpp:293-300 | the second loop replaces every stored target offset by the node the offset table holds for it, and reports whether each hit an instruction |
| `ImportPass.ImportIL` | src/Datadog.Trace.ClrProfiler.Native/il_rewriter.cpp:179-303 | import succeeds exactly when the bytes decode; the linked list then is the decoded list, targets that hit no instruction null, and the stack bound grew by what its opcodes push |
| `ExportPass.LayNode` | src/Datadog.Trace.ClrProfiler.Native/il_rewriter.cpp:396-446 | one instruction is laid out at its offset: opcode bytes and immediate operand, and nothing else of the buffer changes |
| `ExportPass.LayOut` | src/Datadog.Trace.ClrProfiler.Native/il_rewriter.cpp:389-447 | every node holds its offset, the sentinel the code size, and the buffer every opcode and immediate at its offset |
| `ExportPass.ResolveNode` | src/Datadog.Trace.ClrProfiler.Native/il_rewriter.cpp:454-504 | one branch or entry gets its displacement, or is widened exactly when the displacement does not fit; the switch base is carried along |
| `ExportPass.ResolveBranches` | src/Datadog.Trace.ClrProfiler.Native/il_rewriter.cpp:449-508 | the list ends up holding the next widening step, the retry flag says exactly whether a branch was out of range |
| `ExportPass.Export` | src/Datadog.Trace.ClrProfiler.Native/il_rewriter.cpp:381-508 | the list ends up holding the settled layout, the buffer of ten bytes per node starts with its encoding, every store lies inside it, and the number of passes is the specified one |
| `Replacement.LoadInt32Loads` | src/Datadog.Trace.ClrProfiler.Native/il_rewriter_wrapper.cpp:28-47 | whichever of the three encodings is chosen, the instruction loads the given value |
| `Replacement.ChosenIffEvenRun` | src/Datadog.Trace.ClrProfiler.Native/cor_profiler.cpp:616-841 | in a run of adjacent matching calls a pass rewrites the first and from there every second one |
| `Replacement.PosGrows` | src/Datadog.Trace.ClrProfiler.Native/cor_profiler.cpp:616-970 | original instructions keep their order and never land inside one another’s blocks |
| `Replacement.BlockIsUnique` | src/Datadog.Trace.ClrProfiler.Native/cor_profiler.cpp:616-970 | every position of the rewritten list belongs to one original instruction only |
| `Replacement.RewriteClosed` | src/Datadog.Trace.ClrProfiler.Native/cor_profiler.cpp:830-841 | rewriting leaves every target in the list |
| `Replacement.BranchesFollowNodes` | src/Datadog.Trace.ClrProfiler.Native/cor_profiler.cpp:830-841 | a branch to an original instruction afterwards lands on that instruction’s node, the nop if it was replaced |
| `Sweeps.MatchesLeft` | src/Datadog.Trace.ClrProfiler.Native/cor_profiler.cpp:616-841 | a round leaves something to match exactly where it stepped over a matching call or a wrapper matches in turn |
| `Sweeps.SweepIsGreedyIff` | src/Datadog.Trace.ClrProfiler.Native/cor_profiler.cpp:616-841 | for any decisions with which the loop ends, it rewrites exactly the left-to-right greedy choice if and only if it does not rewrite the last instruction or the first round leaves nothing that matches |
| `Sweeps.LastSiteWraps` | src/Datadog.Trace.ClrProfiler.Native/cor_profiler.cpp:839-841 | three adjacent target calls at the end of a list: the loop comes round to the front and rewrites the middle one too |
| `Sweeps.LoopEndsIff` | src/Datadog.Trace.ClrProfiler.Native/cor_profiler.cpp:616-841 | for any decisions at all: the loop ends if and only if it does not rewrite the last instruction, or the chain from its target to its wrapper, the wrapper’s wrapper and so on reaches a token with no plan or with an unboxing |
| `ReplacementPass.RepresentsRewrite` | src/Datadog.Trace.ClrProfiler.Native/cor_profiler.cpp:830-841 | with pointers read as positions, the list a sweep leaves is the rewritten code |
| `ReplacementPass.ReplaceCalls` | src/Datadog.Trace.ClrProfiler.Native/cor_profiler.cpp:616-970 | whenever the loop ends, the pointer loop turns a list holding any code into one holding the swept code, raises the stack bound by one per inserted instruction, leaves every original node at the position the specification gives it, and reports a change exactly when some call matched |
| `RewrittenForm.RewriteWellFormed` | src/Datadog.Trace.ClrProfiler.Native/cor_profiler.cpp:823-970 | a rewritten list is well formed again, switch tables included |
| `RewrittenForm.SweptWellFormed` | src/Datadog.Trace.ClrProfiler.Native/cor_profiler.cpp:616-970 | so is the result of the whole loop |
| `Acceptance.AcceptedTakesThreeMore` | src/Datadog.Trace.ClrProfiler.Native/cor_profiler.cpp:636-686 | a wrapper passes the checks exactly when its signature has six bytes or more and it takes the target’s arguments, the instance, and three more; unsigned wrap-around admits nothing else |
| `Acceptance.StackArgumentsOfEncoding` | src/Datadog.Trace.ClrProfiler.Native/integration.h:137-193 | on the encoding of a method signature the count of stack arguments is its parameters, and one more if the bit 0x20 is set |
| `Acceptance.MatchesIffReplaceable` | src/Datadog.Trace.ClrProfiler.Native/cor_profiler.cpp:616-686 | exactly the calls (0x28) and virtual calls (0x6F) are matched whose target has a signature, whose wrapper has six signature bytes and takes three arguments more, and which pass the other checks; the decision made is that of those checks |
| `Acceptance.WrapperNotItsOwnTarget` | src/Datadog.Trace.ClrProfiler.Native/cor_profiler.cpp:660-686 | no wrapper passes the checks as its own target |
| `Acceptance.RuleEnds` | src/Datadog.Trace.ClrProfiler.Native/cor_profiler.cpp:616-686 | so the loop of a replacement whose references carry the wrapper’s signature ends on every list |
| `Acceptance.PlannedTakesThreeMore` | src/Datadog.Trace.ClrProfiler.Native/cor_profiler.cpp:660-686 | the call inserted for an accepted target consumes exactly three more stack slots |
| `CachedRules.CachedRuleOk` | src/Datadog.Trace.ClrProfiler.Native/cor_profiler.cpp:688-720 | after any run of lookups on any module, a replacement that calls a cached reference calls one with the wrapper’s signature, if cache keys distinguish the wrappers |
| `CachedRules.CachedRulesEnd` | src/Datadog.Trace.ClrProfiler.Native/cor_profiler.cpp:602-984 | so the loops of all such replacements end on every list |
| `CachedRules.SeparableRulesEnd` | src/Datadog.Trace.ClrProfiler.Native/integration.h:223-231 | which, for assembly, method and version names without the characters of the key, takes no more than that no wrapper is overloaded |
| `SiteConditions.AcceptedFaithful` | src/Datadog.Trace.ClrProfiler.Native/cor_profiler.cpp:636-686 | on a machine whose arities are those of the signatures, acceptance gives what the simulation needs of arities; only the wrapper’s behaviour is assumed |
| `SiteConditions.CleanStep` | src/Datadog.Trace.ClrProfiler.Native/cor_profiler.cpp:823-970 | a pass leaves no matching call with a prefix or at the end of a handler, not even among those it inserts |
| `SiteConditions.CleanPasses` | src/Datadog.Trace.ClrProfiler.Native/cor_profiler.cpp:602-971 | so a condition on the imported body is enough for all passes over it |
| `ClausePass.ImportEH` | src/Datadog.Trace.ClrProfiler.Native/il_rewriter.cpp:305-339 | the clause loop succeeds exactly when every offset hits an instruction, and finds the nodes they name, the last handler node through its successor |
| `ClausePass.ExportClauses` | src/Datadog.Trace.ClrProfiler.Native/il_rewriter.cpp:566-584 | the clause loop writes, from the offsets stored in the nodes, exactly the clause of the laid-out code |
| `ClausePass.ClausesFollow` | src/Datadog.Trace.ClrProfiler.Native/cor_profiler.cpp:838-970 | the loop of a replacement touches no clause, yet afterwards each stands at the moved positions, because its nodes do |
| `Regions.ClauseRoundTrip` | src/Datadog.Trace.ClrProfiler.Native/il_rewriter.cpp:305-339 | an exported clause is imported as the same clause |
| `Regions.ExportedRangesExact` | src/Datadog.Trace.ClrProfiler.Native/il_rewriter.cpp:566-584 | the exported try, handler and filter byte ranges contain exactly the instructions the clause covers |
| `Regions.BlockKeepsCover` | src/Datadog.Trace.ClrProfiler.Native/cor_profiler.cpp:838-970 | every instruction of a block lies in the try and filter ranges of its call, and in the same handler ranges if and only if the call does not end the handler |
| `Simulation.UnchosenStep` | src/Datadog.Trace.ClrProfiler.Native/cor_profiler.cpp:616-634 | away from rewritten calls one step of the rewritten body is one step of the original |
| `Simulation.OrdinalKept` | src/Datadog.Trace.ClrProfiler.Native/cor_profiler.cpp:823-970 | rewriting keeps the number of every branch among the branches of the body, by which a leave is remembered while finally clauses run |
| `Simulation.BranchTargetKept` | src/Datadog.Trace.ClrProfiler.Native/cor_profiler.cpp:830-841 | and the branch with that number then leads to the image of its target, where the last endfinally resumes |
| `Simulation.ChosenRun` | src/Datadog.Trace.ClrProfiler.Native/cor_profiler.cpp:823-970 | the block of a rewritten call takes the machine exactly where the call takes it, exceptions and stack underflow included |
| `Preservation.ForwardSimulation` | src/Datadog.Trace.ClrProfiler.Native/cor_profiler.cpp:823-970 | every run of the original is matched by a run of the rewritten body |
| `Preservation.BackwardSimulation` | src/Datadog.Trace.ClrProfiler.Native/cor_profiler.cpp:823-970 | every state of a run of the rewritten body is the image of a state of the original run or lies inside the block of the call it stands at |
| `Preservation.ReplacementPreservesMeaning` | src/Datadog.Trace.ClrProfiler.Native/cor_profiler.cpp:823-970 | a state is reachable in the original if and only if its image is reachable in the rewritten body |
| `Preservation.AllReplacementsPreserveMeaning` | src/Datadog.Trace.ClrProfiler.Native/cor_profiler.cpp:602-971 | the same over any sequence of passes |
| `Preservation.StackDepthBound` | src/Datadog.Trace.ClrProfiler.Native/il_rewriter.cpp:375-377 | over any sequence of replacement passes the stack grows deeper by no more than the number of instructions inserted |
| `RegionChain.OutputReadsBack` | src/Datadog.Trace.ClrProfiler.Native/cor_profiler.cpp:596-991 | whatever is written for a body that could be imported can be imported again: the instrumented code up to widened branches, and the same clauses at the same instructions |
| `RegionChain.ClauseExportAfterImport` | src/Datadog.Trace.ClrProfiler.Native/il_rewriter.cpp:305-339 | exporting an imported clause gives the clause that was imported |
| `RegionChain.RegionsSurvive` | src/Datadog.Trace.ClrProfiler.Native/il_rewriter.cpp:557-585 | through import, all passes and widening: the offset of an original instruction lies in a stored try or handler range if and only if the offset of its image lies in the written one; so for the filter range if the lowest flag bit is set, and the class token is kept if it is not |
| `RegionChain.InsertedRegionsSurvive` | src/Datadog.Trace.ClrProfiler.Native/cor_profiler.cpp:838-970 | the same for every written instruction, inserted ones included, against the call it comes from, if no matching call of the stored body ends a handler |
| `RegionChain.MovedBoundaries` | src/Datadog.Trace.ClrProfiler.Native/cor_profiler.cpp:838-970 | one pass leaves every clause boundary at the start of an instruction |
| `Pipeline.SweepIsPasses` | src/Datadog.Trace.ClrProfiler.Native/cor_profiler.cpp:616-971 | the loop of one replacement amounts to a sequence of greedy passes, on the code and on the exception clauses |
| `Pipeline.SweptAllIsPasses` | src/Datadog.Trace.ClrProfiler.Native/cor_profiler.cpp:602-971 | the code after the loops of all replacements is that of a sequence of greedy passes |
| `Stages.PipelinePreservesMeaning` | src/Datadog.Trace.ClrProfiler.Native/cor_profiler.cpp:596-991 | the body that is written, as it is read back with its widened branches, reaches exactly the images of the states the imported body reaches |
| `Stages.InsertDepth` | src/Datadog.Trace.ClrProfiler.Native/cor_profiler.cpp:1134-1158 | a call without arguments or result in front of a body does not deepen its stack |
| `Stages.HeaderCoversStack` | src/Datadog.Trace.ClrProfiler.Native/il_rewriter.cpp:548-548 | through startup hook, insertions and replacements, each importing what the one before stored and adding all push counts again: if the original header covered every run from entry and every sum fits the 16-bit field, the last header does |
| `Pipeline.RulesEnd` | src/Datadog.Trace.ClrProfiler.Native/cor_profiler.cpp:602-984 | the loops of all accepted replacements end on every list |
| `Pipeline.LeftAloneIff` | src/Datadog.Trace.ClrProfiler.Native/cor_profiler.cpp:602-841 | the loops of all replacements leave a body as it is exactly when none of its instructions is replaceable by any of them |
| `Pipeline.ProcessReplacementCalls` | src/Datadog.Trace.ClrProfiler.Native/cor_profiler.cpp:588-992 | from a stored body to a stored body, for every input: a fault exactly when a target or clause boundary hits no instruction, unchanged exactly when the bytes do not decode or no call or virtual call of the body has a target that a wrapper fits, otherwise the settled encoding of the instrumented code, the stack bound raised by all its push counts and the inserted instructions, and the exported clauses |
| `Stages.ProcessInsertionCalls` | src/Datadog.Trace.ClrProfiler.Native/cor_profiler.cpp:994-1062 | the same for insertions: the code with one call per token in front, and the clauses moved with their nodes |
| `Insertion.InsertedOutsideRegions` | src/Datadog.Trace.ClrProfiler.Native/cor_profiler.cpp:1040-1046 | a call inserted at the front lies outside every exception region, all others keep theirs |
| `Insertion.InsertedInReverse` | src/Datadog.Trace.ClrProfiler.Native/cor_profiler.cpp:1040-1046 | the finished list in full: one call per token, that of the last token in front, then the original instructions with their targets |
| `Insertion.InsertedCovers` | src/Datadog.Trace.ClrProfiler.Native/cor_profiler.cpp:1040-1046 | all inserted calls lie in no region, all other instructions in their own; clauses keep flags and class tokens |
| `Stages.InsertionRegionsSurvive` | src/Datadog.Trace.ClrProfiler.Native/cor_profiler.cpp:1008-1062 | through an insertion stage every original instruction keeps its try, handler and filter ranges in the written bytes, every clause its flags and class token |
| `Stages.InsertedWrittenOutside` | src/Datadog.Trace.ClrProfiler.Native/cor_profiler.cpp:1008-1062 | and no inserted call is written inside any of those ranges |
| `Insertion.InsertedRunsOnce` | src/Datadog.Trace.ClrProfiler.Native/cor_profiler.cpp:1134-1158 | the inserted call runs once on entry and the rest is the original’s run, even one that branches to its own start; if the call throws, no handler of the method applies |
| `Insertion.InsertCalls` | src/Datadog.Trace.ClrProfiler.Native/cor_profiler.cpp:1008-1054 | the list ends up holding the code with one call per token in front, the last token’s first, and the clauses stand at the moved positions |
| `SignatureCursor.Cursor.ParseNumber` | src/Datadog.Trace.ClrProfiler.Native/sig_helpers.cpp:5-25 | the cursor moves past a compressed number or token exactly when one stands there |
| `SignatureCursor.Cursor.ParseOptionalCustomMods` | src/Datadog.Trace.ClrProfiler.Native/sig_helpers.cpp:36-51 | the loop moves the cursor past all modifiers |
| `SignatureCursor.Cursor.ParseArrayShape` | src/Datadog.Trace.ClrProfiler.Native/sig_helpers.cpp:129-156 | rank, sizes and lower bounds, with both counting loops |
| `SignatureCursor.Cursor.ParseSlot` | src/Datadog.Trace.ClrProfiler.Native/sig_helpers.cpp:53-86 | the shared part of return types and parameters |
| `SignatureCursor.Cursor.ParseMethodSignature` | src/Datadog.Trace.ClrProfiler.Native/sig_helpers.cpp:88-127 | method signatures as the code accepts them |
| `SignatureCursor.Cursor.ParseGenericInstance` | src/Datadog.Trace.ClrProfiler.Native/sig_helpers.cpp:235-254 | generic instantiations |
| `SignatureCursor.Cursor.ParseType` | src/Datadog.Trace.ClrProfiler.Native/sig_helpers.cpp:158-265 | succeeds exactly on a type and leaves the cursor just behind it |
| `SignatureTheorems.NumRoundTrip` | src/Datadog.Trace.ClrProfiler.Native/sig_helpers.cpp:5-13 | a number is read exactly where its encoding stands |
| `SignatureTheorems.TypeSound` | src/Datadog.Trace.ClrProfiler.Native/sig_helpers.cpp:158-265 | every successful parse consumed the encoding of the tree it found |
| `SignatureTheorems.TypeComplete` | src/Datadog.Trace.ClrProfiler.Native/sig_helpers.cpp:158-265 | wherever a tree’s encoding stands, with any bytes after it, the parse succeeds and stops at the first byte behind it |
| `SignatureTheorems.ParseIsExact` | src/Datadog.Trace.ClrProfiler.Native/sig_helpers.cpp:158-265 | a parse ends at a position if and only if a tree’s encoding ends there, and at any place at most one tree’s encoding stands |
| `SignatureTheorems.EncodingsArePrefixFree` | src/Datadog.Trace.ClrProfiler.Native/sig_helpers.cpp:158-265 | no encoding is a proper prefix of another, and different trees have different encodings |
| `SignatureDepartures.GenericPointerSkipped` | src/Datadog.Trace.ClrProfiler.Native/sig_helpers.cpp:88-127 | a standard function pointer with convention GENERIC is skipped exactly |
| `SignatureDepartures.StandardPointerMisread` | src/Datadog.Trace.ClrProfiler.Native/sig_helpers.cpp:88-127 | with any other convention c and a count n up to 14: rejected if n is 0; otherwise the cursor ends where the pointer ends if and only if c = n + 1, stops inside it if c is smaller, and fails or runs past it if c is larger |
| `SignatureDepartures.DefaultPointerStopsInside` | src/Datadog.Trace.ClrProfiler.Native/sig_helpers.cpp:88-127 | a pointer to a function from int to void: accepted with the cursor just behind the count |
| `SignatureDepartures.NativeIntegersRejected` | src/Datadog.Trace.ClrProfiler.Native/sig_helpers.cpp:178-194 | a type with a native integer at any depth, also in function pointers as the code reads them, is rejected, whatever follows |
| `SignatureLoop.ReadVectors` | src/Datadog.Trace.ClrProfiler.Native/clr_helpers.cpp:546-555 | the inner loop over array bytes |
| `SignatureLoop.CloseLevels` | src/Datadog.Trace.ClrProfiler.Native/clr_helpers.cpp:630-649 | closes every generic level that has no arguments left |
| `SignatureLoop.TryParseSignatureTypes` | src/Datadog.Trace.ClrProfiler.Native/clr_helpers.cpp:406-675 | the explicit-stack loop computes the specified entries and fails exactly where specified |
| `SignaturePrinter.PrintsType` | src/Datadog.Trace.ClrProfiler.Native/clr_helpers.cpp:430-665 | wherever a type stands, at any nesting, the loop appends its printed form and closes what is complete |
| `SignatureRendering.PrinterRefinesRecursion` | src/Datadog.Trace.ClrProfiler.Native/clr_helpers.cpp:406-675 | on every method signature of the grammar the loop succeeds and entry i is the recursively printed type i |
| `SignatureRendering.PrintIsRenderIffTame` | src/Datadog.Trace.ClrProfiler.Native/clr_helpers.cpp:546-628 | the printed form is the intended one if and only if no array stands directly over a generic instantiation |
| `SignatureRendering.EntriesRightIffTame` | src/Datadog.Trace.ClrProfiler.Native/clr_helpers.cpp:406-675 | the same for all entries of a signature |
| `SignaturePrinter.LeafIsPrimitive` | src/Datadog.Trace.ClrProfiler.Native/clr_helpers.cpp:434-508 | the name printed for every primitive type |
| `SignatureNavigation.SkipTypes` | src/Datadog.Trace.ClrProfiler.Native/cor_profiler.cpp:877-889 | the skipping loop stands behind the first n types, or fails where one of them does not parse |
| `SignatureNavigation.SkipperStandsOn` | src/Datadog.Trace.ClrProfiler.Native/cor_profiler.cpp:877-889 | after k skips the cursor stands exactly on type k |
| `SignatureNavigation.BoxStepReadsLastType` | src/Datadog.Trace.ClrProfiler.Native/cor_profiler.cpp:877-927 | the box decision is made on the last type of the signature: the last argument if there is one |
| `SignatureNavigation.BoxStepRightIff` | src/Datadog.Trace.ClrProfiler.Native/cor_profiler.cpp:877-927 | the step boxes what it is meant to if and only if there is an argument or the return type is not one it boxes |
| `SignatureNavigation.NoArgumentsStillBoxes` | src/Datadog.Trace.ClrProfiler.Native/cor_profiler.cpp:877-902 | a static and an instance method without arguments: a box is emitted for what lies on top |
| `SignatureNavigation.ArgumentAtReads` | src/Datadog.Trace.ClrProfiler.Native/clr_helpers.cpp:935-966 | the decision about a generic argument is the intended one if and only if it is not a type variable whose number takes more than one byte |
| `SignatureNavigation.PicksIndexedArgument` | src/Datadog.Trace.ClrProfiler.Native/clr_helpers.cpp:917-968 | the walk over a specification decides on exactly the argument with the wanted index |
| `SignatureNavigation.UnboxesPlainReturn` | src/Datadog.Trace.ClrProfiler.Native/clr_helpers.cpp:790-826 | for a return type that is no type variable the unbox decision is about that type |
| `SignatureNavigation.FirstByteSettles` | src/Datadog.Trace.ClrProfiler.Native/clr_helpers.cpp:692-760 | which first bytes of a return type settle the unbox decision: the value types of corlib, native integers and TypedReference included, are named as such |
| `SignatureNavigation.UnboxesMethodSpecArgument` | src/Datadog.Trace.ClrProfiler.Native/clr_helpers.cpp:885-968 | through a method specification every type variable is looked up among the method’s arguments |
| `SignatureNavigation.MethodSpecRightIff` | src/Datadog.Trace.ClrProfiler.Native/clr_helpers.cpp:827-968 | that is the intended decision if and only if the variable is the method’s and its argument can be copied, or it is the type’s and the two arguments with its number are both absent or references, or the same value type |
| `SignatureNavigation.TypeVariableThroughMethodSpec` | src/Datadog.Trace.ClrProfiler.Native/clr_helpers.cpp:827-968 | a method of a generic type that returns the type’s variable: the int result is not unboxed, because the method’s string argument is found instead |
| `SignatureNavigation.UnboxesParentSpecArgument` | src/Datadog.Trace.ClrProfiler.Native/clr_helpers.cpp:849-968 | through the parent’s type specification every type variable is looked up among the type’s arguments |
| `SignatureNavigation.ParentSpecRightIff` | src/Datadog.Trace.ClrProfiler.Native/clr_helpers.cpp:849-968 | for a method without type parameters that is the intended decision if and only if the argument can be copied |
| `Utf.DecodeIffEncoded` | src/Datadog.Trace.ClrProfiler.Native/miniutf.cpp:34-55 | a code point is decoded at a position exactly when its encoding stands there |
| `Utf.DecodedStands` | src/Datadog.Trace.ClrProfiler.Native/miniutf.cpp:84-128 | what was decoded is what stood there, with its length |
| `Utf.Encode8Form` | src/Datadog.Trace.ClrProfiler.Native/miniutf.cpp:34-55 | the bytes written for a code point are the one row of the table of section 3 of RFC 3629 that fits it; anything larger becomes EF BF BD |
| `Utf.Encode16Form` | src/Datadog.Trace.ClrProfiler.Native/miniutf.cpp:57-66 | the units written are the form of section 2.1 of RFC 2781 |
| `Utf.DecodesForm` | src/Datadog.Trace.ClrProfiler.Native/miniutf.cpp:84-128 | a code point is decoded exactly where that row of bytes stands |
| `UtfTheorems.InvalidBytesReplaced` | src/Datadog.Trace.ClrProfiler.Native/miniutf.cpp:171-182 | for every byte string: the decoded code points spell it again, with each byte at which no code point stands replaced by EF BF BD, in order |
| `UtfTheorems.Utf8ValidIffRoundTrip` | src/Datadog.Trace.ClrProfiler.Native/miniutf.cpp:171-254 | a byte string is valid if and only if converting it to UTF-32 and back gives it unchanged |
| `UtfTheorems.Utf8Survives` | src/Datadog.Trace.ClrProfiler.Native/miniutf.cpp:225-254 | every sequence of code points survives UTF-8 and encodes to a valid string |
| `UtfTheorems.Utf16ThroughUtf8` | src/Datadog.Trace.ClrProfiler.Native/miniutf.cpp:131-247 | UTF-16 to UTF-8 and back replaces exactly the unpaired surrogates by U+FFFD, unit for unit, and is the identity exactly on valid strings; the UTF-8 is always valid |
| `UtfTheorems.Utf8Check` | src/Datadog.Trace.ClrProfiler.Native/miniutf.cpp:201-213 | the checking loop decides validity |
| `UtfTheorems.Utf16Check` | src/Datadog.Trace.ClrProfiler.Native/miniutf.cpp:201-216 | the checking loop decides validity |
| `UtfTheorems.ToUtf32` | src/Datadog.Trace.ClrProfiler.Native/miniutf.cpp:225-231 | the converting loop yields code points that spell the string, each byte at which none stands replaced by EF BF BD |
| `UtfTheorems.ToUtf16` | src/Datadog.Trace.ClrProfiler.Native/miniutf.cpp:233-239 | the converting loop yields the UTF-16 form of such code points |
| `UtfTheorems.ToUtf8` | src/Datadog.Trace.ClrProfiler.Native/miniutf.cpp:241-247 | the converting loop yields the UTF-8 form of code points that spell the units, each unpaired surrogate replaced by U+FFFD |
| `CanonicalOrder.ReorderIsCanonical` | src/Datadog.Trace.ClrProfiler.Native/miniutf.cpp:338-358 | class-0 characters stay in place, classes do not decrease inside a run, and equal classes keep their order |
| `CanonicalOrder.CanonicalIsUnique` | src/Datadog.Trace.ClrProfiler.Native/miniutf.cpp:338-358 | nothing else satisfies that, so the loop’s result is determined by it |
| `CanonicalOrder.ReorderPermutes` | src/Datadog.Trace.ClrProfiler.Native/miniutf.cpp:338-358 | the result is a permutation |
| `CanonicalOrder.ReorderIsIdempotent` | src/Datadog.Trace.ClrProfiler.Native/miniutf.cpp:338-358 | a second reordering changes nothing |
| `CanonicalOrder.SortRun` | src/Datadog.Trace.ClrProfiler.Native/miniutf.cpp:352-355 | one run ends up sorted by class with every class in its old order, and the rest is untouched |
| `CanonicalOrder.CanonicalOrdering` | src/Datadog.Trace.ClrProfiler.Native/miniutf.cpp:338-358 | the loop computes the reordering |
| `CorProfilerObject.CorProfiler.AssemblyLoadFinished` | src/Datadog.Trace.ClrProfiler.Native/cor_profiler.cpp:201-278 | the fields change as the state machine’s step for an assembly load says |
| `CorProfilerObject.CorProfiler.ModuleLoadFinished` | src/Datadog.Trace.ClrProfiler.Native/cor_profiler.cpp:280-447 | likewise for a module load |
| `CorProfilerObject.CorProfiler.ModuleUnloadStarted` | src/Datadog.Trace.ClrProfiler.Native/cor_profiler.cpp:449-481 | likewise for a module unload |
| `CorProfilerObject.CorProfiler.JITCompilationStarted` | src/Datadog.Trace.ClrProfiler.Native/cor_profiler.cpp:494-581 | likewise for a compilation, whose effects are the hook, then insertions, then redirections |
| `CallbackTheorems.AttachedExactly` | src/Datadog.Trace.ClrProfiler.Native/cor_profiler.cpp:483-492 | over every run: the settings stay, and the profiler is attached exactly until a shutdown |
| `CallbackTheorems.CorlibExactly` | src/Datadog.Trace.ClrProfiler.Native/cor_profiler.cpp:310-318 | the corlib flag and domain are those of the first load, while attached, of a module named mscorlib or System.Private.CoreLib |
| `CallbackTheorems.TrackedExactly` | src/Datadog.Trace.ClrProfiler.Native/cor_profiler.cpp:325-440 | the module map holds exactly the modules whose last load passed every filter and that have not been unloaded since, under the name and domain of that load |
| `CallbackTheorems.ProfiledExactly` | src/Datadog.Trace.ClrProfiler.Native/cor_profiler.cpp:255-275 | a domain is in the set exactly when a version-matched managed profiler loaded there with no tracked module of it unloaded since |
| `CallbackTheorems.NeutralExactly` | src/Datadog.Trace.ClrProfiler.Native/cor_profiler.cpp:255-275 | the domain-neutral flag is set exactly when, on desktop, such a load went into the domain of the core library after that had loaded |
| `CallbackTheorems.JittedExactly` | src/Datadog.Trace.ClrProfiler.Native/cor_profiler.cpp:536-546 | a domain is marked exactly when a method of a module tracked in it has been compiled |
| `CallbackTheorems.GateExactly` | src/Datadog.Trace.ClrProfiler.Native/cor_profiler.cpp:789-821 | the gate between a match and its replacement, for wrappers inside and outside the managed profiler, in terms of what has loaded and unloaded |
| `CallbackTheorems.OthersDoNothing` | src/Datadog.Trace.ClrProfiler.Native/cor_profiler.cpp:494-530 | a callback that compiles no method of a tracked module changes no body |
| `CallbackTheorems.EffectsInOrder` | src/Datadog.Trace.ClrProfiler.Native/cor_profiler.cpp:536-578 | all that a compilation does, in order: the hook if it is the first in its domain, then every insertion, then exactly the redirections that the gate admits, in the order of the calls |
| `CallbackTheorems.LoadGate` | src/Datadog.Trace.ClrProfiler.Native/cor_profiler.cpp:789-821 | over all runs, in both directions and in terms of events alone: when a call is redirected to a managed-profiler wrapper |
| `CallbackTheorems.OnlyTrackedRewritten` | src/Datadog.Trace.ClrProfiler.Native/cor_profiler.cpp:511-578 | only methods of modules tracked at that moment are ever rewritten, none of a known assembly |
| `CallbackTheorems.HookAtMostOnce` | src/Datadog.Trace.ClrProfiler.Native/cor_profiler.cpp:536-546 | in each domain the startup hook is attempted at most once over a whole run |
| `CallbackTheorems.HookComesFirst` | src/Datadog.Trace.ClrProfiler.Native/cor_profiler.cpp:536-578 | every insertion or redirection in a domain comes after that domain’s hook |
| `WrapperCacheTheorems.LookupAgrees` | src/Datadog.Trace.ClrProfiler.Native/cor_profiler.cpp:1064-1123 | one lookup in a coherent cache returns the uncached find-or-define result, changes no entry and records a failure |
| `WrapperCacheTheorems.AgreementIffKeysDistinguish` | src/Datadog.Trace.ClrProfiler.Native/metadata_builder.cpp:49-148 | every reference returned in every run on any module, whatever references it already holds, is the uncached one if and only if the keys tell the wrappers’ types and methods apart |
| `WrapperCacheTheorems.TypeKeyExactly` | src/Datadog.Trace.ClrProfiler.Native/integration.h:223-226 | for names without the characters of the key, two wrappers share a type key exactly if assembly, type and versions agree |
| `WrapperCacheTheorems.MethodKeyExactly` | src/Datadog.Trace.ClrProfiler.Native/integration.h:228-231 | and a method key exactly if the method names agree as well |
| `WrapperCacheTheorems.SeparableDistinguish` | src/Datadog.Trace.ClrProfiler.Native/integration.h:223-231 | keys tell such wrappers apart exactly when none of them is overloaded |
| `WrapperCacheTheorems.SeparableAgreement` | src/Datadog.Trace.ClrProfiler.Native/metadata_builder.cpp:49-148 | so over such wrappers the cache always agrees with the uncached lookup exactly when none of them is overloaded |
| `WrapperCacheTheorems.LookupSucceeds` | src/Datadog.Trace.ClrProfiler.Native/cor_profiler.cpp:1064-1123 | a lookup for which no call into the metadata fails returns a reference |
| `WrapperCacheTheorems.ReferenceIsRight` | src/Datadog.Trace.ClrProfiler.Native/metadata_builder.cpp:49-148 | a returned reference stands for the row of the wrapper’s own method: its name and signature, in its type, in its assembly |
| `WrapperCacheTheorems.FailedExactly` | src/Datadog.Trace.ClrProfiler.Native/metadata_builder.cpp:104-148 | a key is recorded as failed exactly if some lookup under it has failed |
| `WrapperCacheTheorems.CollisionDisagrees` | src/Datadog.Trace.ClrProfiler.Native/integration.h:223-231 | two wrappers that share a key but not what they name make the cache return a wrong reference |
| `WrapperCacheTheorems.OverloadsShareKey` | src/Datadog.Trace.ClrProfiler.Native/integration.h:228-231 | two overloads of a wrapper do share a key, since it omits the signature |
| `WrapperCacheTheorems.FailedKeyNeverRetried` | src/Datadog.Trace.ClrProfiler.Native/cor_profiler.cpp:608-613 | over any sequence of replacements cached entries never change and a failed key is never looked up again |
| `WrapperCacheTheorems.ModuleMetadata.FindWrapperTypeRef` | src/Datadog.Trace.ClrProfiler.Native/metadata_builder.cpp:49-102 | the find-or-define step on the maps computes the specified reference and new maps |
| `WrapperCacheTheorems.ModuleMetadata.StoreWrapperMethodRef` | src/Datadog.Trace.ClrProfiler.Native/metadata_builder.cpp:104-148 | likewise for the member reference |
| `WrapperCacheTheorems.ModuleMetadata.GetWrapperMethodRef` | src/Datadog.Trace.ClrProfiler.Native/cor_profiler.cpp:1064-1123 | likewise for the whole lookup |

## Left out

- Codec.ExportImportRoundTrip: integers are unbounded, so it asks for less than 2^31 bytes of code, where the 32-bit offsets of the source do not wrap.
- Codec.ImportAfterExport: an operand on an opcode that encodes none is lost in the bytes and reads back as 0.
- ImportPass.ImportIL: the flag that skips the second loop when there are no branches is not modelled; the loop then changes nothing.
- ExportPass.Export: the tiny and fat header bytes, alignment, allocation and the section header of the clause table are not modelled.
- ReplacementPass.ReplaceCalls: the decision about a call depends on its token alone, so a lookup that fails for one call and succeeds for a later one of the same token is not modelled.
- Acceptance.RuleEnds: asks that a reference carries its wrapper’s signature; CachedRules derives that from the cache keys, which can fail to distinguish overloads.
- Pipeline.ProcessReplacementCalls: what an unchecked build does after a target or clause boundary hits no instruction, where the source asserts, is not modelled beyond the fault.
- Stages.PipelinePreservesMeaning: integers are unbounded, so it asks for less than 2^31 bytes of code; how wrappers behave is assumed.
- Stages.HeaderCoversStack: asks that inserted calls take and return nothing and that an exception outside every region leaves the method.
- SignatureDepartures.StandardPointerMisread: counts above 14, where the count byte reads as something other than a primitive type, are left out.
- SignatureLoop.TryParseSignatureTypes: a token that does not decode counts as failure; the source goes on with the index moved back.
- SignatureTheorems.TypeComplete: covers the grammar the code accepts; SignatureDepartures relates it to the standard’s.
- SignatureCursor.Cursor.ParseType: a read past the end of a signature counts as failure; the source does not guard it.
- SignatureRendering.PrinterRefinesRecursion: covers type-variable numbers and argument counts of one byte and names whose arity is their argument count, which the loop takes for granted; nested-class name joining is a parameter.
- SignatureNavigation.UnboxesMethodSpecArgument: reads of metadata blobs are parameters.
- CallbackTheorems.LoadGate: each callback is one step; nothing is said about callbacks that race with Shutdown.
- WrapperCacheTheorems.AgreementIffKeysDistinguish: defining a type or member that exists is taken to return the existing row.
- Which clauses a leave or an exception runs, and in which order, is a parameter of the stack machine; it sees clauses by index and branches by number, and can resume at the target of any branch.
- The fixed code and metadata of GenerateVoidILStartupMethod: straight-line emission without a general property.
- Lowercasing, table decomposition and composition of miniutf: driven by large tables; the combining class is a parameter.
- Integration filters, version comparison, JSON loading, environment variables, logging, COM plumbing: easy members or input and output.
- The managed C# code.
