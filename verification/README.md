# Verified models of fisiCs

fisiCs is a C compiler. This project models the parts of it whose correctness rests on invariants that
no single function shows, and proves those invariants in Dafny. `dafny verify dfyconfig.toml` checks
everything.

| part of fisiCs | modules |
|---|---|
| lowering of `if`, loops, `switch`, labels and `goto` to basic blocks | `Ast`, `Cfg`, `Lowering` (what lowering does to the code generator's state), `Codegen` (the code generator as an object), `WellFormed`, `LoweringKeeps`, `CfgShape` (shape of the graph), `SourceSemantics`, `Translation`, `Simulation`, `LoweringCorrect` (meaning) |
| bit-fields, union storage and byte images of constants | `Words`, `Bytes`, `BitFields`, `Constants`, `ConstImage`, `ConstImageCorrect`, `ConstImageTotal`, `ConstImageWhen` |
| nested scopes of names | `Scopes` |
| constant array initializers | `ArrayInit`, `ArrayInitCorrect` |
| memory-check runtime | `Tracker`, `TrackerInvariant`, `TrackerRuns`, `Memcheck` |
| cross-translation-unit ledger | `CrossTuSymbols`, `CrossTuIndex`, `CrossTuConflicts` |
| aggregate returns, symbol parents, frozen inputs | `Abi`, `Parents`, `Frozen`, `FrozenAgree`, `FrozenExact` |

`Options` and `FloatKinds` hold types that several parts use. Where the C code updates things in place there is a class or a method
with loops (`Codegen.CodegenContext`, `Memcheck.Runtime`, `CrossTuIndex.Ledger`,
`CrossTuConflicts.Collector`, `Scopes.ScopeChain`, `Abi.Counter`, `Frozen.Session`, and the methods of `ConstImage`,
`ArrayInit`, `Parents` and others); its contract says that it computes a specification function, and the
lemmas are about that function.

## How the source is read

- **Control flow.** Expressions, declarations and conditions are named by numbers whose effect on an
  arbitrary state is a parameter (`Meaning`). A block carries a tag that says which label or case it was
  made for; the tag changes nothing, it only lets the proofs name blocks. The list of a block follows
  `codegenBlock` (src/CodeGen/codegen_stmt.c:257-275), which is the same rule as in `codegenCase`. A
  case's `nextCase` link is never set by the parser and is not modelled. Case constants are those already
  converted to the condition's type.
- **A defect the proofs isolate.** A case or label nested in a statement that follows a terminator inside a
  block or a case body is skipped (src/CodeGen/codegen_control_flow.c:20-34, 544-549), although the
  dispatch still branches to its block, which stays empty. `WellFormed.Lost` computes those targets from
  the text alone. `CfgShape.CasesFilledIff` shows that all case blocks are filled if and only if no case is
  lost. The theorems on meaning are for every function body: a run is preserved unless it jumps to a lost
  target, and then, and only then, the graph stops in that target's empty block
  (`LoweringCorrect.StopsInLostIff`). `LoweringCorrect.BuriedCaseStops` runs the family
  `switch (c) { case a: break; { case b: ; } }`.
- **Constants.** Types come with a layout: field offsets, struct sizes, a pointer size of one to eight bytes, and
  scalars whose size is their byte width. A memory byte is a number or the `k`-th byte of a symbol's
  address, so the results hold for members with pointers too. An address cast to an integer inside a
  member has no readable bytes here; the C code asks LLVM for its value, which LLVM does not define.
- **Bit-fields.** A constant is first built for the storage type (src/CodeGen/codegen_const_initializers_aggregate.c:917-922,
  1432-1437), while the run-time path starts from the initializer's own type; both conversions are `Cast`.
- **Array initializers.** Leaves are scalars. Whatever is not a brace list for an array is built by a
  parameter that may fail. Building equals merging into zero, except for lists whose only designators are
  on entries without an expression; the parser builds no such entry (src/Parser/parser_array.c:141-147,
  385-390), so `ArrayInitCorrect.BuildIsMergeIntoZero` has no exception for what it hands over.
- **Memory checker.** The hash is an arbitrary function and the capacity any positive number (262144 in
  the source). The real allocator appears as the results it returns. `realloc` to size zero that releases
  the block and returns null breaks the tracker: `TrackerRuns.SilentDropBreaks` shows it for every state,
  and `TrackerRuns.StepKeeps` that nothing else does.
- **Aggregate returns.** The code recognises homogeneous aggregates of `float` and `double` only. On most
  AArch64 systems `long double` has quadruple precision (src/Syntax/target_layout.c:108-114), and larger
  aggregates of it are returned through memory although section 5.9.5 of AAPCS64 counts them as homogeneous.
- **Symbol parents.** The span measure ignores the start column of spans of several lines, so a candidate
  strictly inside the linked parent is possible; `Parents.ParentIsInnermostIff` says exactly when.
- **Cross-TU check.** The hash is an arbitrary 64-bit function; type compatibility, unit contracts and
  default argument promotion are parameters. Whether an allocation succeeds is an argument.
- **Frozen inputs.** JSON parsing, digests and path normalisation are parameters; a file tree is a map. Nothing
  is assumed of the digests: that two identities do not end up at one path with different bytes is the
  stated condition of the round trip.

## Model

| member | source | states |
|---|---|---|
| `Ast.CollectIffContains` | src/CodeGen/codegen_control_flow.c:262-318 | case collection is non-empty exactly when the read-only search says so |
| `WellFormed.CollectOwned` | src/CodeGen/codegen_control_flow.c:262-292 | the collected nodes are the case targets that a jump from outside the switch body can reach, each once |
| `WellFormed.CollectIffOwns` | src/CodeGen/codegen_control_flow.c:262-292 | a node is collected with a constant, or as a `default` with none, if and only if the text gives the switch that node with that constant; the cases of a nested switch are its own |
| `WellFormed.CollectInOrder` | src/CodeGen/codegen_control_flow.c:262-292 | collection follows the source order |
| `WellFormed.BindingsFind` | src/CodeGen/codegen_control_flow.c:320-333 | each collected case node is bound to the block made for it |
| `LoweringKeeps.LowerKeeps` | src/CodeGen/codegen_control_flow.c:36-629 | lowering any statement leaves the loop stack and the switch frames as they were, adds nothing after a terminator, leaves reserved blocks empty, and opens exactly the labels and cases that are not lost |
| `LoweringKeeps.LowerAllKeeps` | src/CodeGen/codegen_stmt.c:257-275 | the same for a statement list with its skipping rule |
| `LoweringKeeps.LowerTopKeeps` | src/CodeGen/codegen_control_flow.c:502-513 | the same for the body of a switch, where statements holding owned cases are never skipped |
| `CfgShape.FunctionBodyShape` | src/CodeGen/codegen_control_flow.c:9-34 | in a function body's graph every block has at most one terminator, at its end, and has one exactly when it is not the builder's open block, an undefined label's block or a lost case's block |
| `CfgShape.CasesFilledIff` | src/CodeGen/codegen_control_flow.c:539-554 | all case blocks get filled if and only if the skipping rule passes over no case |
| `CfgShape.LostCaseIsEmpty` | src/CodeGen/codegen_control_flow.c:544-549 | a passed-over case has a block, and it is empty |
| `CfgShape.LostBlockIsEmpty` | src/CodeGen/codegen_control_flow.c:544-549 | the block of any passed-over label or case is empty and is not where the builder ends |
| `CfgShape.BuriedCaseIsLost` | src/CodeGen/codegen_control_flow.c:544-549 | a whole family of switches in which a case is lost and its block stays empty |
| `CfgShape.DirectLosesNothing` | src/CodeGen/codegen_stmt.c:257-275 | a statement whose labels and cases stand directly in statement lists, head a branch, a loop body or a labelled statement, or belong to the switch around them, loses none of them |
| `Translation.LowerTranslates` | src/CodeGen/codegen_control_flow.c:36-629 | for every statement, the finished blocks contain its translation up to the lost targets, in which `break` goes to the lexically nearest loop or switch and `continue` to the nearest loop, through any number of switches |
| `Translation.LowerTopTranslates` | src/CodeGen/codegen_control_flow.c:502-513 | the same for a switch body |
| `Simulation.DispatchRuns` | src/CodeGen/codegen_control_flow.c:428-500 | the switch instruction and the compare chain send every value to the same block |
| `Lowering.DenseIff` | src/CodeGen/codegen_control_flow.c:428-441 | for 64-bit constants the dense form is taken if and only if the span from the least to the greatest is a positive 64-bit number and at most twice the number of cases |
| `Simulation.ChosenBlock` | src/CodeGen/codegen_control_flow.c:450-500 | that block is the one of the case that a search of the statement text for the value chooses, else of the default, else the end |
| `Simulation.FindMatches` | src/CodeGen/codegen_control_flow.c:528-592 | jumping to a label or case that is not lost, anywhere inside a statement, lands on the code for what follows it there |
| `Simulation.StepSim` | src/CodeGen/codegen_control_flow.c:36-629 | every source step that does not jump to a lost target is matched by machine steps that end in corresponding code with the same state |
| `Simulation.TerminatingRun` | src/CodeGen/codegen_control_flow.c:36-629 | every run that ends without such a jump is matched by a machine run to the corresponding place with the same state |
| `Simulation.DivergingRun` | src/CodeGen/codegen_control_flow.c:36-629 | every run that never ends, without such a jump, keeps the machine running |
| `Simulation.LostRun` | src/CodeGen/codegen_control_flow.c:528-629 | every run that jumps to a lost target takes the machine to that target's block |
| `Simulation.WrongIsMissingLabel` | src/CodeGen/codegen_control_flow.c:594-629 | the only step that goes wrong is a `goto` to a label the text does not have |
| `Simulation.LoweringPreservesRuns` | src/CodeGen/codegen_control_flow.c:36-629 | anywhere in a function: a run of a statement that ends normally, by break, by continue or by return, without jumping to a lost target, takes the emitted code to the builder's final position, the break block, the continue block or a return |
| `LoweringCorrect.BodyTerminates` | src/CodeGen/codegen_control_flow.c:36-629 | for every body: a run that ends without jumping to a lost target takes the graph from its entry to its open end or to a return, with the same state |
| `LoweringCorrect.BodyDiverges` | src/CodeGen/codegen_control_flow.c:36-629 | for every body: a run that never ends, without such a jump, keeps the graph running forever |
| `LoweringCorrect.BodyLoses` | src/CodeGen/codegen_control_flow.c:528-629 | for every body: a run that jumps to a lost target stops the graph in that target's empty block |
| `LoweringCorrect.BodyGoesWrong` | src/CodeGen/codegen_control_flow.c:594-629 | for every body: a run that goes wrong stops the graph in the empty block of a label that the body does not have |
| `LoweringCorrect.StopsInLostIff` | src/CodeGen/codegen_control_flow.c:36-629 | for every body and every run: the graph stops in the empty block of a lost target if and only if the source run jumps to one |
| `LoweringCorrect.DirectIsNeverLost` | src/CodeGen/codegen_control_flow.c:36-629 | for every body of the direct form above, no run is ever lost |
| `LoweringCorrect.BuriedCaseStops` | src/CodeGen/codegen_control_flow.c:544-549 | the run of that family with the condition equal to the buried constant stops there |
| `Codegen.CodegenContext.constructor` | src/CodeGen/codegen_stmt.c:548-552 | a function starts with one empty entry block, empty stacks and no labels |
| `Codegen.CodegenContext.LoopPush` | src/CodeGen/codegen_context.c:454-466 | pushes one break/continue target |
| `Codegen.CodegenContext.LoopPop` | src/CodeGen/codegen_context.c:468-471 | drops the top target; nothing on an empty stack |
| `Codegen.CodegenContext.LoopPeek` | src/CodeGen/codegen_context.c:473-479 | the innermost break target |
| `Codegen.CodegenContext.LoopPeekForContinue` | src/CodeGen/codegen_context.c:481-493 | the innermost target that has a continue block |
| `Codegen.CodegenContext.EnsureLabelBlock` | src/CodeGen/codegen_context.c:521-556 | the label's block, made on first use |
| `Codegen.CodegenContext.FindSwitchCaseBinding` | src/CodeGen/codegen_control_flow.c:320-333 | the first binding of the node, innermost frame first |
| `Codegen.CodegenContext.CodegenNode` | src/CodeGen/codegen_control_flow.c:36-629 | leaves exactly the state that lowering the statement specifies |
| `Codegen.CodegenContext.CodegenStatementList` | src/CodeGen/codegen_stmt.c:257-275 | the same for a statement list |
| `Codegen.CodegenContext.CodegenIfStatement` | src/CodeGen/codegen_control_flow.c:36-92 | the same for `if` |
| `Codegen.CodegenContext.CodegenWhileLoop` | src/CodeGen/codegen_control_flow.c:94-155 | the same for `while` and `do` |
| `Codegen.CodegenContext.CodegenForLoop` | src/CodeGen/codegen_control_flow.c:157-213 | the same for `for` |
| `Codegen.CodegenContext.CodegenSwitch` | src/CodeGen/codegen_control_flow.c:342-526 | the same for `switch` |
| `Codegen.CodegenContext.CodegenSwitchBody` | src/CodeGen/codegen_control_flow.c:502-509 | the same for the statements of a switch |
| `Codegen.CodegenContext.BuildDispatch` | src/CodeGen/codegen_control_flow.c:477-500 | emits the switch instruction or the compare chain |
| `Codegen.CodegenContext.CodegenCase` | src/CodeGen/codegen_control_flow.c:528-554 | the same for `case` and `default` |
| `Codegen.CodegenContext.CodegenLabel` | src/CodeGen/codegen_control_flow.c:556-592 | the same for a label |
| `Codegen.CodegenContext.CodegenGoto` | src/CodeGen/codegen_control_flow.c:594-629 | the same for `goto`, with its unreachable sink and its open block |
| `Codegen.CollectSwitchCases` | src/CodeGen/codegen_control_flow.c:249-292 | the owned cases with their constants, in source order, as `CollectIffOwns` and `CollectInOrder` describe them |
| `Codegen.CaseEntries` | src/CodeGen/codegen_control_flow.c:385-453 | the constants with their block numbers |
| `Codegen.IsDense` | src/CodeGen/codegen_control_flow.c:428-441 | least and greatest constant fill at least half of their (64-bit) span |
| `Scopes.ScopeChain.PushScope` | src/CodeGen/codegen_context.c:206-212 | opens an empty innermost scope |
| `Scopes.ScopeChain.PopScope` | src/CodeGen/codegen_context.c:214-219 | drops the innermost scope |
| `Scopes.ScopeChain.InsertName` | src/CodeGen/codegen_context.c:221-260 | overwrites or appends the name in the innermost scope |
| `Scopes.ScopeChain.LookupName` | src/CodeGen/codegen_context.c:262-271 | the first entry of the name, innermost scope first |
| `Scopes.LookupIsVisible` | src/CodeGen/codegen_context.c:206-271 | after any run, a lookup finds the last binding made in a block that is still open |
| `Scopes.BlockLeavesNoTrace` | src/CodeGen/codegen_context.c:206-219 | a closed block leaves the chain as it was before it |
| `Words.MaskIsMod` | src/CodeGen/codegen_const_initializers_aggregate.c:28-38 | masking with `(1 << k) - 1` is reduction modulo `2^k` |
| `Bytes.UnpackPack` | src/CodeGen/codegen_const_initializers_aggregate.c:236-264 | a packed byte is extracted unchanged, in both byte orders |
| `Bytes.PackUnpack` | src/CodeGen/codegen_const_initializers_aggregate.c:480-491 | packing all extracted bytes gives the integer back |
| `Bytes.LittleEndian` | src/CodeGen/codegen_const_initializers_aggregate.c:480-491 | the `i`-th stored byte is the `i`-th eight bits from the bottom |
| `Bytes.BigEndian` | src/CodeGen/codegen_const_initializers_aggregate.c:480-491 | the `i`-th stored byte is the `i`-th eight bits from the top |
| `BitFields.MergeConstBits` | src/CodeGen/codegen_const_initializers_aggregate.c:40-77 | a merge takes the field's bits from the value and keeps every other bit, also where the field sticks out of its unit |
| `BitFields.MergeConstIff` | src/CodeGen/codegen_const_initializers_aggregate.c:40-77 | there is a result exactly for a field of some width and a constant value, and it has the width of the unit (32 bits where none is given) |
| `BitFields.AnyBaseReadsBack` | src/CodeGen/codegen_const_initializers_aggregate.c:40-77 | whatever the base, the field reads back as the value modulo `2^width` |
| `BitFields.MergeLoadedBits` | src/CodeGen/codegen_initializers_aggregate.c:264-313 | the emitted sequence takes the field's bits from the converted value and keeps every other bit |
| `BitFields.CastValue` | src/CodeGen/codegen_initializers_aggregate.c:277-290 | conversion to the storage type, with or without sign, keeps the number modulo `2^n` |
| `BitFields.RuntimeReadsBack` | src/CodeGen/codegen_initializers_aggregate.c:264-313 | after the emitted sequence the field reads back as the number stored, signed or not, modulo `2^width` |
| `BitFields.ConstAgreesWithRuntime` | src/CodeGen/codegen_initializers_aggregate.c:277-313 | on every value, the constant merge of the value converted to a type at least as wide as the field (the code uses the storage type) equals the emitted cast, mask, shift and or sequence |
| `BitFields.DisjointMergesCommute` | src/CodeGen/codegen_const_initializers_aggregate.c:68-76 | merges into disjoint fields commute |
| `BitFields.LastStoreWins` | src/CodeGen/codegen_const_initializers_aggregate.c:40-77 | after any sequence of merges a field holds its last value modulo `2^width`, else the old one |
| `BitFields.StoreBitfield` | src/CodeGen/codegen_initializers_aggregate.c:277-313 | on memory, in both byte orders: the unit changes as the constant merge says for the value converted to the storage type, no other byte changes |
| `Constants.ImageIsInjective` | src/CodeGen/codegen_const_initializers_aggregate.c:471-536 | constants of one readable type with equal bytes are equal |
| `Constants.PaddingIsZero` | src/CodeGen/codegen_const_initializers_aggregate.c:517-532 | padding reads as zero |
| `Constants.NullIsZero` | src/CodeGen/codegen_const_initializers_aggregate.c:24-26 | a null constant is all zero bytes |
| `ConstImage.ByteIsCell` | src/CodeGen/codegen_const_initializers_aggregate.c:471-536 | every byte the reader returns is the byte in memory |
| `ConstImage.PointerIsThere` | src/CodeGen/codegen_const_initializers_aggregate.c:184-234 | a pointer found at an offset is what the bytes from there hold |
| `ConstImage.PackStorageBytes` | src/CodeGen/codegen_const_initializers_aggregate.c:236-264 | packs the member's bytes, zero past its end, or fails on the first unreadable one |
| `ConstImage.StorageFromMember` | src/CodeGen/codegen_const_initializers_aggregate.c:266-398 | the loops compute the rebuilt constant; `RebuildsIff` says exactly when there is one and `RebuildImage` what it holds |
| `ConstImageCorrect.RebuildTyped` | src/CodeGen/codegen_const_initializers_aggregate.c:266-398 | a rebuilt constant has the type asked for |
| `ConstImageCorrect.RebuildImage` | src/CodeGen/codegen_const_initializers_aggregate.c:266-398 | value byte `i` is member byte `offset + i`, zero past the member's end; padding is zero; any type, any member, both byte orders |
| `ConstImageWhen.PointerAtIff` | src/CodeGen/codegen_const_initializers_aggregate.c:184-234 | the search finds a pointer exactly where one is a part of the constant, and only if the width asked for is the pointer's |
| `ConstImageWhen.ReadableIff` | src/CodeGen/codegen_const_initializers_aggregate.c:471-536 | a byte is read exactly if it belongs to no pointer, address integer, odd-sized integer or opaque part |
| `ConstImageWhen.RebuildsIff` | src/CodeGen/codegen_const_initializers_aggregate.c:266-398 | for any type, member and offset: rebuilding succeeds if and only if every integer and pointer of the type falls on a pointer of its own width or on readable bytes, and every other scalar on readable bytes |
| `ConstImageWhen.AddressFillsInt` | src/CodeGen/codegen_const_initializers_aggregate.c:271-285 | an integer of the pointer's width over a symbol's address is that address cast to an integer |
| `ConstImageWhen.IntRebuildsIffCells` | src/CodeGen/codegen_const_initializers_aggregate.c:271-297 | told from memory alone: an integer can be rebuilt if and only if the cells it covers are all numbers or are the parts of one whole address |
| `ConstImageTotal.PointerFreeIsReadable` | src/CodeGen/codegen_const_initializers_aggregate.c:471-536 | the reader reads every byte of a pointer-free constant |
| `ConstImageTotal.PointerFreeRebuilds` | src/CodeGen/codegen_const_initializers_aggregate.c:266-398 | rebuilding succeeds for every readable type, pointer-free member and offset |
| `ConstImageTotal.EmbeddedRebuilds` | src/CodeGen/codegen_const_initializers_aggregate.c:184-398 | every part of a constant, pointers included, can be rebuilt from the whole |
| `ConstImageTotal.RebuildRoundTrip` | src/CodeGen/codegen_const_initializers_aggregate.c:266-398 | a constant rebuilt from its own bytes is itself |
| `ConstImageCorrect.StorageFromExactMember` | src/CodeGen/codegen_const_initializers_aggregate.c:400-445 | the loop with its flag computes the exact placement |
| `ConstImageCorrect.ExactImage` | src/CodeGen/codegen_const_initializers_aggregate.c:400-445 | a placed member's bytes start the storage, the rest reads as null storage, whether or not every part can be read |
| `ConstImageWhen.ExactIff` | src/CodeGen/codegen_const_initializers_aggregate.c:400-445 | the member is placed exactly if the storage has a slot of its type at its start, at any depth |
| `ConstImageCorrect.ExactAgreesWithRebuild` | src/CodeGen/codegen_const_initializers_aggregate.c:400-469 | where both paths apply they give the same image, and the same constant |
| `ConstImageTotal.PlacedRebuilds` | src/CodeGen/codegen_const_initializers_aggregate.c:266-445 | where a member without address integers can be placed exactly in readable storage, the general path succeeds too |
| `ConstImageTotal.ExactIsRebuild` | src/CodeGen/codegen_const_initializers_aggregate.c:400-469 | for such members the shortcut and the union storage built with it are the general path, outright |
| `ConstImageCorrect.UnionStorageFromMember` | src/CodeGen/codegen_const_initializers_aggregate.c:447-469 | exact path first, then the general one |
| `ConstImageWhen.UnionIff` | src/CodeGen/codegen_const_initializers_aggregate.c:447-469 | a union gets a constant if and only if its storage has such a slot or can be filled from the member |
| `ConstImageCorrect.UnionImage` | src/CodeGen/codegen_const_initializers_aggregate.c:447-469 | the union's value bytes are the member's bytes, then those of null storage; padding is zero; whichever path built it |
| `ConstImageCorrect.ByteArrayFromUnion` | src/CodeGen/codegen_const_initializers_aggregate.c:538-571 | element `i` is byte `i`; a result exactly when every byte is readable |
| `ConstImageCorrect.ByteArrayImage` | src/CodeGen/codegen_const_initializers_aggregate.c:538-571 | the byte array has the storage's own image |
| `ArrayInit.BuildInitializer` | src/CodeGen/codegen_const_initializers_aggregate.c:1095-1171 | the dispatch between zero, elision and the entry loop |
| `ArrayInit.MergeInitializer` | src/CodeGen/codegen_const_initializers_aggregate.c:1000-1028 | merges a designated brace list, builds anything else |
| `ArrayInit.ApplyEntries` | src/CodeGen/codegen_const_initializers_aggregate.c:573-665 | one pass over the entries with the running (64-bit) position; `MergeSucceedsIff` says when it has a result |
| `ArrayInit.BuildArrayFlat` | src/CodeGen/codegen_const_initializers_aggregate.c:1030-1093 | the elision loops and their cursor |
| `ArrayInit.MergeShape` | src/CodeGen/codegen_const_initializers_aggregate.c:573-665 | merging keeps the array's shape |
| `ArrayInitCorrect.TestsAgree` | src/CodeGen/codegen_const_initializers_aggregate.c:126-152 | the elision test holds if all that is stored is plain and undesignated, the designator test if some entry has an index or a field name |
| `ArrayInitCorrect.MergeSucceedsIff` | src/CodeGen/codegen_const_initializers_aggregate.c:573-665 | merging has a result if and only if, at every depth, the position of each stored entry is known (its designator or one past its predecessor) and each expression that falls inside the array has a value; lists that can be elided always have one |
| `ArrayInitCorrect.BuildSucceedsIff` | src/CodeGen/codegen_const_initializers_aggregate.c:1095-1171 | building has a result if and only if the list can be elided or merging it would have one |
| `ArrayInitCorrect.MergeLeaf` | src/CodeGen/codegen_const_initializers_aggregate.c:573-665 | each leaf has the value of the last entry reaching it, zero where a reset or a plain brace list covers it, else the base's; all of it read off the entries, at every depth |
| `ArrayInitCorrect.BuildLeaf` | src/CodeGen/codegen_const_initializers_aggregate.c:1095-1171 | built from scratch, each leaf has the value of the last entry reaching it, else zero |
| `ArrayInitCorrect.BuildIsMergeIntoZero` | src/CodeGen/codegen_const_initializers_aggregate.c:1000-1171 | building equals merging into zero for every list in which each designator has an expression, as in all the parser builds |
| `ArrayInitCorrect.BuildIsMergeIff` | src/CodeGen/codegen_const_initializers_aggregate.c:1000-1171 | for any list: the two agree for all meanings of the expressions if and only if the elision test and the designator test do not both succeed, the array is empty, or nothing is stored |
| `ArrayInitCorrect.FlatArrayIsRowMajor` | src/CodeGen/codegen_const_initializers_aggregate.c:1030-1093 | elision takes the entries in row-major order, cut or padded with zeros, and moves the cursor by the number consumed |
| `ArrayInitCorrect.ElidedBraces` | src/CodeGen/codegen_const_initializers_aggregate.c:126-139 | the same for a whole list and an array of any depth: the entries before the first blank one |
| `TrackerInvariant.FindIsLookup` | runtime/memory_check/fisics_memcheck_runtime.c:106-120 | probing the table is looking the pointer up in a map |
| `TrackerInvariant.InsertStops` | runtime/memory_check/fisics_memcheck_runtime.c:122-140 | the insertion probe stops at the pointer's slot, else at the first empty one on its path, else, in a full table, at the first freed one it came past; it fails only if all slots are active |
| `TrackerInvariant.InsertKeepsInv` | runtime/memory_check/fisics_memcheck_runtime.c:142-163 | writing there keeps each pointer in one slot and its probe path without empty slots |
| `TrackerInvariant.FullIsAtCapacity` | runtime/memory_check/fisics_memcheck_runtime.c:122-140 | no empty slot remains exactly when the map has as many records as there are slots |
| `TrackerRuns.TrackRefines` | runtime/memory_check/fisics_memcheck_runtime.c:142-163 | recording acts on the map; only a freed record is ever given up, and only when the map is full and does not know the pointer |
| `TrackerRuns.TrackCountsActive` | runtime/memory_check/fisics_memcheck_runtime.c:142-163 | recording keeps the active counter the number of active slots, whatever the real allocator hands out |
| `TrackerRuns.ReleaseRefines` | runtime/memory_check/fisics_memcheck_runtime.c:165-176 | releasing turns one active record into a freed one |
| `TrackerRuns.ClassifyRefines` | runtime/memory_check/fisics_memcheck_runtime.c:246-274 | a call is let through exactly when the map has an active record |
| `TrackerRuns.ResizeTracks` | runtime/memory_check/fisics_memcheck_runtime.c:212-244 | a resized block stays recorded even in a full table |
| `TrackerRuns.CallocRecordsProduct` | runtime/memory_check/fisics_memcheck_runtime.c:203-210 | the recorded size of a `calloc` block is the low 64 bits of the product |
| `TrackerRuns.StepKeeps` | runtime/memory_check/fisics_memcheck_runtime.c:194-274 | every call keeps the invariant and hands only live pointers to the real allocator |
| `TrackerRuns.SilentDropBreaks` | runtime/memory_check/fisics_memcheck_runtime.c:236-243 | a resize to zero that releases the block and returns null leaves a dead block active, in every state |
| `TrackerRuns.RunIsSafe` | runtime/memory_check/fisics_memcheck_runtime.c:142-284 | over any run: real `free` and `realloc` see only live pointers, the active counter is the number of active slots, allocations are active plus freed, leaked bytes are what was recorded and not released |
| `TrackerRuns.VerdictIsExact` | runtime/memory_check/fisics_memcheck_runtime.c:212-274 | `free`, and `realloc` of a pointer that is not null, is passed on exactly for live pointers, counted as double exactly for dead ones, as unknown exactly for pointers never handed out |
| `TrackerRuns.RunIsExact` | runtime/memory_check/fisics_memcheck_runtime.c:142-274 | the table knows every pointer, and every verdict is right, if and only if no more distinct pointers were handed out than the table has slots |
| `TrackerRuns.ProgramRun` | runtime/memory_check/fisics_memcheck_runtime.c:142-284 | safety, balance and the condition for right verdicts from the empty table on: the whole run of a program |
| `TrackerRuns.NothingNewToReport` | runtime/memory_check/fisics_memcheck_runtime.c:449-458 | if the generation has not moved since the last report, no counter has |
| `TrackerRuns.ResetKeeps` | runtime/memory_check/fisics_memcheck_runtime.c:460-476 | a reset leaves the state of a fresh table, and the invariant holds again |
| `Memcheck.Runtime.constructor` | runtime/memory_check/fisics_memcheck_runtime.c:31-38 | all slots empty, all counters zero |
| `Memcheck.Runtime.FindSlot` | runtime/memory_check/fisics_memcheck_runtime.c:106-120 | the probe loop finds what the specification finds |
| `Memcheck.Runtime.FindInsertSlot` | runtime/memory_check/fisics_memcheck_runtime.c:122-140 | the same for the insertion probe with its first freed slot |
| `Memcheck.Runtime.TrackAllocation` | runtime/memory_check/fisics_memcheck_runtime.c:142-163 | the new table and counters |
| `Memcheck.Runtime.MarkReleased` | runtime/memory_check/fisics_memcheck_runtime.c:165-176 | the new table and counters |
| `Memcheck.Runtime.MallocSite` | runtime/memory_check/fisics_memcheck_runtime.c:194-201 | records a non-null result |
| `Memcheck.Runtime.CallocSite` | runtime/memory_check/fisics_memcheck_runtime.c:203-210 | records a non-null result with the 64-bit product as size |
| `Memcheck.Runtime.ReallocSite` | runtime/memory_check/fisics_memcheck_runtime.c:212-244 | the new table, and what is passed to the real allocator; `VerdictIsExact` says which verdict is counted |
| `Memcheck.Runtime.FreeSite` | runtime/memory_check/fisics_memcheck_runtime.c:246-274 | the new table, and what is passed to the real allocator |
| `Memcheck.Runtime.ComputeLeakedBytes` | runtime/memory_check/fisics_memcheck_runtime.c:276-284 | the sum of the active sizes |
| `Memcheck.Runtime.ResetTable` | runtime/memory_check/fisics_memcheck_runtime.c:460-476 | empties the table and the counters |
| `CrossTuIndex.CrossTuBucket` | src/main_cross_tu_index.c:8-17 | masking with a power of two less one picks the bucket modulo the count |
| `CrossTuIndex.Link` | src/main_cross_tu_index.c:19-33 | appending an entry extends the linked prefix by it and changes no definition |
| `CrossTuIndex.WalkIsScan` | src/main_cross_tu_index.c:61-71 | the chain, filtered by exact name and kind, is the linear scan in ledger order, and its indices increase |
| `CrossTuIndex.Ledger.Reserve` | src/main_cross_tu_index.c:35-59 | keeps all entries and links; succeeds exactly if there is room or the buckets can be doubled, which they then are; a failure changes nothing |
| `CrossTuIndex.Ledger.Rebuild` | src/main_cross_tu_index.c:45-58 | links all entries, in ledger order, into the new buckets |
| `CrossTuIndex.Ledger.First` | src/main_cross_tu_index.c:65-71 | the first entry of the key's bucket |
| `CrossTuIndex.Ledger.Push` | src/main_diagnostics.c:496-558 | appends the symbol and keeps the index valid, exactly if there is room for it, or changes no entry |
| `CrossTuIndex.Ledger.Lookup` | src/main_diagnostics.c:737-742 | walking the chain finds exactly the entries a full scan finds, in the same order |
| `CrossTuSymbols.ArrayBoundsCompatible` | src/main_diagnostics.c:596-671 | dimensions agree pairwise; a known bound agrees with a missing one |
| `CrossTuSymbols.DimsAgreeIff` | src/main_diagnostics.c:610-668 | the whole table of bracket forms: a variable length agrees only with another, a fixed one with the same or a missing one, the rest with each other |
| `CrossTuSymbols.FunctionSignaturesMatch` | src/main_diagnostics.c:462-494 | prototypes agree pairwise; one without prototype agrees with unpromoted, non-variadic ones |
| `CrossTuSymbols.ClashIsSymmetric` | src/main_diagnostics.c:737-797 | a clash does not depend on which symbol came first |
| `CrossTuConflicts.ChainFindsClash` | src/main_diagnostics.c:737-797 | searching the chain finds the same first clash as searching the ledger |
| `CrossTuConflicts.Collector.FindClash` | src/main_diagnostics.c:737-797 | the earliest clashing entry |
| `CrossTuConflicts.Collector.Compare` | src/main_diagnostics.c:743-784 | whether two symbols of one kind agree |
| `CrossTuConflicts.Collector.CollectSymbol` | src/main_diagnostics.c:681-819 | records the first clash or appends the symbol; `oom` is raised exactly when memory, a name or room is missing, and then neither changes |
| `CrossTuConflicts.VerdictIsExact` | src/main_diagnostics.c:681-819 | a conflict is found if and only if some collected symbol clashes with an earlier one; otherwise the ledger holds them all in order |
| `CrossTuConflicts.RecordedIsFirstPair` | src/main_diagnostics.c:737-797 | the conflict recorded is the first symbol that clashes with an earlier one, with the earliest of those it clashes with |
| `CrossTuConflicts.FirstPairIsRecorded` | src/main_diagnostics.c:737-797 | and that pair is always recorded, with the ledger as it was before it |
| `CrossTuConflicts.TwoVariables` | src/main_diagnostics.c:681-797 | two variables conflict if and only if they have one name, both are external and defined, tentative or `extern`, one is defined, and their types or bounds differ |
| `CrossTuConflicts.TwoFunctions` | src/main_diagnostics.c:681-797 | two functions conflict if and only if they have one name, both have bodies, neither is static, and return types, unit contracts or signatures differ |
| `CrossTuConflicts.OtherKindsNeverConflict` | src/main_diagnostics.c:681-797 | symbols of different or other kinds never conflict |
| `CrossTuConflicts.LedgerIsCompatible` | src/main_diagnostics.c:681-819 | without a conflict no two collected symbols clash, whichever is taken first |
| `CrossTuConflicts.VerdictIgnoresOrder` | src/main_diagnostics.c:681-819 | the verdict is the same for every order of arrival |
| `Abi.Counter.CountMembers` | src/CodeGen/codegen_abi_hfa.c:5-34 | the counting recursion with its two running values |
| `Abi.MembersIsFlatten` | src/CodeGen/codegen_abi_hfa.c:5-34 | the early-exit counter accepts exactly the types whose flattening fits and is all `float` or all `double`, and counts its leaves |
| `Abi.HfaIsHomogeneous` | src/CodeGen/codegen_abi_hfa.c:35-56 | accepted on AArch64 exactly if homogeneous (one to four leaves of one floating-point type, nested at most eight deep, nothing empty, packed or incomplete; section 5.9.5 of AAPCS64) and of `float` or `double` |
| `Abi.AggregateAllFp` | src/CodeGen/codegen_layout_abi_return.c:24-53 | whether all leaves are floating-point or vectors |
| `Abi.AllFpIff` | src/CodeGen/codegen_layout_abi_return.c:24-53 | it holds exactly if no part at any depth is an integer, another scalar or an empty struct, and none is nested more than eight deep |
| `Abi.TreatmentIff` | src/CodeGen/codegen_layout_abi_return.c:55-109 | the treatment of every type: as one integer up to 8 bytes and as two up to 16 for a sized aggregate with such a part, through memory above 16 bytes unless homogeneous of `float` or `double` on AArch64, as it is otherwise |
| `Abi.HfaIsDirect` | src/CodeGen/codegen_layout_abi_return.c:55-109 | accepted aggregates are neither coerced nor returned through memory |
| `Abi.HomogeneousEscapesIff` | src/CodeGen/codegen_layout_abi_return.c:55-109 | a homogeneous aggregate is never coerced, and escapes memory if and only if it has at most 16 bytes or is of `float` or `double` on AArch64 |
| `Abi.QuadPairIsMissed` | src/CodeGen/codegen_abi_hfa.c:10-23 | two quadruple-precision numbers are homogeneous and still go through memory |
| `Abi.CoerceIsStable` | src/CodeGen/codegen_layout_abi_return.c:55-77 | coercion is idempotent, and its result is large enough and never needs memory |
| `Abi.OneTreatment` | src/CodeGen/codegen_layout_abi_return.c:55-109 | each sized, non-empty aggregate is treated in exactly one of three ways: as integers large enough for it, through memory, or as it is |
| `Parents.ChooseParent` | src/fisics_frontend.c:159-202 | the least candidate around the child, else the least one outside; the lowest index among equals |
| `Parents.ResolveParents` | src/fisics_frontend.c:157-205 | writes the chosen parent's id to every symbol that wants one and changes nothing else |
| `Parents.ChoiceIsUnique` | src/fisics_frontend.c:165-198 | the choice is determined |
| `Parents.ContainsIff` | src/fisics_frontend.c:121-137 | one span is around another exactly if both are known and it starts no later and ends no earlier |
| `Parents.NoParentIff` | src/fisics_frontend.c:165-204 | no parent is chosen exactly if no other symbol has an identity and the name, kind and, where the child has one, file that the child asks for |
| `Parents.ParentAnswers` | src/fisics_frontend.c:165-204 | a parent that is chosen has them, and is outside the child only if all that have them are |
| `Parents.ChoiceIgnoresLinks` | src/fisics_frontend.c:157-205 | links written earlier do not influence later choices |
| `Parents.MeasureIsMonotoneIff` | src/fisics_frontend.c:121-149 | a span measures no more than any span around it if and only if its columns exceed `2^20` by one at most |
| `Parents.ParentMeasuresLeast` | src/fisics_frontend.c:157-205 | with columns below `2^20`, if some candidate is around the child, the parent is around it, measures least, and has the lowest index among equals |
| `Parents.ParentIsInnermostIff` | src/fisics_frontend.c:139-205 | no candidate around the child lies strictly inside the parent if and only if no candidate around the child differs from the least of them by a later start column alone on a span of several lines |
| `Parents.OuterParentIsLinked` | src/fisics_frontend.c:139-205 | a child that is linked to the outer of two such candidates |
| `Parents.FallbackIsLast` | src/fisics_frontend.c:181-199 | a candidate outside the child is used only if all are outside |
| `Frozen.Session.FetchFile` | tools/frozen_graph_inputs.py:139-150 | freezing captures a file once, in one role and within the budgets; verifying answers from the snapshot only |
| `Frozen.Session.DiscoverClosure` | tools/frozen_graph_inputs.py:64-125 | the loops over manifests, metadata, sources, catalogs, topology and attachments |
| `Frozen.WriteFiles` | tools/frozen_graph_inputs.py:158-164 | writes each file to its local path and lists it |
| `Frozen.LoadInventory` | tools/frozen_graph_inputs.py:185-199 | accepts an entry only if its identity, path, length and digest agree with the file |
| `Frozen.VerifySnapshot` | tools/frozen_graph_inputs.py:171-209 | replays discovery and compares what it used with the inventory |
| `FrozenAgree.DiscoverTouches` | tools/frozen_graph_inputs.py:64-125 | discovery touches exactly the identities reachable from the roots |
| `FrozenAgree.DiscoverReplays` | tools/frozen_graph_inputs.py:132-209 | discovery replayed over what it captured takes the same course and uses all of it |
| `FrozenAgree.LocalPathInjective` | tools/frozen_graph_inputs.py:128-129 | among identities whose digests do not collide, different identities have different local paths |
| `FrozenAgree.CapturedFromDisk` | tools/frozen_graph_inputs.py:132-154 | freezing captures exactly what is reachable, with the contents on disk |
| `FrozenAgree.VerifyAcceptsFreezeIff` | tools/frozen_graph_inputs.py:132-209 | with any digest, verify accepts what freeze wrote, in whatever order, and returns the same bytes and roles per identity, if and only if captured files that share a local path have the same bytes |
| `FrozenAgree.VerifyAcceptsFreeze` | tools/frozen_graph_inputs.py:132-209 | so it does when no two of the identities reached have the same digest |
| `FrozenAgree.AcceptedIsClosed` | tools/frozen_graph_inputs.py:171-209 | the inventory of any accepted snapshot is exactly what discovery reaches, none missing and none extra |
| `FrozenExact.PlanIff` | tools/frozen_graph_inputs.py:71-124 | there is a plan exactly if the three manifests are of one project with lists of one to 1024 entries, and it lists exactly what they name |
| `FrozenExact.CaptureIff` | tools/frozen_graph_inputs.py:132-154 | freezing succeeds if and only if some choice of files on disk, each in one role and all within the two budgets, is complete: manifests, metadata with true source receipts, catalogs, topology and attachments |
| `FrozenExact.ReadBackIff` | tools/frozen_graph_inputs.py:183-199 | the inventory is read back if and only if each entry names a new canonical identity, its local path, and the length and digest of the file there, and the lengths are within the budget |
| `FrozenExact.VerifyIff` | tools/frozen_graph_inputs.py:171-209 | a snapshot is accepted if and only if, besides, its inventory has one to 1024 entries, is complete and of the project stated, and lists only what discovery reaches; it then yields those files |

## Left out

- LLVM: blocks, constants and layouts are plain values; object emission and IR verification are not part of this model.
- Expressions, declarations and type resolution: parameters (see above).
- Control flow with missing pieces after parse errors (an `if` without a condition, empty nodes) and case values that are not constants.
- Typedef and tag tables of a scope: the same lists as for variables.
- Struct and union initializers with field lookup and entry grouping (src/CodeGen/codegen_const_initializers_aggregate.c:667-998, 1206-1464), beyond the byte images and bit-fields they use.
- String literals, floating-point folding and pointer constant expressions as initializers: covered by the evaluator parameter of `ArrayInit`.
- The hash functions of the memory checker and of the ledger: any function will do.
- The memory checker's report text, report policy and environment variables; wrap-around of its counters.
- Allocation failure while constants are built, including a struct without fields, for which `calloc` may return null (src/CodeGen/codegen_const_initializers_aggregate.c:370-374).
- Growth of the ledger's item array and of the loop and label arrays: sequences here.
- Source positions and file names recorded with a ledger entry or a conflict.
- Lines and columns in `Parents` are unbounded; for C `int` values the measure does not wrap.
- Packing and unpacking of coerced returns through stack slots (src/CodeGen/codegen_layout_abi_return.c:130-188).
- The data layout in `Abi`: sizes are a parameter that knows the two coerced types.
- Symlink checks, compiler digests, canonical JSON and the receipt's own digest in `Frozen`; files do not change during a freeze.
- The rest of the compiler: lexing, parsing, semantic analysis, command line, linking, release and evidence tools.
