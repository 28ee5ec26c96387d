# Hecaton's bowknot generator, modelled and proved in Dafny

Hecaton inserts *bowknots* into kernel C functions: undo code that runs when a statement of the function faults. The
generator (`Hecaton_source/HecatonPass2.cpp`) reads the error-handling blocks of a function, works out which undo
statements they contain and which statements those undo, hands out bits of a 64-bit mask, and inserts jumps (`hgoto`),
stamps (`hecaton_set_bit`, `hecaton_unset_bit`) and a guarded cleanup block. This project models the generator and the
protocol of the code it emits, and proves what the two promise each other. Three supporting parts have properties of
their own: the hoisting and renaming of declarations (`HecatonPass1.cpp`), the scoring and ranking of candidate pairs
(also in `HecatonDatabase.cpp`), and the scan for saved registers (`scripts/parse_vmlinux.py`).

## How the project is laid out

Run time of the emitted code: `MaskWord` (the mask and its macros), `Runtime` (what instrumented functions do, step by
step, under faults), `Refinement`, `Padding` and `Transparency` (without a fault nothing changes), `Unwinding` and
`UnwindingTheorem` (what a fault does to the call stack), `Interrupts` (where nothing jumps), `Emission` (what emitted
code does, construct by construct), `Owing` (what an outstanding slot means, and which jumps suffice), `LateJumps` and
`LostUndo` (faults behind which no jump was kept), `TakenOrder` (the order of undoing), `WholeSource` (a source file
through the generator, and its runs).

The generator: `Tree` (statements, parents), `Heads` (the database generator's cleaning of heads), `Blocks` and
`Erasing` (building and filtering the blocks), `Gotos` (what a goto really runs), `Slots`, `Ladder`, `LabelLadder` and
`ErrorPaths` (slots, cleanup lines and error-path ladders), `Outers` (outer undo statements), `UndoOrder` and
`ReversedPath` (their order against that of an error path), `Similarity` and `Ranking` (candidate pairs), `Jumps` and
`Stamps` (inserted text), `Passes` and `Pass2` (the passes as loops, and the object that carries their lists),
`Score`. What the passes decide is read off the statements themselves, without the tests that decide it, in
`Collected` (which calls become outers), `Pairing` (what they and the new statements are paired with), `Placement`
(which statements keep a jump) and `Stamped` (which statements carry the stamps of which slot).

The rest: `Rename`, `Variables` and `Hoist` (first pass), `Prologue` (saved registers), `Basics` and `Sequences` (shared
tools).

Conventions. A run is driven by a finite list of events that say whether a statement completes or faults and which way
a condition goes; loops, calls and gotos each use up an event, so a statement for all event lists speaks of every moment
of every run, also of runs that never end. Locations are numbers; inserted text is a list of items per location.
Strings that the source mutates through pointers, and the lists its visitors grow or erase from while iterating, are
fields of classes that methods change; each such method is proved against a function of the old state, and the lemmas
are about that function. Out-of-range reads in `is_valid_variable` are modelled by an arbitrary character. The kernel
exception handler appears as an event only: it raises the fault flag and gives up the statement or the test; the event
names the statement's location or the conditional.

Assumption. The branches of conditionals and the bodies of loops stand in braces, as the first pass leaves them
(`HecatonPass1.cpp:150-250`). Without them, text inserted behind the only statement of a branch would stand behind the
whole conditional in the file, while `Stamps.Emit` has it inside the branch.

Where the code and what one would expect of it part ways, the model follows the code:

- `handle_maybe` never resets its two counters, so the verdict on a block depends on the doubtful blocks before it
  (`Blocks.JudgeAt`).
- A `return` behind a label, or inside a conditional, does not end the collection of a goto's statements
  (`Gotos.LabelledReturnOvershoots`, `Gotos.NestedReturnIsPassedOver`; `Gotos.GotoResolution` says exactly when the
  collection is what runs).
- Slot 64 and every later slot get id 0 and their guards never fire (`MaskWord.SlotIdIsZeroFrom64`,
  `Owing.EachOwedOnce`).
- That every stamped statement keeps its jump is not enough for exact undo. A declaration outside macros never gets a
  jump; a fault in one is noticed too late, or not at all (`LostUndo.MissingJumpLosesAnUndo`; `LateJumps.LateFault`
  says what happens then and `LateJumps.LateCleanup` when exactly it is harmless).
- A hoisted variable's generated name is not compared with the names already there
  (`Hoist.GeneratedNamesCanClash`; `Hoist.DistinctExactly`).
- The prologue scan passes over pushes it does not know, and then its offsets are wrong
  (`Prologue.StrayPushMisplaces`; `Prologue.OffsetsAddressTheCells`).
- Outers are undone before everything else and in the order opposite to that of the function's text
  (`Ladder.OutersRunBackwards`). An error path with known undos is therefore kept to only if they stand first on it and
  in the order opposite to the outers (`ErrorPaths.PassesKeepTheErrorPath`, an if and only if); of undos that are first
  written on the path, it may hold no more than one (`ErrorPaths.KnownUndosComeReversed`,
  `ReversedPath.TwoFreesComeReversed`). At run time the last taken is undone first if and only if the outstanding outers
  were taken in the order in which they were collected (`TakenOrder.OutersLastInFirstOut`); for properly nested locks it
  is the other way round (`TakenOrder.NestedLocksComeFirstInFirstOut`).

## Model

| member | source | states |
|---|---|---|
| MaskWord.SlotIdIsZeroFrom64 | Hecaton_source/HecatonPass2.cpp:2480-2508 | the id of slot k is zero if and only if k is 64 or more |
| MaskWord.SlotIdsDisjoint | Hecaton_source/HecatonPass2.cpp:2480-2508 | ids of different slots share no bit |
| MaskWord.SetBitInserts | Hecaton_source/HecatonPass2.cpp:265-266 | setting a slot's bit is inserting the slot into the represented set |
| MaskWord.UnsetBitRemoves | Hecaton_source/HecatonPass2.cpp:267-268 | unsetting a slot's bit is removing the slot from the represented set |
| MaskWord.WordRefinesSet | Hecaton_source/HecatonPass2.cpp:265-270 | any sequence of the macros on the word keeps representing the set that inserts and removes slot numbers; a guard fires iff its slot is in the set and below 64 |
| Refinement.SimulateExec | Hecaton_source/HecatonPass2.cpp:263-270 | with the flag down, instrumented code and the code with the inserted text taken out stay in step, whatever their masks |
| Refinement.FaultFreeRefinement | Hecaton_source/HecatonPass2.cpp:263-270 | every fault-free run of an instrumented program has the outcome and the observations of the erased program, also in interrupt context |
| Padding.PaddedCall | Hecaton_source/HecatonPass2.cpp:1499-1521 | the place of an erased cleanup block makes no difference to any run |
| Transparency.EraseTop | Hecaton_source/HecatonPass2.cpp:1499-1521 | taking the inserted text out of the emitted statements gives the statements as written, with one empty statement |
| Transparency.InstrumentationIsTransparent | Hecaton_source/HecatonPass2.cpp:191-368 | whatever was inserted where, fault-free runs of the instrumented source and of the original source cannot be told apart |
| Unwinding.StampsTrack | Hecaton_source/HecatonPass2.cpp:2518-2603 | when a statement completes, its stamps bring the mask from the outstanding slots before it to those after it |
| Unwinding.CleanupPays | Hecaton_source/HecatonPass2.cpp:1422-1453 | a cleanup block entered with a mask in step runs, with the flag down, the undos of the outstanding slots in the block's order |
| UnwindingTheorem.CallUnwinds | Hecaton_source/HecatonPass2.cpp:1447-1456 | every run whose faults all meet a jump returns with the flag down and no fault seen, comes back unwound with the flag up, or was restarted |
| UnwindingTheorem.FaultUnwindsTheStack | Hecaton_source/HecatonPass2.cpp:1341-1457 | after a guarded fault the rest of the trace is the unwinding of the active functions, innermost first, each paying once what it owes, up to the outermost one or the first closing one |
| Interrupts.InterruptsUndoNothing | Hecaton_source/HecatonPass2.cpp:263-264 | in interrupt context no call is unwound and nothing is restarted or undone, whatever faults strike; the flag is up on return iff it was up before or a fault has struck |
| Emission.ConditionsChoose | Hecaton_source/HecatonPass2.cpp:191-368 | an emitted conditional runs its first branch when its condition holds, and else its second one or nothing |
| Emission.LoopsRepeat | Hecaton_source/HecatonPass2.cpp:191-368 | an emitted loop ends when its condition fails or by a break, and otherwise runs its last child and then itself |
| Emission.StatementsLog | Hecaton_source/HecatonPass2.cpp:191-368 | a plain statement is logged once it completes, or raises the flag without being logged, and then what was inserted behind it runs |
| Emission.StatementsCall | Hecaton_source/HecatonPass2.cpp:191-368 | of the calls of instrumented functions inside it the first one runs; if that comes back unwound, the statement is not logged and the text behind it runs with the flag up |
| Emission.LabelsAreFound | Hecaton_source/HecatonPass2.cpp:831-861 | a goto finds every label of the function, also inside blocks, branches and loops, and no other |
| Emission.LoopsAreReentered | Hecaton_source/HecatonPass2.cpp:831-861 | a goto into the body of a loop runs the rest of it, without asking the condition, and then the loop, unless the rest breaks or leaves |
| Emission.NobodyGetsPast | Hecaton_source/HecatonPass2.cpp:1447-1456 | while `hecaton_global_check` is negative no run of the emitted body gets past the cleanup block and falls off its end |
| Owing.OutstandingMeansHeld | Hecaton_source/HecatonPass2.cpp:2546-2601 | mask bit and resource balance agree all along if and only if the slot's pair and undo statements take turns |
| Owing.EachOwedOnce | Hecaton_source/HecatonPass2.cpp:1422-1443 | the cleanup block runs the undo of each outstanding slot once, and reaches all of them iff no slot from 64 on is outstanding |
| Owing.JumpsSuffice | Hecaton_source/HecatonPass2.cpp:372-470 | where the statements that may fault kept their jumps, the branches behind the conditions that may fault open with one, and every call of a function from which such a place can be reached kept its jump, every fault unwinds the whole stack; nothing is asked of other statements and conditions |
| LateJumps.LateFault | Hecaton_source/HecatonPass2.cpp:1341-1457 | for any code without instrumented calls, conditionals and loops included, and one fault: it is undone at once, or noticed at a later jump that takes the wrong statements for done, or never noticed, and then the flag stays up and nothing is undone |
| LateJumps.HarmlessIsExact | Hecaton_source/HecatonPass2.cpp:394-470 | for statements that take turns, the mask agrees with what happened if and only if neither end of the stretch touches the slot, or another of its statements follows the faulted one |
| LateJumps.LateCleanup | Hecaton_source/HecatonPass2.cpp:1422-1443 | what is undone is what is really held if and only if lateness is harmless to every slot with a bit; after a return that came before any jump, if and only if nothing is held |
| LostUndo.MissingJumpLosesAnUndo | Hecaton_source/HecatonPass2.cpp:394-470 | all passes over a declaration, a lock and an unlock: every stamped statement has its jump, and a fault in the declaration leaves the lock held |
| WholeSource.FrameLeavesClean | Hecaton_source/HecatonPass2.cpp:1341-1457 | a frame of generated code leaves by undoing each outstanding slot below 64 once, or by a restart |
| WholeSource.InstrumentSource | Hecaton_source/HecatonPass2.cpp:191-368 | every function of a source comes out with jumps at exactly its opening braces and surviving places, text and cleanup block keeping its plan; closing functions with jumps only |
| WholeSource.FaultsUnwind | Hecaton_source/HecatonPass2.cpp:191-368 | for any generated source and call depth, a run whose faults all meet a jump unwinds innermost first and every frame leaves clean |
| WholeSource.SourceUnwinds | Hecaton_source/HecatonPass2.cpp:191-368 | if faults strike only where the generator keeps a jump and conditions in front of a brace, and calls that can come back unwound are such places too, every run returns plainly or unwinds the whole stack with every frame clean |
| Tree.FindParentRecursive | Hecaton_source/HecatonPass2.cpp:2700-2718 | the search returns the last but one statement on the path to the statement, or nothing |
| Tree.ParentIsTheParent | Hecaton_source/HecatonPass2.cpp:2700-2718 | where statements are unique, that is the one statement it is a child of |
| Tree.FindIfStmtGrandparentRecursive | Hecaton_source/HecatonPass2.cpp:2677-2699 | the climbing loop ends and returns the first conditional met on the path upwards |
| Tree.ClimbFindsNearest | Hecaton_source/HecatonPass2.cpp:2677-2699 | with begin locations that tell the body from the statements inside, that is the nearest conditional strictly below the body, and nothing iff there is none |
| Heads.HeadList.CleanDuplicates | Hecaton_source/HecatonDatabase.cpp:314-335 | the nested walks over the list that the inner one erases from leave exactly the cleaned list, in order |
| Heads.CleanedHeads | Hecaton_source/HecatonDatabase.cpp:314-335 | a finding stays iff it is not by condition alone or no other kind of finding has its branch; no branch is lost |
| Passes.OwnStatements | Hecaton_source/HecatonPass2.cpp:814-830 | the statements of a goto head beside its gotos, and the target of its last goto |
| Blocks.LastGotoIs | Hecaton_source/HecatonPass2.cpp:814-830 | of several gotos it is the last one whose target counts |
| Passes.CollectFromLabel | Hecaton_source/HecatonPass2.cpp:831-861 | the walk over the label's siblings collects them from the label through the next plain return, labels stripped |
| Gotos.WalksAll | Hecaton_source/HecatonPass2.cpp:831-861 | runs of a list of statements go through those up to the first plain return, and no others, if and only if nothing else leaves the list before its last statement |
| Gotos.GotoResolution | Hecaton_source/HecatonPass2.cpp:831-861 | every run from the label that ends goes through exactly the collected statements, if and only if only the last of them and a plain return can leave: no nested return, goto, break or continue and no labelled return |
| Gotos.WalkedIsLogged | Hecaton_source/HecatonPass2.cpp:831-861 | for simple statements, what a run goes through is what its trace says was done |
| Gotos.LabelledReturnOvershoots | Hecaton_source/HecatonPass2.cpp:840-858 | of a labelled return and a statement behind it, the statement is collected and no run from the label goes through it |
| Gotos.NestedReturnIsPassedOver | Hecaton_source/HecatonPass2.cpp:840-858 | behind a conditional return a statement is collected that a run from the label, with its trace, leaves before |
| Blocks.BlockInside | Hecaton_source/HecatonPass2.cpp:798-891 | every statement of a block stands in the function body |
| Pass2.Function.FindEhcStmts | Hecaton_source/HecatonPass2.cpp:798-891 | one block per head, in order, holding the head's own or resolved statements |
| Blocks.JudgeAt | Hecaton_source/HecatonPass2.cpp:893-944 | a doubtful block is denied iff it holds a label, or some doubtful block up to it has a call and none up to it has a call the database knows |
| Blocks.VerdictsAre | Hecaton_source/HecatonPass2.cpp:893-944 | the verdicts kind by kind: every block but MAYBE and GOTO_MAYBE ones keeps its kind; a doubtful one is denied iff it holds a labelled statement, or a doubtful block up to it holds a call and none up to it a call the database knows |
| Pass2.Function.HandleMaybe | Hecaton_source/HecatonPass2.cpp:893-944 | the loop with its two running counters leaves exactly those verdicts |
| Basics.ContainsIs | Hecaton_source/HecatonPass2.cpp:1057-1127 | a text mentions a word iff it is that word with some text in front of it and some behind |
| Erasing.EraseUnless | Hecaton_source/HecatonPass2.cpp:1057-1127 | erasing while iterating keeps exactly the accepted statements, in order |
| Pass2.Function.DeleteBlacklistFunctions | Hecaton_source/HecatonPass2.cpp:1057-1127 | every block loses exactly the statements that mention a blacklisted word |
| Pass2.Function.HandleLoops | Hecaton_source/HecatonPass2.cpp:945-1008 | every block loses exactly the statements whose source text mentions a loop |
| Pass2.Function.HandleCriticalSections | Hecaton_source/HecatonPass2.cpp:1009-1056 | every block loses exactly the statements that mention taking a lock |
| Erasing.EraseAround | Hecaton_source/HecatonPass2.cpp:1166-1230 | an inner walk that erases all over the list leaves the outer iterator at its element |
| Erasing.EraseReturns | Hecaton_source/HecatonPass2.cpp:1128-1239 | a block loses its returns and, wherever they stand, the assignments of negative literals to the variables they hand back |
| Pass2.Function.HandleReturn | Hecaton_source/HecatonPass2.cpp:1128-1239 | the same for all blocks |
| Blocks.FilteredAre | Hecaton_source/HecatonPass2.cpp:945-1239 | through all filters a statement stays iff it is no return, mentions no blacklisted word, loop or lock, and does not set to a negative literal what a surviving `return v;` of its block hands back |
| Blocks.FiltersKeepSuffix | Hecaton_source/HecatonPass2.cpp:945-1239 | a block that adds statements in front of another one still does so after all filters |
| Passes.AppearsBefore | Hecaton_source/HecatonPass2.cpp:1291-1320 | the comparison loops find a statement iff some earlier block, denied or not, has one that prints alike |
| Passes.NewStatements | Hecaton_source/HecatonPass2.cpp:1271-1340 | the new statements of a block are those of its own outside macros that no earlier block has; none in a denied block |
| Pass2.Function.FindEhcNewStmts | Hecaton_source/HecatonPass2.cpp:1271-1340 | the same for all blocks |
| Collected.NewAre | Hecaton_source/HecatonPass2.cpp:1271-1340 | a statement of a block is new iff the block is not denied, no earlier block has a statement that prints alike, and it does not begin, with its parent, in a macro |
| Ladder.OutersRunBackwards | Hecaton_source/HecatonPass2.cpp:1422-1443 | whichever bits are set, the outer lines run the outers in the order opposite to the one they were collected in |
| Ladder.CleanupRuns | Hecaton_source/HecatonPass2.cpp:1378-1443 | with the bits of the first n blocks set and whichever bits of outers, the cleanup block runs those outers, last collected first, and then the inner statements of the blocks, last block first |
| Ladder.InnerDownSpellsBlock | Hecaton_source/HecatonPass2.cpp:1271-1340 | the inner statements of blocks k..0 spell what block k holds beside known undos if and only if every rung up to k is fresh |
| Ladder.LadderCleanup | Hecaton_source/HecatonPass2.cpp:1378-1443 | in a ladder, with the bits that block k speaks of set, the cleanup block runs the texts of block k in order if and only if every rung up to k is fresh, the known undos stand first, and they stand in the order opposite to the outers; for fresh rungs it runs the named outers backwards and then the rest of the block |
| LabelLadder.RowMakesLadder | Hecaton_source/HecatonPass2.cpp:798-891 | labels in a row make the filtered blocks a ladder |
| LabelLadder.CleanupRunsTheErrorPath | Hecaton_source/HecatonPass2.cpp:1341-1457 | the same against what every run from the label of head k goes through, without the filtered statements |
| ErrorPaths.BuiltBlocksAre | Hecaton_source/HecatonPass2.cpp:292-311 | the blocks out of the passes are the filtered lists of their heads with their first occurrences |
| ErrorPaths.PassesKeepTheErrorPath | Hecaton_source/HecatonPass2.cpp:292-332 | from the heads through all passes to the cleanup block, known undos included: it runs, text for text, the developer's own path from the label of step k if and only if the rungs are fresh, the known undos stand first, and they stand in the order opposite to the outers |
| UndoOrder.NamedInOrder | Hecaton_source/HecatonPass2.cpp:2093-2179 | the outers that an error path names come in the order of the path, when its known undos are the first of their texts in the body |
| ErrorPaths.KnownUndosComeReversed | Hecaton_source/HecatonPass2.cpp:292-332 | then the cleanup block runs the known undos of the path in reverse and the rest in order, and keeps to the path if and only if the rungs are fresh and at most one undo is known, which comes first |
| ReversedPath.TwoFreesComeReversed | Hecaton_source/HecatonPass2.cpp:1422-1442 | all passes over a function whose error path frees x and then y: every run from its label does so, and the cleanup block frees y and then x |
| TakenOrder.OutersLastInFirstOut | Hecaton_source/HecatonPass2.cpp:1422-1443 | outstanding outers are undone before all else in descending slot order, so last taken first if and only if they were taken in slot order |
| TakenOrder.NestedLocksComeFirstInFirstOut | Hecaton_source/HecatonPass2.cpp:1422-1443 | for properly nested locks, through the passes, the lock taken first is released first |
| Passes.RecursivePairVisit | Hecaton_source/HecatonPass2.cpp:1589-1611 | a match in a child is overwritten by what is found below its later siblings, so a real pair is found iff one of the statements met on the way down the last children has one among its children between the lines searched, and then it is the first such |
| Similarity.CutIsLongest | Hecaton_source/HecatonPass2.cpp:2413-2432 | the cut is a longest common substring, and there is none iff no three characters in a row are shared |
| Similarity.DeleteLongestCommonSubstr | Hecaton_source/HecatonPass2.cpp:2413-2432 | the loops cut it out of both strings in place and return its length, or -1 and leave both strings alone |
| Similarity.CompareCounts | Hecaton_source/HecatonPass2.cpp:2402-2412 | the score is the number of characters removed from either string, the same multiset from both, and the remainders share no three in a row |
| Similarity.CompareTexts | Hecaton_source/HecatonPass2.cpp:2402-2412 | the recursion on the mutated strings ends with that score and those remainders |
| Similarity.EvaluationIsPercentage | Hecaton_source/HecatonPass2.cpp:2382-2401 | a score lies between 0 and 100 and is 100 iff nothing of the first statement is left |
| Similarity.EvaluationIsCovered | Hecaton_source/HecatonPass2.cpp:2382-2401 | the score is the whole part of the percentage of the first statement that does not remain |
| Similarity.SelfEvaluation | Hecaton_source/HecatonPass2.cpp:2382-2401 | a statement scores 100 against itself iff it has three characters or more; a shorter one scores 0 against everything |
| Similarity.EvaluateTexts | Hecaton_source/HecatonPass2.cpp:2382-2401 | the percentage computed on copies of the two texts |
| Similarity.DatabaseScores | Hecaton_source/HecatonDatabase.cpp:909-932 | with the cap of 200 characters a score is positive iff both texts are within it and share three characters in a row |
| Similarity.EvaluateForDatabase | Hecaton_source/HecatonDatabase.cpp:909-932 | a percentage that is positive iff both texts are within 200 characters and share three in a row; no division by the length of an empty first text |
| Ranking.SortedIsStable | Hecaton_source/HecatonPass2.cpp:2433-2454 | the ranking descends, lists candidates of equal score in the order found, and starts with the first best one |
| Ranking.BestIsFirstMaximum | Hecaton_source/HecatonPass2.cpp:2440-2449 | the selected candidate is maximal and every earlier one scores less |
| Ranking.Ranker.SortPairs | Hecaton_source/HecatonPass2.cpp:2433-2454 | the recursion empties one list into the other in exactly that ranking |
| Ranking.Ranker.FindBest | Hecaton_source/HecatonPass2.cpp:2440-2449 | the scan with the running maximum finds the first maximal candidate |
| Passes.RecursiveProbablePairVisit | Hecaton_source/HecatonPass2.cpp:2342-2381 | all candidates between the lines searched, in traversal order, with their scores |
| Passes.PairOne | Hecaton_source/HecatonPass2.cpp:1526-1588 | a new statement is marked outer if and only if the search finds a real pair, and otherwise paired with the first best candidate |
| Pairing.LikestIsChosen | Hecaton_source/HecatonPass2.cpp:1526-1588 | without a real pair it gets a statement between the lines that is at least as like it as every assignment, call, unary operation and, for a conditional, conditional there |
| Pairing.RealPairs | Hecaton_source/HecatonPass2.cpp:1657-1793 | a real pair is a `kfree` or `kzfree` with the assignment of a `kmalloc` or `kzalloc` to its argument, or one of three lock releases with a call that takes the same lock, and nothing else |
| Pairing.MarkedAreReleases | Hecaton_source/HecatonPass2.cpp:1526-1588 | so only such a call whose allocation or lock call was found between the lines is marked outer by the pair search |
| Pass2.Function.FindPairs | Hecaton_source/HecatonPass2.cpp:1526-1588 | the same for every new statement; of the blocks from the third on, between the end of the head two before and the head of the block, and of the first two from the start of the body |
| Pass2.Function.OuterEhcsRecursiveVisit | Hecaton_source/HecatonPass2.cpp:2093-2179 | the visit appends exactly the outer undo statements below the statement, in traversal order |
| Pass2.Function.AbsorbDuplicates | Hecaton_source/HecatonPass2.cpp:2271-2310 | later outers with the text of outer i go, in order, from the list into its duplicates |
| Pass2.Function.HandleOuterEhcsDuplicates | Hecaton_source/HecatonPass2.cpp:2271-2341 | the loops end with one outer per text and with the new statements of those texts marked |
| Outers.MergeKeepsSources | Hecaton_source/HecatonPass2.cpp:2271-2341 | merging keeps exactly the texts there were |
| Outers.MergeMakesDistinct | Hecaton_source/HecatonPass2.cpp:2271-2341 | texts of outers are pairwise distinct after merging |
| Outers.MergeLosesNothing | Hecaton_source/HecatonPass2.cpp:2271-2341 | heads together with their duplicates are exactly the outers first collected |
| Collected.EveryUndoIsCollected | Hecaton_source/HecatonPass2.cpp:2093-2341 | every lock release, and every call of a function in the database but five driver functions, that does not begin with its parent in a macro is an outer or a duplicate of the outer with its text |
| Collected.OnlyUndosAreCollected | Hecaton_source/HecatonPass2.cpp:2093-2341 | every outer and every duplicate is a lock release or a call of a function in the database, below the body and not in a macro |
| Collected.DriverCallsAreCollected | Hecaton_source/HecatonPass2.cpp:2118-2168 | a call of one of the five driver functions is collected iff its parameters say that it undoes something |
| Collected.OutersKnowTheirIndexes | Hecaton_source/HecatonPass2.cpp:2093-2179 | an outer has all places of its function's name in the database and no others, a lock release none |
| Outers.NoUndoLostOrDoubled | Hecaton_source/HecatonPass2.cpp:1794-1800 | a new statement is marked outer iff exactly one outer has its text, and otherwise keeps a slot of its own |
| Passes.MarkingSettles | Hecaton_source/HecatonPass2.cpp:2271-2341 | the same for all blocks after the pair search |
| Pass2.Function.AssignPairmaskId | Hecaton_source/HecatonPass2.cpp:2480-2508 | slots 0, 1, ... go to the statements that are not outer, block by block, then to the outers |
| Jumps.Rewriter.InsertText | Hecaton_source/HecatonPass2.cpp:47-49 | text inserted at a location comes behind what was inserted there, and nothing else changes |
| Passes.InsertGotosBlocks | Hecaton_source/HecatonPass2.cpp:372-393 | one jump behind each opening brace below the body, and their number |
| Placement.OpensAre | Hecaton_source/HecatonPass2.cpp:372-393 | these braces are those of exactly the compound statements below the body |
| Passes.GotosVisit | Hecaton_source/HecatonPass2.cpp:471-517 | the visit finds the candidate places and the statements that forbid jumps, in traversal order, and nothing below a statement that ends outside the main file |
| Placement.MainIs | Hecaton_source/HecatonPass2.cpp:471-517 | the statements visited are those that neither end outside the main file nor stand inside one that does |
| Jumps.KeepJumps | Hecaton_source/HecatonPass2.cpp:403-453 | the marking and erasing loops keep exactly the surviving places, in order |
| Jumps.SurvivorsAre | Hecaton_source/HecatonPass2.cpp:403-453 | a place survives iff no earlier candidate, erased or not, and no forbidding statement shares its first or last line |
| Jumps.SurvivorsAreApart | Hecaton_source/HecatonPass2.cpp:403-453 | kept jumps are pairwise apart and apart from what forbids them |
| Placement.JumpsAre | Hecaton_source/HecatonPass2.cpp:394-517 | statement by statement: a jump is kept iff the statement ends with a semicolon, is in a macro or is no return, goto, break, continue, declaration, for or part of its parent's condition, and shares its first or last line with none of these outside macros and with no earlier statement of its own kind |
| Placement.JumpsAreSafe | Hecaton_source/HecatonPass2.cpp:394-517 | no jump stands behind a return, goto, break, continue, declaration or for outside macros, or behind a statement that shares its first or last line with one |
| Passes.InsertGotos | Hecaton_source/HecatonPass2.cpp:394-470 | one jump behind each surviving place, in order |
| Passes.FindProperLoc | Hecaton_source/HecatonPass2.cpp:2604-2638 | the place of a stamp: behind the brace of the body whose condition the statement stands in, nowhere for a conditional, else behind the statement |
| Stamped.StampPlaces | Hecaton_source/HecatonPass2.cpp:2604-2699 | on the path to a statement: its stamp stands behind it, unless the innermost conditional around it has it in its condition; then behind the brace of that conditional's body; a conditional has none |
| Passes.StampBlocks | Hecaton_source/HecatonPass2.cpp:2518-2545 | set stamps of the inner slots are appended at the places of their pairs |
| Passes.StampOuters | Hecaton_source/HecatonPass2.cpp:2546-2601 | unset stamps behind the undo and its duplicates, then set stamps behind the pairs |
| Stamps.StampsBySlot | Hecaton_source/HecatonPass2.cpp:2518-2603 | the stamps inserted statement by statement are, at every location, those each slot asks for, slot by slot |
| Stamped.OutersAreStamped | Hecaton_source/HecatonPass2.cpp:2546-2601 | each outer owns a slot behind those of the blocks, cleared behind its statement and every duplicate and nowhere else, set behind its pairs and nowhere else |
| Stamped.InnersAreStamped | Hecaton_source/HecatonPass2.cpp:2518-2545 | each new statement that is not outer owns a slot that its pair sets, and nothing clears |
| Stamped.EveryUndoClearsItsSlot | Hecaton_source/HecatonPass2.cpp:2546-2601 | every undo call of the body, whichever of several with its text it is, has the unset stamp of its outer's slot behind it |
| Passes.JumpsThenStamps | Hecaton_source/HecatonPass2.cpp:331-332 | with jumps inserted first, jumps stand before the stamps everywhere |
| Passes.TextConforms | Hecaton_source/HecatonPass2.cpp:325-332 | after the four insertions a location holds a jump iff it is one of the given places, and every location holds jumps and then exactly the plan's stamps |
| Passes.GenerateLines | Hecaton_source/HecatonPass2.cpp:1378-1443 | prepending block by block and then outer by outer gives the outers reversed, then the blocks reversed, each in its own order |
| Stamps.OrderListsAll | Hecaton_source/HecatonPass2.cpp:1378-1443 | the cleanup block has one line for every slot |
| Stamps.CleanupBySlot | Hecaton_source/HecatonPass2.cpp:1378-1443 | the lines are the guarded undos of the slots in the plan's order |
| Stamps.PlaceInside | Hecaton_source/HecatonPass2.cpp:1499-1521 | the cleanup block stands before the last return among the top-level statements, or at the end iff there is none |
| Stamps.EmitConforms | Hecaton_source/HecatonPass2.cpp:2518-2603 | every statement of the emitted code carries what its location holds |
| Passes.GeneratedConforms | Hecaton_source/HecatonPass2.cpp:325-341 | body and cleanup block of the generated function keep its plan; so does a body without any jump, which gets no cleanup block |
| Outers.MatchesAreTopmost | Hecaton_source/HecatonPass2.cpp:2072-2092 | the search for the pairs of a lock release finds exactly the topmost statements that take its lock, in traversal order |
| Pass2.Function.OuterPairRecursiveVisit | Hecaton_source/HecatonPass2.cpp:2072-2092 | the visit appends those matches to the pairs of one outer and changes no other |
| Pass2.Function.FindOuterEhcsPairs | Hecaton_source/HecatonPass2.cpp:1819-1837 | every `mutex_unlock`, `spin_unlock` and `spin_unlock_irqrestore` gets for pairs exactly the topmost statements that take its lock |
| Pass2.Function.Analyse | Hecaton_source/HecatonPass2.cpp:289-322 | the passes in order: outers merged, lock releases paired with the topmost matching lock calls, new statements settled, blocks those of the heads |
| Pass2.Function.Emplace | Hecaton_source/HecatonPass2.cpp:324-341 | the inserting passes in order: ids, text and cleanup lines of the plan, jumps at exactly the opening braces and surviving places; no cleanup block iff there is none |
| Pass2.Function.Instrument | Hecaton_source/HecatonPass2.cpp:289-341 | all passes: jumps stand exactly at the opening braces and surviving places, the generated function, with or without cleanup block, keeps a plan with one line per slot, every new undo has a slot or exactly one outer, and lock releases have the topmost matching lock calls for pairs |
| Pass2.Function.InstrumentClosing | Hecaton_source/HecatonPass2.cpp:333-341 | a closing function receives jumps only, at those same places |
| Score.FlagTallies | Hecaton_source/HecatonPass2.cpp:547-553 | a tally kept through the shared flag is the true count if and only if its phase is never taken up again |
| Score.PhasesTally | Hecaton_source/HecatonPass2.cpp:289-341 | the three phases in the generator's order all tally truly |
| Score.VisitFunctionPointers | Hecaton_source/HecatonPass2.cpp:530-563 | one event per matching pointer call anywhere in the body |
| Score.PointerCallsAre | Hecaton_source/HecatonPass2.cpp:530-563 | a call matches iff an arrow and a keyword stand in front of the first parenthesis of its text |
| Score.OuterSmssRecursiveVisit | Hecaton_source/HecatonPass2.cpp:2180-2224 | the visit collects the known calls of the body in traversal order, skipping names it already has |
| Score.EachIsFoundOnce | Hecaton_source/HecatonPass2.cpp:2180-2224 | every called function that the database knows is collected once, and no other |
| Score.ScoreMissingStatements | Hecaton_source/HecatonPass2.cpp:2225-2270 | one event per state-modifying name that shares no database index with an outer |
| Score.MissedAre | Hecaton_source/HecatonPass2.cpp:2225-2270 | the names missed are those of which no outer shares a database index |
| Score.AllVerifiedAre | Hecaton_source/HecatonPass2.cpp:1389-1403 | the statements counted are those of verified blocks that are not outer |
| Score.ScoreFunction | Hecaton_source/HecatonPass2.cpp:127-137 | from the body on, the overall score is 100 - 30 a - 10 b - 8 c less 0, 20 or 40 by the number of slots |
| Rename.IsValidVariable | Hecaton_source/HecatonPass1.cpp:750-780 | an occurrence is valid iff the text in front of it, spaces skipped, allows a name and no word character follows |
| Rename.RenameInLine | Hecaton_source/HecatonPass1.cpp:731-743 | the scan ends and renames word by word, although replacements lengthen the line |
| Rename.RenamesTokens | Hecaton_source/HecatonPass1.cpp:721-749 | the tokens of the line stay, except that the old name, whole, becomes the new one exactly where it may be a variable |
| Variables.TokensSpell | Hecaton_source/HecatonPass1.cpp:750-780 | the tokens of a line spell it: longest runs of letters, digits and underscores, and every other character on its own |
| Variables.RenamedWords | Hecaton_source/HecatonPass1.cpp:750-780 | word by word: the old name stays behind a word, a dot or an arrow, spaces skipped, and becomes the new name behind any other mark and behind nothing but spaces; every other word stays; at column 0 it depends on what is read in front of the line |
| Rename.RenameBack | Hecaton_source/HecatonPass1.cpp:721-749 | renaming to a name the line does not use and back gives the line again |
| Rename.RenameAgain | Hecaton_source/HecatonPass1.cpp:721-749 | renaming a second time changes nothing |
| Rename.ReplaceVariable | Hecaton_source/HecatonPass1.cpp:721-749 | the text is rebuilt line by line, lines that mention Hecaton as they are |
| Rename.TextRenamed | Hecaton_source/HecatonPass1.cpp:721-749 | the new text has the lines of the old one, each with its tokens kept or renamed |
| Hoist.Hoister.FncDeclVisit | Hecaton_source/HecatonPass1.cpp:342-389 | the top-level declared names, in order |
| Hoist.TopNamesAre | Hecaton_source/HecatonPass1.cpp:342-389 | they are the names declared by exactly the top-level declarations of the main file that can be rewritten |
| Hoist.Hoister.IsDuplicate | Hecaton_source/HecatonPass1.cpp:444-462 | the two search loops find a name iff it is declared at the top level or already hoisted |
| Hoist.Hoister.VarDeclVisit | Hecaton_source/HecatonPass1.cpp:390-512 | the recursive visit hoists the nested names in visiting order, whatever it started from |
| Hoist.NestedNamesAre | Hecaton_source/HecatonPass1.cpp:390-512 | the names are those of exactly the declarations below the top level with no opening brace in their text, inside no such declaration with one and nothing outside the main file |
| Hoist.Hoister.MoveVarDecl | Hecaton_source/HecatonPass1.cpp:316-331 | both visits over a function body |
| Hoist.EachIsHoisted | Hecaton_source/HecatonPass1.cpp:444-479 | every nested declaration is hoisted in order, under its own name iff no earlier declaration has it, else with the next number |
| Hoist.GeneratedInjective | Hecaton_source/HecatonPass1.cpp:466-471 | a generated name determines the name and the number it was made from |
| Hoist.DistinctExactly | Hecaton_source/HecatonPass1.cpp:444-479 | all names end distinct iff the top-level ones were and no generated name meets an earlier one |
| Hoist.HoistedNamesAreDistinct | Hecaton_source/HecatonPass1.cpp:390-512 | for any declaration tree with distinct top-level names, none of whose names could be generated from a nested one, all names end distinct |
| Hoist.RenamingCapturesNothing | Hecaton_source/HecatonPass1.cpp:666-749 | in a line that does not use the new name yet, renaming a hoisted variable can be taken back and is settled after one pass: no other variable is captured |
| Hoist.GeneratedNamesCanClash | Hecaton_source/HecatonPass1.cpp:466-471 | a source name of the generated form ends up declared twice |
| Prologue.FuncClass.FindSaved | scripts/parse_vmlinux.py:156-268 | the state machine leaves in every field the offset of the register among the recorded pushes, or 100 |
| Prologue.RecordedOffsets | scripts/parse_vmlinux.py:170-258 | at most five registers are recorded, in the order r15, r14, r13, r12, rbx, at -8, -16, ...; all others are marked not saved |
| Prologue.RecordedExactly | scripts/parse_vmlinux.py:170-258 | a push is recorded iff it is one of these registers and outranks every earlier push of the frame |
| Prologue.NoFrame | scripts/parse_vmlinux.py:174-178 | there is a frame iff the frame pointer is pushed |
| Prologue.FrameIs | scripts/parse_vmlinux.py:174-178 | the frame begins behind the first push of the frame pointer |
| Prologue.OffsetsAddressTheCells | scripts/parse_vmlinux.py:170-258 | every recorded offset addresses the cell that holds its register iff the pushes start with known registers in rising rank and no later push outranks them |
| Prologue.PlainPrologue | scripts/parse_vmlinux.py:170-258 | a prologue that saves only these registers, in rising rank, is recorded whole and meets that condition |
| Prologue.StrayPushMisplaces | scripts/parse_vmlinux.py:170-258 | one foreign push in between breaks it |

## Left out

- Passes.PairOne: without any candidate the source reads the first element of an empty list; the model leaves the pair
  as it was.
- Pass2.Function.Instrument: which statements a call that the database knows undoes is a parameter of the model
  (`FindOuterEhcsPairs`); the scoring of such pairs, with its driver-specific cases and a deduplication that compares
  only null statements, is not part of it. There is one rewriter per function: what is inserted into other functions of
  the file stands at other locations.
- Owing.JumpsSuffice: one direction only. The set of functions from which a fault can be reached includes functions that
  are not active when it strikes.
- LateJumps.LateFault: functions that call no instrumented function, one fault, at a statement and not in a condition.
- ErrorPaths.PassesKeepTheErrorPath: for blocks none of which is denied, and a mask that holds exactly the bits that
  block k speaks of.
- Pass2.Function.FindEhcStmts: asks that every goto head has a goto whose label stands in the body; without one the
  source reads an uninitialised pointer.
- Rename.ReplaceVariable: the surrounding loop over parents and the commented-out declaration text are not modelled, and
  no claim is made that every use is renamed: the one in `return x` is not, since the space is skipped back to a letter.
- Hoist.HoistedNamesAreDistinct: names only; types, initialisers and the inserted declaration text are not modelled.
- Transparency.InstrumentationIsTransparent: a statement calls at most one instrumented function, the first one in its
  text; further calls in the same statement, calls in conditions and calls in return expressions are single steps.
- The classification of branches into heads (`recursiveVisit_if`, `Visit_return`, `Visit_goto`) is input to the model.
- Clang's tree, source manager, lexer and rewriter: a tree of statements with locations, and appending at a location.
- List elements are values: two lists that share an element through a pointer do not see each other's changes. The
  source changes shared elements in the head types of the verdicts only, and blocks have one head each.
- `ehc->return_val` and the choice of the return statement by return type: the first is never used, the second is a
  table.
- The kernel's exception handler, faults inside the undo statements of a cleanup block and inside return expressions,
  `switch` and `do` statements, and concurrency between threads.
- Stamps for pairs inside a condition are placed as the source places them; what they mean at run time is not claimed
  beyond the location they stand at.
- Integer overflow of `score * 100` and of the counters; `isalnum` for characters outside ASCII.
- File, score and shell output, the path and build scripts, and the bug reproducers.
- In `parse_vmlinux.py`: the scan for function boundaries and the writing of the index arrays to a header; instructions
  other than pushes are taken not to move the stack pointer.
- Branches and loop bodies without braces, which the first pass leaves in macros, in `else if` chains (where they do no
  harm) and in loops whose `for` is not recognised in the text.
