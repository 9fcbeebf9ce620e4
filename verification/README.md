# Verified model of the folding and minimisation commands

This project models three parts of the ext-folding extension of ABC and proves what they promise.

**MeMin**, exact minimisation of incompletely specified Mealy machines (`memin/`). The pipeline prunes
unreachable states, marks incompatible pairs of states, splits overlapping input cubes into a disjoint
alphabet, finds a clique, writes "a closed cover with n classes exists" as a formula, raises n until
the formula is satisfiable and decodes the model. The main result, `Minimizer.MeMin`, says that the
machine returned reproduces every specified output of the given one on every input sequence, and that
no machine with fewer states does. It calls the solver below, so nothing is assumed of it. Files: `Cubes`,
`PackedCubes`, `Mealy`, `Prune`, `Incompat`, `Alphabet`, `Split`, `Cover`, `Cnf`, `Dimacs`, `CnfBuilder`,
`MachineBuilder`, `Minimizer`, with `Options` and `FiniteSets` shared by several.

**The solver it calls**, the MiniSat 2.2 core (`memin/minisat/`): clause addition, two-watched-literal
propagation with blockers, first-UIP analysis with both minimisations, backjumping, restarts, database
reduction, simplification, the order heap and the copying collector. `SatSolver.Solver` is a class with
the source's fields and methods; its invariant is stated on snapshots in `SatState` to `SatCollect`.
The main results are `SatSolver.Solver.Solve` and `SatLink.SolveFormula`: a model satisfies every clause
ever added, "unsatisfiable" is never wrong, through any sequence of restarts, reductions,
simplifications and collections, and without a budget there is always an answer. The last part rests on
`SatProgress`: every conflict moves the trail forward in a well-founded order, so that a search has a
bounded number of conflicts, and the restart limits grow beyond every bound. Which clause is learnt is
stated exactly, by `SatSolver.Solver.Analyze`. Files: `OrderHeap`, `Sat*`.

**Circuit folding.** `stru_fold` (`timeMux4/`, with the timer of `timeMux3/`) turns a combinational
and-inverter graph into a sequential one with a one-hot timer: `StruFoldRun.AigStrMux` proves that its
unrolling is the original for both kinds of latches, and which latches there are and what they load. The scheduler of `func_fold` (`timeMux2/reord.cpp`)
assigns outputs and inputs to frames causally, in every configuration that schedules: `ReordPins.ReordIO`. `time_cas` adds resets to a
time-expanded circuit: `TimeCas.TimeCas`. `nat_enc` compiles a state table to latches and covers:
`NatEnc.NatEnc` and `NatEnc.RunFollows`. Files: `Frames`, `Aig`, `FoldSpec`, `StruFold`, `FoldStore`,
`FoldWaits`, `FoldLedger`, `FoldOutputs`, `StruFoldRun`, `Reord`, `ReordPins`, `TimeCas`, `NatEnc`.

Three places where the code does something its callers may not expect are stated as they are:

- The scheduler's attempt is never legal when there is no output (`Reord.TryPO`): the flag is set only
  when the last output has been placed. `Reord.SchedulePO` and `ReordPins.ReordIO` ask for an output.
- `nat_enc` needs the reset state to occur in some row (`NatEnc.NatEnc`): otherwise the string of
  initial values is empty and is read past its end. The model returns no circuit in that case.
- In `buildMachine` the exit "No successor class found" is skipped when the last class does not hold the
  first successor. `MachineBuilder.FindSuccessorClass` derives the class from closure instead.

What the commands demand of their input is stated as preconditions: cubes of one table have equal
length (`Mealy.WellFormed`), the transitions of a state have disjoint inputs, the inputs and outputs of
an expanded circuit are multiples of the frame count, and gates have two different fanins.

## Model

| member | source | states |
|---|---|---|
| PackedCubes.FromString | memin/IncSpecSeq.h:44-73 | the packed words read back, position by position, as the characters of the string; any character but 0 and 1 is a don't-care; the flag says whether there is none |
| PackedCubes.ToString | memin/IncSpecSeq.h:180-192 | the string has, at every position, the character of the cube's digit there |
| PackedCubes.RoundTrip | memin/IncSpecSeq.h:44-73 | printing a cube and reading it back gives the identical words, so the packing is canonical |
| PackedCubes.IsCompatibleMeans | memin/IncSpecSeq.h:76-84 | the masked word comparison holds iff no position is specified differently in both cubes; isDisjoint is its negation, for any length, including a partly used last word |
| PackedCubes.IsSubsetMeans | memin/IncSpecSeq.h:148-156 | isSubset on words is inclusion of the cubes |
| PackedCubes.EqualsMeans | memin/IncSpecSeq.h:168-178 | equal words iff equal cubes |
| PackedCubes.IntersectWith | memin/IncSpecSeq.h:88-106 | the word-wise OR represents the cube intersection |
| PackedCubes.DiffWith | memin/IncSpecSeq.h:119-144 | the bit-by-bit loop produces, in order, representations of the pieces of the cube difference |
| Cubes.DisjointMeansNoCommonWord | memin/IncSpecSeq.h:109-115 | isDisjoint iff no input word lies in both cubes |
| Cubes.SubsetMeansInclusion | memin/IncSpecSeq.h:148-156 | isSubset iff every word of the one is a word of the other |
| Cubes.IntersectMeansBoth | memin/IncSpecSeq.h:88-106 | the intersection of overlapping cubes has exactly the common words |
| Cubes.DiffWords | memin/IncSpecSeq.h:119-144 | for overlapping cubes the pieces of diff hold exactly the words of the one that are not in the other |
| Cubes.DiffFromDisjoint | memin/IncSpecSeq.h:119-144 | the pieces of diff are pairwise disjoint |
| Cubes.DiffFromLoses | memin/IncSpecSeq.h:119-144 | diff removes at least one word: the pieces weigh strictly less than the cube, which is why the worklist ends |
| InputAlphabet.QueueInputs | memin/minimizer.cpp:492-505 | the queue holds exactly the inputs of the selected states, and the flag is set if one of them has a don't-care |
| InputAlphabet.StepSplit | memin/minimizer.cpp:533-563 | replacing an overlapping member by intersection and difference, with the rest of the current cube queued, keeps the worklist invariant |
| InputAlphabet.StepInside | memin/minimizer.cpp:541-546 | when the member lies inside the current cube, queueing only the rest keeps the invariant |
| InputAlphabet.StepFresh | memin/minimizer.cpp:567-569 | a cube that overlaps no member may become a member |
| InputAlphabet.InvDone | memin/minimizer.cpp:520-570 | with an empty queue the members are pairwise disjoint and every original input is exactly a union of members |
| InputAlphabet.SplitOverlaps | memin/minimizer.cpp:520-570 | the worklist loop terminates (the queued words strictly decrease) and ends with such an alphabet |
| InputAlphabet.FullInputsAlphabet | memin/minimizer.cpp:507-518 | inputs without don't-cares are already an alphabet, as the shortcut assumes |
| InputAlphabet.GetDisjointInputSet | memin/minimizer.cpp:472-577 | for every set of states: pairwise disjoint cubes, each original input exactly a union of members |
| Incompat.ComputePredecessorMap | memin/minimizer.cpp:281-292 | a state is listed under a target and input iff it has that transition |
| Incompat.IncompatibleBackwards | memin/minimizer.cpp:309-318 | predecessors of an incompatible pair on overlapping inputs are incompatible |
| Incompat.AiIsRowMajor | memin/DIMACSWriter.h:40-43 | the matrix index, defined here without multiplication, is the source's x * ySize + y |
| Incompat.PropagateIncompStates | memin/minimizer.cpp:294-322 | the recursion terminates, marks only incompatible pairs, keeps every mark, and leaves the pair's predecessor pairs marked and closed in turn |
| Incompat.PropagatePair | memin/minimizer.cpp:309-318 | one predecessor pair: skipped if marked, else marked in both orders and propagated |
| Incompat.MarksComplete | memin/minimizer.cpp:324-363 | by induction on the input sequence: a pair that some sequence tells apart is marked |
| Mealy.DistinguishedByOutputs | memin/minimizer.cpp:341-350 | outputs of one machine always have equal length, so two runs tell states apart exactly when both are defined and their output cubes are disjoint |
| Incompat.ComputeIncompMatrix | memin/minimizer.cpp:324-363 | the final matrix is symmetric and a pair is marked iff some input sequence, defined from both states, ends in conflicting output bits |
| Prune.MarkReachable | memin/minimizer.cpp:224-244 | the worklist marks exactly the states reachable from reset |
| Prune.FillSlot | memin/minimizer.cpp:259-264 | filling a gap from the last reachable row and popping a single slot keeps the compaction invariant |
| Prune.CutSlots | memin/minimizer.cpp:265-267 | when no reachable row lies above the gap, the machine is cut exactly there |
| Prune.Compact | memin/minimizer.cpp:246-268 | the compaction loop ends with the reachable rows only, each once, and the matching renaming |
| Prune.RemoveUnreachableStates | memin/minimizer.cpp:223-279 | the result is the reachable part, renamed by an injective map, with transitions and reset renamed consistently |
| Prune.RenamedRuns | memin/minimizer.cpp:223-279 | every run of the pruned machine has the outputs of the original run from the renamed state |
| Prune.RenamedAllReachable | memin/minimizer.cpp:223-279 | every state of the pruned machine is reachable in it |
| Split.GetTransitivelyCompatibleStates | memin/minimizer.cpp:367-402 | the classes partition the states, each closed under compatibility and connected by it |
| Split.FillColumns | memin/minimizer.cpp:442-460 | a transition fills its own column if its cube is one, else exactly the columns inside its cube |
| Split.ColumnRepeats | memin/minimizer.cpp:442-460 | a filled column repeats the transition its words take |
| Split.ColumnExists | memin/minimizer.cpp:442-460 | every word of a transition lies in a filled column |
| Split.RowsAligned | memin/minimizer.cpp:404-463 | two rows over one alphabet never use different columns for the same word |
| Split.SplitTransitions | memin/minimizer.cpp:405-463 | the table agrees word for word with every state's transitions, and compatible states use the same columns |
| Cover.FindPairwiseIncStates | memin/minimizer.cpp:598-621 | the greedy clique: pairwise incompatible states, each with at least as many incompatible states as any other that is incompatible with all the ones before it, until no further state is |
| Cover.CountIsSize | memin/minimizer.cpp:599-606 | the count by which the states are sorted is the number of states incompatible with them |
| Cover.PlaceClique | memin/minimizer.cpp:160-171 | any closed cover can be permuted so that clique state i lies in class i; so fixing them loses no cover, and a cover has at least as many classes as the clique |
| Cover.SwapKeepsCover | memin/DIMACSWriter.cpp:142-147 | permuting two classes keeps a closed cover |
| Cover.SingletonsCover | memin/minimizer.cpp:160-219 | one class per state is a closed cover, so the loop over sizes ends |
| Dimacs.ComputeReducedInputAlphabet | memin/DIMACSWriter.cpp:13-67 | every input's successor column is that of exactly one kept input, whatever the hash values |
| Dimacs.ModelCloses | memin/DIMACSWriter.cpp:200-253 | in a model the successors of a class on a kept input share a class |
| Dimacs.ModelCompatible | memin/DIMACSWriter.cpp:168-189 | in a model no class holds two incompatible states |
| Dimacs.ModelRespectsClique | memin/DIMACSWriter.cpp:142-177 | in a model no state sits in the class of a clique state it contradicts, though such literals are left out of the clauses |
| Dimacs.ModelIsCover | memin/DIMACSWriter.cpp:124-253 | the classes of any model form a closed cover, for all inputs and not only the kept ones |
| Dimacs.CoverSatisfies | memin/DIMACSWriter.cpp:124-253 | a closed cover with the clique in place makes a literal of every emitted clause true |
| Dimacs.CoverIsModel | memin/DIMACSWriter.cpp:124-253 | such a cover gives a model of the emitted formula |
| Dimacs.EncodingExact | memin/DIMACSWriter.cpp:124-270 | the formula for n classes is satisfiable iff a closed cover by n classes of pairwise compatible states exists |
| Dimacs.EncodingProper | memin/DIMACSWriter.cpp:73-110 | no literal of the formula is 0: it is one that the solver accepts |
| CnfBuilder.Writer.GetStateLiteral | memin/DIMACSWriter.cpp:73-84 | the literal of a state and class, allocated on first use and never shared with another variable; every number given earlier is kept, so later calls return the same |
| CnfBuilder.Writer.GetAuxLiteral | memin/DIMACSWriter.cpp:86-96 | the auxiliary literal of the current round, never shared with a state literal or another round; every number given earlier is kept |
| CnfBuilder.Writer.ClearAux | memin/DIMACSWriter.cpp:205-208 | resetting the auxiliary map starts a round with unused literals; earlier rounds keep theirs |
| CnfBuilder.Writer.EmitFixes | memin/DIMACSWriter.cpp:142-147 | adds exactly the unit clauses of the clique |
| CnfBuilder.Writer.EmitSomeClass | memin/DIMACSWriter.cpp:159-166 | adds exactly one clause per state, in the order of the states |
| CnfBuilder.Writer.EmitForbids | memin/DIMACSWriter.cpp:168-177 | adds exactly the negative units of states that contradict a clique state |
| CnfBuilder.Writer.EmitExcludes | memin/DIMACSWriter.cpp:179-189 | adds exactly the exclusion clauses of incompatible pairs |
| CnfBuilder.Writer.PossibleSuccClasses | memin/DIMACSWriter.cpp:209-226 | the classes marked are exactly those that can take a successor, and lie within the computed range |
| CnfBuilder.Writer.EmitAuxOr | memin/DIMACSWriter.cpp:228-236 | the auxiliary clause lists exactly the possible classes; nothing is emitted when there is none |
| CnfBuilder.Writer.EmitRound | memin/DIMACSWriter.cpp:204-252 | one round adds exactly the auxiliary clause and its implications |
| CnfBuilder.Writer.LiteralMap | memin/DIMACSWriter.cpp:258-269 | the map names the state and class of each state literal and (-1, -1) for auxiliary ones |
| CnfBuilder.BuildCNF | memin/DIMACSWriter.cpp:124-270 | the formula consists of exactly the required clauses over pairwise different literals, and the map decodes its models |
| MachineBuilder.DecodeClasses | memin/MachineBuilder.cpp:14-35 | member lists and flags are the classes the model describes; a reset class is found iff the reset state is in some class |
| MachineBuilder.MeetStep | memin/MachineBuilder.cpp:55-62 | pairwise compatible outputs stay compatible with their running intersection, so folding never conflicts |
| MachineBuilder.GatherSuccessors | memin/MachineBuilder.cpp:45-65 | the successors of a class on an input and the intersection of its outputs |
| MachineBuilder.FindSuccessorClass | memin/MachineBuilder.cpp:69-96 | if some class holds all successors the loop finds the first one, also when the exit for a missing class is skipped |
| MachineBuilder.BuildMachine | memin/MachineBuilder.cpp:13-99 | for every closed compatible cover: each entry leads to a class holding all successors, with exactly the output bits its members specify |
| Minimizer.ClassStep | memin/MachineBuilder.cpp:37-98 | one step of a class follows each member into a class that holds its successor, with the member's specified outputs |
| Minimizer.ClassCoversMember | memin/MachineBuilder.cpp:37-98 | by induction on the input sequence, each class reproduces every specified output bit of every member state |
| Minimizer.CoveringMachineIsCover | memin/minimizer.cpp:160-219 | any machine that covers all states yields a closed cover with one class per state of that machine |
| Minimizer.CoveringResetCoversAll | memin/minimizer.cpp:160-219 | covering the reset state covers every state reachable from it, so pruning first loses no smaller machine |
| Minimizer.UnsatBound | memin/minimizer.cpp:160-219 | an unsatisfiable formula for n classes rules out covers with n classes, and n stays below the number of states |
| Minimizer.FindMinimalCover | memin/minimizer.cpp:154-219 | the size loop ends with a closed cover that has as few classes as any, whatever the options of the command and of the solver it calls |
| Minimizer.MeMin | memin/minimizer.cpp:70-221 | with the modelled solver inside: the command always ends, the returned machine covers the input machine on every input sequence defined there, and no machine with fewer states does |
| OrderHeap.Heap.PercolateUp | memin/minisat/mtl/Heap.h:44-57 | restores heap order and the two-way inverse of heap and indices, same elements |
| OrderHeap.Heap.PercolateDown | memin/minisat/mtl/Heap.h:60-72 | restores heap order from a position on, same elements |
| OrderHeap.Heap.Insert | memin/minisat/mtl/Heap.h:99-107 | adds exactly the new element, order and inverse kept |
| OrderHeap.Heap.RemoveMin | memin/minisat/mtl/Heap.h:110-119 | removes an element of highest activity, order and inverse kept |
| OrderHeap.Heap.Build | memin/minisat/mtl/Heap.h:123-134 | the heap holds exactly the given elements, in heap order |
| OrderHeap.Heap.Bump | memin/minisat/core/Solver.h:285-298 | the activity grows by the increment, all are rescaled when it has become too large, and the heap stays in order with the same elements |
| OrderHeap.RootFirst | memin/minisat/mtl/Heap.h:110-119 | in heap order no element precedes the root |
| SatState.LitEncoding | memin/minisat/core/SolverTypes.h:58-67 | the integer code of a literal and its inverse; negation flips the lowest bit |
| SatTrail.EnqueueInv | memin/minisat/core/Solver.cpp:429-435 | enqueueing an unassigned literal with a justified reason keeps the solver invariant |
| SatTrail.CancelInv | memin/minisat/core/Solver.cpp:207-218 | backtracking keeps the invariant, and what is left on the trail has been propagated |
| SatTrail.PhaseSet | memin/minisat/core/Solver.cpp:211-212 | the phase of an undone variable becomes the sign of its literal where the mode asks for it |
| SatTrail.PhaseKept | memin/minisat/core/Solver.cpp:211-212 | every other phase stays |
| SatTrail.CancelProp | memin/minisat/core/Solver.cpp:207-218 | the watch condition survives backtracking although no watch is moved |
| SatWatch.MoveInv | memin/minisat/core/Solver.cpp:482-487 | moving a watch to another literal keeps the invariant: each clause is in exactly the lists of its first two literals |
| SatWatch.UnitStep | memin/minisat/core/Solver.cpp:489-498 | propagating the first literal of a unit clause keeps the invariant, with the other literals false earlier on the trail |
| SatWatch.ScanDone | memin/minisat/core/Solver.cpp:455-503 | after its list has been scanned a literal counts as propagated |
| SatSteps.ConflictFound | memin/minisat/core/Solver.cpp:491-496 | a conflict clause is false in every literal and has one of the current level; the rest of the list is kept |
| SatWhole.Propagated | memin/minisat/core/Solver.cpp:449-508 | at the fixpoint no live clause is false, and none has all but one literal false and no true one |
| SatDb.AttachInv0 | memin/minisat/core/Solver.cpp:162-168 | attaching an entailed clause keeps everything but the propagated part |
| SatDb.LearnInv | memin/minisat/core/Solver.cpp:636-640 | attaching an asserting learnt clause and enqueueing its first literal keeps the invariant and what has been propagated |
| SatDb.ReducedEntailed | memin/minisat/core/Solver.cpp:137-145 | the literals left by the filter form a clause entailed by the added clauses |
| SatDb.AddAttached | memin/minisat/core/Solver.cpp:152-156 | the filtered clause may stand for the added one |
| SatDb.RemoveInv | memin/minisat/core/Solver.cpp:188-195 | removing a clause with lazy detaching keeps the invariant, if it is learnt or satisfied at level 0 and not needed as a reason above it |
| SatDb.RootConflict | memin/minisat/core/Solver.cpp:627 | a conflict at level 0 means that the added clauses have no model |
| SatDb.FullModel | memin/minisat/core/Solver.cpp:784-787 | a full propagated assignment satisfies every clause ever added, also those simplified, dropped or removed |
| SatAnalyze.Resolve | memin/minisat/core/Solver.cpp:274-301 | replacing a variable by the rest of its reason keeps the collected assignments contradictory |
| SatAnalyze.KeptForce | memin/minisat/core/Solver.cpp:361-387 | by induction along the trail, the literals kept by the minimisation force all that were seen |
| SatAnalyze.LearntAsserts | memin/minisat/core/Solver.cpp:629-640 | after backtracking to the computed level the learnt clause is unit on its first literal |
| SatCuts.FoundMember | memin/minisat/core/Solver.cpp:274-301 | a variable is found down to a position of the trail iff it is above level 0 and stands in the conflict clause or in the reason of a found literal further up |
| SatCuts.UipReached | memin/minisat/core/Solver.cpp:296-301 | when the counter is down to zero the literal just taken is a unique implication point: of what has been found no other literal of the current level is left |
| SatCuts.BumpedNext | memin/minisat/core/Solver.h:285-294 | every found variable is bumped by the same increment, up to the common factor of the rescaling |
| SatLearn.MinimisedEntails | memin/minisat/core/Solver.cpp:304-336 | the minimised clause is entailed by the added clauses |
| SatRedundant.StuckBlocks | memin/minisat/core/Solver.cpp:371-381 | where the search meets a literal without a reason or of a foreign level, a chain of reasons over unmarked literals leads there from the literal under test |
| SatRedundant.ClosedFree | memin/minisat/core/Solver.cpp:364-386 | when all marks are explained no such chain exists, so the test is exact |
| SatRedundant.BlockedSame | memin/minisat/core/Solver.cpp:361-387 | marks left by earlier successful tests do not change the outcome of later ones |
| SatRedundant.StayingMember | memin/minisat/core/Solver.cpp:304-331 | the minimised clause has exactly the literals whose test failed |
| SatSearch.SortRefsOrdered | memin/minisat/core/Solver.cpp:519-530 | the sorted learnt clauses: binary ones last, the longer ones by rising activity |
| SatSearch.ThinningStep | memin/minisat/core/Solver.cpp:533-539 | deciding about one clause: of the lower half all go but binary and locked ones, and no binary or locked one ever goes |
| SatCollect.RelocatedClauses | memin/minisat/core/Solver.cpp:876-923 | after a collection the new region holds the live clauses, each once and unchanged, and no others; shared references stay shared and different ones different |
| SatGc.MoveOld | memin/minisat/core/SolverTypes.h:234-240 | the forwarding address written over the first literal is read back as the clause's new place |
| SatGc.GcInv | memin/minisat/core/Solver.cpp:876-910 | renaming every reference keeps the solver invariant |
| SatSolver.Solver.NewVar | memin/minisat/core/Solver.cpp:114-129 | one variable more, unassigned, with the given phase and decision flag and no activity, in the heap if it is a decision variable; also after a contradiction has been found |
| SatSolver.Solver.AddClause | memin/minisat/core/Solver.cpp:132-159 | the clause counts as added whichever branch is taken; a false return means that the added clauses are contradictory |
| SatSolver.Solver.AttachClause | memin/minisat/core/Solver.cpp:162-168 | each of the first two literals gets a watcher with the other one as blocker |
| SatSolver.Solver.UncheckedEnqueue | memin/minisat/core/Solver.cpp:429-435 | value, reason, level and trail after the assignment |
| SatSolver.Solver.Clean | memin/minisat/core/SolverTypes.h:299-309 | the list loses exactly the watchers of removed clauses, in place |
| SatSolver.Solver.CleanAll | memin/minisat/core/SolverTypes.h:288-296 | afterwards no list is dirty and only dirty lists have changed |
| SatSolver.Solver.VisitWatcher | memin/minisat/core/Solver.cpp:461-501 | one watcher: kept, moved, propagated or in conflict, with the list compacted in place |
| SatSolver.Solver.Propagate | memin/minisat/core/Solver.cpp:449-508 | terminates with an empty queue: either everything is propagated or the returned clause is false with a literal of the current level |
| SatSolver.Solver.CancelUntil | memin/minisat/core/Solver.cpp:207-218 | the trail is cut at the level and exactly the assignments above are undone; a variable that loses its value keeps as phase the value it had, in mode 2 always, in mode 1 on the last level only, in mode 0 never, and no other phase changes; unassigned decision variables are back in the heap, the rest stays propagated |
| SatSolver.Solver.FirstUip | memin/minisat/core/Solver.cpp:274-302 | stops at the first unique implication point, with exactly the found literals of lower levels in the order in which they are found, and with every found variable bumped once |
| SatSolver.Solver.LitRedundant | memin/minisat/core/Solver.cpp:361-387 | true iff no chain of reasons over unmarked literals above level 0 leads from the literal to one without a reason or of a level whose residue is not given; if true the literal is forced by the others, if false every mark made on the way is taken back |
| SatSolver.Solver.AbstractLevels | memin/minisat/core/Solver.cpp:309-311 | the residues modulo 32 of exactly the levels of the clause |
| SatSolver.Solver.Minimise | memin/minisat/core/Solver.cpp:304-336 | for every mode the dropped literals are forced by the ones kept, and a literal is kept, in order, iff its test failed: the exact one of mode 2, the one-step one of mode 1, none otherwise |
| SatSolver.Solver.Analyze | memin/minisat/core/Solver.cpp:264-356 | the learnt clause is entailed and false, and it is exactly: the negated first unique implication point, then the found literals of lower levels but for those the minimisation drops, with the first of the highest level exchanged with the one at index 1; that level is returned, all marks are cleared and every found variable is bumped once |
| SatSolver.Solver.Learn | memin/minisat/core/Solver.cpp:629-640 | the trail is cut at the level returned and gets the clause's first literal, with the clause, newly attached and learnt, as its reason, or without one for a unit clause; the invariant holds on the lower level |
| SatSolver.Solver.OnConflict | memin/minisat/core/Solver.cpp:622-640 | a conflict above level 0 ends on a lower level with the first literal of exactly the learnt clause on top of the trail and the clause added unless it is a unit, and the trail further on in the well-founded order |
| SatSolver.Solver.RemoveClause | memin/minisat/core/Solver.cpp:188-195 | the clause is marked, its two lists become dirty, a locked clause is no longer a reason |
| SatSolver.Solver.RemoveSatisfied | memin/minisat/core/Solver.cpp:545-556 | the list is compacted in order to exactly the clauses without a true literal |
| SatSolver.Solver.ReduceLearnts | memin/minisat/core/Solver.cpp:525-540 | with the learnt clauses sorted, binary ones last and the longer ones by rising activity, the lower half goes except binary and locked ones, no binary or locked clause goes, the others stay in order |
| SatSolver.Solver.ReduceDb | memin/minisat/core/Solver.cpp:525-542 | removing learnt clauses and collecting garbage keeps the invariant at any level |
| SatSolver.Solver.DropSatisfied | memin/minisat/core/Solver.cpp:587-590 | both lists keep exactly their unsatisfied clauses, in order |
| SatSolver.Solver.RebuildOrderHeap | memin/minisat/core/Solver.cpp:559-566 | the heap holds exactly the unassigned decision variables |
| SatSolver.Solver.Simplify | memin/minisat/core/Solver.cpp:577-598 | keeps the invariant; the answer is false iff the added clauses are known to be contradictory, also when they were before |
| SatSolver.Solver.Reloc | memin/minisat/core/SolverTypes.h:234-248 | the reference becomes the place of the one copy of its clause, made on first sight |
| SatSolver.Solver.RelocReason | memin/minisat/core/Solver.cpp:893-898 | the reason of every trail literal is rewritten: it is locked or has been moved before |
| SatSolver.Solver.GarbageCollect | memin/minisat/core/Solver.cpp:876-923 | watch lists are cleaned, then every watcher, reason and listed clause is renamed alike; nothing else changes, and the region shrinks by exactly the wasted words |
| SatSolver.Solver.CheckGarbage | memin/minisat/core/Solver.h:304-307 | afterwards at most the allowed fraction of the region is wasted; nothing changes if that was so before |
| SatRegion.Apart | memin/minisat/mtl/Alloc.h:109-126 | every clause lies inside the region, and no word belongs to two clauses |
| SatRegion.WordOwner | memin/minisat/mtl/Alloc.h:109-126 | every word of the region belongs to some clause |
| SatRegion.Allocated | memin/minisat/mtl/Alloc.h:109-126 | a new clause starts where the region ended; no other clause moves |
| SatRegion.ForwardedInPlace | memin/minisat/core/SolverTypes.h:171-173 | writing a forwarding address leaves every clause where it is |
| SatRegion.Freed | memin/minisat/core/SolverTypes.h:228-232 | removing a live clause adds exactly its words to the wasted ones; no clause moves |
| SatRegion.CollectedSize | memin/minisat/core/Solver.cpp:912-923 | after a collection the region is exactly as large as the estimate it was started with, the old size less the wasted words, and wastes nothing |
| SatRegion.LiveApart | memin/minisat/core/Solver.cpp:876-923 | two live clauses share no word, neither before the collection nor after it, and keep their sizes |
| SatSolver.Solver.PickBranchLit | memin/minisat/core/Solver.cpp:225-244 | an unassigned decision variable, the most active one unless a random one was drawn, with its saved phase unless polarities are random; none only if all decision variables are assigned |
| SatSolver.Solver.Search | memin/minisat/core/Solver.cpp:614-705 | l_True: everything propagated and all decision variables assigned; l_False: no model; l_Undef: a limit was reached and the solver is back at level 0. With n variables it ends after at most n (n + 1)^n + 1 conflicts, even without a limit |
| SatProgress.ConflictAdvances | memin/minisat/core/Solver.cpp:623-640 | backjumping and enqueueing the learnt literal moves the trail forward: one literal on the lower level outweighs all that is taken back |
| SatProgress.DecisionAdvances | memin/minisat/core/Solver.cpp:700-703 | a decision opens a level and loses nothing |
| SatProgress.RankFits | memin/minisat/core/Solver.cpp:614-705 | no trail over n variables outweighs the bound, which limits the conflicts between two restarts |
| SatProgress.Luby | memin/minisat/core/Solver.cpp:734-750 | the loops end, and the factor is the restart base to the exponent that every long enough finite Luby sequence (twice the one before, and one more) has at this index |
| SatProgress.FirstLimit | memin/minisat/core/Solver.cpp:774-775 | search 0 is allowed restart_first conflicts |
| SatProgress.GeometricLimit | memin/minisat/core/Solver.cpp:774-775 | without the Luby sequence search i is allowed restart_first times the i-th power of the base, rounded down |
| SatProgress.LubyLimit | memin/minisat/core/Solver.cpp:774-775 | with it the exponent is the entry at i of any long enough Luby sequence |
| SatProgress.LimitsGrow | memin/minisat/core/Solver.cpp:771-778 | for both schedules some search is allowed more conflicts than any given bound |
| SatSolver.Solver.Restarts | memin/minisat/core/Solver.cpp:771-778 | the restart loop ends, with an answer unless the budget is used up or there was an interrupt |
| SatSolver.Solver.Solve | memin/minisat/core/Solver.cpp:754-793 | always ends. l_True: the saved model falsifies no clause ever added, and satisfies all if all variables are decision variables; l_False: the clauses have no model; l_Undef only if the budget is used up or there was an interrupt |
| SatLink.SolveFormula | memin/minimizer.cpp:170-199 | a fresh solver with any options, given a formula literal by literal and clause by clause, always answers, and the answer is right for the formula |
| SatLink.AddLiteral | memin/DIMACSWriter.cpp:98-108 | variables up to that of the literal are created on first use, all of them decision variables |
| SatLink.AddOne | memin/DIMACSWriter.cpp:110-118 | the finished clause is among those the solver has to satisfy |
| FoldSpec.TimerRuns | timeMux3/aigMux3.cpp:14-29 | at frame t exactly latch t of the ring is set, for every input |
| FoldSpec.StatePrefix | timeMux4/aigMux4.cpp:252-266 | logic and latches added later leave all latch values up to the current frame as they were |
| FoldSpec.TakenIsHeld | timeMux4/aigMux4.cpp:96-122 | what a latch takes in one frame its output carries in the next |
| StruFold.GateCopy | timeMux4/aigMux4.cpp:50-94 | the copy of a gate whose fanins are live carries the gate's value in this frame |
| StruFold.VisitFull | timeMux4/aigMux4.cpp:50-94 | on its second fanin a half-ready gate is built, queued and taken out of the map |
| FoldStore.StoreHoldOk | timeMux4/aigMux4.cpp:96-122 | a new hold-mux latch takes the object in its frame and keeps it afterwards, disturbing nothing earlier |
| FoldStore.StoreMoreOk | timeMux4/aigMux4.cpp:124-147 | a reused latch takes the new object in its frame without changing what it held in earlier frames |
| FoldStore.NextFrameLive | timeMux4/aigMux4.cpp:96-200 | once every waiting fanin is stored, all of them are live in the next frame |
| FoldWaits.WaitingIs | timeMux4/aigMux4.cpp:50-94 | when the stack is empty the half-ready map holds exactly the objects that have arrived and are a fanin of a gate whose other fanin has not |
| FoldWaits.FirstWait | timeMux4/aigMux4.cpp:96-122 | an object that waits at all waits from the frame on in which the last input of its cone arrives |
| FoldLedger.HeldNext | timeMux4/aigMux4.cpp:96-122 | one more hold-mux latch: it takes its object in the frame of arrival and holds it in all other frames, as all latches before it do |
| FoldLedger.LoadsNext | timeMux4/aigMux4.cpp:149-200 | at the end of a frame every reused latch takes a waiting object or reads false, and every waiting object is taken |
| FoldLedger.CountNext | timeMux4/aigMux4.cpp:165-167 | a reused latch is added only when all others hold waiting objects, so their number is the largest number that wait in one frame |
| FoldLedger.HeldFinal | timeMux4/aigMux4.cpp:96-122 | in the finished network the hold-mux latches are in one-to-one correspondence with the objects that ever wait |
| FoldOutputs.PinShows | timeMux4/aigMux4.cpp:210-236 | the pin of an output shows the original output in its frame |
| FoldOutputs.BuildDone | timeMux4/aigMux4.cpp:210-236 | all outputs are shown, at different places, and unused places are constant false |
| StruFoldRun.Folder.ProcessQue | timeMux4/aigMux4.cpp:50-94 | the work stack empties; every object taken from it has had all its fanouts visited, and none is taken twice |
| StruFoldRun.Folder.StoreInLats | timeMux4/aigMux4.cpp:96-122 | every half-ready fanin is stored, in whatever order the map is walked, and exactly those that arrive in this frame get new latches |
| StruFoldRun.Folder.StoreInLats2 | timeMux4/aigMux4.cpp:149-200 | the same with reused latches: used ones keep their object, the others go to free latches and only then to new ones |
| StruFoldRun.EverythingDone | timeMux4/aigMux4.cpp:252-270 | after the last frame every object is expanded, every output recorded and no AND is half ready |
| StruFoldRun.Folder.BuildPoFuncs | timeMux4/aigMux4.cpp:210-236 | pins, multiplexed by the timer, and oPerm for all recorded outputs, each in the frame in which it arrives; as many pins as outputs arrive in one frame |
| StruFoldRun.AigStrMux | timeMux4/aigMux4.cpp:278-309 | for every circuit, frame count and input vector, and both kinds of latches: output k appears in frame oPerm[k] / nPo at pin oPerm[k] % nPo, which is the frame in which its last input arrives; oPerm is injective, unused places are false, outputs of one frame keep their order. Besides the timer, without mff one latch for each object that ever waits, which it takes in its frame and holds in all others; with mff as many as wait in the fullest frame, each reading false unless it takes a waiting object |
| Reord.SortIdx | timeMux2/reord.cpp:55-58 | a permutation of the outputs in increasing order of their number of inputs |
| Reord.FrameForFits | timeMux2/reord.cpp:84-86 | the computed frame is one by whose end enough inputs have been read, and lies below T whenever some frame does |
| Reord.PlaceOutput | timeMux2/reord.cpp:79-103 | the output goes to its next slot in a frame with enough inputs; the attempt is given up iff that wastes more slots than there are to spare; ct1 * nPo + ct2 = wasted slots + placed outputs throughout |
| Reord.SlotLeft | timeMux2/reord.cpp:80 | the assertion at the head of the loop holds |
| Reord.TryPO | timeMux2/reord.cpp:70-108 | legal iff there is an output and every one finds a slot; then each has exactly one slot, in sorted order and in time. Without outputs an attempt is never legal |
| Reord.SchedulePO | timeMux2/reord.cpp:53-115 | the loop stops with the first number of pins from the lower bound on that is legal, at most the number of outputs; oPerm gives every output, in the order of the support sizes, its first slot behind those before it |
| ReordPins.CheckPerm | timeMux2/reord.cpp:9-27 | true iff all values are in range and none is repeated |
| ReordPins.SchedulePI | timeMux2/reord.cpp:226-268 | iPerm is a permutation that lists, frame by frame, the inputs first needed there, in increasing order within each frame, the unneeded ones last, in increasing order too; the group sizes are returned |
| ReordPins.GroupedIsCausal | timeMux2/reord.cpp:226-268 | then an output in frame t depends only on inputs at positions below (t + 1) * nPi |
| ReordPins.RangeReordering | timeMux2/reord.cpp:271-297 | any reordering within the groups keeps that |
| ReordPins.ReordGroups | timeMux2/reord.cpp:271-284 | reordering group after group, each within its own levels, the inputs of every group stay the same and the check that none has left its range succeeds |
| ReordPins.NewPins | timeMux2/reord.cpp:161-169 | neither assertion on the new inputs of an output fails, and the row marks exactly their pins |
| ReordPins.FirstReads | timeMux2/reord.cpp:152-170 | the count of earlier inputs asserted in every frame is right, and the rows mark, for every slot, exactly the pins its output reads first in its frame |
| ReordPins.OrderInputs | timeMux2/reord.cpp:226-303 | in every configuration the final order is causal and iPerm is its inverse; configurations 0 and 2 reorder the ascending groups that are not empty one after the other, the others leave them ascending |
| ReordPins.SwapCausal | timeMux2/reord.cpp:199-202 | exchanging two outputs of one frame keeps causality |
| ReordPins.ReordPO | timeMux2/reord.cpp:145-208 | whatever the scores, the first pass succeeds, outputs and rows stay together, outputs stay in their frames and those of frame 0 in place, the result is causal and oPerm is right again |
| ReordPins.ReordIO | timeMux2/reord.cpp:305-327 | in every scheduled configuration every output stands in a frame by whose end all its inputs have been read; the number of pins is the first from the lower bound on for which the greedy placement succeeds; every output has its greedy slot, or in configurations 0 and 1 the frame of it; the inputs are ascending within their groups, or in configurations 0 and 2 reordered group by group |
| TimeCas.LastResetIs | timeFold/timeCas.cpp:85-107 | the start frame is 0 or follows a reset, and no reset lies between it and the frame shown |
| TimeCas.Offset | timeFold/timeCas.cpp:92 | (2T - j + 1) * j / 2 is the sum T + (T - 1) + ... of j blocks |
| TimeCas.BlocksApart | timeFold/timeCas.cpp:92-93 | two outputs of copies never share a place in the output vector |
| TimeCas.GateCopied | timeFold/timeCas.cpp:71-73 | the copy of a gate computes the gate on the inputs the copy sees |
| TimeCas.AimInputs | timeFold/timeCas.cpp:61-69 | input j of the copy started at frame t reads the same pin t frames later; later inputs keep what an earlier copy read |
| TimeCas.SeenIsRestart | timeFold/timeCas.cpp:60-79 | in the frames it reaches, a copy sees the original's inputs from its start frame on |
| TimeCas.OutputShows | timeFold/timeCas.cpp:75-77 | for a causal circuit those outputs are the original's, although later inputs are stale |
| TimeCas.BuildCopies | timeFold/timeCas.cpp:57-80 | the output vector holds T blocks of decreasing length, each entry showing its copy's output |
| TimeCas.ChooseNext | timeFold/timeCas.cpp:98-99 | one multiplexer moves the choice from the resets before frame j to those before j + 1 |
| TimeCas.ChooseBlock | timeFold/timeCas.cpp:90-99 | the triangular offset selects the block of the start frame and stays in bounds |
| TimeCas.TimeCas | timeFold/timeCas.cpp:9-113 | for every causal circuit, output k of frame t is the original's output in a run restarted at the frame after the latest reset before t |
| NatEnc.NamesListed | misc/natEnc.cpp:59-76 | the list holds exactly the states that some row mentions |
| NatEnc.NamesOnce | misc/natEnc.cpp:65-76 | no state is listed twice |
| NatEnc.NamesInOrder | misc/natEnc.cpp:65-76 | the states are listed in the order in which the table first mentions them |
| NatEnc.ToBinary | misc/natEnc.cpp:17-26 | the binary digits of the number, padded to the width when it fits; read back they give the number |
| NatEnc.CountBits | misc/natEnc.cpp:90-99 | the number of digits of the largest code, one for a single or no state |
| NatEnc.CodesDiffer | misc/natEnc.cpp:102-104 | every code fills the width exactly, and equal codes mean equal states |
| NatEnc.CodeIsPosition | misc/natEnc.cpp:102-104 | a code is the position of its state in the list, in binary |
| NatEnc.WidthIsLeast | misc/natEnc.cpp:90-99 | the width is the least with which all states can be told apart, and at least one |
| NatEnc.FilledIs | misc/natEnc.cpp:80-83 | a don't-care output becomes 1 iff dcVal is set, else 0, and every other character stays |
| NatEnc.CoverMeans | misc/natEnc.cpp:143-182 | a finished cover is true exactly where a listed row applies, also when it was empty and became a line of dashes |
| NatEnc.NextCover | misc/natEnc.cpp:143-182 | the cover of a next-state bit lists exactly the rows whose next state has it |
| NatEnc.OutCover | misc/natEnc.cpp:186-213 | the cover of an output lists exactly the rows where it is 1 after filling |
| NatEnc.NatEnc | misc/natEnc.cpp:29-216 | from the code of any state, for any table: each next-state and output bit is the union over the rows that apply; latches start at the reset code. Without the reset state in the table there are no initial values |
| NatEnc.RunFollows | misc/natEnc.cpp:132-213 | along every run of specified transitions of a deterministic table the latches hold the code of the current state, and output i is 1 iff the row's character is 1, or is a don't-care and dcVal is set |
| NatEnc.Unspecified | misc/natEnc.cpp:132-213 | where no row applies the outputs are 0 and the circuit goes to the state listed first |

## Left out

- SatSolver.Solver.Solve: solving under assumptions, `analyzeFinal`, the propagation budget and an interrupt in the middle of a call are not modelled.
- SatSolver.Solver.PickBranchLit: whether a decision is random is an arbitrary choice, so every random sequence is covered.
- SatSolver.Solver.ReduceDb: the limit on the number of learnt clauses is an arbitrary choice at every fixpoint.
- SatSolver.Solver.GarbageCollect: a reference is the number of the allocation; `SatRegion` relates it to word offsets. The growth of the capacity and the 32-bit overflow of the region are not modelled.
- SatProgress.LimitsGrow: restart limits are computed with real numbers, without the rounding of doubles or the overflow of int.
- OrderHeap.Heap.Bump: activities are real numbers.
- ReordPins.ReordIO: the BDD package is a parameter that reorders the levels of a range in any way; configurations 4 to 8, orders made by hand for experiments, are left out.
- Statistics and verbose output of the solver.
- SatSolver.Solver.Simplify: whether there is anything new to gain is an arbitrary choice instead of a comparison of counters.
- SatSolver.Solver.ReduceLearnts: whether an activity lies below the extra limit is an arbitrary choice; clause activities, their decay and rescaling are not modelled.
- Reord.SchedulePO: the frame of an output uses exact integer ceilings instead of float division.
- ReordPins.ReordPO: the score that picks the output to exchange is arbitrary.
- StruFoldRun.AigStrMux: structural hashing, complemented-pointer tricks and cleanup of the AIG package are not modelled; an AND is a new node.
- TimeCas.TimeCas: names of pins are not modelled.
- NatEnc.NatEnc: the state table is given as rows; reading KISS and writing BLIF text is left out.
- InputAlphabet.GetDisjointInputSet: members are values, so a cube met twice through different pointers is one member; the cached full-specification flag of derived cubes is not kept.
- Cover.FindPairwiseIncStates: sorting is an insertion sort with the same comparison.
- Dimacs.ComputeReducedInputAlphabet: hash values are unbounded integers, since only equality of columns decides.
- PackedCubes.FromString: a word is a sequence of 32 binary digits; `lastMask` and the ordering of cubes are left out.
- `*` as a present state, file formats, temporary files, loggers, option parsing and the ABC command layer.
- Folding on BDDs (`timeFold/bddFold.cpp`, `timeMux/`, `utils/stg.cpp`): its meaning rests on library code that is not part of this model.
- The naive fold of `timeMux3/aigMux3.cpp`, of which only the timer is modelled, and `misc/oneHotEnc.cpp`, which depends on the BLIF reader.
