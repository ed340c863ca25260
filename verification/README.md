# Verified model of the Kanagawa compiler's core algorithms

This project models, in Dafny, the algorithmic core of the Kanagawa hardware compiler: the integer branch-and-bound
optimiser, the if-conversion of local updates, the generic data-flow engine with its control flow graph, the
enumeration of function instances, the RAM allocator, the ordering of exported types, the writer of generated source,
and the bit-level lowering of selections and comparisons. `dafny verify dfyconfig.toml` checks everything.

Code that updates objects or loops over mutable variables is modelled by classes and methods. Each is proved against a
specification function or against the property it is for; lemmas about the specification then cover whole runs.

## Components

**Branch and bound** (`Word64.dfy`, `CompressedVector.dfy`, `SearchProblem.dfy`, `Frontiers.dfy`, `Search.dfy`,
`InteractionGraph.dfy`, `GraphWorkList.dfy`, `Separable.dfy`, `Histories.dfy`, `SparseDriver.dfy`, with
`Collections.dfy`). The bound callback is any function that satisfies the contract of the header comment
(`SoundBounds`): the lower bound is below every completion, the upper bound is not below the smallest completion, both
agree on complete vectors. A completed search is a minimiser, for every callback; each round strictly lowers the size of
the unexplored subtrees. The sets of vectors that the rounds go through are determined by the bounds (`Frontiers`), and
the search gives up exactly if one of them is larger than the limit. The sparse driver keeps its pending graphs
disjoint, non-empty and exactly the undecided parameters, and its history (`Histories`) tells what became of each part
and why. A vertex is cut off only from a part on which a search gives up, or that is not smaller than such a part (a sum
of ranges that wraps around to the largest number counts as too large). When bounds are sums over connected components,
every component that was solved in one piece is optimal in the result, even if others were cut; if nothing was cut the
result is a global minimum, and with a limit above the size of the whole search tree nothing ever is. The graph
library's component labels and articulation points are arbitrary functions within the library's contract.

**If-conversion** (`Ir.dfy`, `LocalUpdates*.dfy`, `IfConversion*.dfy`, `ConditionalLocalUpdates.dfy`,
`GenerateIr.dfy`). Programs with nested conditionals have a direct meaning (`Exec`) and a straight-line translation
(`Emit`). For every program whose cases exclude each other when reached, running the translation gives all visible
locals and all globals the values of the direct execution, predicates overwritten by a case body included.
`ConditionalLocalUpdates.dfy` holds the class; `GenerateIr.dfy` walks a program with one live object for each open
conditional, all registered in one context, and proves that what the nested objects leave behind is the translation,
so that the theorem is about the operations the objects emit. `LocalUpdatesLayout.dfy` lists what each call emits,
operation by operation; `IfConversionTracks.dfy` says, in terms of the program, what an object tracks and how many
selects a conditional is left with.

**Data flow** (`RegisterMaps.dfy`, `FlowEquations.dfy`, `FlowIteration.dfy`, `SilentBlocks.dfy`, `DataFlow.dfy`,
`DataFlowLimits.dfy`, `EntryBoundary.dfy`, `FlowMeaning.dfy`, `FifoEntries.dfy`, `Renaming.dfy`,
`ControlFlowGraph.dfy`). For monotone callbacks over a join semilattice of finite height, an injective renaming and an
entry to which nothing that it reaches leads back, the work-list loop ends for every pop order, and what it computes
bounds every consistent assignment from above. `SolutionMeans` spells the equations out, direction by direction. The
code compares a new map with a default, empty one (`pch.h:244-258`), so a first insertion of an empty map does *not*
count as a change. The result is therefore the greatest solution when information survives at every block somebody
listens to. A block that yields nothing whatever flows in is silent, and no run looks at a block that silent ones cut
off from the entry, so that such a block makes every order miss the solution (`CutOffIsMissed`). When every block
somebody listens to either yields something from nothing or is silent and cuts off a target, every order is right
exactly if there are none of the second kind (`SilentBlocksDecide`). `StartDecides` and `EmptyStartIsRight` say exactly
what an entry that yields nothing does. In between the order of the blocks may decide: `ForgottenBranchGoesUnnoticed` is
a run in which it makes the result unsound. The hypothesis on the entry is exact, too: a graph lets every analysis keep
what holds on entry to the function, in every run that ends, if and only if nothing the entry reaches leads back to it
(`BoundaryKeptExactly`). On every other graph there are monotone callbacks for which a run ends and every run that ends
claims too much at the entry. The graph built after pipelining satisfies the graph hypotheses
(`AcceptedGraphSuitsEngine`), and on it a value moves exactly between registers that some operations write and read at
the same place of the linking FIFO (`ForwardFollowsNames`, `BackwardFollowsNames`).

**Enumeration** (`CallGraph.dfy`, `EnumerationInvariants.dfy`, `Countdown.dfy`, `EnumerationTermination.dfy`,
`RecursionReports.dfy`, `PossibleReports.dfy`, `NeverReported.dfy`, `FirstCallers.dfy`, `EveryOrderReports.dfy`,
`Schedules.dfy`, `InstanceNumbers.dfy`, `FunctionEnumeration.dfy`, `UnreportedRecursion.dfy`). Calls to inline functions
always make new instances, one for each call (`ReachedAreRight`), and all instances of an inline function share one
ancestor set, which every new call overwrites. The enumeration nevertheless ends on every finite call graph. The measure
is a lexicographic order of token counts per ancestor-set size, turned into a number that bounds the remaining steps. A
recursion error is always true. Without an error, exactly the reachable functions were processed, called instances once;
a root is processed a second time when it is called after its first time, because roots are not in the visited set.

Not all recursion is reported, and the order in which instances leave the work list matters. Conditions on the call
graph and the roots say when:

- *Some* order reports recursion exactly if a straight chain of calls turns back (`ReportedExactlyIfTurningBack`): a
  chain from a root whose last function calls one on the chain, while no earlier function does, and on which an
  ordinary function is called by the one before it only.
- In particular *no* order reports recursion if every recursive call joins two different ordinary functions that
  *every* root calls and that are no roots (`CallsBetweenThemAreNeverReported`). `Mutual` is such a program; with a
  second root that calls only one of the two functions the recursion can be reported (`OneRootIsNotEnough`).
- A function can be processed, in *some* order, exactly if a clean chain leads to it, on which no function calls itself
  or one before it (`ProcessedExactlyIfClean`).
- *Every* order reports recursion exactly if there is no schedule (`FinishesExactlyIfScheduled`,
  `AlwaysReportedExactly`): a list of functions, an inline one once for every call to it by a function before it, an
  ordinary one once it is called, a root once more if it is called after it came, in which none calls itself or what
  it was given. An ordinary function is given the ancestors of its first caller on the list, an inline one those of
  the last before it.
- Without inline functions it is enough to look for an orderly list (`EveryOrderReportsExactly`): every reachable
  function once, a root or after one that calls it, such that none calls itself or an ancestor its first caller hands
  it. With inline functions, too, every order reports recursion when there is no orderly list (`FinishingNeedsList`).
- In particular every order reports recursion if a reachable function has no clean chain, or calls one that every
  chain to it passes through (itself included), or if a cycle of inline functions is reachable
  (`ReportedInParticular`). Conditions on single chains are not enough: in `Crossed` every function has a clean chain
  and none calls one that all chains to it pass through, yet whichever caller comes first, every order reports it
  (`FirstComeIsReported`).

So the order of processing decides exactly when a straight chain turns back and there is a schedule. `OrderDecides` is
such a program, with a cycle of one inline and one ordinary function.

**RAM allocation and exported types** (`MemoryComposition.dfy`, `RamPasses.dfy`, `RamAllocator.dfy`,
`ExportedTypes.dfy`). The used counts are at every step the sums over what is placed, the limits hold, nothing is placed
in a kind of RAM it must not use, and the loop ends where nothing can be moved any more. The whole run is the one the
queues prescribe: a pass gives everybody in LUT RAM one turn in the order of falling savings, then the first that fits
moves on to deep RAM, and so on until a round changes nothing. Division of two counts in floating point is a parameter.
The repeated passes over the exported types come to an end exactly when the types can be ordered. The result is then a
permutation in which everything waited for comes first, and each type comes out in the first pass that lets it.

**Generated source** (`SourceSections.dfy`, `SourceWriter.dfy`). Over every run of writes, pushes, pops and indentation
changes the active sections form a prefix of the stack, the output is well nested and every line is indented by the
sections around it; without a write nothing reaches the output. Each command opens, writes and closes exactly what it
should.

**Lowering** (`BitVectors.dfy`, `Lowering.dfy`, `SparseConcat.dfy`). Bit vectors are sequences of booleans, least
significant first. Comparisons are exact for all widths and signs, and for operands of one width at no smaller width
than the calculated one; the tree of two-way selections picks the indexed choice, and a sparse concatenation places
every field at its offset and zeros elsewhere.

## Model

| member | source | states |
|---|---|---|
| CompressedVector.ValidRangeExactly | compiler/cpp/branch_and_bound.cpp:47-77 | the ranges for which the shift of the mask is defined are exactly 1 to 2^63 |
| CompressedVector.Log2RoundUpIsLeast | compiler/cpp/branch_and_bound.cpp:49-50 | the bit count is the least that can hold every value of the range |
| CompressedVector.PackIsCodeBook | compiler/cpp/branch_and_bound.cpp:37-84 | every field fits in its word and fields of one word are disjoint |
| CompressedVector.PackingBound | compiler/cpp/branch_and_bound.cpp:43-81 | 65 * (words - 1) is at most twice the bits needed |
| CompressedVector.CreateCodeBook | compiler/cpp/branch_and_bound.cpp:37-84 | the loop builds a code book with these properties |
| CompressedVector.StoreRefinesUpdate | compiler/cpp/branch_and_bound.cpp:93-125 | storing one field updates one entry of the unpacked vector and no other |
| CompressedVector.PackedRefinesPlain | compiler/cpp/branch_and_bound.cpp:93-125 | any sequence of in-range stores gives what the same updates of a plain vector give |
| CompressedVector.CompressedIntegerVector.constructor | compiler/cpp/branch_and_bound.cpp:88-91 | a new packed vector holds zeros |
| CompressedVector.CompressedIntegerVector.Set | compiler/cpp/branch_and_bound.cpp:93-109 | the packed words change so that exactly one entry of the contents changes |
| CompressedVector.CompressedIntegerVector.Get | compiler/cpp/branch_and_bound.cpp:111-125 | reads the entry of the contents |
| CompressedVector.IntegerParameterVector.SetParameter | compiler/cpp/branch_and_bound.h:125-131 | defines one parameter and keeps the others |
| CompressedVector.IntegerParameterVector.GetParameter | compiler/cpp/branch_and_bound.h:107-114 | reads a defined parameter |
| CompressedVector.IntegerParameterVector.AllDefined | compiler/cpp/branch_and_bound.h:133-147 | true exactly if every parameter is defined |
| SearchProblem.LeafWithinUpper | compiler/cpp/branch_and_bound.h:30-41 | under the callback contract every region holds a complete vector within its upper bound |
| SearchProblem.BestSurvivesPruning | compiler/cpp/branch_and_bound.cpp:253-283 | an entry that leads to the minimum is above neither the lowest upper bound nor the minimum, so no pruning rule can drop it before the minimum is known |
| Search.SelectParameterToDefine | compiler/cpp/branch_and_bound.cpp:157-187 | picks the first undefined parameter to optimise that has the smallest range |
| Search.SortEntryKeepsBest | compiler/cpp/branch_and_bound.cpp:275-310 | handling one entry never loses the minimum |
| Search.SortWorkList | compiler/cpp/branch_and_bound.cpp:275-310 | a pass over the work list keeps a way to the minimum, puts every entry in the list it belongs to, and drops, finishes or selects an entry with the lowest lower bound |
| Search.RefiningKeepsRegion | compiler/cpp/branch_and_bound.cpp:312-351 | the children of an entry together cover what the entry covers |
| Search.RefineAll | compiler/cpp/branch_and_bound.cpp:312-353 | the result holds exactly the kept entries and all children of the refined ones, none twice; refining keeps a way to the minimum and strictly lowers the total subtree size |
| Search.Round | compiler/cpp/branch_and_bound.cpp:243-356 | every round replaces the surviving decisive vectors by their children and drops what the bounds rule out, nothing else, and strictly lowers the total weight of the work list |
| Search.IntegerBranchAndBoundImpl | compiler/cpp/branch_and_bound.cpp:136-376 | always ends; a completed search returns a vector least among all that agree with the fixed values; it gives up exactly if, with several parameters, one of the lists its rounds go through is longer than the limit; it finds nothing only if no value is below the largest number |
| Frontiers.FollowsOnce | compiler/cpp/branch_and_bound.cpp:243-356 | what a round makes of the open vectors and of the best value is determined by the bounds alone |
| Frontiers.FinishedStaysWithin | compiler/cpp/branch_and_bound.cpp:243-251 | a search that comes to its end within the limit is the only run there is, so no run outgrows it |
| Search.RoundFollows | compiler/cpp/branch_and_bound.cpp:253-356 | sorting and refining a list does to the set of its vectors what a round is defined to do |
| SearchProblem.MinimumExists | compiler/cpp/branch_and_bound.cpp:358-370 | every problem has a minimum, attained by a complete vector that agrees with the fixed values |
| Search.IntegerBranchAndBound | compiler/cpp/branch_and_bound.cpp:733-764 | without a limit the result is a global minimum, whenever one below the largest number exists |
| InteractionGraph.Subgraph | compiler/cpp/branch_and_bound.cpp:379-433 | the result is the induced subgraph on the chosen vertices |
| GraphWorkList.DecomposeConnectedComponents | compiler/cpp/branch_and_bound.cpp:436-457 | one induced subgraph for each label, in order; the parts are non-empty, disjoint, cover the graph and no edge joins two of them |
| GraphWorkList.SelectVertexToRemove | compiler/cpp/branch_and_bound.cpp:459-500 | the last of the vertices with the most edges among the articulation points, or among all if there are none |
| GraphWorkList.DegreeIsEdgesAt | compiler/cpp/branch_and_bound.cpp:481-497 | the degree is the number of edges that end at the vertex |
| GraphWorkList.RemoveVertex | compiler/cpp/branch_and_bound.cpp:503-519 | a graph of at least two vertices is split into the vertex and the rest, and the measure drops |
| Separable.SumSplits | compiler/cpp/branch_and_bound.cpp:542-731 | the bound of a union of whole components is the sum of the bounds |
| Separable.OptimumExtends | compiler/cpp/branch_and_bound.cpp:558-728 | optimising one part with earlier values fixed keeps all decided parts optimal |
| SparseDriver.BuildInteractionGraph | compiler/cpp/branch_and_bound.cpp:562-606 | the graph has an edge for exactly the interacting pairs |
| SparseDriver.WeightOfPart | compiler/cpp/branch_and_bound.cpp:661-687 | the search tree of a part is never larger than the whole one |
| SparseDriver.NoSolutionAnywhere | compiler/cpp/branch_and_bound.cpp:676-716 | if a part has no value below the largest number then no vector has |
| SparseDriver.IntegerBranchAndBoundSparse | compiler/cpp/branch_and_bound.cpp:542-731 | ends; its history says for every part whether it was decomposed, solved, cut because the search gives up on it, or cut without a search because it is not smaller than a part on which one gave up; every parameter is decided once, in range; without a cut and for separable bounds the result is a global minimum; an ample limit never cuts |
| SparseDriver.HappensNow | compiler/cpp/branch_and_bound.cpp:615-716 | one turn of the driver extends the history by the event that the sizes and the search decide |
| Histories.CutsAreJustified | compiler/cpp/branch_and_bound.cpp:661-716 | a vertex is cut off only from a part on which a search gives up, or that is not smaller than one on which an earlier search gave up; a sum of ranges that wraps around to the largest number counts as too large |
| Histories.SolvedWholeIsOptimal | compiler/cpp/branch_and_bound.cpp:610-728 | whatever was cut elsewhere, each share of a separable bound whose parameters were solved together is optimal in the final vector |
| Histories.RangeSumGrows | compiler/cpp/branch_and_bound.cpp:661-669 | the size of a part is the sum of the ranges of its parameters |
| LocalUpdatesEffect.EndSelects | compiler/cpp/conditional_local_updates.cpp:93-154 | after a case the selected value of a register it wrote is the new value if the case was taken, else the old one |
| LocalUpdatesEffect.EndRestores | compiler/cpp/conditional_local_updates.cpp:156-166 | after a case every register it wrote holds its backup again |
| LocalUpdatesEffect.BackupSaves | compiler/cpp/conditional_local_updates.cpp:193-229 | the spliced backups save every tracked register before the first case |
| LocalUpdatesFrame.NotifyAllOk | compiler/cpp/conditional_local_updates.cpp:175-230 | a notification to all open objects keeps them apart and makes each one that should track the register do so |
| IfConversionFrame.EmitConfined | compiler/cpp/conditional_local_updates.cpp:17-230 | emitted code writes only notified locals and registers of its own |
| LocalUpdatesLayout.BeginLayout | compiler/cpp/conditional_local_updates.cpp:54-87 | a case begins with a copy of its predicate, inverted if the case asks for it, and its conjunction with the enclosing one |
| LocalUpdatesLayout.EndLayout | compiler/cpp/conditional_local_updates.cpp:93-166 | a case ends with a select and a restoring copy for each register it wrote, in ascending order |
| LocalUpdatesLayout.WrittenRegisters | compiler/cpp/conditional_local_updates.cpp:93-104 | these are the registers that the case wrote, each once |
| LocalUpdatesLayout.SelectsRemembered | compiler/cpp/conditional_local_updates.cpp:116-125 | the position of each select is remembered in the first case, and in no other |
| LocalUpdatesLayout.SetCompleteLayout | compiler/cpp/conditional_local_updates.cpp:232-269 | exactly the remembered selects of the registers that all cases wrote become movs |
| LocalUpdatesLayout.BackupLayout | compiler/cpp/conditional_local_updates.cpp:193-229 | each tracked register is saved and initialises its selected value, in the order of the first writes |
| LocalUpdatesLayout.TrackedRegisters | compiler/cpp/conditional_local_updates.cpp:29-45 | the registers that get a value back are those that are tracked, each once |
| LocalUpdatesLayout.CopyLayout | compiler/cpp/conditional_local_updates.cpp:29-45 | each tracked register gets its selected value back, in ascending order |
| IfConversionComplete.SetCompleteIsReplaced | compiler/cpp/conditional_local_updates.cpp:232-269 | overwriting the recorded operations in place is the same as emitting movs for those registers in the first case |
| IfConversionTracks.TopTracks | compiler/cpp/conditional_local_updates.cpp:175-230 | the object of a conditional tracks a visible register exactly if some case assigns it, at any depth, and remembers exactly the cases that do |
| IfConversionTracks.AllWrittenExactly | compiler/cpp/conditional_local_updates.cpp:232-269 | a register counts as written by all cases exactly if there are cases and all of them assign it |
| IfConversionTracks.SelectsOfConditional | compiler/cpp/conditional_local_updates.cpp:89-269 | of the emitted operations as many select a value for a register as cases assign it, and one less exactly if the conditional is complete and all cases do |
| IfConversionProof.EmitDisabled | compiler/cpp/conditional_local_updates.cpp:17-230 | a nested conditional in a case that is not taken changes no global |
| IfConversionCorrect.CondCorrect | compiler/cpp/conditional_local_updates.cpp:17-269 | one conditional, with or without dropped selects, does what its taken case does |
| IfConversionCorrect.IfConversionPreservesMeaning | compiler/cpp/conditional_local_updates.cpp:17-230 | straight-line execution of the whole translation agrees with the branching execution |
| IfConversionCorrect.DroppingFirstSelectIsSafe | compiler/cpp/conditional_local_updates.cpp:232-269 | with one case taken, dropping the first selects leaves the final state unchanged |
| ConditionalLocalUpdates.IRContext.PushPredicate | compiler/cpp/ir.cpp:1991-2055 | emits the copy and the conjunction with the enclosing predicate |
| ConditionalLocalUpdates.ConditionalLocalUpdates.constructor | compiler/cpp/conditional_local_updates.cpp:6-15 | registers the object and remembers the end of the operation list |
| ConditionalLocalUpdates.ConditionalLocalUpdates.BeginCase | compiler/cpp/conditional_local_updates.cpp:54-87 | appends what the specification of the translation says |
| ConditionalLocalUpdates.ConditionalLocalUpdates.NotifyWrite | compiler/cpp/conditional_local_updates.cpp:175-230 | starts or updates tracking exactly for writes to variables of outer scopes |
| ConditionalLocalUpdates.ConditionalLocalUpdates.EndCase | compiler/cpp/conditional_local_updates.cpp:89-172 | appends the selects and restores, and remembers where the first selects are |
| ConditionalLocalUpdates.ConditionalLocalUpdates.SetComplete | compiler/cpp/conditional_local_updates.cpp:232-269 | overwrites exactly the recorded selects of registers all cases write |
| ConditionalLocalUpdates.ConditionalLocalUpdates.Destroy | compiler/cpp/conditional_local_updates.cpp:17-52 | splices the backups in at the recorded place and appends the final copies |
| GenerateIr.NotifyWrites | compiler/cpp/ir.cpp:4827-4837 | all registered objects hear of a write, the outermost first, and stay in order |
| GenerateIr.GenerateWithObject | compiler/cpp/ir.cpp:9494-9545 | the object of a conditional, created inside any number of open ones, leaves behind the conditional's translation and closes it |
| GenerateIr.GenerateProgram | compiler/cpp/ir.cpp:12214-12274 | walking a program with nested live objects appends exactly its translation and keeps every open object in order |
| GenerateIr.Generate | compiler/cpp/conditional_local_updates.cpp:6-269 | the operations the objects emit for a whole program, run in a straight line, agree with the branching execution for every start state |
| RegisterMaps.JoinIsGreatestLowerBound | compiler/cpp/data_flow_work_list.h:201-218 | joining maps by common registers is the greatest lower bound |
| RegisterMaps.RankDrops | compiler/cpp/data_flow_work_list.h:106-197 | a map can be weakened only finitely often |
| FlowEquations.GreatestSolutionIsUnique | compiler/cpp/data_flow_work_list.h:84-197 | two runs that end in the greatest solution agree, whatever their order |
| FlowEquations.InflowAdd | compiler/cpp/data_flow_work_list.h:114-161 | joining one more source keeps the greatest lower bound |
| FlowEquations.TranslationIsUnique | compiler/cpp/data_flow_work_list.h:69-82 | information moves exactly to the names in the successor going forward, and in the predecessor going backward |
| FlowEquations.TransferRuns | compiler/cpp/data_flow_work_list.h:160-171 | going forward the operations are visited first to last, going backward last to first |
| FlowMeaning.SolutionMeans | compiler/cpp/data_flow_work_list.h:84-197 | a solution holds, at every reachable block, what its operations make of the meet over its predecessors, or successors going backward |
| FlowIteration.TurnLowers | compiler/cpp/data_flow_work_list.h:106-197 | recomputing a processed block never strengthens its map |
| FlowIteration.TurnKeepsInvariant | compiler/cpp/data_flow_work_list.h:106-197 | every turn keeps reachability, descent and the bound by every consistent assignment |
| FlowIteration.TurnKeepsSettled | compiler/cpp/data_flow_work_list.h:179-196 | after a reported change only queued blocks can violate their equation |
| FlowIteration.SettledIsGreatest | compiler/cpp/data_flow_work_list.h:106-197 | with an empty queue the maps are the greatest solution on every reachable block |
| SilentBlocks.TurnKeepsOnlyTold | compiler/cpp/data_flow_work_list.h:179-196 | over every run only blocks that the entry reaches without a silent block are looked at, and silent blocks hold nothing |
| DataFlow.DataFlowWorkList.Pop | compiler/cpp/data_flow_work_list.cpp:18-27 | some queued block leaves the queue |
| DataFlow.DataFlowWorkList.AddSuccessors | compiler/cpp/data_flow_work_list.cpp:31-39 | all successors join the queue |
| DataFlow.DataFlowWorkList.AddPredecessors | compiler/cpp/data_flow_work_list.cpp:41-49 | all predecessors join the queue |
| DataFlow.DataFlowAnalysis.constructor | compiler/cpp/data_flow_work_list.h:84-197 | always ends; starts at the first block, or the last going backward; bounds every consistent assignment; greatest solution where information survives; looks only at blocks that no silent block cuts off, and stops at an entry that yields nothing |
| DataFlow.DataFlowAnalysis.Step | compiler/cpp/data_flow_work_list.h:106-197 | one turn recomputes a queued block; unless its map stays, or is a first and empty one, the successors are queued, or the predecessors going backward |
| DataFlow.DataFlowAnalysis.ComputeInflow | compiler/cpp/data_flow_work_list.h:110-161 | the inflow is the greatest lower bound over the processed sources |
| DataFlow.DataFlowAnalysis.TranslateRegisters | compiler/cpp/data_flow_work_list.h:125-143 | a value reaches exactly the register that the graph names in the successor going forward, in the predecessor going backward; registers without a name are dropped |
| DataFlow.DataFlowAnalysis.JoinRegToT | compiler/cpp/data_flow_work_list.h:202-218 | computes the join of two maps |
| DataFlow.DataFlowAnalysis.GetRegisterMap | compiler/cpp/data_flow_work_list.h:199-199 | an unprocessed block reads as empty |
| DataFlow.TurnComesCloser | compiler/cpp/data_flow_work_list.h:106-197 | every turn processes a new block, weakens a map or shortens the queue |
| DataFlowLimits.GeneratingIsInformative | compiler/cpp/pch.h:244-258 | it suffices that every block that is listened to yields something from nothing |
| DataFlowLimits.CutOffIsMissed | compiler/cpp/data_flow_work_list.h:179-196 | if silent blocks cut a reachable block off, no order of the blocks ends in a solution |
| DataFlowLimits.SilentBlocksDecide | compiler/cpp/pch.h:244-258 | when every block yields something from nothing or silently cuts off a target, the result is right exactly if there are none of the second kind |
| DataFlowLimits.StartDecides | compiler/cpp/data_flow_work_list.h:179-193 | if the other blocks yield something, the result is right exactly if the entry does too or has no targets |
| DataFlowLimits.EmptyStartIsRight | compiler/cpp/pch.h:244-258 | a run that stops at its entry reads as the greatest solution exactly if no reachable block yields anything |
| DataFlowLimits.ForgottenBranchGoesUnnoticed | compiler/cpp/data_flow_work_list.h:179-196 | a concrete order in which an empty first map leaves a wrong result |
| EntryBoundary.StartKeepsBoundary | compiler/cpp/data_flow_work_list.h:114-149 | if nothing the entry reaches leads back to it, every run that ends leaves the entry with what its operations make of nothing, for all callbacks |
| EntryBoundary.EveryRunForgets | compiler/cpp/data_flow_work_list.h:114-149 | on every graph whose entry can be reached again, monotone callbacks for which every run that ends claims too much at the entry |
| EntryBoundary.SomeRunEnds | compiler/cpp/data_flow_work_list.h:106-197 | and some run does end for them |
| EntryBoundary.BoundaryKeptExactly | compiler/cpp/data_flow_work_list.h:114-149 | a graph keeps what holds on entry, for all analyses and all runs that end, exactly if nothing the entry reaches leads back to it |
| EntryBoundary.EntryForgetsItsBoundary | compiler/cpp/data_flow_work_list.h:114-149 | an entry that is its own successor: a run ends, and every run that ends claims too much |
| Renaming.RenamingIsPartialInverse | compiler/cpp/control_flow_graph.cpp:294-340 | each register is related to at most one of the other block, in both directions |
| FifoEntries.ReadsAre | compiler/cpp/control_flow_graph.cpp:223-284 | exactly what a move from a FIFO reads, or a selecting read has among its sources, counts as read |
| FifoEntries.WritesAre | compiler/cpp/control_flow_graph.cpp:247-266 | exactly what a move into a FIFO writes counts as written |
| FifoEntries.LinksAre | compiler/cpp/control_flow_graph.cpp:205-220 | exactly the enqueues to blocks of the same function count as links |
| FifoEntries.AcceptableAsLists | compiler/cpp/control_flow_graph.cpp:218-264 | a key is inserted twice exactly if two of these share it |
| FifoEntries.AllOperationsListed | compiler/cpp/control_flow_graph.cpp:199-291 | the operations of all blocks are visited, block by block, in their order |
| Renaming.ControlFlowGraphPostPipeline.constructor | compiler/cpp/control_flow_graph.cpp:199-292 | building fails exactly if two reads or two writes of one FIFO share a register or an offset, or a block enqueues twice to another; otherwise all operations are in the tables |
| Renaming.ControlFlowGraphPostPipeline.RecordFifoRead | compiler/cpp/control_flow_graph.cpp:223-243 | enters a read in both tables, or fails if a key is there |
| Renaming.ControlFlowGraphPostPipeline.RenameLocalToPredecessor | compiler/cpp/control_flow_graph.cpp:294-331 | finds a register exactly if some operation writes it into the FIFO that links the blocks where some operation reads the given one, alone or as one of several sources |
| Renaming.ControlFlowGraphPostPipeline.RenameLocalToSuccessor | compiler/cpp/control_flow_graph.cpp:294-340 | the same in the other direction |
| ControlFlowGraphs.ControlFlowGraph.constructor | compiler/cpp/control_flow_graph.cpp:24-44 | successor and predecessor tables hold exactly the enqueues within the function |
| ControlFlowGraphs.AcceptedGraphSuitsEngine | compiler/cpp/control_flow_graph.cpp:199-340 | an accepted graph is consistent and its renaming injective, as the engine needs |
| ControlFlowGraphs.ForwardFollowsNames | compiler/cpp/data_flow_work_list.h:69-82 | forward, a value reaches exactly the register of the successor at the same place of the FIFO |
| ControlFlowGraphs.BackwardFollowsNames | compiler/cpp/data_flow_work_list.h:69-82 | backward, a value reaches exactly the register of the predecessor at the same place of the FIFO |
| EnumerationInvariants.ProcessKeepsInvariant | compiler/cpp/enumerate_function_instances.cpp:907-1020 | processing an instance keeps the accounts and ancestries, or meets a function that really calls itself |
| EnumerationInvariants.CallKeepsAccounted | compiler/cpp/enumerate_function_instances.cpp:1005-1013 | every instance stays due or processed the right number of times |
| Countdown.MeasureDrops | compiler/cpp/enumerate_function_instances.cpp:907-925 | lexicographic progress of token counts with bounded growth lowers a natural number |
| EnumerationTermination.LowLevelsOnlyLose | compiler/cpp/enumerate_function_instances.cpp:947-952 | overwriting shared ancestor sets adds nothing on the levels up to the processed one |
| EnumerationTermination.ProcessComesCloser | compiler/cpp/enumerate_function_instances.cpp:907-1020 | the bound on the remaining steps falls with every processed instance |
| RecursionReports.ProcessKeepsChained | compiler/cpp/enumerate_function_instances.cpp:907-1020 | over every run the ancestors of a pending function are exactly the functions of one straight chain to it, and what was processed has a clean chain |
| RecursionReports.CleanCallsAvoid | compiler/cpp/enumerate_function_instances.cpp:915-1013 | a function with a clean chain calls none that every chain to it passes through |
| PossibleReports.ProcessedExactlyIfClean | compiler/cpp/enumerate_function_instances.cpp:907-1020 | some order processes a function exactly if a clean chain leads to it |
| PossibleReports.ReportedExactlyIfTurningBack | compiler/cpp/enumerate_function_instances.cpp:841-866 | some order reports recursion exactly if a straight chain turns back |
| FirstCallers.FinishedIsOrderly | compiler/cpp/enumerate_function_instances.cpp:907-1020 | the functions in the order in which a run without an error first processed them are an orderly list |
| EveryOrderReports.FinishingNeedsList | compiler/cpp/enumerate_function_instances.cpp:841-866 | without an orderly list every order reports recursion, inline functions or not |
| EveryOrderReports.EveryOrderReportsExactly | compiler/cpp/enumerate_function_instances.cpp:841-866 | without inline functions every order reports recursion exactly if there is no orderly list |
| Schedules.StepMirrors | compiler/cpp/enumerate_function_instances.cpp:947-1013 | over every run, ancestors, visits and pending instances are what the list of the processed functions says, without any state |
| Schedules.PlayList | compiler/cpp/enumerate_function_instances.cpp:907-1020 | every playable list is the list of a run |
| Schedules.FinishesExactlyIfScheduled | compiler/cpp/enumerate_function_instances.cpp:841-1020 | for all programs, with inline functions or without, some order ends without an error exactly if there is a schedule |
| FunctionEnumeration.FunctionInstanceEnumerator.GetInlineInstanceIndex | compiler/cpp/enumerate_function_instances.cpp:527-535 | hands out the next number of the function |
| FunctionEnumeration.FunctionInstanceEnumerator.VisitCalls | compiler/cpp/enumerate_function_instances.cpp:954-1013 | visits the calls in order and fails exactly on a call to an ancestor |
| FunctionEnumeration.FunctionInstanceEnumerator.Enumerate | compiler/cpp/enumerate_function_instances.cpp:828-1063 | always ends; an error is a true recursion, at the end of a straight chain that turns back; it is raised in every order if there is no schedule; otherwise the enumeration is complete, and the instances are as many as the calls ask for |
| InstanceNumbers.ReachedAreRight | compiler/cpp/enumerate_function_instances.cpp:527-535 | over every run each call of an inline function has led to an instance of its own, numbered from zero without gaps, and the calls of another function to a single one |
| FunctionEnumeration.NoInlineCycle | compiler/cpp/enumerate_function_instances.cpp:841-866 | after success no cycle of inline functions is reachable |
| RecursionReports.CleanAfterSuccess | compiler/cpp/enumerate_function_instances.cpp:841-866 | after success every reachable function has a clean chain |
| FunctionEnumeration.AlwaysReportedExactly | compiler/cpp/enumerate_function_instances.cpp:841-866 | recursion is reported in every order exactly if there is no schedule |
| FunctionEnumeration.ReportedInParticular | compiler/cpp/enumerate_function_instances.cpp:841-866 | that is so if some reachable function has no clean chain or calls one that every chain to it passes through, if an inline cycle is reachable, or if there is no orderly list |
| FunctionEnumeration.NoCleanChainNoList | compiler/cpp/enumerate_function_instances.cpp:841-866 | a reachable function without a clean chain, or one that calls a function every chain to it passes through, leaves no orderly list |
| FunctionEnumeration.FinishedIsComplete | compiler/cpp/enumerate_function_instances.cpp:828-1063 | after success exactly the reachable functions were processed, the right number of times, in an orderly list, and none calls a function that every chain to it passes through |
| UnreportedRecursion.CycleThroughInlineGoesUnreported | compiler/cpp/enumerate_function_instances.cpp:947-984 | a concrete recursive program that is enumerated without an error |
| UnreportedRecursion.OrderDecides | compiler/cpp/enumerate_function_instances.cpp:947-984 | the same program is reported in one order and not in another |
| NeverReported.NeverAncestors | compiler/cpp/enumerate_function_instances.cpp:939-1013 | of two ordinary functions that every root calls and that are no roots, neither is ever an ancestor of the other, in any state of any run |
| NeverReported.CallsBetweenThemAreNeverReported | compiler/cpp/enumerate_function_instances.cpp:939-1013 | if all recursive calls join two such functions, no order reports recursion |
| UnreportedRecursion.MutualCallsAreNeverReported | compiler/cpp/enumerate_function_instances.cpp:954-1013 | a concrete program with one root whose recursion no order reports |
| UnreportedRecursion.OneRootIsNotEnough | compiler/cpp/enumerate_function_instances.cpp:954-1013 | a concrete program with two roots, one of which calls both functions, whose recursion some order reports |
| UnreportedRecursion.FirstComeIsReported | compiler/cpp/enumerate_function_instances.cpp:954-1013 | a concrete program whose recursion every order reports although every function has a clean chain and none calls one that all chains to it pass through |
| MemoryComposition.GetMemoryComposition | compiler/cpp/backend_common.h:443-506 | the first listed configuration with the fewest atoms; as many atoms across and deep as are needed and not one more; utilisation is the share of the bits asked for in the bits provided, in percent, rounded down, or 100 if no atom is needed |
| MemoryComposition.ComposeIsComposition | compiler/cpp/backend_common.h:466-497 | there is exactly one such composition for each configuration |
| MemoryComposition.ComposeCovers | compiler/cpp/backend_common.h:472-497 | the atoms cover the memory and utilisation is at most 100 percent |
| RamAllocator.MemoryOrFifo | compiler/cpp/compiler.cpp:704-830 | count and utilisation are those of the best composition for each kind it may use, and zero for the others; the rates are the quotients of the counts |
| RamAllocator.TotalMoves | compiler/cpp/compiler.cpp:975-1025 | moving an item shifts its needs from one account to the other |
| RamAllocator.Allocation.constructor | compiler/cpp/compiler.cpp:917-961 | everything starts in LUT RAM if it may, else in block RAM, queued by falling rate, and the accounts are right |
| RamAllocator.Allocation.MoveToBlock | compiler/cpp/compiler.cpp:972-996 | everybody in LUT RAM gets one turn, in order, and moves exactly if it fits what is used by then |
| RamAllocator.Allocation.MoveToDeep | compiler/cpp/compiler.cpp:998-1026 | exactly the first that fits moves |
| RamAllocator.Allocation.MapToRams | compiler/cpp/compiler.cpp:967-1027 | rounds of one pass and one move, until a round changes nothing; ends with right accounts, within the limits, where nothing can be moved |
| RamPasses.PassGoesOn | compiler/cpp/compiler.cpp:972-996 | one turn of the shrinking queue is the next turn of the pass |
| RamAllocator.MapMemoriesAndFifosToRams | compiler/cpp/compiler.cpp:897-1040 | the mapping is the end of such a run from the initial one; conservation, limits, allowed kinds and stability; memories with initial data or without output register, FIFOs and routers are never deep |
| ExportedTypes.VisitMoves | compiler/cpp/compiler.cpp:655-696 | a pass keeps order and members, and leaves only types that were not ready |
| ExportedTypes.OrderMeansOrderable | compiler/cpp/compiler.cpp:634-698 | whatever comes out in order had no circle |
| ExportedTypes.EndsExactlyIfOrderable | compiler/cpp/compiler.cpp:650-697 | the passes end exactly if the types can be ordered |
| ExportedTypes.SortExportedTypes | compiler/cpp/compiler.cpp:639-698 | a permutation in which every type that is no class follows the exportable types it mentions, and each comes out in the first pass that lets it |
| ExportedTypes.PassMoves | compiler/cpp/compiler.cpp:657-694 | a type that is ready comes out at its turn, and none could have come out in the pass before |
| ExportedTypes.ClassesWaitForNobody | compiler/cpp/compiler.cpp:682-685 | a class comes out in the first pass |
| SourceSections.RunsStayValid | compiler/cpp/backend_common.h:83-160 | over every run: active prefix, right indentation and line number, nested output |
| SourceSections.PrintedNests | compiler/cpp/backend_common.cpp:1812-1835 | printed opening and closing strings nest although empty closings are silent |
| SourceSections.PushPopIsSilent | compiler/cpp/backend_common.h:112-127 | pushing and popping without a write restores the writer completely |
| SourceSections.NoWriteNoOutput | compiler/cpp/backend_common.h:112-147 | any pushes and pops without a write leave the output unchanged |
| SourceSections.CloseAndRestart | compiler/cpp/backend_common.cpp:1850-1861 | the top section is closed and comes back inactive with the rest of the stack unchanged |
| SourceSections.CommandsDo | compiler/cpp/backend_common.h:83-147 | every command opens, writes and closes exactly what it should, in every valid state |
| SourceWriters.SourceWriter.Str | compiler/cpp/backend_common.h:83-104 | opens exactly what is not open yet, from the bottom, then writes the text |
| SourceWriters.SourceWriter.PopAutoSection | compiler/cpp/backend_common.h:115-127 | closes, from the top, and removes everything down to and including the top section with a closing string |
| SourceWriters.SourceWriter.PopAutoSectionUntilNonEmptyClose | compiler/cpp/backend_common.h:131-146 | closes, from the top, and removes everything above the top section with a closing string |
| SourceWriters.SourceWriter.GetTopNonEmptySection | compiler/cpp/backend_common.h:149-160 | finds the top section with a closing string |
| BitVectors.SameNumberSameBits | compiler/cpp/circt_util.cpp:743-752 | at one width, equal numbers are equal vectors, signed or not |
| Lowering.AdjustedValue | compiler/cpp/circt_util.cpp:935-968 | extension keeps the number, truncation keeps it modulo a power of two |
| Lowering.ComparisonIsExact | compiler/cpp/backend_common.cpp:1863-1875 | the lowered comparison of any two operands is the comparison of the integers |
| Lowering.ExtraBitIsNeeded | compiler/cpp/backend_common.cpp:1872-1872 | with different signs and no extra bit all ones compare equal to all ones, at every width |
| Lowering.LeastExactWidth | compiler/cpp/backend_common.cpp:1863-1875 | for operands of one width the calculated width is the least at which all comparisons are right |
| Lowering.MuxTree | compiler/cpp/circt_util.cpp:885-932 | the result is the choice the index names |
| Lowering.HalvedOnce | compiler/cpp/circt_util.cpp:912-927 | one level of selections decides one more bit of the index |
| SparseConcatenation.SparseConcat.Flush | compiler/cpp/circt_util.cpp:980-1024 | every field lies at its offset, all other bits are zero, the width is right |

## Left out

- Search.IntegerBranchAndBoundImpl: the work list holds parameter vectors as values; that packed vectors behave like them is proved separately. Refinement is a sequential append, not a thread pool, and the separate call with `isOptimalPoint` is not made.
- DataFlow.DataFlowAnalysis.constructor: the condition under which every order gives the greatest solution is necessary only where a block that may yield nothing is silent and cuts off a target; for a block that yields nothing for some inflows only, it depends on the order whether it meets one of these first.
- DataFlow.DataFlowAnalysis.TranslateRegisters: that no two registers get one name is a hypothesis, proved for the graph after pipelining; a collision is an error in the program.
- ConditionalLocalUpdates.ConditionalLocalUpdates.Destroy: insertion points are positions in the operation list, not iterators into linked lists and basic blocks; a conditional lies within one block.
- ConditionalLocalUpdates.ConditionalLocalUpdates.EndCase: the `PredicatedIgnore` hints are not emitted; they belong to clock gating, which the configuration rejects.
- MemoryComposition.GetMemoryComposition: the products of atom counts and of utilisation are unbounded integers where the source uses size_t, so wrap-around for memories of astronomic size is not modelled.
- GenerateIr.Generate: how a statement of the language becomes conditionals is not modelled beyond the calls on the objects; expressions are functions of registers.
- FunctionEnumeration.FunctionInstanceEnumerator.Enumerate: the calls of an instance depend only on the function and its object or references; edges from operators, static local objects and callbacks are not part of the model, nor is the parse tree.
- PossibleReports.ReportedExactlyIfTurningBack: "some order" means some choice of the next instance at every step, where the source always takes the least one by sequence number, instance index and object name; which choices such numbers can produce is not characterised.
- PossibleReports.ProcessedExactlyIfClean: "some order" has the same meaning.
- Schedules.FinishesExactlyIfScheduled: "some order" and "every order" mean some and every choice of the next instance; the source takes one of them.
- EveryOrderReports.EveryOrderReportsExactly: "every order" has the same meaning.
- RamAllocator.MapMemoriesAndFifosToRams: division in floating point is any function of the two counts to the real numbers, so infinities and rounding are whatever it says; counts are unbounded integers.
- SourceWriters.SourceWriter.Str: the indentation is an unbounded integer, so an excess of unindentation does not wrap around; the printed text is not a character stream but a list of lines with their indentation.
- Renaming before pipelining, whose tables come from renaming passes outside these files.
- Clock gating as an instance of the data-flow engine: what can be ignored has no definition in these files.
- Everything that builds circuit objects beyond the bits of selection, extension, extraction, concatenation and comparison.
- Reachability of functions after the enumeration, a plain graph search.
