# The control-flow structurizer, verified

This project models the part of dxil-spirv that turns an arbitrary control-flow graph of blocks with PHIs, operations
and terminators into one that SPIR-V accepts, and proves what its analyses compute and what its rewrites keep. Two
smaller components stand beside it: the argument list of `Operation`, and the scalar layout of physical types.

* **Analyses.** `graphs`, `lists`, `dominance` and `dfs` hold the definitions: walks, dominance and post-dominance by
  walks, depth-first numbering as a function of the graph. `nodepool` is the block pool; nodes are indices into it and
  the fields of `CFGNode` are its columns. `traversal`, `flowgraph`, `backwards`, `dominators`, `frontiers`, `bits`,
  `reachability`, `pathquery`, `loops`, `funnels` and `mergequery` are the passes and queries over it, `analysis` runs
  all passes in the order of `recompute_cfg`, and `analysisfacts` says what they give for one block.
* **Programs.** `ir` says what running a function's blocks means, for any machine: every block enters by its PHIs,
  runs its operations and takes a branch. `blockpool` is the pool of blocks while they are rewritten.
* **Rewrites of values.** `tailsplit`, `ssa`, `splitting`, `eliminate`, `duplicate`: splitting a block into one copy
  per predecessor. `demote`, `demotepass`: demotion of broken values to variables. `sinking`, `sinkpass`, `sinkflags`,
  `sinkbooks`, `sinkrun`, `sinkwalk`, `sinkconstructs`, `sinkcharts`, `sinkexact`: sinking a value into the one block
  that reads it. `preservation` joins each rewrite to the statement about runs.
* **Rewrites of control flow.** `rewiring`, `gates`, `collect`, `dispatch`, `anchor`, `hoist`, `backedges`,
  `backedgepass`: dispatchers, switch branches tested in advance, and merged back edges.
* **Interlocks.** `rov`, `cycles`, `rovruns`, `rovchoice`, `rovloops`, `rovregion`, `rovaccept`, `rovpass`,
  `rovinloop`: one begin and one end for the raster-ordered accesses of a shader.
* **Beside the structurizer.** `operation` and `layout`.

Three conditions hold where they are named. Where post-dominance is used, no live block ends in a back edge alone, so
that every block reaches a leaf; the analyses of the forward graph, the tracing of loops and the query with an ignored
break do without. Where loop headers are looked up, loops are reducible. Where back edges are merged, and in reducible
graphs, nothing branches to the entry block: LLVM functions are of that form.

Four properties of the code hold under conditions that it does not check:

* Sinking. An operation can be moved past everything but barriers, and the dependency flag is set on every opcode that
  is neither control dependent nor has a side effect, loads among them. `SinkExact.SafeIffCalm` is the exact condition
  on a machine and its movable opcodes: no legal sequence of moves changes a run of any function if and only if
  movable opcodes have no effect of their own and no opcode but the barriers disturbs them. For one function it is
  enough that nothing that is passed on the way disturbs what may sink (`SinkConstructs.CalmFunction`), and under this
  condition `SinkConstructs.SinkSsaConstructs` keeps every run and every use. `SinkExact.SinkTheLoad` runs the pass on
  a flagged access chain, a load through it and a store: the load goes past the store, and by
  `SinkExact.LoadPastStore` the result changes.
* Widening the interlock of a function with loops. `RovChoice.Accepts` names, in terms of the function as it comes,
  the block that takes the lock and the block that releases it; there is at most one such pair, and the pass succeeds
  if and only if there is one. Then every run locks exactly once if and only if the releasing block is on no cycle.
  `find_single_entry_exit_lock_region` looks for loops around the first end of the region only:
  `RovInLoop.LockTheLoop` runs the pass on a function with an access before a loop and one in it, whose region ends in
  the loop, so that some run releases the lock twice. Functions without loops have no such block.
* Merging with an ignored break. The result is the first block that all ways from the candidates come through, where a
  way is a walk past the ignored block that cannot go on. If ways that end in a block that only branches back are not
  counted, as the comment in the code suggests, an earlier block may qualify: `Funnels.PastTheClosest` is such a graph.
  `Funnels.FunnelUnlessTurnsBack` has the exact condition under which the result does not pass such a block: no way
  past it ends in a block that only branches back and is finished before it.
* Collecting edges in a dispatcher. A construct that branches to an earlier construct may be collected itself, and then
  lose its last way in; its place in the list of predecessors is then given away, and its entry is stale.
  `Dispatch.CollectAndDispatchControlFlow` shows that this is exactly when the selector's entries do not match:
  `Dispatch.HasOrphan` is the condition, on the old and the new function. It is never met where crossing branches are
  allowed, nor where no construct branches to an earlier one. `Dispatch.CrossingLosesAnEntry` is an input that meets it,
  and `Dispatch.EntriesStayIff` is the same condition for one redirection.

## Model

| member | source | states |
|---|---|---|
| Traversal.Visit | cfg_structurizer.cpp:3229-3272 | the visit from a block leaves exactly the columns of the depth-first traversal: numbers, order, and each finished block's back edge recorded at both ends and erased from its lists |
| Traversal.VisitSuccs | cfg_structurizer.cpp:3244-3262 | the successor loop records an edge to a block on the stack as the back edge and visits what is new, leaving the columns of the traversal of the whole list |
| Traversal.VisitGivesFlow | cfg_structurizer.cpp:3229-3272 | after the visit every reachable block has one number and the edges that are left are those that go to a smaller one, so that the forward graph has no cycle |
| Dfs.FirstSuccessorFirst | cfg_structurizer.cpp:3235-3251 | successors are visited in turn: whatever is finished before the first successor that is new is reached from that successor |
| Traversal.ResetTraversal | cfg_structurizer.cpp:2949-2980 | each recorded back edge returns to both lists, and all visit state is cleared |
| Traversal.PruneDeadPreds | cfg_structurizer.cpp:2061-2071 | live blocks keep exactly their live predecessors, in order |
| Analysis.VisitAgain | cfg_structurizer.cpp:2949-2980 | a graph whose back edges have moved to the end of each list has the same edges, is visited in the same order and has the same back edges |
| Analysis.ForwardAnalyses | cfg_structurizer.cpp:4912-4919 | for every graph with at most one back edge into and out of a block, blocks whose only edge goes back included: order, back edges, predecessors, dominators and reachability are exact again, and the graph can be visited again |
| Analysis.RecomputeCfg | cfg_structurizer.cpp:4912-4925 | after any sequence of earlier analyses, all of them are exact again for the same edge set: order, back edges, dominators, frontiers in both directions and reachability; and the graph can be analysed again. No block has a back edge as its only edge |
| Backwards.BackwardsVisitAll | cfg_structurizer.cpp:3044-3179 | the backward visit numbers the mirrored graph whose root is the exit block and leads to all leaves |
| Backwards.PostDomIsMirrorDom | cfg_structurizer.cpp:3044-3195 | dominance in the mirrored graph is post-dominance by walks to a leaf in the forward graph |
| Dominators.BuildImmediateDominators | cfg_structurizer.cpp:2931-2938 | one pass in visit order finds for every live block the closest strict dominator |
| Dominators.BuildImmediatePostDominators | cfg_structurizer.cpp:2940-2947 | one pass in backward order finds for every live block the closest strict dominator of the mirrored graph |
| Dominators.Dominates | node.cpp:140-151 | following immediate dominators answers dominance by walks from the entry |
| Dominators.PostDominates | node.cpp:276-287 | following immediate post-dominators answers dominance in the mirrored graph |
| Dominators.FindCommonDominator | node.cpp:376-438 | climbing the two chains by number ends at a common dominator that every common dominator dominates |
| Dominators.FindCommonPostDominator | node.cpp:322-374 | the same in the mirrored graph |
| Frontiers.ComputeDominanceFrontier | cfg_structurizer.cpp:2915-2921 | passing blocks up the dominator tree leaves with every block, without repetition, exactly the blocks it does not strictly dominate but dominates a predecessor of |
| Frontiers.ComputePostDominanceFrontier | cfg_structurizer.cpp:2923-2929 | the same for the post-dominator tree and successors |
| Frontiers.FrontierIsPostFrontier | cfg_structurizer.cpp:8364-8390 | a frontier of the mirrored graph is the textbook post-dominance frontier over forward edges |
| Reachability.BuildReachability | cfg_structurizer.cpp:4887-4910 | for any number of blocks and any stride, filling rows in post order leaves in each row the bits of exactly the blocks that a forward walk reaches |
| Reachability.QueryReachability | cfg_structurizer.cpp:4878-4885 | one bit test answers whether a forward walk leads from one block to the other, itself included |
| PathQuery.GetPostDominanceFrontierThatReaches | cfg_structurizer.cpp:8283-8362 | the worklist of promoted frontiers, latest first, ends; a result is the last of all wanted blocks that lead to the block and can avoid it on the way to the target, so that it leads to no other such block; no result means that every wanted block before it must pass it |
| PathQuery.ExistsPathWithoutIntermediateNode | cfg_structurizer.cpp:8255-8281 | true exactly when some forward walk from start to end avoids stop; for an end that a back edge enters, the answer is given for the back edge's block |
| Loops.CollectLoopBody | cfg_structurizer.cpp:2982-3023 | after the visit alone, the traced blocks are exactly those from which the back edge's block is reached without passing the header, inner loops and blocks that only branch back included |
| Loops.CollectLoopExits | cfg_structurizer.cpp:3025-3042 | after the visit alone, the exits are exactly the forward successors of the body that lie outside it, each once |
| MergeQuery.FindCommonPostDominatorWithIgnoredBreak | cfg_structurizer.cpp:6204-6241 | after the visit alone, the loop ends; a result lies on every walk from a candidate that avoids the ignored block and comes to a leaf, or to a block finished before the result, and it leads to every block for which the same holds and to every block on all walks that cannot go on; without a result there is no such block |
| Funnels.ClosestLeads | cfg_structurizer.cpp:6216-6240 | closeness: the result leads to every block that lies on all walks from the candidates that avoid the ignored block and cannot go on |
| Funnels.FunnelUnlessTurnsBack | cfg_structurizer.cpp:6222-6225 | where only walks to a leaf, or to directly in front of the ignored block, are counted: a block on all of them meets the condition of which the result is the first to meet it, so that the result leads to it, if and only if no walk past it ends in a block that only branches back and is finished before it |
| Funnels.PastTheClosest | cfg_structurizer.cpp:6216-6240 | a graph on which the result is not the first block on all walks to a leaf, because one candidate only branches back |
| TailSplit.RunsAgree | cfg_structurizer.cpp:234-321 | a simulation: two functions of which one has a block split into a copy per predecessor stay in step from related states, for every machine and any number of steps |
| SSA.DominatesNothing | cfg_structurizer.cpp:382-454 | in SSA form, ids of a block that dominates none of its successors are read only in it and as values that its own edges bring to PHIs |
| Eliminate.EliminateNodeLinkPredsToSucc | cfg_structurizer.cpp:234-321 | the block is replaced by a break block per predecessor, successor PHIs take its values from them, and every PHI again has one entry per predecessor |
| Preservation.BlockIsBreakingPhiConstruct | cfg_structurizer.cpp:382-454 | accepts exactly the blocks that meet the listed structural conditions and the remaining heuristic ones |
| Preservation.BreakingIsSplits | cfg_structurizer.cpp:382-425 | in a function in SSA form with agreeing edge lists, the structural checks accept exactly the blocks without operations that have several predecessors, are no part of a loop's back edge, end in a branch and dominate no target, but for a conditional branch whose two targets are one |
| Preservation.CleanupBreakingPhiConstruct | cfg_structurizer.cpp:456-480 | for a function in SSA form, the block is split exactly if it has no operations, can be split, has different targets and meets the heuristic conditions, and then every run from the entry stays in step: same other blocks, PHI values, effects and decisions |
| Duplicate.FindIncomingValue | cfg_structurizer.cpp:2367-2386 | the entry chosen for a predecessor is the one of the closest dominating block |
| Duplicate.DuplicateNode | cfg_structurizer.cpp:1726-1853 | each predecessor gets a copy with fresh ids and renamed operands, successor PHIs take the copies' values, PHIs stay well formed and result ids unique |
| Preservation.DuplicateAsserted | cfg_structurizer.cpp:1726-1853 | in SSA form, for a block that dominates no successor, every run from the entry stays in step with the duplicated function |
| Sinking.SinkingPreservesRuns | cfg_structurizer.cpp:950-1134 | after any sequence of legal moves of operations that have no effect and are disturbed by nothing that they are moved past, runs visit the same blocks with the same effects and decisions, and agree on every value but those moved |
| Sinking.SinkingKeepsUses | cfg_structurizer.cpp:950-1134 | and in every block of every run, each operation that stays reads the values it read before, moved values included |
| SinkExact.SafeIffCalm | cfg_structurizer.cpp:950-1134 | for every machine and every choice of movable opcodes: legal moves past all but barriers change no run of any function if and only if movable opcodes have no effect and no opcode but the barriers disturbs them |
| SinkFlags.Propagate | cfg_structurizer.cpp:958-1010 | the first scan gives a flag to exactly the operations with a movable opcode that read a flagged value of their block with no barrier in between, and notes every value that is made |
| SinkFlags.ExcludePhis | cfg_structurizer.cpp:1011-1026 | exactly the values that a PHI reads lose their flag |
| SinkPass.PathIsReorderable | cfg_structurizer.cpp:1039-1072 | the walk up from the reader ends at the block that makes the value; it answers yes if and only if the reader does not post-dominate that block and every block on all ways between them has one predecessor, no back edge and, but for the reader, no barrier; then the way it walked is the only one |
| SinkWalk.Decide | cfg_structurizer.cpp:1092-1120 | an operation moves exactly if it is flagged, one other block reads it and the way there is clear; otherwise exactly its own flag goes |
| SinkPass.MoveKeepsForm | cfg_structurizer.cpp:1105-1126 | a move keeps SSA form: one definition per id, and every definition before or dominating its uses |
| SinkExact.LoadPastStore | cfg_structurizer.cpp:1039-1072 | the run of the function before and after the load has moved past the store returns different values: a store disturbs a load |
| SinkExact.SinkTheLoad | cfg_structurizer.cpp:944-1134 | the pass, called on a flagged access chain, a load through it and a store, moves chain and load past the store |
| SinkConstructs.SinkSsaConstructsRun | cfg_structurizer.cpp:950-1134 | both scans, on SSA form: exactly the operations that carry a flag after the first scan and have one other reader on a clear way are moved, each to that block, and exactly their given flags are left; SSA form is kept, and a dry run changes only the flags |
| SinkConstructs.SinkSsaConstructs | cfg_structurizer.cpp:944-948 | dry run and real run together move exactly what both runs decide to move, keep the operations of the function as a multiset and SSA form; and if what may sink has no effect and nothing on a clear way disturbs it, every run and the value at every use |
| SinkConstructs.OthersStay | cfg_structurizer.cpp:1105-1126 | in every block the operations that were not moved are still there in their order, and no others have come |
| SinkCharts.ChartOfPool | cfg_structurizer.cpp:944-958 | after the forward analyses of the pool, predecessors, back edges, immediate dominators and visit order are what the walks of sinking rely on |
| Demote.DemotionsPreserveRuns | cfg_structurizer.cpp:2120-2307 | after any sequence of demotions every run goes the same way with the same effects and each old id holds what it held: the variable holds what the defining block made last |
| DemotePass.FixupBrokenValueDominance | cfg_structurizer.cpp:2120-2307 | only values with an undominated use are demoted, and afterwards every use outside PHIs is dominated by its definition |
| Preservation.RepairEverywhere | cfg_structurizer.cpp:2120-2307 | the two together: the repaired function has dominated uses and every run computes what it computed |
| Rov.Emitter.Add | dxil_converter.cpp:9229-9237 | bracketing access by access keeps the block's brackets paired |
| Cycles.NotInLoop | cfg_structurizer.cpp:5900-5922 | in every reducible graph, if every back edge to a header above a block starts elsewhere and still leads to the block, then the block is on no cycle |
| RovLoops.GetInnermostLoopHeaderFor | cfg_structurizer.cpp:5900-5922 | for every reducible graph and from any header, the walk up the dominators ends at the given header, at the entry, or at the first loop header whose back edge starts at the block or does not lead to it |
| RovLoops.DominatesAllReachableExits | node.cpp:300-320 | if it answers no, control gets from the header, also through loops, to a block that is not below it; if yes, the blocks looked at are closed under branches and all their branches stay below the header |
| RovLoops.EnclosesAll | node.cpp:316-320 | yes if and only if all that the block leads to, also through loops, is below it |
| RovLoops.ExecutionPathIsSingleEntryAndDominatesExit | cfg_structurizer.cpp:586-614 | yes if and only if all that the entry leads to is below it, it dominates the closest common post-dominator, and no loop header lies between the two; then neither end is on any cycle |
| RovLoops.OutermostLoopHeader | cfg_structurizer.cpp:534-545 | header by header upwards, the walk ends at the last one below the entry, or at the entry if there is none |
| RovRuns.RegionLocksOnce | cfg_structurizer.cpp:924-934 | also with loops: bracketing a region whose ends are on every run and on no cycle makes every run from entry to leaf take the lock once before and release it once after all accesses |
| RovRuns.CycleLocksTwice | cfg_structurizer.cpp:924-934 | if a block on a cycle takes or releases the lock, and control gets from it to an end of the function, some complete run does so twice |
| RovChoice.OneChoice | cfg_structurizer.cpp:861-936 | the function, its accesses and the merge blocks of its loops determine the two ends of the region |
| RovRegion.FindCommonPostDominatorOf | cfg_structurizer.cpp:6138-6149 | the closest common post-dominator of a list, or none if only the exit block is one |
| RovRegion.FindSingleEntryExitLockRegion | cfg_structurizer.cpp:526-584 | accepts if and only if there is a choice in one of its three cases, and returns it: no loop above the entry; all accesses inside the outermost loop, which has a merge block and one plain way in; or an entry and exit that are passed once. The entry it returns is on every run, dominates all accesses and is on no cycle |
| RovRegion.ChooseRegion | cfg_structurizer.cpp:890-915 | the result is the region that the function determines, none if and only if it determines none; it covers all accesses if its exit is on no cycle; without loops it gives up exactly when no region exists |
| RovAccept.InsideOrOutside | cfg_structurizer.cpp:534-545 | for every block, no header but the entry holds it up, or some list of headers leads up from it to a loop with nothing around it: the three statements below cover all functions |
| RovAccept.AcceptsDirect | cfg_structurizer.cpp:890-915 | with no loop around the closest block that is on every run before all accesses: the region goes from it to the closest block behind it and all accesses, if and only if there is one |
| RovAccept.AcceptsAround | cfg_structurizer.cpp:562-581 | with all accesses in the outermost loop: the region starts in `i` if and only if `i` is the only block that branches to the header and does so plainly, the loop has a merge block that `i` dominates, and some block is behind all accesses; it ends in the closest block behind `i` and the merge block |
| RovAccept.AcceptsPast | cfg_structurizer.cpp:548-560 | with an access outside of the outermost loop: the region goes from the closest entry to the closest block behind it and all accesses, if and only if all that the entry leads to, also through loops, is below it and no header lies between the two |
| RovAccept.LoopAroundAccepted | cfg_structurizer.cpp:562-581 | all accesses in a loop whose header is on every run, no loop around the only block that branches to it, plainly, and a merge block on no cycle that every run from the header comes to: then these two blocks are the ends of the region |
| RovPass.RewriteRovLockRegion | cfg_structurizer.cpp:861-936 | for every reducible function in which no block has a back edge as its only edge: succeeds if and only if there are no accesses or the function determines a region; then the lock is taken and released at its ends and nowhere else, and every run locks exactly once if and only if the releasing end is on no cycle; where it gives up, no lock is left; nothing but locks changes. Without loops it succeeds exactly when a region exists, and then every run locks once. With all accesses in one loop as in `RovAccept.LoopAroundAccepted`, it succeeds, takes the lock in front of the loop, releases it in the merge block, and every run locks once |
| RovPass.LoopFreeIsReducible | cfg_structurizer.cpp:861-936 | the condition on loops holds for every function without loops |
| RovInLoop.LockTheLoop | cfg_structurizer.cpp:861-936 | for every function of a block, a block that may go round, and an end, with accesses in the first two, whatever the loop analysis says: the pass succeeds, releases the lock in the loop, and some run releases it twice |
| RovInLoop.LockAroundTheLoop | cfg_structurizer.cpp:562-581 | for every such function with its only access in the loop, a plain branch to the loop and the end as its merge block: the pass succeeds, takes the lock in the first block and releases it in the end, and every run locks once |
| RovPass.BuildRovMain | dxil_converter.cpp:7887-7918 | for the same functions, a wrapper is made if and only if the function has accesses and determines no region; with every call of the code in the wrapper's operations replaced by the operations of any of its runs, the lock is taken once, held for all accesses and released once, and nothing but these operations runs; the code itself keeps all but its locks |
| Rewiring.RewriteThroughIntermediate | node.cpp:456-473 | one branch goes on through a new block, and all edge lists stay consistent |
| Rewiring.RetargetWithIntermediate | node.cpp:475-482 | one edge is moved, through a new block where the target is already a successor; the edge lists stay right about all blocks, but for an old target that was a predecessor of the new one and has lost its last way in |
| Rewiring.Traverse | cfg_structurizer.cpp:8737-8787 | the walk ends; it has visited every block that the query puts below the dominator on a way past no barrier, and of the blocks visited exactly those with a branch to the old target that closes no cycle are redirected, each once; all else stays |
| Rewiring.Rewrite | cfg_structurizer.cpp:8789-8846 | a block is redirected if and only if it is found below the dominator, past no barrier and no end of the rewrite, has a branch to the old target, and the query does not say that a cycle closes; the two directions differ only where answers change while branches move |
| Collect.Collected | cfg_structurizer.cpp:8737-8846 | in terms of the function before any collection: no block that is below the dominator, in front of all blocks to avoid, and from which the helper block closes no cycle, has a branch to the old target any more |
| Collect.EnclosedAllGone | cfg_structurizer.cpp:7061-7178 | if the queries tell the truth, that holds for all blocks that the dominator dominates, that it leads to past no block to avoid, and that the blocks behind the helpers do not lead to |
| Rewiring.CreateHelperPredBlock | cfg_structurizer.cpp:6024-6058 | the helper takes over every predecessor of the block and leads to it |
| Dispatch.EntryPerPred | cfg_structurizer.cpp:7095-7125 | the entries of the selector PHI are one per predecessor of the dispatcher |
| Dispatch.EntriesStayIff | node.cpp:484-515 | entries made before a redirection stay matched to predecessors if and only if the branch was not the last one to a construct that is itself a predecessor of the dispatcher |
| Dispatch.OrphanNow | node.cpp:498-502 | a construct that loses its place among the predecessors had branched to one before it, still branches to the dispatcher, and nothing leads to it any more; this cannot happen where crossing branches are allowed |
| Dispatch.CrossingLosesAnEntry | node.cpp:498-502 | a concrete graph on which redirecting replaces a predecessor in place, so that the entry made for it is stale and the construct is left an orphan |
| Dispatch.CollectAndDispatchControlFlow | cfg_structurizer.cpp:7061-7253 | in all modes, for every oracle: the selector has one entry per predecessor of the dispatcher if and only if no construct that branched to an earlier one has lost its last way in and its place among the predecessors; then the original blocks are visited in the same sequence and are the same but for their targets, edges to constructs are taken from all blocks in reach of their traversals and from no others, and the edge lists agree. The dispatcher leads to exactly the constructs, and to the common post-dominator if and only if some old edge to that block now goes through it; with two constructs and no such edge it ends in a conditional branch, and otherwise in a switch. Blocks below a construct keep their edge to the common post-dominator, and no others do |
| Collect.AllGone | cfg_structurizer.cpp:7241 | the asserted condition: if all old predecessors of a construct were in reach of its traversal, no live block branches to it |
| Anchor.CollectAndDispatchControlFlowFromAnchor | cfg_structurizer.cpp:6955-7059 | the same for two constructs around an anchor, each collected from below the anchor and from below its own dominator and from nowhere else, with the selector that the anchor decides hoisted to it: same visits, same blocks but for their targets, agreeing edge lists |
| Anchor.NoPredsLeft | cfg_structurizer.cpp:7014-7015 | the asserted condition: if each old predecessor of a construct was in reach of a traversal made for it, no live block branches to it |
| Gates.LeadsKeepsVisits | cfg_structurizer.cpp:7061-7253 | if each old edge leads through helper blocks to its old target, the sequence of original blocks is the same for every oracle and any length |
| Gates.ConstantsHold | cfg_structurizer.cpp:7145-7200 | constants and an environment as the dispatchers ask for exist for any number of constructs |
| Hoist.AnyCaseHolds | cfg_structurizer.cpp:5136-5235 | the built chain of equal, not-equal, or and and is true exactly when the switch would take one of the cases, for every selector value and case list |
| Hoist.HoistKeepsTarget | cfg_structurizer.cpp:5186-5266 | after the new predecessor's test control goes where the switch would have gone, with the same effects and old values |
| Hoist.HoistSwitchBranchesToFrontier | cfg_structurizer.cpp:5186-5266 | the first successor that reaches the frontier, if there is one, is tested in advance, through a block of its own exactly if it is the frontier; switch block and new predecessor get exactly the successors that they should have, all other blocks stay but for their way to the switch and the frontier's entries, and edge lists agree |
| Preservation.HoistKeepingChoices | cfg_structurizer.cpp:5186-5266 | whichever way the search ends, control reaches the old choice for every state in which the labels have their values |
| BackEdges.OneBackEdgeIn | cfg_structurizer.cpp:3197-3227 | in the graph with merged back edges, every block is the target of at most one |
| BackEdges.SameOrder | cfg_structurizer.cpp:3197-3227 | the next visit numbers the old blocks in the old order |
| BackEdgePass.RewriteMultipleBackEdges | cfg_structurizer.cpp:938-942 | the pass leaves one back edge into every block; an edge is redirected if and only if it is a back edge and there is another one to the same block, to one new block for each such target; the visit order of old blocks stays, and every oracle's run visits the same old blocks |
| Operations.Operation.AddArgument | ir.hpp:246-259 | appends one pair of value and literal bit, also when the buffer has to grow |
| Operations.Operation.ReserveArguments | ir.hpp:159-189 | keeps the list while the buffer and the packed bits behind it move |
| Operations.Operation.SetArgument | ir.hpp:196-201 | replaces one value and keeps its literal bit |
| Operations.Operation.CopyFrom | ir.hpp:261-279 | makes the two lists equal, in separate buffers, and leaves the other operation as it was |
| Operations.Replay | ir.hpp:138-208 | two operations behave as two lists of pairs under any sequence of calls, copies between them included |
| Layout.GetPhysicalSizeForType | dxil_converter.cpp:4410-4451 | the recursive computation gives, without overflow when the size fits 32 bits, the size and alignment that the statements below fix |
| Layout.SizeFacts | dxil_converter.cpp:4410-4451 | alignments are powers of two that divide the size |
| Layout.LeavesPlaced | dxil_converter.cpp:4362-4376 | placed at any aligned base, all scalar leaves are naturally aligned, disjoint and inside the reported size |
| Layout.LeavesOfWidths | dxil_converter.cpp:4410-4451 | the leaves of a type are its scalars and pointers in order, with their widths, as often as arrays and vectors repeat them |
| Layout.AlignIsWidest | dxil_converter.cpp:4424-4444 | the alignment is the width of the widest of them |
| Layout.LeavesTight | dxil_converter.cpp:4424-4444 | no size or stride is larger than it must be: the first leaf is at the base, less than one alignment lies between two leaves, and the last one ends less than one alignment before the end |
| Layout.MembersPlaced | dxil_converter.cpp:4453-4468 | the same for the members of a struct at the offsets that are emitted |
| Layout.OffsetLeast | dxil_converter.cpp:4453-4468 | each member's offset is the least aligned one behind the member before it |
| Layout.DecoratePhysicalOffsets | dxil_converter.cpp:4453-4468 | the loop emits exactly the offsets that the size computation uses |

## Left out

- Choosing what to rewrite: loop, selection and switch merge heuristics, `find_loops`, `split_merge_blocks`,
  `process_switch_blocks`, the serialization decisions and transposed loops. The rewrites are proved for every choice
  they are given.
- Fake edges and infinite loops: a live block whose only edge is a back edge is excluded where the backward visit and
  its post-dominators are used, and there only.
- Irreducible loops, where loop headers are looked up and where the interlock is widened.
- `insert_phi`: when two back edges merge, PHIs of the header are repaired by it later; runs are compared as sequences
  of blocks there.
- Stored visit numbers that have gone stale, and the branches that recompute a missing immediate dominator while a
  graph is being rewritten: dominators are rebuilt by the passes.
- Merge information, freezing and headers in the dispatchers, names, decorations and types, and the blocks' merge
  fields.
- The replacement of the function's entry block in `create_helper_pred_block`, which is done by the caller's module.
- Reachability and dominance questions asked while blocks are being rewritten are parameters: `Queries` may answer in
  any way that the asserts allow, `dominates` and `postDominates` are functions.
- Preconditions stand for the asserts of the code and for well-formed input: one entry per predecessor in every PHI,
  edge lists that agree with terminators, at most one back edge into and out of a block where the visit asserts it.
- 32-bit wrap-around of ids, visit numbers and argument counts; memory exhaustion.
- DemotePass.FixupBrokenValueDominance: pointers, opaque loads and sampled images, which the code creates again where
  they are used, are required not to be broken.
- BackEdgePass.RewriteMultipleBackEdges: nothing branches to the entry block; true of LLVM functions.
- Hoist.HoistSwitchBranchesToFrontier: the switch block's own PHIs stay where they are, and the frontier's entries for
  the switch block are given to the new predecessor, as the code does it; that they match the block in between is left
  to the later repair of PHIs, which is not modelled.
- Anchor.FixupPhi: entries move to the block that made their value; the fallback through a variable, for back edges
  and for a block that has an entry already, is not modelled.
- Layout.GetPhysicalSizeForType: sizes are below 2 to the 32nd, as the code assumes.
- Preservation.BlockIsBreakingPhiConstruct: the tests that only judge whether splitting pays off (ladders, loop
  merges, post-dominated constructs) are one parameter, because they do not bear on what splitting keeps.
- Preservation.CleanupBreakingPhiConstruct: one block of the sweep; the next block's dominance is the one of the graph
  before the sweep, and the recomputation at its end is `Analysis.RecomputeCfg`.
- Preservation.RepairEverywhere: as for `DemotePass.FixupBrokenValueDominance`.
- Backwards.BackwardsVisitAll: the fake edges that the code adds for blocks that only branch back are not modelled.
- Analysis.RecomputeCfg: the same, for its backward half; `Analysis.ForwardAnalyses` is its forward half for all graphs.
- RovPass.RewriteRovLockRegion: the same, because the region's exit is found by post-dominators.
- RovPass.BuildRovMain: the same.
- Dominators.FindCommonDominator: dominators that are missing while the graph is being rewritten, aliasing visit
  numbers and unreachable blocks are excluded; the pool has been analysed.
- Dominators.FindCommonPostDominator: the same.
- Rewiring.CreateHelperPredBlock: the entry block is not replaced, and the visit numbers of the helper are left to the
  next analysis.
- Rewiring.Rewrite: an oracle that answers differently as branches move may or may not have a block redirected that it
  accepts at some time only; `Collect.Collected` says when its answers do not matter.
- Dispatch.CollectAndDispatchControlFlow: the block that the collection starts from is none of the constructs. Where all
  paths to the common post-dominator are collected, no branch of a construct to that block closes a cycle, so that the
  constructs get theirs back.
- Anchor.CollectAndDispatchControlFlowFromAnchor: neither construct branches to the anchor, nor the second to the
  first; otherwise a block may take the place of a construct among the predecessors and be sent to the anchor.
- Dfs.FirstSuccessorFirst: for the first successor that is new; the others follow in the same way, as the visit goes on
  with the rest of the list.
- RovRegion.FindSingleEntryExitLockRegion: `analyze_loop` and `analyze_loop_merge` are a parameter, which names for a
  loop the one merge block that they accept, or none; control gets to it from the loop.
- SinkConstructs.SinkSsaConstructs: for one function the condition on what is disturbed is sufficient; it is exact
  over all functions, by `SinkExact.SafeIffCalm`.
