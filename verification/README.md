# ZMDP: verified models of its algorithmic kernels

ZMDP is a heuristic-search solver for MDPs and POMDPs. Its search algorithms (HDP, LRTDP, FRTDP and HSVI) work on a
graph of states with a lower and an upper bound at each node; for POMDPs the bounds are pruned lists of points
(sawtooth) or planes (max-planes). The other parts modelled here are a racetrack MDP, the reward decision tree of the
model parser, the sparse linear algebra, the LifeSurvey path planner, and the RockExplore belief code.

This project models these kernels in Dafny, in the imperative form the C++ has, and proves what they are for. The main
results are:

- **Bounds over every run.** Whatever nodes are looked up and updated, the bounds bracket every Bellman-optimal value,
  only tighten, and the lazy upper-bound update finds what updating all actions would find.
- **Labelling is sound and the searches finish.** HDP's component labelling and LRTDP's open/closed labelling mark
  only nodes of small residual that lead to marked nodes, from any bound. A trial that leaves its root unmarked has
  found a node more than the target precision off and has set it to its highest Q value. From a uniformly improvable
  bound that lowers some value by more than the target precision; hence the root is solved, and its greedy policy is
  within eps/(1-discount) of optimal, in the limit and over any number of steps.
- **FRTDP's assertion never fails**, because a node's cached priority vanishes exactly when it has no excess width.
- **What a trial does is described step by step**, for all four searches: which nodes it visits and why each follows the
  one before, what is updated in which order on the way back, and which nodes are labelled. Behind every flagged HDP trial
  there is a chain of greedy outcomes from the root to a corrected node, along which all nodes are backed up last.
- **HSVI trials end** although their depth has no cap, exactly for discounts below 1, and narrow the node at which they
  turn around. At discount 0 a trial fails exactly if the root has width, because no outcome can be chosen.
- **The value of a LifeSurvey path is the expected number of regions in which it samples life**, derived from
  independent looks, and **the path search is optimal** in spite of dominance pruning, unless a count of exactly 9 is mistaken for
  "unreachable". Two claims need that no region of interest gets 9 looks. The reported value of a path is its true value
  exactly if this holds on that path. The path planned is a best one if it holds on all best paths, and when the best
  paths are alike in this, path and value are both right exactly then. `WorsePathIsPlanned` is a run in which a
  strictly worse path is planned.
- **Pruning keeps the bounds.** Sawtooth points and max-planes may be deleted at a cost of one tolerance each, at every
  belief, with support lists, caches and back-pointers exact. Over every run the sawtooth bound stays valid and
  remembers what was added; overwriting a corner value is safe exactly for beliefs that are that corner, not for all
  that are nearly so. The pairs that pruning skips need no pruning exactly if every point fits when it is added; three
  runs show how it can be otherwise and how support lists overlook a dominated point.
- **New planes are lower bounds.** The plane a backup computes lies below the value function wherever its mask allows,
  if the planes it was made from do, and on its belief's states it is worth exactly the lookahead on those planes, up to
  the tiny elements that sparse products drop. Likewise a sawtooth backup is exactly the lookahead on the bound.
- **The racetrack's line walk is exact** in all eight octants, its unchecked grid accesses stay on the map, and
  reachable cars are on clear cells and move by the velocity they have.
- **The decision tree implements "the last matching rule wins"**, with the exact condition, list by list, for agreeing
  with the interpreter of the entries.
- **Sparse code refines dense code.**
- **RockExplore's belief and state-space code** satisfies its identities. Its value iteration ends on every model exactly
  for residuals above (tie tolerance)/(1 - discount), and its choice among tied actions is the promised one exactly if
  the running best is not itself within the tolerance.

## Reading order

`RealArith` and `Wrappers` hold small helpers. `Mdp`, `BoundPair`, `BoundTheory`, `Labels`, `Trails`, `Evolution` and
`RtdpCore` carry the four searches `Hdp`, `Lrtdp`, `Frtdp` and `Hsvi` (with `HsviDescent`). `LifeSurvey` and
`PathPlanner` belong together. `SparseVector`, `SparseMatrix` and `PointerLists` are used by the POMDP bounds: `Beliefs`,
`Sawtooth`, `SawtoothRuns` and `SawtoothCases` for the upper one, `MaxPlanes` and `PlaneBackup` for the lower one.
`Geometry` supports `RaceTrack`; `GridIndex` serves both grids; `DecisionTree` supports `ImmReward`; `REBasicPomdp`,
`REValueFunction`, `RockExplore` and `ReachableStates` are the RockExplore code.

## Conventions

- Numbers are exact reals and unbounded integers. Very negative sentinels (-99e+20) are read as "none"; bounds and
  values are taken to lie above them. Cut-offs at 1e-10 are read as "equal to 0" in the searches, and kept as constants
  where they are a tolerance (pruning, tiny matrix elements).
- A search node is identified by its position in the list of nodes, which stands for its address; sharing is kept,
  because an edge holds the position. Keys of states are injective.
- FRTDP's priorities are exponentials of the source's logarithms: products for sums, 0 for minus infinity.
- Random draws, and the depth limit that FRTDP adapts, are parameters.
- HDP does not reset `low` between trials; the model keeps that, and the proofs show it does no harm.
- In `GetMaxQAction` ties are not transitive, so the action chosen need not be the first of the tied ones, as a comment
  in the source promises (`FirstTiedIsPassedOver`). The model follows the code.

## Model

| member | source | states |
|---|---|---|
| `BoundPairs.BoundPair.GetNode` | src/bounds/BoundPair.cc:127-158 | returns the one node stored for the key of a state; a state without a node gets a fringe node with its initial bounds, and nothing else changes |
| `BoundPairs.BoundPair.ExpandAction` | src/bounds/BoundPair.cc:169-193 | every outcome of positive probability gets an edge to the unique node of the state it leads to, every other outcome gets none; existing nodes keep place and content |
| `BoundPairs.BoundPair.Expand` | src/bounds/BoundPair.cc:169-193 | a fringe node gets edges for every action with undefined upper Q values; only that node changes, and the key table stays the inverse of the node list |
| `BoundPairs.BoundPair.DualBackups` | src/bounds/BoundPair.cc:57-96 | the loop over the actions: both bounds of each are backed up, and the first of highest upper Q value is found |
| `BoundPairs.BoundPair.UpdateDualPointBounds` | src/bounds/BoundPair.cc:57-96 | both bounds of every action are backed up from the values before the update; the node keeps the tighter of old and new bound, and the action reported is the first of highest upper Q value |
| `BoundPairs.BoundPair.LowerBoundUpdate` | src/bounds/PointLowerBound.cc:71-99 | the lower value becomes the larger of itself and the best backed-up lower Q value; upper values are left alone |
| `BoundPairs.BoundPair.GetNewUBValueQ` | src/bounds/PointUpperBound.cc:63-80 | one cached upper Q value is replaced by its fresh backup, nothing else changes |
| `BoundPairs.BoundPair.UpdateSimple` | src/bounds/PointUpperBound.cc:90-124 | backs up every action; the upper value becomes the smaller of itself and the highest backup |
| `BoundPairs.BoundPair.LazyBackups` | src/bounds/PointUpperBound.cc:126-163 | the lazy loop backs up, one after the other and none twice, the first action of highest cached value, changes no other entry, and stops at one that has been backed up |
| `BoundPairs.BoundPair.UpdateUseCache` | src/bounds/PointUpperBound.cc:126-163 | the lazy update reports a maximal action with a fresh backup, and leaves every other Q value fresh or as it was |
| `BoundPairs.BoundPair.UpdateBounds` | src/bounds/BoundPair.cc:195-215 | updates whichever bounds are maintained: the upper value becomes the smaller of itself and a highest backup, the lower value the larger of itself and the best one |
| `BoundPairs.BoundPair.Update` | src/bounds/BoundPair.cc:195-215 | expands a fringe node and backs it up, one backup counted; all other nodes keep everything, and the graph stays well formed |
| `BoundPairs.BoundPair.GetMaxUBAction` | src/bounds/BoundPairCore.cc:50-61 | the first action of highest cached upper bound |
| `BoundPairs.BoundPair.GetSimulatedOutcome` | src/bounds/BoundPairCore.cc:63-79 | the first edge at which the running probability reaches the draw; for any draw in [0,1] there is one |
| `BoundPairs.BoundPair.SetUb` | src/search/LRTDP.cc:143-147 | overwrites one upper value and nothing else |
| `BoundPairs.ArgmaxElt` | src/common/MatrixUtils.h:115-126 | the index of the first maximal element |
| `BoundPairs.BackupOfModel` | src/bounds/BoundPair.cc:57-96 | a backup over the edges of a node is the one-step lookahead of the underlying MDP, for every value function the nodes carry |
| `Mdp.LookaheadLaws` | src/bounds/BoundPair.cc:57-96 | the lookahead on a constant is the reward plus the discounted constant, and adding a function to the value function adds its discounted expectation |
| `Mdp.SureLookahead` | src/bounds/BoundPair.cc:57-96 | with a sure outcome the lookahead is the reward plus the discounted value there |
| `BoundTheory.UpdateBrackets` | src/bounds/BoundPair.cc:57-96 | one update keeps lower value <= V <= upper value at every node, and every cached Q value above the lookahead, for every solution V of the Bellman equation that the initial bounds bracket |
| `BoundTheory.RunBrackets` | src/bounds/BoundPair.cc:127-215 | the same at every moment of every interleaving of node look-ups and updates, starting from an empty graph |
| `BoundTheory.RunTightens` | src/bounds/BoundPair.cc:127-215 | between any two moments of a run lower values never fall, upper values never rise, and nodes keep their keys |
| `BoundTheory.UpdateKeepsCacheSound` | src/bounds/PointUpperBound.cc:126-171 | an update leaves every cached Q value at or above its fresh backup, at every node |
| `BoundTheory.RunCacheSound` | src/bounds/PointUpperBound.cc:126-171 | so in every run every cached Q value is at least its fresh backup |
| `BoundTheory.LazyUpdateIsExact` | src/bounds/PointUpperBound.cc:126-171 | under that invariant the update, lazy or not, finds the highest of all fresh backups and an action that attains it |
| `BoundTheory.UpdateNarrows` | src/bounds/BoundPair.cc:57-96 | with dual point bounds an update leaves the width of a node at most the discount times the widest successor under the reported action, self-loops included |
| `Evolution.UpdateImproves` | src/bounds/PointUpperBound.cc:90-171 | on a uniformly improvable bound an update only lowers the upper value, and never below any one-step lookahead |
| `Evolution.CacheQImproves` | src/search/HDP.cc:87-94 | caching Q values while restoring the upper value keeps the bound uniformly improvable |
| `Evolution.RoomShrinks` | src/search/HDP.cc:183-206 | a stretch of search that lowers some upper value by more than eps uses up part of a bound that is finite from the start |
| `Evolution.SearchProgress` | src/search/HDP.cc:108-206 | every stretch of search keeps the bound improvable and the bracket, and uses up room if it was flagged as changing a value |
| `Evolution.FringeConsistent` | src/bounds/PointUpperBound.cc:82-88 | a graph of fringe nodes inherits uniform improvability from the initial bound |
| `Trails.OverwrittenBetween` | src/search/HDP.cc:108-206 | that an upper value was overwritten stays on record through the search before and after it |
| `Trails.CorrectedBetween` | src/search/LRTDP.cc:90-147 | that a node was measured off and then corrected stays on record in the same way |
| `Labels.LabelsKept` | src/search/LRTDP.cc:90-141 | labels stay sound as long as solved nodes are left alone |
| `Labels.SolvedUpperIsTight` | src/search/LRTDP.cc:90-181 | with discount g < 1 the upper value of every solved node is within eps/(1-g) of the value of the greedy policy on the solved set |
| `Labels.GreedyBelowOptimal` | src/search/LRTDP.cc:90-181 | the greedy policy on the solved set is never worth more than optimal |
| `Labels.SolvedIsNearOptimal` | src/search/LRTDP.cc:90-181 | so from a solved node the greedy policy is within eps/(1-g) of optimal |
| `Labels.SolvedNearOptimal` | src/search/HDP.cc:108-181 | from a solved node the greedy policy on the solved set is within eps/(1-g) of optimal, as a predicate of the search state: for every fixed point of the greedy backup, and for following the policy for any number k of steps, g^k times the uncertainty of the end included |
| `Labels.StepsNearOptimal` | src/search/LRTDP.cc:90-181 | following the greedy policy for k steps from a solved node is worth at most optimal, and at least optimal less the accumulated residuals, up to g^k times the error of the values at the end |
| `Labels.SolvedSteps` | src/search/LRTDP.cc:90-181 | so after any number of steps the loss is at most eps/(1-g), plus that last term |
| `RtdpCore.NodeStack.Push` | src/search/RTDPCore.h:44-47 | pushes a node that is not on the stack; stack and membership index stay in step |
| `RtdpCore.NodeStack.Pop` | src/search/RTDPCore.h:48-53 | removes and returns the top node from stack and index |
| `RtdpCore.NodeStack.Contains` | src/search/RTDPCore.h:62-62 | the index answers membership of the stack |
| `RtdpCore.DistinctSize` | src/search/RTDPCore.h:40-63 | a stack without repetition has as many nodes as it has entries |
| `HdpSearch.HDP.GetNodeHandlers` | src/search/HDP.cc:62-68 | a new node starts out solved exactly if it is terminal, with low and idx at infinity |
| `HdpSearch.HDP.Backup` | src/search/HDP.cc:163-165 | a backup of an unsolved node leaves every label sound, all marks of the trial in place, and solved nodes frozen |
| `HdpSearch.HDP.CacheQ` | src/search/HDP.cc:87-94 | Q values are backed up by one update while the upper value of every node stays; the greedy Q value is then fresh |
| `HdpSearch.ActiveSettled` | src/search/HDP.cc:108-181 | a node whose greedy successors are all accounted for is settled together with everything above it on the stack |
| `HdpSearch.SegmentClosed` | src/search/HDP.cc:108-181 | the segment popped at low == idx is closed: what it can reach is solved or popped with it, with stale low values allowed |
| `HdpSearch.PopKeeps` | src/search/HDP.cc:108-181 | labelling a processed segment as solved keeps every label sound |
| `HdpSearch.PopKeepsMarks` | src/search/HDP.cc:108-181 | and keeps stack, visit order and indexes consistent |
| `HdpSearch.HDP.VisitOutcome` | src/search/HDP.cc:108-181 | one outcome: a node not yet visited is visited and then its low counts, a node on the stack counts with its index, any other changes nothing; unflagged, the successor is solved or reachable from the active node through low; flagged, some upper value has been overwritten by an up-to-date highest Q value more than the target precision away, and on a uniformly improvable bound has thereby fallen by more than that |
| `HdpSearch.HDP.VisitOutcomes` | src/search/HDP.cc:108-181 | all outcomes of the greedy action are dealt with in order, after a flag too, and the visit is flagged exactly if one of theirs is; unflagged, all successors are solved or reachable from the active node through low |
| `HdpSearch.HDP.Label` | src/search/HDP.cc:108-181 | pops the stack down to the root of the component and marks exactly what was popped |
| `HdpSearch.HDP.TrialRecurse` | src/search/HDP.cc:108-181 | terminates; reports what the visit did, from state to state: a solved node is left alone; else the Q values are backed up, a node more than the target precision off takes its highest Q value, and any other is marked active and goes through all outcomes, ending with a backup if one was flagged and else with the labelling of its component if low equals idx; so a flagged visit has corrected its node last of all; an unflagged one changes no upper value and leaves the node settled; labels stay sound throughout |
| `HdpSearch.FlagHasReason` | src/search/HDP.cc:108-181 | behind every flagged visit there is a chain of visits, each of a greedy outcome of the node before, down to a node that was more than the target precision off and took its highest Q value itself; every other visit on the chain ends with a backup of its node |
| `HdpSearch.VisitsBounded` | src/search/HDP.cc:108-181 | a trial visits at most as many nodes as there are states |
| `HdpSearch.RootLabelled` | src/search/HDP.cc:183-206 | an unflagged trial has labelled its root |
| `HdpSearch.HDP.DoTrial` | src/search/HDP.cc:183-206 | a trial is nothing if the root is solved, and else a visit of the root after which indexes are reset and the stack is emptied; it ends with the root solved or flagged; after a flagged one the root took its highest Q value or was backed up last of all, and some upper value has been overwritten by an up-to-date highest Q value more than the target precision away, and on a uniformly improvable bound has thereby fallen by more than that; solved nodes stay solved and frozen, stale low values included |
| `HdpSearch.RootNearOptimal` | src/search/HDP.cc:183-206 | a solved root is within eps/(1-g) of optimal |
| `HdpSearch.HDP.Solve` | src/search/HDP.cc:183-206 | from a uniformly improvable initial bound, finitely many trials solve the root, whose greedy policy is then within eps/(1-g) of optimal |
| `LrtdpSearch.LRTDP.CacheQ` | src/search/LRTDP.cc:75-82 | Q values of an unsolved node are brought up to date, all upper values and all solved nodes stay |
| `LrtdpSearch.LRTDP.UpdateInternal` | src/search/LRTDP.cc:143-147 | an unsolved node is backed up and takes its highest Q value; solved nodes stay frozen; on a uniformly improvable bound a node of large residual falls by more than the target precision |
| `LrtdpSearch.LRTDP.PushSuccessors` | src/search/LRTDP.cc:90-141 | the unsolved successors that are on neither worklist are put on the open one, in order; every unsolved successor ends up on one of them, once |
| `LrtdpSearch.PushedOk` | src/search/LRTDP.cc:90-141 | so pushing adds unsolved targets and nothing else, leaves none out and lists none twice |
| `LrtdpSearch.ExploreStep` | src/search/LRTDP.cc:90-141 | moving a node of small residual from open to closed keeps the closed set explored |
| `LrtdpSearch.LRTDP.ExploreNext` | src/search/LRTDP.cc:90-141 | one round of the worklist loop: the last open node is closed and its Q values are backed up, and exactly if its residual is small its greedy successors are opened; a small residual keeps the closed set explored; a large one was measured on the node just closed, and on a uniformly improvable bound still stands |
| `LrtdpSearch.LRTDP.Explore` | src/search/LRTDP.cc:90-141 | the loop terminates with nothing open after such rounds, and answers whether all residuals were small; either every closed node has a small residual and leads into closed or solved nodes, or a closed node was measured to be more than the target precision off |
| `LrtdpSearch.ClosedIsSolved` | src/search/LRTDP.cc:90-141 | when nothing is open the closed nodes can all be labelled: labels stay sound |
| `LrtdpSearch.LRTDP.LabelAll` | src/search/LRTDP.cc:90-141 | labels every closed node and changes nothing else, keeping all labels sound |
| `LrtdpSearch.LRTDP.UpdateAll` | src/search/LRTDP.cc:90-141 | every closed node is updated once, last closed first; as one of them was off, some node was measured to be more than the target precision off and then took its highest Q value; on a uniformly improvable bound some upper value has thereby fallen by more than the target precision |
| `LrtdpSearch.LRTDP.CheckSolved` | src/search/LRTDP.cc:90-141 | explores, and then labels the closed nodes if all residuals were small, and updates them otherwise; answers true only with the node solved; otherwise some node was measured to be more than the target precision off and then took its highest Q value; on a uniformly improvable bound some upper value has thereby fallen by more than the target precision |
| `LrtdpSearch.LRTDP.TrialRecurse` | src/search/LRTDP.cc:149-181 | reports the way it takes: each node is backed up and the draw chooses the next one under the reported action, down to a solved node; on the way back the labelling procedure is called for a node exactly if the one below was reported solved; solved nodes stay solved and frozen; in a finished trial that did not solve its node some node was measured to be more than the target precision off and then took its highest Q value; on a uniformly improvable bound some upper value has thereby fallen by more than the target precision |
| `LrtdpSearch.OnlyFinishedIsSolved` | src/search/LRTDP.cc:149-181 | on any such way, a node is reported solved only if a solved node was reached |
| `LrtdpSearch.LRTDP.DoTrial` | src/search/LRTDP.cc:183-192 | one such trial from the root; reports whether the root is solved; the same guarantee for whole trials |
| `LrtdpSearch.RootNearOptimal` | src/search/LRTDP.cc:183-192 | a solved root is within eps/(1-g) of optimal |
| `LrtdpSearch.LRTDP.Solve` | src/search/LRTDP.cc:183-192 | from a uniformly improvable initial bound a fixed number of finished trials solves the root, near-optimally |
| `FrtdpSearch.FRTDP.GetNodeHandlers` | src/search/FRTDP.cc:49-56 | a new node has its excess width as priority, 0 (log minus infinity) without any |
| `FrtdpSearch.FRTDP.GetMaxPrioOutcome` | src/search/FRTDP.cc:67-92 | the first outcome of highest weighted priority, -1 exactly when no weighted priority is positive |
| `FrtdpSearch.WeightsMultiply` | src/search/FRTDP.cc:67-92 | a sure edge passes the priority of its node on, discounted, and the probabilities of edges taken one after the other multiply |
| `FrtdpSearch.SomePositivePriority` | src/search/FRTDP.cc:67-109 | a node left with excess width by an update has a successor of positive weighted priority, whatever priorities of that form the run has cached |
| `FrtdpSearch.NoPriorityNoWidth` | src/search/FRTDP.cc:67-92 | an edge without weighted priority leads to a node without excess width, unless the discount is 0 |
| `FrtdpSearch.NarrowWithoutPriority` | src/search/FRTDP.cc:94-109 | successors that are not too wide leave the node not too wide |
| `FrtdpSearch.FRTDP.Update` | src/search/FRTDP.cc:94-109 | updates bounds and priority of one node: the outcome chosen is the first of highest weighted priority, the new priority is that one or the excess width, whichever is less, and all other priorities stay; the invariant that a priority is 0 exactly without excess width, and never more than it, survives; a node with excess width has an outcome to go on with |
| `FrtdpSearch.FRTDP.TrialRecurse` | src/search/FRTDP.cc:111-166 | terminates, and reports the way it takes: each node is updated and, left with excess width within the depth limit, followed by the outcome of the reported action that has the highest weighted priority, one level deeper; it stops at a node without excess width or beyond the limit, and then updates every other node again, deepest first; it never fails the assertion on the chosen outcome and only tightens bounds |
| `FrtdpSearch.TrialIsShallow` | src/search/FRTDP.cc:111-166 | such a way goes at most one node beyond the depth limit |
| `FrtdpSearch.FRTDP.DoTrial` | src/search/FRTDP.cc:168-216 | one such trial from the root at depth 0; reports whether its width is below the target precision |
| `HsviSearch.HSVI.GetMaxExcessUncOutcome` | src/search/HSVI.cc:50-74 | the first edge of highest probability-weighted excess uncertainty; there is one exactly if the discount is positive |
| `HsviSearch.ExcessMultiplies` | src/search/HSVI.cc:50-74 | the excess uncertainty of a sure edge is the excess width of its node, and the probabilities of edges taken one after the other multiply |
| `HsviSearch.DepthExists` | src/search/HSVI.cc:86-134 | for discount below 1 some depth allows any given width |
| `HsviSearch.TooWideIsShallow` | src/search/HSVI.cc:86-134 | a node too wide for its depth is above every depth that allows all widths |
| `HsviSearch.NoExcessIsNarrow` | src/search/HSVI.cc:50-74 | no excess uncertainty means narrow enough for the next depth |
| `HsviSearch.LeafNarrows` | src/search/HSVI.cc:86-134 | an update whose successors are narrow enough for the next depth leaves the node narrow enough for its own, if its greedy action has no self-loop |
| `HsviSearch.BottomNarrows` | src/search/HSVI.cc:86-134 | so the node below which a trial stops is left at most as wide as its depth allows |
| `HsviSearch.HSVI.Update` | src/search/HSVI.cc:76-84 | backs up one node, picks the first edge of highest excess uncertainty under the reported action (none exactly at discount 0), and narrows the node if the trial is about to stop there; for discounts from 0 to 1 |
| `HsviSearch.HSVI.TrialRecurse` | src/search/HSVI.cc:86-134 | given a depth that allows every width, terminates without a depth cap, and reports the way it takes: each node too wide for its depth is updated and followed by the first outcome of highest excess uncertainty, one level deeper; it stops at a node that is not too wide, and then updates every other node again, deepest first; fails after one update, as the assertion on the outcome does, exactly if it has to go on at discount 0; goes no deeper than the first depth that allows every width, and the last node above the stop is left narrow enough |
| `HsviSearch.HSVI.DoTrial` | src/search/HSVI.cc:136-184 | for every discount below 1 one such trial, whose target is 0.95 times the root width, ends; it fails exactly if the discount is 0 and the root has width; otherwise the same guarantees, and it reports whether the root is within the target precision |
| `HsviDescents.DescentIsShort` | src/search/HSVI.cc:86-134 | below discount 1 no way down is longer than the first depth at which every node is narrow enough |
| `HsviDescents.TreadmillNeverEnds` | src/search/HSVI.cc:86-134 | at discount 1, a state that leads back to itself without reward has ways down of any length |
| `HsviDescents.TrialsEndExactly` | src/search/HSVI.cc:86-134 | so trials end on every model exactly for the discounts below 1 |
| `GridIndex.IndexInjective` | src/pomdpModels/lifeSurvey/LSModelFile.cc:125-132 | row-by-row storage gives different cells different positions |
| `LifeSurvey.ReachesIffPath` | src/pomdpModels/lifeSurvey/LifeSurvey.cc:229-275 | backward reachability of a region is the existence of a path of moves over open cells |
| `LifeSurvey.MovesUseRoom` | src/pomdpModels/lifeSurvey/LifeSurvey.cc:277-289 | every move on the map uses up room, because 2x - y grows |
| `LifeSurvey.MarkIsSound` | src/pomdpModels/lifeSurvey/LifeSurvey.cc:229-275 | marking a cell next to a marked one marks only cells that reach the region |
| `LifeSurvey.FixpointComplete` | src/pomdpModels/lifeSurvey/LifeSurvey.cc:229-275 | when nothing more can be marked, every cell that reaches the region is marked |
| `LifeSurvey.Sweep` | src/pomdpModels/lifeSurvey/LifeSurvey.cc:229-275 | one sweep keeps the marks sound, counts its changes, and reports none only at the fixpoint |
| `LifeSurvey.CalculateRegionReachable` | src/pomdpModels/lifeSurvey/LifeSurvey.cc:229-275 | the sweeps terminate, and mark exactly the cells from which the region can be reached |
| `PathPlanner.PathAndReactExec.GetAtExit` | src/pomdpModels/lifeSurvey/LSModelFile.cc:134-143 | a cell is at an exit exactly when no open cell lies east of it in its row |
| `PathPlanner.SampleProbMonotone` | src/pomdpModels/lifeSurvey/LSPathAndReactExec.cc:258-346 | more looks into a region never lower the chance of finding life |
| `PathPlanner.MissesMultiply` | src/pomdpModels/lifeSurvey/LSPathAndReactExec.cc:286-291 | one look finds life with the prior probability, none never does, and the chances that independent looks miss it multiply |
| `PathPlanner.OnlySampleProb` | src/pomdpModels/lifeSurvey/LSPathAndReactExec.cc:286-291 | no other function has these properties |
| `PathPlanner.SampleProbIsSuccess` | src/pomdpModels/lifeSurvey/LSPathAndReactExec.cc:286-291 | so the chance to find life in a region is that of at least one success in its looks, as independent events |
| `PathPlanner.MeanIsSum` | src/pomdpModels/lifeSurvey/LSPathAndReactExec.cc:214-217 | the expected number of independent events that happen is the sum of their probabilities |
| `PathPlanner.ValueIsExpectation` | src/pomdpModels/lifeSurvey/LSPathAndReactExec.cc:214-217 | so the value of a path is the expected number of different regions in which it samples life, as the comment promises |
| `PathPlanner.LegalExactly` | src/pomdpModels/lifeSurvey/LSPathAndReactExec.cc:263-277 | a path is legal exactly if it starts at the start and every entry is one step to the north-east, east or south-east of the entry before, on an open cell, without a sharp turn and not from an exit |
| `PathPlanner.ForwardCounts` | src/pomdpModels/lifeSurvey/LSPathAndReactExec.cc:263-277 | the looks into a region that an entry adds are the number of such steps into it, and those of a path with one entry are just these |
| `PathPlanner.DeadStays` | src/pomdpModels/lifeSurvey/LSPathAndReactExec.cc:258-346 | a region out of reach stays out of reach and gains no more looks |
| `PathPlanner.DeadSuffix` | src/pomdpModels/lifeSurvey/LSPathAndReactExec.cc:258-346 | the same along any continuation |
| `PathPlanner.RoomFalls` | src/pomdpModels/lifeSurvey/LifeSurvey.cc:277-289 | a path never returns to a cell |
| `PathPlanner.Splice` | src/pomdpModels/lifeSurvey/LSPathAndReactExec.cc:258-346 | paths with the same last entry have the same continuations |
| `PathPlanner.PathAndReactExec.CountForward` | src/pomdpModels/lifeSurvey/LSPathAndReactExec.cc:258-346 | counts exactly the cells in front of the last path entry, by region |
| `PathPlanner.PathAndReactExec.FoldUnreachable` | src/pomdpModels/lifeSurvey/LSPathAndReactExec.cc:258-346 | folds the regions that are out of reach into the settled value, once each |
| `PathPlanner.StepTracks` | src/pomdpModels/lifeSurvey/LSPathAndReactExec.cc:258-346 | so the value entry kept along the search describes the path it belongs to |
| `PathPlanner.ReportedValue` | src/pomdpModels/lifeSurvey/LSPathAndReactExec.cc:258-346 | the value reported for a complete path never exceeds its true value, and equals it exactly if no region of interest got exactly LS_UNREACHABLE (9) looks |
| `PathPlanner.ReportedBounds` | src/pomdpModels/lifeSurvey/LSPathAndReactExec.cc:286-301 | what is reported lies between 0 and the true value, and is the true value exactly if no region of interest got 9 looks |
| `PathPlanner.RoutesReported` | src/pomdpModels/lifeSurvey/LSPathAndReactExec.cc:286-301 | on a map with two routes, one is worth 1.5 but reported as 0.5 because of nine looks at a sure region; the other is worth 1 and reported so |
| `PathPlanner.PathAndReactExec.DominatesEntry` | src/pomdpModels/lifeSurvey/LSPathAndReactExec.cc:363-373 | the dominance test is componentwise comparison of settled value and counts |
| `PathPlanner.DominatesForever` | src/pomdpModels/lifeSurvey/LSPathAndReactExec.cc:363-373 | whatever completes the dominated path completes the dominating one with at least the same value, if the dominated completion is reported in full |
| `PathPlanner.ClearFamily` | src/pomdpModels/lifeSurvey/LSPathAndReactExec.cc:348-373 | the complete paths worth a given value or more are such a family if all of them are reported in full |
| `PathPlanner.DominatedIsCovered` | src/pomdpModels/lifeSurvey/LSPathAndReactExec.cc:348-361 | a pruned path is covered by the path that dominates it, although that path may still be under extension: every family of complete paths that pruning can only exchange for one another is matched by the best value found |
| `PathPlanner.PathAndReactExec.GetValueIsDominated` | src/pomdpModels/lifeSurvey/LSPathAndReactExec.cc:348-361 | answers true exactly if an entry stored for the same cell and direction dominates, and only if the prefix is covered by the best value found so far; otherwise stores the entry, and changes nothing else |
| `PathPlanner.CoveredByExtensions` | src/pomdpModels/lifeSurvey/LSPathAndReactExec.cc:258-346 | a path is covered once its one-step extensions are |
| `PathPlanner.PathAndReactExec.TryExtension` | src/pomdpModels/lifeSurvey/LSPathAndReactExec.cc:303-340 | one direction: pushes the next entry, searches on, pops it again, and leaves the longer prefix covered |
| `PathPlanner.BestExtension` | src/pomdpModels/lifeSurvey/LSPathAndReactExec.cc:218-256 | among the complete paths through a prefix, if any, one is worth the most |
| `PathPlanner.PathAndReactExec.TryExtensions` | src/pomdpModels/lifeSurvey/LSPathAndReactExec.cc:258-346 | tries every legal direction, in order, keeps the first of the best outcomes, and covers the prefix |
| `PathPlanner.PathAndReactExec.GetBestExtension` | src/pomdpModels/lifeSurvey/LSPathAndReactExec.cc:258-346 | terminates with the prefix restored; returns a complete path through it with the value reported for it, or nothing; the prefix is covered by the best value found so far |
| `PathPlanner.PathAndReactExec.GeneratePath` | src/pomdpModels/lifeSurvey/LSPathAndReactExec.cc:218-256 | for every map: if there is a complete path, one is planned, with the value reported for it, which is its true value exactly if no region of interest has 9 looks on it; no path is worth more than the planned value unless some path worth as much has such a region; if the paths of greatest value are alike in this, a best path is found with its value exactly if they have no such region |
| `PathPlanner.PlannedIsBest` | src/pomdpModels/lifeSurvey/LSPathAndReactExec.cc:218-256 | the last step: what is reported in full and beats all clear paths is the best path exactly if the best paths are clear |
| `PathPlanner.ShortFamily` | src/pomdpModels/lifeSurvey/LSPathAndReactExec.cc:348-373 | on the map with two routes no other path can replace the short one |
| `PathPlanner.WorsePathIsPlanned` | src/pomdpModels/lifeSurvey/LSPathAndReactExec.cc:218-346 | there the planner returns the route worth 1 although the other is worth 1.5 |
| `SparseVectors.Lookup` | src/common/sla.h:357-368 | the early-stopping scan finds the stored value, or 0 |
| `SparseVectors.Add` | src/common/sla.h:938-1001 | the two-pointer merge is the pointwise sum, with sorted indices |
| `SparseVectors.Subtract` | src/common/sla.h:1003-1066 | the two-pointer merge is the pointwise difference |
| `SparseVectors.EMult` | src/common/sla.h:796-822 | the two-cursor walk is the pointwise product |
| `SparseVectors.WeightedIsDot` | src/common/sla.h:894-899 | summing over the stored entries is the dense inner product |
| `SparseVectors.InnerProdDense` | src/common/sla.h:894-899 | inner product of a dense and a compressed vector |
| `SparseVectors.InnerProd` | src/common/sla.h:902-926 | the two-cursor walk is the dense inner product |
| `SparseVectors.Dominates` | src/common/sla.h:1077-1142 | true exactly if x is nowhere more than eps below y |
| `SparseVectors.Advance` | src/common/sla.h:796-811 | the inner cursor loop stops at the first index not below the one sought |
| `SparseVectors.MaskSubset` | src/common/sla_mask.h:78-97 | true exactly if every stored index of x is stored in the mask |
| `SparseVectors.MaskCopy` | src/common/sla_mask.h:100-110 | the part of a dense vector at the stored indices of the mask |
| `SparseVectors.MaskPart` | src/common/sla_mask.h:113-134 | the part of a compressed vector at the stored indices of the mask |
| `SparseVectors.ScaleBy` | src/common/sla.h:370-375 | multiplies every element |
| `SparseMatrices.StableSort` | src/common/sla.h:470-487 | the stable column-major sort keeps the last pushed value of every cell |
| `SparseMatrices.KMatrix.PushBack` | src/common/sla.h:456-458 | the cell pushed takes the new value, every other cell keeps its own |
| `SparseMatrices.KMatrix.Canonicalize` | src/common/sla.h:470-487 | sorted, one entry per cell, and every cell keeps its last pushed value |
| `SparseMatrices.CanonicalUnique` | src/common/sla.h:470-487 | a canonical list is determined by its cells |
| `SparseMatrices.KMatrix.TransposeInPlace` | src/common/sla.h:656-660 | exchanges rows and columns of every cell and of the sizes |
| `SparseMatrices.TransposeTwice` | src/common/sla.h:656-660 | transposing twice restores the canonical list |
| `SparseMatrices.FixStarts` | src/common/sla.h:529-550 | the forward patching of column starts makes them the exact bounds of the columns |
| `SparseMatrices.CompressedIsValid` | src/common/sla.h:593-602 | the compressed form has monotone starts and sorted column slices |
| `SparseMatrices.CompressedGet` | src/common/sla.h:509-523 | a cell of the compressed form holds what the list holds, or 0 |
| `SparseMatrices.Compress` | src/common/sla.h:593-602 | from any order of pushes each cell of the compressed matrix holds the last pushed value, 0 if that is tiny |
| `SparseMatrices.LookupCell` | src/common/sla.h:509-523 | the column scan returns the value of the cell |
| `SparseMatrices.Sparse` | src/common/sla.h:580-591 | a compressed copy stores exactly the elements that are not tiny |
| `SparseMatrices.MultDense` | src/common/sla.h:699-714 | the column-wise loop computes the dense matrix-vector product at the length of the vector; it fails exactly if a column that is used stores an element below the last row of the result |
| `SparseMatrices.DropTiny` | src/common/sla.h:717-756 | drops exactly the tiny elements |
| `SparseMatrices.MultAccumulate` | src/common/sla.h:717-756 | the branch with a sparse accumulator computes the product without tiny elements, those below the last row of the result included |
| `SparseMatrices.SparseProductIsValid` | src/common/sla.h:717-756 | such a result is well formed exactly if all elements below its last row are tiny |
| `SparseMatrices.NothingBelow` | src/common/sla.h:699-714 | without overflow the product is 0 below the last row of the result |
| `SparseMatrices.SparseIsUnique` | src/common/sla.h:717-756 | that form is unique, so both branches of the product return the same vector |
| `SparseMatrices.Mult` | src/common/sla.h:717-756 | fails exactly if the dense branch is taken and overflows; otherwise, whichever branch is taken, the result is the product without tiny elements; matrices with no more rows than columns never fail |
| `Beliefs.RatioBelow` | src/pomdpBounds/SawtoothUpperBound.cc:82-148 | scaled by the min-ratio, the point fits under the belief |
| `Beliefs.RatioTight` | src/pomdpBounds/SawtoothUpperBound.cc:82-148 | and touches it |
| `Beliefs.RatioRange` | src/pomdpBounds/SawtoothUpperBound.cc:82-148 | the min-ratio of two beliefs is between 0 and 1, so the correction branch for larger ratios is never taken |
| `Beliefs.RatioVanishes` | src/pomdpBounds/SawtoothUpperBound.cc:82-148 | it is 0 if the point has a state the belief lacks |
| `Beliefs.RatioChain` | src/pomdpBounds/SawtoothUpperBound.cc:152-157 | min-ratios are submultiplicative |
| `Beliefs.BelowCorners` | src/pomdpBounds/SawtoothUpperBound.cc:159-176 | a sublinear value lies below the plane through corner values that bound it |
| `Beliefs.PointBounds` | src/pomdpBounds/SawtoothUpperBound.cc:82-148 | and below the bound that any valid point induces |
| `SawtoothBound.GetBVValue` | src/pomdpBounds/SawtoothUpperBound.cc:82-148 | the sparse two-pointer walk computes the dense min-ratio bound; it answers "no bound" exactly if the point is not below the plane or has a state the belief lacks |
| `SawtoothBound.MinRatio` | src/pomdpBounds/SawtoothUpperBound.cc:82-148 | the loop with a cursor into the belief computes the min-ratio; there is none exactly if the belief lacks a state of the point |
| `SawtoothBound.DominatesEverywhere` | src/pomdpBounds/SawtoothUpperBound.cc:152-157 | domination at one point is domination at every belief, up to the tolerance |
| `SawtoothBound.UsefulSharesFirst` | src/pomdpBounds/SawtoothUpperBound.cc:159-176 | a point from the support list that matters for a belief shares its first state |
| `SawtoothBound.RemovalCost` | src/pomdpBounds/SawtoothUpperBound.cc:195-242 | removing a dominated point raises no belief's bound by more than the tolerance |
| `SawtoothBound.DeletionCost` | src/pomdpBounds/SawtoothUpperBound.cc:178-193 | the same for the bound looked up through support lists |
| `SawtoothBound.PointIsSound` | src/pomdpBounds/SawtoothUpperBound.cc:82-148 | a valid point bounds every sublinear value function it bounds at its own belief |
| `SawtoothBound.BoundIsSound` | src/pomdpBounds/SawtoothUpperBound.cc:159-176 | so the whole bound lies above every such value function |
| `SawtoothBound.SawtoothUpperBound.GetValue` | src/pomdpBounds/SawtoothUpperBound.cc:159-176 | the least of plane and listed point bounds |
| `SawtoothBound.SawtoothUpperBound.ValueIsSound` | src/pomdpBounds/SawtoothUpperBound.cc:159-176 | the value looked up is an upper bound whenever corners and points are |
| `SawtoothBound.SawtoothUpperBound.ValueAtPoint` | src/pomdpBounds/SawtoothUpperBound.cc:274-302 | a listed point is found again when its own belief is looked up, also through the support list |
| `SawtoothBound.SawtoothUpperBound.DominatesPair` | src/pomdpBounds/SawtoothUpperBound.cc:152-157 | decides domination from the cached plane values |
| `SawtoothBound.SawtoothUpperBound.FindDominator` | src/pomdpBounds/SawtoothUpperBound.cc:195-242 | finds a dominating rival exactly if there is one among the pairs that are not skipped (both points created no later than the last pruning) |
| `SawtoothBound.SawtoothUpperBound.DeleteAndForward` | src/pomdpBounds/SawtoothUpperBound.cc:178-193 | takes a point off exactly the support lists that hold it |
| `SawtoothBound.SawtoothUpperBound.Prune` | src/pomdpBounds/SawtoothUpperBound.cc:195-242 | no belief's bound, looked up or scanned, rises by more than the tolerance for each point deleted; only dominated points are deleted, and the list is unchanged if none is; afterwards no point is dominated by a rival in a pair that is not skipped, nor in any pair if no skipped pair needed pruning before |
| `SawtoothBound.SawtoothUpperBound.MaybePrune` | src/pomdpBounds/SawtoothUpperBound.cc:244-251 | prunes exactly when the list has outgrown the last pruning |
| `SawtoothBound.SawtoothUpperBound.WhichCornerPoint` | src/pomdpBounds/SawtoothUpperBound.cc:254-272 | the one state with more than the corner tolerance, if there is just one |
| `SawtoothBound.SawtoothUpperBound.AddPoint` | src/pomdpBounds/SawtoothUpperBound.cc:274-302 | overwrites the corner value for a nearly sure belief, and otherwise appends the point to the list and to the support lists of its states; a valid bound stays valid unless the belief is nearly sure but not sure; afterwards no skipped pair needs pruning exactly if the point fits and, unless a corner value was overwritten, none did before |
| `SawtoothBound.SafeExactly` | src/pomdpBounds/SawtoothUpperBound.cc:254-302 | for every belief: writing its value over corner k is safe for all sublinear value functions, valid corner values and bounds exactly if the belief is that corner |
| `SawtoothBound.CornerExactIsSafe` | src/pomdpBounds/SawtoothUpperBound.cc:254-302 | so every corner that a belief may overwrite is safe exactly if the belief is nearly sure of a state only when it is sure of it |
| `SawtoothBound.AlmostSureIsUnsafe` | src/pomdpBounds/SawtoothUpperBound.cc:254-302 | an instance: a belief that is nearly but not quite sure of one of two states |
| `SawtoothBound.AddedExactly` | src/pomdpBounds/SawtoothUpperBound.cc:220-224 | a point fits exactly if it brings no skipped pair that needs pruning: a listed one that is late (created no later than the last pruning) must not dominate a listed rival or be dominated by one, an overwritten corner value must not make a skipped rival dominate |
| `SawtoothRuns.RunOk` | src/pomdpBounds/SawtoothUpperBound.cc:195-251 | in every run of additions and prunings no listed point and no pruning is later than the backup count |
| `SawtoothRuns.RunSound` | src/pomdpBounds/SawtoothUpperBound.cc:68-79 | in every run the bound lies above every sublinear value function that the corner values at the start and the values added respect, at all times and at every belief |
| `SawtoothRuns.BoundFalls` | src/pomdpBounds/SawtoothUpperBound.cc:159-176 | lowering a corner value raises no bound |
| `SawtoothRuns.RunRemembers` | src/pomdpBounds/SawtoothUpperBound.cc:68-79 | in every run the value added for a belief is remembered, up to one tolerance for each point gone since, as long as corner values do not rise |
| `SawtoothRuns.DominatesAfterCorner` | src/pomdpBounds/SawtoothUpperBound.cc:274-284 | exactly when a point dominates another one after a corner value has been overwritten, by the change of the corner value and the share of that state left over |
| `SawtoothRuns.SkippingIsJustifiedExactly` | src/pomdpBounds/SawtoothUpperBound.cc:220-224 | in every run, at all times the pairs that the next pruning skips need no pruning, exactly if every point fits when it is added |
| `SawtoothRuns.InTimeIsEnough` | src/pomdpBounds/SawtoothUpperBound.cc:220-224 | so if, after the first pruning, points are added at higher backup counts than the last pruning and no corner value is overwritten, every pruning leaves no point dominated by a rival |
| `SawtoothRuns.PairStays` | src/pomdpBounds/SawtoothUpperBound.cc:195-242 | a pair outlives a pruning if neither point has a dominator in a pair that pruning looks at |
| `SawtoothRuns.LeftOver` | src/pomdpBounds/SawtoothUpperBound.cc:195-242 | a dominated point is left for two reasons only: the pair was skipped, or the dominator lacks the first state of the point |
| `SawtoothCases.MixBound` | src/pomdpBounds/SawtoothUpperBound.cc:82-148 | between beliefs over the same two states the bound is a line from the corner value beyond the belief to the value of the point |
| `SawtoothCases.LatePointStays` | src/pomdpBounds/SawtoothUpperBound.cc:220-224 | a run from the empty list in which a terminal successor sets off a pruning during an expansion; the value of the expanded node, added at the same backup count, dominates an older point, and the next pruning leaves both |
| `SawtoothCases.CornerPairStays` | src/pomdpBounds/SawtoothUpperBound.cc:220-224 | a run in which an overwritten corner value makes an old point dominate another one, and the next pruning leaves both |
| `SawtoothCases.OneSidedPointStays` | src/pomdpBounds/SawtoothUpperBound.cc:205-213 | a run with support lists whose first pruning leaves a dominated point, because the dominator lacks its first state |
| `SawtoothBound.SawtoothUpperBound.BackupIsSound` | src/pomdpBounds/SawtoothUpperBound.cc:317-331 | a backup never drops below the true value of the action |
| `SawtoothBound.SawtoothUpperBound.BackupIsLookahead` | src/pomdpBounds/SawtoothUpperBound.cc:317-331 | nor does it exceed that of any value function not below the bound at the outcomes: it is the true value of the action under every value function that agrees with the bound there |
| `SawtoothBound.SawtoothUpperBound.SureBackup` | src/pomdpBounds/SawtoothUpperBound.cc:317-331 | with a single outcome it is the reward plus the discounted bound there, as the true value is the reward plus the discounted value |
| `SawtoothBound.SawtoothUpperBound.GetNewUBValueQ` | src/pomdpBounds/SawtoothUpperBound.cc:317-331 | backs up one action from looked-up values and caches the result, which is neither above nor below the lookahead on the bound |
| `SawtoothBound.SawtoothUpperBound.GetNewUBValueSimple` | src/pomdpBounds/SawtoothUpperBound.cc:333-357 | backs up every action and reports the first of the best |
| `SawtoothBound.SawtoothUpperBound.GetNewUBValueUseCache` | src/pomdpBounds/SawtoothUpperBound.cc:359-400 | terminates; backs up, one after the other and none twice, the first action of highest cached value, changes no other entry, and stops at one that has been backed up, which is the first of highest cached value |
| `SawtoothBound.SawtoothUpperBound.NewValueIsSound` | src/pomdpBounds/SawtoothUpperBound.cc:359-400 | cached action values stay upper bounds, and the best of them bounds the node |
| `SawtoothBound.SawtoothUpperBound.AddAndPrune` | src/pomdpBounds/SawtoothUpperBound.cc:410-422 | one step of a run: adding a point and pruning if it is time; keeps a valid bound valid, and the bound at the point is at most its value plus one tolerance per point deleted, if the point is sure of a state whenever it is nearly so |
| `SawtoothBound.SawtoothUpperBound.SetUBForNode` | src/pomdpBounds/SawtoothUpperBound.cc:410-422 | the node takes the value; if its belief is sure of a state whenever it is nearly so, the bound stays valid for every value function that fitted under it, and at the node's belief it is at most the new value plus one tolerance per point pruned |
| `SawtoothBound.SawtoothUpperBound.InitNodeBound` | src/pomdpBounds/SawtoothUpperBound.cc:68-74 | a new node takes the looked-up bound, a terminal one 0, and either lies above the value; the bound stays valid, for a terminal node if its belief is sure of a state whenever it is nearly so |
| `SawtoothBound.SawtoothUpperBound.Update` | src/pomdpBounds/SawtoothUpperBound.cc:76-79 | the node takes the backup of the first maximal action, which is exactly its lookahead on the bound as it was, and its cached values stay upper bounds, for every sublinear value function that satisfies the Bellman equation; the whole bound stays valid, and follows at the node's belief, if that belief is sure of a state whenever it is nearly so |
| `MaxPlanesBound.MaxPlanesLowerBound.DominatesPlane` | src/pomdpBounds/MaxPlanesLowerBound.cc:68-76 | decides masked domination up to the tolerance |
| `MaxPlanesBound.WithinValue` | src/pomdpBounds/MaxPlanesLowerBound.cc:68-76 | a stand-in within k tolerances loses at most k tolerances times the norm at every belief the other plane applies to |
| `MaxPlanesBound.LossStep` | src/pomdpBounds/MaxPlanesLowerBound.cc:416-474 | deleting a dominated plane costs one more tolerance |
| `MaxPlanesBound.PruningLoss` | src/pomdpBounds/MaxPlanesLowerBound.cc:416-474 | without extra pruning, no belief's best value falls by more than (planes deleted) x tolerance x norm |
| `MaxPlanesBound.ForwardedValue` | src/pomdpBounds/MaxPlanesLowerBound.cc:487-511 | a node handed to the dominator of its plane loses at most one tolerance |
| `MaxPlanesBound.NodeBoundIsSound` | src/pomdpBounds/MaxPlanesLowerBound.cc:487-511 | if every plane lies below the value where it applies, the bound of a node exceeds the value by no more than the tolerances it was forwarded with |
| `MaxPlanesBound.SupportIsExact` | src/pomdpBounds/MaxPlanesLowerBound.cc:346-371 | the list for the first state of a belief holds every plane that applies to it |
| `MaxPlanesBound.AlwaysApplicable` | src/pomdpBounds/MaxPlanesLowerBound.cc:346-371 | every belief has an applicable plane exactly if some plane has a full mask |
| `MaxPlanesBound.FullMaskStays` | src/pomdpBounds/MaxPlanesLowerBound.cc:416-474 | pruning dominated planes keeps a full mask, so the assertion on the best plane keeps holding |
| `MaxPlanesBound.MaxPlanesLowerBound.GetBestLBPlaneConst` | src/pomdpBounds/MaxPlanesLowerBound.cc:346-371 | looking only at one support list gives the best of all applicable planes, the first in that list |
| `MaxPlanesBound.MaxPlanesLowerBound.GetBestLBPlaneWithCache` | src/pomdpBounds/MaxPlanesLowerBound.cc:379-405 | the cached plane, or a newer one that is worth more; at least as good as every newer applicable plane |
| `MaxPlanesBound.MaxPlanesLowerBound.AddLBPlane` | src/pomdpBounds/MaxPlanesLowerBound.cc:407-414 | appends the plane to the list and to the support lists of its mask |
| `MaxPlanesBound.MaxPlanesLowerBound.SetPlaneForNode` | src/pomdpBounds/MaxPlanesLowerBound.cc:284-319 | afterwards each node's cached plane is live, applicable, and pointed back to exactly once; the node takes plane, value and time, but a plane worth less than its bound is ignored and leaves all three |
| `MaxPlanesBound.MaxPlanesLowerBound.CachePlane` | src/pomdpBounds/MaxPlanesLowerBound.cc:284-319 | the node takes plane, value and time; moves its back-pointer from its old plane to the new one, and leaves all caches exact |
| `MaxPlanesBound.MaxPlanesLowerBound.ForwardPointers` | src/pomdpBounds/MaxPlanesLowerBound.cc:487-511 | every node that cached the victim caches the dominator, no node caches the victim any more, and all back-pointers stay exact |
| `MaxPlanesBound.MaxPlanesLowerBound.DeletePlane` | src/pomdpBounds/MaxPlanesLowerBound.cc:487-511 | deletes one plane with lists, support lists, caches and back-pointers kept |
| `MaxPlanesBound.MaxPlanesLowerBound.CompareCandidate` | src/pomdpBounds/MaxPlanesLowerBound.cc:416-474 | compares a candidate with the members so far and deletes whichever is dominated |
| `MaxPlanesBound.MaxPlanesLowerBound.PruneStep` | src/pomdpBounds/MaxPlanesLowerBound.cc:416-474 | the members so far stay free of domination; the loop makes progress |
| `MaxPlanesBound.MaxPlanesLowerBound.PrunePlanes` | src/pomdpBounds/MaxPlanesLowerBound.cc:416-474 | leaves no plane that dominates another one, with the caches of all nodes exact and the loss bounded as above |
| `MaxPlanesBound.MaxPlanesLowerBound.MaybePrune` | src/pomdpBounds/MaxPlanesLowerBound.cc:478-485 | prunes exactly when the list has outgrown the last pruning |
| `MaxPlanesBound.MaxPlanesLowerBound.InitNodeBound` | src/pomdpBounds/MaxPlanesLowerBound.cc:256-268 | a new node caches a best plane for its belief and takes its value, which is below the value function if all planes are |
| `MaxPlanesBound.MaxPlanesLowerBound.Update` | src/pomdpBounds/MaxPlanesLowerBound.cc:270-278 | lists the new plane, masked by the node's belief, and prunes; the planes stay valid if the new one is; between updates every node's cached plane is live, applicable, pointed back to exactly once and gives the node's bound up to the tolerances it was forwarded with |
| `PlaneBackups.GetNewLBPlaneQ` | src/pomdpBounds/MaxPlanesLowerBound.cc:167-230 | the loop over the observations computes, on the states of the belief, reward plus discounted sum of the weighted planes sent back over the transitions, up to one tiny element per observation |
| `PlaneBackups.GetNewLBPlane` | src/pomdpBounds/MaxPlanesLowerBound.cc:232-254 | the first of the actions whose plane is worth the most at the belief, with that plane |
| `PlaneBackups.Exchange` | src/pomdpBounds/MaxPlanesLowerBound.cc:167-230 | sending a plane back over the transitions and the belief forward over them give the same product |
| `PlaneBackups.ObsSumsAreForward` | src/pomdpBounds/MaxPlanesLowerBound.cc:167-230 | so the plane at any weights is worth what the planes of the successors are worth at the weights after action and observation |
| `PlaneBackups.BetaBelow` | src/pomdpBounds/MaxPlanesLowerBound.cc:178-202 | the plane used for an outcome, masked or default, is below the value on all weights that the belief can lead to |
| `PlaneBackups.NewPlaneIsBelow` | src/pomdpBounds/MaxPlanesLowerBound.cc:167-230 | the new plane lies below every value function that satisfies the Bellman inequality with a margin for tiny elements, wherever its mask allows, if the planes it was made from do |
| `PlaneBackups.NewPlaneAttains` | src/pomdpBounds/MaxPlanesLowerBound.cc:167-230 | nor is it lower than need be: at all weights on states of the belief it is worth the reward plus the discounted worth of the planes of the successors, up to tiny elements in either direction |
| `PlaneBackups.JointOfState` | src/pomdpBounds/MaxPlanesLowerBound.cc:167-230 | from a single state, the weight after action and observation is the probability of both |
| `PlaneBackups.NoMassIsLost` | src/pomdpBounds/MaxPlanesLowerBound.cc:167-230 | the weights after action and observation add up to those before |
| `PlaneBackups.RaisedHasMargin` | src/pomdpBounds/MaxPlanesLowerBound.cc:167-230 | a value function raised by sigma per unit of weight has the margin (1 - discount) x sigma |
| `PlaneBackups.NewPlaneIsNear` | src/pomdpBounds/MaxPlanesLowerBound.cc:167-230 | so over any number of backups no plane exceeds the value by more than (number of observations) x (tiny element) x discount / (1 - discount) |
| `PlaneBackups.BelowIsSound` | src/pomdpBounds/MaxPlanesLowerBound.cc:270-278 | such a plane is valid for the bound, which updates with valid planes keep |
| `Geometry.MeetsAreOrdered` | src/mdps/RaceTrack.cc:149-198 | two different open cells that a segment meets are met one before the other |
| `Geometry.EarlierIsStrict` | src/mdps/RaceTrack.cc:149-198 | in the first octant an earlier cell is not further in either coordinate |
| `Geometry.MeetsCrosses` | src/mdps/RaceTrack.cc:149-198 | a cell met satisfies the two integer comparisons of the walk |
| `Geometry.CrossesMeets` | src/mdps/RaceTrack.cc:149-198 | in an inner column the two comparisons suffice |
| `Geometry.FirstColumn` | src/mdps/RaceTrack.cc:149-198 | in the first column only the start cell is met |
| `Geometry.InnerColumn` | src/mdps/RaceTrack.cc:149-198 | in an inner column the cells met are at most two, given by the error term |
| `Geometry.LastColumn` | src/mdps/RaceTrack.cc:149-198 | in the last column only the end cell is met |
| `RaceTrack.Transform` | src/mdps/RaceTrack.cc:149-198 | every step is brought into the first octant by a matrix that undoes it |
| `RaceTrack.OctantMeets` | src/mdps/RaceTrack.cc:149-198 | the transform keeps which cells are met and in which order, in all eight octants |
| `RaceTrack.LineSpecIsUnique` | src/mdps/RaceTrack.cc:149-198 | what a segment runs into first is determined by the map |
| `RaceTrack.FirstHitAt` | src/mdps/RaceTrack.cc:149-198 | the first cell plotted that is not clear is the first such cell on the segment |
| `RaceTrack.Plot` | src/mdps/RaceTrack.cc:149-198 | a cell stops the walk exactly if it is finish or closed, with that outcome |
| `RaceTrack.WalkColumn` | src/mdps/RaceTrack.cc:149-198 | one loop iteration plots exactly the cells met in its column |
| `RaceTrack.LineType` | src/mdps/RaceTrack.cc:149-198 | returns finish or crash according to the first finish or closed cell whose open unit square meets the segment, normal if there is none; every grid access is on the map |
| `RaceTrack.NormalEndsInRing` | src/mdps/RaceTrack.cc:149-198 | a segment over clear cells that starts in the wall ring ends in it |
| `RaceTrack.BorderedIsEnclosed` | src/mdps/RaceTrack.cc:200-239 | a map whose border cells, the newline column aside, are not clear encloses all its cells |
| `RaceTrack.NominalVector` | src/mdps/RaceTrack.cc:425-491 | the outcome vector before lines are checked sums to 1, in slip and wind mode; the error probability is shared equally by the errors |
| `RaceTrack.CheckOutcome` | src/mdps/RaceTrack.cc:425-491 | moves the probability of an outcome whose line is not clear to finish or crash |
| `RaceTrack.GetOutcomeProbVector` | src/mdps/RaceTrack.cc:425-491 | a distribution in which finish and crash carry exactly the probability of the outcomes whose lines end there |
| `RaceTrack.StepLaws` | src/mdps/RaceTrack.cc:493-544 | a driving car is displaced by the velocity it has afterwards, which is the one before plus commanded acceleration and gust, or unchanged when it slips; starts are at rest on a start cell, finish leads to the terminal state, a crash to the initial one, and the terminal state is never left |
| `RaceTrack.EveryCommandAndGust` | src/mdps/RaceTrack.cc:511-525 | every acceleration of at most 1 in each coordinate is commanded by exactly one action, and every one but 0 blows in exactly one outcome |
| `RaceTrack.StepStaysGood` | src/mdps/RaceTrack.cc:493-544 | a step of positive probability leads to the terminal state or to an open non-finish cell in the ring |
| `RaceTrack.StepIsPhysical` | src/mdps/RaceTrack.cc:425-544 | any step of positive probability drives over clear cells by its new velocity, or finishes or crashes on a segment that leads there |
| `RaceTrack.RunStaysGood` | src/mdps/RaceTrack.cc:493-544 | so does every run from the initial state |
| `DecisionTree.DeepCopyNode` | src/parsers/decision-tree.c:140-172 | an equal copy that shares no node with the original |
| `DecisionTree.ConvertToTable` | src/parsers/decision-tree.c:174-193 | a table with the same answers |
| `DecisionTree.GetAdded` | src/parsers/decision-tree.c:195-262 | adding a rule changes exactly the queries that match it, and keeps every table at the size of its level |
| `DecisionTree.AddedOk` | src/parsers/decision-tree.c:195-243 | table indexing stays in bounds, also without observations |
| `DecisionTree.AddInternal` | src/parsers/decision-tree.c:195-243 | the in-place insertion produces a tree with the rule added, re-using nodes or fresh ones only |
| `DecisionTree.AddEverywhere` | src/parsers/decision-tree.c:195-243 | a wildcard goes to the default and to every slot that is set |
| `DecisionTree.AddAt` | src/parsers/decision-tree.c:195-243 | a value goes to its slot, which is first filled with a copy of the default if it was empty |
| `DecisionTree.GetInternal` | src/parsers/decision-tree.c:245-262 | the recursive look-up computes the answer of the tree |
| `DecisionTree.LatestPush` | src/parsers/decision-tree.c:328-346 | the last matching rule wins |
| `DecisionTree.RewardTree.constructor` | src/parsers/decision-tree.c:315-326 | an empty tree for the given numbers of actions, states and observations |
| `DecisionTree.RewardTree.Add` | src/parsers/decision-tree.c:328-336 | appends one rule to what the tree represents |
| `DecisionTree.RewardTree.Query` | src/parsers/decision-tree.c:338-346 | after any sequence of additions the answer is the value of the last rule whose non-wildcard fields all match, 0 if none does |
| `ImmRewards.GetEntryMatrix` | src/parsers/sparse-matrix.c:382-396 | the stored value of a matrix cell, or 0 |
| `ImmRewards.TreeAgrees` | src/parsers/imm-reward.c:262-421 | on every list of value and vector entries the tree gives what the list interpreter gives |
| `ImmRewards.AgreesAfter` | src/parsers/imm-reward.c:262-421 | with one more entry, tree and interpreter give the same answer exactly if: the entry does not apply and they agreed before, or it writes that cell, or the tree gave 0 |
| `ImmRewards.AgreesExactly` | src/parsers/imm-reward.c:262-421 | so for every list they agree on a query exactly if its last applying entry writes the cell, or the tree gave 0 before it, or no entry applies |
| `ImmRewards.ZeroCellIsLost` | src/parsers/imm-reward.c:262-314 | a matrix cell that is not stored does not override an earlier reward of 5 |
| `ImmRewards.RewardStore.AddToDecisionTree` | src/parsers/imm-reward.c:262-314 | the loops write exactly the elements of the entry, over what was there before |
| `ImmRewards.RewardStore.DoneImmReward` | src/parsers/imm-reward.c:316-343 | list and tree take over a finished entry together |
| `ImmRewards.RewardStore.GetImmediateReward` | src/parsers/imm-reward.c:345-421 | answers from the tree; equals the list interpreter exactly under that condition, in particular on lists without matrix entries |
| `REBasicPomdp.JointTotal` | src/pomdpModels/RockExplore/REBasicPomdp.cc:59-138 | summed over the observations, the joint weights give the expectation after the action |
| `REBasicPomdp.JointAdds` | src/pomdpModels/RockExplore/REBasicPomdp.cc:59-138 | the joint weights of a mixture of beliefs add up |
| `REBasicPomdp.SureStep` | src/pomdpModels/RockExplore/REBasicPomdp.cc:59-138 | for a known state and a sure outcome the joint weight is the observation probability there, and the lookahead the reward plus the discounted value there |
| `REBasicPomdp.ObservationsAddUp` | src/pomdpModels/RockExplore/REBasicPomdp.cc:59-96 | the observation weights of a normalized belief sum to 1 |
| `REBasicPomdp.GetBeliefResult` | src/pomdpModels/RockExplore/REBasicPomdp.cc:59-96 | expected reward and the probability of each observation |
| `REBasicPomdp.GetUpdatedBelief` | src/pomdpModels/RockExplore/REBasicPomdp.cc:100-138 | the normalized posterior: for every quantity, its expectation times the observation probability is the joint weight |
| `REBasicPomdp.GetValue` | src/pomdpModels/RockExplore/RockExplorePolicy.cc:226-233 | the expectation of the state values |
| `REBasicPomdp.ExpectedQSplits` | src/pomdpModels/RockExplore/RockExplorePolicy.cc:206-247 | expected state lookahead is expected reward plus discounted expectation |
| `REBasicPomdp.GetBeliefQ` | src/pomdpModels/RockExplore/RockExplorePolicy.cc:236-247 | the lookahead over a normalized belief is the expectation of the lookahead over states |
| `REValueFunctions.REValueFunction.GetMaxQAction` | src/pomdpModels/RockExplore/RockExplorePolicy.cc:212-223 | the scan of the row of Q values that keeps the running best until a value exceeds it by more than the tie tolerance |
| `REValueFunctions.PickIsGood` | src/pomdpModels/RockExplore/RockExplorePolicy.cc:212-223 | no action beats the one chosen by more than the tie tolerance, and it beats every earlier one by more than that |
| `REValueFunctions.PickIsFirstTied` | src/pomdpModels/RockExplore/RockExplorePolicy.cc:212-223 | the action chosen is the first within the tolerance of the maximum exactly if it is the first action or the running best before it is more than the tolerance below it |
| `REValueFunctions.FirstTiedIsPassedOver` | src/pomdpModels/RockExplore/RockExplorePolicy.cc:212-223 | on a model whose actions are worth 0, 0.9 and 1.8 tolerances the third is chosen, although the second is the first tied one |
| `REValueFunctions.REValueFunction.ValueIterationSweep` | src/pomdpModels/RockExplore/RockExplorePolicy.cc:176-184 | replaces the values by those of the chosen actions, all computed from the old values, and returns the largest change |
| `REValueFunctions.SweepContracts` | src/pomdpModels/RockExplore/RockExplorePolicy.cc:176-184 | sweeping brings any two value functions together by the discount, except for the tie tolerance |
| `REValueFunctions.SweepNearOptimal` | src/pomdpModels/RockExplore/RockExplorePolicy.cc:188-200 | a sweep of small residual is close to every solution of the Bellman equation |
| `REValueFunctions.REValueFunction.ValueIterationToResidual` | src/pomdpModels/RockExplore/RockExplorePolicy.cc:188-200 | terminates for every residual above (tie tolerance)/(1 - discount), with an iterate of the sweep near every solution of the Bellman equation |
| `REValueFunctions.NeverSettles` | src/pomdpModels/RockExplore/RockExplorePolicy.cc:188-200 | at that residual or below there is a model on which the changes never fall under it |
| `REValueFunctions.SettlesExactly` | src/pomdpModels/RockExplore/RockExplorePolicy.cc:188-200 | so value iteration settles on every model exactly for the residuals above (tie tolerance)/(1 - discount) |
| `RockExplore.AllBitsCount` | src/pomdpModels/RockExplore/RockExplore.cc:305-358 | there are 2^n vectors in the list |
| `RockExplore.AllBitsDistinct` | src/pomdpModels/RockExplore/RockExplore.cc:305-358 | none is listed twice |
| `RockExplore.AllBitsComplete` | src/pomdpModels/RockExplore/RockExplore.cc:305-358 | none is missing |
| `RockExplore.SuccAt` | src/pomdpModels/RockExplore/RockExplore.cc:305-358 | flipping the trailing ones and the next zero adds one |
| `RockExplore.SuccIsNext` | src/pomdpModels/RockExplore/RockExplore.cc:305-358 | adding one goes through the list in order |
| `RockExplore.TotalIsOne` | src/pomdpModels/RockExplore/RockExplore.cc:305-358 | the vector probabilities sum to 1 |
| `RockExplore.Marginal` | src/pomdpModels/RockExplore/RockExplore.cc:278-299 | the vectors with a rock good have that rock's probability |
| `RockExplore.EffectStaysOk` | src/pomdpModels/RockExplore/RockExplore.cc:70-148 | the robot stays on the map until it exits; no rock turns good; only the rock sampled changes |
| `RockExplore.ActionLaws` | src/pomdpModels/RockExplore/RockExplore.cc:70-148 | direction and pay of every action: moves by one cell for -1, to the exit for 15 exactly from the east side, off the map in place for -100; a sample pays 15 for a good rock, which turns bad, -15 for a bad one, -100 without a rock; a check costs 1 and changes nothing; the terminal state pays nothing |
| `RockExplore.ObsProbsAddUp` | src/pomdpModels/RockExplore/RockExplore.cc:152-187 | observation probabilities form a distribution; a check is always right at the rock and right with probability 0.95 elsewhere; nothing else shows anything |
| `RockExplore.RockExploreModel.GetStateId` | src/pomdpModels/RockExplore/REBasicPomdp.cc:142-157 | one index per state, assigned on first use |
| `RockExplore.RockExploreModel.GetActionResult` | src/pomdpModels/RockExplore/RockExplore.cc:70-148 | the one outcome of an action with its reward; only its state may be entered |
| `RockExplore.RockExploreModel.Advance` | src/pomdpModels/RockExplore/RockExplore.cc:305-358 | the in-place increment is the successor, and reports the last vector |
| `RockExplore.RockExploreModel.GetBelief` | src/pomdpModels/RockExplore/RockExplore.cc:305-358 | a normalized belief at the position with exactly the given marginals; it gives weight to every vector of positive probability |
| `RockExplore.RockExploreModel.GetRockProbs` | src/pomdpModels/RockExplore/RockExplore.cc:278-299 | the marginals of a belief, rock by rock |
| `RockExplore.RockExploreModel.RockProbsRoundTrip` | src/pomdpModels/RockExplore/RockExplore.cc:278-358 | GetRockProbs inverts GetBelief: from the belief made of marginals it recovers them |
| `ReachableStates.ClosedHasAll` | src/pomdpModels/RockExplore/REBasicPomdp.cc:162-191 | a closed table that holds a state holds everything reachable from it |
| `ReachableStates.TryActions` | src/pomdpModels/RockExplore/REBasicPomdp.cc:162-191 | visiting a state queues what each action leads to |
| `ReachableStates.GenerateReachableStates` | src/pomdpModels/RockExplore/REBasicPomdp.cc:162-191 | the breadth-first search terminates with a table that holds every reachable state and nothing else but the terminal state |
| `ReachableStates.ModelIsValid` | src/pomdpModels/RockExplore/REBasicPomdp.cc:162-191 | such a table makes a well-formed model: distributions sum to 1 and indices are in range |

## Left out

- File and model parsing, configuration, logging, plotting, timing, simulation and statistics: no deep invariant.
- Memory freeing, except the back-pointers of planes, which are part of a property.
- Floating-point rounding, and the nine-digit keys under which states are hashed: exact reals and injective keys.
- Hash tables of nodes: a map from keys to positions in a list; pointers to nodes are those positions.
- `RelaxUBInitializer`, `CacheMDP`, `StateLog`, `RTDP` without labels and the scripted updater.
- FRTDP's rule for growing the depth limit, with its quality sums: the next limit is a parameter, so all choices are covered.
- FRTDP and HSVI with POMDP bounds: both are modelled with dual point bounds.
- HSVI's adaptive depth, which is compiled out, and `ubResidual`, which is only reported.
- HsviSearch.HSVI.DoTrial: stated for discounts below 1; `TrialsEndExactly` shows that this is the exact condition for trials to end on every model.
- How many trials FRTDP and HSVI need until the root is narrow enough: one trial is modelled, convergence over trials is not.
- HdpSearch.HDP.Solve: needs at most INT_MAX states, as the source's plus-infinity index is a number, and an initial upper bound that is uniformly improvable. `DoTrial` needs neither improvability nor a bracket for what it says of labels and overwritten values.
- LrtdpSearch.LRTDP.Solve: a trial whose random draws run out is unfinished; that simulated trials finish with probability 1 is not stated.
- PathPlanner.PathAndReactExec.GeneratePath: if some best paths have a region of interest with 9 looks and others have none, only the one-sided claims are stated.
- The policy that reacts to observations while following the planned path, and the outcomes of the LifeSurvey MDP.
- `LSObservation::toInt` and its inverse.
- SawtoothBound.SawtoothUpperBound.Update: validity of the bound is promised for beliefs that are nearly sure of a state only when they are sure of it; `SafeExactly` and `CornerExactIsSafe` show that this is the exact condition.
- SawtoothBound.SawtoothUpperBound.Prune: which points go depends on the order of the list and is not described further.
- The initializers of the POMDP bounds: corner values and first planes are given.
- PlaneBackups.GetNewLBPlaneQ: with masking only; the planes looked up for the successors, and their beliefs, are parameters.
- MaxPlanesBound.MaxPlanesLowerBound.PrunePlanes: which of several planes go depends on the order of the list and is not described further; with extra pruning on, unused planes go without a bound on the loss; the caches stay exact.
- Masking switched off in the max-planes bound, and `getPlaneForNode`, which only chooses between two modelled look-ups.
- `std::stable_sort` is an insertion sort here; the other variants of the vector operations repeat the ones modelled.
- The racetrack's rewards and its bound on them; reading the map is left out, and the wall ring is a precondition that `BorderedIsEnclosed` derives for bordered maps.
- Reading reward entries field by field (`newImmReward`, `enterImmReward`): a finished entry is a value.
- Guards against initializing the decision tree twice, and its deallocation.
- REValueFunctions.REValueFunction.ValueIterationToResidual: stated for residuals above (tie tolerance)/(1 - discount); `SettlesExactly` shows that this is the exact condition for ending on every model.
- RockExplore.RockExploreModel.GetRockProbs: no entry of the belief may be the terminal state, which carries no rock vector.
- RockExplore's policies, its output of Cassandra models and its displays.
