# A verified model of the nGraph TensorFlow bridge

The bridge takes a TensorFlow graph, groups the operations it can run into clusters, replaces every cluster by
one call node, and translates, rewrites and caches what it calls. This project models the six algorithms behind
that and proves what they promise. Everything is stated for all graphs and all runs; `dafny verify dfyconfig.toml`
checks the project.

| file | models |
|---|---|
| `Digraph`, `PearceKelly`, `GraphCycles` | incremental cycle detection with a dynamic topological order, edge contraction, path search |
| `Quotient`, `Clustering`, `AssignClusters` | the greedy contraction of marked operations into clusters, with shadow edges and deadness predicates |
| `Encapsulation`, `EncapsulateClusters` | outlining every cluster into a function graph and splicing in a call node |
| `DeassignClusters` | dissolving small clusters |
| `Pipeline` | the passes one after the other |
| `Predicates`, `Deadness`, `DeadnessAnalysis` | the simplifying formula factory and the abstract interpretation of liveness |
| `Printing`, `Ties` | what the printed predicates tell, and why they identify the predicates of one graph |
| `Executions`, `Mismatches` | the executions of a graph, and how exact the comparison of predicates is |
| `ClusterLiveness` | finished clusters under the liveness of their nodes |
| `Signatures`, `ExecutableCache` | the cache of compiled functions under a printed signature |
| `TensorAlgebra`, `Sinking`, `Foresight`, `SinkingSteps`, `Materializing`, `Purging`, `Residue`, `TransposeSinking` | transpose sinking |
| `SinkingLimits`, `Reshaping`, `RoundTrips` | where it loses the meaning, and where it does not |
| `Sets` | small facts about sets and sequences |

Code that updates objects in place is a class here, too: `GraphCycles` with its nodes, ranks, marks, free list and
scratch vectors; `Assigner` with shared `Cluster` objects; `Encapsulator`, `Analysis`, `Cache` and `Pass` with the
maps and lists they fill. Each method is proved against a specification on values, and the theorems are about that
specification. Iteration over hash sets and hash maps, and over sets ordered by pointers, is in arbitrary order.

## The main results

- *Cycle detection.* In every reachable state ranks are a permutation that ascends along all edges, so the graph is
  acyclic. `InsertEdge` fails exactly when the edge would close a cycle, `ContractEdge` exactly when a second path
  exists; failures change nothing, and none of the insertions `ContractEdge` ignores can fail. All three searches
  agree with reachability.
- *Clusters.* A run that ends without an error yields clusters that nothing leaves and re-enters, that keep static
  inputs and stricter predicates apart, whose dependencies are acyclic, and none of which can grow: every further
  merge breaks a deadness rule, said of the predicates of the nodes, closes a circle of dependencies or joins a static
  input with its source. The error for mixed clusters is unreachable, the ones for cycles and shadow edges occur
  exactly on circular checked edges and on circular dependencies, and on acyclic dependencies without control flow
  surprises there is no error at all.
- *Encapsulation.* For any meaning of the operations, valuations of the original and of the encapsulated graph
  correspond to each other in both directions, loops included. Exactly the nodes of clusters that are large enough are
  encapsulated. Clustering, dissolving and encapsulating close no cycle apart from those through source, sink or
  NextIteration nodes, at which the edges are free, and none but through NextIteration if source and sink are ends of
  the graph (`Pipeline.Run`).
- *Deadness.* Predicates hold exactly on live outputs, in every execution, and there is exactly one execution for
  every behaviour of receiving nodes, loops and truth values. Simplification keeps the meaning, yields a normal form
  and is idempotent. Within a graph the printed predicates identify the predicates. Comparing them never misses a
  mismatch, and is exact on conjunctions, hence where no Merge upstream has a choice (`MismatchExactUpstream`). So the
  stricter nodes of a finished cluster are live together (`ClusterLiveness`).
- *Cache.* A hit returns what a fresh translation and compilation would give for the shapes of all inputs and the
  static inputs if these print without loss; if some do not, two calls exist of which the second is answered wrongly.
  The cache holds exactly the most recently used signatures until a compilation fails after an eviction.
- *Transposes.* What the pass will hold against every output is computed from the graph before the pass, and with it
  the fragment of graphs on which every step is supported (`Foresight.InFragment`). A run is supported exactly on
  these, and on each of them, however the final graph is evaluated, every operation the pass does not know, results
  included, sees and gives the tensors it did before, and the transposes that are left are new ones that stand exactly
  where a foretold order demands it. Tensors are a shape and a function from indices to elements, the operations on
  elements are arbitrary. Where the pass loses the meaning, the exact condition is proved.

## Where the code differs from what it says or should do

- The comment at `ngraph_bridge/tf_deadness_analysis.cc:373` speaks of "any" input; the code takes the conjunction,
  and so does the model.
- `SymbolPredicate::ToString` (`ngraph_bridge/tf_deadness_analysis.cc:190-211`) does not show `must_be_true`, so
  formulas with different meanings may print alike (`PrintingConfuses`, and exactly when: `PrintsAlikeIff`). The
  clustering compares these strings. That is sound all the same: no two predicates of one analysed graph collide
  (`PredicatesPrintApart`).
- Comparing predicates for equality (`ngraph_bridge/tf_deadness_analysis.cc:448-462`) may report inputs that are live
  together in every execution (`EquivalentYetDifferent`), but only if a disjunction is involved or hashes collide
  (`MismatchExact`).
- `sink_binary` (`ngraph_bridge/pass/transpose_sinking.cc:319-328`) converts both inputs when two different orders
  both move axes, each by the order of the other. The result is wrong, and `BinaryPreservedIff` shows that this is the
  only way to lose the meaning on inputs of equal rank.
- With two default orders of different rank (`ngraph_bridge/pass/transpose_sinking.cc:307-315`) the order of the right
  input is taken when the left one is stretched, and may have too few axes (`DefaultOrdersIff`). The shapes compared
  are cached ones, and behind transposes that undo each other the one of the left input may be out of date; then the
  wrong order is taken even if it is not stretched (`RoundTripIff`, `InstanceRun`).
- The reshape inserted for an input with fewer axes (`ngraph_bridge/pass/transpose_sinking.cc:200-208`) keeps the
  elements in row-major order, so it stands in for a transpose only if the axes longer than 1 keep their order
  (`ReshapePreservedIff`): always for a vector, not in general for a matrix. Its shape is computed from a cached one,
  which has to be up to date (`ReshapesIff`).
- `sink_pad` (`ngraph_bridge/pass/transpose_sinking.cc:358-360`) puts the first output of the source node in the place
  of whichever output was padded (`PadPreservedIff`).
- `DeassignClusters` (`ngraph_bridge/deassign_clusters.cc:183`) lists the trivial types as Const and "Identitiy", so
  nodes of type Identity count as non-trivial; the model spells the type as the code does.
- Merging clusters takes only the contracted edge off the record (`ngraph_bridge/assign_clusters.cc:271-277`). An edge
  inside a cluster of True nodes that stays on record can later keep that cluster from a stricter one
  (`Clustering.StillRecorded`, one of the three cases of `VerdictExact`).
- A failed compilation (`ngraph_bridge/kernels/ngraph_encapsulate_op.cc:419-424`) comes after the eviction. If the
  cache was full it then holds one signature less than it could, and only then (`EvictedExactly`), until it is full
  again (`FullIsExact`).
- Static inputs enter the signature as printed text (`ngraph_bridge/tf_utils.cc:33-40`); where printing loses
  information the cache may return an executable compiled for other values (`LossyGoesStale`), and only there.

## Model

| member | source | states |
|---|---|---|
| `GraphCycles.GraphCycles.constructor` | ngraph_bridge/tf_graphcycles.cc:91 | an empty graph satisfies the representation invariant |
| `GraphCycles.GraphCycles.ValidIsAcyclic` | ngraph_bridge/tf_graphcycles.cc:24-30 | in every reachable state the edges form no cycle |
| `GraphCycles.GraphCycles.CheckInvariants` | ngraph_bridge/tf_graphcycles.cc:100-120 | returns true exactly when no mark is left, no rank is used twice and every edge goes up in rank; in a valid state it always does |
| `GraphCycles.GraphCycles.NewNode` | ngraph_bridge/tf_graphcycles.cc:122-138 | the node returned was not live, has no edges, is the last one freed, with its old rank, or else new with the next rank; no edge changes |
| `GraphCycles.GraphCycles.RemoveNode` | ngraph_bridge/tf_graphcycles.cc:140-151 | exactly the edges at the node disappear and the node joins the free list; ranks stay |
| `GraphCycles.GraphCycles.HasEdge` | ngraph_bridge/tf_graphcycles.cc:161-163 | tells whether the edge is in the edge relation |
| `GraphCycles.GraphCycles.RemoveEdge` | ngraph_bridge/tf_graphcycles.cc:165-168 | exactly that edge disappears; the ranks stay valid |
| `GraphCycles.GraphCycles.InsertEdge` | ngraph_bridge/tf_graphcycles.cc:179-210 | succeeds exactly when y does not reach x (so fails for x = y); then the edge is added and only ranks between those of y and x move; on failure edges and ranks are as before, and the invariant (mirrored sets, no marks, ranks a permutation, edges ascending) holds either way |
| `GraphCycles.GraphCycles.InsertNew` | ngraph_bridge/tf_graphcycles.cc:186-210 | the branch that records a new edge first: it is kept exactly when it closes no cycle and taken back otherwise |
| `GraphCycles.GraphCycles.Adjust` | ngraph_bridge/tf_graphcycles.cc:191-209 | with the edge recorded, either the ranks ascend along all edges or y already reaches x and the ranks are untouched |
| `GraphCycles.GraphCycles.SearchBoth` | ngraph_bridge/tf_graphcycles.cc:196-207 | the two bounded searches find exactly the nodes below rank(x) that y reaches and those above rank(y) that reach x, or a cycle |
| `GraphCycles.GraphCycles.Undo` | ngraph_bridge/tf_graphcycles.cc:198-204 | a failed insertion leaves edges and marks as they were |
| `GraphCycles.GraphCycles.ForwardDFS` | ngraph_bridge/tf_graphcycles.cc:212-238 | marks a set closed under successors below the bound that contains the start, or stops at an edge that meets the bound |
| `GraphCycles.GraphCycles.BackwardDFS` | ngraph_bridge/tf_graphcycles.cc:240-260 | marks a set closed under predecessors above the bound that contains the start, apart from the marks found set |
| `GraphCycles.GraphCycles.Reorder` | ngraph_bridge/tf_graphcycles.cc:262-280 | the ranks of the two searched sets are pooled and handed out in the order backward nodes, forward nodes, each in old rank order; all marks are clear afterwards |
| `GraphCycles.GraphCycles.SortDeltas` | ngraph_bridge/tf_graphcycles.cc:282-292 | both lists are sorted by rank |
| `GraphCycles.GraphCycles.MoveToList` | ngraph_bridge/tf_graphcycles.cc:294-301 | appends the nodes, replaces them by their ranks and clears their marks |
| `GraphCycles.GraphCycles.ClearVisitedBits` | ngraph_bridge/tf_graphcycles.cc:303-307 | clears the marks of exactly these nodes |
| `PearceKelly.ReorderAscends` | ngraph_bridge/tf_graphcycles.cc:262-280 | the Pearce-Kelly step: after the reordering every old edge and the new one go up in rank, and the ranks are a permutation of 0..n-1 |
| `PearceKelly.ReorderPermutes` | ngraph_bridge/tf_graphcycles.cc:269-279 | redistributing the pooled ranks keeps the ranks a permutation |
| `PearceKelly.ReorderIsLocal` | ngraph_bridge/tf_graphcycles.cc:192-207 | only nodes ranked from y up to x change rank, and they stay in that range |
| `PearceKelly.BackwardDown` | ngraph_bridge/tf_graphcycles.cc:269-279 | backward nodes only move down |
| `PearceKelly.ForwardUp` | ngraph_bridge/tf_graphcycles.cc:269-279 | forward nodes only move up |
| `PearceKelly.BackwardBelowForward` | ngraph_bridge/tf_graphcycles.cc:266-279 | every backward node ends below every forward node |
| `PearceKelly.OrderKept` | ngraph_bridge/tf_graphcycles.cc:282-292 | neither list changes its internal order |
| `PearceKelly.SortSorts` | ngraph_bridge/tf_graphcycles.cc:282-292 | sorting by rank sorts |
| `PearceKelly.MergeSorted` | ngraph_bridge/tf_graphcycles.cc:269-275 | merging two increasing lists of different ranks gives an increasing list |
| `PearceKelly.BoundedSearchComplete` | ngraph_bridge/tf_graphcycles.cc:212-238 | a search bounded by the rank of y that never meets that rank proves that y is not reached |
| `GraphCycles.SearchesExact` | ngraph_bridge/tf_graphcycles.cc:212-260 | the two searches together collect exactly the affected region |
| `GraphCycles.ForwardFoundCycle` | ngraph_bridge/tf_graphcycles.cc:227-229 | meeting the bound in the forward search means that the new edge closes a cycle |
| `GraphCycles.ReorderedInsert` | ngraph_bridge/tf_graphcycles.cc:192-209 | if the reordering takes place the new edge closes no cycle |
| `GraphCycles.GraphCycles.IsReachable` | ngraph_bridge/tf_graphcycles.cc:349-351 | the full search is true exactly when a path exists |
| `GraphCycles.GraphCycles.IsReachableNonConst` | ngraph_bridge/tf_graphcycles.cc:353-370 | the rank-bounded search agrees with true reachability in every valid state and leaves edges and ranks alone |
| `GraphCycles.GraphCycles.FindPath` | ngraph_bridge/tf_graphcycles.h:112-123 | a positive length exactly when the target is reachable; the path starts at x, follows edges, repeats no node and ends at y; the array holds its prefix |
| `GraphCycles.GraphCycles.Walk` | ngraph_bridge/tf_graphcycles.cc:309-347 | the marker-stack search terminates and what it has entered and not left is a path |
| `GraphCycles.NothingLeft` | ngraph_bridge/tf_graphcycles.cc:320-346 | when the stack is empty everything reachable was entered, so the target is not reachable |
| `GraphCycles.GraphCycles.CanContractEdge` | ngraph_bridge/tf_graphcycles.cc:372-380 | predicts ContractEdge: true exactly when no path from a to b remains without the edge; edges and ranks as before |
| `GraphCycles.GraphCycles.ContractEdge` | ngraph_bridge/tf_graphcycles.cc:382-410 | fails exactly when another path from a to b exists, and then edges and ranks are as before; otherwise the edges are those of the graph with b renamed to a, and b is free |
| `GraphCycles.GraphCycles.InsertOuts` | ngraph_bridge/tf_graphcycles.cc:403-405 | none of the ignored insertions fails |
| `GraphCycles.GraphCycles.InsertIns` | ngraph_bridge/tf_graphcycles.cc:406-408 | none of the ignored insertions fails |
| `GraphCycles.GraphCycles.Detach` | ngraph_bridge/tf_graphcycles.cc:392-401 | b's sets are moved out and b disappears from its neighbours |
| `Digraph.ContractAcyclic` | ngraph_bridge/tf_graphcycles.cc:382-410 | contracting an edge that is the only path between its ends keeps a graph acyclic |
| `Digraph.ContractCyclic` | ngraph_bridge/tf_graphcycles.cc:384-390 | contracting an edge beside another path would close a cycle, so the refusal is necessary |
| `Digraph.AscendingIsAcyclic` | ngraph_bridge/tf_graphcycles.cc:24-30 | ranks that go up along all edges rule out cycles |
| `Digraph.EndsAreOnNoCycle` | ngraph_bridge/assign_clusters.cc:331-352 | nodes to which no edge leads, or from which none leads away, are on no cycle, so leaving out their edges changes nothing |
| `GraphCycles.GraphCycles.Successors` | ngraph_bridge/tf_graphcycles.cc:412-414 | the out set of a node |
| `GraphCycles.GraphCycles.Predecessors` | ngraph_bridge/tf_graphcycles.cc:416-418 | the in set of a node |
| `AssignClusters.AssignClusters` | ngraph_bridge/assign_clusters.cc:295-627 | a successful run yields a valid clustering (every marked node in exactly one cluster, nothing leaves a cluster and re-enters it, static inputs and stricter predicates apart), an acyclic graph of dependencies between the clusters, and clusters that cannot grow: merging the ends of any checked edge between marked operations breaks a deadness rule, closes a circle of dependencies or joins a static input with its source; the mixed-cluster error never occurs, the cycle error exactly if the checked edges are circular, the shadow-edge error exactly if only the static inputs make the dependencies circular, and no error at all on acyclic dependencies without control flow surprises |
| `AssignClusters.Prepare` | ngraph_bridge/assign_clusters.cc:308-400 | node set-up, edges and shadow edges: the cycle error exactly if the checked edges are circular, the shadow-edge error exactly if they are not but become so with the edges of static inputs |
| `AssignClusters.Run` | ngraph_bridge/assign_clusters.cc:435-627 | contraction and tagging from a prepared state: the clustering is valid and cannot grow, and without control flow surprises there is no error |
| `AssignClusters.Assigner.AddNodes` | ngraph_bridge/assign_clusters.cc:308-329 | every node starts as its own cluster with its own predicate and outgoing edges |
| `AssignClusters.Assigner.InsertCheckedEdges` | ngraph_bridge/assign_clusters.cc:331-352 | all edges not touching NextIteration are inserted, or the graph has a cycle |
| `AssignClusters.Assigner.AddShadows` | ngraph_bridge/assign_clusters.cc:380-400 | every static input with a non-constant source gets a shadow path, nothing else enters the contraction graph, and this succeeds exactly if the dependencies are acyclic |
| `AssignClusters.Assigner.InsertShadowPath` | ngraph_bridge/assign_clusters.cc:388-396 | exactly the two edges of the path are added, or only the first one if the end reaches the start |
| `AssignClusters.Assigner.CanContractEdgeDeadnessCheck` | ngraph_bridge/assign_clusters.cc:114-189 | the verdict is the one the deadness rules give; VerdictExact says what that means for the nodes of the two clusters |
| `Clustering.VerdictExact` | ngraph_bridge/assign_clusters.cc:114-189 | in every state of a run: an error exactly if a node of either cluster is a control flow operation, or if the first cluster has a node that is not True and the second one has none; a mismatch exactly if two nodes of the clusters have different predicates other than True, or a True node would leave the merged cluster for one that is not as strict, or all nodes of the first cluster are True, the second is stricter and an edge inside the first one is still on record |
| `AssignClusters.Assigner.CheckNodeClusterAssignmentWRTDeadness` | ngraph_bridge/assign_clusters.cc:192-244 | the sanity check of one node against its cluster |
| `AssignClusters.Assigner.MergeClusters` | ngraph_bridge/assign_clusters.cc:251-288 | merging the shared cluster objects merges the two clusters, and nothing else changes |
| `AssignClusters.Assigner.TryContract` | ngraph_bridge/assign_clusters.cc:448-541 | one edge: merged only if contractible, free of deadness conflict and joined; the two control flow errors exactly on the corresponding verdicts; an edge left alone is blocked |
| `AssignClusters.Assigner.ContractAll` | ngraph_bridge/assign_clusters.cc:435-554 | the loop terminates; without an error every contractible edge is blocked in a contraction graph that consists of the checked edges and the shadow paths only |
| `AssignClusters.Assigner.TagClusters` | ngraph_bridge/assign_clusters.cc:559-627 | clusters of marked nodes get consecutive tags from the first one on, without a gap; fails exactly if a marked node is a control flow operation |
| `Clustering.CoversMerge` | ngraph_bridge/assign_clusters.cc:513-517 | a merge keeps: every checked edge between different clusters has an edge between their indices |
| `Clustering.ShadowedMerge` | ngraph_bridge/assign_clusters.cc:376-400 | a merge keeps both edges of every shadow path |
| `Clustering.NothingElseMerge` | ngraph_bridge/assign_clusters.cc:376-400 | a merge brings nothing into the contraction graph but the edges between the new clusters and the shadow paths |
| `Clustering.ShadowSeparates` | ngraph_bridge/assign_clusters.cc:354-400 | the ends of a shadowed edge are in different clusters in every state of every run |
| `Clustering.MarkedTogetherMerge` | ngraph_bridge/assign_clusters.cc:448-470 | only marked operations ever share a cluster |
| `Clustering.OutCompleteMerge` | ngraph_bridge/assign_clusters.cc:271-277 | merging keeps every outgoing edge between different clusters recorded |
| `Clustering.OwnPredKeptMerge` | ngraph_bridge/assign_clusters.cc:106-112 | a node with a predicate of its own stays in clusters of that predicate |
| `Clustering.TrueNodesFollowMerge` | ngraph_bridge/assign_clusters.cc:156-186 | a True node in a stricter cluster leads only to clusters as strict |
| `Clustering.PredHasOriginMerge` | ngraph_bridge/assign_clusters.cc:106-112 | a cluster's predicate is True or that of one of its nodes |
| `Clustering.NoStrictToTrueMerge` | ngraph_bridge/assign_clusters.cc:154-163 | if no edge leads from a stricter cluster to a True one, a merge creates none, so the control-flow-node error stays out of reach |
| `Clustering.DeadnessMerge` | ngraph_bridge/assign_clusters.cc:114-189 | the four deadness invariants together survive every permitted merge |
| `Clustering.InvariantsMerge` | ngraph_bridge/assign_clusters.cc:513-517 | everything a run relies on survives every merge |
| `Clustering.InitialInvariants` | ngraph_bridge/assign_clusters.cc:308-352 | and holds at the start |
| `Clustering.CheckExact` | ngraph_bridge/assign_clusters.cc:192-244 | in every reachable state the sanity check fails on control flow operations only |
| `Clustering.NoControlFlowMet` | ngraph_bridge/assign_clusters.cc:124-134 | without marked control flow operations the control-flow error is never raised |
| `Clustering.MergeShrinks` | ngraph_bridge/assign_clusters.cc:435-554 | every merge removes a cluster, the measure of the loop |
| `Clustering.NoReentry` | ngraph_bridge/assign_clusters.cc:63-77 | no path of operations leaves a cluster and comes back |
| `Clustering.ClusterGraphAcyclic` | ngraph_bridge/assign_clusters.cc:63-77 | the graph of dependencies between the clusters, checked edges and static inputs, is acyclic |
| `Clustering.SecondPathFails` | ngraph_bridge/assign_clusters.cc:513-541 | when the contraction graph refuses an edge, the merge itself would make the dependencies circular or join a static input with its source: the refusal does not depend on that graph |
| `Clustering.MaximalCannotGrow` | ngraph_bridge/assign_clusters.cc:79 | so when the loop stops the clusters cannot grow, whatever the order in which edges were tried: each edge left between two clusters has one of the three reasons, said of the nodes, or merging its ends closes a circle of dependencies or joins a static input with its source |
| `Clustering.AllTrueGrown` | ngraph_bridge/assign_clusters.cc:79 | where all predicates are True, as in a graph without control flow, only the dependencies can keep two clusters apart that an edge joins |
| `Clustering.PutTogetherMerge` | ngraph_bridge/assign_clusters.cc:271-277 | the edges no longer on record stay a spanning forest of the clusters: they connect exactly the nodes that share a cluster, and there are as many as there are nodes more than clusters |
| `Clustering.DepsAcyclic` | ngraph_bridge/assign_clusters.cc:380-400 | if every shadow path went in, the dependencies were acyclic |
| `Clustering.ShadowRefused` | ngraph_bridge/assign_clusters.cc:390-396 | if one did not, they were not |
| `Clustering.TagsAreValid` | ngraph_bridge/assign_clusters.cc:63-77 | the tags of a finished run meet every requirement of the header comment; a cluster holds one predicate besides True, and an edge that leaves it from a True node leads to a cluster with that predicate, too |
| `Clustering.ClusterIsPure` | ngraph_bridge/assign_clusters.cc:590-600 | a cluster with a marked node has only marked nodes |
| `Quotient.DissolveAcyclic` | ngraph_bridge/deassign_clusters.cc:177-211 | dissolving any set of clusters of an acyclic cluster graph back to single nodes keeps the cluster graph acyclic |
| `Quotient.FinePathInsideIsEdgePath` | ngraph_bridge/deassign_clusters.cc:199-211 | inside a dissolved cluster a path between classes is a path between nodes |
| `DeassignClusters.DeassignClusters` | ngraph_bridge/deassign_clusters.cc:165-211 | a node keeps its cluster, and its tag, exactly if the cluster has at least the given number of nodes whose type is neither Const nor Identitiy (as it is spelled there); any other node loses it |
| `EncapsulateClusters.Encapsulator.constructor` | ngraph_bridge/encapsulate_clusters.cc:107-108 | nothing analysed, nothing rewritten |
| `EncapsulateClusters.Encapsulator.AnalysisPass` | ngraph_bridge/encapsulate_clusters.cc:110-396 | refused after either pass; otherwise fails exactly if a cluster is spread over two devices, and leaves the graph alone |
| `EncapsulateClusters.Encapsulator.CheckDevices` | ngraph_bridge/encapsulate_clusters.cc:121-147 | every cluster's device is recorded, or two nodes of a cluster disagree |
| `EncapsulateClusters.Encapsulator.NumberPorts` | ngraph_bridge/encapsulate_clusters.cc:149-284 | arguments and results are numbered densely from 0 per cluster, one per distinct output, in agreement with the remap tables |
| `EncapsulateClusters.Encapsulator.Extract` | ngraph_bridge/encapsulate_clusters.cc:307-391 | the function graph of every cluster has a copy of each node, its inputs from outside replaced by the arguments |
| `EncapsulateClusters.Encapsulator.RewritePass` | ngraph_bridge/encapsulate_clusters.cc:398-554 | refused before the analysis or a second time; otherwise the graph becomes the encapsulated one: what was fed by an output is fed by its new place, and control edges go between the representatives |
| `EncapsulateClusters.Encapsulator.AddCallNodes` | ngraph_bridge/encapsulate_clusters.cc:409-473 | one new node per cluster, its inputs the argument ports in order |
| `EncapsulateClusters.Encapsulator.RedirectEdges` | ngraph_bridge/encapsulate_clusters.cc:475-533 | every edge that leaves a cluster starts at the call node's result, control edges at either end move to the call node |
| `EncapsulateClusters.Encapsulator.RemoveClustered` | ngraph_bridge/encapsulate_clusters.cc:535-550 | exactly the clustered nodes and the edges at them are removed |
| `EncapsulateClusters.Encapsulator.GetNewClusterIDs` | ngraph_bridge/encapsulate_clusters.cc:556-567 | the clusters that have a node in the graph, after an analysis and also after the rewriting; an error before it |
| `Encapsulation.NumbersDistinct` | ngraph_bridge/encapsulate_clusters.cc:188-271 | two result numbers, or two argument numbers, of a cluster never denote the same output |
| `Encapsulation.OutputStep` | ngraph_bridge/encapsulate_clusters.cc:188-225 | numbering one more edge keeps results dense and unique |
| `Encapsulation.InputStep` | ngraph_bridge/encapsulate_clusters.cc:227-271 | numbering one more edge keeps arguments dense and unique |
| `Encapsulation.SplicedIsRewritten` | ngraph_bridge/encapsulate_clusters.cc:409-550 | call nodes added, edges redirected and clustered nodes removed give exactly the specified graph |
| `Encapsulation.MeaningCarriesOver` | ngraph_bridge/encapsulate_clusters.cc:110-554 | for any meaning of the operations, a valuation of the original graph gives one of the encapsulated graph, call nodes evaluated as their function graphs |
| `Encapsulation.MeaningComesBack` | ngraph_bridge/encapsulate_clusters.cc:110-554 | every valuation of the encapsulated graph and its function graphs gives one of the original graph |
| `Encapsulation.ValuesDetermined` | ngraph_bridge/encapsulate_clusters.cc:110-554 | in an acyclic graph the operations determine all values |
| `Encapsulation.SurvivorsCompute` | ngraph_bridge/encapsulate_clusters.cc:110-554 | every surviving node, and every copied node inside its function graph, computes what it computed before |
| `Encapsulation.EdgeStandsFor` | ngraph_bridge/encapsulate_clusters.cc:409-533 | every edge of the new graph stands for an old one between the nodes it represents |
| `Encapsulation.LabelPairsKept` | ngraph_bridge/encapsulate_clusters.cc:409-533 | and no dependency between different representatives is lost |
| `Encapsulation.RewrittenAcyclic` | ngraph_bridge/encapsulate_clusters.cc:409-533 | if the clusters do not depend on each other in a circle, the encapsulated graph is acyclic |
| `Pipeline.LabelsDissolve` | ngraph_bridge/deassign_clusters.cc:177-211 | a cluster stays together exactly if its tag is among those kept, and the others turn into single nodes, whatever edges there are at source, sink and NextIteration nodes |
| `Pipeline.EncapsulatedAcyclic` | ngraph_bridge/ngraph_rewrite_pass.cc:82-97 | clustering, dissolving any clusters and encapsulating the rest closes no cycle: without the edges at source, sink and NextIteration nodes the new graph is acyclic |
| `Pipeline.CyclesIterate` | ngraph_bridge/ngraph_rewrite_pass.cc:82-97 | if no edge leads to the source and none away from the sink, the edges there may stay: every cycle of the new graph meets a NextIteration node |
| `Pipeline.EncapsulatedMeans` | ngraph_bridge/encapsulate_clusters.cc:110-554 | every valuation of the original graph is found again in the encapsulated one and the other way round, also with loops; in an acyclic graph surviving and extracted nodes have the same values however both are evaluated |
| `Pipeline.EncapsulateGraph` | ngraph_bridge/encapsulate_clusters.cc:73-105 | analysis and rewriting in a row succeed exactly if no cluster has nodes on two devices; the graph is then encapsulated, and a copied node waits for exactly the nodes of its cluster it waited for |
| `Pipeline.Run` | ngraph_bridge/ngraph_rewrite_pass.cc:80-101 | the passes one after the other: the clustering succeeds on acyclic dependencies without control flow surprises, the rest exactly if no cluster left has nodes on two devices; a node is clustered at the end exactly if its cluster has enough nodes that are not trivial, under its tag, and there is one call node for each tag that is left; the graph encapsulates these clusters, has no cycle but through source, sink and NextIteration nodes, none but through NextIteration if source and sink are ends, and its valuations correspond to those of the graph before, uniquely without loops |
| `DeadnessAnalysis.MakeAndOrImpl` | ngraph_bridge/tf_deadness_analysis.cc:261-306 | the loops over the operands compute the specified simplification, and under every assignment it holds exactly if all operands do, or if one does |
| `DeadnessAnalysis.Simplify` | ngraph_bridge/tf_deadness_analysis.cc:263-284 | removes repeated operands and inlines operands of the same kind |
| `DeadnessAnalysis.HasComplement` | ngraph_bridge/tf_deadness_analysis.cc:288-299 | finds an operand whose negation is there, too |
| `Predicates.MakeAndOrMeans` | ngraph_bridge/tf_deadness_analysis.cc:261-306 | under every assignment the simplified formula holds exactly when the conjunction or disjunction of the operands does |
| `Predicates.MakeAndOrNormal` | ngraph_bridge/tf_deadness_analysis.cc:261-306 | on formulas made by the factory the result is in normal form: never one operand, none of the parent's kind, none twice, none with its negation, sorted by ascending hash |
| `Predicates.NormalIsFixed` | ngraph_bridge/tf_deadness_analysis.cc:261-306 | rebuilding a normal formula from its operands gives it back |
| `Predicates.MakeAndOrIdempotent` | ngraph_bridge/tf_deadness_analysis.cc:261-306 | simplifying the operands of a result again changes nothing |
| `Predicates.MakeAndOrCanonical` | ngraph_bridge/tf_deadness_analysis.cc:301-305 | the result does not depend on the order of the operands if no two of them share a hash |
| `Predicates.PrintedForms` | ngraph_bridge/tf_deadness_analysis.cc:112-200 | what the strings look like: operands in parentheses with their operator between them, a tilde for negation, names for the empty formulas |
| `Predicates.PrintsTrue` | ngraph_bridge/tf_deadness_analysis.cc:106-200 | only the True predicate prints as #true |
| `Predicates.PrintingConfuses` | ngraph_bridge/tf_deadness_analysis.cc:190-211 | printing drops whether a symbol must be true, so two formulas with different meanings may print alike |
| `Printing.PrintsAlikeIff` | ngraph_bridge/tf_deadness_analysis.cc:106-211 | with injective names free of separators, formulas made by the factory print alike exactly if they differ in nothing but that |
| `Ties.PredicatesPrintApart` | ngraph_bridge/tf_deadness_analysis.cc:416-437 | within one analysed graph the strings identify the predicates, whatever the hash: two predicates print alike exactly if they are equal |
| `Ties.TiedStep` | ngraph_bridge/tf_deadness_analysis.cc:356-437 | the reason: wherever a symbol occurs in a conjunction, so do the conditions under which its tensor is live, and the stable sort puts liveness and truth of one tensor always in the same order; every handler keeps that |
| `Ties.SortPrecedes` | ngraph_bridge/tf_deadness_analysis.cc:301-305 | the sort is stable |
| `Ties.ErasedApart` | ngraph_bridge/tf_deadness_analysis.cc:190-211 | formulas of that kind which differ only in what their symbols stand for are equal |
| `Deadness.SlotTells` | ngraph_bridge/tf_deadness_analysis.cc:356-414 | the predicate of an output is right if those of the inputs are, for every kind of node |
| `Deadness.ExecutorRules` | ngraph_bridge/tf_deadness_analysis.cc:340-354 | what the analysis looks at is what the executor goes by, said of the edges alone: all tensors that come in, for a Merge any tensor from a slot other than the control slot, for a Switch the first edge into input 1 |
| `Deadness.AnalysedMeansAt` | ngraph_bridge/tf_deadness_analysis.cc:356-414 | of every analysed node, and for all truth values of the symbols: its predicate holds exactly if those of all tensors that come in do, for a Merge outside loops if one from a data slot does, with the condition added at the outputs of a Switch and a symbol at a Recv; a Merge in a loop is a symbol |
| `Deadness.AnalysedStep` | ngraph_bridge/tf_deadness_analysis.cc:416-437 | one more node keeps all predicates sound, normal and uniform over a node's outputs |
| `Deadness.OrderGivesInputs` | ngraph_bridge/tf_deadness_analysis.cc:416-437 | in reverse post order, back edges cut, every predicate that is looked up is there |
| `Deadness.EqualPredicatesAgree` | ngraph_bridge/tf_deadness_analysis.cc:439-469 | inputs with equal predicates are live or dead together in every execution |
| `Executions.ExecutionExists` | ngraph_bridge/tf_deadness_analysis.cc:49-61 | for all arrivals at receiving nodes and loops and all truth values an ordered graph has an execution |
| `Executions.ExecutionUnique` | ngraph_bridge/tf_deadness_analysis.cc:356-414 | and only one: they determine what is live |
| `Mismatches.EqualIffTogether` | ngraph_bridge/tf_deadness_analysis.cc:439-469 | predicates that are conjunctions of symbols told apart by their hashes are equal exactly if their tensors are live together in every execution |
| `Mismatches.MismatchExact` | ngraph_bridge/tf_deadness_analysis.cc:439-469 | on inputs with such predicates a mismatch is reported exactly if an execution has one input live and another dead |
| `Mismatches.MismatchExactUpstream` | ngraph_bridge/tf_deadness_analysis.cc:439-469 | the same of a graph, without mention of its predicates: exact if, upstream of the node, every tensor is live in some execution and no Merge outside a loop has data inputs that may differ in liveness, and the hashes tell the literals of the graph apart |
| `Mismatches.UpstreamLiterals` | ngraph_bridge/tf_deadness_analysis.cc:356-437 | under these conditions all predicates upstream are conjunctions of literals about the graph |
| `Mismatches.ComeApart` | ngraph_bridge/tf_deadness_analysis.cc:439-469 | if a literal of one conjunction is missing in the other, some execution has the other live and the one dead |
| `Mismatches.EquivalentYetDifferent` | ngraph_bridge/tf_deadness_analysis.cc:448-462 | with disjunctions the comparison errs on the safe side: a graph with a Merge in which, whatever the hash, two inputs are reported although they are live together in every execution |
| `DeadnessAnalysis.ReportedInVain` | ngraph_bridge/tf_deadness_analysis.cc:439-469 | running the analysis and the query on that graph does report the mismatch that is none |
| `DeadnessAnalysis.Analysis.Populate` | ngraph_bridge/tf_deadness_analysis.cc:416-437 | all predicates are sound: in every execution an output is live exactly if its predicate holds; every output of every node has one, which means what AnalysedMeansAt says; the internal check cannot fail on a proper order |
| `DeadnessAnalysis.Analysis.GetIncomingPreds` | ngraph_bridge/tf_deadness_analysis.cc:340-354 | the predicates of the selected edges in order, or a failure exactly if one is unknown: of all edges, of exactly those from slots other than the control slot, or of exactly those from it |
| `DeadnessAnalysis.Analysis.SetPred` | ngraph_bridge/tf_deadness_analysis.cc:319-321 | records a predicate once |
| `DeadnessAnalysis.Analysis.HandleSwitch` | ngraph_bridge/tf_deadness_analysis.cc:356-376 | each output gets the conjunction of the inputs, with the condition at output 1 and its negation at output 0 |
| `DeadnessAnalysis.Analysis.HandleMerge` | ngraph_bridge/tf_deadness_analysis.cc:378-393 | a fresh symbol if a data edge comes from a NextIteration, otherwise a predicate that holds exactly if that of some edge from a slot other than the control slot does |
| `DeadnessAnalysis.Analysis.HandleRecv` | ngraph_bridge/tf_deadness_analysis.cc:395-404 | the conjunction of all inputs and a fresh symbol |
| `DeadnessAnalysis.Analysis.HandleGeneric` | ngraph_bridge/tf_deadness_analysis.cc:406-414 | the conjunction of all inputs, for all outputs |
| `DeadnessAnalysis.Analysis.HasInputsWithMismatchingDeadness` | ngraph_bridge/tf_deadness_analysis.cc:439-469 | true exactly if two inputs have different predicates; if false, all inputs are live or dead together in every execution |
| `DeadnessAnalysis.Analysis.GetNodePredicate` | ngraph_bridge/tf_deadness_analysis.cc:471-497 | the printed predicate of the outputs in use; fails only on a Switch whose outputs differ |
| `DeadnessAnalysis.Analysis.StringsIdentify` | ngraph_bridge/tf_deadness_analysis.cc:471-497 | in every state of an analysis the strings tell the predicates of the graph apart |
| `DeadnessAnalysis.Analysis.TrueNodesAreLive` | ngraph_bridge/tf_deadness_analysis.cc:471-497 | a node whose predicate prints as #true is live in every execution |
| `ClusterLiveness.NodeStrings` | ngraph_bridge/assign_clusters.cc:308-328 | the string of every node before clustering, or a failure exactly if the outputs in use of some node differ |
| `ClusterLiveness.ClusterLivesTogether` | ngraph_bridge/assign_clusters.cc:71-77 | in a finished cluster the nodes with a predicate other than True are live together in every execution, and those with True are always live |
| `ClusterLiveness.LeavesTogether` | ngraph_bridge/assign_clusters.cc:156-186 | where an edge leaves such a cluster from a True node, the reader or a node of its cluster is live together with the stricter nodes the edge leaves |
| `ExecutableCache.Cache.GetExecutable` | ngraph_bridge/kernels/ngraph_encapsulate_op.cc:361-453 | the executable returned is the one stored under the signature, and on a miss or with faithful signatures the one a fresh compilation would give of the translation for the shape of every input, in order, and exactly the static tensors in their places; the list is updated as least-recently-used demands; the exact error cases with the state they leave; an exact cache stays exact unless a failed compilation follows an eviction |
| `ExecutableCache.Cache.ComputeSignature` | ngraph_bridge/kernels/ngraph_encapsulate_op.cc:366-390 | the printed shapes and static data, an error exactly if a static input cannot be printed; and what translation would be handed: one shape per input in order, and at each place the static tensor or none |
| `ExecutableCache.Cache.Evict` | ngraph_bridge/kernels/ngraph_encapsulate_op.cc:402-417 | a full cache drops the oldest signature with its executable |
| `ExecutableCache.Cache.Hit` | ngraph_bridge/kernels/ngraph_encapsulate_op.cc:444-451 | a hit moves the signature to the front |
| `ExecutableCache.Cache.Miss` | ngraph_bridge/kernels/ngraph_encapsulate_op.cc:398-428 | a miss translates, makes room, compiles and stores; a failed translation changes nothing, a failed compilation leaves list and map after the eviction |
| `ExecutableCache.EvictedExactly` | ngraph_bridge/kernels/ngraph_encapsulate_op.cc:405-424 | after a failed compilation an exact cache is exact exactly if it had room |
| `ExecutableCache.FullIsExact` | ngraph_bridge/kernels/ngraph_encapsulate_op.cc:405-428 | a full cache is exact, so filling it makes up for the loss |
| `ExecutableCache.LossyGoesStale` | ngraph_bridge/kernels/ngraph_encapsulate_op.cc:366-453 | for every kernel with a static input of which two elements print alike there are a translation, a compilation and two calls of which the second returns the executable of the first, not a fresh one |
| `ExecutableCache.TouchedRecent` | ngraph_bridge/kernels/ngraph_encapsulate_op.cc:405-451 | the list stays a prefix of the distinct signatures in order of last use |
| `ExecutableCache.TouchedExactlyRecent` | ngraph_bridge/kernels/ngraph_encapsulate_op.cc:405-451 | after successful calls the cache holds exactly the D most recently used distinct signatures, newest first |
| `ExecutableCache.MostRecentOrder` | ngraph_bridge/kernels/ngraph_encapsulate_op.cc:444-451 | order of last use: of two distinct signatures the one in front was used after the other one was used last |
| `ExecutableCache.KeysCount` | ngraph_bridge/kernels/ngraph_encapsulate_op.cc:412-417 | the size of the map is the length of the list |
| `Signatures.SignatureDetermines` | ngraph_bridge/kernels/ngraph_encapsulate_op.cc:366-390 | calls with equal signatures have inputs of equal shapes, and equal static inputs if elements print without loss |
| `Signatures.LossyConfuses` | ngraph_bridge/tf_utils.cc:33-40 | two elements that print alike make two calls that differ in a static input and share a signature |
| `Signatures.FaithfulIffLossless` | ngraph_bridge/kernels/ngraph_encapsulate_op.cc:366-390 | equal signatures mean equal shapes and equal static inputs, for all calls, exactly if static inputs print without loss |
| `Signatures.IntegersAreLossless` | ngraph_bridge/tf_utils.cc:33-40 | integer static inputs print without loss |
| `Signatures.DecimalInjective` | ngraph_bridge/tf_utils.cc:33-40 | different integers print differently, without separators |
| `Signatures.ListsInjective` | ngraph_bridge/kernels/ngraph_encapsulate_op.cc:370-377 | lists of separated lists can be read back |
| `TransposeSinking.ApplyPermutation` | ngraph_bridge/pass/transpose_sinking.cc:40-47 | the loop computes input[order[i]] at every position i |
| `TransposeSinking.PermutationToDefaultOrder` | ngraph_bridge/pass/transpose_sinking.cc:49-56 | the loop computes the inverse permutation |
| `TransposeSinking.CombineTransposes` | ngraph_bridge/pass/transpose_sinking.cc:118-134 | the combined order is the first order followed by the second |
| `TransposeSinking.Pass.InsertTranspose` | ngraph_bridge/pass/transpose_sinking.cc:136-152 | a new transpose over the first output of the source node becomes the input |
| `TransposeSinking.Pass.DeleteTranspose` | ngraph_bridge/pass/transpose_sinking.cc:154-165 | every user of the transpose uses its input instead |
| `TransposeSinking.Pass.ConvertBinaryToDefaultOrder` | ngraph_bridge/pass/transpose_sinking.cc:188-222 | with equal ranks a transpose of the inverse order becomes the input, with fewer axes a reshape to the cached shape widened and put in that order, and the other pending transpose moves to the output; more axes are refused and change nothing |
| `TransposeSinking.Pass.PropagateBinary` | ngraph_bridge/pass/transpose_sinking.cc:305-318 | the left transpose moves to the output if the cached shape of the left input is that of the result, the right one otherwise, and both are marked |
| `TransposeSinking.Pass.MaterializeShapes` | ngraph_bridge/pass/transpose_sinking.cc:224-250 | default transposes for all outputs, every input's transpose marked and inserted if it moves axes |
| `TransposeSinking.Pass.SinkTranspose` | ngraph_bridge/pass/transpose_sinking.cc:252-268 | the combined transpose takes the place of both and is marked |
| `TransposeSinking.Pass.SinkUnary` | ngraph_bridge/pass/transpose_sinking.cc:270-277 | the input's transpose is pending for the output |
| `TransposeSinking.Pass.SinkBinary` | ngraph_bridge/pass/transpose_sinking.cc:279-329 | the resulting state in every case: which transpose is propagated, which inputs are converted, and what an exception in the first or in the second conversion leaves behind; and which case it was, from the orders and cached shapes of the inputs alone |
| `TransposeSinking.Pass.SinkPad` | ngraph_bridge/pass/transpose_sinking.cc:331-367 | the new pad has the amounts moved by the inverse order and reads the first output of the source node |
| `TransposeSinking.Pass.SinkConcat` | ngraph_bridge/pass/transpose_sinking.cc:369-423 | under equal orders the new axis is order[axis]; otherwise everything is materialized |
| `TransposeSinking.Pass.Step` | ngraph_bridge/pass/transpose_sinking.cc:443-469 | how a step ends follows from the graph before the pass and what was foretold to be held against the inputs; a supported step keeps the invariant: an original output is its pending transpose applied to the rewritten output, and order and cached shapes are the foretold ones |
| `TransposeSinking.Pass.PurgeTransposes` | ngraph_bridge/pass/transpose_sinking.cc:471-475 | bypassing the marked transposes, in any order, keeps what every other node sees |
| `TransposeSinking.Pass.RunOnFunction` | ngraph_bridge/pass/transpose_sinking.cc:434-475 | a run ends as foretold by the graph before the pass, at the first step that is not supported if there is one, so it is supported exactly on the graphs in the fragment; on every such graph, however the final graph is evaluated, every opaque operation (results included) sees and gives exactly the tensors it did before the pass, and such an evaluation exists; and in the final graph a transpose is read exactly where one is wanted, always a new one: by opaque nodes, concatenations and binary operations only, and by nobody if opaque nodes find every input in its place and the others find theirs under one order |
| `Residue.TidyResidual` | ngraph_bridge/pass/transpose_sinking.cc:434-475 | before the purge: whoever reads a transpose reads a marked one, except where one is wanted, and there it is new and not marked |
| `Residue.ResidualStep` | ngraph_bridge/pass/transpose_sinking.cc:154-165 | bypassing one marked transpose keeps that, so in the end only the wanted ones are left |
| `Residue.MaterializeTidy` | ngraph_bridge/pass/transpose_sinking.cc:224-250 | a materialized node reads a new transpose exactly at the inputs found under an order that moves axes |
| `Residue.ConvertedTidy` | ngraph_bridge/pass/transpose_sinking.cc:188-222 | a binary operation reads a new transpose exactly at an input in its place of the same rank as the other one |
| `Residue.TransposeTidy` | ngraph_bridge/pass/transpose_sinking.cc:252-268 | of a sunk transpose every reader is left with the combined one, which is marked |
| `Residue.NoneWanted` | ngraph_bridge/pass/transpose_sinking.cc:434-475 | when no transpose is left at all |
| `RoundTrips.RoundTripVanishes` | ngraph_bridge/pass/transpose_sinking.cc:252-277 | of two transposes that undo each other around an elementwise operation in front of an opaque node neither is left, nor any other in their place |
| `RoundTrips.FragmentMeans` | ngraph_bridge/pass/transpose_sinking.cc:279-367 | which graphs are in the fragment, in terms of orders and cached shapes |
| `Foresight.ForetellingForesees` | ngraph_bridge/pass/transpose_sinking.cc:443-469 | orders and cached shapes foretold node by node along a topological order follow the rule of every operation |
| `Foresight.ForetellingUnique` | ngraph_bridge/pass/transpose_sinking.cc:443-469 | nothing else follows these rules: what is foretold does not depend on the order of the nodes |
| `Foresight.NoTrouble` | ngraph_bridge/pass/transpose_sinking.cc:443-469 | a run is supported exactly if each of its steps is |
| `RoundTrips.UnaryInFragment` | ngraph_bridge/pass/transpose_sinking.cc:331-367 | without binary operations a graph is in the fragment exactly if no pad reads another output than the first of its source |
| `RoundTrips.UpToDateIff` | ngraph_bridge/pass/transpose_sinking.cc:305-318 | while the cached shape of the left input is up to date, two inputs with nothing pending are supported exactly unless the left one has more axes and is stretched |
| `RoundTrips.ReshapesIff` | ngraph_bridge/pass/transpose_sinking.cc:200-208 | a reshape to the cached shape, widened and put in order, keeps the result for every operation and all tensors exactly if the cached shape is up to date and the axes longer than 1 keep their order: what the fragment asks for |
| `RoundTrips.RoundTripStale` | ngraph_bridge/pass/transpose_sinking.cc:252-277 | after two transposes that undo each other around an elementwise operation nothing is pending, but the cached shape is still that of the operation between them |
| `RoundTrips.RoundTripIff` | ngraph_bridge/pass/transpose_sinking.cc:305-318 | so if an input of fewer axes is added that does not stretch the other, the wrong default order is taken, exactly unless the two transposes leave the shape as it is |
| `RoundTrips.InstanceMisled` | ngraph_bridge/pass/transpose_sinking.cc:305-318 | a matrix transposed, negated, transposed back and added to a vector: the first step that is not supported takes an order of the wrong rank, although the matrix is not stretched |
| `RoundTrips.InstanceRun` | ngraph_bridge/pass/transpose_sinking.cc:434-475 | running the pass on that graph, with tensors as its shapes say, ends in this way |
| `TensorAlgebra.PermuteTwice` | ngraph_bridge/pass/transpose_sinking.cc:118-134 | two transpositions are one of the combined order |
| `TensorAlgebra.PermuteBack` | ngraph_bridge/pass/transpose_sinking.cc:49-56 | transposing by the inverse order and by the order changes nothing |
| `TensorAlgebra.MapPermute` | ngraph_bridge/pass/transpose_sinking.cc:270-277 | elementwise operations commute with transposition |
| `TensorAlgebra.ZipPermute` | ngraph_bridge/pass/transpose_sinking.cc:279-318 | broadcast binary operations commute with transposing both arguments of equal rank |
| `TensorAlgebra.PadPermute` | ngraph_bridge/pass/transpose_sinking.cc:343-358 | padding a transposed tensor is transposing the tensor padded by the amounts moved back, for all four modes |
| `TensorAlgebra.ConcatPermute` | ngraph_bridge/pass/transpose_sinking.cc:405-418 | concatenating transposed tensors is transposing the concatenation along order[axis] |
| `TensorAlgebra.ComposeIsPermutation` | ngraph_bridge/pass/transpose_sinking.cc:118-134 | combining permutations gives a permutation |
| `TensorAlgebra.InversesMatch` | ngraph_bridge/pass/transpose_sinking.cc:49-56 | orders that undo each other are each other's inverse |
| `SinkingSteps.TransposeStep` | ngraph_bridge/pass/transpose_sinking.cc:252-268 | sinking a transpose keeps the invariant |
| `SinkingSteps.UnaryStep` | ngraph_bridge/pass/transpose_sinking.cc:270-277 | sinking an elementwise operation keeps the invariant |
| `SinkingSteps.BinaryPropagateStep` | ngraph_bridge/pass/transpose_sinking.cc:305-318 | propagating equal or default orders keeps the invariant if the order taken has the rank of the output |
| `SinkingSteps.BinaryConvertStep` | ngraph_bridge/pass/transpose_sinking.cc:319-327 | converting the input in default order keeps the invariant if it has as many axes as the order, or at most one, or an up-to-date cached shape whose axes longer than 1 keep their order |
| `SinkingSteps.ZipConverts` | ngraph_bridge/pass/transpose_sinking.cc:188-222 | an argument in default order may be widened and transposed by the inverse of the other's order, and the result transposed by that order |
| `SinkingSteps.MatchingFits` | ngraph_bridge/pass/transpose_sinking.cc:200-212 | the inserted node computes that argument: a transpose always, a reshape if the axes longer than 1 keep their order |
| `SinkingSteps.PadStep` | ngraph_bridge/pass/transpose_sinking.cc:331-367 | moving a pad of the first output keeps the invariant |
| `SinkingSteps.ConcatStep` | ngraph_bridge/pass/transpose_sinking.cc:369-423 | moving a concatenation keeps the invariant |
| `SinkingSteps.ReplaceStep` | ngraph_bridge/pass/transpose_sinking.cc:358-366 | a node that computes the value the pending order explains may take another's place |
| `Materializing.MaterializeStep` | ngraph_bridge/pass/transpose_sinking.cc:224-250 | materializing gives a node its original inputs, hence its original outputs |
| `Materializing.InputStep` | ngraph_bridge/pass/transpose_sinking.cc:233-249 | after its step an input has the original value, the later ones wait unchanged |
| `Purging.PurgeStep` | ngraph_bridge/pass/transpose_sinking.cc:154-165 | bypassing one marked transpose keeps all values |
| `Purging.PurgedMeaning` | ngraph_bridge/pass/transpose_sinking.cc:471-475 | any evaluation of the purged graph gives every opaque operation its original inputs and outputs |
| `Purging.PurgedSolvable` | ngraph_bridge/pass/transpose_sinking.cc:471-475 | the purged graph can be evaluated, and the evaluation reaches every opaque operation |
| `SinkingLimits.BinaryPreservedIff` | ngraph_bridge/pass/transpose_sinking.cc:279-329 | for inputs of equal rank the meaning of every binary operation is kept exactly unless the two orders differ and both move axes |
| `SinkingLimits.DefaultOrdersIff` | ngraph_bridge/pass/transpose_sinking.cc:307-315 | of two default orders the one taken fits the result exactly unless the left input has more axes and is stretched |
| `SinkingLimits.DefaultOrdersMislead` | ngraph_bridge/pass/transpose_sinking.cc:307-315 | shapes [2, 1] and [3]: the result has two axes, the order taken has one |
| `SinkingLimits.PadPreservedIff` | ngraph_bridge/pass/transpose_sinking.cc:358-360 | reading the first output of the source node is right for every node exactly if that output was the one padded |
| `TransposeSinking.TwoOrdersCompute` | ngraph_bridge/pass/transpose_sinking.cc:319-327 | with two different orders that both move axes the output and its pending transpose stand for BinaryAfter, which BinaryPreservedIff shows to differ from the original for some tensors |
| `TransposeSinking.ConvertedTwiceNodes` | ngraph_bridge/pass/transpose_sinking.cc:319-327 | both inputs get a transpose by the inverse of the other's order, and the left input's order is pending |
| `Reshaping.ReshapePreservedIff` | ngraph_bridge/pass/transpose_sinking.cc:200-208 | the reshape of an input with fewer axes keeps the result, for every operation and all tensors, exactly if its axes longer than 1 come out in their old order |
| `Reshaping.TargetPreservedIff` | ngraph_bridge/pass/transpose_sinking.cc:200-208 | a reshape to any shape keeps the result exactly if that is the shape of the widened and transposed input and its axes longer than 1 come out in their old order |
| `Reshaping.ReshapeTransposes` | ngraph_bridge/pass/transpose_sinking.cc:200-208 | in that case reshaping the row-major elements is transposing the tensor widened by leading axes of length 1 |
| `Reshaping.ReshapeDiffers` | ngraph_bridge/pass/transpose_sinking.cc:200-208 | otherwise it is not, shown by the tensor whose elements are their positions |
| `Reshaping.VectorsKept` | ngraph_bridge/pass/transpose_sinking.cc:200-208 | an input with at most one axis, such as a bias, is always kept |
| `Reshaping.InOrderReshaped` | ngraph_bridge/pass/transpose_sinking.cc:200-208 | whenever the axes longer than 1 keep their order, or there are no elements, the reshape gives exactly the widened and transposed tensor |
| `Reshaping.VectorReshaped` | ngraph_bridge/pass/transpose_sinking.cc:200-208 | for a vector, with or without elements, that is always so |
| `Reshaping.MatricesLost` | ngraph_bridge/pass/transpose_sinking.cc:200-208 | a matrix against an order that swaps the last two of three axes is not |
| `Reshaping.SamePosition` | ngraph_bridge/pass/transpose_sinking.cc:200-208 | an index and the one it is moved from have the same row-major position if the long axes keep their order |
| `Reshaping.ZipWidened` | ngraph_bridge/pass/transpose_sinking.cc:200-208 | broadcasting treats a tensor like the same tensor with leading axes of length 1 |

## Left out

- TensorFlow, nGraph and OpenVINO interfaces: graphs are datatypes, translation and compilation are arbitrary
  functions, operations on elements are arbitrary functions, and node names are node identifiers. Parsing names, and
  a name that happens to look like `ngraph_input_0`, are not part of this model.
- The operator translators, and the tables that decide what is marked: marked nodes, static inputs and predicates
  are inputs; `ClusterLiveness` takes the predicates from the analysis. Control flow operations are taken to be
  unmarked where a result says so, and source, sink and NextIteration nodes in `Pipeline`.
- Logging, histograms, dumps, timers, environment variables, mutexes, device configuration and the recorded reasons
  for not contracting an edge. The additional pass with logging switched on is modelled, its records are not.
- Where the least number of non-trivial nodes comes from, an environment variable or the default 6: it is a parameter,
  and 0 stands for the switch that leaves all clusters alone.
- Sorting, merging and removing from a list are functions that do what the standard library promises.
- The errors of `GetStaticInputs` and of building a graph from its definition.
- A cache depth of 0 and a depth or backend that changes between calls. Printing of floating point numbers is any
  function; whether it loses information is the condition of the result.
- TransposeSinking.Pass.RunOnFunction: stops at the first step that may lose the meaning, where the code goes on or,
  in one case, throws. That such a step loses it for some operation and tensors is proved of each kind by itself
  (`BinaryPreservedIff`, `ReshapesIff`, `PadPreservedIff`, `UpToDateIff`), not of the graph as a whole. The final checks
  of result shapes follow from the preserved tensors and are not modelled.
- Mismatches.MismatchExact: is about inputs whose predicates have no disjunction; `MismatchExactUpstream` says when a
  graph guarantees that. Equality of predicates is not a complete test for equivalence, as `EquivalentYetDifferent`
  shows, and no condition on disjunctions is given.
- Constructors of padding and concatenation nodes may reject the shapes cached at that moment; that is not modelled.
- The pad amounts and the orders of transposes are part of the node here, they are constants fed as inputs there.
- The data pointers that callers may attach to the nodes of `GraphCycles`.
- The queue between threads, scripts, examples and build tools.
