# memmy, verified

memmy is a decaying, self-reinforcing memory graph for language-model agents. This project models its
service layer, the transactions of its Neo4j store, its sentence chunker and three supporting pieces,
and proves what they promise: what every sequential history keeps, what the graph expansion of a recall
finds, that forgetting undoes writing, and how weights move.

Verify everything with `dafny verify dfyconfig.toml`.

## How the model is laid out

| file | what it holds |
|---|---|
| `Wrappers.dfy`, `RealPower.dfy`, `MapSum.dfy`, `Sorting.dfy` | absent values and errors, powers and quotients of reals, sums over maps, the descending sort |
| `Graph.dfy` | the memory graph as a value: one directed edge per ordered pair, induced subgraphs, unordered pairs |
| `Store.dfy`, `StoreRuns.dfy` | the store: relationships keyed by (from, to, type), running counters, one method per transaction, whole runs |
| `Dynamics.dfy` | decay, reinforcement, dampening, the refractory gate, cap and floor, on one node, and the laws of one touch and one bump in plain arithmetic |
| `Runs.dfy`, `WriteForget.dfy`, `History.dfy` | operations as steps on the graph and the laws of one edge, writing against forgetting, every finite history of steps |
| `Expansion.dfy`, `ExpansionRuns.dfy`, `ExpansionRing.dfy`, `ExpansionLimits.dfy` | the graph expansion of a recall as a label-correcting search, all its runs as a state machine, and the exact conditions of its theorems |
| `Service.dfy` | the service object: the edge and node primitives, and the expansion loop |
| `Recall.dfy`, `Write.dfy`, `Forget.dfy`, `Reinforce.dfy`, `Stats.dfy`, `RoundTrip.dfy` | the service operations |
| `Sessions.dfy` | what serving each kind of request means, and the service serving an arbitrary list of them |
| `Chunker.dfy` | sentence splitting and sliding windows |
| `TenantSchema.dfy`, `Metrics.dfy`, `EmbedCache.dfy` | tenant validation against its JSON Schema, ranking metrics, the embedding cache |

The store and the service are classes with mutable fields. `Store.View()` is the graph the store stands
for; `Store.Valid()` says that the typed relationships represent it, that it is well formed, and that the
counters equal a fresh fold. The service carries a ghost journal of the steps it has taken, and
`Service.Valid()` says that replaying the journal gives `View()` and that every identifier in use has been issued by
the service's own source. Every operation extends the journal, so each theorem about histories holds of the service
after any sequence of calls; `Sessions.SessionFromEmpty` says so for an arbitrary list of requests, and that each of them
is served.

Weights and scores are `real`. Times are integer milliseconds, as they are stored, and exp(-lambda * dt) is
a rate per millisecond, in (0, 1], raised to the power dt. One call of an operation sees one clock value, and
clock values never decrease from one call to the next. Identifiers are natural numbers in the order of their
text, with 0 for the empty one. The vector search and the embedder are parameters: any list of distinct hits, any answer.

## Where the code and its descriptions differ

- The recall outline in `DESIGN.md` (section 6.4, step 7) adds up path scores; the code keeps the best one, and compounds the
  depth penalty along the path. The model follows the code.
- `internal/service/recall.go:267` speaks of the last hop; the loop below it reinforces every hop of the path.
- The comment at `internal/service/forget.go:67-72` promises that every edge at a node is deleted. Of two opposite
  edges only the outgoing one is, because the incoming one has the same unordered key and is skipped. The
  result is right because deleting the node detaches the rest
  (`Forgetting.PurgeNodeEdges`, `Forgetting.PurgeThenDelete`). Purging alone keeps the promise exactly when no neighbour
  is joined to the node both ways (`Forgetting.PurgeIsCompleteExactly`).
- The list of abbreviations is matched in lower case, but its dotted entries, such as "e.g", keep a sentence together
  only when the first letter in the text is an ASCII capital: "E.g. x" is one sentence, and "e.g. x" is three, because
  the break inside the entry comes first (`Chunker.DottedEntry`, `Chunker.LowerCaseBreaks`, `Chunker.CapitalKeeps`).
- A message identifier of nothing but whitespace, sent together with a time, is taken as an identifier, and the time is
  ignored (`Forgetting.Forget`).
- A reinforcement ages an edge at the rate of its own kind, a reading at the rate of the stored kind, and a reading
  deletes an edge below the floor. So a reading just before a reinforcement can change its result.
  `History.ReadChangesReinforcement` says exactly when, cap and floor included; away from both it does unless the two
  rates are equal and the reading finds the edge alive (`History.ReadHarmless`, `History.PrunedOnTheWay`).
- Paths of an expansion may come back to a node. They never do, on any graph, exactly when the depth penalty factor is at
  least one and its cube at least the square of the weight cap (`ExpansionLimits.PathsSimpleExactly`); the default
  factor of 2 and cap of 100 do not meet this.
- The embedding cache does not key on the task, so an embedder that minds the task is not cached transparently:
  `EmbedCache.SecondTask` shows a wrong second batch. A batch is answered as if embedded directly exactly when every one
  of its texts that was embedded before was first embedded under a task that gives it the same vector
  (`EmbedCache.DirectExactly`, and over a whole session `EmbedCache.SessionDirectExactly`).
- A vector of the wrong length stops a write half way; what is left behind is stated, and forgetting the
  message removes it without a trace (`WritePath.Write`, `RoundTrip.ForgetAfterAbort`).

## Model

| member | source | states |
|---|---|---|
| Neo4jStore.OneTypePerPair | internal/storage/neo4j/graph.go:404-463 | at most one relationship type joins an ordered pair, and it is the kind of the edge there |
| Neo4jStore.Store.constructor | internal/storage/neo4j/graph.go:22 | an empty store is sound, its counters exact |
| Neo4jStore.Store.PutNode | internal/storage/neo4j/graph.go:149-181 | the node is stored or replaced; node count and weight sum stay equal to a fresh fold; an empty identifier is refused |
| Neo4jStore.Store.GetNode | internal/storage/neo4j/graph.go:36-60 | the stored node, or not found |
| Neo4jStore.Store.UpdateNode | internal/storage/neo4j/graph.go:62-101 | the closure's result is stored and returned, with the counters adjusted by the change; not found otherwise |
| Neo4jStore.Store.DeleteNode | internal/storage/neo4j/graph.go:103-145 | what remains is the subgraph induced by the other nodes, and the counters lose exactly the node and its edges |
| Neo4jStore.Store.CountAttached | internal/storage/neo4j/graph.go:106-128 | the counted edges and weights are the difference between the graph and the graph without the node |
| Neo4jStore.Store.PutMessage | internal/storage/neo4j/graph.go:185-212 | the message is stored; an empty identifier is refused |
| Neo4jStore.Store.GetMessage | internal/storage/neo4j/graph.go:214-237 | the stored message, or not found |
| Neo4jStore.Store.DeleteMessage | internal/storage/neo4j/graph.go:239-248 | the message is gone, nothing else changed |
| Neo4jStore.Store.PutEdge | internal/storage/neo4j/graph.go:404-463 | one edge per ordered pair whatever kind was there; with an endpoint missing nothing is stored and the counters run ahead by the edge, otherwise their drift is unchanged |
| Neo4jStore.Store.GetEdge | internal/storage/neo4j/graph.go:267-299 | the edge of the pair, of whatever kind, or none |
| Neo4jStore.Store.UpdateEdge | internal/storage/neo4j/graph.go:301-366 | the closure's result replaces the edge, also across a change of kind, with exact counters |
| Neo4jStore.Store.DeleteEdge | internal/storage/neo4j/graph.go:368-395 | the single matching row is always found, so the edge and its share of the counters go |
| Neo4jStore.Store.Neighbors | internal/storage/neo4j/graph.go:467-513 | every edge leaving the node, once each |
| Neo4jStore.Store.InboundNeighbors | internal/storage/neo4j/graph.go:471-513 | every edge entering the node, once each |
| Neo4jStore.Store.NodesForMessage | internal/storage/neo4j/scanners.go:61-89 | exactly the nodes of the message, once each |
| Neo4jStore.Store.MessageIDsBefore | internal/storage/neo4j/scanners.go:94-119 | exactly the messages created strictly before the time |
| Neo4jStore.Store.RecentNodeIDs | internal/storage/neo4j/scanners.go:21-57 | the nodes in the window that are not of the excluded message, by falling creation time and then falling identifier, at most the limit, and what a full list leaves out comes after its last |
| Neo4jStore.OneNewestFirst | internal/storage/neo4j/scanners.go:26-33 | there is exactly one such list |
| Neo4jStore.Store.TenantStats | internal/storage/neo4j/scanners.go:122-152 | the counters read are the numbers of nodes and edges and the sums of their weights, off by the drift; the live vectors are those of nodes that are not tombstoned |
| Neo4jStore.Store.InsertVector | internal/storage/neo4j/vectorindex.go:27-46 | the vector is stored on its node; a missing node is made blank and not counted; a wrong length is refused |
| Neo4jStore.Store.DeleteVector | internal/storage/neo4j/vectorindex.go:51-60 | the node is tombstoned, nothing else changed |
| StoreRuns.Execute | internal/storage/neo4j/graph.go:26-463 | every transaction does to the typed, counted store what it does to a plain map of edges, and moves the drift of the counters only for an edge without an end or a vector without a node |
| StoreRuns.AllowedMeansNoneMisplaced | internal/storage/neo4j/graph.go:445-462 | a run respects the callers' duties exactly when no edge and no vector of it is misplaced |
| StoreRuns.RunFromEmpty | internal/storage/neo4j/counters.go:21-38 | after any run from the empty store the store is the plain map, without loops or dangling edges; the edge counters are ahead by the number and the weight of the edges put without an end, the node counter is behind by the vectors put without a node, the node weights are exact, and the counters equal a fresh fold exactly when there were none of either |
| MemoryGraph.OrderedPairNamesUnordered | internal/service/forget.go:109-114 | two edges share the key exactly when they join the same two nodes |
| MemoryGraph.PairsTouchingSplit | internal/service/forget.go:73-107 | counting the pairs at one set of nodes after another counts no pair twice and misses none |
| Dynamics.DecayComposes | internal/service/decay.go:242-250 | decaying over one interval and then the next is decaying over both |
| Dynamics.TouchObeys | internal/service/decay.go:20-31 | an implicit touch: the weight aged by w * r^dt plus the delta, cut off at 0 and the cap, the time and one more access |
| Dynamics.BumpObeys | internal/service/decay.go:48-88 | an explicit bump: nothing added within the refractory period, otherwise a negative delta in full and a positive one by the share 1 - x / cap left of the way to the cap, all brought into floor and cap |
| Dynamics.BumpLawDecides | internal/service/decay.go:48-88 | that law leaves one outcome |
| Dynamics.NeverSwap | internal/service/decay.go:57-84 | two nodes last touched together and put through the same events never swap the order of their weights, whatever the deltas |
| Dynamics.DampenedSaturation | internal/service/decay.go:57-84 | after any dampened bumps up and down the distance to the cap is positive and at least the start distance times (1 - delta / cap) for every bump up that was applied |
| Dynamics.DampenedSaturationExact | internal/service/decay.go:57-84 | with no time passing and the gate off that distance is exact |
| Dynamics.RemainingIsPower | internal/service/decay.go:65-70 | the remaining distance is a power of 1 - delta / cap |
| Dynamics.SteadyWeightFixed | internal/service/decay.go:24 | delta / (1 - r^T) is the weight that one touch after T restores |
| Dynamics.SteadyStateBound | internal/service/decay.go:20-31 | touches at least T apart never carry a weight over the larger of its start and delta / (1 - r^T) |
| Dynamics.SteadyStateConverges | internal/service/decay.go:20-31 | at exact spacing T and below the cap the distance to that limit shrinks by exactly r^T per touch |
| WriteForget.IngestExtends | internal/service/write.go:55-112 | a write leaves everything that was there as it was, and every edge it adds has an end among its own nodes |
| WriteForget.IngestExactly | internal/service/write.go:55-138 | the new nodes are the chunks as given, of weight 1 and made now, with their vectors; the new edges are fresh structural ones, both ways, between neighbouring chunks and between the first chunk and every recent node, each with its own weight, and no others |
| WriteForget.IngestWellFormed | internal/service/write.go:55-112 | a write keeps the graph free of loops and dangling edges |
| WriteForget.EraseUndoesIngest | internal/service/forget.go:39-63 | erasing the message of a write restores nodes, edges, messages and vectors |
| WriteForget.IngestPairs | internal/service/write.go:91-112 | a write of n chunks and r recent nodes makes exactly (n - 1) + r linked pairs at its nodes |
| WriteForget.AbortShape | internal/service/write.go:68-89 | what a refused vector leaves: the message, the nodes so far, no edge, no vector for the last node |
| WriteForget.AbortExactly | internal/service/write.go:68-89 | the chunks before the refused vector are whole, and its own lacks only the vector |
| WriteForget.EraseUndoesAbort | internal/service/forget.go:39-63 | erasing the message of a half-done write restores the graph |
| History.AlwaysWellFormed | internal/storage/neo4j/graph.go:604-616 | in every history there are no self-loops, no dangling edges and no empty identifiers |
| History.WriteDisciplined | internal/service/write.go:91-112 | a write keeps all edge weights between floor and cap exactly when the structural weights it uses are |
| History.AlwaysDisciplined | internal/service/decay.go:97-211 | in every history every stored edge weight lies between the floor and the cap |
| History.SurvivorsGrow | internal/service/decay.go:141-162 | while an edge survives, its kind is the strongest of its first kind and the kinds it was reinforced by, its two counters rise by exactly its counted co-retrievals and co-traversals, and it keeps its creation time |
| History.LazyDecayIsEager | internal/service/decay.go:183-211 | after any history that neither reinforced an edge nor forgot its ends, a reading at t is alive exactly when w0 * r^(t - t0) is at least the floor, and has that weight |
| History.EagerReading | internal/service/decay.go:183-211 | the same for a graph nobody has read since |
| History.QuietHistoryKeepsReading | internal/service/decay.go:183-211 | such a history leaves every later reading of the edge as it was |
| History.ReadChangesReinforcement | internal/service/decay.go:97-211 | a reading just before a reinforcement leaves the same graph exactly when the weights aged at the two rates come to the same after cap and floor, or, if the reading prunes the edge, when neither the edge made anew nor the unread one would be kept |
| History.ReadHarmless | internal/service/decay.go:97-211 | away from cap and floor that is exactly when the two kinds decay at the same rate and the reading finds the edge alive |
| History.PrunedOnTheWay | internal/service/decay.go:97-211 | a concrete edge, read and pruned on the way and then made anew, against the same edge unread |
| History.StepKeepsIssued | internal/service/service.go:176-187 | only writes bring identifiers with them |
| History.GateOpensOnlyAfterQuiet | internal/service/decay.go:61-64 | an applied bump means no touch of any kind of that node during the refractory period before it |
| History.GateOpensExactlyAfterQuiet | internal/service/decay.go:57-64 | a bump of a node that stayed is applied exactly when a full refractory period has passed since every touch of it and since it was made |
| History.RefractoryBound | internal/service/decay.go:48-88 | in every history any window of length T holds at most T / R + 1 applied bumps of one node |
| History.NodeEvolvesAlone | internal/service/decay.go:20-88 | a node that is never forgotten moves by its own touches and bumps alone, so the laws about one node hold of it in every history |
| MemoryService.ReadKeepsLive | internal/service/decay.go:183-211 | reading an edge, pruning included, leaves what every reader at that time sees of the whole graph |
| Runs.ReinforceObeys | internal/service/decay.go:97-175 | a co-traversal makes any edge a co-traversal edge, a co-retrieval makes a structural one a co-retrieval edge, nothing else changes the kind; the counter of the kind rises by one, the weight is aged at the rate of the incoming kind plus the delta, cut off at 0 and the cap; no other edge changes |
| Runs.ReadObeys | internal/service/decay.go:183-224 | a reading ages its edge at the rate of the edge's own kind and changes nothing else |
| MemoryService.Service.constructor | internal/service/service.go:142-161 | a service over a valid store, with every identifier in use issued, starts with an empty history |
| MemoryService.Service.ApplyNodeDecayReinforce | internal/service/decay.go:20-31 | one implicit touch by the law of touches: the step taken, the new graph and the node returned |
| MemoryService.Service.ApplyExplicitNodeBump | internal/service/decay.go:48-88 | one explicit bump by the law of bumps: the step taken, the new graph, the node returned, and that the delta was refused exactly within the refractory period |
| MemoryService.Service.ApplyEdgeDecayReinforce | internal/service/decay.go:97-175 | an edge between stored nodes is created, or aged at the rate of the incoming kind, reinforced, counted and promoted, and kept exactly if it reaches the floor, and the result says which; without an end it is reported, not stored, and the counters run ahead |
| MemoryService.Service.ReadDecayedEdge | internal/service/decay.go:183-211 | the edge aged at its own rate is written back and returned, or pruned below the floor |
| MemoryService.Service.RelaxEdge | internal/service/recall.go:177-210 | one edge of the entry being expanded is one move of the expansion: its offer is enqueued on strict improvement, and changes nothing otherwise |
| MemoryService.Service.ExpandNode | internal/service/recall.go:173-210 | all edges of one entry are relaxed, and what was enqueued weighs less than the entry popped |
| MemoryService.Service.ExpandNext | internal/service/recall.go:167-211 | the entry at the front is popped and expanded, unless it is at full depth, and the work left shrinks |
| MemoryService.Service.Expand | internal/service/recall.go:134-211 | the loop ends, only reads and prunes, is one of the runs of the expansion, and leaves in the visit table the best walks of at most the given number of hops |
| MemoryService.CapMakesTame | internal/service/decay.go:183-211 | a weight cap whose square is within the cube of the penalty factor makes every expansion's paths simple |
| Expansion.TakeOffer | internal/service/recall.go:188-209 | first-in first-out depth order, true paths, best records and simple paths survive every enqueuing |
| Expansion.RefusedIsSettled | internal/service/recall.go:188-194 | a refused offer is beaten by an entry at no greater depth |
| Expansion.WalkDominated | internal/service/recall.go:167-211 | every positive walk is matched by an entry of no greater depth and no smaller score |
| Expansion.BestScoreIsMaximum | internal/service/recall.go:167-211 | for a penalty factor of at least one, each recorded score is the maximum over all positive walks, is attained by the recorded path, and every reachable node is recorded |
| Expansion.TakenSimple | internal/service/recall.go:191-209 | with the squares of all live weights within the cube of a penalty factor of at least one, no path comes back to a node |
| Expansion.TableClosed | internal/service/recall.go:177-209 | what a recorded node offers over an edge, hops permitting, the node at its end has |
| Expansion.PopPays | internal/service/recall.go:167-172 | a popped entry pays, in the measure of the loop, for everything its edges may enqueue |
| ExpansionRuns.RunSound | internal/service/recall.go:134-211 | every moment of every run, whatever the order of seeds and edges, keeps the log, the queue and the visit table sound |
| ExpansionRuns.LeavesBestWalks | internal/service/recall.go:134-211 | whatever table a run ends with holds the best walks |
| ExpansionRuns.SomeTable | internal/service/recall.go:167-172 | every expansion has a run that ends |
| ExpansionLimits.PathRevisitsSeed | internal/service/recall.go:185-209 | on two nodes joined both ways the recorded path to the seed is simple exactly when the square of the weight is within the cube of the factor |
| ExpansionLimits.PathsSimpleExactly | internal/service/recall.go:185-209 | with weights up to a cap, every run of the expansion on every graph leaves simple paths exactly when the penalty factor is at least one and its cube at least the square of the cap |
| ExpansionRing.RoundRecorded | internal/service/recall.go:185-209 | on a ring whose round beats the seed, every expansion records the round as the path to the seed |
| ExpansionRing.LongEnough | internal/service/recall.go:185-187 | below a factor of one there is such a ring for every weight |
| ExpansionLimits.BestWalkMissed | internal/service/recall.go:185-194 | for every penalty factor below one there is a graph on which the best walk is missed |
| ExpansionLimits.BestWalksExactly | internal/service/recall.go:167-211 | every run of the expansion on every graph finds the best walks exactly when the penalty factor is at least one |
| Sorting.SortByScore | internal/service/recall.go:109 | descending by score, and a rearrangement of the input |
| RecallPipeline.SimScore | internal/service/recall.go:313-322 | in [0, 1], and the linear image of a similarity in [-1, 1] |
| RecallPipeline.ReinforceHits | internal/service/recall.go:76-104 | every hit that still exists is touched once and becomes a candidate with its new weight; the others are dropped |
| RecallPipeline.SelectSeeds | internal/service/recall.go:108-114 | the best k candidates, best first; none left out scores more |
| RecallPipeline.CoRetrievalContents | internal/service/recall.go:116-132 | the co-retrieval steps are exactly both directions of every pair of seeds with a positive delta |
| RecallPipeline.CoRetrieve | internal/service/recall.go:116-132 | those steps are taken, and nothing but edges changes |
| RecallPipeline.Rank | internal/service/recall.go:213-259 | every visited node is scored once, by the score of its walk times its weight factor, with its candidate's weight if it was one; the best k, best first |
| RecallPipeline.CoTraverse | internal/service/recall.go:261-279 | every hop of every returned expanded path is reinforced, in order, between stored nodes |
| RecallPipeline.TraversalContents | internal/service/recall.go:261-279 | the co-traversal steps are exactly the hops of the returned paths that were walked, each in its own direction by multiplier times base |
| RecallPipeline.Provenance | internal/service/recall.go:281-304 | each hit carries its node's text and the text of its source message |
| RecallPipeline.VisitStored | internal/service/recall.go:151-210 | the expansion visits stored nodes only, over stored edges, so its paths can be reinforced |
| RecallPipeline.SeedAndExpand | internal/service/recall.go:108-211 | seeds, their pairwise links and the best walks from them, with all reads and prunes accounted for |
| RecallPipeline.RecallHits | internal/service/recall.go:72-306 | the phases in order, each with its result and scores, and the history extended by exactly their steps |
| RecallPipeline.Recall | internal/service/recall.go:28-306 | a blank query, a failing embedder, an empty answer of the embedder and a vector the search refuses for its length change nothing; defaults for k and hops; otherwise the whole pipeline on the hits, and the answer is the k visited nodes with the greatest products of walk score and weight factor, greatest first |
| RecallPipeline.AnswersBestFirst | internal/service/recall.go:213-259 | every hit is scored by its best walk times the weight factor of its node, and no visited node left out has a greater product |
| WritePath.PutStructuralEdgePair | internal/service/write.go:119-138 | both directions are written between stored nodes, and nothing for a node with itself |
| WritePath.StoreChunks | internal/service/write.go:66-89 | nodes and vectors are stored chunk by chunk under rising identifiers, up to the first vector of the wrong length |
| WritePath.LinkMessage | internal/service/write.go:91-112 | the chain of chunks and the links to the newest nodes of other messages, by the stored times and identifiers |
| WritePath.Persist | internal/service/write.go:52-114 | the graph after a write, or after a refused vector, as a step of the history with fresh identifiers |
| WritePath.Write | internal/service/write.go:21-115 | blank text, a failing embedder and a wrong number of vectors change nothing; otherwise the windows of the message are stored and linked |
| Forgetting.Purge | internal/service/forget.go:84-94 | an edge is deleted and counted unless its unordered pair was seen |
| Forgetting.PurgeNodeEdges | internal/service/forget.go:73-107 | exactly which directions are deleted, and the number of distinct neighbours |
| Forgetting.PurgeIsCompleteExactly | internal/service/forget.go:67-72 | purging leaves no edge at the node exactly when no neighbour is joined to it both ways |
| Forgetting.PurgeThenDelete | internal/service/forget.go:45-57 | purging half of the edges and then deleting the node leaves the subgraph induced by the others |
| Forgetting.ForgetNode | internal/service/forget.go:44-58 | one node goes with all its edges, counted as unordered pairs |
| Forgetting.ForgetMessage | internal/service/forget.go:39-63 | the message and its nodes go; what remains is the induced subgraph |
| Forgetting.EraseOneMore | internal/service/forget.go:39-63 | erasing message after message erases them all, and no node or pair is counted twice |
| Forgetting.ForgetMessages | internal/service/forget.go:39-64 | the counts are the nodes of all the messages and the distinct adjacent pairs with an end among them |
| Forgetting.Forget | internal/service/forget.go:16-65 | which messages a request means, what it refuses, and the graph and counts after it |
| RoundTrip.ForgetAfterWrite | internal/service/forget.go:16-65 | forgetting what was just written restores the graph and counts its chunks and links |
| RoundTrip.ForgetAfterAbort | internal/service/forget.go:16-65 | forgetting a half-done write restores the graph |
| RoundTrip.WriteThenForget | internal/service/write.go:21-115 | through the operations themselves: when the write succeeds, what it writes of the request, and then the same graph as before with the chunks and (chunks - 1) + recent pairs counted off; what is left when it fails |
| Sessions.Serve | internal/service/service.go:28-36 | any one request finds the service ready and leaves it ready, the history extended by its steps, and the graph, the steps and the reply are those its kind of request stands for, refusals included |
| Sessions.ServeAll | internal/service/service.go:28-36 | any list of requests under a clock that never runs backwards: each is served from the graph the one before it left, and the history is extended by their steps in order |
| Sessions.ServiceKeeps | internal/service/service.go:26-36 | a service in any state it can reach has a well-formed graph, exact counters, edge weights between floor and cap, and bounded bumps |
| Sessions.SessionFromEmpty | internal/service/service.go:26-36 | all of that from an empty store, for any requests, with the history exactly the steps of the requests |
| Statistics.Stats | internal/service/stats.go:10-51 | the counts are those of the graphs of all the tenants, and the averages times the counts are the sums of their weights, 0 for no elements |
| Statistics.AverageWithin | internal/service/stats.go:43-48 | while every edge weight is between floor and cap, so is their average |
| Reinforcement.Reinforce | internal/service/reinforce.go:21-40 | one bump by the node delta by the law of bumps, its new weight, and whether the gate refused it; what is refused and why |
| Reinforcement.Demote | internal/service/reinforce.go:49-68 | one bump by the negated node delta by the law of bumps; the node is never deleted |
| Reinforcement.DemotionTakesOff | internal/service/decay.go:57-84 | a demotion takes the whole delta off the aged weight, down to the floor; within the refractory period it takes nothing |
| Reinforcement.NewerMarkedHarder | internal/service/reinforce.go:115-130 | a newer node never gets the smaller bump; a node made now gets the full one and one at the start of the window none |
| Reinforcement.MarkAll | internal/service/reinforce.go:107-143 | each listed node gets its own bump once, the others are untouched, and the counts split by the gate |
| Reinforcement.Mark | internal/service/reinforce.go:79-145 | which requests are refused, which nodes are meant, each of them bumped by its linear share of the window, and the numbers of nodes the gate let through and refused |
| Chunker.SentenceEndIsTheEnd | internal/chunker/chunker.go:101-137 | the scan stops exactly where every run of terminators inside is suppressed and the closing one is not |
| Chunker.SplitIsTheSplitting | internal/chunker/chunker.go:80-142 | a trimmed text has one splitting into such sentences with only whitespace between them, and it is the one computed |
| Chunker.SentencesRebuildText | internal/chunker/chunker.go:92-141 | the sentences with whitespace between them rebuild the text; none is empty or has outer whitespace |
| Chunker.TextRebuilt | internal/chunker/chunker.go:80-142 | the raw text is the sentences with whitespace before, between and after them |
| Chunker.SplitAgain | internal/chunker/chunker.go:80-142 | splitting any sentence again gives that sentence alone |
| Chunker.OneLetterWord | internal/chunker/chunker.go:149-171 | a stop after a one-letter word is kept exactly for an ASCII capital |
| Chunker.WordBeforeRun | internal/chunker/chunker.go:149-171 | a word before a run of stops is suppressed exactly when it is one ASCII capital or its lower case is on the list |
| Chunker.StopEndsSentence | internal/chunker/chunker.go:101-137 | a sentence that reaches a run of stops with text after it ends there exactly unless the run opens with a full stop after such a word; "?" and "!" always end it |
| Chunker.SentenceCloses | internal/chunker/chunker.go:101-137 | every sentence but the last closes with a stop, and the character after it is none |
| Chunker.OrdinaryStops | internal/chunker/chunker.go:101-137 | "I came. I saw." is two sentences |
| Chunker.CaseMakesNoDifference | internal/chunker/chunker.go:165-170 | capitals make no difference to the list |
| Chunker.DottedEntry | internal/chunker/chunker.go:68-171 | the scan goes past a dotted entry of the list, in whatever case, exactly when its first letter is an ASCII capital |
| Chunker.LowerCaseBreaks | internal/chunker/chunker.go:68-137 | "e.g. x" is three sentences |
| Chunker.CapitalKeeps | internal/chunker/chunker.go:68-137 | "E.g. x" is one sentence |
| Chunker.TrimSpace | internal/chunker/chunker.go:81 | no outer whitespace is left, and nothing is left exactly of blank text |
| Chunker.TrimSpaceDropsSpace | internal/chunker/chunker.go:81 | only whitespace goes, and only at the ends |
| Chunker.SplitSentences | internal/chunker/chunker.go:80-142 | the loop computes the splitting of the trimmed text |
| Chunker.WindowsCover | internal/chunker/chunker.go:50-63 | no window is empty or too long, neighbours overlap by window minus stride, no sentence is left out |
| Chunker.WindowCount | internal/chunker/chunker.go:50-63 | one window if everything fits, else the ceiling of (n - W) / S, plus one |
| Chunker.JoinOneMore | internal/chunker/chunker.go:53-57 | the text of a window is its sentences in order with one blank between neighbours |
| Chunker.Chunkify | internal/chunker/chunker.go:33-64 | the windows start at multiples of the clamped stride, only the last ends at the last sentence; none exactly for blank text |
| TenantSchema.JSONSchema | internal/service/tenant_schema.go:168-217 | the rendering has the declared keys, their constraints, the required names, nothing additional, and the key sets |
| TenantSchema.NothingMatchesFalse | internal/service/tenant_schema.go:222-229 | the false schema matches nothing |
| TenantSchema.MatchedOnce | internal/service/tenant_schema.go:135-162 | counting one present key set is the same as there being exactly one |
| TenantSchema.Validate | internal/service/tenant_schema.go:85-164 | accepts exactly the tuples that pass all four checks, in any order of iteration, and names the first check that failed |
| TenantSchema.ValidationAgreesWithSchema | internal/service/tenant_schema.go:168-217 | a tuple is accepted exactly when it satisfies the rendered schema |
| Metrics.ComputeNdcg | internal/eval/metrics/metrics.go:237-257 | the loops compute the discounted gain over the ideal gain |
| Metrics.GainAtMostIdeal | internal/eval/metrics/metrics.go:238-252 | no arrangement gains more than the ideal one, and only the ideal one as much |
| Metrics.NdcgRange | internal/eval/metrics/metrics.go:237-257 | between 0 and 1; 1 exactly for a non-empty run of gold hits at the top; 0 exactly without gold hits |
| Metrics.PromotionRaisesNdcg | internal/eval/metrics/metrics.go:237-257 | moving a gold hit up past the other hit before it strictly raises the score |
| Metrics.Mrr | internal/eval/metrics/metrics.go:228-235 | one over the rank of the first gold hit, or 0 |
| Metrics.RecallAt | internal/eval/metrics/metrics.go:213-226 | 1 exactly when there is gold and a gold hit among the first k |
| EmbedCache.DecodeEncode | internal/eval/embedcache/cache.go:178-190 | decoding an encoded vector gives it back |
| EmbedCache.EncodeDecode | internal/eval/embedcache/cache.go:178-190 | encoding a decoded record gives its bytes back |
| EmbedCache.EncodedAt | internal/eval/embedcache/cache.go:178-184 | each component is four bytes in its place, the least significant first |
| EmbedCache.EncodeVector | internal/eval/embedcache/cache.go:178-184 | the buffer holds the components, least significant byte first |
| EmbedCache.DecodeVector | internal/eval/embedcache/cache.go:186-190 | the inverse, in place |
| EmbedCache.Cache.Get | internal/eval/embedcache/cache.go:88-105 | the cached vector or a miss; the length error never happens |
| EmbedCache.Cache.Put | internal/eval/embedcache/cache.go:108-122 | the vector is stored, or refused for its length |
| EmbedCache.EmbedBatch | internal/eval/embedcache/cache.go:127-166 | without misses the table answers and the embedder is not called; otherwise it is called once for all misses; a failing or miscounting embedder leaves the table alone, a vector of the wrong length keeps those before it, and a full answer is stored entry by entry and filled in between the hits |
| EmbedCache.RecordedBatch | internal/eval/embedcache/cache.go:127-166 | every text is answered with its vector under the task it was first embedded under; the batch adds its new texts under its own task, touches no entry that was there, and calls the embedder exactly when it has a new text |
| EmbedCache.DirectExactly | internal/eval/embedcache/cache.go:124-166 | the answers of a batch are the direct embeddings exactly when every text embedded before was first embedded under a task that gives it the same vector |
| EmbedCache.OriginIsFirst | internal/eval/embedcache/cache.go:127-166 | the task on record for a text is that of the first batch that had it |
| EmbedCache.EmbedAll | internal/eval/embedcache/cache.go:127-166 | any list of batches from the empty cache: every batch is answered by the record of the batches before it, and the embedder is called once for each batch with a new text |
| EmbedCache.SessionDirectExactly | internal/eval/embedcache/cache.go:124-166 | a batch of such a session is answered directly exactly when no earlier batch first had one of its texts under a task that gives it another vector |
| EmbedCache.SecondTask | internal/eval/embedcache/cache.go:127-166 | a text cached as a document is answered with the document's vector as a query, which is wrong for an embedder that minds the task |
| EmbedCache.TaskMinder | internal/eval/embedcache/cache.go:127-166 | there is such an embedder |

## Left out

- Tenants: one store is one tenant, and Stats takes the list of tenants to add up; the tenant registry and tenant identifiers are not modelled.
- Concurrency and retried closures: every operation runs alone and every closure once, so lost reinforcements and the capture flags of retried transactions are not modelled.
- Failing storage calls: the only errors are those of validation, missing nodes and edges, vector length and the embedder.
- Clock: an operation sees one clock value, and clock values never decrease; a clock that runs backwards is not modelled.
- Floating-point rounding, and powers with real exponents: the similarity and weight exponents of Recall are functions that keep non-negative values non-negative, and the discounts of nDCG any positive, strictly decreasing values.
- The vector search with its index, oversampling and filtering of tombstones: Recall takes any list of distinct hits, and normalisation of stored vectors is not modelled.
- Edge kinds other than the three named ones, and the relationship types no kind is mapped to.
- The order in which equal scores are sorted, and the order of rows, map entries and names that the code leaves open.
- Ports that lack the optional scanner methods: the store has them all.
- StoreRuns.Execute: an update is given by the value its closure produces, which loses nothing for one run.
- EmbedCache.Cache.Get: the text stands for its digest, so digests never collide; SQLite and the time column are not modelled.
- TenantSchema.JSONSchema: descriptions and the sorting of names are not modelled, and patterns are a predicate shared by both sides.
- Aggregation and file output of metrics, the inspection reader, migrations, configuration, the MCP adapter, the command line and the embedder clients: input and output, or plain averages.
