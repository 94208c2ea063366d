# Graphize, modelled and proved

Graphize runs each request through a directed acyclic graph of nodes. A start-up check accepts or rejects the graph;
at run time every node has an atomic countdown of inputs, and the thread that takes a countdown to zero runs the node or
gives it a bthread. Some nodes are io nodes: their `do_service` returns early and a callback notifies the out-nodes
later. The most intricate of these is the Redis node, which looks keys up in a local cache, divides the rest by cluster
slot, sends MGET batches, and joins the answers with two nested countdowns and a promise.

This project models these parts and proves what they are for.

* **Building and checking a graph.** `Graph` and `GraphManager` are classes that follow the source: nodes whose fields
  are updated in place, a breadth-first search, Kahn's algorithm, the construction from a configuration. `GraphConfig`
  is what the text of a configuration declares; `Digraph`, `Bfs`, `Kahn`, `Subgraph` and `Isomorphism` are the theory
  behind them. The check accepts a graph exactly when the root has no inputs, every edge into a reachable node starts at
  a reachable node, and the reachable part has no cycle. `GraphOrder` shows that the order in which the configuration's
  keys are visited changes neither the graph, up to the numbering of its nodes, nor the verdict.
* **Running a graph.** `Scheduler` is the concurrent protocol as a step machine: one step for each atomic action of a
  thread, one for the completion of an io node, in any interleaving. `SchedulerSteps` shows that every step keeps the
  invariant, `SchedulerTheorems` draws the conclusions: no node runs twice, a node begins only after all its
  predecessors, nothing is lost, no run stalls, every run ends within four steps for each node and one for each edge.
  `SchedulerTrace` reads off the actions what the threads are seen to do: each node is called and served once or skipped
  once, after all its in-edges have been notified and before any of its out-edges is.
  `OutputNodes` is the sequential loop over the out-nodes, shown to be one schedule of the protocol.
* **The Redis node.** `KeyGroups` and `FetchInfos` make up the fetches of a request, `Batching` and `RedisPlan` cut them
  into batches and set up the countdowns, `RedisRequest`, `RedisSteps` and `RedisTheorems` are the protocol of one
  request, again over every interleaving, and `RedisTrace` what is seen of it. `DoService` joins them: from the generators to the end of the run, every key is
  a cache hit or in a batch that is done. `ConcurrentService` is the simpler countdown over slices, and
  `SliceTrace` what is seen of it.
* **The whole.** `IoCalls` and `Composition` put the scheduler and the services behind its io nodes into one machine.
  Every run of that machine, seen from the scheduler, is a run of the scheduler alone: the assumption that an io node
  notifies its out-nodes exactly once is discharged by the services' countdowns, as long as the process does not end in a
  merge.
* **Redis Cluster.** `Crc16` and `KeySlot` prove the table-driven checksum and the hash-tag scanner against Appendix A
  and the section "Hash tags" of the Redis Cluster specification; `SlotMap`, `ClusterNodes`, `ReplyText` and `MultiFetch`
  follow a key from the reply to `cluster nodes` to the node its MGET is sent to.
* **Cache and connections.** `Cache` says what a cache hit returns, `MergedStore` what a merge leaves in the store key by
  key; `ConnectPool` what the elastic pool keeps.

Where the code does not do what its documentation or its name suggests, the model follows the code, gives a concrete
input, and says exactly when the property holds:

* `merge_cache_data` reads the settings of each fetch through the pointer in its first result cell
  (`src/service/base/redis_service.cpp:538`). Only a callback sets that pointer (line 271), and a send that fails has no
  callback (lines 320-322). A request is therefore merged, processed and notified unless the first send of one of its
  fetches fails; then the process ends in the merge (`RedisTheorems.CrashesIff`, `Composition.CrashesIff`). One fetch
  with one batch whose send fails, as it does when the pool has no node, is enough (`OneFailedSendCrashes`).
* The loop of `multi_fetch` takes views of a string that is local to its round (`redis_client.cpp:310-311`), and the
  command is written from them afterwards. It holds the keys exactly if copies of a string share its bytes, or all the
  keys are empty (`MultiFetch.MakeCommand`).
* `Graph::run` indexes its counters by node id but makes only as many as there are reachable nodes: it ends the process
  when the nodes that the root reaches do not have the lowest ids (`Graph.Graph.Run`, `UnreachedLowerId`). With nodes
  that the root does not reach, this depends on the order in which the configuration's keys are visited.
* The header of the connection pool says that it never grows beyond `max_size`. `borrow` does not look at `max_size`
  (`MaximumIsExceeded`); the pool stays within it exactly when its users never hold more than that
  (`WithinMaximumIff`). It also says that the pool shrinks back to `pool_size`. A borrow that comes back empty-handed is
  counted and never given back, so the pool shrinks exactly while fewer borrows than `pool_size` have failed in this way
  (`ShrinksIff`, `ShrinksBack`), and never when `pool_size` is 0; one failed borrow is enough for a pool of size 1
  (`FailedBuildKeepsPoolLarge`).
* A comment in `parse_cached_data` says that it may run twice for one request and that the promise may be set twice. The
  data is cleared before it could be parsed again: over every interleaving `parse_cached_data` and `set_value` are each
  called at most once (`ResponseComesLast`, which counts the calls, whatever they find).
* `get_from_cache` collects hits in a map, so a key asked for twice is delivered once
  (`RepeatedHitIsDeliveredOnce`, `DeliveredIff`).
* `merge_cache_data` does not store an empty value, and a value of a single space is read back as empty
  (`EmptyReplyLeavesOldValue`, `ReadsBackIff`).
* `InitSlotNodeMap` resizes the index without resetting it, so that an index built over an old one can name nodes that
  no longer serve a slot (`StaleEntry`, `RebuildAgreesIff`).

Assumptions that the proofs rest on, and where they stand:

* node ids and names do not change, and a graph is run only if it passed the check (`Graph.AcceptedMayRun`);
* callbacks run off the issuing thread, and each send that succeeds calls back once (`RedisRequest.Step`);
* `process_response` does not throw; `batch_size` is at least 1 (`RedisPlan.PlanRequest`);
* a fetch's client is found by both look-ups or by neither (`DoService.SameClients`);
* that a key in the range of a batch is asked for (`MultiFetch.KeysAreAsked`, `DoService.EveryKeyIsServed`) means that it
  is in the command only under the condition of `MultiFetch.MakeCommand` on lines 310-311 of `redis_client.cpp`;
* at least one slice in `ConcurrentService`; ends of slot ranges below the largest `uint32_t`
  (`SlotMap.EndsBelowMax`); counts of nodes, batches and slices within `int`.

`dafny verify dfyconfig.toml` checks everything.

## Model

| member | source | states |
|---|---|---|
| Graph.Node.AddOutput | src/frame/graph.h:58-70 | an edge is appended to the out-nodes and counted twice on its head, for the runs and for the check |
| Graph.Graph.Collect | src/frame/graph.h:109-137 | the search ends, and `all_nodes` lists exactly the nodes reachable from the root, each once, although a node may be queued several times |
| Graph.Graph.Check | src/frame/graph.h:148-183 | for in-degrees as counters, the result is true exactly when the graph is acceptable: the root has in-degree 0, edges into reachable nodes start at reachable nodes, no reachable node lies on a cycle |
| Graph.Graph.Init | src/frame/graph.h:109-147 | returns 0 exactly for acceptable graphs, and leaves the reachable nodes collected |
| Graph.Graph.Run | src/frame/graph.h:185-212 | -1 without a root; otherwise a counter for each reachable node at its in-degree, and 0, exactly if the reachable nodes have the lowest ids; else the process ends |
| Graph.AcceptedMayRun | src/frame/graph.h:148-212 | for an accepted graph these are the counters from which the protocol starts on the reachable part, which meets what the theorems about runs require |
| Subgraph.PartAccepted | src/frame/graph.h:148-212 | created nodes that the root does not reach make no difference: the reachable part is acceptable by itself, with the same in-degrees |
| Subgraph.UnreachedLowerId | src/frame/graph.h:196-202 | an acceptable graph of three nodes that cannot be run, because the root reaches 2 but not 1 |
| Kahn.Verdict | src/frame/graph.h:160-182 | when the list of nodes without inputs runs empty, every reachable node has been deleted if and only if the graph is acceptable |
| Kahn.MachineOk | src/frame/graph.h:160-170 | after any number of deletions and decrements the counters are the in-edges not yet removed and the deletion order is topological |
| Digraph.OrderedNotOnCycle | src/frame/graph.h:148-183 | no node of a topological order lies on a cycle |
| Digraph.PredClosedHasCycle | src/frame/graph.h:171-181 | a non-empty set of nodes each of which has a predecessor in the set contains a cycle, so nodes left over by the check are held up by one |
| OutputNodes.Notify | src/frame/graph.cpp:38-56 | one input is taken off, and the answer is true exactly when it was the last; an id out of range changes nothing |
| OutputNodes.RunOutputNodesIfReady | src/frame/graph.cpp:57-84 | run without interference, every out-node is notified; those made ready are spawned in order except the last, which the thread keeps |
| OutputNodes.NotifyAllMeaning | src/frame/graph.cpp:60-79 | a counter drops by the number of edges to its node, and a node is made ready once, exactly when its counter passes through zero |
| OutputNodes.LoopIsSchedule | src/frame/graph.cpp:57-84 | the sequential loop is one schedule of the concurrent protocol, with the same counters, kept node and spawned threads |
| SchedulerSteps.StepKeepsInv | src/frame/graph.cpp:14-84 | every atomic action of every thread, and every io completion, keeps the invariant of the protocol |
| SchedulerSteps.StepKeepsLog | src/frame/graph.cpp:14-84 | every step keeps the history of beginnings and ends free of repetition and in dependency order |
| SchedulerTheorems.Safety | src/frame/graph.cpp:14-84 | the invariant holds in every reachable state of every interleaving |
| SchedulerTheorems.Tokens | src/frame/graph.cpp:38-83 | a counter is the number of in-edges not yet notified and never negative; a ready node that has not begun has exactly one owner; a notification never finds its counter below 1 |
| SchedulerTheorems.DependencyOrder | src/frame/graph.cpp:14-30 | the nodes begun, in order, are a linear extension of the graph without repetition, and each began after its predecessors were served or skipped |
| SchedulerTheorems.Progress | src/frame/graph.cpp:57-84 | in every reachable state that is not final some action is possible |
| SchedulerTheorems.MeasureDecreases | src/frame/graph.cpp:14-84 | a measure over nodes to begin, to end, to place, loops to leave and edges to notify decreases with every step |
| SchedulerTheorems.RunsAreShort | src/frame/graph.cpp:14-84 | no run has more than four steps for each node and one for each edge |
| SchedulerTheorems.ExactlyOnce | src/frame/graph.cpp:14-84 | on an accepted graph, a run that can go no further has begun and ended every node exactly once and left every counter at zero |
| SchedulerTheorems.RunToEnd | src/frame/graph.cpp:14-84 | every run can be carried on to its end |
| SchedulerTheorems.CycleNeverBegins | src/frame/graph.h:171-181 | a node on a cycle would never begin, on any interleaving |
| SchedulerTheorems.CompletesIffAcyclic | src/frame/graph.h:148-183 | what the check is for: a graph whose root alone has no inputs completes on every interleaving if it is acyclic, and on none if it is not |
| SchedulerTrace.RunsAreProper | src/frame/graph.cpp:14-84 | in every run, read off the actions: a node is called or skipped, never both, after all its in-edges were notified; `do_service` of a cpu node returns on its thread and an io node is completed by its callback, after the call; its out-nodes are notified in order after that; nothing happens twice |
| SchedulerTrace.EveryNodeIsServedOrSkipped | src/frame/graph.cpp:14-30 | on an accepted graph, in a run that can go no further, each node was either called and served once, or skipped once and not served, and each of its out-nodes was notified once |
| GraphManager.Builder.CreateIfNotExist | src/frame/graph_manager.cpp:32-58 | one node for each name, created with the next id; null, and nothing changed, for a name without a class |
| GraphManager.Builder.Link | src/frame/graph_manager.cpp:98-101 | the edge is there afterwards, once, and the input counters stay the in-degrees |
| GraphManager.Builder.AddChildren | src/frame/graph_manager.cpp:81-104 | exactly the listed children with a class get an edge from the node |
| GraphManager.Builder.AddParents | src/frame/graph_manager.cpp:106-128 | exactly the listed parents with a class get an edge to the node |
| GraphManager.Builder.Build | src/frame/graph_manager.cpp:65-129 | visits entries until one has no class; the edges and names are those of the entries visited, and the root is the last one marked so |
| GraphManager.ReplayOk | src/frame/graph.h:58-70 | however a graph is grown node by node and edge by edge, no edge is repeated, inputs are in-degrees, and the edges are those added |
| GraphManager.DeclaredMeaning | src/frame/graph_manager.cpp:65-129 | the edges added are exactly the pairs (a, b) with b among the children of a or a among the parents of b |
| GraphOrder.OrderDoesNotMatter | src/frame/graph_manager.cpp:62-138 | for two orders of the same entries, all names with a class and one root: the graphs built have the same names, the same edges by name, the same root and the same verdict |
| GraphOrder.OrderMatters | src/frame/graph_manager.cpp:69-80 | with two roots the one visited last counts, and an entry without a class hides the later ones |
| Isomorphism.AcceptedAlike | src/frame/graph.h:148-183 | the verdict does not depend on how the nodes are numbered |
| GraphConfig.EntryReadsBack | src/frame/graph_manager.cpp:81-128 | names written with commas between them and any spaces around them are read as those names: the entry declares exactly the edges to its children and from its parents that have a class |
| GraphConfig.SpaceAfterComma | src/frame/graph_manager.cpp:87-101 | "mid1, mid2" declares both children |
| Text.TrimPadded | src/frame/graph_manager.cpp:87-117 | trimming takes off the spaces on either side and nothing else |
| GraphManager.InitGraph | src/frame/graph_manager.cpp:59-138 | from the text of a configuration: the graph built from the entries visited has their declared edges, once each, ids that number the names from 0, inputs that are in-degrees; it is accepted exactly when it is acceptable |
| Countdown.Spend | src/service/base/redis_service.cpp:147-150 | the decrement that sees 1 is the one that spends the last token |
| Batching.StepFitsCount | src/service/base/redis_service.cpp:210-217 | for all key counts and batch sizes, the step recomputed from the batch count is at most the batch size and needs exactly that many batches |
| Batching.CeilingIsUnique | src/service/base/redis_service.cpp:210-217 | there is only one number that is n / d rounded up |
| Batching.IssueBatches | src/service/base/redis_service.cpp:203-273 | with MGET as many sends as keys / `batch_size` rounded up, each of keys / sends rounded up keys except the last; without it one for each key; the countdown is set to that many, the ranges partition the keys, and each send has its own result cell |
| Batching.PartitionCovers | src/service/base/redis_service.cpp:258-273 | every key lies in exactly one batch |
| RedisPlan.PlanRequest | src/service/base/redis_service.cpp:147-223 | each countdown starts at the number of its tokens: the fetches of the request, and for each fetch the sends then made, which with MGET are keys / `batch_size` rounded up |
| RedisSteps.StepKeepsInv | src/service/base/redis_service.cpp:147-333 | every action of the issuing thread and of every callback, and the crash in the merge, keeps the invariant of the request |
| RedisTheorems.Counters | src/service/base/redis_service.cpp:148-150 | in every reachable state the countdowns count the fetches and batches outstanding, and no decrement finds its counter at zero |
| RedisTheorems.ResponseComesLast | src/service/base/redis_service.cpp:147-176 | in every reachable state merging, response and notification have each happened at most once and in that order, only after every batch of every fetch; `parse_cached_data` and `set_value` have each been called at most once, and before the response if there is cached data |
| RedisTheorems.IssuerNeverBlocks | src/service/base/redis_service.cpp:177-333 | until it returns or the process has crashed, the issuing thread can always go on |
| RedisTheorems.WaiterIsReleased | src/service/base/redis_service.cpp:237-245 | whenever a callback waits, the promise is set or the issuing thread has not returned and can go on to set it |
| RedisTheorems.Progress | src/service/base/redis_service.cpp:147-333 | no deadlock: until everything has finished or the process has crashed, some action is possible |
| RedisTheorems.RunsAreShort | src/service/base/redis_service.cpp:147-333 | every run ends, within three steps for each batch, one for each fetch and eleven more |
| RedisTheorems.RunToEnd | src/service/base/redis_service.cpp:147-333 | every run can be carried on until it is over: completed exactly if no first send of a fetch has failed, crashed otherwise |
| RedisTheorems.CrashesIff | src/service/base/redis_service.cpp:532-538 | a run that can go no further has crashed in the merge if and only if the first send of some fetch failed, and then nothing was merged, processed or notified |
| RedisTheorems.NoCrashWithoutFailure | src/service/base/redis_service.cpp:532-538 | no run has crashed, at any moment, before a first send failed |
| RedisTheorems.FirstSendFailedMeaning | src/service/base/redis_service.cpp:320-323 | a first send has failed exactly if one of the actions of the run was that failure |
| RedisTheorems.OneFailedSendCrashes | src/service/base/redis_service.cpp:320-323 | a request of one batch whose send fails crashes |
| RedisTheorems.ExactlyOnce | src/service/base/redis_service.cpp:147-333 | when no first send failed, a run that can go no further has merged the results once, run `process_response` once, notified the out-nodes once, parsed cached data once, and every batch is done |
| RedisTrace.RunsAreProper | src/service/base/redis_service.cpp:147-333 | in every run, read off the actions: batches are issued in order, callbacks belong to batches that were sent, the merge comes when every batch has come back or was not sent, the response after the merge and after the promise is set, the notification after the response; nothing happens twice |
| RedisTrace.EveryBatchIsSettled | src/service/base/redis_service.cpp:147-333 | if the first batch of every fetch was sent, a run that can go no further has issued each batch once, each one sent has come back once, and merge, response and notification were seen once, with parsing and promise if there is cached data |
| RedisTrace.MissedFirstEndsInMerge | src/service/base/redis_service.cpp:532-538 | otherwise the merge has begun and no response or notification has been seen |
| ConcurrentService.StepKeepsInv | src/service/base/concurrent_service.cpp:32-48 | every step of the spawning loop and of the slices keeps the invariant |
| ConcurrentService.MergeComesLast | src/service/base/concurrent_service.cpp:36-43 | the merge happens at most once and after every slice, the notification at most once and after the merge |
| ConcurrentService.Progress | src/service/base/concurrent_service.cpp:32-48 | until everything has finished, some action is possible |
| ConcurrentService.StepHappens | src/service/base/concurrent_service.cpp:32-48 | every step adds to a count that `HappenedIsBounded` bounds |
| ConcurrentService.HappenedIsBounded | src/service/base/concurrent_service.cpp:32-48 | no run has more than three steps for each slice and two more |
| ConcurrentService.ExactlyOnce | src/service/base/concurrent_service.cpp:32-48 | in every completed run all slices were processed, then merged once, and the out-nodes notified once |
| SliceTrace.RunsAreProper | src/service/base/concurrent_service.cpp:32-48 | in every run, read off the actions: a slice is processed after it was started, the merge comes after all slices and the notification after the merge; nothing happens twice |
| SliceTrace.EverySliceIsProcessed | src/service/base/concurrent_service.cpp:32-48 | in every completed run each slice was started and processed once, and merge and notification were seen once |
| IoCalls.CallStepKeepsInv | src/service/base/redis_service.cpp:173-174 | a call of any service notifies at most once |
| IoCalls.TerminalHasNotified | src/service/base/redis_service.cpp:173-174 | a call of any service that has done everything has notified |
| IoCalls.OverIsDecided | src/service/base/redis_service.cpp:538 | a call whose run is over has crashed if a first send failed, and has done everything if none did |
| Composition.NotificationIsIoDone | src/frame/graph.cpp:19-23 | when a call runs the out-nodes, the scheduler was waiting for it, and the effect is the io completion that the scheduler's proofs assume |
| Composition.Refinement | src/frame/graph.cpp:14-84 | every run of scheduler and services together is, for the scheduler, one of its own runs with each io node completing once |
| Composition.Progress | src/frame/graph.cpp:14-84 | the whole never stalls before every node and every call is done or the process has crashed |
| Composition.RunsAreShort | src/frame/graph.cpp:14-84 | the whole ends, within a number of steps computed from the graph and the requests |
| Composition.CrashesIff | src/service/base/redis_service.cpp:538 | a run of the whole that can go no further has crashed if and only if the first send of some fetch of some call failed |
| Composition.ExactlyOnce | src/frame/graph.cpp:14-84 | when no first send failed, a run of the whole that can go no further has begun and ended every node once, in dependency order, and every call has notified once |
| Composition.EveryNodeIsServedOrSkipped | src/frame/graph.cpp:14-30 | the same for the whole, where an io node is completed by the notification of its own call, and calls are started for exactly the io nodes whose `do_service` is called |
| Composition.RunToEnd | src/frame/graph.cpp:14-84 | every run of the whole can be carried on until it is over: completed exactly if no first send has failed |
| DoService.SetUp | src/service/base/redis_service.cpp:121-223 | the fetches of a configuration become the service of the node: the request planned from the fetches made up, with its cached data, or the immediate completion of a node without fetches |
| DoService.FindPlace | src/service/base/redis_service.cpp:48-120 | every fetch of the request is a configured one or was split off one |
| DoService.PlaceIsUnique | src/service/base/redis_service.cpp:48-120 | and of only one |
| DoService.EveryKeyIsServed | src/service/base/redis_service.cpp:121-335 | when no first send failed, in a run that can go no further the keys generated for a fetch with a client are, with multiplicity, cache hits and keys of batches sent for it, and all these batches are done |
| DoService.EveryKeyIsServedInWhole | src/frame/graph.cpp:14-84 | the same for every call of a Redis node in a run of the whole |
| DoService.NothingSentWithoutClient | src/service/base/redis_service.cpp:75-79 | for a fetch without a client nothing is split off and nothing is sent |
| DoService.MergesAgree | src/service/base/redis_service.cpp:532-560 | the merge of the values crashes in exactly the states in which the merge step of the protocol does |
| KeyGroups.GetFromCache | src/service/base/redis_service.cpp:485-512 | misses in order, and a map of the hits with a single space read as nothing |
| KeyGroups.HitOrMiss | src/service/base/redis_service.cpp:490-504 | the keys are, with multiplicity, the hits and the misses, and the map has exactly the hits |
| KeyGroups.HitsInOrder | src/service/base/redis_service.cpp:490-504 | the hits are the keys that the cache answered for, in order |
| KeyGroups.MissesInOrder | src/service/base/redis_service.cpp:490-504 | the misses are the others, in order |
| KeyGroups.DeliveredValue | src/service/base/redis_service.cpp:490-504 | what is delivered for a key is the last answer the cache gave for it, a single space read as nothing |
| KeyGroups.DeliveredIff | src/service/base/redis_service.cpp:487-504 | map and misses together are the keys, with multiplicity, exactly when no hit is repeated |
| KeyGroups.RepeatedHitIsDeliveredOnce | src/service/base/redis_service.cpp:487-504 | two requests for one cached key make one entry |
| KeyGroups.GroupingConserves | src/service/base/redis_service.cpp:80-108 | grouping by slot loses and duplicates no key, and the keys of a group share its slot |
| KeyGroups.OfSlotInOrder | src/service/base/redis_service.cpp:80-84 | the keys of a group are all those of its slot, in order |
| KeyGroups.GroupBySlot | src/service/base/redis_service.cpp:80-84 | the map has a group for each slot that occurs, with its keys in order |
| KeyGroups.DivideBySlot | src/service/base/redis_service.cpp:80-108 | whatever the order of the map, the parts are the groups, each once |
| FetchInfos.MakeUpOne | src/service/base/redis_service.cpp:51-109 | one fetch: missing generator, no keys, cache hits, unknown client, and division by slot into the fetch and added ones |
| FetchInfos.MakeUpFetchInfoVec | src/service/base/redis_service.cpp:48-120 | every fetch is made up from its own input, added fetches stand behind with their origin's settings, ids are positions, cached data is listed fetch by fetch |
| FetchInfos.KeysAreConserved | src/service/base/redis_service.cpp:51-109 | the generated keys are, with multiplicity, the cache hits, the keys kept and the keys of the added fetches |
| FetchInfos.DeliveredExactly | src/service/base/redis_service.cpp:65-73 | a fetch that uses the cache delivers exactly the generated keys that the cache answered for, each with its last answer; another delivers none |
| FetchInfos.ItemsInOrder | src/service/base/redis_service.cpp:505-510 | `cache_data_vec` has an item for each fetch with cached data, in order |
| FetchInfos.RequestConserves | src/service/base/redis_service.cpp:48-120 | the same over all fetches of a request |
| FetchInfos.OneSlotEach | src/service/base/redis_service.cpp:80-108 | of a fetch and those split off it, keys of one share a slot and keys of two do not |
| MultiFetch.MakeCommand | src/frame/client/redis/redis_client.cpp:306-319 | the command is MGET and the keys of the range that exist, in order, exactly if copies of a string share its bytes or all these keys are empty; it is routed by the first of them |
| MultiFetch.BatchesAreTheKeys | src/frame/client/redis/redis_client.cpp:306-320 | the batches of a fetch are its keys in order, each once, and routing by the first key of a batch is right for every key in it |
| MultiFetch.KeysAreAsked | src/service/base/redis_service.cpp:48-323 | with multiplicity, every generated key is a cache hit or lies in the range of a batch of its fetch or of one split off it |
| MultiFetch.BatchGoesToItsNode | src/frame/client/redis/redis_client.cpp:306-320 | every batch of such a fetch goes to the node of each key in it |
| Crc16.Crc16 | src/frame/client/redis/channel_pool.cpp:5-11 | the table-driven loop computes the bit-by-bit checksum of every byte string |
| Crc16.TableIsRemainder | src/frame/client/redis/channel_pool.h:28-61 | each of the 256 entries is the remainder that eight shifts of its index leave, in closed form |
| Crc16.IndexIsByte | src/frame/client/redis/channel_pool.cpp:9 | bytes that are negative as `char` index the table like their unsigned values |
| Crc16.TableStep | src/frame/client/redis/channel_pool.cpp:9 | one round of the loop is eight rounds of the bit-by-bit checksum |
| Crc16.ShiftOutIsConditional | src/frame/client/redis/channel_pool.cpp:5-11 | the specification's shift is the textbook one: exclusive or with 0x1021 when the top bit was set |
| Crc16.CheckValue | src/frame/client/redis/channel_pool.cpp:5-11 | the checksum of "123456789" is 0x31C3, as Appendix A says |
| KeySlot.GetKeySlot | src/frame/client/redis/channel_pool.cpp:27-71 | the slot is below 16384 and that of the part of the key that is hashed; 0 for a null pointer |
| KeySlot.SlotIsRemainder | src/frame/client/redis/channel_pool.cpp:43-61 | the slot is the checksum of the part that is hashed, modulo 16384 |
| KeySlot.SlotOfCheckString | src/frame/client/redis/channel_pool.cpp:43-61 | the slot of "123456789" is 12739 |
| KeySlot.HashTags | src/frame/client/redis/channel_pool.cpp:38-63 | of p{t}q, with no brace opened in p and t non-empty without a closing brace, exactly t is hashed; every other key is hashed whole |
| KeySlot.SameTagSameSlot | src/frame/client/redis/channel_pool.cpp:60-61 | keys with the same tag share a slot |
| SlotMap.CheckSlot | src/frame/client/redis/redis_client.cpp:358-365 | true exactly when the slot lies in one of the node's ranges |
| SlotMap.OwnsIff | src/frame/client/redis/redis_client.cpp:358-365 | a node serves a slot exactly if one of its ranges holds it, ends included |
| SlotMap.ChannelPool.InitSlotNodeMap | src/frame/client/redis/redis_client.cpp:228-247 | each entry is the last node that serves the slot, or else what the vector held there, or -1; the vector reaches every served slot |
| SlotMap.ChannelPool.GetKeyNodeIndex | src/frame/client/redis/channel_pool.cpp:13-25 | the entry of the key's slot, 0 when it is out of range or -1 |
| SlotMap.ToUint32Meaning | src/frame/client/redis/channel_pool.cpp:13-25 | a negative `int` becomes a `uint32_t` by adding 2^32 |
| SlotMap.FreshAgrees | src/frame/client/redis/redis_client.cpp:228-247 | an index built from nothing names for every slot the last node that serves it, or none |
| SlotMap.RebuildAgreesIff | src/frame/client/redis/redis_client.cpp:228-247 | an index built over an old one does so exactly when the old one held nothing for the slots that nobody serves |
| SlotMap.StaleEntry | src/frame/client/redis/redis_client.cpp:229 | a slot that was given up keeps its old node |
| SlotMap.Routing | src/frame/client/redis/channel_pool.cpp:13-25 | a key whose slot is served goes to an existing node that serves it, the last one; any other key goes to node 0 |
| ClusterNodes.Node.ParseNodeString | src/frame/client/redis/redis_client.cpp:367-377 | host and 16-bit port around the first colon; without one nothing changes |
| ClusterNodes.Node.ParseSlotString | src/frame/client/redis/redis_client.cpp:379-395 | a slot or a range of slots is appended |
| Text.JoinSplits | src/frame/client/redis/redis_client.cpp:149 | splitting undoes joining: the only pieces without delimiters that join to a string are those it is split into |
| Text.FieldsReadBack | src/frame/client/redis/redis_client.cpp:157 | non-empty fields joined by a delimiter are read back, with runs of delimiters counted as one |
| Text.SpreadReadBack | src/frame/client/redis/redis_client.cpp:149-157 | fields separated by runs of delimiters of any length are read back |
| ClusterNodes.AddressOfText | src/frame/client/redis/redis_client.cpp:367-377 | host:port, with anything but a digit after it, is read as that host and the port modulo 65536 |
| ClusterNodes.AddressIff | src/frame/client/redis/redis_client.cpp:368-370 | there is no address exactly if there is no colon |
| ClusterNodes.AtoiReadsSigned | src/frame/client/redis/redis_client.cpp:373 | `atoi` passes over spaces, reads a sign and a decimal number, and ignores what follows |
| ClusterNodes.AtoiWithoutNumber | src/frame/client/redis/redis_client.cpp:373 | without a number it gives 0 |
| ClusterNodes.RangeOfText | src/frame/client/redis/redis_client.cpp:379-395 | first-last is read as that range, a single number as a range of one |
| ReplyText.LineReadsBack | src/frame/client/redis/redis_client.cpp:152-176 | a line written from the fields of a node is read as that node, with its id, address and slots, and counts exactly if the node is a connected master |
| ReplyText.ReplyReadsBack | src/frame/client/redis/redis_client.cpp:142-176 | a whole reply is read as its connected masters, in order |
| ClusterNodes.ReadReply | src/frame/client/redis/redis_client.cpp:142-176 | the lines of connected masters, in order, and the node of each |
| ClusterNodes.UsableInOrder | src/frame/client/redis/redis_client.cpp:152-167 | the lines kept are all those that count, in order |
| ClusterNodes.ContainsIff | src/frame/client/redis/redis_client.cpp:161-164 | `strstr` finds a string exactly if it stands at some position |
| ClusterNodes.IsChannelPoolChanged | src/frame/client/redis/redis_client.cpp:60-111 | false exactly when the lines correspond one to one and agree in every field but 2 to 7 |
| ReplyText.SameNodeIff | src/frame/client/redis/redis_client.cpp:60-111 | two written lines correspond exactly if they have the same id, address and slots, whatever their flags, times and link states |
| ClusterNodes.UnchangedMeansSameRouting | src/frame/client/redis/redis_client.cpp:177-180 | when the answer is false, both pools' lines parse to the same nodes, and indexes built from either route every key alike |
| ClusterNodes.RoutedByLines | src/frame/client/redis/redis_client.cpp:142-182 | with the index built from a reply, a key whose slot is listed goes to the node of the last line that lists it |
| ClusterNodes.RedisClient.constructor | src/frame/client/redis/redis_client.cpp:19-30 | at start-up the pool in use has the lines of the reply and a fresh index of their nodes, or none when no line counts |
| ClusterNodes.RedisClient.InitChannelPool | src/frame/client/redis/redis_client.cpp:113-182 | the pool takes the reply's lines, and its index is rebuilt unless the two pools' lines correspond |
| Cache.CacheManager.Get | src/frame/cache_manager.cpp:26-41 | the stored value; nothing for the empty key |
| Cache.CacheManager.Set | src/frame/cache_manager.cpp:43-51 | stores, unless the key or value is empty, the value null, or the expiry not positive |
| Cache.CacheManager.MergeCacheData | src/service/base/redis_service.cpp:532-560 | the replies of every fetch that uses the cache are stored under their own keys, in order, nil as a space, up to the first fetch whose first result cell no callback has filled, where the process ends |
| MergedStore.RepliesAreMerged | src/service/base/redis_service.cpp:532-560 | after a merge every key holds the last value that was returned for it, at its own position in its batch, in a fetch that uses the cache, if key and value are not empty and the expiry is positive as an `int`; every other key is as before |
| MergedStore.MergeMeaning | src/service/base/redis_service.cpp:532-560 | this is what the method leaves in the store: of all fetches if every first cell is filled, and otherwise of those before the first that is not |
| MergedStore.EachUnderItsKey | src/service/base/redis_service.cpp:541-555 | with no key asked for twice, each value is stored under the key at the start of its batch plus its position, or that key is as before if the value is not taken |
| MergedStore.TwoBatchesStored | src/service/base/redis_service.cpp:554 | the values of two batches are stored under the keys of their own batches |
| Cache.HitIsLastStored | src/service/base/redis_service.cpp:490-504 | over any sequence of merges and evictions, a hit is read as the value last returned and stored for its key, nil as empty |
| Cache.HitIff | src/frame/cache_manager.cpp:26-51 | the cache answers for a key exactly when a value was stored for it and not dropped since |
| Cache.DeliveredIsLastStored | src/service/base/redis_service.cpp:485-512 | the same for what a fetch delivers, each look-up made at its own moment |
| Cache.ReadsBackIff | src/service/base/redis_service.cpp:548-555 | a merged reply is what the next hit returns, whatever the cache held, exactly when it is stored and not a single space |
| Cache.EmptyReplyLeavesOldValue | src/frame/cache_manager.cpp:43-46 | an empty value does not replace the one stored before |
| ConnectPool.ConnectPool.constructor | src/frame/client/redis/connect_pool.h:18-32 | the pool starts with the connections that the builder made |
| ConnectPool.ConnectPool.Borrow | src/frame/client/redis/connect_pool.h:33-54 | the oldest idle connection, or a new one; both 32-bit counters as the code keeps them |
| ConnectPool.ConnectPool.Release | src/frame/client/redis/connect_pool.h:56-81 | the connection is kept below the pool's size, or below its maximum while busy; false for null and at the maximum |
| ConnectPool.OldestFirst | src/frame/client/redis/connect_pool.h:33-81 | the idle connections are a queue: the one at position i is lent by the borrow after the next i, whatever is given back meanwhile |
| ConnectPool.KeptAtTheEnd | src/frame/client/redis/connect_pool.h:70-78 | a connection given back and kept stands at the end of the queue |
| ConnectPool.WrappedIsRemainder | src/frame/client/redis/connect_pool.h:39-65 | the counts are those of 32-bit words |
| ConnectPool.Conservation | src/frame/client/redis/connect_pool.h:18-81 | over every sequence, however many of the first connections could be built: idle and lent ones are distinct and disjoint, the count is the number lent exactly when no borrow came back empty, idle is at most the maximum, and idle and lent are at least the size exactly once that many were made |
| ConnectPool.MaximumIsExceeded | src/frame/client/redis/connect_pool.h:8-11 | a pool of at most one can have two connections |
| ConnectPool.BorrowWithinMaximumIff | src/frame/client/redis/connect_pool.h:33-44 | a borrow keeps the total within the maximum exactly when fewer than the maximum are lent, or nothing could be built |
| ConnectPool.WithinMaximumIff | src/frame/client/redis/connect_pool.h:8-11 | over a whole sequence the total stays within the maximum exactly when the number lent does |
| ConnectPool.ShrinksIff | src/frame/client/redis/connect_pool.h:8-11 | after any sequence with nothing lent and more than the size idle, a borrow and a release drop one exactly when fewer borrows than the size came back empty-handed, apart from the wrapping of the 32-bit counts |
| ConnectPool.KeepsSizeIff | src/frame/client/redis/connect_pool.h:8-11 | with exactly the size idle, they keep it there exactly when the size is at least 1, apart from degenerate cases |
| ConnectPool.ShrinksBack | src/frame/client/redis/connect_pool.h:8-11 | repeated, they take the pool back to its size and keep it there if fewer borrows than the size came back empty-handed, and drop nothing otherwise |
| ConnectPool.FailedBuildKeepsPoolLarge | src/frame/client/redis/connect_pool.h:33-54 | a pool of size 1 with nothing lent that keeps two connections after one failed build |

## Left out

- HOCON, boost, brpc, bthread internals, snappy, the shared-memory cache, protobuf reflection, logging and flags: foreign code. Threads are steps, the cache is a map that may lose entries, a send either fails or is called back once.
- `main.cpp`, the server, the singletons, the registration macros and the look-ups of nodes and clients: plumbing. Whether a name has a class and a fetch a client is an input.
- `BrpcService`, `HttpService` and the sample services: they complete once and appear as such in the composed machine.
- `ThreadPool.h`, which nothing enqueues to, and the background loop that re-reads the cluster, whose start is commented out.
- Timing and monitoring fields, debug strings and error texts.
- The content of responses: parsing of values and `check_suc_rpc_response`; a batch's answer is a list of values, no longer than its command.
- A second request through one Redis node: `fetch_info_vec` keeps the fetches added by the first, and the model is of one request.
- An io completion that runs on the issuing thread itself (an inline failure) is given a thread of its own in the composed machine, which allows more interleavings than the nested call does.
- A graph without a root, zero slices, a batch size of 0, migrating-slot entries, and integers that `atoi` or `int` cannot hold are outside the preconditions.
- Lifetimes of the strings and pointers that cache entries refer to; of commands, only those of the keys of an MGET are modelled.
- GraphManager.InitGraph: requires an entry marked as root among those visited; without one `init` is called with a null root, which it dereferences.
- Graph.Graph.Check: the log messages that end the process on a rejected graph are not modelled; the result is the returned value.
- RedisTheorems.ExactlyOnce: a request without fetches is answered before `do_service` returns and is part of the composed machine only.
