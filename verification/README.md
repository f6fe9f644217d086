# Verification of the scheduling, balancing and migration cores

This project models the algorithmic parts of a data-platform server and proves what they keep,
for all inputs and all interleavings. `dafny verify dfyconfig.toml` checks the whole project
(Dafny 4.11).

The parts, in the order in which they build on each other:

- **Canvas.** Nodes and lines are edited by users. `UtilsGraph` is the in-memory graph of
  `utils/graph.go`; `LineGraph` is the check that guards `SaveLine`. `Digraph`, `Adjacency` and
  `Sums` hold the graph theory: paths, cycles, degree counts, "every node has a predecessor
  implies a cycle".
- **Batches.** `CronParse`, `InstanceLinks`, `InstanceDag`, `DagBuilder`, `GraphBuild` and
  `Dispatch` turn the stored lines and nodes into dated instances, link each instance to its
  upstream instances with the two-pointer sweep, write both tables and queue the root.
- **Queue.** `DelayQueue` is the message table with any number of workers: claim, handler,
  retry with backoff, final status. A status update may be lost, a worker may crash, the clock
  may advance at any point.
- **Workflow.** `WorkflowProtocol` puts the handler of `internal/workflow/node_runtime.go` on
  top of the queue, one step per database operation, for any number of batches that share the
  tables and the workers. `WorkflowSafety`, `WorkflowResult` and `WorkflowTermination` prove
  safety, confluence and termination over every interleaving; `WorkflowCompletion` proves that
  settled runs exist. `NodeRuntime` is the imperative handler and drain loop, proved to be runs
  of that protocol; `Pipeline` joins canvas, batches and workflow, where batches may be
  inserted at any point of a run. `Session` derives what `Pipeline` starts from out of any
  sequence of saved lines, deleted lines and created batches. `WorkflowAsWritten` puts back
  two details of the code, with which nothing in the workflow runs.
- **Stand-alone cores.** `WeightedBalancer` (smooth weighted round robin), `TimingWheel`,
  `TokenBucket` (the rate limiter's Redis script), `RangeSplit` and `Migrate` (table
  migration), `SqlTemplate` and `SqlReading` (placeholder rendering and quoting, and what MySQL
  reads back), `BloomFilter`.

Classes carry the state the source updates in place; each method is proved against a
value-level specification (a function or predicate of the state before), and the properties
are lemmas about that specification. Which database operation fails is an input of a method
(`Faults`, `Outcome`, `ok`, `lost`), the commit of a batch included, so its contract also says
when it must succeed.

## What was found

- **Splitting keys.** `splitPKRanges` partitions `[min, max]` for every input with
  `channels > 1` and `min <= max`, except when there are more channels than keys, at least two
  keys, and `max` is the largest int64. Then `lo` wraps around and the remaining channels cover
  the whole key space again, so every row is read twice (`RangeSplit.SplitPartitionsExactly`,
  `RangeSplit.OverrunExample`). A span that does not fit int64 is harmless: the step becomes 1.
  Consequently a successful parallel run writes the same multiset of rows as a serial one
  exactly when this does not happen (`Migrate.ParallelIsSerial`); replacing modes still end in
  the right table, and plain inserts fail. Apart from faults, a parallel run under plain inserts
  succeeds exactly when the ranges do not overrun and no key clashes (`Migrate.RunParallel`).
- **Which instances run.** Only the first instance of the root node is queued. A settled batch
  has run all its instances exactly when it is stored, its root is queued, is due once in the
  window, and is the only node without an upstream node in the batch
  (`Pipeline.BatchCompletesExactly`). The last two speak of the stored lines, nodes and
  schedules only, so they are known before the batch is created
  (`Pipeline.SoleSourceBeforehand`, `Dispatch.NodeServer.OneSource`).
  `Pipeline.RootDueTwice` is a batch whose root fires twice: its second instance never runs.
- **A batch that never starts.** The batch is written before the root is looked up and queued.
  It is stored exactly when no step up to the commit fails, whether or not the root can be
  queued (`Dispatch.NodeServer.InstanceCreate`). If the publish fails or the root is not a
  stored node, the next call finds the batch, reports success and changes nothing; and only
  such a call leaves a stored batch without a queued root
  (`Dispatch.NodeServer.CreateAndRetry`).
- **A root without its batch.** The error of the commit is dropped
  (internal/store/dispatch/store.go:232-238), so a call whose commit fails queues the root and
  reports success although nothing is stored (`Dispatch.NodeServer.InstanceCreate`). That
  message is never loaded and never succeeds, whatever else happens
  (`Pipeline.LostBatchNeverRuns`); a later call makes the batch anew, under other ids
  (`Dispatch.NodeServer.CreateAfterLostCommit`).
- **Deleted rows take part.** The store attaches its `deleted = 0` condition after the rows are
  read, for lines (internal/store/dispatch/store.go:82) and for nodes (line 69). So a deleted
  line still links instances and a deleted node is still scheduled
  (`Dispatch.NodeServer.DeletedTakePart`); the deletion marks change nothing in a batch
  (`Dispatch.NodeServer.DeletionIgnored`).
- **Needless refusals.** The line check, too, includes logically deleted rows, and also the
  row that the upsert is about to replace. `LineGraph.NeedlessRefusal` says when a refusal was
  not needed: for all rows, exactly when every way back runs through the replaced row; for the
  live rows, exactly when every way back runs through it or a deleted one.
  `LineGraph.DeletedLineRefuses` and `LineGraph.OwnRowRefuses` are one table for each.
- **"@every" is one second early.** From two seconds on, Next of an "@every d" schedule depends
  on where one asks, so it stands for no set of fire times; below that it stands for the whole
  seconds (`CronParse.EveryDescribesExactly`). Because the scan starts one second before the
  window, "@every d" fires at start + d - 1s and every d from there (`CronParse.EveryFires`).
- **A rate of 0, or a huge capacity.** If the time to live is infinite or outside the range of
  EXPIRE, the limiter's script raises an error after it has stored the hash, so every call
  fails and tokens are still spent (`TokenBucket.DistributedRateLimiter.Allow`).
- **As written, nothing runs.** The producer stores an instance id as JSON text
  (internal/store/delayqueue/producer.go:44) and the handler takes that text, quotes included,
  for the id (internal/workflow/node_runtime.go:28). So no instance ever leaves its first
  status, in any run, as long as no instance id begins with a double quote, and no UUID does
  (`WorkflowAsWritten.JsonPayloadsRunNothing`). With a worker and a handler, something can run
  exactly when the payload of some root is the id of a stored instance
  (`WorkflowAsWritten.SomethingRunsExactly`). The query for the next instances begins its
  condition with `AND` (internal/store/dispatch/store.go:267-272), which the database refuses;
  without that query only queued roots are ever queued or succeed
  (`WorkflowAsWritten.OnlyRootsRun`). The other workflow theorems are about the protocol as it
  is meant, with the raw id and the intended rows (`WorkflowAsWritten.MeantIsProtocol`).
- **GetCycle** returns every node that some cycle reaches, not one cycle as its comment says.
- **The abort branch is dead.** No code writes Waiting or Running, so the handler never
  reaches it (`WorkflowSafety.NeverAborts`).
- **Where a placeholder may stand.** A quoted parameter is not always read as what it stands
  for. A string is exactly when it stands where a quote begins a string, and neither a quote
  follows nor, after blanks and comments, another string, which MySQL would join to it
  (`SqlReading.RenderedTextReadsBack`); an identifier, when it stands where a backquote begins a
  name and no other follows (`SqlReading.RenderedNameReadsBack`). All string and identifier
  parameters of a template are read back exactly when a scanner accepts the template
  (`SqlReading.AllQuotedReadBack`), which depends on no parameter's content
  (`SqlReading.PlacementIsShape`). It fails inside quotes, as in `'%{{a}}%'`
  (`SqlReading.InsideQuotesFails`), where the text before the parameter becomes a value of its
  own (`SqlReading.InsideQuotesEndsEarly`); for neighbours, as in `{{a}} {{b}}`
  (`SqlReading.NeighboursConcatenate`); and for two placeholders without text between them
  (`SqlTemplate.AdjacentLiteralsMerge`).
- **Four tries.** Whatever is lost or crashes, a workflow message fails only after its handler
  was entered four times, with 1, 2 and 4 seconds between the tries at least
  (`WorkflowTermination.FailedAfterFourTries`, `DelayQueue.RetriesWaitLonger`).
- **Comment and code.** The comment on `runParallel` says that one failure cancels the other
  channels (service/migrate/migrate.go:296). The code lets them finish and returns one of the
  errors; the model follows the code.

## Model

| member | source | states |
|---|---|---|
| Digraph.AddEdgeKeepsAcyclic | utils/graph.go:36-65 | adding an edge to an acyclic graph closes a cycle exactly when its target already reaches its source |
| Digraph.NoSourceImpliesCycle | utils/graph.go:151-200 | in a finite set whose every node has a predecessor in the set, every node lies below a cycle |
| Digraph.ListedNotBelowCycle | utils/graph.go:107-148 | a list that names every predecessor before its successor contains nothing a cycle reaches |
| Digraph.ApartAcyclic | service/dispatchserver/dispatch.go:223-238 | acyclic graphs without a common node are acyclic together |
| UtilsGraph.Graph.constructor | utils/graph.go:20-26 | a new graph has no nodes and no edges |
| UtilsGraph.Graph.AddNode | utils/graph.go:28-34 | the new state is the specification's; a known node keeps its edges |
| UtilsGraph.Graph.AddEdge | utils/graph.go:36-53 | the new state is the specification's, an unknown end or a cycle is the error returned, and an acyclic graph stays acyclic |
| UtilsGraph.Graph.WouldCreateCycle | utils/graph.go:56-65 | true exactly when the target already reaches the source |
| UtilsGraph.Graph.HasPath | utils/graph.go:68-104 | the search that marks on enqueue terminates and decides reachability, unknown nodes included |
| UtilsGraph.Graph.Enqueue | utils/graph.go:82-101 | the successor loop marks exactly the unvisited successors, or stops at the target |
| UtilsGraph.Graph.Kahn | utils/graph.go:107-148 | the sort leaves a list in which predecessors come first, and every node left over has a predecessor left over |
| UtilsGraph.Graph.CountDegrees | utils/graph.go:111-121 | every in-degree is the number of listed edges into the node, duplicates counted |
| UtilsGraph.Graph.Release | utils/graph.go:134-143 | taking one node off lowers exactly its successors, once per listed edge, and queues those that reach zero |
| UtilsGraph.Graph.CheckDAG | utils/graph.go:107-148 | true exactly when the graph has no cycle |
| UtilsGraph.Graph.GetCycle | utils/graph.go:151-200 | empty exactly when acyclic, otherwise exactly the nodes that some cycle reaches |
| UtilsGraph.KahnSeparates | utils/graph.go:151-200 | what Kahn's algorithm leaves over is exactly what lies below a cycle |
| UtilsGraph.KahnDecides | utils/graph.go:107-148 | everything is sorted exactly when the graph is acyclic |
| UtilsGraph.EverySequenceStaysAcyclic | utils/graph.go:28-53 | every sequence of node and edge additions keeps the graph acyclic |
| UtilsGraph.RefusedExactlyForCycles | utils/graph.go:36-53 | an edge between known nodes is refused exactly when it would close a cycle |
| LineGraph.Graph.constructor | service/dispatchserver/graph.go:19-33 | the adjacency lists hold exactly the given lines, forwards and backwards |
| LineGraph.Graph.WouldCreateCycleLocked | service/dispatchserver/graph.go:35-66 | the search that marks on dequeue terminates and decides whether the new line closes a cycle |
| LineGraph.NodeServer.ListLines | internal/store/dispatch/store.go:76-87 | the check sees the edges of all stored rows, deleted ones included |
| LineGraph.NodeServer.SaveLine | service/dispatchserver/node_server.go:72-93 | the new table is the specification's, each error has its exact condition, and acyclic tables stay acyclic |
| LineGraph.NodeServer.DeleteLine | service/dispatchserver/node_server.go:68-70 | the row is marked deleted, and the edges that later checks see stay the same |
| LineGraph.EveryLineSequenceStaysAcyclic | service/dispatchserver/node_server.go:68-93 | every serial sequence of saves, upserts and deletions keeps the stored and the live lines acyclic |
| LineGraph.RefusedExactlyForStoredCycles | service/dispatchserver/node_server.go:74-82 | a save is refused exactly when the line would close a cycle with the rows checked |
| LineGraph.NeedlessRefusal | service/dispatchserver/node_server.go:74-82 | after a refused save all rows would be acyclic exactly when every way back runs through the replaced row, and the live rows exactly when every way back runs through that row or a deleted one |
| LineGraph.DeletedLineRefuses | internal/store/dispatch/store.go:76-87 | one deleted line refuses its reverse, although no live line is left |
| LineGraph.OwnRowRefuses | service/dispatchserver/node_server.go:74-82 | one live line cannot be turned around, although the new row would replace it |
| LineGraph.TurningAroundIsRefused | service/dispatchserver/node_server.go:72-93 | reversing a stored line never changes the table, deleted or not |
| LineGraph.DeleteKeepsEdges | service/dispatchserver/node_server.go:68-70 | a logical deletion removes no edge from the next check |
| CronParse.GetSchedulesBetween | utils/cron_parse.go:22-53 | an error exactly when the expression does not parse; otherwise, for every schedule of the parser, Next applied again and again from one second before the window, without what lies outside [start, end) |
| CronParse.FiredAscends | utils/cron_parse.go:22-53 | for every schedule the times are strictly ascending and inside [start, end) |
| CronParse.FiredIsSchedule | utils/cron_parse.go:22-53 | a schedule that stands for a set of fire times gives exactly those in [start, end) |
| CronParse.ScheduleUnique | utils/cron_parse.go:22-53 | that description determines the list |
| CronParse.EveryDescribesExactly | vendor/github.com/robfig/cron/v3/constantdelay.go:14-27 | for every duration, "@every" stands for a set of fire times exactly when the duration is below two seconds, and then that set is the whole seconds |
| CronParse.EveryFires | utils/cron_parse.go:22-53 | in a window that starts on the second, "@every d" fires at start + d - 1s and every d from there, as long as that is before the end |
| InstanceLinks.LatestUnique | service/dispatchserver/dag.go:80-93 | one upstream instance is the latest not after a time, or the first when all are later, and the downward scan finds it |
| InstanceLinks.LatestFromEarlier | service/dispatchserver/dag.go:84-87 | an earlier instance never needs a later upstream instance, so one downward pass is enough |
| InstanceLinks.PicksMembers | service/dispatchserver/dag.go:75-94 | an instance has exactly one link to each upstream node that has instances, to that node's pick |
| InstanceLinks.PicksOrderFree | service/dispatchserver/dag.go:75-94 | any two orders of the upstream map give the same multiset of links, without repetition |
| InstanceLinks.InstanceLinksAcyclic | service/dispatchserver/dag.go:69-96 | if the node graph is acyclic, so is the graph of instance links |
| InstanceDag.UuidSource.New | service/dispatchserver/dag.go:118 | no id is issued twice |
| InstanceDag.DAGNode.CreateInstance | service/dispatchserver/dag.go:98-135 | one dry run for an empty schedule, otherwise one instance per fire time, in order, with new distinct ids and every field as the source sets it |
| InstanceDag.DAGNode.BuildInstanceDepend | service/dispatchserver/dag.go:69-96 | on ordered lists the sweep over all upstream nodes gives every instance exactly its picks |
| InstanceDag.Sweep | service/dispatchserver/dag.go:80-93 | one two-pointer pass appends to every instance the id of its pick, and touches nothing else |
| InstanceDag.Merge | service/dispatchserver/dag.go:54-66 | equal keys are appended, other keys kept |
| DagBuilder.NodeDAG.Parser | service/dispatchserver/dag.go:227-241 | each node's instances are those of its schedule, until one does not parse, which is then the error |
| DagBuilder.NodeDAG.ParseNode | service/dispatchserver/dag.go:230-238 | one node is filled exactly when its schedule parses, with new ids |
| DagBuilder.ParsedWellFormed | service/dispatchserver/dag.go:227-241 | scheduled lists are non-empty and ordered, and no id repeats in the batch |
| DagBuilder.ParsedDated | service/dispatchserver/dag.go:227-241 | every node has exactly one instance for each of its fire times in the window, or one dry run now |
| DagBuilder.NodeDAG.BuildInstanceDepend | service/dispatchserver/dag.go:243-248 | merging in any node order gives every instance of every node its picks, and nothing else |
| DagBuilder.DependsOnEdges | service/dispatchserver/dag.go:243-248 | the merged map holds exactly the instance links |
| DagBuilder.NodeDAG.GetInstanceList | service/dispatchserver/dag.go:250-256 | every instance of every node, each once |
| GraphBuild.InstanceDAGBuilder.BuildDAGNode | service/dispatchserver/dag.go:148-157 | the node object of an id, made on first use |
| GraphBuild.InstanceDAGBuilder.Build | service/dispatchserver/dag.go:159-198 | the kept nodes are the root and all line ends that are stored, ins and outs show exactly the lines between kept nodes, and every linked object is the new one held under its id |
| GraphBuild.InstanceDAGBuilder.Replace | service/dispatchserver/dag.go:183-188 | every kept node is a fresh object carrying the last stored row of its id |
| GraphBuild.LastIsLast | service/dispatchserver/dag.go:183-188 | the row that a kept node carries has no later row of its id behind it |
| GraphBuild.InstanceDAGBuilder.ReplaceDAGNode | service/dispatchserver/dag.go:200-206 | a held node is replaced by an empty fresh one, others are ignored |
| GraphBuild.InstanceDAGBuilder.LinkKept | service/dispatchserver/dag.go:189-196 | a line between kept nodes adds one entry to each side, any other line none |
| GraphBuild.LinkDAGNodes | service/dispatchserver/dag.go:208-211 | the two ends point to each other's objects |
| Dispatch.Flatten | service/dispatchserver/dispatch.go:223-237 | one line per entry of the dependency map, in order, with new distinct ids |
| Dispatch.FlattenedIsExact | service/dispatchserver/dispatch.go:223-237 | the lines written are exactly the instance links, each once |
| Dispatch.NodeServer.WriteBatch | internal/store/dispatch/store.go:222-249 | both tables get all rows or neither gets any: all exactly when write and commit hold, and the error is that of the write alone |
| Dispatch.NodeServer.BuildGraph | service/dispatchserver/dispatch.go:204-212 | the node graph is the stored nodes linked exactly as the stored lines between them say, with each failure as its error |
| Dispatch.NodeServer.MakeBatch | service/dispatchserver/dispatch.go:223-238 | the rows to write are exactly the instances and links of the node graph |
| Dispatch.NodeServer.BatchCreateInstance | service/dispatchserver/dispatch.go:221-254 | the batch is written first; the root's first instance is queued for its time, pending and with three retries, exactly when the write did not fail, the instance exists and the publish holds, whether or not the commit held |
| Dispatch.NodeServer.InstanceExists | internal/store/dispatch/store.go:209-220 | true exactly when an instance of the batch is stored |
| Dispatch.NodeServer.InstanceCreate | service/dispatchserver/dispatch.go:194-219 | a batch is made exactly when it is new and no step up to the write fails, and stored exactly when the commit holds too, whether or not the root is queued; what is made follows from canvas, stored nodes, schedules and window, under new ids; success and the queued root have their exact conditions, which do not ask for the commit |
| Dispatch.NodeServer.CreateAndRetry | service/dispatchserver/dispatch.go:194-254 | if a call stores the batch without queueing its root, the next call for it reports success and changes nothing; and a stored batch without a queued root comes only from such a call |
| Dispatch.NodeServer.CreateAfterLostCommit | service/dispatchserver/dispatch.go:194-254 | after a call whose commit fails its root is queued and is no stored instance, and a later call for the batch makes it anew under other ids |
| Dispatch.NodeServer.NodesTaken | service/dispatchserver/dag.go:159-198 | the nodes of a batch are exactly the stored ones that are the root or an end of a stored line |
| Dispatch.NodeServer.DeletedTakePart | internal/store/dispatch/store.go:63-87 | a deleted line links instances like any other, and a deleted node gets its instances |
| Dispatch.NodeServer.DeletionIgnored | internal/store/dispatch/store.go:63-87 | a batch is one that a call may write exactly when it is one with every deletion mark of the nodes taken away |
| DelayQueue.Consumer.RegisterTopic | internal/store/delayqueue/consumer.go:37-41 | the topic gets a handler, nothing else changes |
| DelayQueue.Consumer.FetchOne | internal/store/delayqueue/consumer.go:118-152 | nothing exactly when every pending row that is due is locked, otherwise the earliest unlocked such row is marked running |
| DelayQueue.Consumer.LookupHandler | internal/store/delayqueue/consumer.go:64-69 | without a handler the message fails at once, otherwise the handler is entered |
| DelayQueue.Consumer.ProcessOne | internal/store/delayqueue/consumer.go:64-87 | lookup, handler and final update are exactly these queue steps, whatever the handler publishes or returns |
| DelayQueue.Consumer.SettleMessage | internal/store/delayqueue/consumer.go:75-86 | the final update of a try, or no change when it is lost |
| DelayQueue.Consumer.HandleRetry | internal/store/delayqueue/consumer.go:88-106 | while a retry is left the row is pending again with one more retry, due after the backoff; otherwise it is failed; no other row changes |
| DelayQueue.BackoffDoubles | internal/store/delayqueue/consumer.go:94-96 | one second at the first retry and twice as long at every later one, which adds up to 2^n - 1 seconds for n retries |
| DelayQueue.Consumer.PublishRow | internal/store/delayqueue/producer.go:43-58 | one new pending row under a new id |
| DelayQueue.StepKeepsInv | internal/store/delayqueue/consumer.go:64-172 | every step of any worker keeps: one holder per message, holders hold running rows as they read them, calls bounded by tries |
| DelayQueue.StepFollows | internal/store/delayqueue/consumer.go:64-172 | no step changes a settled row or what a message asks for, and retries never decrease |
| DelayQueue.TakenOnlyWhenDue | internal/store/delayqueue/consumer.go:118-152 | a row becomes running only by a claim, when it is pending, due and held by nobody |
| DelayQueue.EveryRunIsSafe | internal/store/delayqueue/consumer.go:64-172 | over whole runs with any number of workers, lost updates and crashes: at most one holder, at most MaxRetry + 1 handler calls, retries within the limit, Success and Failed final |
| DelayQueue.FailedAfterAllTries | internal/store/delayqueue/consumer.go:64-106 | over whole runs, whatever is lost or crashes: a message whose topic has a handler fails only when its handler was entered exactly MaxRetry + 1 times, and a waiting one was tried exactly once for each retry it was granted |
| DelayQueue.RetriesWaitLonger | internal/store/delayqueue/consumer.go:88-106 | over whole runs a message with n retries is due at least 2^n - 1 seconds after it was first due |
| WorkflowProtocol.RunIsQueueRun | internal/workflow/node_runtime.go:26-32 | every workflow run is a queue run, so the queue guarantees hold of it |
| WorkflowSafety.StepKeepsLocal | internal/workflow/node_runtime.go:49-99 | every step of every worker keeps the protocol invariant, and takes back no success and no message |
| WorkflowSafety.NeverAborts | internal/workflow/node_runtime.go:55-58 | the abort branch is never enabled |
| WorkflowSafety.ReadyIsReleased | internal/workflow/node_runtime.go:101-130 | a downstream is released exactly when all its upstreams are Success |
| WorkflowResult.StepKeepsCovered | internal/workflow/node_runtime.go:70-99 | no ready downstream is forgotten although the status write and the ready query are separate steps: some unsettled message still covers it |
| WorkflowResult.QueuedOnlyWhenReleased | internal/workflow/node_runtime.go:82-99 | in every reachable state an instance is queued only if it is a queued root or all its upstreams are Success, and nothing outside any set that is closed and holds the stored queued roots succeeds |
| WorkflowResult.SettledRunIsLeast | internal/workflow/node_runtime.go:49-130 | once all messages settled as successful, the Success set is the least set with the queued roots whose rows are stored and closed under "has upstreams, all in the set", whenever the rows were inserted |
| WorkflowResult.SettledRunsAgree | internal/workflow/node_runtime.go:49-130 | any two settled runs that queued the same roots and stored their rows succeed on the same instances |
| WorkflowSafety.UnstoredNeverRuns | internal/workflow/node_runtime.go:49-68 | if a message is queued before the row of its instance is stored, then in every run the row never comes and the message never succeeds |
| WorkflowTermination.StepDecreases | internal/store/delayqueue/consumer.go:88-106 | every step but the clock, registration and the insertion of a batch lowers a measure weighing a message by its tries left and all it can still publish |
| WorkflowTermination.EveryRunTerminates | internal/workflow/node_runtime.go:82-99 | over an acyclic instance graph no run makes more progress steps than queueing the roots and all their tries can cost, duplicates and retries included |
| WorkflowTermination.StuckOnlyWhenQuiescent | internal/store/delayqueue/consumer.go:155-192 | unless everything is quiescent, some worker can go on once enough time has passed, without any row being locked by another, and without a failure other than that of loading an instance that is not stored |
| WorkflowTermination.FailedAfterFourTries | internal/store/delayqueue/producer.go:46-53 | in every run of the workflow, whatever is lost or crashes, a message is failed only when its handler was entered exactly four times |
| WorkflowCompletion.StepStaysUnfailed | internal/store/delayqueue/consumer.go:64-87 | steps without a failure, crash or lost update leave no failed row and no running row without its worker, messages of instances that are not stored excepted |
| WorkflowCompletion.SettledRunExists | internal/workflow/node_runtime.go:49-130 | over an acyclic graph, with the handler registered and a worker, whichever batches are started, some run settles all of them and keeps every stored row |
| NodeRuntime.GetAlreadyInfo | internal/workflow/node_runtime.go:101-130 | the counters give exactly the listed downstreams all of whose rows are Success, each with the time of its first row |
| NodeRuntime.CountsDecide | internal/workflow/node_runtime.go:124-129 | the success counter equals the total exactly when every row of the downstream is Success |
| NodeRuntime.ReadyAtUpstreamTime | internal/workflow/node_runtime.go:101-130 | a released downstream is queued for the execute time of one of its upstream instances |
| NodeRuntime.NodeRuntime.RunningCount | internal/store/dispatch/store.go:184-198 | the number of other waiting or running instances of the node, positive exactly when there is one |
| NodeRuntime.NodeRuntime.TryNextRows | internal/store/dispatch/store.go:261-274 | the intended rows: every upstream, with status and time, of every downstream |
| NodeRuntime.NodeRuntime.UpdateInstance | internal/store/dispatch/store.go:200-207 | one status changes, an unknown id changes nothing |
| NodeRuntime.NodeRuntime.Deal | internal/workflow/node_runtime.go:49-68 | a run of the protocol; answer, new statuses, ready downstreams and the number of messages sent before a failing publish are determined by what fails, and the table gains exactly the messages sent |
| NodeRuntime.NodeRuntime.CallOff | internal/workflow/node_runtime.go:55-58 | the abort write, whose error is ignored |
| NodeRuntime.NodeRuntime.FinishInstance | internal/workflow/node_runtime.go:70-81 | the status write, then the release of the ready downstreams if the query is made |
| NodeRuntime.NodeRuntime.TryNextInstances | internal/workflow/node_runtime.go:82-99 | one query, whose rows determine the ready downstreams, then one publish per ready downstream until one fails |
| NodeRuntime.NodeRuntime.PublishAll | internal/workflow/node_runtime.go:88-96 | all ready downstreams get one message each, or exactly as many as there are publishes before the one that fails, due at their time and late by no more than the clock went on |
| NodeRuntime.NodeRuntime.ProcessOne | internal/store/delayqueue/consumer.go:64-87 | one message from lookup to settlement is a run of the protocol: the answer and the final row of the message are determined, the chosen ready downstreams get their messages, due at their time and late by no more than the clock went on, and no other row changes |
| NodeRuntime.NodeRuntime.DrainOne | internal/store/delayqueue/consumer.go:163-170 | nothing unlocked is due, or one message is handled and the termination measure falls |
| NodeRuntime.NodeRuntime.Drain | internal/store/delayqueue/consumer.go:155-172 | the loop terminates although handled messages publish more, and ends only when told to or when nothing unlocked is due |
| Pipeline.WrittenIsCreated | service/dispatchserver/dispatch.go:194-254 | what InstanceCreate writes is a batch as the theorems below take it |
| Pipeline.LinksAcyclic | service/dispatchserver/dispatch.go:223-238 | the instance links of any number of batches, each from its own state of the canvas, are acyclic together |
| Pipeline.BatchesStart | service/dispatchserver/dispatch.go:221-254 | over the links of any number of batches, empty tables and an empty queue are an initial state of the protocol |
| Pipeline.EveryBatchRuns | service/dispatchserver/dispatch.go:194-254 | for every editing history of the canvas and any batches made from it, sharing table, queue and workers and inserted at any points of the run: instance links acyclic, every interleaving safe and bounded, settled runs exact |
| Pipeline.LostBatchNeverRuns | service/dispatchserver/dispatch.go:239-253 | once a root is queued whose row is not stored, no run ever inserts the row, loads it or lets the message succeed |
| Pipeline.EveryBatchCanSettle | internal/workflow/node_runtime.go:49-130 | with the handler registered and a worker, some run stores all batches, queues all roots and settles everything |
| Pipeline.AllRunExactly | internal/workflow/node_runtime.go:82-99 | in a part of the graph that no edge enters, everything runs exactly when whatever has no upstreams was started |
| Pipeline.LinkedExactlyWithUpstreams | service/dispatchserver/dag.go:69-96 | an instance has an upstream instance exactly when its node has an upstream node in the batch |
| Pipeline.BatchCompletesExactly | service/dispatchserver/dispatch.go:243-253 | a settled batch has run everything exactly when it is stored, its root is queued, is due once in the window, and is the only node without an upstream node |
| Pipeline.SoleSourceBeforehand | service/dispatchserver/dispatch.go:194-219 | that condition is the one on stored lines, nodes, schedules and window, so it is known before the call |
| Pipeline.RootDueTwice | service/dispatchserver/dispatch.go:243-253 | one node that is due twice: some run settles, and its second instance has not run |
| Session.Serve | service/dispatchserver/dispatch.go:194-254 | after any serial sequence of saved lines, deleted lines and created batches, stored rows and queue come from exactly the batches those calls made, in order; together these are batches as the theorems above take them, and the state is one that the protocol reaches from nothing stored |
| Session.CallsAreRun | service/dispatchserver/dispatch.go:194-254 | whichever commits and publishes held, inserting the stored batches and queueing the queued roots in order is a run of the protocol |
| WorkflowAsWritten.MeantIsProtocol | internal/workflow/node_runtime.go:26-32 | with raw ids as payloads and a working query the runs are those of the protocol |
| WorkflowAsWritten.NothingRuns | internal/store/delayqueue/producer.go:43-58 | in every run in which no root's payload is the id of a stored instance, every instance keeps its first status |
| WorkflowAsWritten.JsonPayloadsRunNothing | internal/store/delayqueue/producer.go:43-58 | so with payloads in JSON and ids that do not begin with a double quote nothing ever runs |
| WorkflowAsWritten.SomethingRunsExactly | internal/workflow/node_runtime.go:26-32 | with a worker and a handler, some run lets an instance succeed exactly when the payload of some root is the id of a stored instance |
| WorkflowAsWritten.OnlyRootsRun | internal/store/dispatch/store.go:261-274 | without the query for the next instances only queued roots are ever queued or succeed |
| WeightedBalancer.EffectiveWeight | utils/grpc-helloworld/resolver/weighted_balancer.go:40-69 | the configured weight if it is positive, otherwise 1 |
| WeightedBalancer.Build | utils/grpc-helloworld/resolver/weighted_balancer.go:28-84 | the error picker exactly for no ready connection, otherwise a fresh picker with each ready connection once, its configured weight if that is positive and 1 otherwise, and their total |
| WeightedBalancer.WrrPicker.Pick | utils/grpc-helloworld/resolver/weighted_balancer.go:102-128 | pick number n returns the connection that the sequence gives n, and the state advances by one pick |
| WeightedBalancer.WrrPicker.RaiseAll | utils/grpc-helloworld/resolver/weighted_balancer.go:111-120 | everyone gains its weight and the first of the largest is found |
| WeightedBalancer.CurrentIsOwed | utils/grpc-helloworld/resolver/weighted_balancer.go:114-126 | after n picks a current weight is n times the weight minus the total times the picks |
| WeightedBalancer.NothingIsLost | utils/grpc-helloworld/resolver/weighted_balancer.go:114-126 | the current weights always sum to 0 |
| WeightedBalancer.CurrentIsBounded | utils/grpc-helloworld/resolver/weighted_balancer.go:114-126 | every current weight stays above minus the total, and below what the others can owe |
| WeightedBalancer.NeverOverflows | utils/grpc-helloworld/resolver/weighted_balancer.go:114-126 | if connections times total fits int64, so does every value a pick computes |
| WeightedBalancer.NeverAhead | utils/grpc-helloworld/resolver/weighted_balancer.go:102-128 | at every prefix, total times picks is below n times the weight plus the total |
| WeightedBalancer.RoundsAreExact | utils/grpc-helloworld/resolver/weighted_balancer.go:102-128 | after k rounds of total-many picks everyone was chosen exactly k times its weight and all current weights are 0 |
| WeightedBalancer.RoundIsFair | utils/grpc-helloworld/resolver/weighted_balancer.go:102-128 | inside a round nobody exceeds its weight, and by its end everyone was chosen exactly its weight |
| WeightedBalancer.PicksRepeat | utils/grpc-helloworld/resolver/weighted_balancer.go:102-128 | the pick sequence is periodic in the total weight |
| WeightedBalancer.ChosenIsMostOwed | utils/grpc-helloworld/resolver/weighted_balancer.go:111-126 | a pick chooses the earliest of the connections to which most picks are owed, in terms of weights and earlier picks alone |
| WeightedBalancer.BuildAndPick | utils/grpc-helloworld/resolver/weighted_balancer.go:28-128 | from the metadata to the picks: in whole rounds every ready connection is picked exactly as often per round as its positive configured weight says, and once otherwise |
| TimingWheel.TimingWheel.constructor | utils/timewheel/timewheel.go:124-155 | an empty wheel at tick 0 |
| TimingWheel.TimingWheel.AddTask | utils/timewheel/timewheel.go:194-221 | both rejections have their exact condition; otherwise the table maps the id to now plus the delay in whole ticks, replacing an earlier task |
| TimingWheel.TimingWheel.Cancel | utils/timewheel/timewheel.go:224-232 | the table loses exactly that id |
| TimingWheel.TimingWheel.AdvanceAndRun | utils/timewheel/timewheel.go:170-187 | exactly the tasks due now are handed on, once each and with their callbacks, and the table advances one tick |
| TimingWheel.TimingWheel.Execute | utils/timewheel/timewheel.go:75-95 | the bucket empties in order, each task leaving the index and reaching the consumers |
| TimingWheel.Bucket.Push | utils/timewheel/timewheel.go:61-66 | a new element at the back |
| TimingWheel.RemovedBijection | utils/timewheel/timewheel.go:209-213 | unlinking an indexed task keeps index and buckets in bijection |
| TimingWheel.AddedBijection | utils/timewheel/timewheel.go:215-219 | adding a task under a free id keeps index and buckets in bijection |
| TimingWheel.DrainedTable | utils/timewheel/timewheel.go:170-187 | emptying the current slot and moving on is one tick of the table |
| TimingWheel.TableIsTimely | utils/timewheel/timewheel.go:199-205 | nothing on the wheel is overdue or due later than one turn |
| TimingWheel.FiresExactlyWhenDue | utils/timewheel/timewheel.go:170-236 | over every sequence of operations a task neither replaced nor cancelled fires at its due tick and at no other, and stays until then |
| TimingWheel.NeverFiresWhenAbsent | utils/timewheel/timewheel.go:224-236 | a cancelled or fired task never fires again until it is added anew |
| TimingWheel.AddedFiresOnTime | utils/timewheel/timewheel.go:194-221 | after an addition only the new task of that id fires, delay / interval ticks later |
| TokenBucket.Ceil | utils/distributed_rate_limiter.go:35 | the least integer not below |
| TokenBucket.DistributedRateLimiter.Allow | utils/distributed_rate_limiter.go:61-70 | for every capacity and rate: answer, stored hash and expiry are one step of the script, an infinite time to live or one outside the range of EXPIRE is an error after the hash is stored, other keys are kept, and an answered call joins the history of its key |
| TokenBucket.StepStaysInRange | utils/distributed_rate_limiter.go:29-40 | stored tokens stay within [0, capacity] for any clock |
| TokenBucket.IdleIsFull | utils/distributed_rate_limiter.go:35-38 | after the expiry time without a call the bucket would be full anyway |
| TokenBucket.StepKeepsAlike | utils/distributed_rate_limiter.go:21-40 | one call, after an expiry or not, keeps the script indistinguishable from the eager bucket |
| TokenBucket.LazyIsEager | utils/distributed_rate_limiter.go:21-40 | for every non-decreasing clock the script decides like a bucket that stores every refill and never expires |
| TokenBucket.AdmissionBound | utils/distributed_rate_limiter.go:21-40 | between any two calls of any such sequence at most capacity + rate x elapsed are admitted |
| TokenBucket.DeniedExactly | utils/distributed_rate_limiter.go:21-40 | for every non-decreasing clock a call is denied exactly when since some call before it, or itself, capacity + rate x elapsed leaves less than one token beside those admitted in between |
| TokenBucket.NoRefillBackwards | utils/distributed_rate_limiter.go:29-31 | a call before the time of the last admitted one finds exactly the tokens that were stored |
| TokenBucket.DistributedRateLimiter.AdmittedSoFar | utils/distributed_rate_limiter.go:21-40 | whatever requests were made, if the clock of a key never went back, then between any two of its calls at most capacity + rate x elapsed were admitted |
| TokenBucket.DistributedRateLimiter.DeniedSoFar | utils/distributed_rate_limiter.go:21-40 | whatever requests were made, if the clock of a key never went back, a call of that key was denied exactly under that condition |
| RangeSplit.SplitPKRanges | service/migrate/sql_builder.go:107-139 | for all int64 inputs the loop, in wrapping arithmetic, produces the closed form |
| RangeSplit.SplitPartitionsExactly | service/migrate/sql_builder.go:107-139 | the ranges partition [min, max] exactly when the loop does not overrun, and then there are min(channels, span) of them |
| RangeSplit.SplitIsEven | service/migrate/sql_builder.go:117-136 | all ranges but the last hold the same number of keys: the span divided by the channels, or one if the span is smaller than that or does not fit int64 |
| RangeSplit.PartitionCovers | service/migrate/sql_builder.go:107-139 | every key of the interval is in exactly one range of a partition, every other key in none |
| RangeSplit.OverrunCoversTwice | service/migrate/sql_builder.go:124-137 | after an overrun every key is covered twice |
| RangeSplit.OverrunExample | service/migrate/sql_builder.go:124-137 | two keys at the end of int64 and three channels: the third range is the whole key space |
| Migrate.Target.Exec | service/migrate/migrate.go:333-348 | an insert fails exactly on a duplicate key; otherwise the rows are written in order |
| Migrate.WriteBatch | service/migrate/migrate.go:332-355 | all rows and their counters or nothing, with the exact condition |
| Migrate.RunSerial | service/migrate/migrate.go:243-293 | however it stops, exactly the first rowsWritten rows are committed in order, in ceil(rowsWritten / batch) batches; no error exactly when nothing goes wrong and no insert clashes |
| Migrate.RerunIsClean | service/migrate/migrate.go:331-355 | in replace mode a rerun after any partial run ends in the table of one clean run |
| Migrate.LastRowStays | service/migrate/migrate.go:331-348 | of several written rows with one key the last stays, and keys that are not written keep their row |
| Migrate.SameRowsSameTable | service/migrate/migrate.go:295-329 | with distinct keys neither order nor repetition of the written rows changes the table |
| Migrate.MinMax | service/migrate/migrate.go:299-309 | the least and the greatest key, or none for no rows |
| Migrate.QueryRange | service/migrate/migrate.go:246-254 | one channel reads exactly the rows of its range |
| Migrate.SplitHolders | service/migrate/migrate.go:311-322 | every key is read by one channel, or by two after an overrun |
| Migrate.StepChannel | service/migrate/migrate.go:266-291 | one goroutine's next atomic step |
| Migrate.TogetherStep | service/migrate/migrate.go:312-323 | any step of any channel keeps: what was written is what the channels committed, with matching counters and table |
| Migrate.CommittedTotal | service/migrate/migrate.go:312-328 | no row is written more often than the queries return it, and exactly that often once all channels finished |
| Migrate.BatchTotal | service/migrate/migrate.go:258-291 | when all channels have finished they committed, range by range, the rows of the range divided by the batch size, rounded up |
| Migrate.RunChannels | service/migrate/migrate.go:312-323 | in every interleaving all channels end, a failure stopping no other |
| Migrate.RunParallel | service/migrate/migrate.go:297-329 | only selected rows are written; without an error each exactly once, or twice after an overrun; without faults it succeeds exactly if plain inserts meet no overrun and no duplicate |
| Migrate.NextIsAllowed | service/migrate/migrate.go:312-323 | if no row is read twice and no key clashes, the buffer of every channel can be inserted, whatever the others have committed |
| Migrate.ParallelIsSerial | service/migrate/migrate.go:295-329 | a successful parallel run writes the same multiset of rows as a serial one exactly when the ranges do not overrun |
| Migrate.OverrunFailsInserts | service/migrate/migrate.go:297-329 | plain inserts cannot survive an overrun |
| Migrate.EffectiveBatch | service/migrate/migrate.go:218-221 | the configured size if it is positive, otherwise 2000 |
| Migrate.Run | service/migrate/migrate.go:187-239 | serial or parallel, a success leaves every selected row in the target and, with distinct keys, the same table; rows are committed and counted in batches of the configured size, or of 2000, whole or range by range, also by a serial run that stops early; without faults success has its exact condition |
| SqlTemplate.EscapeString | utils/sqltpl.go:92-114 | the loop escapes character by character |
| SqlTemplate.EscapedReads | utils/sqltpl.go:92-114 | escaped text inside a literal reads as the text, whatever follows |
| SqlTemplate.EscapedIsPlain | utils/sqltpl.go:92-114 | escaped text holds no line break, no NUL and no Ctrl-Z, and a text without special characters is left as it is |
| SqlTemplate.LiteralReadsBack | utils/sqltpl.go:73-76 | reading the emitted literal returns the value and leaves the rest exactly when the rest does not begin with a single quote |
| SqlTemplate.NameReadsBack | service/migrate/sql_builder.go:8-11 | the same for names and backquotes |
| SqlTemplate.FormatValue | utils/sqltpl.go:67-89 | NULL, 1 or 0, and the text of a number; a name or string that reads back as itself exactly before a text that does not begin with its quote; an error exactly for unsupported types |
| SqlTemplate.Index | utils/sqltpl.go:22 | the leftmost occurrence, or none |
| SqlTemplate.TemplateUnique | utils/sqltpl.go:20-58 | leftmost "{{" and leftmost "}}" after it determine one way to take a template apart |
| SqlTemplate.SourceIsKept | utils/sqltpl.go:20-58 | taking it apart loses nothing |
| SqlTemplate.RenderTemplate | utils/sqltpl.go:13-61 | the loop terminates with the single left-to-right substitution of that one way, or the error of the first bad placeholder; inserted text is never rescanned |
| SqlTemplate.FirstBadKeyFails | utils/sqltpl.go:38-50 | the first key that is empty, missing or of an unsupported type is the error, of that kind |
| SqlTemplate.UsableKeysRender | utils/sqltpl.go:38-50 | without such a key rendering succeeds |
| SqlReading.ReadsBackExactly | utils/sqltpl.go:73-76 | whatever text stands around it, an emitted literal is read as one string value of exactly its text exactly when a quote begins a value there and no string goes on behind it |
| SqlReading.ContinuesDecides | utils/sqltpl.go:51-57 | a string goes on behind a value exactly when blanks and comments lead to another quote |
| SqlReading.RenderedTextReadsBack | utils/sqltpl.go:13-76 | in a rendered template a string parameter is read as exactly itself exactly when a quote begins a value after the parts before it and no string goes on in the parts behind it |
| SqlReading.NameReadsBackExactly | utils/sqltpl.go:71-72 | whatever text stands around it, a quoted name is read as one name of exactly its text exactly when a backquote begins a name there and no other follows |
| SqlReading.RenderedNameReadsBack | utils/sqltpl.go:13-72 | in a rendered template an identifier parameter is read as exactly its name exactly when a backquote begins a name after the parts before it and the parts behind it do not begin with another |
| SqlReading.AllQuotedReadBack | utils/sqltpl.go:13-76 | all string and identifier parameters of a rendered template are read as themselves exactly when the scanner finds every one well placed |
| SqlReading.PlacementIsShape | utils/sqltpl.go:13-61 | whether they are well placed does not depend on what the strings and names contain |
| SqlReading.InsideQuotesFails | utils/sqltpl.go:13-76 | for `'%{{a}}%'` the parameter is never read as itself, whatever string it is |
| SqlReading.InsideQuotesEndsEarly | utils/sqltpl.go:13-76 | for `'%{{a}}%'` and a string that begins like a word the value read is the text before the parameter |
| SqlReading.NeighboursConcatenate | utils/sqltpl.go:13-76 | for `{{a}} {{b}}` the two strings are read as one, the second joined to the first |
| SqlTemplate.AdjacentLiteralsMerge | utils/sqltpl.go:51-57 | two adjacent string placeholders are read as one literal |
| BloomFilter.OneBitMore | utils/bloom_filter.go:43-49 | setting a bit of a 64-bit word sets that bit and no other |
| BloomFilter.PlaceIsUnique | utils/bloom_filter.go:43-49 | word and bit determine the position |
| BloomFilter.BloomFilter.SetBit | utils/bloom_filter.go:43-45 | exactly one position is added to those set |
| BloomFilter.BloomFilter.GetBit | utils/bloom_filter.go:47-49 | whether the position is set |
| BloomFilter.BloomFilter.Add | utils/bloom_filter.go:52-56 | after any sequence of additions exactly the positions of the added elements are set; one addition sets exactly the positions (h1 + i * h2) modulo 2^64 modulo m |
| BloomFilter.BloomFilter.MightContain | utils/bloom_filter.go:59-66 | true exactly when all those positions are set, so never false for an added element, and true exactly when the added elements cover every position asked for |

## Left out

- NodeRuntime.NodeRuntime.TryNextRows: models the intended rows; the SQL joins `node_id` with an instance id and starts its filter with `AND` (internal/store/dispatch/store.go:267-272). What follows for the code is in `WorkflowAsWritten`, which takes the query as one that always fails.
- DelayQueue.Consumer.PublishRow: the payload is the instance id itself; the source stores its JSON text (internal/store/delayqueue/producer.go:44) and uses it raw as an id (internal/workflow/node_runtime.go:28). `WorkflowAsWritten` has the JSON text.
- WorkflowAsWritten.JsonPayloadsRunNothing: `JsonText` writes every control character but newline, return and tab as a hexadecimal escape and does not escape U+2028 and U+2029; all that matters is the leading quote.
- NodeRuntime.NodeRuntime.FinishInstance: has no status argument, because the source ignores it (internal/workflow/node_runtime.go:71) and the only caller passes Success.
- Pipeline.EveryBatchRuns: the lines of a batch are read in one state of the canvas, and its rows are inserted and its root queued at most once each, rows first, as InstanceCreate does; concurrent creations under one batch id are not modelled.
- Session.Serve: calls come one after the other and no worker runs between them; `Pipeline.EveryBatchRuns` has workers between any two of their steps.
- Dispatch.NodeServer.InstanceCreate: `event.Project` is empty, as in the only call (service/dispatchserver/dispatch.go:75-79). With another project the existence check and the lines come from that project's database (service/dispatchserver/dispatch.go:196-211), while nodes and writes use the default one (service/dispatchserver/dag.go:169, service/dispatchserver/dispatch.go:239), so a batch could be created more than once.
- Dispatch.NodeServer.WriteBatch: an operation whose answer is an error has not taken effect, here and in `Migrate.WriteBatch`; a commit that held although its answer was lost is not modelled.
- RangeSplit.SplitPKRanges: the memory that `make([]pkRange, 0, channels)` takes (service/migrate/sql_builder.go:122); `channels` is the request's value without a bound (controller/migrate_controller.go:57-58), and a huge one makes that allocation panic before the loop.
- RangeSplit.SplitPartitionsExactly: assumes that the allocation of SplitPKRanges succeeds.
- LineGraph.NodeServer.SaveLine: concurrent saves; the source reads and writes in two transactions, so only serial sequences are claimed.
- TimingWheel.TimingWheel.AdvanceAndRun: one tick is atomic; the source runs Execute in a goroutine (utils/timewheel/timewheel.go:181), which may still run while the position has moved on.
- WorkflowResult.SettledRunIsLeast: asks that every message of a stored instance ended as Success; a row left running by a crash or a lost update is never taken again, so such a batch may stop short, and nothing is claimed about it beyond safety.
- InstanceDag.DAGNode.BuildInstanceDepend: is claimed for ordered lists with distinct ids, which CreateInstance always makes.
- TokenBucket.DistributedRateLimiter.Allow: reads Redis deadlines on the clock of the calls, real numbers stand for floating point, and EXPIRE is taken as Redis documents it: an error for a time that is no integer or outside its range, a deletion for one that is not positive. The range depends on the version of Redis, and is any interval.
- Migrate.RunParallel: rows have one key that is both the range column and the target's only key, and the source does not change during the run.
- WeightedBalancer.WrrPicker.Pick: integers are unbounded; NeverOverflows gives the bound under which the 64-bit ones agree.
- SqlTemplate.RenderTemplate: trimming of the key is a parameter, a number carries the text that `%v` prints for it, and MySQL's NO_BACKSLASH_ESCAPES mode is off.
- SqlReading.RenderedTextReadsBack: the connection's character set has no multi-byte character that contains the byte of a quote or a backslash, the modes ANSI_QUOTES and NO_BACKSLASH_ESCAPES are off, and the text of `/*! */` comments is taken as comment. Which values of a text are strings is modelled, and not what the grammar makes of them there: an alias, a user variable, or a character set introducer before them.
- BloomFilter.BloomFilter.Add: the two hash functions are arbitrary, and the floating-point sizing in New is a given m > 0 and k.
- CronParse.GetSchedulesBetween: the third-party parser is any function to schedules whose Next moves on; that a standard expression stands for the set of times it names is not shown. The business-date arithmetic of getStartTime is a given window.
- NodeRuntime.NodeRuntime.PublishAll: the clock may go on between the two readings that make a delay; that the database keeps times to the millisecond is not modelled. In `Dispatch.NodeServer.BatchCreateInstance` what goes on there is the given `drift`.
- DelayQueue.Consumer.HandleRetry: the shift that computes the backoff does not overflow, which holds for the three retries that Publish allows.
- StartWorkers, tickers, channels, Stop of the wheel and of the consumer, Migrator.Run/Stop/Status and the test-run queue: scheduling by the Go runtime and one-branch facts.
- buildSelect, buildInsert and the remaining printers of service/migrate/sql_builder.go: only QuoteIdent matters to what is read back.
- Column subsets in migrations: a replace resets columns that are not listed and an upsert keeps them; the model's rows are whole.
- GetEdges, ValidateCronExpr, task pooling in the wheel, logging: easy members.
- HTTP, authentication, storage drivers, gorm and MySQL internals: tables are maps with atomic row operations, and `FOR UPDATE SKIP LOCKED` claims one earliest due unlocked row.
