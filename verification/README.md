# Verification of the log store's query, assignment and write paths

This project models, in Dafny, the stateful parts of the log store node in
`packages/core/src`, and proves what they keep over every run. `dafny verify
dfyconfig.toml` checks all of it.

## What is modelled

**The network query.** A primary node answers a query together with foreign
nodes. `Aggregators`, `Propagators`, `AggregationLists` and `PropagationLists`
hold the four classes as classes, each method proved against a function on the
value of the object. `QueryProtocol` puts one aggregator and any number of
propagators together: rows of the local queries, chunks cut and delivered on
three channels per node, rows of queries by reference, propagated rows stored one
by one and range queries ending interleave in any order. Its invariant gives
three results: an aggregator that has ended has delivered every reference of the
primary and of every expected node; a run that cannot be continued has ended
every stream; and no row is written to an ended stream. `QueryTermination` adds
that every run is finite, with a bound linear in the results, so that every run
can be continued to one that has completed. `QueryEnd` says exactly when an ended
aggregator stays ended, and `QueryOutput` when it has delivered nothing but the
results.

**Stream assignments.** `SetMembershipSynchronizers` holds the synchronizer of
snapshots and patches, and `LogStoreNetworkConfigs` the sharding of stream parts
over a cluster. All delivery orders of some updates end in one state if and only
if no two of them contradict each other at the number that decides an element;
that state is the membership that the set of updates says, and sharding commutes
with synchronising.

**The Cassandra write path.** `Batches` and `BatchManagers` hold the batching of
records with timers, requests in flight, retries and drops, as classes;
`BatchRuns` proves conservation of records, of callbacks and of retries over all
interleavings. `Buckets` and `BucketManagers` hold the buckets in memory as
classes; `BucketCaches` treats them as a write-back cache of the bucket table
and proves that no increment is lost while creation dates are distinct, and
`BucketLosses` that one can be lost as soon as they are not.
`BucketProgress` says exactly when a pass over a stream part finds a bucket for its
pending timestamp, when it makes a second bucket at one date, and when the bucket
found is the latest.

**Range and last-N queries.** `RangeQueries`, `BucketIndex` and `TakeQueries`
hold the query plans of the two database adapters and prove each equal to a
filter, a prefix or a suffix of all rows, or say exactly when it is. `Chunkers` is
the transform that cuts streams into chunks.

## How to read it

The source's classes are Dafny classes. Each has a `View()` (or, for the batch
manager, a ghost field `value`), and every method's contract equates the view
after the call with a function of the view before it. What is proved over runs is
proved about these functions. Where several handlers interleave, a datatype
`Step` or `Call` names them, `Enabled` or `Allows` says when each can happen,
and `Run` folds a sequence of them.

The environment assumptions are explicit. In `QueryProtocol` they are
`Config.Valid` (results strictly ascending, the primary's result is in its own
store, expected nodes exist) and the shape of the steps: channels lose and
reorder nothing, no query fails, every expected node answers, a query by
reference finds every row it was asked for, and no closing query by reference
ends before another one that still has a row to write (`MayEnd`).
`Propagators.EndInOrderIff` shows that the last one is exactly what is needed, and
`EndOutOfOrderLosesRow` what happens without it. In `BucketCaches` no two buckets
of a stream part share a creation date (`NewSlots`); `PassIsRun` says exactly which
passes keep that, and `BucketLosses` shows what happens otherwise. In
`RangeQueries` the order in which Cassandra reads the buckets of one statement is a
parameter, since the statement names none. In `BucketIndex` every row sits in the
bucket that was the latest at its timestamp (`Placed`), and in `TakeQueries` newer
buckets hold later rows (`Layered`); `BucketProgress.FindsLatestIff` shows that the
bucket manager does not promise this for timestamps in the past, and
`BucketIndex.IndexCoversIff` that the index needs it.

Findings where the code differs from what it says or from what one expects:

- The default retry settings wait 499,500 seconds before a batch is dropped, not
  the 16 minutes of the comment at `BatchManager.ts:51` (`BatchRuns.DefaultWaits`).
- `getLastBuckets` takes the timestamp 0 for no timestamp, so that one pass of
  `checkFullBuckets` can leave a pending timestamp 0 without a bucket
  (`BucketProgress.PassServesIff`, `TimestampZeroIsMissed`); the next pass over
  the same table serves it.
- A pass can create a second bucket at the date of an almost full one; the two
  share a row of the bucket table, whose key is the date. After any run, counters
  are safe if and only if no two buckets share a date (`BucketLosses.CountersKeptIff`),
  and a pass keeps them safe if and only if it is no duplicating case
  (`BucketLosses.PassKeepsCountersIff`, `BucketProgress.PassDuplicatesIff`).
- For a timestamp before the latest bucket, which bucket is found depends on the
  order of the heap: of buckets with different dates, every heap finds the latest
  only if at most one can serve the timestamp (`BucketProgress.FindsLatestIff`).
- Two updates that contradict each other at one sequence number leave a state that
  depends on their order (`SetMembershipSynchronizers.Convergence`).
- A node that is not expected and answers late makes an ended aggregator query
  again, if it has a reference after all those waited for (`QueryEnd.EndIsFinalIff`).
  The time for that is between `end()` and 'close', when the aggregator is dropped
  (`AggregationManager.ts:150-152`).
- The aggregator delivers all stored rows of the ranges it queries. A stored row that
  is in no result but lies between two references that are, as there can be in a
  query for the last messages (`Aggregator.ts:75-81`), is delivered in some run
  (`QueryOutput.NothingElseIff`).
- The statements of a range query name several buckets, newest first, and no order.
  The rows come in order if and only if the buckets are read in order of their rows
  (`RangeQueries.RequestsAgreeIff`); newest first, that holds only if each statement
  needs one bucket (`BucketIndex.NewestFirstAgreesIff`).
- Cassandra's `queryFirst` counts the newest buckets first, so that it returns the
  first rows only if the buckets newer than the first row's never count up to the
  limit (`TakeQueries.QueryFirstIff`, `QueryFirstReturnsNewest`).
- The aggregator's `messageRef` of a node is never set after construction, so the
  wait for foreign nodes lasts until all of them have finalised.

## Model

| member | source | states |
|---|---|---|
| AggregationLists.AggregationList.ReadyTo | packages/core/src/plugins/logStore/network/AggregationList.ts:38-53 | the loop finds the end of the longest ready prefix |
| AggregationLists.AggregationList.Push | packages/core/src/plugins/logStore/network/AggregationList.ts:89-104 | drops references not after the threshold, else adds the reference in order or makes it ready |
| AggregationLists.AggregationList.Shrink | packages/core/src/plugins/logStore/network/AggregationList.ts:111-125 | the loop removes exactly the references up to the bound, which becomes the threshold |
| AggregationLists.PushRefines | packages/core/src/plugins/logStore/network/AggregationList.ts:89-104 | the list stays sorted, duplicate-free and above its threshold, and a push is an OR-update of the map from references to readiness |
| AggregationLists.ShrinkRefines | packages/core/src/plugins/logStore/network/AggregationList.ts:111-125 | a shrink restricts that map to the references after the bound |
| AggregationLists.ReadyRange | packages/core/src/plugins/logStore/network/AggregationList.ts:25-53 | everything held up to readyTo is ready, starts at readyFrom, lies above the threshold, and the next reference is not ready |
| AggregationLists.MapDeterminesList | packages/core/src/plugins/logStore/network/AggregationList.ts:89-104 | two valid lists with the same map hold the same items in the same order |
| AggregationLists.PushAllRefines | packages/core/src/plugins/logStore/network/AggregationList.ts:60-104 | after any pushes the map is told from the set of pushes alone |
| AggregationLists.PushOrderIrrelevant | packages/core/src/plugins/logStore/network/AggregationList.ts:60-104 | between two shrinks the contents do not depend on the order or repetition of pushes |
| PropagationLists.PropagationList.PushPrimary | packages/core/src/plugins/logStore/network/PropagationList.ts:19-31 | records the latest primary reference and either cancels the equal foreign reference or keeps the primary one |
| PropagationLists.PropagationList.PushForeign | packages/core/src/plugins/logStore/network/PropagationList.ts:38-48 | cancels the primary references up to an equal one, or keeps the foreign reference |
| PropagationLists.PropagationList.GetDiffAndShrink | packages/core/src/plugins/logStore/network/PropagationList.ts:81-99 | removes and returns a prefix of the foreign references: all of them once the primary is final, else exactly those up to its latest reference, and none without one |
| PropagationLists.PushPrimaryKeeps | packages/core/src/plugins/logStore/network/PropagationList.ts:19-31 | shipped and kept foreign references stay together exactly foreign minus primary, ascending, when the primary reports one more |
| PropagationLists.PushForeignKeeps | packages/core/src/plugins/logStore/network/PropagationList.ts:38-48 | the same when the foreign node reports one more |
| PropagationLists.GetDiffKeeps | packages/core/src/plugins/logStore/network/PropagationList.ts:81-99 | a difference moves a prefix of the kept references to the shipped ones and keeps all that |
| PropagationLists.DifferenceIsComplete | packages/core/src/plugins/logStore/network/PropagationList.ts:81-99 | after any calls, a difference brings what was shipped to exactly the foreign references the primary has not reported: all of them once the primary is final, else all up to its latest reference |
| PropagationLists.DifferencesAvoidPrimary | packages/core/src/plugins/logStore/network/PropagationList.ts:19-99 | for every interleaving, chunking and schedule of calls, the differences together are ascending and never hold a reference the primary has reported or will report |
| PropagationLists.FinalDifferenceIsExact | packages/core/src/plugins/logStore/network/PropagationList.ts:81-99 | once both sides are final, one more difference completes exactly foreign minus primary |
| Aggregators.Aggregator.IsWaitingForForeignNodes | packages/core/src/plugins/logStore/network/Aggregator.ts:142-153 | the loop tells whether some known node has neither finalised nor a reference set, read off the map of responses |
| Aggregators.Aggregator.DoCheck | packages/core/src/plugins/logStore/network/Aggregator.ts:218-259 | waits, ends, or issues one query over the ready range and shrinks the list, as the state says |
| Aggregators.Aggregator.OnPrimaryRow | packages/core/src/plugins/logStore/network/Aggregator.ts:113-118 | a row of the initial query is pushed as ready, then checked |
| Aggregators.Aggregator.OnStreamEnd | packages/core/src/plugins/logStore/network/Aggregator.ts:119-122 | a stream that ends leaves the open ones, then a check runs |
| Aggregators.Aggregator.OnForeignResponse | packages/core/src/plugins/logStore/network/Aggregator.ts:181-193 | an unknown node is registered, its references are pushed as not ready, and a final answer finalises it |
| Aggregators.Aggregator.OnPropagatedRow | packages/core/src/plugins/logStore/network/Aggregator.ts:203-209 | a propagated row is stored first and then pushed as ready |
| Aggregators.CheckKeeps | packages/core/src/plugins/logStore/network/Aggregator.ts:218-259 | a check keeps the ranges ordered and disjoint, ready references stored, and leaves nothing more to check |
| Aggregators.CheckMoves | packages/core/src/plugins/logStore/network/Aggregator.ts:228-257 | a reference leaves the list only into the rows of a query, and the threshold moves only to a ready reference when no node is waited for |
| Aggregators.ReadyBeforeQueried | packages/core/src/plugins/logStore/network/Aggregator.ts:201-257 | a range is queried only when every known node has finalised, and every listed reference in it is ready, stored and among the rows of the query |
| Aggregators.NoRowQueriedTwice | packages/core/src/plugins/logStore/network/Aggregator.ts:228-257 | over any sequence of calls, successive ranges satisfy from <= to < next from, and no row is in two of them |
| Propagators.Propagator.DoCheck | packages/core/src/plugins/logStore/network/Propagator.ts:148-179 | a non-empty difference becomes a query by reference, which closes the stream if both lists are final; else the stream ends if all is done |
| Propagators.Propagator.OnForeignRow | packages/core/src/plugins/logStore/network/Propagator.ts:91-95 | an own row is pushed as foreign, then checked |
| Propagators.Propagator.OnForeignEnd | packages/core/src/plugins/logStore/network/Propagator.ts:96-99 | the end of the own rows finalises the foreign side, then a check runs |
| Propagators.Propagator.OnPrimaryResponse | packages/core/src/plugins/logStore/network/Propagator.ts:131-141 | all references of an answer are pushed, a final one finalises the primary side, then a check runs |
| Propagators.Propagator.OnByRefRow | packages/core/src/plugins/logStore/network/Propagator.ts:168-170 | an open query writes its next row to the propagation stream |
| Propagators.Propagator.OnByRefEnd | packages/core/src/plugins/logStore/network/Propagator.ts:159-170 | a query that ends is forgotten, a check runs, and a closing query ends the stream |
| Propagators.CheckKeeps | packages/core/src/plugins/logStore/network/Propagator.ts:148-179 | every reference asked for is written or in an open query, only the last query closes, and after a check nothing is left to ask for that should be |
| Propagators.ByRefEndKeeps | packages/core/src/plugins/logStore/network/Propagator.ts:159-177 | a query that ends, in any order but for a closing one that overtakes rows, keeps every reference asked for written or in an open query |
| Propagators.ForeignRowAsksExactly | packages/core/src/plugins/logStore/network/Propagator.ts:91-95 | an own row leaves asked for exactly the own references the primary lacks, up to its latest one or, once it is final, all |
| Propagators.ForeignEndAsksExactly | packages/core/src/plugins/logStore/network/Propagator.ts:96-99 | so does the end of the own rows |
| Propagators.PrimaryResponseAsksExactly | packages/core/src/plugins/logStore/network/Propagator.ts:131-141 | so does an answer of the primary |
| Propagators.ByRefEndAsksExactly | packages/core/src/plugins/logStore/network/Propagator.ts:159-167 | so does the end of a query by reference |
| Propagators.ByRefRowsInOrder | packages/core/src/plugins/logStore/network/Propagator.ts:168-170 | what is written and what the query has left stay together the same sequence, and other queries are untouched |
| Propagators.EndInOrderIff | packages/core/src/plugins/logStore/network/Propagator.ts:159-177 | after the end of a query no row is left to be written to an ended stream, if and only if it is not a closing query that overtakes one with rows left |
| Propagators.EndOutOfOrderLosesRow | packages/core/src/plugins/logStore/network/Propagator.ts:168-170 | a concrete run in which a closing query overtakes another: the stream ends while a query still has a row to write |
| Links.SendKeeps | packages/core/src/plugins/logStore/Chunker.ts:51-60 | what is in flight stays the part of the source between the received and the sent references, and only a last chunk is final |
| Links.ReceiveKeeps | packages/core/src/plugins/logStore/network/Propagator.ts:131-141 | a delivered chunk is the next part of the source, and nothing follows a final one |
| QueryProtocol.InitInv | packages/core/src/plugins/logStore/network/Aggregator.ts:50-135 | the invariant holds when a query starts |
| QueryProtocol.CheckKeepsInv | packages/core/src/plugins/logStore/network/Aggregator.ts:218-259 | a check of the aggregator keeps the invariant of the whole system |
| QueryProtocol.EndIsComplete | packages/core/src/plugins/logStore/network/Aggregator.ts:223-226 | when the check may end the output, every reference of the primary and of every expected node has been delivered |
| QueryProtocol.PrimaryRowKeeps | packages/core/src/plugins/logStore/network/Aggregator.ts:113-118 | a primary row keeps the invariant |
| QueryProtocol.AnnounceKeeps | packages/core/src/plugins/logStore/network/Aggregator.ts:129-134 | announcing a chunk of primary rows to all nodes keeps the invariant |
| QueryProtocol.AskedIsBehind | packages/core/src/plugins/logStore/network/PropagationList.ts:81-99 | a node ships only references that all primary rows still to come lie after, so that no threshold can drop them while uncovered |
| QueryProtocol.DeliverAnswerKeeps | packages/core/src/plugins/logStore/network/Aggregator.ts:181-193 | an answer of a node keeps the invariant |
| QueryProtocol.DeliverPropagationKeeps | packages/core/src/plugins/logStore/network/Aggregator.ts:201-213 | a propagation that arrives keeps the invariant |
| QueryProtocol.StoreRowKeeps | packages/core/src/plugins/logStore/network/Aggregator.ts:203-209 | a propagated row stored keeps the invariant, checks of other handlers in between included |
| QueryProtocol.StepKeeps | packages/core/src/plugins/logStore/network/Aggregator.ts:113-259 | every step of every node keeps the invariant |
| QueryProtocol.EndedQueryIsComplete | packages/core/src/plugins/logStore/network/Aggregator.ts:218-259 | in every run, an aggregator that has ended has queried every reference of the primary's result and of every expected node's result |
| QueryProtocol.NoDeadlock | packages/core/src/plugins/logStore/network/Propagator.ts:148-179 | in every run that cannot be continued, the aggregator has ended with complete output, an empty list and nothing open, and every propagation stream has ended |
| QueryProtocol.NoWriteAfterEnd | packages/core/src/plugins/logStore/network/Propagator.ts:159-177 | in every run in which no closing query by reference overtakes one with rows left, no row is written to an ended stream |
| QueryTermination.CallAdvances | packages/core/src/plugins/logStore/network/Aggregator.ts:218-259 | each range query opens one stream, has a stored row of its own at its start, and only the end of a stream closes one |
| QueryTermination.PropStepAdvances | packages/core/src/plugins/logStore/network/Propagator.ts:131-179 | each query by reference asks for at least one new reference, and its rows and its end use it up |
| QueryTermination.StepAdvances | packages/core/src/plugins/logStore/network/Aggregator.ts:113-259 | every step of the protocol adds to a measure of work done |
| QueryTermination.RunsAreFinite | packages/core/src/plugins/logStore/network/Aggregator.ts:50-259 | every run has at most a number of steps that is linear in the results and in the rows stored |
| QueryTermination.EveryRunCompletes | packages/core/src/plugins/logStore/network/Aggregator.ts:50-259 | every run can be continued to one with the aggregator and all streams ended and complete output |
| QueryEnd.EndIsFinal | packages/core/src/plugins/logStore/network/Aggregator.ts:164-259 | if no node that is not expected has a reference after all those waited for, an aggregator that has ended stays ended and issues no further query, whatever steps follow |
| QueryEnd.AllExpectedIsCovered | packages/core/src/plugins/logStore/network/Aggregator.ts:142-153 | that is so if every node is expected |
| QueryEnd.UncoveredReopens | packages/core/src/plugins/logStore/network/Aggregator.ts:164-193 | otherwise a run exists in which the aggregator ends, a late node answers, and another query is issued |
| QueryEnd.EndIsFinalIff | packages/core/src/plugins/logStore/network/Aggregator.ts:218-259 | in no run an ended aggregator issues another query, if and only if no node that is not expected has a reference after all those waited for |
| QueryOutput.OutputIsBounded | packages/core/src/plugins/logStore/network/Aggregator.ts:228-257 | in every run, a row delivered is in a result, or is a stored row between two references of results |
| QueryOutput.GapIsDelivered | packages/core/src/plugins/logStore/network/Aggregator.ts:142-257 | each such row is delivered in the run in which an expected node answers last |
| QueryOutput.NothingElseIff | packages/core/src/plugins/logStore/network/Aggregator.ts:218-259 | with a node expected, ended aggregators deliver references of results only, in every run, if and only if there is no such row |
| QueryOutput.OutputIsExact | packages/core/src/plugins/logStore/network/Aggregator.ts:218-259 | with all nodes expected and no such row, an ended aggregator has delivered exactly the results of the primary and of the nodes |
| SetMembershipSynchronizers.SetMembershipSynchronizer.IngestSnapshot | packages/core/src/utils/SetMembershipSynchronizer.ts:42-75 | a stale snapshot is ignored; else stale patches go, the others are applied to the snapshot, and the returned difference is exact |
| SetMembershipSynchronizers.SetMembershipSynchronizer.DeleteStalePatches | packages/core/src/utils/SetMembershipSynchronizer.ts:53-58 | the loop deletes exactly the patches not above the snapshot |
| SetMembershipSynchronizers.SetMembershipSynchronizer.ApplyPatches | packages/core/src/utils/SetMembershipSynchronizer.ts:60-69 | the loop keeps, for each patched element, the membership it had |
| SetMembershipSynchronizers.SetMembershipSynchronizer.IngestPatch | packages/core/src/utils/SetMembershipSynchronizer.ts:83-119 | the non-stale elements of a patch follow its operation, and the returned difference is exact |
| SetMembershipSynchronizers.SetMembershipSynchronizer.RecordPatch | packages/core/src/utils/SetMembershipSynchronizer.ts:92-98 | the loop records the number for exactly the non-stale elements |
| SetMembershipSynchronizers.SetMembershipSynchronizer.ChangeMembership | packages/core/src/utils/SetMembershipSynchronizer.ts:100-118 | the loop adds or removes the elements and returns those whose membership changed |
| SetMembershipSynchronizers.RunIsMembership | packages/core/src/utils/SetMembershipSynchronizer.ts:42-119 | unless two updates contradict each other at the number that decides an element, it is in the state exactly as its highest patch above the highest snapshot says, else as that snapshot says |
| SetMembershipSynchronizers.UnknownIsNonStale | packages/core/src/utils/SetMembershipSynchronizer.ts:92-94 | an element without a patch is changed by every patch with a positive number |
| SetMembershipSynchronizers.Convergence | packages/core/src/utils/SetMembershipSynchronizer.ts:42-119 | all orders of the same updates end in one state if and only if no element has updates both ways at the number that decides it; the same holds of deliveries that repeat updates |
| SetMembershipSynchronizers.UndecidedDiverges | packages/core/src/utils/SetMembershipSynchronizer.ts:42-119 | an element with updates both ways at that number is in after one order of the updates and out after another |
| SetMembershipSynchronizers.ConsistentConverges | packages/core/src/utils/SetMembershipSynchronizer.ts:42-119 | updates of which no two contradict each other at one number end in one state in every order |
| SetMembershipSynchronizers.ConflictsDiverge | packages/core/src/utils/SetMembershipSynchronizer.ts:92-94 | two contradicting patches at one number end in different states in the two orders |
| LogStoreNetworkConfigs.LogStoreNetworkConfig.OnPoll | packages/core/src/plugins/logStore/network/LogStoreNetworkConfig.ts:59-69 | a poll ingests the own parts of all streams as a snapshot and tells the listener the difference |
| LogStoreNetworkConfigs.LogStoreNetworkConfig.OnEvent | packages/core/src/plugins/logStore/network/LogStoreNetworkConfig.ts:74-79 | an event ingests the own parts of one stream as a patch and tells the listener the difference |
| LogStoreNetworkConfigs.LogStoreNetworkConfig.HandleDiff | packages/core/src/plugins/logStore/network/LogStoreNetworkConfig.ts:113-122 | the listener hears of every added part and of every removed part |
| LogStoreNetworkConfigs.MyPartsAreFiltered | packages/core/src/plugins/logStore/network/LogStoreNetworkConfig.ts:60-62 | the own parts of all streams are the parts of all streams that hash to the own index |
| LogStoreNetworkConfigs.IngestShards | packages/core/src/plugins/logStore/network/LogStoreNetworkConfig.ts:59-80 | ingesting the own part of a report keeps the node's state the filtered unsharded state |
| LogStoreNetworkConfigs.ShardIsFilteredState | packages/core/src/plugins/logStore/network/LogStoreNetworkConfig.ts:59-80 | for every run of reports, node i's state is the unsharded state filtered to the parts hashing to i |
| LogStoreNetworkConfigs.ShardsPartition | packages/core/src/plugins/logStore/network/LogStoreNetworkConfig.ts:100-111 | the states of a cluster are pairwise disjoint and their union is the unsharded state |
| Chunkers.Chunker.Transform | packages/core/src/plugins/logStore/Chunker.ts:35-49 | an item is buffered, its size added, and a chunk emitted if a limit is reached |
| Chunkers.Chunker.FinishChunkIfReady | packages/core/src/plugins/logStore/Chunker.ts:51-60 | emits and empties the buffer exactly when final or at a limit |
| Chunkers.ChunksPartition | packages/core/src/plugins/logStore/Chunker.ts:30-60 | the chunks concatenate to the input, exactly the last is final, every other one reaches a limit, and no proper prefix of any chunk does |
| Chunkers.ChunksAreBounded | packages/core/src/plugins/logStore/Chunker.ts:51-60 | each chunk but the last reaches a limit, and no shorter part of a chunk does |
| Chunkers.BytesAreSum | packages/core/src/plugins/logStore/Chunker.ts:40-41 | the size counted is additive: that of a sequence is the sum of its items' lengths |
| Chunkers.ChunkingUnique | packages/core/src/plugins/logStore/Chunker.ts:30-60 | the chunks of an input are the only ones with these properties |
| RangeQueries.SlicesAgreeWithSQLite | packages/core/src/plugins/logStore/database/SQLiteDBAdapter.ts:97-124 | the single OR-condition of SQLite selects exactly the references of the Cassandra slices |
| RangeQueries.SelectsIntervalIff | packages/core/src/plugins/logStore/database/CassandraDBAdapter.ts:216-285 | the slices select the lexicographic interval exactly when the timestamps are in order, or a case in which no boundary slice selects anything |
| RangeQueries.PlanReturnsWanted | packages/core/src/plugins/logStore/database/CassandraDBAdapter.ts:216-330 | without a limit, the slices one after the other are the rows of the interval, in order, if each statement reads its buckets in order of their rows |
| RangeQueries.PlanReturnsWantedRows | packages/core/src/plugins/logStore/database/CassandraDBAdapter.ts:216-330 | in whatever order the buckets are read, the plan returns the rows of the interval, each as often as it is stored, and no others |
| RangeQueries.LimitPushdown | packages/core/src/plugins/logStore/database/CassandraDBAdapter.ts:295-310 | limiting each slice and then the whole is limiting the whole |
| RangeQueries.MessageLimitTransform.Transform | packages/core/src/plugins/logStore/http/dataTransformers.ts:164-178 | lets a message through and counts it while below the limit, and nothing afterwards |
| RangeQueries.LimitMessagesIsLimit | packages/core/src/plugins/logStore/http/dataTransformers.ts:164-178 | the transform over a stream lets exactly the first messages through, as many as a positive limit says, all of them for no limit or 0 |
| RangeQueries.WantedMembers | packages/core/src/plugins/logStore/database/CassandraDBAdapter.ts:216-295 | a row is wanted if and only if it is stored, its reference is in the lexicographic interval, and it has the publisher and the chain asked for, if they are given and not empty |
| RangeQueries.RequestIsBounded | packages/core/src/plugins/logStore/LogStore.ts:68-143 | a request with a positive limit delivers at most that many rows, whichever the database and its order |
| RangeQueries.StatementIsBounded | packages/core/src/plugins/logStore/database/CassandraDBAdapter.ts:308-311 | each statement with a positive limit returns the first rows it would return without, at most that many |
| RangeQueries.RequestDeliversWanted | packages/core/src/plugins/logStore/LogStore.ts:68-143 | with the buckets read in order, a range request to Cassandra delivers the first rows of the interval, as many as a positive limit says and all of them for no limit or 0, the same ones as SQLite |
| RangeQueries.SQLiteDeliversWanted | packages/core/src/plugins/logStore/database/SQLiteDBAdapter.ts:69-171 | a range request to SQLite delivers the first rows of the interval, as many as a positive limit says and all of them for no limit or 0 |
| RangeQueries.RequestsAgreeIff | packages/core/src/plugins/logStore/database/CassandraDBAdapter.ts:249-312 | the two databases answer alike for every limit, if and only if each statement reads its buckets in order of their rows |
| BucketTables.BetweenMembers | packages/core/src/plugins/logStore/database/CassandraDBAdapter.ts:774-779 | a date condition on the bucket table selects exactly the buckets between the dates |
| BucketIndex.IndexIsExact | packages/core/src/plugins/logStore/database/CassandraDBAdapter.ts:757-807 | the index returns exactly the buckets that are the latest at some timestamp of the range, each once and newest first |
| BucketIndex.OpenIndexIsExact | packages/core/src/plugins/logStore/database/CassandraDBAdapter.ts:757-807 | for every range, open at either end or in the wrong order, the buckets returned are told by which bucket is the latest at a timestamp; the call fails if and only if both ends are missing |
| BucketIndex.IndexCovers | packages/core/src/plugins/logStore/database/CassandraDBAdapter.ts:757-807 | the buckets are duplicate-free and hold every properly placed row whose timestamp is in the range |
| BucketIndex.IndexCoversIff | packages/core/src/plugins/logStore/database/CassandraDBAdapter.ts:757-807 | the buckets hold all rows of every range if and only if each row is in the bucket that was the latest at its timestamp |
| BucketIndex.IndexedRequestDeliversWanted | packages/core/src/plugins/logStore/database/CassandraDBAdapter.ts:209-330 | a request through the index with its buckets read oldest first delivers the first rows of the interval, and the same as SQLite |
| BucketIndex.OldestFirst | packages/core/src/plugins/logStore/database/CassandraDBAdapter.ts:757-807 | with rows in the buckets that were the latest at their timestamps, buckets read oldest first give any rows in order |
| BucketIndex.NewestFirstAgreesIff | packages/core/src/plugins/logStore/database/CassandraDBAdapter.ts:209-312 | with its buckets read newest first, as they are listed, the request agrees with SQLite for every limit if and only if each statement needs one bucket |
| TakeQueries.QueryTake | packages/core/src/plugins/logStore/database/CassandraDBAdapter.ts:366-483 | the page-by-page scan returns the take query over exactly the buckets that the stop rule collects |
| TakeQueries.LowIsSigned | packages/core/src/plugins/logStore/database/CassandraDBAdapter.ts:467-470 | a count is read as a signed 32-bit number: itself below 2^31, negative from there, and starting anew at 2^32 |
| TakeQueries.ScanStops | packages/core/src/plugins/logStore/database/CassandraDBAdapter.ts:470-475 | a scan stops only at the last page or when the buckets read hold enough rows |
| TakeQueries.ScannedSuffices | packages/core/src/plugins/logStore/database/CassandraDBAdapter.ts:440-475 | the buckets scanned hold the end of the row list: all of it or at least the limit |
| TakeQueries.DescendingLimit | packages/core/src/plugins/logStore/database/SQLiteDBAdapter.ts:195-228 | a limited descending result, reversed, is the last rows in ascending order |
| TakeQueries.SQLiteFirstRows | packages/core/src/plugins/logStore/database/SQLiteDBAdapter.ts:181-228 | for a positive count SQLite returns a prefix of the rows, of that length or all |
| TakeQueries.SQLiteLastRows | packages/core/src/plugins/logStore/database/SQLiteDBAdapter.ts:173-228 | for a negative count it returns the end of the rows, in ascending order, of that length or all |
| TakeQueries.QueryLastIsExact | packages/core/src/plugins/logStore/database/CassandraDBAdapter.ts:342-483 | queryLast returns, in ascending order, exactly the last min(count, 10000) rows |
| TakeQueries.LastRowsAgreeIff | packages/core/src/plugins/logStore/database/SQLiteDBAdapter.ts:173-240 | the two adapters return the same last rows exactly when the count or the number of rows is within 10000 |
| TakeQueries.FirstRowsAgreeIff | packages/core/src/plugins/logStore/database/CassandraDBAdapter.ts:354-483 | the two adapters return the same first rows if and only if the scan meets the first row's bucket, as in QueryFirstIff, and the count or the number of rows is within 10000 |
| TakeQueries.QueryFirstIff | packages/core/src/plugins/logStore/database/CassandraDBAdapter.ts:354-483 | queryFirst returns the first rows if and only if the running count of the buckets newer than the first row's stays below the limit at every page |
| TakeQueries.QueryFirstOutside | packages/core/src/plugins/logStore/database/CassandraDBAdapter.ts:435-480 | with fewer than 2^31 rows, that is so if and only if fewer than the limit lie outside the first row's bucket |
| TakeQueries.QueryFirstReturnsNewest | packages/core/src/plugins/logStore/database/CassandraDBAdapter.ts:435-480 | two buckets of one row each, asked for the first row: the last is returned |
| Batches.Batch.Push | packages/core/src/plugins/logStore/Batch.ts:142-148 | a record is appended, its size added, and its callback kept if given |
| Batches.Batch.ScheduleInsert | packages/core/src/plugins/logStore/Batch.ts:116-121 | sets the insert timer to closeTimeout times the retries so far |
| Batches.Batch.BeginInsert | packages/core/src/plugins/logStore/Batch.ts:122-127 | the timer counts a retry up to the maximum and starts the insertion |
| Batches.Batch.Done | packages/core/src/plugins/logStore/Batch.ts:130-133 | the loop calls the callbacks in order, and none stays |
| BatchManagers.BatchManager.Store | packages/core/src/plugins/logStore/BatchManager.ts:67-92 | a full open batch of the bucket locks, a missing one is opened, and the record goes into it; nothing else changes |
| BatchManagers.BatchManager.MoveFullBatch | packages/core/src/plugins/logStore/BatchManager.ts:102-108 | a locked batch becomes pending, is scheduled, and leaves the open ones |
| BatchManagers.BatchManager.LockBatch | packages/core/src/plugins/logStore/Batch.ts:91-114 | locking, by size or by timer, moves the open batch to the pending ones |
| BatchManagers.BatchManager.OpenBatch | packages/core/src/plugins/logStore/BatchManager.ts:74-89 | a new empty batch is registered under its bucket |
| BatchManagers.BatchManager.BeginInsert | packages/core/src/plugins/logStore/BatchManager.ts:110-132 | the records of a pending batch are sent |
| BatchManagers.BatchManager.InsertSucceeds | packages/core/src/plugins/logStore/BatchManager.ts:134-137 | the callbacks are called, the batch cleared and deleted |
| BatchManagers.BatchManager.InsertFails | packages/core/src/plugins/logStore/BatchManager.ts:138-158 | the batch is dropped at the maximum of retries, else scheduled again |
| BatchRuns.StoreKeeps | packages/core/src/plugins/logStore/BatchManager.ts:67-92 | storing keeps the invariant, the lock and the new batch it may need included |
| BatchRuns.StoreFillsBatch | packages/core/src/plugins/logStore/BatchManager.ts:67-92 | a record joins the open batch of its bucket if that has fewer records and less data than the limits, else it is alone in a new batch |
| BatchRuns.StoreLocksFullBatch | packages/core/src/plugins/logStore/BatchManager.ts:67-73 | a batch that a record does not join keeps its records, is pending and has its insert timer set |
| BatchRuns.DefaultRoom | packages/core/src/plugins/logStore/BatchManager.ts:45-49 | with the default options a record joins the open batch if and only if that has fewer than 8000 records and less than 2,400,000 bytes |
| BatchRuns.SucceedKeeps | packages/core/src/plugins/logStore/BatchManager.ts:134-137 | a successful insertion moves exactly the records of its batch to the inserted ones and keeps the invariant |
| BatchRuns.FailKeeps | packages/core/src/plugins/logStore/BatchManager.ts:138-158 | a failed insertion keeps the records in their batch or moves them to the dropped ones |
| BatchRuns.StepKeeps | packages/core/src/plugins/logStore/BatchManager.ts:67-159 | every step keeps the invariant |
| BatchRuns.RecordsConserved | packages/core/src/plugins/logStore/BatchManager.ts:67-159 | in every run, each record stored is in exactly one of its bucket's open batch, one pending batch, inserted or dropped, and there only once |
| BatchRuns.EveryCallIsStored | packages/core/src/plugins/logStore/BatchManager.ts:67-92 | the records spoken of are those of all calls of store, in order |
| BatchRuns.CallbacksOnceWhenInserted | packages/core/src/plugins/logStore/Batch.ts:130-148 | in every run, a callback is called at most once, and exactly for the inserted records that came with one |
| BatchRuns.InFlightIsFrozen | packages/core/src/plugins/logStore/BatchManager.ts:110-132 | a batch in flight carries exactly its records, and only the answer of its request changes it |
| BatchRuns.PendingHasStep | packages/core/src/plugins/logStore/Batch.ts:116-128 | a pending batch has either its timer set or its request in flight |
| BatchRuns.InsertionTerminates | packages/core/src/plugins/logStore/BatchManager.ts:110-159 | in every run, a batch takes at most twice maxRetries steps of its own; once it has taken them it is no longer pending, and every record it ever held is inserted or dropped |
| BatchRuns.RunFollows | packages/core/src/plugins/logStore/BatchManager.ts:110-159 | whatever steps follow, a record of a batch stays in it or is inserted or dropped |
| BatchRuns.RetriesAreBounded | packages/core/src/plugins/logStore/Batch.ts:116-128 | at most maxRetries attempts, and waits of at most closeTimeout * maxRetries * (maxRetries - 1) / 2 in all |
| BatchRuns.RetriesAreCapped | packages/core/src/plugins/logStore/Batch.ts:122-127 | the count of retries grows with each attempt below the maximum and never passes it |
| BatchRuns.DropsAfterAllAttempts | packages/core/src/plugins/logStore/BatchManager.ts:145-157 | records are dropped exactly when attempt maxRetries fails, and then the waits meet that bound |
| BatchRuns.DefaultWaits | packages/core/src/plugins/logStore/BatchManager.ts:45-52 | with the default options a dropped batch has waited 499,500,000 ms, over 500 times the 16 minutes of the comment |
| BatchRuns.BatchesAreBounded | packages/core/src/plugins/logStore/Batch.ts:150-155 | a batch holds at most maxRecordCount records, and less than maxSize before its last one |
| Buckets.Bucket.IncrementBucket | packages/core/src/plugins/logStore/Bucket.ts:102-107 | adds the size and one record, the bucket is no longer stored, and it is alive for the keep-alive time from now |
| BucketManagers.BucketManager.FindBucketId | packages/core/src/plugins/logStore/BucketManager.ts:144-181 | the search takes the latest bucket if it is below 70 percent of both limits and not after the timestamp, and for a past timestamp the first of the others in heap order that is not after it |
| BucketManagers.BucketManager.GetBucketId | packages/core/src/plugins/logStore/BucketManager.ts:91-123 | without a bucket, the least pending timestamp of the stream part is kept; a bucket found is in memory |
| BucketManagers.LeastIsPending | packages/core/src/plugins/logStore/BucketManager.ts:104-119 | the pending timestamp of a stream part is the least of those that found no bucket since the last pass, and other stream parts are untouched |
| BucketManagers.BucketManager.CheckFoundBuckets | packages/core/src/plugins/logStore/BucketManager.ts:200-210 | a bucket found and not in memory is loaded and alive for the keep-alive time from now, else a new one is to be inserted |
| BucketManagers.BucketManager.CheckLatest | packages/core/src/plugins/logStore/BucketManager.ts:212-229 | the first look at the table, only without a usable latest bucket in memory |
| BucketManagers.BucketManager.CheckPast | packages/core/src/plugins/logStore/BucketManager.ts:231-241 | the second look, only if nothing is to be inserted and no bucket in memory serves |
| BucketManagers.BucketManager.CheckStreamPart | packages/core/src/plugins/logStore/BucketManager.ts:186-266 | a pass ends as its two reads of the table leave it, adds buckets of its stream part only and, if the table is the same for both reads, serves the pending timestamp unless it is missed |
| BucketManagers.BucketManager.CheckFullBuckets | packages/core/src/plugins/logStore/BucketManager.ts:183-266 | the loop gives each stream part with a pending timestamp a pass, with the buckets loaded for earlier ones in memory, which serves the timestamp unless it is missed, and leaves the other stream parts as they are |
| BucketManagers.BucketManager.IncrementBucket | packages/core/src/plugins/logStore/BucketManager.ts:125-134 | counts into the bucket and renews its time to live if it is in memory, else changes nothing |
| BucketManagers.BucketManager.BeginRound | packages/core/src/plugins/logStore/BucketManager.ts:280-289 | a round upserts exactly the buckets that are not stored, with their counters |
| BucketManagers.BucketManager.EndRound | packages/core/src/plugins/logStore/BucketManager.ts:291-314 | fulfilled upserts that carried all records mark their bucket stored; exactly the stored buckets that are no longer alive when that is read, at their upsert or in the sweep, leave memory |
| BucketManagers.BucketManager.SettleBucket | packages/core/src/plugins/logStore/BucketManager.ts:291-307 | one fulfilled upsert: stored only if the number of records is still the one carried, and removed only if stored and no longer alive |
| BucketManagers.BucketManager.Sweep | packages/core/src/plugins/logStore/BucketManager.ts:309-314 | the last sweep removes exactly the stored buckets that are no longer alive |
| BucketManagers.BucketManager.RemoveBucket | packages/core/src/plugins/logStore/BucketManager.ts:322-346 | the bucket leaves memory, its heap is rebuilt with all others, and the timestamps that wait go on to wait |
| BucketProgress.FindsIffServes | packages/core/src/plugins/logStore/BucketManager.ts:154-181 | whether a bucket is found does not depend on the order behind the head of the heap |
| BucketProgress.FoundIsNotAfter | packages/core/src/plugins/logStore/BucketManager.ts:154-181 | a bucket found is in the heap and not after the timestamp |
| BucketProgress.LatestIsUsedIff | packages/core/src/plugins/logStore/Bucket.ts:87-96 | for a timestamp not before the latest bucket, that bucket is found if it is below 70 percent of both limits, size and record count, else none is |
| BucketProgress.LatestIsLoadedIff | packages/core/src/plugins/logStore/BucketManager.ts:212-229 | the first look loads the latest bucket of the table if and only if memory has none, or its latest one has 70 percent of either limit |
| BucketProgress.FindsLatestIff | packages/core/src/plugins/logStore/BucketManager.ts:160-181 | of buckets with different dates, every binary heap finds the latest one not after the timestamp, if and only if the head is not after it or at most one bucket is |
| BucketProgress.AnyOrderFindsLatest | packages/core/src/plugins/logStore/BucketManager.ts:160-181 | any order with the latest bucket first finds the latest one not after the timestamp, if the head is not after it or those not after it share one date |
| BucketProgress.SharedDateShieldsLatest | packages/core/src/plugins/logStore/BucketManager.ts:160-181 | with dates 9, 5, 5 and 1 every binary heap finds date 5 for timestamp 6, so that shared dates are outside the condition |
| BucketProgress.CurrentIsLatest | packages/core/src/plugins/logStore/BucketManager.ts:160-181 | from the date of the latest bucket on, or with two buckets at most, the bucket found is the latest not after the timestamp |
| BucketProgress.PastNeedNotBeLatest | packages/core/src/plugins/logStore/BucketManager.ts:166-177 | for a past timestamp a heap order exists in which an older bucket is found |
| BucketProgress.LastBucketsIn | packages/core/src/plugins/logStore/database/CassandraDBAdapter.ts:818-841 | getLastBuckets returns the latest bucket, and with a timestamp other than 0 the latest not after it |
| BucketProgress.PassServesIff | packages/core/src/plugins/logStore/BucketManager.ts:183-266 | for every combination of buckets in memory and in the table, none created at the pending timestamp, a pass gives it a bucket if and only if it is not Missed (timestamp 0, a usable later bucket in memory, an unknown later one in the table) |
| BucketProgress.MissedOnlyOnce | packages/core/src/plugins/logStore/BucketManager.ts:183-266 | after a missed pass the condition no longer holds |
| BucketProgress.TimestampZeroIsMissed | packages/core/src/plugins/logStore/database/CassandraDBAdapter.ts:832-838 | a concrete pass that leaves timestamp 0 without a bucket |
| BucketProgress.PassDuplicatesIff | packages/core/src/plugins/logStore/BucketManager.ts:183-266 | with a bucket at the pending timestamp already, in memory or in the table, a pass creates another one at that date if and only if the bucket it would use is almost full, or the timestamp is 0 and the second look finds a bucket that is in memory already |
| BucketCaches.IncrementKeeps | packages/core/src/plugins/logStore/BucketManager.ts:125-134 | an increment keeps counters equal to the sums and captured rows behind them |
| BucketCaches.EndKeeps | packages/core/src/plugins/logStore/BucketManager.ts:291-314 | the end of a round, whichever upserts were fulfilled, keeps the invariant |
| BucketCaches.StepKeeps | packages/core/src/plugins/logStore/BucketManager.ts:125-346 | every step keeps the invariant |
| BucketCaches.CountersAreSums | packages/core/src/plugins/logStore/BucketManager.ts:280-346 | in every run, a bucket's counters, in memory or else in the table, are the sums of its increments, and a stored bucket's row equals its counters in memory |
| BucketCaches.EvictedOnlyWhenWritten | packages/core/src/plugins/logStore/BucketManager.ts:299-314 | only the end of a round evicts, only expired buckets, and only when the table has their counters |
| BucketCaches.ReloadContinuesCount | packages/core/src/plugins/logStore/BucketManager.ts:200-210 | a reloaded bucket counts on from all earlier increments |
| BucketCaches.NewSlotIff | packages/core/src/plugins/logStore/BucketManager.ts:243-264 | a date is new to the cache exactly if neither memory nor the table has a bucket of it |
| BucketCaches.PassIsRun | packages/core/src/plugins/logStore/BucketManager.ts:183-266 | a pass is a run of the cache of up to two reloads and a new bucket, and it keeps creation dates distinct if and only if its date has no bucket or it is no duplicating case |
| BucketCaches.SharedDateLosesCounters | packages/core/src/plugins/logStore/database/CassandraDBAdapter.ts:846-853 | a concrete run of passes, increments and rounds: with its bucket almost full, a pass creates a second one at the same date, the two share a row, and a count is lost |
| BucketLosses.CountersKeptIff | packages/core/src/plugins/logStore/BucketManager.ts:125-346 | after any run, all counters are the sums of their increments in every continuation without new buckets, if and only if no two buckets made so far share a creation date |
| BucketLosses.SharersLose | packages/core/src/plugins/logStore/database/CassandraDBAdapter.ts:846-853 | two buckets of one date can both leave memory, and then the row they share lacks the counters of one of them |
| BucketLosses.PassKeepsCountersIff | packages/core/src/plugins/logStore/BucketManager.ts:183-266 | counters stay safe after a pass over any reachable cache if and only if no bucket has the pending timestamp or the pass is no duplicating case |

## Left out

- DoCheck: what a range query delivers is the set of rows in its range; the order of two range queries piped into the output at once is not promised by the code and not modelled.
- BeginRound: the batch of upserts settles before the next round begins, as `Promise.allSettled` does; an upsert that is reported as failed and takes effect only after that is not modelled.
- CheckFullBuckets: between the two awaited reads of a pass only the bucket table can change; records taken or a round ended meanwhile are not modelled.
- NothingElseIff: requires that some node is expected; without one, nothing is said of whether a row outside the results is delivered in some run.
- FindsLatestIff: requires different dates; with shared ones the exact condition depends on the shape of the heap and is not stated, only its "if" half (`AnyOrderFindsLatest`).
- HeapPush: of a heap only the latest element at its head and what is in it is promised; the `heap` package itself is not part of this model, and that it keeps a binary heap is assumed in `FindsLatestIff` only.
- RequestDeliversWanted: requires timestamps in order, which `SelectsIntervalIff` makes exact, and buckets read in order, which `RequestsAgreeIff` makes exact; the order in which Cassandra reads them is not part of this model.
- IndexedRequestDeliversWanted: requires the buckets read oldest first; `NewestFirstAgreesIff` says when newest first gives the same.
- `MessageRef.compareTo` comes from another package and is modelled as the lexicographic comparison of timestamp and sequence number.
- `keyToArrayIndex` comes from another package and is a parameter of the sharding.
- Query errors, error callbacks, broken pipes and callbacks that throw.
- Node streams, back-pressure and event emitters: handlers are atomic steps, channels are queues of chunks.
- The choice of the initial query by query type, and the response metadata.
- The sequence-number defaults of the request managers, and the check of the publisher and chain arguments in `requestRange`.
- `BatchManager.stop()`, and a retry that fires after it.
- Constructors that throw: the limits of batches and buckets and their non-empty names are preconditions.
- Ids: a batch id is a counter instead of a UUID, and a new bucket's id is an argument assumed to be new.
- Real time: timers fire as steps that may happen, and the time that a bucket's clock shows is an argument.
- A message's size in the chunker is a number that comes with the item.
- Cassandra's refusal of a LIMIT of 0: a count of 0 returns no rows.
- The write to Cassandra itself, the retry of messages without a bucket, and the schema of both databases.
- HTTP endpoints, formats, authentication, heartbeats, managers that route messages, the command line and the plugins.
