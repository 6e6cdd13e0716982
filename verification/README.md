# Falcon-plus, modelled and proved in Dafny

A model of the parts of the Falcon-plus monitoring backend in which a wrong branch loses data,
raises a false alarm or keeps a real one silent, with proofs of what they promise. Run
`dafny verify dfyconfig.toml`.

| files | component |
|---|---|
| `GraphModel`, `GraphQuery`, `GraphUpdate`, `GraphRateFlush` | a graph query laid over the points still in memory, and what a flush of these points does to its answer |
| `GraphStore`, `CacheKey`, `GraphFlush`, `GraphRising`, `Transfer` | the sharded item store, receiving and flushing, when the points of a file rise in time, and where the alignment of items comes from |
| `Migration`, `MigrationInvariant`, `MigrationSafety`, `MigrationHistory`, `MigrationOrder`, `MigrationLimits`, `MigrateWorker`, `MigrationNode` | the flag-driven migration of a key to this node: the state machine, what its runs keep, exactly when they do not, the methods that implement it, and its agreement with the node |
| `Inherit`, `InheritAnswer` | template inheritance in the heartbeat server, and what follows for its answers |
| `JudgeWindow`, `JudgeFunc`, `JudgeEvent`, `JudgeCounter`, `JudgeExpr`, `JudgeStrategy` | the judge: window, functions, alarm episodes, indexes |
| `AggregatorGrammar`, `AggregatorParse`, `AggregatorCompute`, `AggregatorRun` | the expression language of the cluster aggregator |
| `AlarmPattern`, `AlarmMessage` | the alarm text and the parser in the message gateway |
| `Nodata`, `Sharding` | mock timing, and the distribution of disk work |
| `GoInts`, `Strings`, `Regex`, `Wrappers` | Go's remainder, the string functions used, the meaning of regular expressions |

Code that changes state is modelled by methods and classes, proved against specification
functions; the theorems are lemmas about those functions and about runs of steps. Values are
`real`, NaN is `None`, hashes and digests are parameters, and a map is iterated in an arbitrary
order. Bare line numbers in comments of GraphQuery refer to graph/api/graph.go.

## What was found

- `MigrationHistory.ForsakenHappens`, `MigrationHistory.ForsakenIff`: the dispatcher takes every error
  of the kind "does not exist" for an absent remote file, also one of the local install. Then the old
  node has delivered the history, nothing is installed, MISS is cleared all the same and the items go
  to a new local file. Over all single-flight runs, local data without history comes about exactly by
  such a refused install.
- `MigrationOrder.DisorderHappens`, `MigrationOrder.RunInOrderIff`: the order guard of `handleItems` sees an
  empty list while a send is under way, so a failed send can put newer items behind older ones. A run
  stays ordered if and only if no restoring step meets an item that is not newer than those it puts back.
- `MigrationLimits.PartialWriteHappens`, `MigrationLimits.PartialWriteIsForGood`: `writeFile` leaves a file
  behind when it fails after creating it. The exclusive create then fails for ever: the key stays MISS
  and nothing is written locally if and only if no third attempt of a fetch is answered "does not exist".
- `MigrationLimits.TwoTasksResurrectMiss`, `MigrationLimits.ClearedThroughoutIff`: the flag is read, changed
  and written in separate steps. However many tasks are in flight, MISS stays cleared if and only if no
  task ends by writing back a flag that it read while MISS was set; two tasks for one key suffice.
- `GraphRising.FallsBackHappens`, `GraphRising.RisesIff`: the order guard sees only memory. The points
  destined for a file rise in time if and only if no item accepted onto an empty list is as old as the
  last point handed to that file, or older.
- `InheritAnswer.DuplicateBindingLeaks`, `InheritAnswer.DuplicateBindingRetargets`: when a host is bound to
  the same parent template twice, the `break` of `hbs/rpc/hbs.go:135-137` ends the containment check
  early. `Inherit.EliminationCompleteIff` says exactly when redundant chains survive, `LeaksIff` when
  they add an overridden strategy to the answer, `RetargetsIff` when they change an emitted template.
- `Inherit.UuidCollidesIff`: two strategies override each other although they differ if and only if one
  metric runs on, across `/tags:`, into what the other one has as tags.
- `GraphRateFlush.EndLabelsIff`: memory names a rate by the earlier of its items, `fetch` names a row by
  the end of its interval. Given what the RRD library makes of the points handed to it (`StoredAfter`), a
  flush of a counter changes exactly the slots at the time of a flushed item for which the rate that
  memory knew from there on differs from the one that storage makes up to there, or just one of them is
  known and storage held something else. `LabelsShow` is such a flush; in `TruncationShows` the rates are
  equal and the truncation to whole numbers makes the difference.
- `GraphUpdate.GaugeFlushInvisibleIff`: for a gauge only values that `update` leaves out can show.
- `AggregatorParse.ParseFaithfulIff`: a valid expression is taken apart as written if and only if no
  counter contains a dollar sign; `AggregatorRun.DollarMisreads` shows one that is computed wrongly.
- `JudgeExpr.SlashMisjudges`, `JudgeStrategy.SlashInHostMisjudges`: index keys join names with a slash, so
  a slash inside a metric (respectively a host name) can bring foreign rules to an item;
  `JudgeExpr.IndexAgreesIff` and `JudgeStrategy.StrategiesAgreeIff` are exact for all names.
- `AlarmMessage.HandleInvertsRender`: the gateway reads an alarm text back if and only if the note
  contains nothing that looks like a function.
- `Nodata.NoStepNoSpacing`: with a step below one, two passes in one second mock the same slot.

## Model

| member | source | states |
|---|---|---|
| GraphQuery.FormatGauge | graph/api/graph.go:229-244 | the cached slots are contiguous, cover the part of the window from the first to the last item, and each holds the item of that time or NaN; the cursor skips no item and the loop ends |
| GraphQuery.FormatRate | graph/api/graph.go:210-228 | for counters the cached slots are contiguous, too, and end one step before the last item; a slot holds the rate exactly when the next item is one step later and not smaller, else NaN |
| GraphQuery.FilterData | graph/api/graph.go:247-255 | exactly the stored points inside the window are kept, still contiguous |
| GraphQuery.FindJunction | graph/api/graph.go:257-268 | the index of the last stored point older than the cache, and the time to fill from |
| GraphQuery.FixMissing | graph/api/graph.go:270-273 | the gap between storage and cache is filled with NaN slots, and nothing else changes |
| GraphQuery.OverlayCache | graph/api/graph.go:275-286 | a cached value overwrites the stored one of the same slot unless it is NaN, and later cached slots are appended |
| GraphQuery.MergedMeaning | graph/api/graph.go:257-287 | the positional layout of the merged list means, at every time, cached value if known, else stored value |
| GraphQuery.MergeCache | graph/api/graph.go:257-287 | junction, filling and overlay together compute the overlay by timestamp and stay contiguous |
| GraphQuery.FormatResult | graph/api/graph.go:290-307 | slot i has time start+i*step and the merged value of that time, or NaN |
| GraphQuery.MergeQuery | graph/api/graph.go:201-308 | the five loops refine the per-slot overlay: length (end-start)/step, one more for GAUGE, and each slot is cached value, else stored value, else NaN |
| GraphQuery.Query | graph/api/graph.go:127-314 | empty for an unknown counter; for times after the epoch: empty exactly when start and end fall into the same step or are the wrong way round; the old node's points for a key flagged MISS under migration, else the file's, unmerged when nothing is cached or the window begins more than 720 steps back; else one slot for every multiple of the step from the one at or before start to the one at or before end, for a gauge one more, each holding cached value, else stored value, else NaN |
| GraphQuery.AnswerMeetsContract | graph/api/graph.go:163-176 | a merged answer is contiguous and starts at the window, so another node may use it as its source |
| GraphQuery.RemoteComposition | graph/api/graph.go:163-176 | a query answered through the old node overlays this node's memory over the old node's memory over its file, slot by slot |
| GraphUpdate.Update | graph/rrdtool/rrdtool.go:116-132 | hands over the items in order, without extreme values and with counters truncated |
| GraphUpdate.HandedMembers | graph/rrdtool/rrdtool.go:119-129 | a point reaches the library exactly for each item whose value is not extreme |
| GraphUpdate.LeftOutIff | graph/rrdtool/rrdtool.go:120-123 | left out is a value beyond 1e300 or, unless it is zero, below 1e-300 |
| GraphUpdate.RecordedMeans | graph/rrdtool/rrdtool.go:124-128 | a counter goes in as the whole number next to it on the side of zero, anything else as it is |
| GraphUpdate.HandedAscending | graph/rrdtool/rrdtool.go:119-129 | what is handed over is ordered in time when the items are |
| GraphUpdate.GaugeFlushInvisibleIff | graph/rrdtool/rrdtool.go:116-132 | under the hypothesis `StoredAfter` about the library, a flush of a gauge changes no answer if and only if every item left out for its value is outside the answer or already stored with that value |
| GraphRateFlush.EndLabelsIff | graph/rrdtool/rrdtool.go:219-230 | as the code names its rows, under that hypothesis and for counters of any values: a flush changes a slot if and only if it is at the time of a flushed item, and memory's rate from that item on and storage's rate up to it (of truncated values, counting the file's last point) are both known and differ, or one is known and storage held something else |
| GraphRateFlush.RateFlushIff | graph/rrdtool/rrdtool.go:116-132 | the same for either naming of the rows: memory no longer knows the rates from flushed items on, storage knows those it makes of the flushed items and of the point before them, named later by the given lag |
| GraphRateFlush.WholeRateFlushIff | graph/api/graph.go:210-228 | if rows were named by the interval's start, as memory names rates, whole numbers of ordinary size would leave only the rate across the end of the flush, and add the one across its start |
| GraphRateFlush.EndLabelsShift | graph/rrdtool/rrdtool.go:219-230 | as the code names its rows, between three neighbours one rate takes the place of the next; for whole numbers the slot stays the same if and only if the two are equal |
| GraphRateFlush.TruncationShows | graph/rrdtool/rrdtool.go:124-128 | three counter values with equal rates of which truncation makes different ones |
| GraphRateFlush.LabelsShow | graph/rrdtool/rrdtool.go:223-225 | three whole counter values of which the second rate is replaced by the first |
| GraphStore.SafeLinkedList.PushFront | graph/store/linkedlist.go:35-39 | the item becomes the newest one; flag and rest stay |
| GraphStore.SafeLinkedList.PopAll | graph/store/linkedlist.go:75-93 | returns all items oldest first and leaves the list empty with its flag |
| GraphStore.SafeLinkedList.PushAll | graph/store/linkedlist.go:96-106 | popped items go back behind everything that has arrived since, in their old order |
| GraphStore.SafeLinkedList.FetchAll | graph/store/linkedlist.go:109-122 | returns all items oldest first, and the flag, without a change |
| GraphStore.GraphItemMap.Get | graph/store/store.go:37-44 | the sharded lookup equals the lookup in one plain map |
| GraphStore.GraphItemMap.Set | graph/store/store.go:67-72 | the sharded update equals the update of one plain map, and each key stays in its shard |
| GraphStore.GraphItemMap.Remove | graph/store/store.go:46-57 | removes the key from the plain map and says whether it was there |
| GraphStore.GraphItemMap.Len | graph/store/store.go:74-82 | the sum over the shards is the size of the plain map |
| GraphStore.GraphItemMap.First | graph/store/store.go:84-99 | the newest item of the key, if any |
| GraphStore.GraphItemMap.Back | graph/store/store.go:207-223 | the oldest item of the key, if any |
| GraphStore.GraphItemMap.ItemCnt | graph/store/store.go:225-234 | the number of items of the key, 0 for an unknown key |
| GraphStore.GraphItemMap.GetFlag | graph/store/store.go:113-122 | the flag, or an error for an unknown key |
| GraphStore.GraphItemMap.SetFlag | graph/store/store.go:124-134 | changes that flag only, or reports an unknown key |
| GraphStore.GraphItemMap.PopAll | graph/store/store.go:136-145 | empties that list only and returns it oldest first; nothing for an unknown key |
| GraphStore.GraphItemMap.PushAll | graph/store/store.go:101-111 | puts items back behind that list only, or reports an unknown key |
| GraphStore.GraphItemMap.FetchAll | graph/store/store.go:147-157 | items oldest first and flag, zero values for an unknown key |
| GraphStore.GraphItemMap.PushFront | graph/store/store.go:173-188 | a known key gets the item in front; a new key starts with it, flagged MISS exactly when migration is on and its file is absent |
| GraphStore.GraphItemMap.KeysByIndex | graph/store/store.go:190-205 | exactly the keys of that shard, each once |
| GraphStore.ReversedTwice | graph/store/linkedlist.go:75-106 | popping and pushing back restores the order of a list |
| GraphStore.FailedSend | graph/store/linkedlist.go:75-106 | popping all, any pushes and pushing all back leaves the list that the pushes alone would have made, flag included |
| CacheKey.SplitInvertsForm | graph/g/utils.go:39-60 | splitting undoes forming if and only if checksum and type hold no underscore and the step fits 32 bits |
| CacheKey.FilesAreDistinct | graph/g/utils.go:28-31 | two keys share an RRD file only if they are equal |
| GraphFlush.GraphNode.Admits | graph/api/graph.go:90-116 | the guards: printable endpoint and counter, and newer than the newest item in memory |
| GraphFlush.GraphNode.HandleItem | graph/api/graph.go:85-117 | an admitted item, whatever its step and checksum, is pushed and logged as accepted, any other changes nothing; an item as the senders make it keeps order and conservation |
| GraphFlush.AcceptSound | graph/api/graph.go:90-117 | accepting keeps: handed to disk plus memory equals accepted, in order, for every key |
| GraphFlush.CommitSound | graph/rrdtool/rrdtool.go:247-259 | committing keeps that what was handed to disk plus memory equals what was accepted, since a file name leads back to one key |
| GraphFlush.GraphNode.CommitByKey | graph/rrdtool/rrdtool.go:247-259 | a key that does not split is left alone; else the whole list goes to the file of the key in one call, none for an empty list, and is emptied |
| GraphFlush.GraphNode.PullByKey | graph/rrdtool/rrdtool.go:261-273 | a task for the key is queued exactly when it has an item |
| GraphFlush.GraphNode.TestFlush | graph/rrdtool/rrdtool.go:314-327 | six items, or an oldest item as old as the longest wait |
| GraphFlush.GraphNode.FlushKey | graph/rrdtool/rrdtool.go:298-310 | a key still missing its history is pulled, a due or forced one is committed, any other one left alone |
| GraphFlush.GraphNode.FlushRRD | graph/rrdtool/rrdtool.go:290-312 | a pass visits every key of the shard once, one after the other, conserving all items; what that is for a key, see MigrationNode.UnforcedPass and ForcedPass |
| MigrationNode.UnforcedPass | graph/rrdtool/rrdtool.go:298-310 | a visited key whose flag has MISS, under migration, keeps its list, hands nothing to its file, and is pulled exactly when it has an item; any other is not pulled, and with six items or an overdue oldest one its whole list goes to its file in one call, else nothing happens |
| MigrationNode.ForcedPass | graph/rrdtool/rrdtool.go:298-310 | a forced pass pulls nothing and hands over the whole list of every visited key with an item, whatever its flag |
| MigrationNode.PassIsVisit | graph/rrdtool/rrdtool.go:290-312 | a pass of the node is the machine's step for each key: a pull is a started task, everything else agrees in list, tasks and what goes to the file |
| MigrationNode.HandleIsReceive | graph/api/graph.go:90-117 | receiving of the node is the machine's step: the same items are accepted, onto the same list, and a new key gets the same flag |
| MigrationNode.NewKeyFlag | graph/store/store.go:173-188 | a new key is flagged MISS exactly when migration is on and its file is absent |
| GraphFlush.GraphNode.FlushAll | graph/rrdtool/rrdtool.go:235-245 | visits every key of the store exactly once |
| GraphFlush.PassHands | graph/rrdtool/rrdtool.go:290-312 | each file receives the whole list of its key when the key commits, and nothing otherwise |
| GraphFlush.AfterPass | graph/rrdtool/rrdtool.go:290-327 | after an unforced pass a visited list is empty, waits for its history, or has fewer than six items none of which is overdue |
| GraphFlush.PassBatches | graph/rrdtool/rrdtool.go:290-312 | a pass calls the flush of a file at most once |
| GraphFlush.ForcedFlushCommitsOnce | graph/rrdtool/rrdtool.go:235-259 | a forced flush commits every non-empty key in exactly one call with its whole list and leaves every list empty |
| GraphFlush.FetchIsQueryReady | graph/api/graph.go:159-161 | what a query fetches from memory is aligned and strictly increasing, as its merge needs |
| GraphRising.RisesIff | graph/api/graph.go:112-117 | over every history of arrivals and commits, the points handed to a file, followed by those waiting for it, rise in time if and only if every item accepted onto an empty list was newer than the last point handed to that file |
| GraphRising.NextRisesIff | graph/rrdtool/rrdtool.go:247-259 | the same for a single arrival or commit |
| GraphRising.FallsBackHappens | graph/api/graph.go:112-117 | an item, its commit and an older item of the same key leave them in the wrong order |
| Transfer.ConvertedIsWellSent | transfer/sender/sender.go:169-202 | a converted report keeps endpoint, counter and value, a COUNTER becoming DERIVE; it has the larger of its own and the minimal step, a timestamp moved by less than a step onto a multiple of it, and meets the graph component's needs exactly when the step fits 32 bits; other counter types are refused |
| Transfer.OneItemPerPeriod | transfer/sender/sender.go:199-232 | together with the receiver's guard, for reports of the same effective step: a further report is stored if and only if it falls into a later period than the newest one in memory |
| MigrationSafety.RunKeepsInv | graph/rrdtool/migrate.go:155-212 | every step of tasks, items and passes keeps the protocol invariant while one task per key is in flight |
| MigrationSafety.NothingLost | graph/rrdtool/migrate.go:271-297 | in every reachable state, accepted items are those that left memory after a success, those a sender holds and those in memory, in this order |
| MigrationSafety.MissMeansNoFile | graph/rrdtool/migrate.go:301-354 | between tasks no task flag is set, and a key flagged MISS has a local file if and only if an install failed half-way |
| MigrationSafety.LocalDataIsSettled | graph/rrdtool/migrate.go:187-193 | local data is written only after the file was there, was installed, was reported absent by the old node, or an install error of that kind was taken for absence |
| MigrationHistory.NextKeepsHistory | graph/rrdtool/migrate.go:186-199 | a step leaves local data without any history, where there was none before, if and only if it hands items over while the file was never there, never installed and never reported absent |
| MigrationHistory.ForsakenIff | graph/rrdtool/migrate.go:186-199 | over every single-flight run: local data stands there without any history at the end if and only if there is local data and some fetched file was refused, its exclusive create failing with an error of the kind "does not exist" while history was unknown |
| MigrationHistory.LocalStaysCleared | graph/rrdtool/migrate.go:191-192 | over every single-flight run local data is there only while MISS is cleared |
| MigrationHistory.RefusedInstallClearsIff | graph/rrdtool/migrate.go:327-342 | a task that has got the remote file clears MISS without the history being anywhere if and only if the exclusive create fails with an error of the kind "does not exist" |
| MigrationHistory.ForsakenHappens | graph/rrdtool/migrate.go:186-193 | a single-flight run, in which the old node never reports absence, that ends like that |
| MigrationSafety.ClearedForGood | graph/rrdtool/migrate.go:340-352 | MISS, once cleared, stays cleared over every further run with one task in flight |
| MigrationLimits.ClearedNextIff | graph/rrdtool/migrate.go:294-352 | with any number of tasks, a step sets MISS again if and only if a task ends by writing back a flag with MISS |
| MigrationLimits.ClearedThroughoutIff | graph/rrdtool/migrate.go:294-352 | with any number of tasks, MISS stays cleared throughout a run if and only if no such step occurs in it |
| MigrationLimits.PartialWriteIsForGood | graph/rrdtool/sync_disk.go:78-91 | over every single-flight run a half-written file keeps its key blocked, with nothing written locally, if and only if no third attempt of a fetch is answered "does not exist" |
| MigrationLimits.StuckNextIff | graph/rrdtool/migrate.go:314-339 | the same for a single step |
| MigrationLimits.PartialWriteHappens | graph/rrdtool/migrate.go:327-339 | a run that leads there |
| MigrationLimits.TwoTasksResurrectMiss | graph/rrdtool/migrate.go:314-352 | a run with two tasks in which MISS comes back although the file is installed |
| MigrationOrder.OrderBreaksIff | graph/rrdtool/migrate.go:280-297 | in a single-flight run a step from an ordered node breaks the order if and only if it is the one that puts items back after the third failure and the oldest item received meanwhile is not newer than the newest one put back |
| MigrationOrder.RunInOrderIff | graph/rrdtool/migrate.go:271-297 | a run stays ordered throughout if and only if no such step occurs in it |
| MigrationOrder.RestoreKeepsOrderIff | graph/rrdtool/migrate.go:291-297 | the restoring step itself, on any ordered node |
| MigrationOrder.DisorderHappens | graph/api/graph.go:112-117 | a single-flight run after which an older item stands in front of a newer one with no task in flight |
| MigrateWorker.TryThreeTimes | graph/rrdtool/migrate.go:280-290 | success if any of at most three attempts succeeds, else the last error |
| MigrateWorker.Deliver | graph/rrdtool/migrate.go:273-292 | items leave memory exactly when some attempt succeeded, else the list is as before |
| MigrateWorker.SendData | graph/rrdtool/migrate.go:257-299 | send_data as a whole: items leave memory exactly on success, SENDING is clear again, an unknown key is an error |
| MigrateWorker.FetchRrd | graph/rrdtool/migrate.go:301-354 | the outcome of fetch and install, MISS cleared exactly on success, FETCHING clear, items untouched |
| MigrateWorker.PullTask | graph/rrdtool/migrate.go:176-203 | the dispatch: send when a pass runs late, else fetch, and commit locally when the error is classified as not-exist, be it the old node's answer or the failure of the install |
| MigrateWorker.SendTaskIsSendData | graph/rrdtool/migrate.go:257-299 | the stepwise send task, run alone, does what the method does |
| MigrateWorker.FetchTaskIsFetchRrd | graph/rrdtool/migrate.go:186-203 | the stepwise fetch task, run alone, does what the methods do |
| Inherit.ParentIds | hbs/cache/strategies.go:103-136 | stops within ten steps and returns the chain from root to template, or nothing |
| Inherit.ChainExact | hbs/cache/strategies.go:103-136 | the result is the parent chain if that has fewer than ten templates, and empty otherwise |
| Inherit.ChainUnique | hbs/cache/strategies.go:103-136 | a template has at most one chain |
| Inherit.ChainHasNoDuplicates | hbs/cache/strategies.go:103-136 | a chain never meets a template twice |
| Inherit.ContainedIffPrefix | hbs/rpc/hbs.go:221-228 | for chains, containment as sets, being a prefix and ancestry of the leaf are the same |
| Inherit.SliceIntContains | hbs/rpc/hbs.go:200-207 | membership |
| Inherit.SliceIntEq | hbs/rpc/hbs.go:209-219 | equality of lists |
| Inherit.SliceIntLt | hbs/rpc/hbs.go:221-228 | containment of lists as sets |
| Inherit.IsValidBucket | hbs/rpc/hbs.go:130-142 | a chain is dropped exactly when a different chain containing it comes before any copy of it |
| Inherit.UniqueBuckets | hbs/rpc/hbs.go:110-146 | the kept chains, in order |
| Inherit.DroppedIffAncestor | hbs/rpc/hbs.go:127-146 | for distinct bound templates: dropped if and only if the leaf is a proper ancestor of another bound template with a valid chain |
| Inherit.DroppedUnderKept | hbs/rpc/hbs.go:127-146 | every dropped chain is a prefix of a kept one, whatever is bound |
| Inherit.EliminationCompleteIff | hbs/rpc/hbs.go:135-137 | with repeated bindings all redundant chains are dropped if and only if each is unrepeated or follows an extension of itself |
| Inherit.UuidCollidesIff | hbs/rpc/hbs.go:164-164 | two strategies share an override key if and only if metric and tags agree, or one metric is the other, `/tags:` and more, and the other's tags make up for it |
| Inherit.UuidSeparates | hbs/rpc/hbs.go:164-164 | for slash-free metrics the override key tells metric and tags apart |
| Inherit.UuidCollides | hbs/rpc/hbs.go:164-164 | with a slash two different strategies can share a key |
| Inherit.EffectiveIsYoungest | hbs/rpc/hbs.go:156-177 | a strategy is effective if and only if its template is the youngest of the chain to define that metric and tags |
| Inherit.ResolveBucket | hbs/rpc/hbs.go:154-177 | the map built old to young holds, per key, exactly the effective strategies |
| Inherit.EmitBucket | hbs/rpc/hbs.go:179-194 | emits each of them whose id is new, once, carrying the leaf template |
| Inherit.CalcInheritStrategies | hbs/rpc/hbs.go:101-198 | each id once; nothing but effective strategies of kept chains, with the leaf of the first such chain; every effective id present |
| InheritAnswer.Tpl2Strategies | hbs/rpc/hbs.go:86-99 | per template exactly the cached strategies defined by it |
| InheritAnswer.GroupedIdsAreUnique | hbs/rpc/hbs.go:86-99 | ids are unique in that index, as the answer's uniqueness needs |
| InheritAnswer.AnswerIsUnique | hbs/rpc/hbs.go:179-194 | the map order decides the order of an answer, never its contents |
| InheritAnswer.SingleBindingOverrides | hbs/rpc/hbs.go:173-176 | bound once, the child's strategy replaces the parent's |
| InheritAnswer.DuplicateBindingLeaks | hbs/rpc/hbs.go:135-137 | bound twice, the parent's overridden strategy is sent too |
| InheritAnswer.ExtendedKeptIff | hbs/rpc/hbs.go:127-146 | a kept chain is continued by another kept one if and only if some redundant chain is repeated and does not follow an extension of itself |
| InheritAnswer.LeaksIff | hbs/rpc/hbs.go:148-198 | an id is sent that the maximal chains alone would not send if and only if a kept chain that another one continues has an effective strategy of that id which every maximal chain overrides |
| InheritAnswer.RetargetsIff | hbs/rpc/hbs.go:179-194 | a strategy goes out with another template than with the maximal chains alone if and only if the first kept chain that has it effective is continued by another one |
| InheritAnswer.DuplicateBindingRetargets | hbs/rpc/hbs.go:135-137 | bound twice with nothing overridden, the parent's strategy keeps the parent's template |
| JudgeWindow.SafeLinkedList.PushFrontAndMaintain | judge/store/linkedlist.go:116-141 | accepts a first item or a newer positive timestamp, trims to the newest, and says whether to judge |
| JudgeWindow.SafeLinkedList.ReadHistory | judge/store/linkedlist.go:45-107 | the newest points, or rates of neighbours for types other than gauge; enough exactly for limit, or limit+1, items |
| JudgeWindow.RateMeans | judge/store/linkedlist.go:84-100 | the older value plus rate times elapsed time is the newer value, and the rate is positive exactly for a counter that grew |
| JudgeWindow.WindowIsNewestRecords | judge/store/linkedlist.go:116-141 | over every stream the list is the newest accepted items, strictly decreasing in time |
| JudgeWindow.AcceptsIffRecord | judge/store/linkedlist.go:120-126 | comparing with the front item alone decides whether an item is newer than the whole past |
| JudgeFunc.ComputeMax | judge/store/func.go:37-53 | the maximum of the points, and the test of it |
| JudgeFunc.ComputeMin | judge/store/func.go:62-78 | the minimum of the points, and the test of it |
| JudgeFunc.ComputeAll | judge/store/func.go:87-103 | triggered if and only if all points satisfy the test |
| JudgeFunc.ComputeLookup | judge/store/func.go:113-132 | triggered if and only if the asked number is at least one and at least that many points satisfy the test |
| JudgeFunc.ComputeSum | judge/store/func.go:141-155 | the sum of the points, and the test of it |
| JudgeFunc.ComputeAvg | judge/store/func.go:164-178 | the mean of the points, and the test of it |
| JudgeFunc.ComputeDiff | judge/store/func.go:188-215 | triggered if and only if some older point differs enough; the left value is that of the newest such point |
| JudgeFunc.ComputePDiff | judge/store/func.go:269-296 | triggered if and only if some older non-zero point differs enough in percent; the left value is that of the newest such point |
| JudgeFunc.TestsMean | judge/store/func.go:347-364 | the six tests one by one, equality up to 0.0001; any other operator never fires |
| JudgeFunc.EqualityGap | judge/store/func.go:347-364 | the order tests are complementary; "==" and "!=" are so except at the tolerance itself |
| JudgeFunc.FiringMeans | judge/store/func.go:113-296 | diff and pdiff ask for one point more and fire when the newest point differs enough from an older one, pdiff in percent and skipping zeros; lookup fires by the number of points that satisfy the test |
| JudgeFunc.Evaluate | judge/store/func.go:37-215 | max, min, all, lookup, sum, avg and diff (and pdiff, lines 269-296) fire exactly by their meaning, with their left value |
| JudgeFunc.Compute | judge/store/func.go:37-215 | for these functions: no verdict without enough points, else the verdict over exactly the points asked for |
| JudgeCounter.EnoughIsGrounded | judge/store/linkedlist.go:60-104 | enough points means at least one, newest first, the newest being the judged item's |
| JudgeCounter.JudgeItemWith | judge/store/judge.go:59-81 | nothing happens without enough points, else the event decision on exactly those points |
| JudgeCounter.LastCheckMeans | judge/store/linkedlist.go:60-141 | an arrival is judged if and only if it is the first item, or positive and newer than all before, and the records kept with it are enough, one more for rates; the points of a gauge are the newest records |
| JudgeCounter.JudgeItemMap.PushFrontAndMaintain | judge/store/history.go:91-104 | updates the list of that key only, and judges a new key, whose list is just the item, or an accepted item |
| JudgeCounter.JudgeItemMap.CleanStale | judge/store/history.go:71-89 | removes exactly the keys whose newest item is older than the limit |
| JudgeCounter.StreamFormsEpisodes | judge/store/judge.go:26-29 | from raw items to saved events: whatever arrives, the alarms of a counter form episodes |
| JudgeEvent.Judge.SendEventIfNeed | judge/store/judge.go:208-285 | sends, saves or stays silent exactly as the decision table says, whose meaning over runs is TriggeredRaises and UntriggeredCloses |
| JudgeEvent.TriggeredRaises | judge/store/judge.go:208-268 | a triggered check after any run: on an ignored metric it is only sent; after nothing or a recovery it raises problem 1 unless the limit is zero; after problem k it raises problem k+1 if and only if k is below the limit, all its points are newer than that problem, and the interval has passed; nothing else is saved or sent |
| JudgeEvent.UntriggeredCloses | judge/store/judge.go:269-285 | any other check saves and sends the recovery of an open problem, of its kind, and does nothing otherwise |
| JudgeEvent.RunFormsEpisodes | judge/store/judge.go:208-285 | over every run and for every id, saved events form episodes: problems, each closed by at most one recovery of its kind; a recovery is never first nor twice in a row; only problems and recoveries are saved |
| JudgeEvent.EpisodesAreNumbered | judge/store/judge.go:242-269 | the problems of an episode are numbered 1, 2, ... and never pass the limit |
| JudgeEvent.WindowsDisjoint | judge/store/judge.go:257-261 | looking at the oldest point alone makes a window disjoint from the last event's |
| JudgeEvent.EpisodeWindowsDisjoint | judge/store/judge.go:257-268 | any two problems of an episode rest on disjoint windows, the later one strictly newer |
| JudgeExpr.RebuildExpressionMap | judge/cron/strategy.go:82-96 | files exactly the given expressions under exactly the keys of their tags |
| JudgeExpr.BuildKeysFromMetricAndTags | judge/store/judge.go:130-136 | exactly the keys of the item's tags and of its endpoint |
| JudgeExpr.FilterRelatedExpressions | judge/store/judge.go:138-182 | keeps exactly the expressions each tag of which equals the item's tag of that name or, for the tag endpoint of an item without one, the item's endpoint |
| JudgeExpr.EndpointIsMet | judge/store/judge.go:150-154 | an expression on an endpoint matches an ordinary item of it and shares a key with it |
| JudgeExpr.CheckExpression | judge/store/judge.go:103-128 | judges every matching expression reached through a key, each id once |
| JudgeExpr.JudgedIff | judge/store/judge.go:103-128 | for any metrics: judged, once, if and only if one of its keys is a key of the item and each of its tags is met in that way |
| JudgeExpr.IndexAgreesIff | judge/store/judge.go:103-128 | for any metrics: judged are exactly the expressions with a tag, the item's metric and matching tags, if and only if no matching expression about another metric shares a key with the item |
| JudgeExpr.IndexAgreesWithBruteForce | judge/cron/strategy.go:82-96 | so for slash-free metrics and unique ids always, and each once |
| JudgeExpr.SlashMisjudges | judge/cron/strategy.go:86-86 | with a slash in a metric a foreign expression can be judged |
| JudgeStrategy.RebuildStrategyMap | judge/cron/strategy.go:48-69 | under each key exactly the strategies sent for that host and metric, in order |
| JudgeStrategy.CheckStrategy | judge/store/judge.go:31-57 | judges, in order, those strategies under the item's key whose tags match |
| JudgeStrategy.KeysCollideIff | judge/cron/strategy.go:60-60 | two pairs of host and metric share a key if and only if they are equal or one host name continues the other across a slash that the metric makes up for |
| JudgeStrategy.StrategiesAgreeIff | judge/store/judge.go:31-57 | judged are the strategies sent for the endpoint that match metric and tags, in the order and as often as sent, if and only if no related strategy reaches the key through another host and metric |
| JudgeStrategy.StrategiesAgreeWithBruteForce | judge/store/judge.go:31-57 | so for slash-free host names always |
| JudgeStrategy.SlashInHostMisjudges | judge/cron/strategy.go:60-60 | with a slash in a host name a strategy sent for another host reaches the item |
| JudgeStrategy.SyncFilter | judge/cron/strategy.go:98-119 | collects exactly the metrics of the two maps |
| JudgeStrategy.FilterIsExact | judge/cron/strategy.go:98-119 | a metric passes if and only if some strategy sent or some tagged expression is about it |
| JudgeStrategy.DroppedItemsMatchNothing | judge/rpc/receiver.go:35-39 | an item that the filter drops would have matched no strategy and no expression |
| AggregatorGrammar.ValidIff | aggregator/cron/run.go:194-231 | the four patterns accept exactly the host count, whole numbers and well-formed formulas as written |
| AggregatorParse.Parse | aggregator/cron/run.go:152-176 | the pieces between delimiter runs, alternately operands and operators, the last one being the comparison |
| AggregatorParse.WrittenMode | aggregator/cron/run.go:163-174 | on a valid formula parse does not panic, and the last piece is the comparison as written |
| AggregatorParse.ParseFaithfulIff | aggregator/cron/run.go:152-176 | parse gives back what was written if and only if no counter holds a dollar sign, and then there is one operator fewer than operands |
| AggregatorCompute.FindsComparison | aggregator/cron/computer.go:56-60 | on a written comparison the groups of the pattern are its sign and its number |
| AggregatorCompute.CompareSum | aggregator/cron/computer.go:54-72 | the comparison of the sum with that number |
| AggregatorCompute.QueryOperands | aggregator/cron/computer.go:74-83 | all values are found if and only if as many values as counters come back, and then in order |
| AggregatorCompute.Compute | aggregator/cron/computer.go:23-52 | the signed sum from left to right, or 1 or 0 for its comparison; an error when a value is missing |
| AggregatorCompute.ValueIsDenoted | aggregator/cron/computer.go:23-52 | on the parts of a formula as written this is what the formula denotes, and no index is out of range |
| AggregatorCompute.FormulasMean | aggregator/cron/computer.go:33-72 | a sum, a difference and each of the five comparisons, by what they denote |
| AggregatorRun.OperatorsValid | aggregator/cron/run.go:233-241 | every operator is plus or minus |
| AggregatorRun.ValidRuns | aggregator/cron/run.go:190-231 | whatever expressionValid accepts can be computed without a panic, or is the host count or a whole number |
| AggregatorRun.FormulaIsComputed | aggregator/cron/run.go:152-176 | a formula without a dollar sign in its counters is computed as what it denotes, and its operators pass |
| AggregatorRun.DollarMisreads | aggregator/cron/run.go:152-176 | a counter with dollar signs is taken for the sum of two |
| AggregatorRun.SumHosts | aggregator/cron/run.go:69-110 | both sums run over the same hosts: those with all values of both sides |
| AggregatorRun.WorkerRun | aggregator/cron/run.go:29-150 | for sides that are formulas, the host count or whole numbers: pushes q if and only if some side is a formula, there is a host on which both denote, the denominator's sum over these hosts is not zero, and q times it is the numerator's sum; for all texts: nothing for an invalid side, else the ratio over the participating hosts |
| GoInts.MultipleIsMod | transfer/sender/sender.go:230-232 | the alignment used throughout is a zero remainder of Go's truncating division |
| AlarmPattern.PatternIff | falcon-message/util/util.go:49-49 | the pattern matches exactly name(#n) with an optional comma-separated second number |
| AlarmPattern.FrontMatchIff | falcon-message/util/util.go:49-52 | at one position at most one length matches, so greedy matching is deterministic |
| AlarmMessage.FindsLeftmostMatch | falcon-message/util/util.go:49-52 | the search finds the leftmost match of the pattern, or there is none |
| AlarmMessage.MatchIsFirstOccurrence | falcon-message/util/util.go:52-53 | searching the matched text again finds the match itself |
| AlarmMessage.HandleContent | falcon-message/util/util.go:37-83 | the parser, step by step, returns the message that the text means, or none |
| AlarmMessage.HandleInvertsRender | falcon-message/util/util.go:37-83 | the parser gives back everything printed if and only if the note has nothing that looks like a function |
| AlarmMessage.SmsRoundTrip | alarm/cron/builder.go:25-41 | the printed text message reads back completely (level, status, endpoint, note, function, metric, counts, time) if and only if the note has nothing that looks like a function |
| AlarmMessage.ImRoundTrip | alarm/cron/builder.go:43-76 | the same for the instant message, whose note carries the recovery suffix exactly for an OK event; the suffix neither makes nor hides a function |
| AlarmMessage.RecoveryIsMarked | alarm/cron/builder.go:43-76 | the instant message is the text message, of an OK event that of the note with the suffix |
| Nodata.NodataJudge.TurnOk | nodata/judge/status.go:47-67 | that key becomes OK with count 0 and the given time |
| Nodata.NodataJudge.TurnNodata | nodata/judge/status.go:69-89 | that key becomes NODATA with its count one higher |
| Nodata.NodataJudge.JudgeKey | nodata/judge/judge_cron.go:60-95 | one turn: nothing, OK, or NODATA with a mock |
| Nodata.NodataJudge.JudgeAll | nodata/judge/judge_cron.go:57-96 | every configured key gets exactly its own turn, no other key changes |
| Nodata.GenTsAligned | nodata/judge/judge_cron.go:103-109 | mock times are multiples of the step, two to three steps back |
| Nodata.MockIsNewer | nodata/judge/judge_cron.go:86-92 | a mock for stale data is strictly newer than the stale point |
| Nodata.PassMeans | nodata/judge/judge_cron.go:57-117 | after any run, what one more pass does: nothing without a point fetched well and lately; a mock, aligned two to three steps back, for the mock value itself or a stale point once a step has gone by since the last turn, and the count one higher; before that nothing; else OK with count 0 |
| Nodata.MocksNeverCollide | nodata/judge/judge_cron.go:57-117 | over every run with a clock that does not run backwards, mocks of a key are made at least a step apart, with strictly increasing aligned times |
| Nodata.CounterCountsNodataTurns | nodata/judge/status.go:47-89 | the count is the number of NODATA turns since the last OK, and 0 exactly in state OK |
| Nodata.NoStepNoSpacing | nodata/judge/judge_cron.go:103-106 | with a step below one two mocks collide |
| Sharding.AcceptsPowersOfTwo | graph/g/cfg.go:104-107 | the bit test accepts exactly the powers of two |
| Sharding.IndexInRange | graph/rrdtool/utils.go:26-40 | the worker index of a checksum is always in range |
| Sharding.EveryPrefix | graph/rrdtool/utils.go:34-34 | lower-case hex prefixes and numbers below 16^k are the same thing |
| Sharding.LoadOfBlocks | graph/rrdtool/utils.go:26-40 | below the 64-bit limit every block of n prefixes reaches every worker once |
| Sharding.BalancedIff | graph/rrdtool/utils.go:26-40 | every worker gets an equal share of the prefixes if and only if the count has at most fifteen hex digits, which every count whose channels can be allocated has |

## Left out

- Transport, MySQL, Redis, the RRD library, file system, clock and real timeouts: an rpc is an
  outcome per attempt, a file exists or not, a clock value is a parameter.
- Graph index, history caches, Info, Last and Delete of the graph node; their inputs to a query
  (type and step, cached items, stored points) are parameters.
- GraphQuery.Query: the stored or remote points must be contiguous and must not begin after the window, which is
  what rrdtool promises and what the merge relies on (graph/api/graph.go:252); negative slots, int64
  overflow and floating-point rounding are not modelled.
- GraphRateFlush.EndLabelsIff: the RRD library is the stated hypothesis `StoredAfter`: rows say what the
  recorded points say, the file's last one included; its heartbeat, interpolation and consolidation,
  and the conversion of counters beyond 64 bits, are not modelled.
- GraphFlush.CommitSound: a node on which popped items are never put back; MigrationOrder.RunInOrderIff is
  about one that does.
- GraphFlush.GraphNode.FlushAll: needs ten shards, because the progress line divides by a tenth of
  their number; a node whose map is resized or whose keys are removed during a pass is not modelled.
- Removal of keys together with flush runs, and reads of the local file by other nodes (GetRrd), which
  can flush a key in the middle of a migration.
- Forced flush during migration, and signals.
- Interleavings inside check-then-act sequences (First then PushFront, Get then Set): each handler is
  one step. The migration tasks are interleaved step by step.
- The classification of an error by `os.IsNotExist` is left free, for rpc errors as for install
  errors; which errors it recognises is a matter of the transport. Reconnection after a lost
  connection is part of an attempt.
- Strategies and events are values: that the shared strategy objects of the heartbeat cache are not
  changed by CalcInheritStrategies holds in the model by construction only.
- GetStrategies, GetBuiltinMetrics and the database queries of the heartbeat server.
- The stddev function and ParseFuncFromString of the judge; functions are given parsed.
- Floating-point rounding and NaN inside threshold functions and sums.
- The regular-expression engine: its patterns are given a declarative meaning, and the leftmost
  match is computed by a function proved against it.
- AggregatorRun.WorkerRun: the law in words is for formulas whose counters hold no dollar sign (see
  AggregatorRun.DollarMisreads); the query for the values is a parameter, and removing blanks from the
  expression and the periodic start of the workers are left out.
- AggregatorCompute.CompareSum: a number too large for a float64 is not told apart.
- AlarmMessage.HandleContent: an error and a panic are not told apart; a sixth piece that is not ASCII
  yields no message, because the byte length is used to cut a rune slice there; the time is kept as
  text, and a predicate says which texts are times.
- AlarmMessage.HandleInvertsRender: the fields hold no closing bracket, the metric and the compared
  values no blank; values end up among the tags, as the parser has it.
- The mail text of the alarm component, and all other senders.
- Sharding.BalancedIff: a count of sixteen hex digits passes the configuration check, but the process
  would have to allocate that many channels first (graph/rrdtool/sync_disk.go:49-54).
- Sharding.IndexInRange: the checksum is made of hex digits; a negative worker count, which the bit
  test lets through only for the smallest integer, is not modelled.
- Agent collectors, plugins, dashboards, configuration files, logging and statistics counters.
