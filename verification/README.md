# Storage scan statistics

A Dafny model of the statistics engine of a storage-chain indexer, of the storage status
writer it interferes with, and of the batched chain-data retrieval it is fed by, with proofs
of what they promise. `dafny verify dfyconfig.toml` checks all of it.

## What is modelled

**The chain data** (`Ledger.dfy`). The event tables and the block table change by pushed
blocks, by pops of blocks above the finalized head, and by that head rising. What is settled
is final, over any history; every statistic below rests on it.

**The incremental rankings** (`TopnSpec`, `GoHeap`, `BoundedTopn`, `TopnMachine`,
`TransactionCounts`, `TopnReward`, `TopnSubmit`). Batches of finalized positions add group
sums to miner or address rows and rebuild bounded min-heaps from "old heap plus updated rows"
alone; rows, heap snapshot and cursor are committed together, and the heap in memory, re-sorted
inside the transaction, is not rolled back. The heaps are objects with Go's `container/heap`
sifting over `Swap`, `Push` and `Pop`. One column with the shared table and cursor is a state
machine; the tasks are classes whose rounds are proved to be steps of it (the submit task of
four machines at once), and whose whole operation, from an empty database through any script
of rounds, failures, restarts and registrations, is proved to be a run that does what the
script says. In every state of every run the stored list is a top-n of the whole table, rank
by rank the only one there is, and the rows hold every event up to the cursor; rounds without
failures reach the settled end.

**The counters** (`Totals`, `Expired`, `PrunedFiles`). Per-address counts, a stored total and
its copy in memory. The total is raised in memory before the transaction, so it leaks when a
transaction fails; both modules say exactly when. The pruned counter relies on a status that
other writers may reset; the model says exactly what that does to the counts.

**The windowed statistics** (`TimeCounts`, `Windows`, `Calendar`, `Multiples`). Windows of the
fine interval write their own row and rewrite the rows of their hour and day, with totals
carried from row to row. `Calendar` is the calendar form of the range start.

**The recent-sender buckets** (`TopnRange`). Short windows from an arbitrary instant, hourly
buckets, retention.

**Batched retrieval** (`BatchFetch`). Chunked block requests, grouping of logs, and the checks
for re-orgs, against a fixed view of what the node answers, right or wrong.

## What does not hold as one might expect

- The transaction column of the sender ranking counts a transaction once per batch it has
  submissions in (`TransactionCounts.TxsExactIffNoneStraddles`).
- The expired and the pruned totals count the files of a failed attempt again
  (`Expired.TotalIsExactIff`, `Expired.RetryCountsTwice`, `PrunedFiles.TotalIsExactIff`,
  `PrunedFiles.FailedPageCountsTwice`).
- With an expiry time of zero a file can be counted as expired before it is finalized
  (`Expired.ExpiredIsSettledIff`, `Expired.ZeroExpiryCountsPopped`).
- A counted pruned file can be reset and counted again, since `query` in
  `store/store_submit.go:307-338` does not select the status that `sync/storage.go:76-81`
  looks at (`PrunedFiles.RowsAreExactIff`, `PrunedFiles.RoundKeepsExactIff`,
  `PrunedFiles.ResetFileCountsTwice`).
- With an hourly fine interval the windowed statistics never commit, with a daily one at most
  once (`Windows.FirstWindowFitsIff`, `Windows.HourlyStaysEmpty`, `Windows.DailyCommitsOnce`).
- When the recent-sender windows start at "now minus the span", buckets are off by what
  straddles an hour, and one second may be counted twice (`TopnRange.FaithfulIffAligned`,
  `TopnRange.RunKeepsBuckets`).
- A batch of blocks can succeed although a single one of them would be refused, exactly when
  the node mixes the numbers of the range up (`BatchFetch.AllSucceedIff`,
  `BatchFetch.FetchSwapped`).

## Assumptions

- Events come in ascending block, position and time order; a block has one time and a
  transaction one block. The finalized head never goes back and pops stay above it.
- A transaction reports an error only if nothing of it is committed.
- `MaxSubmissionIndexFinalized` and `MaxSubmissionIndexExpired` order by a column with ties and
  take one row; the model takes the highest position of the tie, as a backward index scan
  gives. `TransactionCounts.ShorterRetryBreaksRanking` shows why it matters.
- `FirstBlockAfterTime` takes the lowest number of equally early blocks. `Topn` may break ties
  either way.
- Loop variables are per iteration, as of Go 1.22, the language version of the module.
- Amounts are natural numbers, positions and totals do not overflow, and JSON is the identity
  on the rows it stores. Stored times are UTC.
- Clocks, the finalized block, node answers and failures are parameters of the methods.

## Model

| member | source | states |
|---|---|---|
| Ledger.SettledIsFinal | store/store.go:107-287 | Whatever the syncer does in one step (push a block with its events, pop blocks above the finalized head, raise that head), the settled events stay in place and what settles later lies at or behind the old settled end. |
| Ledger.SettledForever | store/store.go:107-287 | The same over any history of pushes, pops and finalizations. |
| Ledger.BeforeSelects | store/store.go:241-287 | Dropping the blocks from a number on keeps exactly the events below it. |
| Ledger.UnsettledIsLater | store/store_submit.go:354-366 | The last finalized position separates the settled events from the others. |
| Ledger.QueryIsSettled | store/store_submit.go:391-405 | A grouped query that ends at or below the last finalized position sees settled events only: sums, distinct transactions and groups. |
| Ledger.SettledQueryIsFinal | store/store_submit.go:391-405 | Such a query is answered alike at every later time. |
| Ledger.SumSplits | store/store_submit.go:391-405 | Sums of adjacent position ranges add up, for each owner. |
| Ledger.TxsSplit | store/store_submit.go:391-405 | Distinct-transaction counts of adjacent ranges exceed that of the whole by the transactions in both. |
| Ledger.GainIsZero | store/store_submit.go:391-405 | An owner without a group in the range gains nothing in any column. |
| Ledger.GainGrows | store/store_submit.go:391-405 | A longer range gains at least as much. |
| Ledger.OneEventGains | store/store_submit.go:391-405 | The columns of a single event: its length, its fee, one file and one transaction, for its owner and its position alone. |
| Ledger.GainsAppend | store/store_submit.go:391-405 | Sums of two lists of events add up, transactions and owners unite: with the single event this fixes every column of every list. |
| Ledger.CountsAreNumbers | store/store_submit.go:391-405 | count(*) is the number of the events of the group, count(distinct) the number of transactions among them, and there is a group exactly for the owners with events. |
| Ledger.SumsAreTotals | store/store_submit.go:391-405 | sum(length) and sum(fee) are the sums of the lengths and of the fees of the events of the group. |
| Ledger.SettledIsFinalized | store/store_submit.go:354-366 | Settled are exactly the events at or below the finalized head, and the last finalized position is that of the last of them. |
| TopnSpec.TopnIsUnique | stat/topn_reward.go:291-311 | Two ranked top-n lists of one table show the same key at every rank: ties and missing zeros aside, the list is a function of the table. |
| TopnSpec.RankIsValue | stat/topn_reward.go:291-311 | The key of a rank below n exceeds a value exactly if more ids than those ranked before it do. |
| TopnSpec.SelectionIgnoresOrder | stat/topn_reward.go:260-275 | The keys kept by the selection loop do not depend on the order in which Go visits the map. |
| TopnSpec.SelectionIsTopn | stat/topn_reward.go:260-275 | min(n, number of candidates) candidates with distinct ids, none smaller than a dropped one, are a top-n of the candidates. |
| TopnSpec.RebuildKeepsTopn | stat/topn_reward.go:260-289 | Selecting from "old list plus updated rows" alone turns a top-n of the old values into a top-n of the new values, when values never fall. |
| TopnSpec.FullListStaysAbove | stat/topn_reward.go:260-289 | A full old list keeps the new list full and above everything that was outside. |
| TopnSpec.PermutedTopn | stat/topn_reward.go:219-236 | Reordering a stored list keeps it a top-n. |
| TopnSpec.EntriesOfDistinct | stat/topn_reward.go:277-289 | Deduplicating a list with distinct ids loses no entry. |
| GoHeap.RootIsMinimum | stat/topn_reward.go:157-160 | In a min-heap no value is below the one at index 0. |
| GoHeap.DescendingHeapIsFlat | stat/topn_reward.go:291-311 | A descending slice, as the snapshot leaves it, is a min-heap only if all its keys are equal. |
| GoHeap.UpStep | stat/topn_reward.go:159-170 | One sift-up exchange moves the only violated edge one level up. |
| GoHeap.DownStep | stat/topn_reward.go:159-180 | One sift-down exchange with the smaller child moves the only violated edges one level down. |
| GoHeap.Heap.Swap | stat/topn_reward.go:159-163 | Exchanges two entries and keeps every entry's index equal to its place. |
| GoHeap.Heap.Push | stat/topn_reward.go:165-170 | The raw push appends and sets the index; it does not restore the heap order. |
| GoHeap.Heap.Pop | stat/topn_reward.go:172-180 | The raw pop removes the last entry and sets its index to -1. |
| GoHeap.Heap.Up | stat/topn_reward.go:153-180 | The sift-up of Go's container/heap over this Swap: a heap violated at one leaf becomes a min-heap with the same entries. |
| GoHeap.Heap.Down | stat/topn_reward.go:153-180 | The sift-down of Go's container/heap: a heap violated at the root becomes a min-heap with the same entries. |
| GoHeap.Heap.HeapPush | stat/topn_reward.go:153-180 | heap.Push: min-heap order and indices are kept, the entries are the old ones and the new one. |
| GoHeap.Heap.HeapPop | stat/topn_reward.go:153-180 | heap.Pop: returns a minimum, with index -1; order and indices are kept, the rest of the entries stays. |
| BoundedTopn.QueryTopn | store/store_address.go:492-515 | The whole-table query: a top-n of the table, in descending order. |
| BoundedTopn.CandidateKeys | stat/topn_reward.go:277-289 | The deduplicated rows carry the candidate keys of the ranking. |
| BoundedTopn.KeptIsRebuild | stat/topn_reward.go:260-275 | The finished selection loop holds a selection from the old entries and the updated rows, each of them an unchanged row. |
| BoundedTopn.SnapshotIsResorted | stat/topn_reward.go:291-311 | A descending permutation of the selection is the re-sorted list. |
| BoundedTopn.BoundedHeap.Deduplicate | stat/topn_reward.go:277-289 | Maps ids to entries: the updated row where there is one, otherwise the old entry object itself. |
| BoundedTopn.BoundedHeap.Offer | stat/topn_reward.go:264-273 | One turn of the selection loop: below n entries push, above the minimum replace, otherwise drop. |
| BoundedTopn.BoundedHeap.Select | stat/topn_reward.go:264-274 | The whole loop, in any order: a valid min-heap holding a largest min(n, candidates) part of the candidates. |
| BoundedTopn.BoundedHeap.Rebuild | stat/topn_reward.go:260-275 | A new min-heap selected from old entries and updated rows; sort without the assignment of the field. |
| BoundedTopn.BoundedHeap.Sort | stat/topn_reward.go:260-275 | The field is replaced by the rebuilt heap. |
| BoundedTopn.BoundedHeap.Drain | stat/topn_reward.go:291-300 | Popping everything yields the values in descending order when filled from the back. |
| BoundedTopn.BoundedHeap.Snapshot | stat/topn_reward.go:291-311 | Needs a min-heap, returns all values in descending order, leaves the slice in that order with fresh entries. |
| BoundedTopn.BoundedHeap.Resort | stat/topn_reward.go:105-121 | Re-sort then snapshot: the snapshot always starts from a freshly built min-heap, and list and slice are the re-sorted list. |
| BoundedTopn.BoundedHeap.Load | stat/topn_reward.go:219-236 | Pushing a stored list into an empty heap gives a valid min-heap with the same multiset of values. |
| TopnMachine.NextEnd | stat/topn_reward.go:61-84 | There is a next batch if and only if the cursor is below the settled end; it is a full one, or ends there. |
| TopnMachine.StepKeepsSound | stat/topn_reward.go:61-144 | Every step (sync, registered row, commit, failed transaction after the re-sort, restart) keeps the invariant: stored list a top-n of the table, heap a top-n as of the cursor or of the end of a failed batch. |
| TopnMachine.ResortReflects | stat/topn_reward.go:86-144 | Re-sorting a heap that has already looked ahead, with the rows of a batch that ends no earlier, gives a top-n as of the end of the batch. |
| TopnMachine.FailKeepsSound | stat/topn_reward.go:105-136 | A failed transaction leaves a heap ahead of the table, by no more than the next attempt covers. |
| TopnMachine.CommitKeepsSound | stat/topn_reward.go:105-140 | A commit makes table, list, heap and cursor agree, also after failed attempts over shorter ranges. |
| TopnMachine.BootKeepsSound | stat/topn_reward.go:206-258 | A restart rebuilds memory from the stored list and cursor. |
| TopnMachine.SyncKeepsSound | store/store.go:107-287 | Chain growth, re-orgs above the finalized head and finalization disturb nothing that was counted. |
| TopnMachine.CommittedValue | stat/topn_reward.go:93-103 | Committing moves exactly the counted-ahead value into the table. |
| TopnMachine.RunIsSound | stat/topn_reward.go:61-144 | The invariant holds in every state of every run. |
| TopnMachine.StoredListIsTopn | stat/topn_submit.go:86-144 | In every state of every run the stored list is a ranked top-n of the whole table, although a batch looks only at the old heap and the updated rows. |
| TopnMachine.StoredListAgreesWithTable | stat/topn_submit.go:86-144 | Rank by rank it shows what ranking the whole table again would show. |
| TopnMachine.StoredRankIsValue | stat/topn_submit.go:86-144 | In every state of every run the key of each rank is the value of that rank in the table. |
| TopnMachine.RowsCountEventsOnce | stat/topn_submit.go:61-144 | Exactly once: a row is its initial value plus its owner's events from the start up to the cursor (every column but the transaction count), across failures, retries and restarts. |
| TopnMachine.CursorDeterminesResult | stat/topn_reward.go:61-144 | Two runs that have reached the same cursor agree on every row and every rank, whatever failed in either. |
| TopnMachine.AttemptIsStep | stat/topn_reward.go:86-144 | A round is a step of the machine: nothing to do, a committed batch, one that failed after the re-sort, or before it. |
| TopnMachine.RunContinues | stat/topn.go:27-55 | Runs are closed under steps: the endless loop produces runs. |
| TopnMachine.RoundsReach | stat/topn_reward.go:61-84 | On a chain that stands still, k rounds without a failure advance the cursor by k full batches, or to the settled end. |
| TopnMachine.RoundsCatchUp | stat/topn_reward.go:61-84 | As many rounds as there are batches to count reach the settled end. |
| TopnMachine.CaughtUpRows | stat/topn_reward.go:61-144 | There, every row holds all settled events from the start position on. |
| TransactionCounts.TxsExceedByRepeats | store/store_submit.go:391-405 | The transaction column exceeds the number of distinct transactions by exactly those met again in a later batch. |
| TransactionCounts.TxsExactIffNoneStraddles | store/store_submit.go:391-405 | It is exact if and only if no transaction of the owner has submissions on both sides of a batch boundary. |
| TransactionCounts.SplitTransactionCountsTwice | stat/topn_submit.go:61-116 | A run in which one transaction is counted twice. |
| TransactionCounts.ShorterRetryBreaksRanking | store/store_submit.go:354-366 | Were the last finalized position allowed to be any position of the last finalized block, then after a first start a failed batch and a shorter retry would store a list that is no top-n. |
| TopnReward.BatchesCompose | stat/topn_reward.go:86-103 | Two adjacent batches leave the miner rows that one batch over both would leave. |
| TopnReward.RowAfterBatch | stat/topn_reward.go:93-103 | The row of any miner after a batch, touched or not. |
| TopnReward.UpdatesMatch | stat/topn_reward.go:93-103 | The rows of a batch carry the updates of the state machine in the ranked column. |
| TopnReward.BatchIsStaged | stat/topn_reward.go:105-121 | What the transaction is about to write is what the machine stages. |
| TopnReward.Database.GroupByMiner | store/store_reward.go:195-208 | One group per miner with a reward in the blocks, with the sum of its rewards and their number. |
| TopnReward.GroupOfOne | store/store_reward.go:195-208 | The group of a single reward: its miner, its amount, one win. |
| TopnReward.TopnReward.constructor | stat/topn_reward.go:31-59 | Starting the task is the machine's restart: heap from the stored list, or from the table when there is none; cursor behind the stored block. |
| TopnReward.TopnReward.NextStatRange | stat/topn_reward.go:61-84 | A range if and only if the cursor is below the settled end: from the cursor, a full batch or up to that end; otherwise the reason. |
| TopnReward.TopnReward.CollectUpdates | stat/topn_reward.go:87-103 | The rows to write are the stored ones plus the groups. |
| TopnReward.TopnReward.Stage | stat/topn_reward.go:105-121 | Row writes, re-sort and snapshot inside the transaction; nothing is in the database yet. |
| TopnReward.TopnReward.Commit | stat/topn_reward.go:123-140 | Rows, list and cursor reach the database together, then the memory cursor moves. |
| TopnReward.TopnReward.Transact | stat/topn_reward.go:105-141 | A failed transaction leaves the tables alone and the heap possibly re-sorted; a successful one commits the batch. |
| TopnReward.TopnReward.CalculateStat | stat/topn_reward.go:86-144 | The method commits the machine's batch exactly when nothing fails, and otherwise leaves tables and cursor as they were. |
| TopnReward.TopnReward.Attempt | stat/topn.go:32-54 | One round of the loop: it commits if and only if nothing fails and there is something to count, and is exactly the round of the machine. |
| TopnReward.TopnReward.Register | store/store_address.go:341-362 | A miner registered by another task gets a row with value 0. |
| TopnReward.RowsAfterRound | stat/topn_reward.go:86-144 | Any round keeps every row equal to the one before, plus its miner's rewards up to the cursor, in amount and number of wins. |
| TopnReward.CatchUp | stat/topn.go:27-55 | The loop without failures on a still chain pauses when every settled reward has been counted. |
| TopnReward.Operate | stat/topn.go:27-55 | From the first start, any script of attempts with any failures, restarts and registrations, under any chain history, is a run that does what the script says; every reward up to the stored block is in the rows once, and the stored list is a top-n of the miner table, largest first. |
| TopnReward.Round | stat/topn.go:32-54 | The chain moves, then an attempt, a restart or a registration happens: the run goes on, and what the task now holds is the old objects or new ones. |
| TopnReward.ListIsTopn | stat/topn_reward.go:105-140 | At the end of any run the list in the database is a top-n of the miner table in the database, largest first. |
| TopnSubmit.UpdatedColumn | stat/topn_submit.go:104-115 | Each of the four columns of an updated row is the stored value plus the group's. |
| TopnSubmit.BatchKeepsAddress | stat/topn_submit.go:106-108 | A batch changes no address text. |
| TopnSubmit.UpdatesMatch | stat/topn_submit.go:92-116 | The rows of a batch carry, in every column, the updates of that column's state machine. |
| TopnSubmit.Database.GroupBySender | store/store_submit.go:391-405 | One group per sender with a submit at the positions: the sums of its lengths and fees, its submits and its distinct transactions. |
| TopnSubmit.GroupOfOne | store/store_submit.go:391-405 | The group of a single submit: its length as data size, its fee as storage fee, one transaction, one file. |
| TopnSubmit.HeapSet.Resort | stat/topn_submit.go:336-387 | All four heaps are re-sorted from their own entries and the same updated rows. |
| TopnSubmit.HeapSet.Load | stat/topn_submit.go:294-307 | Each heap holds the multiset of its stored list. |
| TopnSubmit.HeapSet.Init | stat/topn_submit.go:310-334 | Each heap and its first list are a ranked top-n of the table in its column. |
| TopnSubmit.Boot | stat/topn_submit.go:251-308 | No stored list: first start; all four: restart; any other number is fatal. Both starts are restarts of every column's machine, with a new task over new heaps. |
| TopnSubmit.RestartSucceeds | stat/topn_submit.go:285-292 | In a state where every column has a stored list, as in every state of a run, the fatal case cannot arise. |
| TopnSubmit.TopnSubmit.constructor | stat/topn_submit.go:49-59 | The cursor resumes behind the stored submission index, or at 0. |
| TopnSubmit.TopnSubmit.NextStatRange | stat/topn_submit.go:61-84 | A range if and only if the cursor is below the settled end: from the cursor, a full batch or up to that end; otherwise the reason. |
| TopnSubmit.TopnSubmit.CollectUpdates | stat/topn_submit.go:87-116 | The rows to write are the stored ones plus the groups. |
| TopnSubmit.TopnSubmit.ColumnStaged | stat/topn_submit.go:403-458 | A re-sorted column is staged as its machine says, or left alone by an empty batch. |
| TopnSubmit.TopnSubmit.StageHeaps | stat/topn_submit.go:119-129 | Inside the transaction all four columns are staged, or none when there is no group. |
| TopnSubmit.TopnSubmit.Commit | stat/topn_submit.go:119-141 | Rows, four lists and cursor are committed together: every column's machine commits the batch. |
| TopnSubmit.TopnSubmit.Transact | stat/topn_submit.go:118-139 | Success commits the batch in all four columns; failure in none. |
| TopnSubmit.TopnSubmit.CalculateStat | stat/topn_submit.go:86-144 | The same for the whole method, with failures before, inside and after the re-sort. |
| TopnSubmit.TopnSubmit.Attempt | stat/topn.go:32-54 | One round of the loop: it commits if and only if nothing fails and there is something to count, is exactly the round of each column's machine, over the one shared table and cursor, and leaves heaps and entries that are the old ones or new. |
| TopnSubmit.TopnSubmit.Register | store/store_address.go:44-65 | An address registered by another task gets a row with zeros. |
| TopnSubmit.EveryListIsTopn | stat/topn_submit.go:86-144 | In every state of a history whose columns are runs, each of the four lists is stored and is a ranked top-n of its column. |
| TopnSubmit.AllListsStored | stat/topn_submit.go:285-292 | In every such state all four lists are in the database, so a restart is never fatal. |
| TopnSubmit.RunsContinue | stat/topn.go:27-55 | A step of all four machines continues the history: every column stays a run. |
| TopnSubmit.Start | stat/topn_submit.go:31-47 | The first start begins a run in every column. |
| TopnSubmit.Act | stat/topn_submit.go:86-144 | An attempt, a restart or a registration does to all four machines what it says, keeps every address text, and leaves old objects or new ones. |
| TopnSubmit.Round | stat/topn.go:32-54 | The chain moves, then one of these happens: all four runs go on. |
| TopnSubmit.RowsCount | stat/topn_submit.go:86-116 | Every row is the one before, plus its sender's lengths, fees and submits up to the stored position, and its transactions with their repeats. |
| TopnSubmit.CaughtUpRow | stat/topn_submit.go:61-116 | At the settled end every settled submit is in the row of its sender. |
| TopnSubmit.CatchUp | stat/topn.go:27-55 | The loop without failures on a still chain pauses at the settled end. |
| TopnSubmit.Operate | stat/topn.go:27-55 | From an empty database, any script of attempts with any failures, restarts and registrations, under any chain history: every column is a run that does what the script says, no restart is fatal, every submit up to the stored position is in the rows, and each of the four stored lists is a ranked top-n of its column of the address table. |
| Expired.ExpiredIsSettledIff | stat/stat_submit_expired.go:98-114 | The expired files are at or below the finalized head if and only if the expiry time is positive or no file above that head is as old as the finalized block. |
| Expired.ExpiredIsSettled | stat/stat_submit_expired.go:98-114 | With an expiry time of at least a second every batch ends at or below the last finalized position. |
| Expired.ZeroExpiryCountsPopped | stat/stat_submit_expired.go:98-114 | With an expiry time of zero, a run in which a file is counted, popped, and stays counted. |
| Expired.GroupTotalIsCount | stat/stat_submit_expired.go:126-133 | The groups' file counts add up to the number of events in the range. |
| Expired.StepKeepsAccount | stat/stat_submit_expired.go:68-161 | Every action keeps the account: rows exact, totals ahead by the leak. |
| Expired.RunIsAccounted | stat/stat_submit_expired.go:68-161 | After every action of every run each address has exactly its files below the cursor, and both totals are the number of those files plus the leak. |
| Expired.TotalExceedsRowsByLeak | stat/stat_submit_expired.go:119-161 | The stored total exceeds the sum of the address rows, in any listing, by exactly the stored leak. |
| Expired.TotalIsExactIff | stat/stat_submit_expired.go:119-161 | The stored total is right if and only if no failed attempt with files was followed by a commit with files before a restart. |
| Expired.RetryCountsTwice | stat/stat_submit_expired.go:119-161 | One file, one failed attempt and its retry: the total says two. |
| Expired.StatSubmitExpired.constructor | stat/stat_submit_expired.go:42-87 | Starting reloads total and cursor, storing a zero total when there is none. |
| Expired.NextEndReaches | stat/stat_submit_expired.go:89-117 | There is a batch if and only if an expired file lies at or behind the cursor; it ends behind the last of them, or is a full one. |
| Expired.StatSubmitExpired.NextStatRange | stat/stat_submit_expired.go:89-117 | The range of the next batch, up to the last file that has expired. |
| Expired.StatSubmitExpired.CatchUp | stat/topn.go:27-55 | The loop without failures on a still chain pauses when every expired file has been counted. |
| Expired.StatSubmitExpired.CollectUpdates | stat/stat_submit_expired.go:125-134 | The total in memory is raised by all groups before the transaction. |
| Expired.StatSubmitExpired.AddToRows | store/store_address.go:127-158 | The delta upsert adds each group to its row. |
| Expired.StatSubmitExpired.CalculateStat | stat/stat_submit_expired.go:119-161 | The method is the machine's commit, its failed attempt, or nothing when reading fails. |
| Expired.StatSubmitExpired.Attempt | stat/topn.go:32-54 | One round of the loop: nothing, or the commit or the failed attempt that the machine enables. |
| Expired.Database.GroupBySender | store/store_submit.go:391-405 | One group per sender, with its number of files. |
| Totals.LeakHistory | stat/stat_submit_expired.go:119-161 | A total raised in memory before its transaction has leaked exactly when a failed attempt was followed by a commit of the same process; the memory copy is ahead exactly while one is pending. |
| PrunedFiles.GetFileInfo | rpc/storage.go:98-126 | For each status read and each report of the node: whether there is an update, and which status it carries. |
| PrunedFiles.StepKeepsRow | stat/stat_submit_pruned.go:81-134 | Every action changes an address's count by the files newly counted. |
| PrunedFiles.PageMarksSelected | stat/stat_submit_pruned.go:81-128 | A committed page marks the pruned submits of its page and touches no other submit. |
| PrunedFiles.RowsCountPruned | stat/stat_submit_pruned.go:81-134 | In every state of every run PrunedFiles of an address is its number of PrunedCounted submits plus the times such a submit lost that status. |
| PrunedFiles.RowsAreExactIff | stat/stat_submit_pruned.go:75-135 | All counts are exact if and only if no counted submit was written or removed. |
| PrunedFiles.InformedRunsAreExact | rpc/storage.go:98-126 | When every writer has read the current status and no counted submit is removed, all counts stay exact: statuses only rise. |
| PrunedFiles.CountedAgainOnlyAfterLoss | stat/stat_submit_pruned.go:75-135 | A submit is counted as often as it has lost its status, and once more while it is PrunedCounted. |
| PrunedFiles.ResetFileCountsTwice | sync/storage.go:61-90 | A run in which a counted file among the latest is reset and counted again. |
| PrunedFiles.FailedPageCountsTwice | stat/stat_submit_pruned.go:106-131 | One file, a failed page and its retry: the stored total says two, one file is counted. |
| PrunedFiles.AskedFileIsReset | store/store_submit.go:307-338 | A counted submit among the latest keeps its status only if the node knows nothing of it, since the query behind it does not select the status. |
| PrunedFiles.TotalIsAccounted | stat/stat_submit_pruned.go:106-131 | The totals are the files of committed pages plus the leak of failed ones. |
| PrunedFiles.TotalIsExactIff | stat/stat_submit_pruned.go:106-131 | The stored total is the number of files counted if and only if no failed page was followed by a committed one before a restart. |
| PrunedFiles.Database.QueryPruned | store/store_submit.go:301-338 | The pruned submits of the page, ascending. |
| PrunedFiles.StatSubmitPruned.constructor | stat/stat_submit_pruned.go:35-54 | Starting reloads the total, storing zero when there is none. |
| PrunedFiles.StatSubmitPruned.GroupBySender | stat/stat_submit_pruned.go:101-106 | One list per sender, with all its files of the page. |
| PrunedFiles.StatSubmitPruned.SumUp | stat/stat_submit_pruned.go:108-114 | Counts per sender, all ids, and the memory total raised by their number, in any order of the senders. |
| PrunedFiles.StatSubmitPruned.WritePage | stat/stat_submit_pruned.go:116-128 | The transaction: counts added, statuses set, total stored. |
| PrunedFiles.StatSubmitPruned.CountPage | stat/stat_submit_pruned.go:91-131 | One page is the machine's page action, committed or failed; without pruned submits nothing can fail. |
| PrunedFiles.StatSubmitPruned.Scan | stat/stat_submit_pruned.go:75-135 | The scan ends: an error on an empty table; a complete scan has counted every pruned submit once and leaves none; an interrupted one, and one that cannot read a page, keep the pages before; one that cannot commit a page keeps them too and has the page in its memory total. |
| PrunedFiles.PageOfScan | stat/stat_submit_pruned.go:91-133 | Pages are disjoint and cover the positions below the next one. |
| PrunedFiles.StorageSyncer.QueryDesc | store/store_submit.go:291-338 | The latest submits, none with its status. |
| PrunedFiles.StorageSyncer.LatestFiles | sync/storage.go:61-90 | Writes what the node reports for each of the latest submits, counted ones included, and nothing else: it is a sequence of Observe actions. |
| PrunedFiles.RoundObserves | sync/storage.go:61-90 | The writes of a round of the syncer are Observe actions of the machine, one for each file, read without its status. |
| PrunedFiles.RoundContinuesRun | sync/storage.go:61-90 | A round after a run is again a run, with the state that the syncer leaves. |
| PrunedFiles.RoundKeepsExactIff | sync/storage.go:61-90 | After a round all counts are exact if and only if they were before and the node knew nothing of any counted file among the latest. |
| PrunedFiles.StatSubmitPruned.MaxSubmissionIndex | store/store_submit.go:340-352 | The largest submission index, and none for an empty table. |
| PrunedFiles.StorageSyncer.UpdateFileInfos | store/store.go:331-367 | Each row with an update gets the reported status; the others stay. |
| TimeCounts.CountSplits | store/store_submit.go:169-180 | Counts of adjacent time windows add up, distinct transactions included, as a transaction has one block time. |
| TimeCounts.OneEventCount | store/store_submit.go:169-180 | The counts of a single submit: one file, its length, its fee, one transaction. |
| TimeCounts.CountsAppend | store/store_submit.go:169-180 | Files, lengths and fees of two lists of submits add up. |
| TimeCounts.CountIsNumber | store/store_submit.go:169-180 | What the four columns are: the number of submits in the window, the sums of their lengths and fees, and the number of distinct transactions among them, which is no larger. |
| TimeCounts.ClosedWindowIsFinal | stat/stat.go:179-205 | Once a block at or after the end of a window is finalized, no later step changes an event before that end. |
| TimeCounts.ClosedCountForever | stat/stat.go:179-205 | Over any history all counts of a closed window stay as they are. |
| TimeCounts.FirstBlockDecides | stat/stat.go:188-202 | Looking at the first block after the end is enough: it is finalized if any such block is. |
| TimeCounts.FirstBlockAfterTime | store/store_block.go:85-97 | The earliest block at or after a time. |
| Windows.RangeStartIsBoundary | stat/stat.go:98-107 | The last boundary before the end of a window does not lie inside the window when the large interval is a multiple of the small one. |
| Windows.PeriodAlignment | stat/stat_submit.go:58-72 | Some window ends on each hour and day boundary: a period never starts inside a window. |
| Windows.WrittenRowIsRight | stat/stat_submit.go:87-140 | A written row counts its period so far, and its total, carried from the previous row or counted afresh, is everything before the window's end. |
| Windows.WindowKeepsReported | stat/stat_submit.go:58-85 | A window makes exactly the rows of the periods reached so far, all of them right. |
| Windows.NextStartIsLast | stat/stat_submit.go:36-56 | The next window starts where the last one ended. |
| Windows.RunIsReported | stat/stat_submit.go:36-140 | In every state of every run the table holds exactly the fine, hour and day rows of the time covered, each with the count of its period and of all time before its end, up to the end of the last window. |
| Windows.FinishedRowIsFinal | stat/stat_submit.go:72-84 | A row whose period is over is never changed again. |
| Windows.ProperRowsFit | store/store_submit.go:446-458 | In a run the three rows never violate the unique index. |
| Windows.FirstWindowFitsIff | store/store_submit.go:446-458 | From an hour-aligned start the first window is let in if and only if the fine interval is below an hour, or is a day and the start is not a day boundary. |
| Windows.HourlyStaysEmpty | stat/stat_submit.go:58-85 | With an hourly fine interval the table stays empty in every state of every run. |
| Windows.DailyCommitsOnce | stat/stat_submit.go:58-85 | With a daily one the table is empty or holds exactly the rows of the first window, in every state of every run. |
| Windows.EveryRowIsRight | stat/stat_submit.go:36-140 | Whatever the fine interval: in every state of every run each row counts its period, and everything before the period's end, up to the end of the last window. |
| Windows.RowsAreNumbers | stat/stat_submit.go:87-140 | So every row holds, in every state of every run, the numbers of submits and distinct transactions and the sums of lengths and fees, in its period and before the period's end. |
| Windows.DueWindowIsWritten | stat/stat.go:147-177 | In a run with a fine interval below an hour, a window whose end has passed and that is closed is let in, and the time covered grows by it. |
| Windows.IntervalsNest | store/store_submit.go:423-436 | A minute is sixty seconds, and each longer interval ten, six and twenty-four of the next shorter one. |
| Windows.Database.LastByType | store/store_submit.go:474-484 | The time of the last row of a type. |
| Windows.StatSubmit.NextTimeRange | stat/stat_submit.go:36-56 | The window behind the last fine row, or the first one. |
| Windows.StatSubmit.TryAcquireTimeRange | stat/stat.go:179-205 | Yields the next window if and only if its end has passed and the window is closed; otherwise the reason. |
| Windows.StatSubmit.CalculateStat | stat/stat_submit.go:58-85 | Deletes and rewrites hour and day row and adds the fine row with the numbers of its window, or changes nothing; it succeeds exactly when nothing fails and the unique index lets the rows in. |
| Windows.StatSubmit.Attempt | stat/stat.go:147-177 | One round of the loop writes the next window if and only if it is due, the index lets it in and nothing fails; then it is a step of the machine. |
| Calendar.RangeHoldsTime | stat/stat.go:88-113 | For hour, day and month the range start is a boundary below the time, and the next boundary is not below it. |
| Calendar.RangeIsUnique | stat/stat.go:88-113 | No other boundary has that property, across months, years and leap years. |
| Calendar.UnixKeepsOrder | stat/stat.go:88-113 | Calendar order is the order of Unix time. |
| Calendar.RangeStartIsArithmetic | stat/stat.go:98-107 | For hours and days the calendar computation is the arithmetic on Unix seconds that the windowed statistics use. |
| Calendar.MonthStart | stat/stat.go:93-97 | A month starts at midnight of its first day; a time that is the first instant of a month belongs to the month before. |
| Calendar.MonthLengths | stat/stat.go:88-113 | The lengths of the months, by their alternation, and February by the leap years. |
| Calendar.KnownDays | stat/stat.go:88-113 | The Unix times of some known days, before and after the epoch and around leap days. |
| TopnRange.WindowsCover | stat/topn_submit_range.go:38-66 | The windows leave no gap from any start instant and overlap only between the first two, by the part of a second that the stored start drops. |
| TopnRange.SecondCountedTwiceIff | stat/topn_submit_range.go:100-102 | A block time is counted twice if and only if the first start was not a whole second and it is the second window's start. |
| TopnRange.FaithfulIffAligned | stat/topn_submit_range.go:68-76 | Every second is counted once and in the bucket of its own hour if and only if the first start is a multiple of the interval. |
| TopnRange.HourCountsGrow | stat/topn_submit_range.go:68-92 | From any first start, a window adds its sender's events to the bucket of the hour it starts in and changes no other. |
| TopnRange.WindowKeepsBuckets | stat/topn_submit_range.go:68-104 | From any first start, a window keeps all retained buckets right. |
| TopnRange.RunKeepsBuckets | stat/topn_submit_range.go:38-105 | From any first start, in every state of every run each retained bucket holds exactly its sender's events from the first window that starts in its hour to the first one that starts later, as far as windows have come, and once more the second in which the first two windows overlap. |
| TopnRange.AlignedBucketIsHour | stat/topn_submit_range.go:38-105 | From a start on the grid that is exactly the events of its hour. |
| TopnRange.TopnSubmitRange.NextTimeRange | stat/topn_submit_range.go:38-66 | An interval behind the stored start; without one the configured start or the span before now, whichever is later. |
| TopnRange.TopnSubmitRange.NoBucketBeforeFirst | stat/topn_submit_range.go:44-58 | In a run from there no bucket ends before the configured start or before the retained span. |
| TopnRange.BucketsFromFirst | stat/topn_submit_range.go:68-92 | Buckets are full hours, none before that of the first start. |
| TopnRange.RunFollowsWindows | stat/topn_submit_range.go:38-66 | The windows of a run are those of the sequence. |
| TopnRange.WindowSeconds | store/store_submit.go:407-421 | The whole seconds a window counts are exactly those inside it. |
| TopnRange.SenderCounts | store/store_submit.go:407-421 | What a window adds for a sender: its submits, the sums of their lengths and fees, and its distinct transactions; there is a group exactly for the senders with submits. |
| TopnRange.AddedAt | stat/topn_submit_range.go:68-92 | A window adds to the buckets of its hour and retention drops those before the limit; the others stay. |
| TopnRange.TopnSubmitRange.Upsert | store/store_submit.go:581-617 | Each sender's counts of the window are added to its bucket. |
| TopnRange.TopnSubmitRange.Retain | store/store_submit.go:619-625 | Drops exactly the hours that start before the limit. |
| TopnRange.TopnSubmitRange.TryAcquireTimeRange | stat/stat.go:179-205 | Yields the next window if and only if its end has passed and the window is closed. |
| TopnRange.TopnSubmitRange.CalculateStat | stat/topn_submit_range.go:68-105 | Bucket, retention and cursor change together or not at all. |
| TopnRange.TopnSubmitRange.Attempt | stat/stat.go:147-177 | One round of the loop counts the next window if and only if its end has passed, it is closed and nothing fails; then it is a step of the machine. |
| BatchFetch.BatchGetBlocks | rpc/blockchain.go:281-334 | The distinct numbers are cut into chunks of at most the batch size, each number in one chunk; it succeeds exactly when every number has a block and comes back as some block's number; from an honest node each number gets its own block. |
| BatchFetch.GetChunks | rpc/blockchain.go:292-325 | The chunk loop ends, cuts the list in order into chunks of the batch size, the last possibly shorter, and fails exactly on a missing block. |
| BatchFetch.FetchSwapped | rpc/blockchain.go:327-331 | A node that swaps two blocks: the batch over both succeeds, and each of the two alone fails with block not found. |
| BatchFetch.FetchedIsFiled | rpc/blockchain.go:317-331 | After a successful batch the block filed under a number is the one answer that carries it, in whatever order the answers came. |
| BatchFetch.OneArrives | rpc/blockchain.go:327-331 | A single number passes the check if and only if the node answers it with its own block, and otherwise fails with the reason. |
| BatchFetch.BlocksOfRange | rpc/blockchain.go:72-84 | The blocks of a range, each under the number it carries, exactly when all are there and carry the numbers of the range; otherwise the reason. |
| BatchFetch.RangeKeepsLogs | rpc/blockchain.go:181-186 | Grouping a range's logs by block loses none and keeps their order. |
| BatchFetch.GroupByBlock | rpc/blockchain.go:181-186 | Each block's logs in the order they came. |
| BatchFetch.ValidateLogs | rpc/blockchain.go:211-240 | The logs that name a transaction of the block, each once and in order; any of them that disagrees is a re-org. |
| BatchFetch.GetEthDataBatchByLogs | rpc/blockchain.go:174-251 | For any node: the batch succeeds if and only if logs and blocks are there, the blocks carry the numbers of the range, and the logs of each number agree with the block filed under it; each block then comes with its logs in order; with the reason of a failure. |
| BatchFetch.GetEthDataByLogs | rpc/blockchain.go:148-161 | A single block, exactly when it carries its own number and its logs agree, with the reason of a failure. |
| BatchFetch.AllSucceedIff | rpc/blockchain.go:174-251 | Every block of a range alone succeeds if and only if the batch does and the node answers each number of the range with its own block; then both work with the same blocks. |
| BatchFetch.AllReceiptsSucceedIff | rpc/blockchain.go:72-136 | The same for receipts. |
| BatchFetch.SuccessIsConsistent | rpc/blockchain.go:221-240 | What a successful fetch returns for a block is every log of the block that names one of its transactions, each agreeing on block and transaction hash. |
| BatchFetch.LogsKeepOrder | rpc/blockchain.go:219-238 | The logs returned for a block are picked by a strictly ascending list of places: exactly those with its number and a transaction of the block. |
| BatchFetch.AgreementMeans | rpc/blockchain.go:221-240 | The logs agree if and only if each that names a transaction of the block carries the hashes of the block and of the last transaction with that index. |
| BatchFetch.TxByIndexIsLast | rpc/blockchain.go:213-219 | The index map holds the last transaction of each index. |
| BatchFetch.FittingMeans | rpc/blockchain.go:91-125 | The receipts fit if and only if there is one per transaction, in order, each with the number asked for and the hashes of block and transaction. |
| BatchFetch.ReceiptsAreFiled | rpc/blockchain.go:102-125 | Each transaction hash is filed with the receipt of the last transaction that has it. |
| BatchFetch.LogsInMembers | rpc/blockchain.go:253-264 | The logs of a range are those with a number in it. |
| BatchFetch.AssembleByReceipts | rpc/blockchain.go:91-132 | The receipts of a block, one for each transaction, each agreeing; with the reason of a failure. |
| BatchFetch.GetEthDataBatchByReceipts | rpc/blockchain.go:72-136 | For any node: the batch succeeds if and only if the blocks carry the numbers of the range and the receipts of each number fit the block filed under it; the error is that of the blocks or of the first number that does not fit. |
| BatchFetch.GetEthDataByReceipts | rpc/blockchain.go:46-59 | A single block, exactly when it carries its own number and its receipts fit, with the reason of a failure. |

## Left out

- TopnMachine.RowsCountEventsOnce: leaves out the transaction column, for which `TransactionCounts.TxsExceedByRepeats` states what holds instead.
- TopnMachine.CursorDeterminesResult: leaves out the transaction column, whose rows depend on where the batches were cut.
- Expired.RunIsAccounted: with an expiry time of zero it speaks of runs whose batches ended at or below the last finalized position; `Expired.ExpiredIsSettledIff` says when a batch does.
- Windows.RunIsReported: names the rows for the fine intervals of one and of ten minutes; `Windows.HourlyStaysEmpty` and `Windows.DailyCommitsOnce` name them for the other two, `Windows.EveryRowIsRight` speaks of all four. Starts are aligned to hours, as the service sets them.
- BatchFetch.GetEthDataBatchByLogs: a nil block in a batch, at which the original stops, is not modelled.
- Dead checks: a grouped log always has its block's number, and the transaction found by an index always has that index, so the two checks are folded into one comparison.
- `UpdatedAt`, uploaded segment numbers in the submit table, block hashes in the block table, first mining times and storage classes: they do not take part in what is proved.
- Reading and writing are not interleaved inside one round: between the queries of a round and its transaction the model lets nothing else happen.
- The storage syncer and the API read submits and write their statuses in separate steps; `PrunedFiles` allows any interleaving of the writes, but the HTTP requests and the parallel collection of results are not modelled.
- Sleeping, contexts, wait groups, mutexes, logging, metrics and alerts.
- The other windowed statistics (`stat/stat_address.go`, `stat/stat_miner.go`, `stat/stat_reward.go`, `stat/stat_da_submit.go`, `stat/stat_da_client.go`) and `stat/topn_reward_range.go`: the same shapes again. `stat/stat_da_signer.go` seeds its total from another table.
- SQL text, partitions, the DA tables, the API and the contract bindings.
