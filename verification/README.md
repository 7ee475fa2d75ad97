# Verified cores of a game-server framework

This project models the state-heavy cores of the framework in Dafny and proves what they keep over
every run: the indexable skip list and the leaderboard on top of it, the concurrent task dispatcher,
the write/close protocol of a connection, the set of pending RPC calls, the cron parser and its
next-fire search, the blueprint loader and interpreter, the ring-buffer deque, the message cache, the
length-prefixed frames, and the discovery master's registry.

`dafny verify dfyconfig.toml` checks everything.

| file | what it models |
|---|---|
| `Words`, `Modulus`, `Counting`, `Paths` | machine words, Go's remainder, occurrence counts, paths in a graph |
| `SkipTowers`, `SkipList`, `SkipOrder`, `SkipIterator` | the skip list with link widths and reused scratch arrays, its order, its iterator |
| `BinaryHeap`, `CallTimerHeap`, `CallSet` | a binary heap as `container/heap` runs it, the timer heap with its index map, pending calls |
| `RankExpire`, `RankOrder`, `RankSkip`, `RankTopK`, `RankQuery`, `RankRuns` | the expiry heap, record order, the board with its three indexes, streaming top-k, queries, whole runs |
| `Dispatcher`, `NetConn` | two concurrent protocols as step relations |
| `CronTime`, `CronNext`, `CronText`, `CronParse`, `CronSchedule` | the UTC calendar, the search, text functions, the parser, from text to the next second |
| `BlueprintLoad`, `BlueprintWays`, `BlueprintRun` | preparation of execution links, how often a node is prepared, the interpreter |
| `RingMask`, `Deque` | masking and the circular view, the deque |
| `BiSearch`, `MemoryQueue` | binary search, the in-memory tail of a topic, message numbers |
| `Framing` | frames on a byte stream |
| `NodeTTL`, `Discovery` | the expiry list and the registry |

Objects that the source updates in place are classes whose methods state the new state in terms of the
old one. The two protocols are step relations: a run is any sequence of enabled steps of any goroutine,
and the theorems hold after every run. Heights of skip-list nodes, clock readings and socket outcomes
are parameters, so every statement holds for all of them.

## Model

| member | source | states |
|---|---|---|
| `SkipList.SkipList.Search` | util/algorithms/skip/skip.go:226-250 | the first node not below the key and its position, and per level the last node below it with its position; the early return on an empty list still leaves usable scratch arrays |
| `SkipList.SkipList.SearchByPosition` | util/algorithms/skip/skip.go:262-291 | the node at a position found by summing link widths, and the predecessors per level |
| `SkipList.SkipList.InsertNode` | util/algorithms/skip/skip.go:116-164 | a node of any height goes in at the position found, every link and every non-nil width is right again; an equal entry is replaced instead |
| `SkipList.SkipList.Insert` | util/algorithms/skip/skip.go:331-346 | the contents with the entry in its place, or with the equal entry replaced and returned |
| `SkipList.SkipList.Delete` | util/algorithms/skip/skip.go:380-428 | exactly the equal entry goes and is returned; links, widths, back links, level and scratch arrays are right again |
| `SkipList.SkipList.Get` | util/algorithms/skip/skip.go:293-310 | the stored entry equal to the key, or none |
| `SkipList.SkipList.GetWithPosition` | util/algorithms/skip/skip.go:312-320 | the first entry not below the key and its index, equal or not |
| `SkipList.SkipList.ByPosition` | util/algorithms/skip/skip.go:322-329 | the p-th entry for every p, none past the end |
| `SkipList.SkipList.InsertAtPosition` | util/algorithms/skip/skip.go:348-362 | the entry at the given index, or at the end for an index past it |
| `SkipList.SkipList.ReplaceAtPosition` | util/algorithms/skip/skip.go:364-378 | the p-th entry overwritten; the list stays well formed if and only if p is not 2^64-1 or the list is empty |
| `SkipList.SkipList.SplitAt` | util/algorithms/skip/skip.go:166-191 | the contents cut after the index, both halves with right links, widths, level and scratch arrays; null exactly when nothing is left to the right |
| `SkipOrder.InsertingSorted` | util/algorithms/skip/skip.go:226-250 | inserting keeps the order strict, under any lawful comparison, and changes only the equal entry |
| `SkipOrder.DeletingSorted` | util/algorithms/skip/skip.go:380-414 | deleting keeps the order strict and removes exactly the equal entry |
| `SkipOrder.StoredAt` | util/algorithms/skip/skip.go:312-329 | a stored entry is found at its own index, so look-up by value and by position are inverse |
| `SkipOrder.RunAll` | util/algorithms/skip/skip.go:116-164 | after every sequence of inserts and deletes with every choice of heights the list is well formed and holds the strictly sorted sequence that the operations stand for |
| `SkipOrder.ReplayHolds` | util/algorithms/skip/skip.go:331-414 | the sequence that a run stands for has exactly the entries inserted after the last operation on an equal one |
| `SkipIterator.Iterator.Next` | util/algorithms/skip/iterator.go:31-45 | one entry forward, past the end to nowhere |
| `SkipIterator.Iterator.Prev` | util/algorithms/skip/iterator.go:47-61 | one entry back along the back links |
| `SkipIterator.Iterator.Value` | util/algorithms/skip/iterator.go:63-71 | the entry that the iterator stands at |
| `SkipIterator.Iterator.Exhaust` | util/algorithms/skip/iterator.go:73-82 | the sorted suffix from the iterator's place on |
| `SkipIterator.IterAtPosition` | util/algorithms/skip/skip.go:434-450 | an iterator at the p-th entry, or an exhausted one |
| `SkipIterator.Iter` | util/algorithms/skip/skip.go:452-469 | an iterator at the first entry not below the key |
| `BinaryHeap.PushedHeap` | rpc/rpctimer.go:62-67 | a push leaves a heap of the old items and the new one |
| `BinaryHeap.CutHeap` | rpc/rpctimer.go:43-60 | a pop or removal leaves a heap of exactly the other items |
| `BinaryHeap.FixedHeap` | sysservice/rankservice/RankDataExpire.go:94-110 | re-timing an item and fixing leaves a heap of the other items and the re-timed one |
| `CallTimerHeap.CallTimerHeap.Swap` | rpc/rpctimer.go:31-35 | two timers trade places and the index map follows |
| `CallTimerHeap.CallTimerHeap.AddTimer` | rpc/rpctimer.go:62-67 | one timer more, at its fire time |
| `CallTimerHeap.CallTimerHeap.Cancel` | rpc/rpctimer.go:52-60 | exactly the timer of the number goes; false if there is none |
| `CallTimerHeap.CallTimerHeap.PopTimeout` | rpc/rpctimer.go:69-80 | the earliest timer exactly when it is due, and 0 with nothing changed otherwise; number 0 as a timer is covered |
| `CallTimerHeap.CallTimerHeap.PopFirst` | rpc/rpctimer.go:82-88 | the earliest timer, due or not; 0 with nothing changed exactly on an empty heap, up to a timer numbered 0 |
| `CallSet.CallSet.GenerateSeq` | rpc/callset.go:142-144 | the next number, which is not 0 and was never given out before, until the counter wraps to 0; map and timers go on agreeing in any case |
| `CallSet.CallSet.AddPending` | rpc/callset.go:73-86 | the call is pending and has a timer at its time; number 0 is refused |
| `CallSet.CallSet.RemovePending` | rpc/callset.go:88-107 | the call if it is still pending, handed out, and exactly its timer gone |
| `CallSet.CallSet.CheckTimeout` | rpc/callset.go:43-71 | one round hands out the earliest due call; its map entry is always found |
| `CallSet.CallSet.Sweep` | rpc/callset.go:43-71 | a sweep hands out only due calls, in fire order, and leaves none due when it stops by itself |
| `CallSet.CallSet.CleanPending` | rpc/callset.go:121-140 | every pending call is handed out once, in fire order, and nothing stays |
| `CallSet.RunAll` | rpc/callset.go:43-144 | a run of any operations is a chain of states, each made from the one before as its operation says: numbers given in order, calls added under unused numbers only, responses, sweeps and disconnects handing out exactly the calls they should; map, timer array and index map agree in each, every added call is pending or handed out exactly once, and a call that was ever pending is pending at the end or was handed out since |
| `CallSet.NoneLost` | rpc/callset.go:43-140 | along every such chain a call pending in one state is still pending, unchanged, in every later one, or has been handed out in between; nothing handed out is forgotten |
| `RankOrder.CompareMoreThan` | sysservice/rankservice/RankFunc.go:33-52 | 1 if and only if at the first index where the vectors differ, within both, the first one has the larger number; -1 if and only if the second one has; 0 otherwise |
| `RankOrder.CompareIsEqual` | sysservice/rankservice/RankFunc.go:18-31 | true exactly for equal vectors |
| `RankOrder.RankCmpMeaning` | sysservice/rankservice/RankData.go:75-109 | a record comes first on an ascending board exactly when at the first index where the vectors differ it has the smaller number, on a descending one the larger; vectors that differ nowhere leave it to the keys |
| `RankOrder.BoardLawful` | sysservice/rankservice/RankData.go:75-109 | on records with distinct keys and vectors of one length both comparisons are total orders |
| `RankExpire.RankDataHeap.PushOrRefresh` | sysservice/rankservice/RankDataExpire.go:94-110 | the key's item has the new time, the others are as they were, back indices agree |
| `RankExpire.RankDataHeap.RemoveExpireKey` | sysservice/rankservice/RankDataExpire.go:112-121 | exactly the key's item goes |
| `RankExpire.RankDataHeap.PopExpireKey` | sysservice/rankservice/RankDataExpire.go:79-92 | the front of the heap, which is the item refreshed longest ago, if it has expired; 0 stands for none |
| `RankSkip.RankSkip.PickOne` | sysservice/rankservice/RankSkip.go:47-60 | one purge round; the indexes go on agreeing if and only if the front of the expiry heap has not both expired and key 0 |
| `RankSkip.RankSkip.PickExpireKey` | sysservice/rankservice/RankSkip.go:47-60 | the purge pops what the heap's fronts say, expired ones only, in order of refresh; nothing expired stays unless 128 rounds were used or key 0 was met; the indexes agree afterwards if and only if key 0 was not met |
| `RankSkip.RankSkip.UpsetRank` | sysservice/rankservice/RankSkip.go:236-311 | a key on the board gets the new vector, time stamp and data, with missing data taken over only when the vector changed; a new key is refused exactly when the board is full and its last record is not beaten, and otherwise exactly that last record leaves; key map, record and timed keys are given exactly, and the bound is kept |
| `RankSkip.RankSkip.UpsetExisting` | sysservice/rankservice/RankSkip.go:237-293 | the record keeps its place and gets new data, or is replaced by one with the new vector; missing data is taken over only in the second case; the expiry is refreshed |
| `RankSkip.RankSkip.UpsetNew` | sysservice/rankservice/RankSkip.go:295-311 | a full board takes a new key if and only if it beats the last record, which then leaves with its timer; the new record has the given vector, data and time stamp, and its key is timed |
| `RankSkip.RankSkip.CheckInsertAndReplace` | sysservice/rankservice/RankSkip.go:444-473 | room on a board that is not full; otherwise the last record is evicted exactly when the newcomer is strictly better |
| `RankSkip.RankSkip.ChangeExtendData` | sysservice/rankservice/RankSkip.go:152-234 | the record's vector is the increased and overwritten one, with int64 wrap-around, its data is carried over and its expiry refreshed; a missing key is inserted under the same condition as below |
| `RankSkip.Unchanging` | sysservice/rankservice/RankSkip.go:158-183 | when the test for a change finds none the new vector equals the old one |
| `RankSkip.NewVectorAt` | sysservice/rankservice/RankSkip.go:104-125 | each number of the new vector is that of the last set request for its position, and without one the old number increased, with int64 wrap-around |
| `RankSkip.RankSkip.InsertDataOnNonExistent` | sysservice/rankservice/RankSkip.go:95-138 | a missing key is inserted, with its initial data, the changed initial vector and a timer, exactly when asked for and all set positions are in range |
| `RankSkip.RankSkip.UpdateRankData` | sysservice/rankservice/RankSkip.go:140-150 | new data and a refreshed expiry for a key on the board, and no other record touched |
| `RankSkip.RankSkip.DeleteRankData` | sysservice/rankservice/RankSkip.go:313-331 | exactly the given keys leave all three indexes, other records keep their times, and the count is that of those present |
| `RankTopK.FeedAll` | sysservice/rankservice/RankSkip.go:295-309 | any number of first-time keys offered to an empty bounded board leave min(k, n) records, each one of the entries fed; every entry is kept or lost, and no lost vector is better than a kept one where they first differ, in both modes |
| `RankRuns.RunAll` | sysservice/rankservice/RankSkip.go:95-331 | every run of upsets, changes, updates, deletions and purges from an empty board, with non-zero keys, is a chain of boards, each with the vectors, times and data that its operation should make of the one before: refusal and eviction, changed vectors, refreshed times, data written, kept or taken over, exactly the expired keys purged; in each the keys are ranked strictly and the three indexes hold the same ones |
| `RankRuns.LinkedAt` | sysservice/rankservice/RankSkip.go:95-331 | each single board of such a chain agrees and each single operation has done its part |
| `RankRuns.ZeroKeyStuck` | sysservice/rankservice/RankSkip.go:53-56 | a board with key 0 whose indexes disagree after a purge |
| `RankQuery.RankOfKey` | sysservice/rankservice/RankSkip.go:334-343 | the record is looked up, the board purged and the record ranked: 0 for a missing key, the record and one more than the number of records before it for a key still on the board; a record that the purge takes out comes back blank, and its rank is 1 unless the board is descending and holds key 0 |
| `RankQuery.RankIsPlace` | sysservice/rankservice/RankSkip.go:341-342 | for a key on the board that rank is its 1-based place |
| `RankQuery.ExpiredAnswer` | sysservice/rankservice/RankSkip.go:334-343 | a key that is on the board when it is asked for and gets a blank record at rank 1 of an empty board |
| `RankQuery.ByRank` | sysservice/rankservice/RankSkip.go:346-354 | after the purge, the record at a 1-based rank, none for rank 0 and past the end |
| `RankQuery.KeyNextToLimit` | sysservice/rankservice/RankSkip.go:386-412 | the record of the key and those behind it, up to the count, with their ranks; an error exactly for a missing key |
| `RankQuery.KeyPrevToLimit` | sysservice/rankservice/RankSkip.go:357-383 | the record of the key and those before it, up to the count, with their ranks; an error exactly for a missing key |
| `Dispatcher.FoldQueues` | concurrent/concurrent.go:70-72 | a positive id names its remainder by 10000 and one more, a negative one that of its positive counterpart mirrored at one; an id names no queue exactly when it is 0 or a negative one congruent to -1 |
| `Dispatcher.SerialSafe` | concurrent/dispatch.go:97-112 | a finish event always finds its session non-empty |
| `Dispatcher.InvStep` | concurrent/dispatch.go:53-190 | every step of every goroutine keeps all invariants |
| `Dispatcher.AllRuns` | concurrent/dispatch.go:53-190 | no run pops an empty session, and every reachable state has the invariants: one active task per queue, submission order, no lost wake-up, live workers counted and bounded, the closing handshake |
| `Dispatcher.OneAtATime` | concurrent/dispatch.go:97-151 | two workers never hold tasks of one queue, none holds one while its finish event waits, and the active task is the front of its session or about to be pushed |
| `Dispatcher.Partition` | concurrent/dispatch.go:114-151 | a task is in exactly one of task channel, dispatcher's hand, session tail, worker and done if it was accepted, in none otherwise |
| `Dispatcher.StartedInOrder` | concurrent/worker.go:34-76 | in every reachable state the tasks of a queue have started in submission order, the five-way partition holds, and no task has started twice |
| `Dispatcher.NilAfterWorkers` | concurrent/dispatch.go:174-190 | no callback of a worker follows the nil, which is sent only when every worker has returned |
| `Dispatcher.CallbacksSent` | concurrent/worker.go:68-71 | told from the steps of a run: the callback of a task was sent, or its worker is about to send it, exactly as often as its fn returned true |
| `Dispatcher.CallbackFirst` | concurrent/worker.go:68-76 | a task that is done, or whose finish event is still to be sent, has sent its callback once for each time its fn asked for it, and never otherwise |
| `Dispatcher.FnRuns` | concurrent/worker.go:34-64 | the fn of a task has returned, or is running in one worker, exactly as often as the task was started |
| `Dispatcher.FinishOnce` | concurrent/worker.go:73-76 | a queue has had one finish event for each of its done tasks |
| `Dispatcher.TasksTold` | concurrent/concurrent.go:74-85 | the task channel holds what the steps submitted and did not yet take, in that order |
| `Dispatcher.EventsTold` | concurrent/dispatch.go:161-163 | the event channel holds the finish events that the steps sent and did not yet take, in that order |
| `Dispatcher.CallbacksTold` | concurrent/dispatch.go:165-190 | the callback channel holds the callbacks that the steps sent and did not yet take, in that order |
| `Dispatcher.StartedTold` | concurrent/dispatch.go:114-128 | exactly the tasks that the dispatcher handed to a worker have started, in that order |
| `Dispatcher.DoneTold` | concurrent/worker.go:68-76 | exactly the tasks whose last step was taken are done: the finish event for a queued task, otherwise the callback, or the end of fn without one |
| `Dispatcher.NeverStuck` | concurrent/dispatch.go:53-151 | however short the channels are: while an accepted task is not done and the dispatcher has not stopped, a worker or the dispatcher can move as soon as the callback channel has room |
| `Dispatcher.CloseGoesOn` | concurrent/dispatch.go:75-88 | a closing dispatcher without live workers goes on to wait for them, and while it waits either one of them can return or the nil can be sent |
| `Dispatcher.StopsWhenTold` | concurrent/dispatch.go:83-88 | the dispatcher stops only after Close |
| `Dispatcher.CallsGoOn` | concurrent/dispatch.go:90-159 | what callers and the timer can always do: submit while the task channel has room, send and take callbacks, close, tell a waiting worker to exit |
| `NetConn.AllRuns` | network/conn.go:32-123 | under every interleaving nobody sends on a closed channel, closes it twice, or blocks on a send under the lock |
| `NetConn.SocketSeesPrefix` | network/conn.go:41-68 | the buffers handed to the socket are a prefix of those accepted, in order |
| `NetConn.ReleasedOnce` | network/conn.go:32-68 | no buffer is released twice, and once the writer has exited each accepted or refused buffer has been released exactly once |
| `NetConn.WriteDoes` | network/conn.go:101-123 | in every reachable state: a Write that finds closeFlag clear and room puts its buffer behind everything accepted; with closeFlag set it gives the buffer back; with the channel full it gives the buffer back and closes the connection |
| `NetConn.CloseDoes` | network/conn.go:84-93 | in every reachable state: a Close that finds closeFlag clear and room puts the nil behind everything accepted and sets closeFlag; with closeFlag set it does nothing; with the channel full it closes the channel |
| `NetConn.DestroyDoes` | network/conn.go:68-82 | a Destroy closes the channel and sets closeFlag, or does nothing when it is set |
| `NetConn.WriterSends` | network/conn.go:47-60 | a writer at its loop hands the first buffer to the socket and gives it back, and goes on exactly if the socket took it |
| `NetConn.ChannelTold` | network/conn.go:41-113 | told from the steps of a run: what passed the tests of Write and Close is, in that order, what was taken from the channel, what waits in it and what is about to be sent |
| `NetConn.RefusedTold` | network/conn.go:101-123 | exactly those buffers are refused whose Write found closeFlag set or the channel full |
| `NetConn.AcceptedTold` | network/conn.go:101-123 | exactly the buffers that passed the test are accepted, or about to be sent |
| `NetConn.NothingLost` | network/conn.go:46-66 | unless a socket write has failed, a writer that has left its loop has handed every accepted buffer to the socket, and none will be accepted any more: an orderly Close loses no buffer; after Destroy, which closes the socket, writes fail |
| `NetConn.ClosedForGood` | network/conn.go:84-123 | once closeFlag is set nothing more is accepted, whatever is called |
| `NetConn.NoDeadlock` | network/conn.go:46-123 | in every reachable state somebody can move, unless the lock is free and the writer has exited or waits at an open and empty channel; with closeFlag set it has then exited |
| `NetConn.Finishes` | network/conn.go:46-123 | while no further call begins, a bounded number of steps is left; with closeFlag set a run that goes on as long as somebody can move ends with the writer gone and every accepted or refused buffer released once |
| `CronTime.NextDayNumber` | util/timer/cronexpr.go:216-227 | the next calendar day has the next day number and the next week day, across months, leap days and centuries |
| `CronTime.EpochWeekday` | util/timer/cronexpr.go:174-187 | 1 January 1970 was a Thursday |
| `CronTime.NextSecond` | util/timer/cronexpr.go:190-195 | adding a second skips none |
| `CronTime.ValidDates` | util/timer/cronexpr.go:216-227 | the dates are those of the table of month lengths, with 29 February exactly in years divisible by 4 and not by 100, or by 400 |
| `CronTime.DayNumberClosed` | util/timer/cronexpr.go:174-187 | day numbers, and so week days, in closed form over years that start in March, with (153 * m + 2) / 5 days before the m-th month |
| `CronTime.EarlierSeconds` | util/timer/cronexpr.go:190-195 | a time is earlier exactly when its number of seconds is smaller |
| `CronTime.NextSecondNumber` | util/timer/cronexpr.go:190-195 | the next second has the next number of seconds |
| `CronNext.DayRule` | util/timer/cronexpr.go:174-187 | two restricted day fields are alternatives, an unrestricted one leaves the decision to the other |
| `CronNext.Next` | util/timer/cronexpr.go:190-268 | the least second after the given one that matches all six fields; none exactly when there is none through the end of the year after that of the upcoming second; the search ends |
| `CronText.SplitJoin` | util/timer/cronexpr.go:86-95 | splitting undoes joining |
| `CronText.JoinSplit` | util/timer/cronexpr.go:86-95 | joining undoes splitting, and no part has the separator |
| `CronText.AtoiDecimal` | util/timer/cronexpr.go:110-129 | a decimal numeral is read back, or refused when it does not fit |
| `CronText.AtoiSigned` | util/timer/cronexpr.go:110-129 | a sign in front of a numeral, with the one more negative number |
| `CronText.AtoiZero` | util/timer/cronexpr.go:110-129 | leading zeros count for nothing |
| `CronText.FieldsSpread` | util/timer/cronexpr.go:31-31 | words spread with any white space between them are read back as the fields |
| `CronText.SpreadFields` | util/timer/cronexpr.go:31-31 | every text is its fields, words without white space, spread with some white space |
| `CronParse.Grammar` | util/timer/cronexpr.go:79-159 | a term is accepted with a meaning exactly when it spells one of the six documented forms and that form means it within the bounds |
| `CronParse.StepLoop` | util/timer/cronexpr.go:161-168 | the bits that the stepping loop sets with wrapping addition; it ends for every step |
| `CronParse.TermMeaning` | util/timer/cronexpr.go:161-168 | a term sets exactly the numbers that it contains if and only if start + 2 * step < 2^64 |
| `CronParse.OverflowExample` | util/timer/cronexpr.go:161-168 | minutes 5/9223372036854775807 also fire at minute 3 |
| `CronParse.ParseCronField` | util/timer/cronexpr.go:85-172 | the union of the terms' bits, or the error of the first refused term |
| `CronParse.FieldMeaning` | util/timer/cronexpr.go:85-172 | bit i is set if and only if some comma term contains i, when no step goes round the word |
| `CronParse.NewCronExpr` | util/timer/cronexpr.go:30-77 | the expression split at white space: five or six fields, seconds 0 by default, each mask that of its field within its own bounds, or an error of some field |
| `CronSchedule.MatchesMeaning` | util/timer/cronexpr.go:30-77 | a parsed expression matches exactly the seconds that its text means, term by term, with two restricted day fields as alternatives |
| `CronSchedule.NextOf` | util/timer/cronexpr.go:30-248 | parsing a text and then searching: the least second after the given one that the text means, none exactly when it means none up to the end of the following year, or the error of a refused field; for texts whose steps do not go round the word |
| `Paths.BoundedIsAcyclic` | util/blueprint/graphpool.go:187-191 | where all paths are bounded no path comes back to a node |
| `BlueprintLoad.Loader.FindOutNextNode` | util/blueprint/graphpool.go:219-228 | the node that the first edge out of a port leads to |
| `BlueprintLoad.TargetIsFirst` | util/blueprint/graphpool.go:219-228 | a port leads where the first edge out of it leads, if that is a node, and nowhere without an edge |
| `BlueprintLoad.Loader.AppendTargets` | util/blueprint/graphpool.go:193-202 | one more copy of the port targets, all of them connected |
| `BlueprintLoad.Loader.PrepareOneNode` | util/blueprint/graphpool.go:187-217 | on success no path from the node is longer than the calls spent and all its nodes are prepared; nothing else is touched; it ends |
| `BlueprintLoad.Loader.PrepareOneEntrance` | util/blueprint/graphpool.go:231-266 | a loaded entrance reaches no cycle; exactly the nodes that it reaches are connected; next node i is the target of port i however often a node was prepared; an index past the ports lies past the next nodes if and only if the node was prepared once or has no execution ports |
| `BlueprintLoad.PastPorts` | util/blueprint/graphpool.go:193-202 | every index past the execution ports is out of range of the next nodes if and only if the node was prepared once or has no execution ports |
| `BlueprintLoad.RepeatLength` | util/blueprint/graphpool.go:198-198 | a node prepared k times has k times as many next nodes as execution ports |
| `BlueprintLoad.PreparedTwice` | util/blueprint/graphpool.go:193-216 | a graph of two nodes that loads, in which index 1 of a node with one port is in range |
| `BlueprintWays.PastPortsWays` | util/blueprint/graphpool.go:187-217 | for a node that the entrance reaches, every index past its ports is out of range if and only if it has no execution ports or one way leads to it: neither it nor a node before it is the target of two execution ports within reach |
| `BlueprintWays.OneWayOnce` | util/blueprint/graphpool.go:187-217 | a node is prepared once if and only if one way leads to it |
| `BlueprintWays.Load` | util/blueprint/graphpool.go:231-266 | a load with that condition on the graph |
| `BlueprintRun.RunnableRanked` | util/blueprint/node.go:109-142 | a loaded graph without a cycle of value nodes has ranks that every call of the interpreter lowers |
| `BlueprintRun.SourceIsFirst` | util/blueprint/graphpool.go:268-285 | an in-port has the node and out-port that the first edge into it names as its source, if that is a node, and none without an edge |
| `BlueprintRun.Graph.Do` | util/blueprint/node.go:144-210 | every run ends, by fewer unexecuted connected nodes, then execution rank, then data rank; the log of the activation that called it gets the node and the output ports it was shown; on success every new activation was fed (none at an execution port, the default at a port without a source, otherwise what was read at the out-port of an activation of the source, a newer one for a value node), and some new activation of this very node has run what its plan for its inputs says; when all that its inputs depend on has run, the first new one has got exactly the values that the expressions at its in-ports mean, and has run exactly what its plan for them says; a value node whose live sources have run gets the outputs that its expression means and disturbs no live node |
| `BlueprintRun.Graph.Activate` | util/blueprint/node.go:144-165 | a node gets ports of its own with the arguments in the out-ports from the given one on; an error exactly when an argument has no port; the caller's log gets the node with the ports it was shown |
| `BlueprintRun.Graph.CollectInputs` | util/blueprint/node.go:167-178 | on success every in-port was fed, and so was every activation that came about meanwhile; in a program whose value nodes leave the variables alone, and when all live sources have run, each data in-port gets its default or the current output of its source, and no live node is disturbed; no activation is lost and the "not exec" error does not happen |
| `BlueprintRun.Graph.DoSetInPort` | util/blueprint/node.go:109-142 | the default where there is no source, and an error without one; otherwise the source runs first where it must, so the "not exec" error never happens, and the value is that of the out-port of its current activation, or an error where there is none |
| `BlueprintRun.Graph.Exec` | util/blueprint/node.go:85-107 | the node runs on the ports that the context has for it; on success the log of its activation has grown by the targets of its DoNext calls in order, each with the output ports set for that call, and the node it goes on with; a node that calls nothing leaves exactly the variables and output ports of its plan |
| `BlueprintRun.Graph.DoNext` | util/blueprint/exec.go:552-567 | -1 and an unconnected port do nothing, an index out of range is an error that changes nothing, and otherwise the target runs and enters itself in the caller's log |
| `BlueprintRun.Graph.Run` | util/blueprint/graph.go:174-212 | one run from the entrance ends, and on success every new activation was fed and its node has run what its plan says, exactly that of its arguments when its inputs depend on nothing that has yet to run; an unknown entrance does nothing |
| `BlueprintRun.ForeachRuns` | util/blueprint/sysnodes.go:144-168 | the calls of Foreach: port 0 for each number in order, with the number shown, then port 1 |
| `BlueprintRun.ForeachTargets` | util/blueprint/sysnodes.go:144-168 | the calls of Foreach run the node at port 0 once per number, which it is shown at out-port 2, and then the one at port 1: a closed form without the calls |
| `BlueprintRun.ForeachArrayRuns` | util/blueprint/sysnodes.go:113-134 | the calls of ForeachIntArray, with index and element shown |
| `BlueprintRun.ForeachArrayTargets` | util/blueprint/sysnodes.go:113-134 | the calls of ForeachIntArray run the node at port 0 once per element, shown with its index at out-ports 3 and 2, and then the one at port 1: a closed form without the calls |
| `BlueprintRun.SequenceTargets` | util/blueprint/sysnodes.go:90-103 | the calls of Sequence run the nodes at its execution ports in port order |
| `BlueprintRun.ExecForeach` | util/blueprint/sysnodes.go:144-168 | an execution of a Foreach node in a graph that succeeds had numbers at in-ports 1 and 2, and its activation has run the node at port 0 once for each number from the first up to the second, shown at out-port 2, and then the one at port 1 |
| `BlueprintRun.ExecForeachArray` | util/blueprint/sysnodes.go:113-134 | the same for ForeachIntArray and the elements of the array at in-port 1 |
| `BlueprintRun.ExecSequence` | util/blueprint/sysnodes.go:90-103 | an execution of a Sequence node that succeeds has run the nodes at its leading execution ports in port order |
| `BlueprintRun.PlayedForeach` | util/blueprint/sysnodes.go:144-168 | a Foreach node that was run by Do, DoNext or Run: an activation of it that was fed has numbers at in-ports 1 and 2 and has run the node at port 0 once for each, shown at out-port 2, and then the one at port 1 |
| `BlueprintRun.PlayedForeachArray` | util/blueprint/sysnodes.go:113-134 | the same for ForeachIntArray and the elements of its array |
| `BlueprintRun.PlayedSequence` | util/blueprint/sysnodes.go:90-103 | the same for Sequence and its leading execution ports |
| `BlueprintRun.DoForeach` | util/blueprint/sysnodes.go:144-168 | a Foreach node run when all that its inputs depend on has run counts exactly the numbers that the expressions at its in-ports mean |
| `BlueprintRun.Refusals` | util/blueprint/sysnodes.go:113-168 | exactly when Foreach and ForeachIntArray refuse their inputs |
| `RingMask.AndMask` | util/queue/deque.go:366-374 | masking with a power of two less one is the modulus for every integer |
| `Deques.Deque.constructor` | util/queue/deque.go:33-60 | an empty deque; the minimum is the least power of two that is at least 16 and the minimum asked for, the capacity the least one that is at least that and the capacity asked for, or 0 |
| `Deques.Deque.PushBack` | util/queue/deque.go:82-89 | the element is last; the buffer doubles exactly when it is full |
| `Deques.Deque.PushFront` | util/queue/deque.go:92-99 | the element is first; the buffer doubles exactly when it is full |
| `Deques.Deque.PopFront` | util/queue/deque.go:104-117 | the first element goes and is returned, none on an empty deque; the buffer is cut to twice the contents exactly when it is then a quarter full and above the minimum |
| `Deques.Deque.PopBack` | util/queue/deque.go:122-138 | the last element goes and is returned, none on an empty deque; the buffer shrinks in the same way |
| `Deques.Deque.Front` | util/queue/deque.go:143-148 | the first element, none on an empty deque |
| `Deques.Deque.Back` | util/queue/deque.go:152-157 | the last element, none on an empty deque |
| `Deques.Deque.At` | util/queue/deque.go:171-177 | the i-th element, none out of range |
| `Deques.Deque.Set` | util/queue/deque.go:182-188 | the i-th element replaced, refused out of range |
| `Deques.Deque.Clear` | util/queue/deque.go:195-205 | empty, with the same buffer, in which the slots that were in use are zeroed unless it was full; a full one keeps them all |
| `Deques.Deque.Rotate` | util/queue/deque.go:211-254 | the contents rotated by any integer, full or not |
| `Deques.RotatedStep` | util/queue/deque.go:230-254 | one more step takes the first element to the back, one less the last to the front |
| `Deques.Deque.Index` | util/queue/deque.go:259-269 | the first element that satisfies the predicate, or -1 |
| `Deques.Deque.RIndex` | util/queue/deque.go:274-284 | the last element that satisfies the predicate, or -1 |
| `Deques.Deque.Insert` | util/queue/deque.go:295-317 | the element before index i, for every i up to the length |
| `Deques.Deque.Remove` | util/queue/deque.go:328-349 | the i-th element goes and is returned |
| `Deques.Deque.SetMinCapacity` | util/queue/deque.go:358-364 | two to the exponent, but never below 16, and 16 for exponents from 63 on, where the shift overflows |
| `Deques.Deque.GrowIfFull` | util/queue/deque.go:377-389 | room for one more, contents kept, capacity doubled or set to the minimum |
| `Deques.Deque.ShrinkIfExcess` | util/queue/deque.go:392-396 | contents kept; a buffer above the minimum that is a quarter full is cut to twice its contents, never below the minimum, and any other stays |
| `Deques.Deque.Resize` | util/queue/deque.go:401-413 | contents kept across wrap-around in a buffer of twice their number |
| `BiSearch.Search` | util/algorithms/BiSearch.go:20-66 | an equal element, or the nearest to the right or left as the mode asks; -1 exactly when there is none |
| `BiSearch.MatchUnique` | util/algorithms/BiSearch.go:11-19 | in a strictly increasing sequence the answer is unique |
| `MemoryQueues.MemoryQueue.Push` | sysservice/messagequeueservice/MemoryQueue.go:23-38 | the ring holds the latest messages of the whole history |
| `MemoryQueues.MemoryQueue.FindData` | sysservice/messagequeueservice/MemoryQueue.go:40-108 | found exactly when the start is neither too old nor too new nor in the gap at the fold; then the run of the history from the first message at or after the start, up to the limit, the fold of the ring or the end; panics exactly when the limit is negative or position plus limit overflows |
| `MemoryQueues.FoundAnswers` | sysservice/messagequeueservice/MemoryQueue.go:81-108 | what is found with a positive limit is a non-empty run from the first message asked for |
| `MemoryQueues.NoGapNoDuplicate` | sysservice/messagequeueservice/CustomerSubscriber.go:161-161 | a consumer that always asks for one more than the last number it got receives a run of the history, whatever is pushed and evicted in between |
| `MemoryQueues.Consume` | sysservice/messagequeueservice/CustomerSubscriber.go:159-171 | a consumer over any number of rounds with anything pushed and evicted in between gets what the ring answers to each question, and all in all the history from its first message on, each message once and in order |
| `MemoryQueues.TopicRoom.NextSeq` | sysservice/messagequeueservice/TopicRoom.go:75-87 | the second and a counter within it, with 32-bit wrap-around |
| `MemoryQueues.NextGreater` | sysservice/messagequeueservice/TopicRoom.go:75-87 | a number exceeds the one before if and only if the clock has moved on or the second has numbers left |
| `MemoryQueues.NumberParts` | sysservice/messagequeueservice/TopicRoom.go:75-87 | a number has the second in its upper 32 bits and the count in its lower ones |
| `MemoryQueues.CountsUp` | sysservice/messagequeueservice/TopicRoom.go:75-87 | the messages of one second are counted from 1 on, or on from the count so far, going round after 2^32 |
| `MemoryQueues.AllGreater` | sysservice/messagequeueservice/TopicRoom.go:75-87 | under a clock that does not go back and fewer than 2^32 messages per second the numbers strictly increase |
| `MemoryQueues.Publish` | sysservice/messagequeueservice/TopicRoom.go:62-87 | under such a clock the messages, each with its own data, numbered and pushed one after the other make an increasing history, which is what look-ups need |
| `Framing.HeaderRoundTrip` | network/tcp_msg.go:51-68 | a length survives the header if and only if it fits |
| `Framing.HeaderBytes` | network/tcp_msg.go:51-68 | the first byte of a big-endian header counts most, that of a little-endian one least, for all three widths |
| `Framing.HeaderLow` | network/tcp_msg.go:107-119 | the header of a length stands for the length modulo what the width holds |
| `Framing.Write` | network/tcp_msg.go:88-132 | header and concatenated arguments, or too long, too short, or a panic when the 32-bit length wraps before the last argument |
| `Framing.NoPanic` | network/tcp_msg.go:90-93 | no panic below 2^32 bytes |
| `Framing.Reader.Read` | network/tcp_msg.go:42-85 | one frame consumed, with the limits checked, or the error and what is then left of the stream |
| `Framing.FrameRoundTrip` | network/tcp_msg.go:42-132 | a frame followed by anything is read back if and only if its length fits the header and the reader's limits |
| `Framing.StreamRoundTrip` | network/tcp_msg.go:42-132 | any number of frames is read back in order, and then the stream ends |
| `Framing.WriteThenRead` | network/tcp_msg.go:42-132 | any number of writes that pass their limits is read back as the concatenated arguments of each, in order |
| `NodeTTL.NodeSetTTL.RemoveNode` | cluster/nodettl.go:25-33 | exactly the node's entry goes |
| `NodeTTL.NodeSetTTL.AddAndRefreshNode` | cluster/nodettl.go:35-46 | the node's entry is last with the new time |
| `NodeTTL.NodeSetTTL.CheckTTL` | cluster/nodettl.go:48-71 | the front scan under successive clock readings takes exactly the nodes that a full scan would find too old at the last reading it took, which is the reading after those that found a node too old |
| `NodeTTL.OverdueMeaning` | cluster/nodettl.go:48-71 | a scan stops at the first entry that is not too old when its turn comes |
| `Discovery.Master.AddNodeInfo` | cluster/origindiscovery.go:73-86 | a node with services that is not yet registered comes last |
| `Discovery.Master.UpdateNodeInfo` | cluster/origindiscovery.go:59-71 | the info of a registered node replaced |
| `Discovery.Master.RemoveNodeInfo` | cluster/origindiscovery.go:88-102 | the node leaves the id map, the slice and the expiry list |
| `Discovery.Master.OnStart` | cluster/origindiscovery.go:135-147 | the master registers itself |
| `Discovery.Master.OnNodeDisconnect` | cluster/origindiscovery.go:170-187 | exactly the node leaves registry and expiry list |
| `Discovery.Master.Ping` | cluster/origindiscovery.go:199-208 | true and a refreshed entry for a registered node, false and nothing otherwise |
| `Discovery.Master.NodeRetire` | cluster/origindiscovery.go:210-221 | the info of a registered node replaced |
| `Discovery.Master.Register` | cluster/origindiscovery.go:224-265 | a refreshed expiry entry for any node but the master, and registration |
| `Discovery.Master.Unregister` | cluster/origindiscovery.go:267-271 | exactly the node leaves registry and expiry list |
| `Discovery.Master.Tick` | cluster/origindiscovery.go:114-133 | exactly the registered nodes leave that a full scan would find too old at the scan's last clock reading, which is not before the first one of the tick |
| `Discovery.RunAll` | cluster/origindiscovery.go:54-271 | after every run of registrations, pings, retirements, unregistrations, disconnects and ticks under a clock that does not go back, the registry and the expiry list are those that the events stand for, id map and slice agree without duplicates, expiry list and map agree in refresh order, every registered node but the master can expire, and a master with services that nobody pings, unregisters or disconnects is still registered |
| `Discovery.Stays` | cluster/origindiscovery.go:54-208 | a registered node, the master included, is still registered after an event if and only if the event does not unregister or disconnect it and is not a tick that finds it overdue |
| `Discovery.InfosAfter` | cluster/origindiscovery.go:54-265 | the infos of the registered nodes after an event: a node with services that is not yet registered comes in, one that leaves or is overdue goes, one that retires is replaced, and all others stay |
| `Discovery.EntriesAfter` | cluster/origindiscovery.go:104-265 | the expiry entries after an event: a node other than the master that registers and a registered node that pings get one with the reading of the clock in place of an old one, a registered node that leaves loses its own, a tick drops the overdue front, and all others stay |
| `Discovery.LosesItself` | cluster/origindiscovery.go:114-208 | a run in which the master pings itself and then drops itself in a tick |

## Findings

Where a promise of the code or of its documentation does not hold for all inputs, the model keeps the
code and states the exact condition.

- Key 0 doubles as "nothing expired" in `pickExpireKey` (sysservice/rankservice/RankSkip.go:53-56): the
  expired record leaves the expiry heap and stays in the list and the map. `RankSkip.RankSkip.PickOne`
  and `PickExpireKey` give the exact condition, `RankRuns.ZeroKeyStuck` such a board.
- `ReplaceAtPosition(2^64-1)` on a non-empty list wraps to position 0 and overwrites the head's entry
  (util/algorithms/skip/skip.go:364-374); `SplitAt(2^64-1)` moves everything to the right half, where the
  documentation says that only the left half is returned. `GetWithPosition` of a missing key gives the
  next entry, where the documentation says nil.
- A cron step so large that the loop variable overflows also sets numbers below the start
  (util/timer/cronexpr.go:165-167): `CronParse.TermMeaning`, `CronParse.OverflowExample`. An explicit
  `1-31` or `0-6` counts as an unrestricted day field, since only the mask is kept.
- Negative queue ids congruent to -1 modulo 10000 fold to 0, which means no queue
  (concurrent/concurrent.go:70-75): `Dispatcher.FoldQueues`.
- `FindData` answers false for a start between the last number before the ring's fold and the first one
  after it, and panics when position plus limit exceeds an int32
  (sysservice/messagequeueservice/MemoryQueue.go:72-107): `MemoryQueues.MemoryQueue.FindData`.
- A length that does not fit the header is truncated when no write limit is set
  (network/tcp_msg.go:96-120): `Framing.FrameRoundTrip`.
- A node that is prepared k times has k copies of its targets in its list of next nodes
  (util/blueprint/graphpool.go:198), so an index past its ports can be in range: `BlueprintWays.PastPortsWays`
  gives the exact condition on the graph, `BlueprintLoad.PreparedTwice` is a graph that fails it.
- A re-registration does not update the stored info (cluster/origindiscovery.go:78-81):
  `Discovery.Master.AddNodeInfo`. A master that pings itself gets an expiry entry and can then remove
  itself (cluster/origindiscovery.go:199-208): `Discovery.Stays` gives the exact condition per event,
  `Discovery.LosesItself` such a run.
- A record that expires while its rank is asked for is released and reset before it is ranked
  (sysservice/rankservice/RankSkip.go:334-343, RankSkip.go:327): the answer is a blank record, with rank 1
  wherever the record stood. `RankQuery.RankOfKey` says when, `RankQuery.ExpiredAnswer` is such a board.
- `Clear` of a full deque zeroes no slot, since its loop starts where it ends (util/queue/deque.go:195-205):
  `Deques.Deque.Clear`.
- `SetMinCapacity` with an exponent of 63 or more sets the least minimum (util/queue/deque.go:358-364):
  `Deques.Deque.SetMinCapacity`.

## Left out

- Sockets, other transports, databases, message brokers, generated code, logging, configuration files and reflection-based RPC: I/O and foreign libraries.
- Object pools: records, expiry records, calls and byte buffers are fresh allocations; a released record is modelled only where it is still used (`RankQuery.RankOfKey`); the release of the nil sentinel into the byte pool is not modelled.
- Extended data of rank records and the callbacks to a rank module: entries are appended rather than replaced, so no clean law holds; callbacks and persistence are I/O.
- A bound on the board for all operations: `InsertDataOnNonExistent` does not check it; the bound is stated for `UpsetRank`.
- RankSkip.RankSkip.ChangeExtendData: requires that set positions are not negative, since a negative one crashes the service, and that an initial vector which is to be inserted has the board's length, since the comparison of vectors of mixed lengths is not transitive.
- RankSkip.RankSkip.InsertDataOnNonExistent: requires the same of an initial vector that is to be inserted.
- RankSkip.RankSkip.UpsetExisting: compares the vectors with `==`, which is what `RankOrder.CompareIsEqual` is proved to decide.
- RankRuns.RunAll: covers keys other than 0; `RankSkip.RankSkip.PickExpireKey` says what happens with key 0. Vectors that are to be inserted have the board's length.
- RankQuery.RankOfKey: the rank of a blank record on a descending board that holds key 0 depends on the heights of the nodes and is left open.
- SkipList.SkipList.SplitAt: back links are not claimed for the right half, whose first one is not rewritten.
- Lists of 2^64-1 entries and more: positions would wrap.
- Variadic loops of `Insert`, `Delete` and `Get` of the skip list: each call is for one key.
- `GetRankDataFromToLimit`, which walks like the other two.
- CallTimerHeap.CallTimerHeap.AddTimer: takes only a number without a timer, as `AddPending` calls it; a second timer for one number would be indexed once.
- CallSet.CallSet.AddPending: takes only numbers that `GenerateSeq` gave and nobody has used, as its callers do; delivery of the failure to a caller and error texts are not modelled.
- Dispatcher: idle timers; any waiting worker may be told to exit, which allows more runs than the timers do. Tasks that are still in the task channel when a closing dispatcher has no live worker left are not run, in the code as in the model.
- Time zones and daylight saving in cron; error texts.
- BlueprintRun.Graph.Do: what the Exec of a node does in one activation is a plan: the variables it leaves, the DoNext calls with the output ports of the moment, then a next index or an error. The plan of a live node may depend on the activation, so every terminating Exec is one such plan; that a node reads variables which its own DoNext calls have changed shows in the plan only, not in the variables between its calls. Type errors of ports, timers and the logger are not modelled.
- BlueprintRun.Graph.Exec: runs on the ports that the context has when it starts, as the source does; if a node has run again while its inputs were collected these are the newer ones, and no stated result depends on the older ones.
- Aliasing of the node-info slice with messages still being sent.
- MemoryQueues.Publish: batches that the database refuses to store, which are dropped from the history, and the full-channel error.
- The day-rollover loop of the topic room and the database side of message look-up.
- BlueprintRun.Graph.Run: the returned array and the global variables are not modelled.
- MemoryQueues.MemoryQueue.FindData: appending to the caller's slice is left out; the data found are returned.
- Frame timers, the template-service index, and small utility packages (maps, stacks, random numbers, identifiers): easy or without a sound claim.
