# Cyber RT: verified model of its concurrent core, timers, records and topology

Apollo's Cyber RT is a publish/subscribe runtime for autonomous driving. This project models the parts of
it whose correctness depends on interleavings, in-place state or arithmetic, and proves what they are for.
Verify everything with `dafny verify dfyconfig.toml` (Dafny 4.11).

Two forms are used.

* Code that several threads run at once is a transition system: one action per atomic operation or per
  critical section, a deterministic `Next`, an invariant that every step keeps, and theorems over every
  run. Program counters, queues and locks are explicit. History variables (a log, an order of acceptance)
  are fields that no step reads.
* Code that one thread runs is a class or a method with its loops, proved against functions and lemmas.

| file | component |
|---|---|
| BoundedQueue.dfy | lock-free multi-producer multi-consumer ring |
| ObjectPool.dfy | lock-free free list with a counted head |
| AtomicRWLock.dfy | spinning read-write lock with writer preference |
| AtomicHashMap.dfy | lock-free bucketed map |
| DataWait.dfy | dispatcher, notifier and coroutine: the wakeup protocol |
| Scheduler.dfy | adding, removing and running coroutines under the classic policy |
| ClassicContext.dfy | the priority scan for the next coroutine |
| TimingWheel.dfy, Timer.dfy | two-level timing wheel and drift-correcting periodic timer |
| RecordFormat.dfy, RecordReader.dfy, RecordViewer.dfy, RecordWriter.dfy | record files: reading, merging, writing |
| RecordRoundTrip.dfy | from the writer to the reader and the viewer |
| Graph.dfy | topology graph and reachability |
| DataBuffer.dfy, FusionRace.dfy | overwriting ring, reader cursor, message fusion |
| Rpc.dfy | matching of responses to requests |
| AsyncLogger.dfy | double-buffered logger |
| Options.dfy | the optional value used above |

Promises that do not hold of the code as it stands are kept as results: a lemma gives a failing case and
another one the exact condition.

* The wheel puts a delay d with 512 < d and index + d < 1024 one round too early
  (`TimingWheel.TaskFiresAfterItsDelay`, `TimingWheel.SixHundredFiresEarly`,
  `Timer.DriftBoundedIffWheelKeepsDelay`).
* A task is dispatched before its notify callback is registered, so a wakeup can be missed until the next
  message (`DataWait.SafeIffRegisteredFirst`, `DataWait.MissedStaysUnread`).
* A record writer that swaps before the flush thread has written reverses two chunks
  (`RecordWriter.OrderKeptIffNeverCrossed`), and for a file recorded in time order some request is then not
  answered in full (`RecordRoundTrip.ViewableIffNeverCrossed`), for the file of two messages none at all
  (`RecordWriter.CrossingHappens`, `RecordRoundTrip.CrossedFileIsNeverShown`); a chunk header treats time 0
  as "not set" (`RecordWriter.ChunkDescribesIff`, `RecordWriter.ZeroTimeIsForgotten`).
* The viewer misses a message that stands in its file behind one of a later window, or that the file header
  does not admit; under a true header, disorder within one window does no harm (`RecordViewer.View`,
  `RecordViewer.ExactIffWindowsInOrder`).
* A secondary message that arrives while the fusion callback runs can be fused with a primary that came
  before it (`FusionRace.FusedIsExactIff`, `FusionRace.OvertakenHappens`).
* Edge keys are joined with an underscore and can clash (`Graph.TopologyGraph.Insert`,
  `Graph.Replay`, `Graph.ClashHappens`).
* Enqueue can report "full" on a stale tail, even of an empty ring (`BoundedQueue.EnqueueFailsIff`,
  `BoundedQueue.FullReportedOnEmptyRing`).
* The comment on the logger says that writers block when the buffers are full; the code drops the message
  instead (src/apollo/cyber/logger/async_logger.cc:74-77), and the model follows the code.

## Model

| member | source | states |
|---|---|---|
| `BoundedQueue.FifoOverEveryRun` | src/apollo/cyber/base/bounded_queue.h:93-168 | over every interleaving of any number of producers and consumers, the values taken out in the order of winning head CAS are a prefix of the values put in, in the order of winning tail CAS, word for word; at most `size` elements are held; with no producer between its two CAS everything reserved is committed |
| `BoundedQueue.NextInv` | src/apollo/cyber/base/bounded_queue.h:108-168 | every atomic step of every thread keeps the ring invariant |
| `BoundedQueue.CasTailInv` | src/apollo/cyber/base/bounded_queue.h:108-119 | reserving a slot keeps it: the slot belongs to this producer alone |
| `BoundedQueue.WriteInv` | src/apollo/cyber/base/bounded_queue.h:120 | writing an element, word by word, disturbs no committed element and no other producer |
| `BoundedQueue.CommitInv` | src/apollo/cyber/base/bounded_queue.h:121-128 | commits happen in the order of the reservations |
| `BoundedQueue.CasHeadInv` | src/apollo/cyber/base/bounded_queue.h:154-168 | taking an element out keeps the invariant |
| `BoundedQueue.WinnerReadsOldest` | src/apollo/cyber/base/bounded_queue.h:154-168 | while a reader copies and its view of the head is current, what it has copied is the beginning of the oldest committed element and no producer writes that slot; winning the CAS it hands out that element whole |
| `BoundedQueue.WinnersCopyIsUndisturbed` | src/apollo/cyber/base/bounded_queue.h:154-168 | at every state from any point of a winning copy to its CAS, through steps of any threads, the head is what the reader saw and no producer writes the slot |
| `BoundedQueue.DequeueFailsIffNothingCommitted` | src/apollo/cyber/base/bounded_queue.h:154-168 | Dequeue fails at its load of the commit counter if and only if nothing is committed at that instant |
| `BoundedQueue.EnqueueFailsIff` | src/apollo/cyber/base/bounded_queue.h:108-119 | the exact condition under which Enqueue reports "full": the ring is full, or the loaded tail is stale by whole rounds |
| `BoundedQueue.FullReportedOnEmptyRing` | src/apollo/cyber/base/bounded_queue.h:108-119 | for every size at least 1, a run in which Enqueue reports "full" on an empty ring |
| `BoundedQueue.EnqueueOutcome` | src/apollo/cyber/base/bounded_queue.h:108-130 | a whole call of Enqueue, through steps of any threads: when it returns true its element was put in exactly once and is committed, when it returns false nothing was put in |
| `BoundedQueue.DequeueOutcome` | src/apollo/cyber/base/bounded_queue.h:154-168 | a whole call of Dequeue, through steps of any threads: if it returns true it took exactly one element, the one it returns; if it returns false it took none and the queue had nothing committed at some moment of the call |
| `BoundedQueue.EmptyReportedOnlyIfNothingCommitted` | src/apollo/cyber/base/bounded_queue.h:154-168 | no step of any kind ends a Dequeue with "empty" unless nothing is committed at that instant |
| `BoundedQueue.FullReportedOnlyIf` | src/apollo/cyber/base/bounded_queue.h:108-119 | no step of any kind ends an Enqueue with "full" unless the ring is full or the loaded tail is stale by whole rounds |
| `BoundedQueue.GetIndexIsSlot` | src/apollo/cyber/base/bounded_queue.h:227-230 | the division and multiplication of GetIndex compute the slot |
| `ObjectPool.ArenaPartitionedOverEveryRun` | src/apollo/cyber/base/concurrent_object_pool.h:94-148 | over every run the chain from the free head is acyclic, and it, the handed-out nodes and the nodes in release partition the arena |
| `ObjectPool.EqualCountMeansUntouched` | src/apollo/cyber/base/concurrent_object_pool.h:94-148 | no ABA: an equal count means no pop or push succeeded in between, so head, list and links are what they were |
| `ObjectPool.PopTakesUnownedNode` | src/apollo/cyber/base/concurrent_object_pool.h:94-108 | a winning pop hands out a node nobody owns and leaves exactly the rest of the list |
| `ObjectPool.GetFailsIffListEmpty` | src/apollo/cyber/base/concurrent_object_pool.h:94-108 | null is returned if and only if the free list is empty at that instant |
| `ObjectPool.GetOutcome` | src/apollo/cyber/base/concurrent_object_pool.h:94-108 | whichever step ends GetObject: null if and only if the list is empty then and nothing changes hands, otherwise the first free node moves from the list to the client; no other step of the call changes either |
| `ObjectPool.ReleaseOutcome` | src/apollo/cyber/base/concurrent_object_pool.h:137-148 | ReleaseObject ends only by putting the node it was given in front of the list, and no other step of it changes the list |
| `ObjectPool.CallsAreLockFree` | src/apollo/cyber/base/concurrent_object_pool.h:94-148 | over every stretch of every run, a call that has not returned has made fewer than four steps, two more for every pop or push that succeeded, and one more for every spurious failure |
| `ObjectPool.PushInv` | src/apollo/cyber/base/concurrent_object_pool.h:137-148 | a winning release keeps the partition and the chain |
| `ObjectPool.LinkArena` | src/apollo/cyber/base/concurrent_object_pool.h:73-78 | the constructor loop links all nodes into one chain ending in null |
| `AtomicRWLock.WritersExcludeEveryone` | src/apollo/cyber/base/atomic_rw_lock.h:61-113 | over every run the counter is -1 exactly when one writer and no reader is inside, and otherwise the number of readers |
| `AtomicRWLock.WriterPreference` | src/apollo/cyber/base/atomic_rw_lock.h:61-109 | in write-first mode, while a registered writer waits only readers already past the check enter, each at most once |
| `AtomicRWLock.WriterEntersIffFree` | src/apollo/cyber/base/atomic_rw_lock.h:93-109 | the CAS of a writer succeeds if and only if nobody is inside |
| `AtomicRWLock.ReaderEntersIffUnmoved` | src/apollo/cyber/base/atomic_rw_lock.h:61-91 | the CAS of a reader succeeds if and only if the counter has not moved, and then no writer is inside |
| `AtomicRWLock.RegisteredWriterStopsNewReaders` | src/apollo/cyber/base/atomic_rw_lock.h:61-109 | no step lets a new reader past the check while a writer is registered |
| `AtomicRWLock.LockCallsEndInside` | src/apollo/cyber/base/atomic_rw_lock.h:61-109 | a lock call returns only with its lock: until it unlocks the thread is on its way in or holds the lock in the mode it asked for |
| `AtomicRWLock.UnlockLetsGo` | src/apollo/cyber/base/atomic_rw_lock.h:111-113 | an unlock takes exactly this thread out, and the lock is free if and only if nobody else is inside |
| `AtomicRWLock.ReaderGetsIn` | src/apollo/cyber/base/atomic_rw_lock.h:61-91 | while no writer holds or, in write-first mode, waits, a reader that is not in yet has made fewer than four steps, two more for every change of the counter and one more for every spurious failure |
| `AtomicRWLock.WriterGetsIn` | src/apollo/cyber/base/atomic_rw_lock.h:93-109 | a writer that nobody inside keeps out is in after three steps of its own |
| `AtomicHashMap.BucketsSortedOverEveryRun` | src/apollo/cyber/base/atomic_hash_map.h:147-188 | over every run each bucket is strictly sorted, free of duplicates, and holds exactly the keys and values of a plain map |
| `AtomicHashMap.KeysNeverDisappear` | src/apollo/cyber/base/atomic_hash_map.h:147-188 | no inserted key disappears in any stretch of any run |
| `AtomicHashMap.SetTakesEffectAtOneStep` | src/apollo/cyber/base/atomic_hash_map.h:147-188 | Set changes the plain map at exactly one step, its winning CAS, which inserts if and only if the key was absent |
| `AtomicHashMap.HasTakesEffectAtOneStep` | src/apollo/cyber/base/atomic_hash_map.h:112-123 | Has answers what the plain map says at its last load |
| `AtomicHashMap.GetTakesEffectAtOneStep` | src/apollo/cyber/base/atomic_hash_map.h:276-284 | Get answers what the plain map holds at its last load |
| `AtomicHashMap.SetIsAtomic` | src/apollo/cyber/base/atomic_hash_map.h:147-188 | a whole call Set(k, v), through steps of any threads: at exactly one of its own steps the plain map gets k set to v, and none of its other steps changes the plain map |
| `AtomicHashMap.HasIsAtomic` | src/apollo/cyber/base/atomic_hash_map.h:112-123 | a whole call Has(k) returns what the plain map says about k at one step of the call |
| `AtomicHashMap.GetIsAtomic` | src/apollo/cyber/base/atomic_hash_map.h:276-284 | a whole call Get(k) returns what the plain map holds under k at one step of the call |
| `AtomicHashMap.CallsAreLockFree` | src/apollo/cyber/base/atomic_hash_map.h:112-188 | lock freedom over every stretch of every run: a Has or Get that has not returned has made at most one step more than there were keys and one for every Set that returned meanwhile; a Set four more, and another search for every such Set |
| `AtomicHashMap.LookIsExact` | src/apollo/cyber/base/atomic_hash_map.h:125-145 | one look at the successor decides presence, absence or a place further on |
| `AtomicHashMap.LinkSorted` | src/apollo/cyber/base/atomic_hash_map.h:147-188 | linking between two neighbours keeps the bucket sorted |
| `AtomicHashMap.TableStarts` | src/apollo/cyber/base/atomic_hash_map.h:42-79 | with the mask of the source the bucket is the key modulo the table size, negative keys included, so every result here applies to it |
| `AtomicHashMap.TableIndexIsRemainder` | src/apollo/cyber/base/atomic_hash_map.h:42-47 | the bitwise and with the size minus 1 is the remainder |
| `AtomicHashMap.SearchMovesOn` | src/apollo/cyber/base/atomic_hash_map.h:125-145 | every turn of the search leaves strictly fewer keys ahead |
| `DataWait.NoMissedWakeup` | src/apollo/cyber/data/data_dispatcher.h:72-90 | over every interleaving of dispatchers, processors and coroutines, a parked coroutine with an unread message has a notification pending once dispatching is over |
| `DataWait.SafeIffRegisteredFirst` | src/apollo/cyber/scheduler/scheduler.cc:37-70 | no run misses a wakeup if and only if the callback is registered before the task is dispatched |
| `DataWait.LateRegistrationMissesWakeup` | src/apollo/cyber/scheduler/scheduler.cc:37-70 | a run in which the coroutine parks, the notifier finds no callback and the wakeup is missed although the callback is registered afterwards |
| `DataWait.MissedStaysUnread` | src/apollo/cyber/scheduler/scheduler.cc:37-70 | a missed message is not delivered before another one is published to the coroutine, however long processors and other channels run |
| `DataWait.WakeupDelivers` | src/apollo/cyber/scheduler/processor.cc:78-96 | end to end: once dispatching is over, whichever processor takes a parked, registered coroutine with an unread message delivers one within five steps of its own, whatever other threads do |
| `DataWait.RegisteredIsNeverSkipped` | src/apollo/cyber/data/data_notifier.h:73-84 | a registered callback is never skipped |
| `DataWait.NextUpdateMakesReady` | src/apollo/cyber/croutine/croutine.h:176-191 | UpdateState makes a parked coroutine READY exactly when a notification is pending, and uses it up |
| `DataWait.RunByOneProcessor` | src/apollo/cyber/croutine/croutine.h:197-203 | a coroutine is inside at most one processor |
| `DataWait.Fetch` | src/apollo/cyber/data/channel_buffer.h:56-77 | a fetch succeeds exactly when a message is unread; the position is the one the ring of DataBuffer answers with |
| `DataWait.FetchFollowsCursor` | src/apollo/cyber/data/data_visitor.h:183-189 | the cursor of a coroutine moves as the reader of DataBuffer does, so its results on delivered positions apply to every coroutine |
| `DataWait.DispatchReachesEverySubscriber` | src/apollo/cyber/data/data_dispatcher.h:72-90 | a whole dispatch, through steps of any threads, puts the message into every buffer exactly as often as it is subscribed, and into no other |
| `DataWait.OnlyWaitersAreNotified` | src/apollo/cyber/scheduler/policy/scheduler_classic.cc:167-185 | over every run the flag of a coroutine is cleared only by a dispatcher that, with its step before, found it registered and waiting for data |
| `DataWait.SleeperWakesOnlyOnTime` | src/apollo/cyber/croutine/croutine.h:176-191 | over every run a sleeping coroutine becomes ready when its time has come and by no other step, notified or not |
| `DataWait.TurnEnds` | src/apollo/cyber/scheduler/processor.cc:78-96 | every turn of a coroutine ends: a processor makes at most seven steps before it is free again, whatever other threads do |
| `Scheduler.ExclusiveExecution` | src/apollo/cyber/scheduler/policy/scheduler_classic.cc:114-242 | over every run no two processors are inside one coroutine, even when a removal clears its flag during a run |
| `Scheduler.RegistryMatchesQueues` | src/apollo/cyber/scheduler/policy/scheduler_classic.cc:114-242 | between operations each id sits exactly once in the queue of its group and priority, and no other id does |
| `Scheduler.RemovedNeverStarts` | src/apollo/cyber/scheduler/policy/scheduler_classic.cc:196-242 | a removed coroutine is never entered again |
| `Scheduler.AddOutcome` | src/apollo/cyber/scheduler/policy/scheduler_classic.cc:114-165 | a whole DispatchTask, through steps of any threads: true if and only if the id was free at the call; its last critical section then leaves the coroutine registered and at the end of its queue, and otherwise changes nothing |
| `Scheduler.RemoveOutcome` | src/apollo/cyber/scheduler/policy/scheduler_classic.cc:196-242 | a whole RemoveCRoutine, through steps of any threads: true if and only if the id was registered at the call; the coroutine is then off every queue and its id free, and otherwise nothing has changed |
| `Scheduler.RemovalClearsFlag` | src/apollo/cyber/scheduler/policy/scheduler_classic.cc:222-238 | the step that takes a coroutine off its queue clears the flag of that coroutine and of no other |
| `Scheduler.ScanStep` | src/apollo/cyber/scheduler/policy/classic_context.cc:57-76 | an entry is passed only if another processor holds it or it was acquired and found not ready; the scan ends empty-handed only with nothing ahead and otherwise with the first entry ahead |
| `Scheduler.ScanInOrder` | src/apollo/cyber/scheduler/policy/classic_context.cc:57-76 | a whole scan, through steps of any threads, passes the entries of its queue one by one from the front and skips none |
| `Scheduler.ScanCoversQueue` | src/apollo/cyber/scheduler/policy/classic_context.cc:57-76 | a scan that ends without a coroutine has passed all entries the queue had when it began, one that ends with a coroutine all entries in front of it |
| `Scheduler.ScanTerminates` | src/apollo/cyber/scheduler/policy/classic_context.cc:57-76 | a processor makes at most two steps for every entry ahead and two more before it is free: no locked entry holds a scan up |
| `Scheduler.RunIsReleased` | src/apollo/cyber/scheduler/processor.cc:78-96 | whatever other threads do, the second step of a processor after it began to run a coroutine clears its flag, no other one, and frees the processor |
| `Scheduler.LeavesOk` | src/apollo/cyber/scheduler/policy/scheduler_classic.cc:222-238 | clearing the flag of a coroutine that is off every queue is safe |
| `Scheduler.ControlStepOk` | src/apollo/cyber/scheduler/policy/scheduler_classic.cc:114-242 | every step of an addition or removal keeps registry and queues consistent |
| `Scheduler.ProcessorStepOk` | src/apollo/cyber/scheduler/processor.cc:78-96 | every step of a processor keeps flags, holders and queues consistent |
| `ClassicContext.Context.NextRoutine` | src/apollo/cyber/scheduler/policy/classic_context.cc:50-80 | the scan returns, locked, the first routine in order of priority and queue that can run, nothing if and only if none can; the passed ones are up to date and unlocked; the alarm is the earliest sleeper |
| `ClassicContext.Context.ScanQueue` | src/apollo/cyber/scheduler/policy/classic_context.cc:57-76 | the same for one queue |
| `ClassicContext.Context.Visit` | src/apollo/cyber/scheduler/policy/classic_context.cc:58-75 | one routine is kept exactly when it can run, and left unlocked otherwise |
| `ClassicContext.ReadyIffRunnable` | src/apollo/cyber/croutine/croutine.h:176-191 | UpdateState yields READY exactly for a ready, overdue or notified routine |
| `ClassicContext.UpdateWakesOnly` | src/apollo/cyber/croutine/croutine.h:176-191 | UpdateState wakes a routine whose time has come, or that waits and has news, and no other; it uses the news up unless the time had come, and keeps wake time and lock |
| `TimingWheel.TaskFiresAfterItsDelay` | src/apollo/cyber/timer/timing_wheel.cc:43-124 | over every run from every reachable state a task fires in exactly one tick: after its delay, or 512 ticks early when 512 < delay and index + delay < 1024 |
| `TimingWheel.AcceptedDelayIsExactIff` | src/apollo/cyber/timer/timing_wheel.cc:65-96 | the exact countdown for every accepted delay |
| `TimingWheel.DelayIsExactIff` | src/apollo/cyber/timer/timing_wheel.cc:65-96 | which delays are kept, for any delay |
| `TimingWheel.SixHundredFiresEarly` | src/apollo/cyber/timer/timing_wheel.cc:75-86 | a run of a new wheel in which a task added with a delay of 600 fires in the tick after 88 moves of the index |
| `TimingWheel.EarlyTaskFires` | src/apollo/cyber/timer/timing_wheel.cc:65-124 | for every delay that is not kept and every wheel, a run in which the task fires one round early |
| `TimingWheel.AddRefines` | src/apollo/cyber/timer/timing_wheel.cc:65-96 | adding a task starts one countdown and touches no other |
| `TimingWheel.TickRefines` | src/apollo/cyber/timer/timing_wheel.cc:43-63 | a tick fires exactly the tasks at zero, each once |
| `TimingWheel.AdvanceRefines` | src/apollo/cyber/timer/timing_wheel.cc:98-124 | moving the index, with or without a cascade, takes one from every countdown |
| `TimingWheel.StopRefines` | src/apollo/cyber/timer/timer.cc:131-136 | stopping a timer removes its countdown only |
| `TimingWheel.Clockwork.Add` | src/apollo/cyber/timer/timing_wheel.cc:65-96 | the in-place wheel does what AddTask does on values |
| `TimingWheel.Clockwork.TickNow` | src/apollo/cyber/timer/timing_wheel.cc:43-63 | the in-place tick drains the slot front to back |
| `TimingWheel.Clockwork.CascadeNow` | src/apollo/cyber/timer/timing_wheel.cc:98-109 | the in-place cascade empties a bucket into the work slots |
| `TimingWheel.Clockwork.AdvanceNow` | src/apollo/cyber/timer/timing_wheel.cc:111-124 | the in-place index move |
| `Timer.DriftStaysBounded` | src/apollo/cyber/timer/timer.cc:67-114 | for every number of runs the drift after a correcting run is at most 1 ms plus the firing jitter |
| `Timer.ErrorIsDrift` | src/apollo/cyber/timer/timer.cc:67-114 | the accumulated error equals last start minus first start minus runs times interval |
| `Timer.DriftBoundedIffWheelKeepsDelay` | src/apollo/cyber/timer/timer.cc:67-114 | on the wheel the bound holds if and only if the delay asked for is one the wheel keeps |
| `Timer.CatchingUpDoesNotGrow` | src/apollo/cyber/timer/timer.cc:90-107 | while too late to correct, a short run moves the drift by at most half a millisecond and the jitter up, and never below minus the jitter |
| `Timer.DriftOfOneRun` | src/apollo/cyber/timer/timer.cc:67-114 | on any branch one run changes the drift by the run time and the delay set, less a period, up to the jitter |
| `Timer.OverrunDrift` | src/apollo/cyber/timer/timer.cc:86-89 | after a run of a period or longer the drift grows by exactly the overrun and the delay of 1 ms, up to the jitter |
| `Timer.EarlyIsCorrected` | src/apollo/cyber/timer/timer.cc:90-107 | after a short run that found the timer early the drift is back within 1 ms and the jitter, on either side |
| `Timer.NeverAhead` | src/apollo/cyber/timer/timer.cc:67-114 | for every number of runs, of any length, and a jitter of at most half a millisecond, the timer is never more than 1 ms and the jitter ahead of its schedule |
| `Timer.NextDelayPositive` | src/apollo/cyber/timer/timer.cc:90-107 | the next delay is at least 1 ms, whatever the times |
| `Timer.TimerTask.Callback` | src/apollo/cyber/timer/timer.cc:67-114 | the next delay is 1 ms if the run took the period or longer, and otherwise the period less the run and the accumulated error, at least 1 ms; the error grows by how much later than one period after the last start this one was |
| `Timer.InitTimerTask` | src/apollo/cyber/timer/timer.cc:49-58 | exactly the periods from 1 to below the wheel span are accepted |
| `Timer.RoundMs` | src/apollo/cyber/timer/timer.cc:76-98 | llround to milliseconds is off by at most half a millisecond, and a half goes away from zero |
| `RecordReader.Reader.ReadMessage` | src/apollo/cyber/record/record_reader.cc:72-107 | skipping whole chunks by their header gives the same answer as a walk over all messages, sorted or not |
| `RecordReader.Reader.ReadNextChunk` | src/apollo/cyber/record/record_reader.cc:109-169 | only messages before the range are skipped, and false means nothing of the range is next |
| `RecordReader.Reader.ReadAll` | src/apollo/cyber/record/record_reader.cc:72-169 | reading with the default range returns every message in file order, whatever times and chunk headers say |
| `RecordReader.Reader.Reset` | src/apollo/cyber/record/record_reader.cc:57-62 | a reset reader starts over |
| `RecordViewer.View` | src/apollo/cyber/record/record_viewer.cc:39-204 | from any files, in any order and under any headers, and any request: the view is sorted by time and shows each message asked for as often as the windows reach it, which is as often as the files hold it if and only if no occurrence lies behind a later window or outside what the file header admits |
| `RecordViewer.ExactIffWindowsInOrder` | src/apollo/cyber/record/record_viewer.cc:111-175 | files whose headers are true are shown exactly if and only if along each of them the windows of one second, counted from the clamped begin, never decrease |
| `RecordViewer.HeldIffNoneHidden` | src/apollo/cyber/record/record_viewer.cc:139-175 | the files show a message as often as they hold it if and only if every occurrence is reached |
| `RecordViewer.Collect` | src/apollo/cyber/record/record_viewer.cc:177-204 | iterating yields exactly the merge of what the files show, and every later iteration the same |
| `RecordViewer.ViewFile` | src/apollo/cyber/record/record_viewer.cc:29-37 | the viewer of one reader shows exactly the view of its file |
| `RecordViewer.FileViewCounts` | src/apollo/cyber/record/record_viewer.cc:29-175 | the same count, and its exact condition, for the view of one file |
| `RecordViewer.SortedFileView` | src/apollo/cyber/record/record_viewer.cc:29-175 | a sorted file with a true header is shown as it stands |
| `RecordViewer.ViewIsExact` | src/apollo/cyber/record/record_viewer.cc:59-175 | the merge on the chosen channels is sorted by time and holds each message in range exactly as often as the merged sequences do |
| `RecordViewer.MergeSplit` | src/apollo/cyber/record/record_viewer.cc:139-175 | merging window by window equals merging the whole range |
| `RecordViewer.MergeIsSortedSelection` | src/apollo/cyber/record/record_viewer.cc:139-175 | the merge is sorted and a permutation of the messages in range |
| `RecordViewer.Viewer.FillBuffer` | src/apollo/cyber/record/record_viewer.cc:139-175 | what is still to come does not change, and false means that nothing is left |
| `RecordViewer.Viewer.ReadWindow` | src/apollo/cyber/record/record_viewer.cc:155-168 | one window moves exactly the messages it reaches from all readers into the buffer |
| `RecordViewer.Viewer.Update` | src/apollo/cyber/record/record_viewer.cc:59-74 | the next message on a chosen channel, or false if there is none |
| `RecordViewer.Viewer.UpdateTime` | src/apollo/cyber/record/record_viewer.cc:111-137 | the range is clamped to the earliest begin and latest end of the readable files, which loses no message if the headers are true |
| `RecordViewer.Viewer.Reset` | src/apollo/cyber/record/record_viewer.cc:102-109 | everything in view is to come again |
| `RecordViewer.Viewer.constructor` | src/apollo/cyber/record/record_viewer.cc:39-48 | the readers are sorted and hold and show what the given ones do; the range is the requested one, clamped |
| `RecordViewer.SortReaders` | src/apollo/cyber/record/record_viewer.cc:90-99 | the readers are rearranged by begin time, then end time, and hold what they held |
| `RecordViewer.Iterator.constructor` | src/apollo/cyber/record/record_viewer.cc:177-186 | begin() always shows the whole view, none of it for an empty range |
| `RecordViewer.Iterator.Advance` | src/apollo/cyber/record/record_viewer.cc:199-204 | advancing drops exactly the current message |
| `RecordViewer.Drain` | src/apollo/cyber/record/record_viewer.cc:160-167 | one reader hands over exactly the messages that the window reaches, whatever the order of the file |
| `RecordWriter.NothingLostOverEveryRun` | src/apollo/cyber/record/file/record_file_writer.cc:185-232 | over every interleaving of writer and flush thread the file, the flush chunk and the active chunk hold exactly the accepted multiset |
| `RecordWriter.ClosedFileIsComplete` | src/apollo/cyber/record/file/record_file_writer.cc:56-128 | after Close all accepted messages are in the file; header counts, index position, index entries and per-channel counts match; without time 0 every chunk header is true |
| `RecordWriter.OrderKeptIffNeverCrossed` | src/apollo/cyber/record/file/record_file_writer.cc:207-232 | position by position the file holds the accepted messages that the ids name, and these are in the order of acceptance if and only if no swap found the flush chunk still unwritten; for any messages, equal ones included |
| `RecordWriter.MessagesKeptIffNeverCrossed` | src/apollo/cyber/record/file/record_file_writer.cc:207-232 | pairwise different messages stand in the file as accepted if and only if no swap crossed |
| `RecordWriter.CrossingHappens` | src/apollo/cyber/record/file/record_file_writer.cc:56-232 | a run to the closed file that reverses two messages and leaves a header that begins after it ends |
| `RecordWriter.HistoryIsRecorded` | src/apollo/cyber/record/file/record_file_writer.cc:130-213 | the accepted messages are those of the WriteMessage calls in their order, and the channel sections those of the WriteChannel calls |
| `RecordWriter.HandedOverIffOverLimit` | src/apollo/cyber/record/file/record_file_writer.cc:185-206 | over every run without time 0: right before a swap the messages of the active chunk exceed the interval or the byte limit, and between calls they exceed neither as long as no swap crossed |
| `RecordWriter.SortedIffNeverCrossed` | src/apollo/cyber/record/file/record_file_writer.cc:149-232 | messages accepted in strictly increasing order of time give a sorted file bracketed by its header if and only if no swap crossed |
| `RecordRoundTrip.ViewableIffNeverCrossed` | src/apollo/cyber/record/file/record_file_writer.cc:149-232 | messages accepted in strictly increasing order of time are given back by the view of every request, in order, if and only if no swap crossed |
| `RecordRoundTrip.CrossedFileIsNeverShown` | src/apollo/cyber/record/record_viewer.cc:111-186 | a run to a closed file of two messages of which no view, whatever the request, shows any |
| `RecordRoundTrip.ViewBack` | src/apollo/cyber/record/record_viewer.cc:39-204 | round trip through the viewer, over every run and request: sorted, nothing that was not asked for, each message as often as accepted if and only if the windows reach it; in-order recordings without a crossing come back as accepted |
| `RecordWriter.ClosedFileIsSorted` | src/apollo/cyber/record/file/record_file_writer.cc:149-183 | messages accepted in time order, equal times included, give a sorted file bracketed by its header when no swap crossed |
| `RecordRoundTrip.ReadBack` | src/apollo/cyber/record/file/record_file_reader.cc:61-130 | round trip: reading a closed file returns the accepted multiset in chunk order, and the accepted sequence unless a swap crossed |
| `RecordWriter.ChunkDescribesIff` | src/apollo/cyber/record/file/record_file_writer.h:55-70 | a chunk header states the true range if and only if no message has time 0 or the last one has |
| `RecordWriter.ZeroTimeIsForgotten` | src/apollo/cyber/record/file/record_file_writer.h:59-61 | a chunk of times 0 and 5 claims to begin at 5 |
| `RecordWriter.ConservedNext` | src/apollo/cyber/record/file/record_file_writer.cc:56-232 | every step keeps the multiset, and the order unless a swap crosses |
| `RecordWriter.BooksOkNext` | src/apollo/cyber/record/file/record_file_writer.cc:109-213 | every step keeps header, index and counts in agreement with the file |
| `RecordWriter.ChunkBuffer.AddMessage` | src/apollo/cyber/record/file/record_file_writer.h:55-70 | the header stays that of the chunk built from the body |
| `RecordWriter.Replay` | src/apollo/cyber/record/file/record_file_writer.cc:56-232 | any run of the two threads, performed on the object by its methods, leaves it with the sections, header, index, counts and chunks of the transition system |
| `RecordWriter.FileWriter.Perform` | src/apollo/cyber/record/file/record_file_writer.cc:56-232 | one step of either thread by the methods of the object is the step of the transition system, the decision to swap included |
| `RecordWriter.FileWriter.FlushChunk` | src/apollo/cyber/record/file/record_file_writer.cc:149-183 | the sections, header and index after one chunk |
| `RecordWriter.FileWriter.Accept` | src/apollo/cyber/record/file/record_file_writer.cc:185-206 | the message is added, counted, and the need to flush decided |
| `RecordWriter.FileWriter.FinishIndex` | src/apollo/cyber/record/file/record_file_writer.cc:109-128 | every channel entry gets its count and the index becomes the last section |
| `Graph.TopologyGraph.Insert` | src/apollo/cyber/service_discovery/container/graph.cc:100-116 | the ends that the edge names, full or half dummy, join their channel and nothing else changes; the adjacency list stays equal to writers times readers if and only if no two keys clash |
| `Graph.TopologyGraph.Delete` | src/apollo/cyber/service_discovery/container/graph.cc:118-134 | the ends that the edge names leave their channel and nothing else changes; the list stays exact |
| `Graph.InsertedJoins` | src/apollo/cyber/service_discovery/container/graph.cc:100-116 | what an insertion of any kind of edge means for the writers and readers of every channel: the ends that the edge names join, of its channel only |
| `Graph.DeletedLeaves` | src/apollo/cyber/service_discovery/container/graph.cc:118-134 | the ends that a deleted edge names leave, of its channel only |
| `Graph.JoinedIffLastInserted` | src/apollo/cyber/service_discovery/container/graph.cc:100-134 | over any history a vertex reads, or writes, a channel if and only if the last operation that named it so was an insertion |
| `Graph.Replay` | src/apollo/cyber/service_discovery/container/graph.cc:100-134 | over any history the list is the product of writers and readers at the start and after every operation if and only if no two keys ever clash |
| `Graph.TopologyGraph.GetNumOfEdge` | src/apollo/cyber/service_discovery/container/graph.cc:136-143 | the count is, modulo 2^32, the sum over channels of writers times readers |
| `Graph.LevelTraverse` | src/apollo/cyber/service_discovery/container/graph.cc:259-279 | the search ends on every graph and returns true if and only if the end can be reached |
| `Graph.TopologyGraph.GetDirectionOf` | src/apollo/cyber/service_discovery/container/graph.cc:145-160 | the direction is what the existence of paths over channels dictates |
| `Graph.FlowsIffReachable` | src/apollo/cyber/service_discovery/container/graph.cc:145-160 | paths in the list are flows over channels |
| `Graph.RepresentedMeansNoClash` | src/apollo/cyber/service_discovery/container/graph.cc:91 | no list can be exact under a key clash |
| `Graph.ClashHappens` | src/apollo/cyber/service_discovery/container/graph.cc:91 | two insertions that clash |
| `Graph.NoSeparatorNoClash` | src/apollo/cyber/service_discovery/container/graph.cc:91 | readers without an underscore in their names never clash |
| `Graph.TopologyGraph.InsertOutgoingEdge` | src/apollo/cyber/service_discovery/container/graph.cc:162-180 | a new writer gets an edge to every reader |
| `Graph.TopologyGraph.InsertIncomingEdge` | src/apollo/cyber/service_discovery/container/graph.cc:182-200 | a new reader gets an edge from every writer |
| `Graph.TopologyGraph.DeleteOutgoingEdge` | src/apollo/cyber/service_discovery/container/graph.cc:214-232 | a removed writer loses all its edges |
| `Graph.TopologyGraph.DeleteIncomingEdge` | src/apollo/cyber/service_discovery/container/graph.cc:234-252 | a removed reader loses all its edges |
| `Graph.TriplesCount` | src/apollo/cyber/service_discovery/container/graph.cc:136-143 | the number of complete edges is the sum of products |
| `DataBuffer.CacheBuffer.Fill` | src/apollo/cyber/data/cache_buffer.h:67-80 | the ring follows the log of everything published |
| `DataBuffer.CacheBuffer.HoldsTheLast` | src/apollo/cyber/data/cache_buffer.h:49-61 | after n fills the ring from Head to Tail is the sequence of the last min(n, size) messages, and Back is the newest |
| `DataBuffer.DeliveredIncreasing` | src/apollo/cyber/data/data_visitor.h:183-189 | over every interleaving, positions are delivered in strictly increasing order |
| `DataBuffer.LosslessIffNeverLags` | src/apollo/cyber/data/data_visitor.h:183-189 | nothing is lost between deliveries if and only if a started reader never lags by more than the ring holds |
| `DataBuffer.DataVisitor.TryFetchNext` | src/apollo/cyber/data/data_visitor.h:183-189 | a fetch follows the cursor model and delivers the message published at that position |
| `DataBuffer.ChannelBuffer.Fetch` | src/apollo/cyber/data/channel_buffer.h:56-77 | the message at the index, the newest one for index 0 or an index that has left the ring, and none if and only if nothing newer was published |
| `DataBuffer.DeliversNextOrNewest` | src/apollo/cyber/data/channel_buffer.h:56-77 | over every interleaving a fetch delivers the message after the last delivered one if the ring still holds it, otherwise the newest, and nothing if and only if there is none newer |
| `DataBuffer.ChannelBuffer.Latest` | src/apollo/cyber/data/channel_buffer.h:79-88 | the newest message, if there is one |
| `DataBuffer.ChannelBuffer.FetchMulti` | src/apollo/cyber/data/channel_buffer.h:90-105 | the newest messages in order, as many as asked for and held |
| `DataBuffer.AllLatest.OnPrimary` | src/apollo/cyber/data/fusion/all_latest.h:55-69 | the fused ring follows the fused stream of the history of arrivals |
| `DataBuffer.AllLatest.OnSecondary` | src/apollo/cyber/data/fusion/all_latest.h:55-69 | a secondary message changes only its own ring |
| `DataBuffer.EveryPrimaryFusedAfter` | src/apollo/cyber/data/fusion/all_latest.h:55-69 | once every secondary has data each primary message is fused, once and in order |
| `DataBuffer.Fusion` | src/apollo/cyber/data/fusion/all_latest.h:71-82 | fetched tuples are an in-order subsequence of the fused stream |
| `FusionRace.FusedWithinItsCallback` | src/apollo/cyber/data/fusion/all_latest.h:55-69 | with messages arriving between the looks at the channels: each fused message pairs a primary with the messages that were the latest of their channels at the looks, which are instants of its callback, in the order of the primaries |
| `FusionRace.DuePrimaryIsFusedOnce` | src/apollo/cyber/data/fusion/all_latest.h:55-69 | over every interleaving a primary that arrives once every channel has data is fused, and fused once, unless its callback is still under way |
| `FusionRace.CallbackEnds` | src/apollo/cyber/data/fusion/all_latest.h:55-69 | however it is interleaved with arrivals, the callback ends after at most one look at every channel and the push |
| `FusionRace.ArrivalsAreRecorded` | src/apollo/cyber/data/fusion/all_latest.h:55-69 | the history that the results speak about is what arrived, in order |
| `FusionRace.FusedIsExactIff` | src/apollo/cyber/data/fusion/all_latest.h:55-69 | over every interleaving a fused message is what the callback at one instant would have made of its primary if and only if, for each channel, nothing or last an equal message arrived between the primary and the look |
| `FusionRace.LookIsExactIff` | src/apollo/cyber/data/fusion/all_latest.h:58-64 | the same for one look at one channel |
| `FusionRace.OvertakenHappens` | src/apollo/cyber/data/fusion/all_latest.h:55-69 | a run from the start in which a message that arrives during the callback is fused with a primary that came before it |
| `FusionRace.UninterruptedIsExact` | src/apollo/cyber/data/fusion/all_latest.h:55-69 | a callback that nothing interrupts fuses what the callback at one instant does |
| `FusionRace.DueGoesOn` | src/apollo/cyber/data/fusion/all_latest.h:60-63 | no look of the callback of such a primary gives up |
| `DataBuffer.NothingFusedBefore` | src/apollo/cyber/data/fusion/all_latest.h:60-63 | nothing is fused before that |
| `Rpc.ResolvedOnceWithOwnResponse` | src/apollo/cyber/service/client.h:268-310 | under any loss, duplication and reordering each future resolves at most once, and only with a response computed from its own request |
| `Rpc.FirstResponseIsNeverMissed` | src/apollo/cyber/service/client.h:268-310 | a delivered response resolves its future unless an earlier one did: transmit before register misses nothing |
| `Rpc.ServesOverEveryRun` | src/apollo/cyber/service/service.h:146-247 | over every run the service takes the requests up in the order of their arrival, each once, answers each it took up once before the next, and sends exactly these answers |
| `Rpc.HistoryIsRecorded` | src/apollo/cyber/service/client.h:268-284 | the sent and the received requests are those of the calls and deliveries, in order |
| `Rpc.MatchingIffUniqueWriters` | src/apollo/cyber/service/client.h:291-310 | the matching holds over all runs if and only if writer ids are unique |
| `Rpc.SharedWriterMismatch` | src/apollo/cyber/service/client.h:291-310 | the run that breaks it for a shared id |
| `Rpc.NextInv` | src/apollo/cyber/service/service.h:146-247 | every step of clients, network and service keeps packets, calls and resolutions matched |
| `Rpc.OwnResponse` | src/apollo/cyber/service/client.h:296-302 | the filter on the writer id lets through only answers to own calls |
| `AsyncLogger.FlushReturnsAfterWriting` | src/apollo/cyber/logger/async_logger.cc:115-130 | whichever step lets a thread leave Flush while the logger runs, everything accepted before its call was written and the files were flushed after that |
| `AsyncLogger.FlushWaitsForTwoRounds` | src/apollo/cyber/logger/async_logger.cc:115-130 | while the logger runs, a thread in Flush stays as long as fewer than two rounds have ended since its call, and the next wakeup after that lets it go |
| `AsyncLogger.WaiterNeedsNoTimeout` | src/apollo/cyber/logger/async_logger.cc:122-129 | a thread woken in Flush that has to wait on has asked for another round, which needs no timeout |
| `AsyncLogger.RequestIsHonoured` | src/apollo/cyber/logger/async_logger.cc:115-177 | once a flush is asked for, two rounds bring everything accepted so far to the files |
| `AsyncLogger.ForcedIsFlushed` | src/apollo/cyber/logger/async_logger.cc:72-177 | a message written with force_flush is on disk after two rounds without any call of Flush, and so is everything accepted when the wait times out |
| `AsyncLogger.FilesFlushedOnlyWhenAsked` | src/apollo/cyber/logger/async_logger.cc:132-177 | the files are flushed at the end of a round that a flush was asked of, with all that is written, and at no other step |
| `AsyncLogger.OneRoundIsNotEnough` | src/apollo/cyber/logger/async_logger.cc:122-129 | a run in which one round leaves a message behind |
| `AsyncLogger.WrittenInOrderOverEveryRun` | src/apollo/cyber/logger/async_logger.cc:72-177 | over every run, written, flushing and active messages in this order are the accepted ones |
| `AsyncLogger.StoppedIsEmpty` | src/apollo/cyber/logger/async_logger.cc:59-70 | after Stop has joined, both buffers are empty and everything accepted was written |
| `AsyncLogger.StopEnds` | src/apollo/cyber/logger/async_logger.cc:59-70 | after Stop nothing more is accepted, and the logging thread ends after exactly as many steps of its own as there is work in the buffers |
| `AsyncLogger.RunnerNeverStuck` | src/apollo/cyber/logger/async_logger.cc:132-177 | until it has ended the logging thread always has a step to make |
| `AsyncLogger.DroppedIffHalfFull` | src/apollo/cyber/logger/async_logger.cc:72-77 | over every run a message is dropped at the size check if and only if the waiting messages take more than half of the buffer space |
| `AsyncLogger.WriteIsAcceptedIff` | src/apollo/cyber/logger/async_logger.cc:72-113 | whatever happens between check and lock, a message is accepted if and only if the buffer was not too full at the check and the logger still runs under the lock |
| `AsyncLogger.PromisedNext` | src/apollo/cyber/logger/async_logger.cc:115-177 | no step of any thread moves a waiting flush further away |

## Left out

- Memory order: atomic operations are sequentially consistent in the models of the queue, the pool, the lock, the map and the coroutine flags; weaker orders are not modelled.
- 64-bit wrap-around of counters, sequence numbers and times: counters are unbounded; the sum over edges is taken modulo 2^32 as in the source.
- Fairness: how many steps of its own a thread needs is proved for the lock-free structures, the scan, a turn of a coroutine, the fusion callback and the logging thread; that a waiting thread is eventually scheduled is not claimed.
- Unbounded queue, re-entrant lock, thread pool, signal and wait strategies: their proofs would repeat those of the bounded queue and the lock.
- SchedulerChoreography and processor affinity: the same registry protocol as the classic policy, with fixed processors.
- Transport, shared memory, discovery messages, parameters, the command line tools and the Python bindings.
- Byte layout of record sections, protobuf encoding and file offsets: a position is the number of sections before it.
- Write failures of the record file, splitting into segments, and several writing threads (the writer above serialises them).
- RecordWriter.ClosedFileIsComplete: starts from a header as the header builder makes it, with all counts and times zero; a header that a caller fills in by hand keeps what it was given.
- AsyncLogger.FlushReturnsAfterWriting: the flush of the files is one step; the severity of a message, which makes a file flush earlier, is not modelled.
- RecordReader.Reader.ReadAll: bounds times by the 64-bit fields they are stored in.
- RecordViewer.View: asks that each chunk header describes its chunk, which `RecordWriter.ClosedFileIsComplete` proves of recordings without time 0; order of the messages and file headers are arbitrary.
- ClassicContext.Context.NextRoutine: one processor at one instant; the interference of others is the subject of Scheduler.dfy and DataWait.dfy.
- DataBuffer.AllLatest.OnPrimary: looks at all secondary channels at one instant; FusionRace.dfy has the looks one after the other, as the source takes the locks, on values.
- Timer.RoundMs: exact arithmetic; the source divides in double precision before rounding.
- TimingWheel.Clockwork.Add: atomic with respect to the tick thread; the source guards the buckets, not the index, with a lock.
- DataWait.Fetch: only the counters of the ring; its contents are the subject of DataBuffer.dfy.
- AsyncLogger.WrittenInOrderOverEveryRun: one sequence of written messages; the split into one file per module is not modelled.
