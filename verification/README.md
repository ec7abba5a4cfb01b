# Verification of the stress harness's concurrent components

This project models the hand-written concurrent components of the spdlog stress
harness and proves what they promise for every schedule: the bounded thread pool, the
main program's lifecycle on top of it, the expiring cache, the ride state manager, the
metrics aggregation and the bounded producer/consumer queue.

## How it is built

Each component has

- a *model* (`*_model.dfy`): its state, its events and the function `Step`. One event is
  one critical section, one condition-variable action, or one piece of thread-local work
  nobody else can see. The scheduler is arbitrary: a statement about every feasible
  sequence of events (`Feasible`, `Run`) is a statement about every schedule. Condition
  variables may wake spuriously. The state carries the history (what was submitted, ran,
  thrown, delivered, written), which no step reads;
- *proofs* (`*_proofs.dfy`, `*_theorems.dfy`): an invariant `Inv` that holds initially and
  that every step keeps (`InvInit`, `InvStep`, `InvRun`), and theorems about whole runs.
  `Reachable(s)` says that some schedule leads to s; a lemma that requires `Inv(s)`
  holds in every reachable state and possibly more;
- a *trace* (`*_trace.dfy`): a second, independent specification that reads what must
  happen off the events of a run alone (which calls were made, in which order), without
  `Step`, the state or its history, and the theorem that every run agrees with it;
- an *object* (`thread_pool.dfy`, `harness.dfy`, `expiring_cache.dfy`,
  `ride_state_manager.dfy`, `concurrent_metrics.dfy`, `producer_consumer_queue.dfy`):
  the class with the source's fields, whose methods are the critical sections and loops,
  updating those fields in place. Ghost fields hold the program counters of the threads
  and the history. Every method is proved to take exactly the step of the same name, and
  `Schedule` takes the steps that touch no field, so every event has a method and the
  theorems hold of every interleaving of them (of the metrics only the flush touches the
  shared object, and only it is a method). The endless loops of worker,
  sweeper, dispatcher and consumer interleave with other threads, so they appear as the
  order their program counters allow, one method for each piece between two locks; loops
  inside one critical section are loops.

`common.dfy` holds the shared vocabulary. `dafny verify dfyconfig.toml` checks everything.

## What is proved, in short

- **Pool.** Tasks are taken in submission order, each body runs exactly once, and the ids
  split into queued, in progress and completed. No wake-up is lost on either condition
  variable. `wait` returns only when everything submitted has run and recorded what it
  threw, and rethrows the first exception since the last rethrow. A pool without new
  tasks drains within a computable number of steps, shutdown included. The destructor
  joins workers that have left nothing behind.
- **Main.** The active count is exact and never negative; seeing zero means every test's
  start has ended; `tests.clear()` finds no task queued or running; no wait rethrows.
  Provided every start ends once stop is raised, main ends: within a bound computed from the numbers of tests
  and workers it has raised stop, cleared the tests and joined the pool
  (`harness_progress.dfy`).
- **Cache.** `get` agrees, after any run, with "the last write to the key, if it is a put
  whose time has not come". A sweep is exactly a filter, is invisible to `get`, and never
  removes a key that was put again. Every pass pops something. An entry is evicted on
  time exactly under a condition on the heap with which the sweeper's wait began.
- **Ride manager.** Delivered, in-flight and pending notifications are all accepted
  transitions in order. A registered pair sees a contiguous stretch of them, once each.
  After unsubscribe only the dispatch under way can still reach the observer. Objects may
  die in the middle of a scan of the list: what it leaves differs from one atomic step at
  most in dead pairs, which nobody can ever see (`ride_scans.dfy`).
- **Metrics.** The shared aggregate is the summary of all flushed events under every
  interleaving, the counts modulo 2^32 without any bound; batching and flush order do not
  matter except for the last message.
- **Queue.** Items are numbered and consumed in order, each once, within the capacity.

## What turned out not to hold

- Expired entries are not always evicted on time. The sweeper's wait keeps the deadline it
  computed before sleeping, whatever is put or notified until its next sweep
  (`CacheProofs.DeadlineIsFixed`). So at any moment of a wait an entry is evicted on time
  exactly when the heap with which that wait began held an entry due no later than it, or
  the sweeper is awake with something due at that moment (`CacheProofs.EvictedOnTimeIff`).
  A put that lowers the least expiration during a wait is therefore late exactly when its
  ttl is positive (`CacheProofs.LoweringPutOnTimeIff`), and one into a heap that was empty
  can stay in the map for ever (`CacheProofs.EvictionCanStall`). `get` is not affected;
  `size` and the result of `remove` on an expired key are.
- `envelopeWith` conserves latency × count exactly unless the two counts add up to 2^32
  (`MetricsEvent.WeightConservedIff`), a batch's counts exactly unless their totals reach
  2^32 (`MetricsEvent.CountExactIff`), and is associative exactly when both bracketings
  lose the same weight that way or, where the three counts wrap to zero together, when the
  first two do so as well or have the first one's latency as their mean
  (`MetricsEvent.EnvelopeAssociativeIff`); overflow alone does no harm to associativity
  (`MetricsEvent.EnvelopeAssociative`). What the shared aggregate has lost that way is
  accounted for exactly (`MetricsProofs.WeightAccounted`). The default event is
  a left identity only for events that carry a count or no latency
  (`MetricsEvent.EnvelopeLeftIdentityIff`).
- Sequence numbers are unique exactly for the first 2^32 items
  (`QueueProofs.NumbersDistinctIff`).
- The dispatcher's retry on an empty queue is dead code: the wait never ends that way.

## Model

| member | source | states |
|---|---|---|
| PoolProofs.InvRun | C++ Project/src/include/thread_pool.h:119-168 | the pool's whole invariant survives every schedule of submits, waits, workers and destruction |
| PoolTheorems.ExactlyOnceInOrder | C++ Project/src/include/thread_pool.h:74-75 | taken then queued tasks are the submissions in id order; in-progress and completed ids split the taken ones; one in-progress id per worker on a task, so at most maxThreads; no body runs twice |
| PoolProofs.NoLostWakeupStep | C++ Project/src/include/thread_pool.h:71-78 | every step keeps: nobody sleeps on the work condition, or queued tasks are at most the awake workers about to test plus the owed notifies |
| PoolTheorems.WorkConserved | C++ Project/src/include/thread_pool.h:71-142 | in every reachable state nobody sleeps on the work condition or queued tasks are at most the workers about to test plus the owed notifies; with no notify owed, queued work has a worker that is neither asleep nor gone |
| PoolTheorems.WaitSeesAllDone | C++ Project/src/include/thread_pool.h:97-102 | when wait's predicate holds, every submitted task has run exactly once, and an exception is recorded for it exactly if the history has its body end that way; that the history is that of the bodies' throws is PoolTrace.WaitFollowsThrows |
| PoolTheorems.WaitRethrowsFirst | C++ Project/src/include/thread_pool.h:104-109 | wait rethrows exactly the first exception recorded since the last rethrow and clears it, otherwise returns, and blocks only while work remains |
| PoolTrace.WaitFollowsThrows | C++ Project/src/include/thread_pool.h:97-109 | in every run, by its events alone: a test of wait blocks exactly until all that was submitted has been taken and erased; then the records are exactly what the bodies threw, each once, and the test rethrows the first record no earlier test dealt with, or returns if nothing was thrown since |
| PoolTrace.OneThrowIsRethrown | C++ Project/src/include/thread_pool.h:104-156 | if just one body has thrown, the first test of wait in quiet rethrows what it threw |
| PoolTrace.TasksFollowCalls | C++ Project/src/include/thread_pool.h:71-142 | queued are exactly the submitted jobs not yet taken, in order; a worker on a task runs the job that was submitted under the id it took |
| PoolTrace.QuietMeansRunOnce | C++ Project/src/include/thread_pool.h:97-102 | in quiet the body of every submitted task has ended exactly once, and of no other |
| PoolTheorems.SpuriousIsHarmless | C++ Project/src/include/thread_pool.h:99-102 | a spurious wake-up in wait leads to a re-test that blocks again while work remains |
| PoolTheorems.RethrowInDestructorTerminates | C++ Project/src/include/thread_pool.h:35-47 | a destructor whose wait rethrows ends there: in no schedule does it set stopping, notify or join |
| PoolTheorems.DrainBound | C++ Project/src/include/thread_pool.h:119-168 | without new tasks, in any schedule, the destructor's broadcast included, worker and notifier steps never exceed an explicit measure plus one for each spurious wake-up of a worker |
| PoolTheorems.DrainProgress | C++ Project/src/include/thread_pool.h:121-142 | while a task is queued or in progress some worker or notifier can move |
| PoolTheorems.Drains | C++ Project/src/include/thread_pool.h:99-102 | any schedule without new tasks, shutdown included, that cannot take another work step has reached wait's predicate, within that bound, with no waiter asleep |
| PoolTheorems.StaysDrained | C++ Project/src/include/thread_pool.h:99-102 | wait's predicate, once true, stays true whatever happens until the next submission |
| PoolTheorems.DrainSchedule | C++ Project/src/include/thread_pool.h:119-168 | from every state a schedule of at most the measure's length reaches wait's predicate |
| PoolTheorems.AwakeAfterBroadcast | C++ Project/src/include/thread_pool.h:44-49 | once the destructor has set stopping and notified all, no worker is asleep or sleeps again |
| PoolTheorems.JoinProgress | C++ Project/src/include/thread_pool.h:51-57 | until every worker has exited one of them can move, and the measure falls, so the join ends |
| PoolTheorems.ExitedLeaveNothing | C++ Project/src/include/thread_pool.h:133-136 | a worker has exited only if stopping is set and no task is or will be queued |
| PoolTheorems.JoinedMeansDone | C++ Project/src/include/thread_pool.h:35-58 | when the destructor has joined, every submitted task has been carried out exactly once |
| Pool.ThreadPool.constructor | C++ Project/src/include/thread_pool.h:17-33 | the initial state, all workers about to test their predicate |
| Pool.ThreadPool.SubmitPush | C++ Project/src/include/thread_pool.h:71-76 | the push step, returning the next consecutive id |
| Pool.ThreadPool.SubmitNotify | C++ Project/src/include/thread_pool.h:78-78 | the notify step, after the lock is released |
| Pool.ThreadPool.WaitCheck | C++ Project/src/include/thread_pool.h:97-109 | the wait step and what its caller observes |
| Pool.ThreadPool.SetStopping | C++ Project/src/include/thread_pool.h:44-47 | the stopping step |
| Pool.ThreadPool.TakeTask | C++ Project/src/include/thread_pool.h:125-142 | the take step: sleep, exit, or the head of the queue under an id not in progress |
| Pool.ThreadPool.Record | C++ Project/src/include/thread_pool.h:148-156 | the record step, keeping the first exception |
| Pool.ThreadPool.Erase | C++ Project/src/include/thread_pool.h:158-167 | the erase step, waking the waiters exactly when nothing is left |
| HarnessProofs.ActiveCount | C++ Project/src/main.cpp:111-132 | activeTestsCount is tests announced minus bodies that decremented, never negative |
| HarnessProofs.SeeZeroMeansAllEnded | C++ Project/src/main.cpp:137-148 | when the heartbeat sees zero, every test has been submitted and its start has returned or thrown |
| HarnessProofs.ClearIsSafe | C++ Project/src/main.cpp:150-154 | tests.clear() is reached only with stop raised, no task queued or running, every test's body run once |
| HarnessProofs.WaitNeverRethrows | C++ Project/src/main.cpp:115-131 | task bodies catch everything, so neither main's wait nor the destructor's rethrows |
| HarnessProofs.NothingRunsAfterClear | C++ Project/src/main.cpp:154-160 | from tests.clear() to the end of the pool's destructor no worker is on a task |
| HarnessProgress.MainEnds | C++ Project/src/main.cpp:111-160 | in every schedule at most 10 steps of progress for each test, 2 for each worker, 11 more and one for each spurious wake-up; when none is possible any more, even if no start can be counted on to end before stop is raised, stop is raised, every test has run, the tests are cleared and the pool is joined |
| HarnessTrace.PoolIsARun | C++ Project/src/main.cpp:109-132 | what main makes its pool do is a run of the pool, whose jobs are the indices of the tests pushed, in order |
| HarnessTrace.CountFollowsEvents | C++ Project/src/main.cpp:111-151 | activeTestsCount is the announcements less the decrements of the run, stop is raised exactly if main raised it, and the ended tests are those the workers held when a start ended |
| HarnessTrace.ZeroFollowsEvents | C++ Project/src/main.cpp:137-148 | by the events alone: the heartbeat leaves on zero only after every test was pushed and its start has ended |
| HarnessTrace.ClearFollowsEvents | C++ Project/src/main.cpp:150-154 | by the events alone: the tests are cleared only after stop was raised and the body of every test has run to its end, once |
| Harness.Program.AnnounceTest | C++ Project/src/main.cpp:113-113 | the count goes up before the submit |
| Harness.Program.LeaveSubmitLoop | C++ Project/src/main.cpp:111-132 | the loop ends after the last test |
| Harness.Program.Push | C++ Project/src/main.cpp:115-131 | test i is submitted to the pool as task i |
| Harness.Program.Notify | C++ Project/src/main.cpp:115-132 | the notify after the push, and on to the next test |
| Harness.Program.CheckActive | C++ Project/src/main.cpp:139-143 | the heartbeat leaves on zero, and then every start has ended |
| Harness.Program.LeaveHeartbeat | C++ Project/src/main.cpp:137-137 | the heartbeat leaves when its time is up |
| Harness.Program.StopAll | C++ Project/src/main.cpp:151-151 | stop is raised |
| Harness.Program.TestPoolWait | C++ Project/src/main.cpp:152-152 | main's wait ends only with every start ended and the count at zero |
| Harness.Program.TestDestructorWait | C++ Project/src/include/thread_pool.h:35-42 | the destructor's wait neither blocks nor rethrows under main |
| Harness.Program.StopPool | C++ Project/src/include/thread_pool.h:44-47 | the destructor's stopping step |
| Harness.Program.WorkerTakes | C++ Project/src/main.cpp:115-119 | a worker takes test i as task i, whose start has not ended, sleeps, or leaves, the last only under the destructor |
| Harness.Program.WorkerErases | C++ Project/src/main.cpp:130-131 | the end of a task body's task |
| Harness.Program.DecrementActive | C++ Project/src/main.cpp:130-130 | the last statement of a task body |
| CacheProofs.InvRun | C++ Project/src/include/non_test/expiring_cache.h:71-134 | map, heap, generations, sweeper and log stay consistent through every run |
| CacheProofs.GetRefinesSpec | C++ Project/src/include/non_test/expiring_cache.h:136-159 | after any run get returns v exactly when the last write to the key is a put of v whose deadline is after now; after stop it returns nothing |
| CacheTrace.GetFollowsCalls | C++ Project/src/include/non_test/expiring_cache.h:113-179 | in every run, by its calls and ticks alone: get returns v exactly if stop was not called and the last call before it that named the key is a put of v whose deadline lies ahead |
| CacheTrace.MapFollowsCalls | C++ Project/src/include/non_test/expiring_cache.h:113-179 | a key is physically present only as the last call that named it put it, absent after a remove, and missing after a put only once its deadline has come |
| CacheProofs.SweepIsInvisibleFilter | C++ Project/src/include/non_test/expiring_cache.h:93-102 | the sweep step changes no get and pops at least one entry; that the loop of pops amounts to this step is PopExpired, from PopPaired for one pop |
| CacheProofs.PopPaired | C++ Project/src/include/non_test/expiring_cache.h:96-101 | one pop keeps heap and map paired and drops a map entry only if that entry has itself expired, so a stale heap entry never evicts a re-put key |
| CacheProofs.PresenceBounds | C++ Project/src/include/non_test/expiring_cache.h:161-179 | what get returns is physically present, what was removed or never put is not |
| CacheProofs.OnlySweepsPop | C++ Project/src/include/non_test/expiring_cache.h:77-103 | between sweeps the heap only grows, so its least expiration never rises while the sweeper waits |
| CacheProofs.TimeoutFindsDue | C++ Project/src/include/non_test/expiring_cache.h:81-86 | a wait that times out finds an expired entry |
| CacheProofs.PassesAtMostPuts | C++ Project/src/include/non_test/expiring_cache.h:93-102 | passes never exceed pops, which are the accepted puts not in the heap |
| CacheTrace.SweepsAtMostPuts | C++ Project/src/include/non_test/expiring_cache.h:93-102 | in every run the sweeps are at most the puts before the stop, less the entries still in the heap |
| CacheProofs.PutWakesSweeper | C++ Project/src/include/non_test/expiring_cache.h:128-133 | a put that fills an empty heap or lowers its minimum wakes the sweeper, whichever top the heap reports on ties |
| CacheProofs.PutWakesIff | C++ Project/src/include/non_test/expiring_cache.h:128-133 | a put wakes a sleeping sweeper if all least entries have its key, and not if none has |
| CacheProofs.RemoveWakesIff | C++ Project/src/include/non_test/expiring_cache.h:172-176 | so does a remove |
| CacheTrace.SpuriousIsHarmless | C++ Project/src/include/non_test/expiring_cache.h:81-86 | a spurious wake-up leads to a re-test, which sweeps what is due or waits on with the same deadline |
| CacheProofs.DeadlineIsFixed | C++ Project/src/include/non_test/expiring_cache.h:79-86 | from the start of a wait until its sweep, in every run, the deadline is the least expiration of the heap the wait began with, or none for an empty heap |
| CacheProofs.WakesByItselfIff | C++ Project/src/include/non_test/expiring_cache.h:79-86 | whatever is put, removed or notified since the wait began, a sleeping sweeper wakes by time alone exactly if the heap was not empty when its wait began |
| CacheProofs.NothingBeforeDeadline | C++ Project/src/include/non_test/expiring_cache.h:81-84 | left alone, a sleeping sweeper changes nothing but the clock before its deadline, and for ever without one |
| CacheProofs.TimeoutClearsExpired | C++ Project/src/include/non_test/expiring_cache.h:81-102 | from its deadline on the wait can time out, and the pass that follows clears every expired entry |
| CacheProofs.SweeperRests | C++ Project/src/include/non_test/expiring_cache.h:75-103 | left alone, the sweeper comes to rest: each heap entry costs it at most three steps, and one more test |
| CacheProofs.EvictedOnTimeIff | C++ Project/src/include/non_test/expiring_cache.h:79-102 | at any moment from a wait's beginning to its sweep, a heap entry is evicted on time exactly if the heap with which the wait began held an entry due no later than it (or than now, if it is due already), or the sweeper is awake with something due; in time means in any company short of a stop, late means even left alone |
| CacheProofs.LoweringPutOnTimeIff | C++ Project/src/include/non_test/expiring_cache.h:79-134 | a put that lowers the least expiration during a wait is evicted on time exactly if its ttl is not positive |
| CacheProofs.EvictionCanStall | C++ Project/src/include/non_test/expiring_cache.h:79-86 | the worst case: an expired entry that stays in the map for any length of time |
| CacheProofs.StoppedForGood | C++ Project/src/include/non_test/expiring_cache.h:118-121 | after stop, writes are refused and reads find nothing, for ever |
| CacheProofs.StopBoundsSweeper | C++ Project/src/include/non_test/expiring_cache.h:81-91 | in every run after the flag is set the sweeper takes at most two steps |
| CacheProofs.StopReachesSweeper | C++ Project/src/include/non_test/expiring_cache.h:194-209 | once stop has set its flag and notified, and until the sweeper has exited, it can take a step that brings it closer |
| Cache.TExpiringCache.constructor | C++ Project/src/include/non_test/expiring_cache.h:70-105 | the empty cache with its sweeper about to arm |
| Cache.TExpiringCache.Put | C++ Project/src/include/non_test/expiring_cache.h:113-134 | the put step; before stop the key then has this value and deadline, no other key changes, and it notifies when it must |
| Cache.TExpiringCache.Get | C++ Project/src/include/non_test/expiring_cache.h:136-159 | get answers as the log of writes says, from what is physically there and not yet due |
| Cache.TExpiringCache.Remove | C++ Project/src/include/non_test/expiring_cache.h:161-179 | the remove step; before stop the key is then absent, no other key changes, and the result is whether it was present, so true for every key get would return |
| Cache.TExpiringCache.Size | C++ Project/src/include/non_test/expiring_cache.h:181-192 | the physical size, with every live key among the entries counted |
| Cache.TExpiringCache.SetStop | C++ Project/src/include/non_test/expiring_cache.h:197-201 | the stop step |
| Cache.TExpiringCache.Arm | C++ Project/src/include/non_test/expiring_cache.h:77-93 | the top of the sweeper's loop up to the first predicate test |
| Cache.TExpiringCache.PopExpired | C++ Project/src/include/non_test/expiring_cache.h:94-102 | the popping loop leaves exactly the unexpired entries, whatever the order of pops among ties |
| Cache.TExpiringCache.SweepPass | C++ Project/src/include/non_test/expiring_cache.h:93-102 | one pass is the sweep step and shrinks the heap |
| RideTheorems.TransitionHistory | C++ Project/src/include/ride_state_manager.h:288-309 | delivered, in-flight and pending notifications are all accepted transitions, a legal linked path from Idle to the current state, with Completed ≤ InProgress ≤ PassengerBoarding ≤ Requested ≤ 1 + returns to Idle |
| RideTheorems.Ladder | C++ Project/src/include/ride_state_manager.h:311-343 | on every legal path each stage is entered at most as often as the one before it |
| RideTrace.RideFollowsCalls | C++ Project/src/include/ride_state_manager.h:288-309 | in every run, by its events alone: the ride is where the legal requests, before shutdown and with fewer than 1024 pending, have brought it, and the queue holds those of them not yet popped |
| RideTrace.TransitionTable | C++ Project/src/include/ride_state_manager.h:311-343 | with room and before shutdown a request changes the state exactly along one of the eight edges of the source's table, listed one by one |
| RideTrace.FullRideAndResets | C++ Project/src/include/ride_state_manager.h:273-343 | from the start a full ride is accepted stage by stage, and a reset from each stage |
| RideTheorems.RegisteredSeesAll | C++ Project/src/include/ride_state_manager.h:113-159 | a pair alive and registered throughout a stretch is handed every notification snapshotted in it, once each, in order, as one contiguous stretch of the linked history, whatever callbacks throw or call |
| RideTrace.ListFollowsCalls | C++ Project/src/include/ride_state_manager.h:194-254 | in every run, by its events alone: the living registered pairs are those the subscriptions, unsubscriptions and deaths have left, in subscription order |
| RideTrace.CallsFollowEvents | C++ Project/src/include/ride_state_manager.h:113-159 | in every run, by its events alone: each snapshot is that list, and each dispatch calls its next pair with the transition of the same number |
| RideTrace.DispatchCalls | C++ Project/src/include/ride_state_manager.h:145-149 | every dispatch does make a call |
| RideTrace.SubscribedSeesAll | C++ Project/src/include/ride_state_manager.h:186-219 | from a subscribe before shutdown until something unregisters the pair, every snapshot holds it and it is handed each of those notifications, once and in order |
| RideTheorems.ViewIsSnapped | C++ Project/src/include/ride_state_manager.h:145-159 | a pair has been handed exactly the notifications whose snapshot holds it |
| RideTheorems.ViewIncreases | C++ Project/src/include/ride_state_manager.h:145-159 | no pair is handed a notification twice or out of order |
| RideTheorems.CallsAreAccepted | C++ Project/src/include/ride_state_manager.h:113-114 | every dispatch call carries the accepted transition it is for |
| RideTheorems.UnsubscribedSeesNoMore | C++ Project/src/include/ride_state_manager.h:222-258 | after a successful unsubscribe and until the next subscribe of the observer, only the notification already being dispatched can reach it |
| RideTrace.UnsubscribeRemoves | C++ Project/src/include/ride_state_manager.h:222-258 | an unsubscribe takes exactly the observer's pairs off and leaves the others in their order |
| RideTheorems.SubscribeOutcome | C++ Project/src/include/ride_state_manager.h:194-218 | a new pair goes behind the living ones; a duplicate leaves the living ones as they are although its scan stops early |
| RideTrace.SubscribeRegisters | C++ Project/src/include/ride_state_manager.h:194-218 | before shutdown a subscribe leaves the pair registered, every other living pair as it was and in its order, and a new pair behind them all |
| RideTheorems.NoPairTwice | C++ Project/src/include/ride_state_manager.h:194-216 | registrations are pairwise distinct in every reachable state, and so is every snapshot |
| RideTheorems.SnapshotIsLiving | C++ Project/src/include/ride_state_manager.h:122-143 | a snapshot keeps and dispatches to exactly the registered pairs that are alive |
| RideTheorems.LivingAppend | C++ Project/src/include/ride_state_manager.h:128-142 | cleaning both-alive pairs filters piece by piece, so it keeps order |
| RideTheorems.OthersAppend | C++ Project/src/include/ride_state_manager.h:237-254 | so does unsubscribe's cleaning |
| RideScans.DeadPairsAreInvisible | C++ Project/src/include/ride_state_manager.h:122-143 | two states that differ only in dead pairs on the list go through the same runs with the same calls, snapshots and transitions, for ever |
| RideScans.DeathsAreARun | C++ Project/src/include/ride_state_manager.h:128-131 | the deaths during a scan, of objects no dispatch holds, are a run of events |
| RideScans.SubscribedInTheEnd | C++ Project/src/include/ride_state_manager.h:194-216 | a subscribe scan and the atomic step keep the same living pairs, whoever dies in between |
| RideScans.OthersInTheEnd | C++ Project/src/include/ride_state_manager.h:237-254 | so do the unsubscribe scan and its step |
| RideTheorems.FrozenAfterShutdown | C++ Project/src/include/ride_state_manager.h:295-298 | after shutdown begins the state and its history are frozen |
| RideTheorems.ExitDelivers | C++ Project/src/include/ride_state_manager.h:94-116 | an exited dispatcher delivered a prefix of the accepted transitions, and all of them if stop was never raised |
| RideTheorems.SleeperMissesNothing | C++ Project/src/include/ride_state_manager.h:98-101 | a sleeping dispatcher has an empty queue and no shutdown, unless the destructor's notify is still owed |
| RideTheorems.ShutdownBound | C++ Project/src/include/ride_state_manager.h:164-177 | after shutdown begins the dispatcher makes at most an explicit number of steps, however callers interleave |
| RideTheorems.ShutdownProgress | C++ Project/src/include/ride_state_manager.h:171-176 | once notified, it can always step until the join can proceed |
| RideTrace.NothingAfterJoin | C++ Project/src/include/ride_state_manager.h:171-176 | after the join nobody is ever called, no dispatcher step happens, and there is no second join |
| RideTrace.StopBoundsPops | C++ Project/src/include/ride_state_manager.h:92-116 | once stop is raised the dispatcher pops at most one more notification, and only if it was past reading the flag |
| RideTrace.IdleDispatcherBlocks | C++ Project/src/include/ride_state_manager.h:98-101 | with nothing to deliver and no shutdown the dispatcher blocks; a spurious wake-up only makes it test again |
| RideManager.RideStateManager.TryChangingState | C++ Project/src/include/ride_state_manager.h:288-309 | true exactly along one of the eight edges with fewer than 1024 pending and before shutdown; the state is then the requested one and the transition is appended to the history, otherwise nothing changes |
| RideManager.RideStateManager.GetCurrentState | C++ Project/src/include/ride_state_manager.h:266-270 | the target of the last accepted transition |
| RideManager.RideStateManager.TestQueue | C++ Project/src/include/ride_state_manager.h:96-116 | the dispatcher's step under the mutex; what it pops is the next accepted transition |
| RideManager.RideStateManager.CollectHealthy | C++ Project/src/include/ride_state_manager.h:128-142 | the erasing loop leaves and returns the living pairs in order, as of its end, whoever dies during it |
| RideManager.RideStateManager.TakeSnapshot | C++ Project/src/include/ride_state_manager.h:122-143 | the snapshot step, after the deaths during the scan |
| RideManager.RideStateManager.ScanForDuplicate | C++ Project/src/include/ride_state_manager.h:194-214 | the scan finds the pair exactly if registered and erases, only up to it, the pairs dead at the moment of their visit |
| RideManager.RideStateManager.SubscribePair | C++ Project/src/include/ride_state_manager.h:186-219 | before shutdown the pair is on the list afterwards, at its end if it was new, and no living pair is lost; the subscribe step, or with deaths during the scan that step followed by them, but for dead pairs |
| RideManager.RideStateManager.EraseObserver | C++ Project/src/include/ride_state_manager.h:237-254 | the erasing loop leaves, in order, the pairs of other observers alive at the moment of their visit |
| RideManager.RideStateManager.UnsubscribeObserver | C++ Project/src/include/ride_state_manager.h:222-258 | before shutdown no pair of the observer is on the list afterwards and no other living pair is lost; the unsubscribe step, or with deaths during the scan that step followed by them, but for dead pairs |
| RideManager.RideStateManager.BeginDestroy | C++ Project/src/include/ride_state_manager.h:166-169 | the shutdown step |
| MetricsEvent.EnvelopeAssociative | C++ Project/src/include/concurrent_metrics.h:78-97 | envelopeWith is associative, overflow or not, where no adjacent counts add up to 2^32 and the three do not wrap to zero |
| MetricsEvent.EnvelopeAssociativeIff | C++ Project/src/include/concurrent_metrics.h:78-97 | exactly when envelopeWith is associative: both bracketings lose the same weight to counts of 2^32, or, where all three counts wrap to zero, the first two do so as well or have the first latency as their mean |
| MetricsEvent.EnvelopeRightIdentity | C++ Project/src/include/concurrent_metrics.h:78-97 | the default event is a right identity, always |
| MetricsEvent.EnvelopeLeftIdentityIff | C++ Project/src/include/concurrent_metrics.h:69-74 | exactly when it is a left identity too |
| MetricsEvent.WeightConservedIff | C++ Project/src/include/concurrent_metrics.h:80-90 | exactly when an envelope conserves latency × count |
| MetricsEvent.CountExactIff | C++ Project/src/include/concurrent_metrics.h:62-91 | a consolidated batch has exact counts if and only if their totals fit |
| MetricsEvent.OverflowBreaksAssociativity | C++ Project/src/include/concurrent_metrics.h:80-90 | the family of failures in which the first two counts add up to 2^32: order matters exactly if they carry weight |
| MetricsEvent.FoldedIsSummary | C++ Project/src/include/concurrent_metrics.h:62-77 | consolidating computes total counts, the mean latency and the last message |
| MetricsEvent.EnvelopeSays | C++ Project/src/include/concurrent_metrics.h:78-97 | an envelope in plain terms: counts modulo 2^32, latency × count added up while there is a count and the old latency otherwise, the later message that is not empty |
| MetricsEvent.FoldedMessage | C++ Project/src/include/concurrent_metrics.h:62-97 | a consolidated batch has the message of the last event whose message does not begin with NUL, and none if there is none |
| MetricsEvent.BatchingIndependent | C++ Project/src/include/concurrent_metrics.h:62-97 | consolidating two batches and enveloping equals consolidating them together |
| MetricsEvent.OrderIndependent | C++ Project/src/include/concurrent_metrics.h:147-158 | counts and mean depend on which events there are, not on their order |
| MetricsProofs.AggregateIsSummary | C++ Project/src/include/concurrent_metrics.h:138-174 | under every interleaving the shared data has the flushed events' counts modulo 2^32 and last message and, while the count fits, their mean, average × processed being their weighted sum; nothing is lost or doubled; each report is such an aggregate of an earlier moment |
| MetricsTrace.AggregateFollowsActions | C++ Project/src/include/concurrent_metrics.h:138-174 | in every run, by its actions alone: the shared data aggregates exactly the batches flushed, each report what had been flushed when it was taken, and a worker still holds what it created since its last flush |
| MetricsTrace.BatchesAreFull | C++ Project/src/include/concurrent_metrics.h:161-174 | workers flush 64 events at a time, and fewer only when they leave |
| MetricsTrace.StopEndsCreation | C++ Project/src/include/concurrent_metrics.h:161-174 | a worker that tests the flags after the stop, or after a worker has failed, creates no further event |
| MetricsProofs.WeightAccounted | C++ Project/src/include/concurrent_metrics.h:78-97 | in every run, with no bound on the counts, average × processed is the flushed events' weighted sum less exactly what counts of 2^32 lost, nothing while the count fits, and the average follows |
| MetricsProofs.FinalCounts | C++ Project/src/include/concurrent_metrics.h:161-174 | when all workers exit normally, flushed is exactly generated and the aggregate has their counts modulo 2^32, and their mean while the count fits |
| MetricsProofs.ScheduleIndependent | C++ Project/src/include/concurrent_metrics.h:161-174 | two schedules with the same events end with the same counts, and the same average while the count fits |
| Metrics.Aggregate.EnvelopeWith | C++ Project/src/include/concurrent_metrics.h:78-97 | the in-place update, field by field in plain terms, conserving count and weight while they fit |
| Metrics.Consolidate | C++ Project/src/include/concurrent_metrics.h:62-77 | nothing for the empty batch, otherwise the summary of the batch |
| Metrics.SharedData.Flush | C++ Project/src/include/concurrent_metrics.h:141-159 | a flush turns an aggregate of the earlier events into one that includes the batch, and adds the batch's weight less exactly what the flush loses |
| QueueProofs.FifoNumbering | C++ Project/src/include/producer_consumer_queue.h:57-64 | popped then queued are the accepted items in order, numbered from 0 modulo 2^32, within the capacity |
| QueueTrace.ItemsFollowCalls | C++ Project/src/include/producer_consumer_queue.h:57-101 | in every run, by its events alone: the i-th successful test gets the item of the i-th attempt that found room, numbered i modulo 2^32 |
| QueueProofs.NumbersDistinctIff | C++ Project/src/include/producer_consumer_queue.h:61-61 | sequence numbers are unique exactly for at most 2^32 items |
| QueueProofs.ConsumerSeesIncreasing | C++ Project/src/include/producer_consumer_queue.h:83-111 | each consumer pops strictly increasing numbers until the counter wraps |
| QueueProofs.FullQueueRefuses | C++ Project/src/include/producer_consumer_queue.h:57-64 | of any burst of producers between two pops exactly the first ones for which there is room add an item, and only they use up numbers |
| QueueProofs.ConsumersLeaveOnStop | C++ Project/src/include/producer_consumer_queue.h:83-98 | in every run a consumer that has left found stop raised |
| QueueTrace.ConsumerLeavesIff | C++ Project/src/include/producer_consumer_queue.h:83-98 | a consumer has left exactly if a test of its own found stop raised, at the top of its loop or with nothing queued |
| QueueTrace.StopBoundsPops | C++ Project/src/include/producer_consumer_queue.h:83-111 | once stop is raised each consumer pops at most once more |
| QueueTrace.ConsumerBlocks | C++ Project/src/include/producer_consumer_queue.h:85-98 | before stop a consumer that finds nothing blocks, and goes round its loop only at a time-out |
| WorkQueue.BoundedQueue.TryProduce | C++ Project/src/include/producer_consumer_queue.h:56-64 | the producer's step, also after stop is raised, to be notified exactly if an item was added |
| WorkQueue.BoundedQueue.TakeBeforeWait | C++ Project/src/include/producer_consumer_queue.h:85-101 | the consumer's step on the test that begins its wait, likewise |
| WorkQueue.BoundedQueue.TakeAfterWait | C++ Project/src/include/producer_consumer_queue.h:85-101 | the consumer's step on a wake-up or time-out, popping the oldest accepted item not yet popped |

## Left out

- Weak memory ordering: steps are sequentially consistent, and `std::scoped_lock` on two mutexes is one atomic acquisition.
- The pool's unlimited mode (one thread per task, `maxThreads_` empty): it only joins its threads.
- Failures of thread creation and of allocation, in every component.
- Submitting to a pool whose destructor has gone past its wait: undefined in C++, so the model does not let it happen. A task that submits further tasks is one more client thread.
- Width of the pool's `nextTaskId_` and the cache's generation counter, and overflow of `now + ttl`: unbounded here. The metric counts and the queue's sequence numbers do wrap.
- Floating-point rounding: latencies are reals.
- Key and value types of the cache: integers stand for both; the proofs use only equality of keys. The heap is kept in insertion order with an arbitrary least entry as its top, so the array layout of `std::priority_queue` is not part of this model.
- Object identity and `shared_ptr`/`weak_ptr`: observers and dispatchers are numbers that are never reused, and a weak pointer locks as long as its object is not dead. `subscribe` and `unsubscribe` with a null pointer return before touching anything.
- A callback or task that never returns, and the way out of main by an exception.
- The metrics reporter may take its last copy before a worker's last flush; reports are only claimed to be summaries of some moment.
- Items left in the queue when the consumers leave on stop.
- Flags read several times within one critical section (a consumer's `stop`) are read once.
- CacheProofs.EvictionCanStall: no bound on how late an entry is physically erased is claimed, because there is none; when it is on time is `CacheProofs.EvictedOnTimeIff`.
- MetricsProofs.AggregateIsSummary: the mean latency only while fewer than 2^32 events have been processed; past that it is in `MetricsProofs.WeightAccounted`, for the shared aggregate but not for the copies the reporter took. The counts carry no bound.
- HarnessProgress.MainEnds: for at least one worker. A pool of none never runs a task.
- QueueProofs.ConsumerSeesIncreasing: for the first 2^32 pops, after which the numbers start again at 0.
- Logging, sinks, sleeping and spinning, the remaining small tests (`level.h`, `level5.h`, `string_uaf.h`, `sink_callback.h`, `diagnostics.h`, `timebase.h`) and the command line: foreign code or input and output. `hamed_common` is not part of this model.
