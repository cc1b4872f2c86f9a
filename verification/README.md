# A verified model of throttle-net's bookkeeping and waiting protocols

throttle-net is an outbound rate limiter. Token-bucket arithmetic is delegated to another crate; what is hard
about it is its own bookkeeping and its waiting protocols. This project models those and proves what they are
for. `dafny verify dfyconfig.toml` checks everything.

| files | what they model |
|---|---|
| `Bucket.dfy`, `Ledger.dfy`, `ShardMap.dfy`, `Store.dfy`, `StoreRefinement.dfy`, `StoreExcess.dfy`, `Collision.dfy` | the bounded per-key store: dense slots found through an index, CLOCK eviction, idle sweep, debt ledger; refined against an ideal store that never forgets, never laxer and hardly stricter, and the calls by which a store with two keys of one hash fails to |
| `Scheduling.dfy`, `Bypass.dfy`, `Levels.dfy`, `Scheduler.dfy`, `Queue.dfy`, `Wakes.dfy` | the priority queue: six indexes, the order of turns, pruned fairness state, bounded bypass, and who is told of its turn |
| `Composite.dfy`, `Waiting.dfy`, `Charge.dfy` | requests that must clear several limiters at once, the waiting engine, and the default charge |
| `Slots.dfy`, `Adaptive.dfy`, `Resume.dfy` | compare-exchange loops and wake-ups of the bulkhead and the adaptive limiter, the adaptive limit, and pauses lifted while waiters fall asleep |
| `Breaker.dfy`, `BreakerRuns.dfy` | the circuit breaker: generations, trial slots, trip histories |
| `SlidingLog.dfy`, `SlidingRuns.dfy`, `SlidingExact.dfy` | the exact sliding window log |
| `Calendar.dfy` | the civil calendar arithmetic behind `Retry-After` dates |

Objects that the source updates in place are classes with the same fields, each method proved against a
specification of its whole new state; theorems about sequences of calls are lemmas about those specifications.
Concurrent protocols are transition systems with one step per atomic operation, in which any number of callers
interleave.

## What is assumed

- The token bucket is known by its contract only: the instant it is full, scaled by the refill amount. Taking
  `c` tokens moves that instant on by `c` refill periods from the later of it and now. "Time until full" is the
  least bound in whole nanoseconds; that a store is never laxer uses only that it is a bound. Restoring a debt relies on a
  reservation within capacity and without a limit on the wait never being refused.
- Clock readings do not go back. Times in the store and the queue are unbounded integers.
- `event_listener::Event` marks one more listener per additional notification and passes the mark of a dropped
  listener on; a broadcast marks all listeners.
- Hash tables are finite maps; ordered maps and sets give their least element.

## Where the code falls short of its documentation

- **Resume** (`src/rt.rs:47-83`, `src/wait.rs:131-205`). The comments say a waiter that sees the new epoch never
  sleeps through a resume. A waiter that reads the epoch after a resumer bumped it, but sees the pause before
  that resumer clears it, and registers its listener after the notification, sleeps on.
  `Resume.SleepsThroughIffResumerUnderWay` gives the exact condition for sleeps with a listener. Naps of at most a
  millisecond have none (`src/rt.rs:74-77`), so a resume can come and go within one (`Resume.NapMissesResume`, a run
  from the start).
- **Debts by hash** (`src/store.rs:184-193`, `src/store.rs:240-243`). The ledger is keyed by hash alone. With two
  keys of one hash, creating or removing one takes the other's debt away. `StoreRefinement.RefinesIffDistinctOrFew`
  gives the exact condition for a store of any capacity, and `Collision.Overshoot` makes the failing calls on an
  actual store: the victim is the one its CLOCK hand picks.
- **Resets** (`src/perkey.rs:473-494`). Resetting a key is to restore its full allowance, but a key that was evicted
  while limited keeps its debt: exactly the live keys and those that owe nothing any more are restored
  (`StoreExcess.ResetRestoresIff`, and a run in `StoreExcess.ResetMissesDebt`). Refunds and removals do reach debts.
- **Put-back of a collected debt** (`src/store.rs:654-660`). Collecting the debt frees a place in the ledger, so
  the refusal that would put it back cannot happen; the model asserts this instead of keeping the dead branch.
- **Refunds of the sliding log** (`src/sliding.rs:385-420`). A refund leaves the limiter no more permissive at any
  later reading than removing the right grant would, exactly when that grant is still in the window or the log,
  after giving the units up, counts as many as the history has inside the window (`SlidingRuns.RefundSafeIff`). One
  that comes too late makes the limiter overshoot (`SlidingRuns.LateRefundOvershoots`). At the very end of the `u64`
  range a grant expires early (`SlidingLog.ExpiryIsExact`).
- **Calendar** (`src/timeutil.rs:28-39`). Days past the end of a month are accepted and run on into the next one
  (`Calendar.OverlongMonthsRunOn`).
- **Adaptive limit** (`src/adaptive.rs:460-505`). The epoch check and the bump are separate steps, so two failures
  of one epoch can each lower the limit: exactly when one passes its check while the other is past its own and has
  not bumped the epoch (`Adaptive.SharedEpochIffOverlapped`, `Adaptive.SecondDecreaseIffEpochStands`), which can
  happen from the start (`Adaptive.OverlapDecreasesTwice`).
- **Breaker** (`src/circuit.rs:1218-1231`). A refund or an outcome without a permit can free the slot of somebody
  else's trial; `BreakerRuns.ReportIsExactIffMatched` says exactly which. The comment there calls permits exact;
  after such a refund they are not, once the trait's trial is withdrawn (`BreakerRuns.PermitMiscounted`). Both
  happen after a four-call run from the start (`BreakerRuns.MiscountsHappen`).
- **Queue** (`src/queue.rs:24-26`, `src/queue.rs:42-45`). The waiter that gains the turn is not always woken:
  exactly not when it gains it in another waiter's look that dropped the expired holder
  (`Wakes.UntoldIffOverlooked`); it is then left to its own recheck. `Wakes.Overlook` makes the calls on an actual
  queue.

## Model

| member | source | states |
|---|---|---|
| Bucket.LosslessIsFull | src/store.rs:151-159 | an entry can be evicted losslessly exactly when its bucket is full |
| Bucket.TimeUntilFull | src/store.rs:162-168 | at the end of the reported wait the bucket is full, and the end is the first such nanosecond from now on |
| Bucket.RecoversExactly | src/store.rs:151-168 | at every later instant an entry can be evicted losslessly if and only if its reported recovery wait is over |
| Bucket.GrantsIffThere | src/perkey.rs:502-520 | tokens are granted exactly when that many whole ones are there by the end of the wait allowed, and are then missing, no more and no fewer |
| Bucket.RefillRate | src/store.rs:324-331 | one refill period brings exactly the refill amount, until the bucket is full |
| Bucket.RefundReturns | src/store.rs:713-722 | refunded tokens are no longer missing; taking and refunding at one instant undo each other |
| Bucket.CoversTake | src/store.rs:146-150 | whatever an emptier bucket grants, a fuller one grants too, and the order between them is kept |
| Bucket.RestoreDebt | src/store.rs:324-347 | the drain and the capacity-sized reservations end, with the restored bucket missing exactly the larger of the debt rounded up and the unfilled part of a fresh bucket |
| Bucket.DrainFresh | src/store.rs:331-338 | draining leaves at most what should be left, and never fills a bucket that starts emptier |
| Bucket.ReserveChunks | src/store.rs:339-346 | reserving in chunks puts the bucket exactly the whole debt further behind, debts of several capacities included |
| Bucket.RestoredRoundTrip | src/store.rs:319-347 | evict and restore: never fuller than the forgotten bucket would be, and as empty as a new one or less than one token emptier than recorded |
| Bucket.PaidDownCovers | src/store.rs:224-238 | a refund taken off a recorded debt is never more generous than one given to the bucket |
| Bucket.PaidDownEnough | src/store.rs:224-238 | and falls short of one given to the bucket by no more than the fraction of a nanosecond each token loses to rounding (and what is beyond the largest credit) |
| Ledger.DebtLedger.Size | src/store.rs:184-193 | debt hashes are distinct: there are as many debts as hashes |
| Ledger.DebtLedger.Position | src/store.rs:196-205 | look-up finds exactly the recorded debts |
| Ledger.DebtLedger.RemoveAt | src/store.rs:208-222 | swap-remove forgets that debt, keeps every other, and leaves the index on the dense positions |
| Ledger.DebtLedger.PayDown | src/store.rs:227-237 | one debt settles sooner by the refill time of the tokens, rounded down; the answer says whether there was one |
| Ledger.DebtLedger.Collect | src/store.rs:240-243 | takes a debt out and returns when it settles |
| Ledger.DebtLedger.Scan | src/store.rs:265-281 | among the entries next in turn, finds the first settled one, or with none settled one that settles soonest |
| Ledger.DebtLedger.Record | src/store.rs:249-296 | a debt is recorded (the later one on a hash already there), dropping at most one settled debt for room, or it is refused with the time until the first of the entries in turn settles, and nothing changes |
| Ledger.DebtLedger.Sweep | src/store.rs:299-317 | each of the next entries gets its turn: exactly the settled ones among them go |
| Ledger.SettledDebtsGo | src/store.rs:299-317 | when everything is settled, each turn drops a debt |
| Ledger.SweptPastUnsettled | src/store.rs:299-317 | up to the end of the row, the cursor passes nothing settled, and every turn either passes a debt or drops one |
| Ledger.WholeSweepClears | src/store.rs:299-317 | from wherever the cursor stands, past the end of the row and round again, a sweep with turns enough leaves no settled debt |
| ShardMap.Shard.Insert | src/store.rs:403-412 | a new key is appended and the index stays exact |
| ShardMap.Shard.Size | src/store.rs:383-412 | keys are distinct: there are as many live keys as slots |
| ShardMap.Shard.RemoveAt | src/store.rs:416-431 | swap-remove forgets that key only, and re-indexes the slot that moves |
| ShardMap.Shard.SweepIdle | src/store.rs:435-458 | each of the next slots gets its turn: exactly those that are idle past the limit and recovered are reclaimed |
| ShardMap.IdleSlotsGo | src/store.rs:435-458 | when everything is idle and recovered, each turn reclaims a slot |
| ShardMap.SweptPastBusy | src/store.rs:435-458 | up to the end of the row, the cursor passes nothing it could have reclaimed |
| ShardMap.WholeSweepReclaims | src/store.rs:435-458 | from wherever the cursor stands, a sweep with looks enough leaves nothing that could be reclaimed |
| ShardMap.VictimIsBest | src/store.rs:460-510 | a limited key goes only if no visited one has recovered, one in use only if no other of its kind is unused, and among equals the one the hand meets first |
| ShardMap.RefusalWaitIsFirst | src/store.rs:506-527 | the wait told is too long for nothing: a wait of a millisecond or more is long enough exactly when a visited slot recovers or a scanned debt settles within it |
| ShardMap.Shard.Walk | src/store.rs:483-510 | visits slots from the hand in ring order, clearing their reference bits and no others, up to the first recovered and unreferenced one |
| ShardMap.Shard.ClockScan | src/store.rs:478-530 | the victim is the least of the visited slots by (recovered, unreferenced), the first among equals |
| ShardMap.Shard.EvictOne | src/store.rs:467-532 | the victim goes; if it was limited, its debt is written down, until the first nanosecond at which its bucket would be full or until the debt already under its hash settles, whichever is later; with no room for the debt nothing is forgotten, and the wait is until the first visited slot recovers or the first scanned debt settles, but at least a millisecond |
| Store.Store.constructor | src/store.rs:564-598 | a new store remembers nothing |
| Store.Store.WithOrInsert | src/store.rs:622-671 | a request sees the live bucket, or the one its debt leaves it; room is made first, by eviction only out of a full shard and of the key the CLOCK hand picks; refused only when keys and debts both fill the shard and never for a key whose debt is remembered, with the wait until, of what the sweeps leave, the first slot recovers or debt settles; keys and debts stay within the cap |
| Store.Store.Touch | src/store.rs:136-143 | an access marks the slot used and advances its last-seen time only when idle time is tracked |
| Store.Store.MakeRoom | src/store.rs:736-745 | afterwards there is room; only full buckets, settled debts and at most one limited key, out of a full shard and with exactly its debt written down, are forgotten |
| Store.Store.View | src/store.rs:687-708 | a view agrees with what the key's next acquire will see, and changes nothing |
| Store.Store.GiveBack | src/store.rs:713-730 | tokens go to the live bucket, else off the debt, else nowhere |
| Store.Store.Remove | src/store.rs:749-757 | forgets the key and the debt under its hash |
| Store.Store.Reset | src/perkey.rs:489-494 | a live key's bucket is full as of now; any other key is left alone |
| Store.Store.Clear | src/store.rs:770-775 | forgets everything |
| StoreRefinement.StepCovered | src/store.rs:622-757 | while no key can be taken for another, one call keeps every key's bucket no fuller than the ideal one, and grants only what the ideal one allows |
| StoreRefinement.RunCovered | src/store.rs:622-757 | over every sequence of requests, refunds, removals, resets and clears, every grant is one the unbounded store allows, if hashes are distinct or there are no more keys than room |
| StoreRefinement.DeficitNeverSmaller | src/store.rs:22-41 | at every later time, each key's deficit is at least that of the never-evicted bucket |
| StoreExcess.EvictedComesBack | src/store.rs:319-347 | the round trip over the request that evicts: at every later instant the bucket an evicted key comes back to is no fuller than the evicted one would be, and as empty as a new one or emptier by less than one token and one nanosecond of refill |
| StoreExcess.DeficitAtMost | src/store.rs:22-41 | over every run in which only live keys are reset, each key is at every later time emptier than the never-evicted bucket by at most one token and one nanosecond of refill for each of its evictions, and what rounding kept from refunds to its debt |
| StoreExcess.ResetRestoresIff | src/perkey.rs:473-494 | a reset gives a key its full allowance if and only if it is live or owes nothing any more |
| StoreExcess.ResetMissesDebt | src/perkey.rs:489-494 | a run in which a key that was evicted while limited is reset and stays limited |
| StoreRefinement.CollisionForgives | src/store.rs:240-243 | two keys with one hash among more keys than there is room for: calls after which the store grants what the ideal one refuses, for every capacity and configuration |
| Collision.Overshoot | src/store.rs:622-671 | the same calls made on an actual store of any capacity, with its own choice of victim |
| StoreRefinement.RefinesIffDistinctOrFew | src/store.rs:178-182 | a store for `cap` keys refines the ideal one over all sequences of calls if and only if no two keys share a hash or there are at most `cap` keys |
| Scheduling.ApplyConsistent | src/queue.rs:147-203 | arrivals, departures and services keep keys, ids and waiting counts in agreement and the key map within its bound plus the waiters |
| Scheduling.BusyKeysBounded | src/queue.rs:244-262 | after pruning there are no more keys than waiters |
| Scheduling.FloorIsNewestLost | src/queue.rs:244-262 | within the bound nothing is forgotten; past it exactly the keys without waiters are, and the floor is the newest stamp among them or what it was |
| Scheduling.HolderOutranks | src/queue.rs:13-20 | nobody waits at a higher priority than the holder, nobody there whose key was served longer ago, nobody of its key there who came earlier |
| Bypass.RecencyNeverFalls | src/queue.rs:244-262 | a key pruned and created again is never older than its last service |
| Bypass.PasserIsAhead | src/queue.rs:15-19 | whoever is served where a key waits was served no later than that key |
| Bypass.StepKeepsBehind | src/queue.rs:186-262 | once served, a key stays behind the waiting one for good, through pruning and re-creation |
| Bypass.RunKeeps | src/queue.rs:247-262 | in every state of every run the waiters stay within capacity and the key map within its bound plus the waiters |
| Bypass.BoundedBypass | src/queue.rs:247-306 | while a key waits at a priority unserved, every other key is served there at most once, and at most `prune_at + 2 * capacity` such services happen in all |
| Bypass.RunsFromMoves | src/queue.rs:496-525 | the moves the queue's calls report are runs the fairness theorem covers |
| Levels.JoinedHolds | src/queue.rs:186-192 | joining a level keeps its lines, its order and its set of waiters in agreement |
| Levels.PartedHolds | src/queue.rs:210-226 | leaving a level does too, and a key with no waiter left there leaves the order |
| Levels.LevelsRestamped | src/queue.rs:287-305 | re-stamping a key re-orders it in every level where it waits |
| Scheduler.HeadHoldsTurn | src/queue.rs:277-282 | the first waiter of the first key of the highest level is least in (priority descending, recency, key id, arrival) |
| Scheduler.Scheduler.constructor | src/queue.rs:143-157 | an empty queue |
| Scheduler.Scheduler.Insert | src/queue.rs:162-203 | every index gains the waiter; a key without state starts at the floor |
| Scheduler.Scheduler.Remove | src/queue.rs:206-236 | every index loses the waiter, and its key's state goes only by pruning |
| Scheduler.Scheduler.MaybePruneKeys | src/queue.rs:247-262 | past the bound, exactly the keys with no waiters lose their state, and the floor becomes the newest stamp lost |
| Scheduler.Scheduler.PruneExpired | src/queue.rs:266-273 | exactly the waiters at or past their deadline go |
| Scheduler.Scheduler.Winner | src/queue.rs:276-282 | the unexpired waiter that precedes all others, if there is one |
| Scheduler.Scheduler.Serve | src/queue.rs:287-306 | the key is stamped first, then its waiter leaves |
| Scheduler.Scheduler.Oldest | src/queue.rs:309-311 | the waiter that arrived first |
| Scheduler.Scheduler.Weakest | src/queue.rs:316-319 | the lowest priority, and the newest there |
| Scheduler.Scheduler.Evict | src/queue.rs:322-327 | the waiter leaves every index and is told |
| Queue.Queue.Register | src/queue.rs:487-525 | the queue stays within capacity; a full one turns out the oldest, or a strictly outranked weakest waiter, or refuses; exactly that waiter is told; an accepted newcomer joins those still in time, and the holder of the turn is woken |
| Queue.Queue.Poll | src/queue.rs:590-635 | served exactly when it holds the turn among the unexpired and the limiter grants; evicted and expired waiters are told so |
| Queue.Queue.Depart | src/queue.rs:660-679 | a waiter that leaves, however it ends, is gone, and the next holder of the turn is woken |
| Queue.OneHolder | src/queue.rs:13-20 | at most one waiter holds the turn |
| Wakes.Overlook | src/queue.rs:487-635 | calls on an actual queue of any overflow policy, with room for three, after which the holder of the turn has not been told |
| Wakes.UntoldIffOverlooked | src/queue.rs:24-45 | over every sequence of calls, the holder of the turn has not been told if and only if it came to the turn in another waiter's look that dropped the expired holder, and nothing told it since |
| Composite.NextConsistent | src/limiter.rs:591-701 | every step of a composite acquire keeps its progress, guard and program point in agreement, cancellation included |
| Composite.StepPays | src/limiter.rs:405-494 | every call on a constituent changes what the caller holds by exactly the units it moves |
| Composite.Conservation | src/limiter.rs:405-494 | in every interleaving, units taken minus refunded on each constituent are what the callers' progress and calls under way hold |
| Composite.AllOrNothing | src/limiter.rs:425-443 | a finished request holds one full charge of every constituent if it succeeded, and nothing if it failed, timed out or was dropped |
| Composite.OnlySuccessesPay | src/wait.rs:112-230 | with all requests finished, each constituent has paid for the successes and nothing else |
| Composite.FailsOnlyForCause | src/wait.rs:128-205 | over every run a request times out only if it gave up, is dropped only if its future was, is impossible only if something said so, and refused only if a call of its own was |
| Composite.DecidesBound | src/wait.rs:128-230 | giving up, being dropped, an impossible constituent, or a refused call of a request that does not wait decides how it ends |
| Composite.BoundRemains | src/wait.rs:128-230 | in whatever interleaving, once a choice has decided how a request ends, it comes to that end with the moves left |
| Composite.UnhinderedSucceeds | src/limiter.rs:591-701 | from every reachable state and whatever the others do, a request under way to all its constituents, none of whose calls is refused and which neither gives up nor is dropped, succeeds with the moves left and has paid every constituent in full |
| Composite.ArrivesOnItsWay | src/limiter.rs:425-443 | a request that does not wait is under way from its arrival, with one move for each constituent and one to conclude |
| Composite.StartsOnItsWay | src/limiter.rs:623-640 | a waiting request that finds the others ready, or nearly so, is under way with its next choice |
| Composite.BottleneckLetGo | src/limiter.rs:640-650 | when another constituent needs longer or cannot be reserved beside it, the matured bottleneck is given back and the request looks again empty-handed |
| Composite.BottleneckKept | src/limiter.rs:609-633 | while the bottleneck has not matured, or when the others are lost to a concurrent caller, it is kept and the request sleeps with the guard armed |
| Composite.CanStillSucceed | src/limiter.rs:591-701 | no dead ends: from wherever it is, a request not bound to fail has moves of its own that lead to success |
| Waiting.Fire | src/wait.rs:217-230 | the guard gives held units back once, and only if they are held |
| Waiting.Pace | src/wait.rs:176-205 | each unsuccessful round uses up a resume, or remaining budget, or one of the free yields |
| Waiting.SitOutPause | src/wait.rs:145-158 | a granted waiter sits out a pause, or gives up and gives back when it does not fit |
| Waiting.WaitWith | src/wait.rs:112-207 | a timed wait ends; against every environment each event follows from those before it, and it succeeds only after the granted wait was slept out and with no pause left, is dropped only when the future was, times out only when what it waits for does not fit, and is refused exactly when a step said never; it releases exactly once on every failing or dropped path and never on success, and never sleeps past its deadline when steps keep to their budget |
| Waiting.StepsAsk | src/wait.rs:129-131 | each step is given the time left as its budget, is taken at the clock, and its answer is the one acted on |
| Waiting.SleepsAsAsked | src/wait.rs:132-205 | every sleep is as long as what asked for it: the granted wait, the wait to retry, a brief nap after too many lost races, or the pause |
| Waiting.SleepsLongEnough | src/rt.rs:73-83 | a sleep ends no earlier than asked, unless a resume cuts short one of more than a millisecond |
| Charge.Limiter.Charge | src/limiter.rs:164-194 | what is reported uncharged is exactly what was not taken: after as many whole-capacity reservations as succeeded, nothing is left unless one was refused, and then exactly what is available is drained |
| Slots.CounterIsHeldSlots | src/bulkhead.rs:109-136 | in every interleaving the counter is the number of held slots, taken and given back one or several at a time, and never exceeds the ceiling |
| Slots.NoLostWakeUp | src/adaptive.rs:401-418 | while someone sleeps unnotified, held slots (one or several a caller), attempts under way, pending and owed notifications cover the whole limit |
| Slots.SleepersMeanFull | src/bulkhead.rs:343-356 | once nothing is under way, nobody sleeps while a slot is free |
| Slots.RoomIsTaken | src/bulkhead.rs:109-124 | from every state, a caller whose slots fit under the limit takes them with its own load, comparison and exchange |
| Slots.RefusedOnlyIfFull | src/adaptive.rs:401-418 | over every run, a try that was refused had loaded the counter as it was and later found that this left no room |
| Slots.FullPutsToSleep | src/bulkhead.rs:343-356 | from every state, a waiting caller that finds no room registers, tries once more and sleeps |
| Adaptive.LimitIsFold | src/adaptive.rs:455-505 | whatever the interleaving, the limit is the fold of the applied outcomes in some order, each exactly once, within its bounds |
| Adaptive.SharedEpochIffOverlapped | src/adaptive.rs:453-505 | two decreases come from one epoch if and only if one failure passed its check while the other was past its own and had not bumped the epoch |
| Adaptive.OneDecreasePerEpoch | src/adaptive.rs:453-464 | with settles that do not overlap, two decreases come from permits of different epochs |
| Adaptive.SecondDecreaseIffEpochStands | src/adaptive.rs:460-493 | in every reachable state, of two failures of one epoch, one past its check and the other about to check, both can lower the limit if and only if the other finds its epoch, the first not having bumped it |
| Adaptive.OverlapDecreasesTwice | src/adaptive.rs:462-493 | a run from the start in which two failures of one epoch both lower the limit |
| Adaptive.SkippedOnlyIfStale | src/adaptive.rs:460-464 | over every run, only failures admitted before the current epoch are passed over, and the epoch is the number of decreases that ended one |
| Adaptive.SettlesAlone | src/adaptive.rs:475-505 | from every state, any outcome but a stale failure, settled undisturbed, makes the limit what the strategy asks for |
| Resume.Hold.Extend | src/hold.rs:46-55 | a pause ends at the later of its end and the new one |
| Resume.Hold.Clear | src/hold.rs:58-63 | no pause is left, and the answer says whether there was one |
| Resume.HeldIffSomeHoldApplies | src/hold.rs:42-55 | after any series of pauses the limiter is held exactly while one of them alone would hold it |
| Resume.NeverSleptThrough | src/rt.rs:47-83 | a waiter that read the epoch with no resumer of its limiter under way, waiting for a pause or a refill, and that sleeps unmarked on its listener after a pause was lifted since, has a resumer about to notify it; and it never goes to sleep without a listener after such a lift, short naps apart |
| Resume.SleepsThroughIffResumerUnderWay | src/rt.rs:64-83 | a waiter that has just read the epoch can sleep through a resume, other than in a short nap, if and only if a resumer of its limiter was between bump and clear |
| Resume.NapMissesResume | src/rt.rs:73-77 | for every length of a short nap, a run from the start in which a resume comes and goes within it |
| Resume.OnlyLiftersNotify | src/rt.rs:64-69 | over every run, only a resume that lifted a pause notifies, and every pause is lifted by one resume |
| Resume.OnlyPausedListen | src/wait.rs:193-205 | a waiter that finds no pause at its second look never listens for a resume |
| Resume.UnheldIsDone | src/wait.rs:128-155 | a waiter whose limiter is not paused is done with its next two steps |
| Breaker.CircuitBreaker.Admit | src/circuit.rs:368-408 | admission by state, opening to trials after the cooldown; the new state in full |
| Breaker.CircuitBreaker.Abort | src/circuit.rs:425-436 | an unused trial of the current half-open period gives its slot back; nothing else changes |
| Breaker.CircuitBreaker.RecordOutcome | src/circuit.rs:928-948 | the pruned histories after one more outcome |
| Breaker.CircuitBreaker.HasTripped | src/circuit.rs:951-978 | the trip condition, counted by loops, as declared |
| Breaker.CircuitBreaker.Apply | src/circuit.rs:478-509 | the whole new state after an outcome |
| Breaker.CircuitBreaker.Settle | src/circuit.rs:466-474 | tickets of another generation change nothing |
| Breaker.CircuitBreaker.RecordManual | src/circuit.rs:548-556 | an outcome without a permit is taken for a trait trial's if there is one |
| Breaker.CircuitBreaker.ReleaseTraitProbe | src/circuit.rs:440-446 | a refund frees a trait trial's slot if there is one |
| BreakerRuns.SlotsAreOutstandingTrials | src/circuit.rs:379-436 | as long as what is reported without a permit is matched, trials in flight are exactly the outstanding trials of this generation, with a permit and through the trait, at most as many as configured; with none outstanding a half-open breaker admits |
| BreakerRuns.ReportIsExactIffMatched | src/circuit.rs:440-446 | a refund or outcome without a permit keeps the count exact if and only if it ends a trial of the current half-open period, or finds none to free, or ends the period |
| BreakerRuns.ExtraTrialIffUnmatched | src/circuit.rs:1218-1235 | after a refund in a full half-open period, one trial too many can run if and only if the refund is of no trial of the period |
| BreakerRuns.PermitMiscounted | src/circuit.rs:425-446 | a mistaken refund followed by a withdrawal frees the slot of a permit |
| BreakerRuns.MiscountsHappen | src/circuit.rs:1218-1235 | a run from the start, with nothing reported without a permit, after which one refund lets a trial too many run, or loses count of a permit's trial |
| BreakerRuns.StalePermitsChangeNothing | src/circuit.rs:466-474 | permits of older generations change nothing, settled or cancelled |
| BreakerRuns.ShedUntilCooledDown | src/circuit.rs:379-395 | over every run an open breaker sheds every request until exactly the cooldown has passed since the outcome that opened it, telling the time left, and then admits the first as a trial |
| BreakerRuns.ShedIffCoolingOrFull | src/circuit.rs:379-408 | over every run of matched reports, a request is shed if and only if the breaker is cooling down or as many trials run as are allowed |
| BreakerRuns.TrialsDecide | src/circuit.rs:478-509 | over every run, a failure in a half-open period opens the breaker as of now, and a success closes it if and only if it is the last required |
| BreakerRuns.ResetCloses | src/circuit.rs:334-345 | a reset breaker admits everybody, not as trials, and every permit from before is stale |
| BreakerRuns.TripsExactlyWhenHistoryDoes | src/circuit.rs:478-508 | the breaker opens exactly when the full history since it closed meets the documented condition; the ratio deque is the last outcomes, and fewer than `failures` timestamps are kept while closed |
| BreakerRuns.ReportTripsExactly | src/circuit.rs:548-556 | the same when the outcome is reported without a permit |
| SlidingLog.SlidingWindowLog.Prune | src/sliding.rs:239-248 | drops the expired prefix |
| SlidingLog.SlidingWindowLog.WaitFor | src/sliding.rs:251-263 | the scan returns the time the needed units are freed |
| SlidingLog.SlidingWindowLog.Evaluate | src/sliding.rs:267-305 | the decision and the whole new log |
| SlidingLog.SlidingWindowLog.Available | src/sliding.rs:371-381 | the limit less the units inside the window, or none while paused |
| SlidingLog.SlidingWindowLog.Refund | src/sliding.rs:405-420 | gives units back from the oldest grants |
| SlidingLog.SlidingWindowLog.ChargeSpent | src/sliding.rs:463-476 | records spent units, over the limit or not |
| SlidingLog.SlidingWindowLog.PauseFor | src/sliding.rs:439-448 | a pause ends at the later of its end and the new one |
| SlidingLog.PrunedIsLive | src/sliding.rs:233-248 | what is left after pruning is exactly what is inside the window |
| SlidingLog.WaitIsTight | src/sliding.rs:250-304 | unpaused and undisturbed, the cost is granted at an instant if and only if the returned wait is over, overdraft included |
| SlidingRuns.RefundDominates | src/sliding.rs:385-420 | a safe refund keeps the log's suffix sums at or above those of the history with the right grant removed |
| SlidingRuns.WindowNeverExceeds | src/sliding.rs:267-304 | over every sequence of operations with safe refunds, the log counts at every later reading at least what the history has in the window, and the net units granted in every trailing window stay within the limit plus what was charged there after the fact |
| SlidingRuns.RefundSafeIff | src/sliding.rs:385-420 | a refund leaves the limiter no more permissive at any later reading than removing the right grant would, if and only if that grant is still in the window or the log keeps at least what the history has inside |
| SlidingRuns.LateRefundOvershoots | src/sliding.rs:405-420 | a run from the start whose late refund lets a full window grant once more |
| SlidingExact.GrantedIffRoom | src/sliding.rs:267-305 | over every run without refunds, a request is granted if and only if it is free, or the limiter is not paused and the units inside the window leave room for it; and impossible if and only if it exceeds the limit |
| SlidingExact.PausedIffSomePauseStands | src/sliding.rs:422-460 | over every run, a request is refused for a pause exactly while some pause has neither run out nor been lifted, and is told when the last of them ends |
| Calendar.DaysFromCivilCounts | src/timeutil.rs:46-57 | the closed formula is the recursively counted number of days, for every date of every integer year |
| Calendar.NextDayAddsOne | src/timeutil.rs:46-57 | the next day is one more, and the epoch is day zero |
| Calendar.DayCountOrdersDates | src/timeutil.rs:46-57 | the day count orders dates, and no two dates share one |
| Calendar.CivilToUnixExact | src/timeutil.rs:20-44 | accepted exactly on in-range fields, with no overflow there; a date that exists gets the second it names |
| Calendar.OverlongMonthsRunOn | src/timeutil.rs:28-39 | an accepted date names its own day exactly when its month has that day, and otherwise runs on into the next month |

## Left out

- StoreRefinement.RunCovered: does not cover the policy that forgets unsettled debts when the ledger is full, which gives the guarantee up on purpose; the store's calls are modelled with it.
- Store.Store.constructor: models one shard; the choice of a shard by hash bits and the rounding of shard counts and idle limits are not part of this model.
- Bucket.TimeUntilFull: the bucket crate may round further up, and would then add as much to the debts of evicted keys; that nothing is granted beyond the ideal store does not depend on how far.
- StoreExcess.DeficitAtMost: keys have distinct hashes and start full; two keys of one hash can see each other's debt, and a key that starts emptier starts emptier again after every eviction.
- Waiting.WaitWith: waits without a deadline are left out, since they may go on for ever by design (any finite stretch of one behaves as a timed wait whose deadline lies beyond it); a bound on how many resumes intervene makes a timed wait end.
- Composite.Conservation: a constituent whose refund does nothing keeps its units; only constituents with refunds are modelled. Peeks take nothing and are folded into the choice they lead to.
- Slots.NoLostWakeUp: sequentially consistent atomics; weaker memory orderings are not modelled, nor the answer of a bulkhead with no slots at all, nor a refund of more slots than the caller holds.
- Adaptive.LimitIsFold: strategies without state of their own; the latency estimate of `Vegas` and the floating point of `Aimd` are replaced by an arbitrary function.
- Breaker.CircuitBreaker.HasTripped: the failure ratio is compared as a rational, not in floating point.
- SlidingLog.SlidingWindowLog.Evaluate: the `u64` sum of used units is unbounded in the model.
- Queue.Queue.Poll: the sleep between two passes and its 60-second recheck are not modelled.
- Wrap-around of 64-bit sequence numbers, generations and epochs, and saturation of durations in the store.
- Metrics, events and labels, error text, configuration and presets, the tower and provider adapters, backoff and retry policies.
- The throttle, per-key, hybrid, layered and multi limiters beyond the store and the composite algorithm they forward to.
