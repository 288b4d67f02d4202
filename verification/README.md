# The lease protocol of That Limit

That Limit is a distributed rate limiter. Redis holds, under one key per client, the tokens of a fixed window. Each
instance takes batches of tokens from that key with one Lua script, spends them locally, and gives unspent tokens back
with another script when it shuts down. This project models `crates/core` and proves what the protocol guarantees over
every run: any number of instances, concurrent requests, windows, crashes, lost replies and clock readings.

## How the model is built

- **The code's own objects** are classes: `Redis` runs the two scripts on a mutable table of string keys, `Bucket` is
  the local counter, `Store` holds the maps and has `Check`, `Lease`, `EnsureRefilled`, `Consume`, the cleanup tick
  (`Sweep`) and the shutdown branch (`Snapshot`, `ReturnTokens`). Every method is tied to a function on values and says
  that other ids are left alone; `Meaning` says case by case what those functions come to.
- **The step system** (`Protocol`) is the concurrent protocol for one id. A step is one map operation, one atomic load
  or update, or one script run. A `consume` call moves through explicit points, so that everything the code does between
  releasing one guard and taking the next may be interleaved with other calls, other instances, clock ticks, cleanup,
  shutdown, crashes, connection errors, clients that give up waiting, and requests whose sender is gone.
- **The whole store** (`Keys`) has one Redis table with string keys, and in each instance one buckets map, one refills
  map, one pool of calls that carry their ids, and one background loop. `KeyRuns.RunsProject` shows that its runs, seen
  from one id, are runs of the step system with the same answers.
- **The class and the step system** meet in `SoloRuns`: what the class does in one undisturbed call, or in one round that
  ends in a wait, is a sequence of steps that gives the same answer and no other.
- **The history** of a run is a log of events. It records exactly as many admissions as callers are told Ok
  (`Answers.OkAnswersAreRecorded`, `KeyRuns.OksAreInTheHistory`), so bounds on it are bounds on answers. A window's id is its end in milliseconds (`PEXPIRETIME`), and a key is
  alive while now <= end. Sums over the log give the ledger, the rate bounds and the numbers of admissions.
- **The plain counter** (`PlainCounter`, and over many windows `FixedWindow`) is the specification that one instance
  serving one call at a time refines.

Two laws hold of every window in every reachable state, with no condition. Tokens: quota + credited = Redis counter + in
replies + in buckets + taken + lost + wasted + lapsed with the key. Promises: what shutdown snapshots recorded, which is
credited, dropped or still due, equals what became of the recorded buckets, which is taken since, wasted, or still there.

## Where the code does not keep what is promised

The model follows the code. For each promise there is a run that breaks it and the exact condition under which it holds.

- *Admitted requests never exceed the quota of a window* (README.md:10, README.md:46). Requests that pass the check on
  the same last token are all answered Ok (crates/core/src/store.rs:174-189), and tokens returned at shutdown are still
  spent locally. With K call slots, and `cleanup` on or off, the promise holds over all runs if and only if K is one and
  `cleanup` is off (`Exact.QuotaPromise`); admissions keep to the quota and what was credited back if and only if K is one
  (`Exact.AdmissionPromise`). `Exact.LastTokenTwice` and `Exact.ReturnedTokenTwice` build the breaking runs for every
  policy. However many slots and ids there are, admissions keep to quota + credited in every run in which no instance has
  two calls for the id at once (`OneAtATime.AdmittedWithinQuota`, `KeyRuns.EveryKeyIsSafe`). One call is covered by a token
  if and only if it finds its bucket there, unexpired at its deadline test and not empty (`Grants.CoveredAdmission`). In
  general a window admits at most k requests more for each lease it can feed, k being the calls for the id that an instance
  serves at once (`Grants.AdmittedPerWindow`, `Grants.AdmittedWithoutCredit`).
- *Tokens taken* keep to the quota unless a bucket is spent from after its shutdown snapshot, which leaves the buckets as
  they are (crates/core/src/store.rs:81-87): `Safety.NoOverSpend`, `Witnesses.SpentAfterSnapshot`.
- *A local bucket never outlives the Redis window* (README.md:43). `expires_at` uses a second clock sample, taken after
  the elapsed time was measured (crates/core/src/cache.rs:70, crates/core/src/bucket.rs:37). An instance's clock is finer
  than the milliseconds that Redis counts. For one reply and any number of ticks to the millisecond,
  `Exhaustion.DeadlineFromReply` says exactly when the bucket serves while the key is dead: when the delay between the
  samples exceeds the way of the request to Redis and what was then left of the millisecond. So the promise is safe only
  for samples less than two ticks of the instance's clock apart, however short a tick is (`Exhaustion.TwoTicksApart`; with
  a clock of nanoseconds that is two nanoseconds). Over all runs of the step system, whose instances tick in milliseconds
  like Redis, the same is `Exact.DeadlinePromise`, with `Exact.OutlivesItsWindow` as the breaking run. The delay is a
  parameter `gap`; the one between a deadline test and the token operation after it is `lag`.
- *(N - 1) * lease_size bounds the tokens unused elsewhere* (README.md:47). Tokens behind a deadline of the holder's own,
  the asking instance included, come on top: `UnderAdmission.ZeroLeaseShortfall`, `Witnesses.LeftoverBehindDeadline`.
- *Waiting requests are woken when the lease is there* (README.md:32). A request registers on the `Notify` after it let go
  of the map entry (crates/core/src/store.rs:201, crates/core/src/store.rs:215). One that registers after the wake-up
  waits on; `Flight.WakeableUnlessForgotten` says exactly which calls can still be woken, `Witnesses.RegisteredTooLate`
  has a run with one that cannot.
- *Graceful shutdown returns unused tokens* (README.md:54). Buckets leased after the snapshot, while the server still
  serves (crates/server/src/main.rs:116-125), and buckets past their own deadline at the snapshot are not returned:
  `Safety.GracefulShutdown`, `Safety.WhatIsLeftBehind`.
- A bucket marked exhausted refuses every call, in later windows too, until it is removed (crates/core/src/store.rs:257).
  Apart from that an instance serving one call at a time is a plain counter (`PlainCounter.RefinesPlainCounter`), and over
  windows and idle gaps one that refills when its key dies (`FixedWindow.RefinesFixedWindow`).

## Assumptions

All instances share one validated policy per kind of id. Redis does not lose a live key. The clocks of Redis and of the
instances advance at the same rate; only differences of readings of one clock are ever used by the code, so one time line
serves for all. Quotas are small enough for Lua's doubles to be exact.

## Model

| member | source | states |
|---|---|---|
| Policies.TryFrom | crates/core/src/config.rs:52-63 | a policy is accepted if and only if 1 <= lease_size <= quota, and then kept as it was given |
| Buckets.KeysAreInjective | crates/core/src/cache.rs:8-15 | two ids share a Redis key only if they are the same id |
| Buckets.Bucket.constructor | crates/core/src/bucket.rs:36-45 | a new bucket ends `ttl` after the clock sample taken inside the constructor and is not exhausted |
| Buckets.Bucket.SetExhausted | crates/core/src/bucket.rs:67-69 | sets the flag and nothing else |
| Buckets.Bucket.Consume | crates/core/src/bucket.rs:75-79 | takes one token if there is one, never goes below zero, and reports the tokens left |
| RedisScripts.Redis.Lease | crates/core/src/cache.rs:17-40 | the lease script as commands on the mutable table equals its specification and touches no other key |
| RedisScripts.Redis.Release | crates/core/src/cache.rs:77-88 | the release script on the mutable table equals its specification and touches no other key |
| RedisScripts.LeaseMovesTokens | crates/core/src/cache.rs:25-39 | a lease takes from the counter exactly what it replies, or opens a full window; a live window's end does not move; a zero reply means alive and empty; the reply's time left and window id agree |
| RedisScripts.ReleaseCreditsOneWindow | crates/core/src/cache.rs:77-88 | a release is accepted exactly when the live key ends at the named window and then adds exactly the tokens; a dead key is never recreated except under the id that means "no key" |
| RedisScripts.LeaseClosedForm | crates/core/src/cache.rs:25-39 | the first n leases of a window hand out min(n * lease_size, quota) in total and exactly min(n, ceil(quota / lease_size)) of them are non-zero |
| Stores.Store.constructor | crates/core/src/store.rs:40-64 | a store starts with empty maps |
| Stores.Store.Check | crates/core/src/store.rs:254-278 | refuses exactly if the bucket found is marked, with the time left until its deadline and no more; usable exactly if it is unmarked with a token and its deadline ahead |
| Stores.Store.Lease | crates/core/src/store.rs:219-252 | under the public policy for an address and the protected one for a subject: a dead key is left at quota - lease_size of that policy in a window of its length, with lease_size tokens in the bucket; in every other case it inserts, marks or only reports as the specification says; other ids are untouched in the store and in Redis |
| Stores.Store.EnsureRefilled | crates/core/src/store.rs:194-217 | one round of the loop: with an entry in the refills map it does not touch Redis, and waits on that entry's Notify exactly if the bucket found is absent, or is unmarked and empty or expired; otherwise it refills at most once and leaves the refills map as it was; other ids untouched |
| Stores.Store.Consume | crates/core/src/store.rs:171-190 | answer, bucket and Redis key after one round under the policy of the id's kind, including the three ways to answer without a token, and the wait under the same condition as above |
| Meaning.CacheErrorsMean | crates/core/src/store.rs:194-232 | a call alone answers a cache error if and only if it has to ask Redis and no reply comes, and then its bucket is as it was |
| Meaning.RefusalsMean | crates/core/src/store.rs:219-278 | a call alone is refused if and only if the bucket found is marked, or it asks Redis and the live key is spent; the counter stays, a bucket is marked, and the duration reaches its deadline exactly |
| Meaning.AdmissionsMean | crates/core/src/store.rs:171-190 | an admitted call whose bucket is still there took one token from bucket and counter together, and is told the tokens left in it; without a bucket it is told none are left |
| Stores.Store.Sweep | crates/core/src/store.rs:115-148 | removes exactly the expired buckets |
| Stores.Store.Snapshot | crates/core/src/store.rs:81-87 | lists the id of a bucket, once, if and only if it has tokens and its deadline is ahead, with the tokens and the window of that bucket |
| Stores.Store.ReleaseChunk | crates/core/src/store.rs:100-107 | one chunk is released entry by entry, requests that fail included |
| Stores.Store.ReturnTokens | crates/core/src/store.rs:74-113 | the shutdown branch releases exactly the snapshot, whichever requests fail: a key in it shows its own release and every other key is as it was |
| Stores.Store.ReturnToLive | crates/core/src/store.rs:74-113 | with every request getting through, the counter of a live key whose window is the bucket's rises by exactly the tokens in the bucket |
| Stores.Store.ServeThenReturn | README.md:54 | the round trip of a batch: a call that leases it and a shutdown in time leave the counter one lower than the call found it, or than the quota of the window it opened |
| Ledger.StepSane | crates/core/src/cache.rs:50-73 | every step keeps deadlines, windows and reply times of all buckets and messages in place relative to the Redis key |
| Conservation.StepKeepsLedger | crates/core/src/store.rs:219-252 | every step keeps both laws of every window as equalities, the number of Ok answers without a token, and that every bucket comes from a grant |
| Conservation.CrashFlow | crates/core/src/store.rs:81-113 | a crash loses exactly the tokens held and in flight, wastes what is left of a recorded bucket, and leaves what a snapshot has taken charge of |
| Timeline.StepKeepsChronicle | crates/core/src/cache.rs:25-39 | every step keeps windows more than one window length apart, each given one quota, every take inside its window but for the two delays, and every answer without a token to a call that began in time for the window it is booked to |
| Safety.TokensAreConserved | README.md:46 | in every reachable state, for every window opened, quota + credited = taken + unspent, quota = taken before a snapshot + unclaimed, and what snapshots recorded is what became of the recorded buckets |
| Safety.NoOverSpend | README.md:46 | takes of a window never exceed quota + credited, and stay within the quota when no bucket is spent from after its snapshot |
| Safety.CounterAndTtl | crates/core/src/cache.rs:25-39 | in every reachable state the key has an expiry at most one window length ahead and a counter in 0..quota |
| Safety.ExpiryIsConstant | crates/core/src/cache.rs:25-39 | no step moves or removes the expiry of a live key; a new expiry appears only when the key is dead, one full window ahead and later than all before |
| Safety.WindowsAreSeparate | crates/core/src/cache.rs:75-88 | over every run window ids increase by more than a window length, and credits go only to windows that were opened |
| Safety.ReleaseOnlyOwnWindow | crates/core/src/cache.rs:77-88 | in every reachable state a release credits the window its tokens came from if that is the live one, and changes nothing otherwise |
| Safety.CounterIsWhatRemains | crates/core/src/cache.rs:25-39 | the counter of the current window, exactly, in terms of takes, credits, what instances have and what was lost, wasted or dropped |
| Safety.GracefulShutdown | crates/core/src/store.rs:81-113 | with nothing lost or dropped and nothing spent after a snapshot, the counter is quota - taken if and only if no instance keeps a reply, a release due, or an unrecorded bucket with tokens of the window |
| Safety.WhatIsLeftBehind | crates/core/src/store.rs:81-113 | what a stopped, settled instance fails to give back is a bucket inserted after the snapshot's deadline test or past its deadline at it |
| Admission.UntokenedPerWindow | crates/core/src/store.rs:171-217 | under every interleaving of at most K calls for the id in each instance, out of however many slots, an instance's Ok answers without a token that relied on buckets of a window number at most K for every bucket it made of that window |
| Admission.UntokenedAdmissionsAreBounded | crates/core/src/store.rs:171-217 | and in all at most K for every bucket it inserted |
| Grants.GrantsAreLimited | crates/core/src/cache.rs:31-39 | over every run a window grants at most ceil(quota / lease_size) leases, and one more for each credit |
| Grants.AdmittedPerWindow | README.md:46 | every window, over all instances and every run with at most K calls for the id at once in each, admits at most quota + credited + K * (ceil(quota / lease_size) + credits) requests |
| Grants.AdmittedWithoutCredit | README.md:46 | a window that nothing was credited to admits at most quota + K * ceil(quota / lease_size) requests |
| Grants.CoveredAdmission | crates/core/src/store.rs:174-189 | admissions grow by what the tokens left shrink by, in every window, if and only if the call finds its bucket there, unexpired and not empty; and by what is left to Redis and its lessees if and only if moreover the bucket was not recorded by a snapshot |
| OneAtATime.AdmittedWithinQuota | README.md:46 | over every run in which no instance has two calls for the id under way at once, out of however many slots, admissions of a window never exceed quota + credited |
| Exact.LastTokenTwice | crates/core/src/store.rs:171-190 | with room for two calls, every policy has a run that admits quota + credited + 1 requests in its first window |
| Exact.AdmissionPromise | README.md:46 | no run admits more than quota + credited in a window if and only if instances have a single call slot |
| Exact.ReturnedTokenTwice | crates/core/src/store.rs:81-113 | with the background loop and a single call slot, every policy has a run that admits more than the quota |
| Exact.QuotaPromise | README.md:46 | no run admits more than the quota in a window if and only if instances have a single call slot and no background loop that returns tokens |
| Exact.OutlivesItsWindow | crates/core/src/bucket.rs:36-37 | with two ticks between the samples, every policy has a run with an unexpired bucket and a dead key |
| Exact.DeadlinePromise | README.md:43 | no run has an unexpired bucket with a dead key if and only if the two samples are less than two ticks apart, the instances ticking in milliseconds |
| Rate.RateBound | README.md:48 | over every run, any interval of length T sees at most (ceil((T + gap + lag) / reset_in) + 1) * quota tokens taken for a key, and those taken from buckets after their snapshot |
| Rate.TwoQuotasPerWindowLength | README.md:48 | with no delays, at most two quotas in any stretch of one window length, and those taken after a snapshot |
| Rate.RequestRateBound | README.md:48 | of the requests that arrive and are answered in an interval, at most quota + K * ceil(quota / lease_size) are admitted for each of those windows, K more for each credit, and those served after a snapshot |
| Flight.SingleFlight | crates/core/src/store.rs:194-217 | over all interleavings an instance has a refills entry exactly while one call leads, and no other call removes or replaces it |
| Flight.WaitersAreReleased | crates/core/src/store.rs:206-215 | whenever it registered and whatever is interleaved, a call whose Notify will still be used stays registered until the step that uses it, on success or error, and that step sends it back to the head of its loop |
| Flight.WakeableUnlessForgotten | crates/core/src/store.rs:200-215 | a registered call can leave its wait, without a crash or its client giving up, if and only if its Notify is still in the refills entry or in the hands of a leader about to use it |
| Flight.MissedWakeUp | crates/core/src/store.rs:200-215 | a call registered on a Notify that nobody will use again waits in every continuation of the run |
| Exhaustion.DeadlineFromReply | crates/core/src/cache.rs:59-72 | for every ordering of the clock readings and any number of ticks to Redis's millisecond: a bucket is born expired exactly if its reply came too late; any other serves at some moment while the key is dead if and only if the delay between the samples exceeds the way of the request and what was then left of the millisecond; and none serves a millisecond and that delay after the window |
| Exhaustion.TwoTicksApart | README.md:43 | at any clock resolution, some reply makes a bucket that serves while the key is dead if and only if the samples may be two ticks apart |
| Exhaustion.LocalDeadline | crates/core/src/bucket.rs:36-57 | in every reachable state an unexpired bucket means that its Redis window is not over, but for gap |
| Exhaustion.RetryBound | crates/core/src/store.rs:234-262 | every duration in an Exhausted answer, from the flag or carried from a zero lease with or without a bucket, is at most the time that was left to the end of a window of the key when it was measured, plus gap; no other step says Exhausted |
| Exhaustion.RetryIsExact | crates/core/src/store.rs:234-262 | in every reachable state an Exhausted answer, of the check or carried from a lease to the leader's answer, lasts from its measurement until the bucket's deadline, or until the end that the lease computed when there was no bucket, and not longer |
| Exhaustion.FlagAgreesWithRedis | crates/core/src/store.rs:254-263 | while the marked window is alive and has not been credited since, the flag's answer is what a fresh lease would give; in general they agree if and only if the key is alive and empty |
| UnderAdmission.OrderlyOwesLittle | crates/core/src/store.rs:219-252 | a serving instance whose claims did not race owes at most one lease of a window besides what its own deadline has put out of reach, and only the latter while its request is out |
| UnderAdmission.ZeroLeaseShortfall | README.md:47 | when a lease finds the key empty the shortfall is exactly what instances owe plus what was lost or dropped, and for orderly instances at most (N - 1) * lease_size plus the leftovers behind deadlines |
| PlainCounter.RefinesPlainCounter | crates/core/src/store.rs:171-278 | one instance serving calls one at a time in a window, starting with no usable bucket, answers as the plain counter with the token counts that batches imply, if and only if it does not start with a marked bucket |
| PlainCounter.MarkedRefusesAll | crates/core/src/store.rs:257-263 | a marked bucket refuses every call in any window as long as nobody removes it |
| FixedWindow.RefinesFixedWindow | crates/core/src/store.rs:171-278 | over any number of windows, idle gaps and cleanup ticks, a new instance serving one call at a time answers every call as the fixed-window counter that refills when its key dies, if and only if no call that opens a window finds a marked bucket that no tick has removed |
| Returns.OfferedOnce | crates/core/src/store.rs:95-111 | under every interleaving of the chunks each snapshot entry is offered to Redis exactly once |
| Returns.OwnReleaseOnly | crates/core/src/cache.rs:92-100 | after any sequence of releases of different ids each key shows its own release and no other |
| Returns.ChunkedEqualsSequential | crates/core/src/store.rs:95-111 | chunked concurrent release ends in the same Redis table as sequential release, whichever requests fail, and credited + dropped is the snapshot total |
| SoloRuns.SoloCallIsARun | crates/core/src/store.rs:171-252 | one undisturbed call, with any clock readings and any fate of its request, is a sequence of steps of the concurrent step system on which exactly one answer is given, that of the call, ending with the same bucket and key |
| SoloRuns.WaitingCallIsARun | crates/core/src/store.rs:194-217 | so is a round that finds the entry of another call: no answer is given, and it ends registered on that entry's Notify with nothing else changed |
| Answers.StepAnswers | crates/core/src/store.rs:171-217 | a step answers Ok exactly if it is a deadline test not failed or a removal; with a token it logs the take and tells the tokens left, without one it tells none; a cache error is told exactly by a leader whose lease had no reply |
| Answers.OkAnswersAreRecorded | crates/core/src/store.rs:171-190 | over every run the history records as many takes and answers without a token as callers were told Ok |
| Answers.CheckLeads | crates/core/src/store.rs:254-278 | in the step system a check refuses exactly if the bucket is marked and its flag was not loaded too early, passes exactly if otherwise there is a token and a deadline ahead, and else goes on to claim a lease |
| Answers.CleanupRemoves | crates/core/src/store.rs:115-148 | in the step system only an expired bucket is listed, and after the removal of what was listed there is no bucket |
| Answers.SnapshotRecords | crates/core/src/store.rs:81-87 | in the step system too a snapshot records a bucket's tokens and window exactly if its deadline is ahead and it has tokens, or passed the emptiness test before they were taken |
| KeyRuns.RunsProject | crates/core/src/store.rs:171-278 | every run of the whole store, with what does not concern one id left out, is a run of the single-key protocol with that id's policy, ends in what the id sees at the end, and gives the same answers to the same calls |
| KeyRuns.OksAreInTheHistory | crates/core/src/store.rs:171-190 | in every run of the whole store the Ok answers given to calls for an id are as many as the admissions in the history of its key |
| KeyRuns.OpensOwnPolicy | crates/core/src/store.rs:219-232 | a lease script on the dead key of an address opens a window of the public policy, of a subject one of the protected policy |
| KeyRuns.SeeOther | crates/core/src/cache.rs:8-15 | a move for one id changes nothing that another id can see, in instances, in Redis or in its history |
| KeyRuns.EveryKeyIsSafe | README.md:46 | so for every key of the store tokens are conserved, takes keep to quota + credited, and admissions to k more for each lease, and to quota + credited for k = 1, where k bounds the calls for that id alone; takes before a snapshot keep to the quota of its kind |
| KeyRuns.EveryKeyIsPaced | README.md:48 | and both rate bounds hold of every key of the store, with k the calls for that id alone |
| Witnesses.SpentAfterSnapshot | crates/core/src/store.rs:81-87 | a run in which quota + credited tokens are taken from one window, more than the quota |
| Witnesses.LeftoverBehindDeadline | crates/core/src/store.rs:265-271 | a run in which the only instance is refused while it keeps a token behind its own deadline |
| Witnesses.RegisteredTooLate | crates/core/src/store.rs:200-215 | a run that leaves a call registered on a used Notify |

## Left out

- Redis connections, `EVALSHA`, reply conversion and error types (`crates/cache`): a script is one atomic step that may fail or whose reply may be lost.
- The HTTP and Envoy adapters, `should_handle`, JSON loading, environment, logging, signals: plumbing around the protocol.
- Stores.Store.EnsureRefilled: the method is one round of the loop, up to its end or the wait; the waiting itself and the next round are steps of `Protocol`.
- Stores.Store.ReturnTokens: the class method runs the chunks one after the other; `Returns.ChunkedEqualsSequential` is about all interleavings.
- Stores.Store.Sweep: the listed buckets are removed in one loop instead of one per chunk; the delay between listing and removing is a pair of steps in `Protocol`.
- Stores.Store.Snapshot: the class method tests and loads a bucket at one moment; in `Protocol` the emptiness test, the deadline test and the token load of a snapshot may lie apart, with takes and clock ticks in between.
- Time finer than a millisecond in the step system: its clock is that of Redis. `Exhaustion.DeadlineFromReply` and `Exhaustion.TwoTicksApart` treat finer clocks, on which a fraction of a millisecond comes on top of the bounds that carry `gap`.
- Overflow of instants, of 64-bit counts and of Lua's doubles from 2^53 on.
- DashMap sharding, memory orderings and the compare-and-swap loop: map operations and atomic updates are single steps. A flag load that came before another call set the flag is a parameter of the `Check` step.
- Redis losing live keys (README.md:56), and cancellation of a leading call. A call that does not lead can be cancelled only where it waits (`Cancel`).
- That every waiter is eventually woken: it is not so, see `Flight.MissedWakeUp`.
