/** The decisions of crates/core/src/store.rs for one bucket id, as functions on values.
    The class in Store.dfy and the step system in Protocol.dfy both follow them. */
module StoreRules {
  import opened Basics
  import opened Buckets
  import opened RedisScripts

  datatype Verdict = Usable | NeedsLease | Reject(after: nat)

  /** `check`: the flag is tested first, before the deadline. `stale` says that the flag's load came before
      another call set it; the bucket stays locked in the map from that load to the end. */
  function Check(bucket: Option<BucketState>, stale: bool, now: int): Verdict {
    match bucket
    case None => NeedsLease
    case Some(b) =>
      if b.exhausted && !stale then Reject(b.Retry(now))
      else if b.tokens == 0 then NeedsLease
      else if b.IsExpired(now) then NeedsLease
      else Usable
  }

  /** Time left in the window, counted from before the call (crates/core/src/cache.rs). */
  function LeaseTtl(r: Reply, started: int, received: int): nat {
    Sat(r.pttl - (received - started))
  }

  datatype LeaseEnd = Inserted(bucket: BucketState) | Marked(bucket: BucketState, after: nat) | Bare(after: nat)

  /** The rest of `lease` once a reply is there: `ttl` is the time left computed from it, `born` the clock
      sample taken by the new bucket, `now` the moment of the map operation. */
  function FinishLease(bucket: Option<BucketState>, r: Reply, ttl: nat, born: int, now: int): LeaseEnd {
    if r.leased == 0 then
      match bucket
      case Some(b) => Marked(b.(exhausted := true), b.Retry(now))
      case None => Bare(ttl)
    else
      Inserted(BucketState(r.leased, born + ttl, r.window, false))
  }

  datatype Spending = Missing | Outdated | Empty | Spent(bucket: BucketState)

  /** The second half of `consume`: `sample` is the clock reading of its deadline test. */
  function Spend(bucket: Option<BucketState>, sample: int): Spending {
    match bucket
    case None => Missing
    case Some(b) =>
      if b.IsExpired(sample) then Outdated
      else if b.tokens == 0 then Empty
      else Spent(b.(tokens := b.tokens - 1))
  }

  /** What a caller of `consume` gets. */
  datatype Answer = Admitted(left: nat) | Exhausted(after: nat) | CacheError
}
