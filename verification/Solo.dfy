/** One `consume` call running with no other call of its instance in between, as a function on values. */
module Solo {
  import opened Basics
  import opened Policies
  import opened Buckets
  import opened RedisScripts
  import opened StoreRules

  /** The clock readings of one call: `check`, the lease from sending to the new bucket, the deadline test.
      `born` is also the reading that a zero lease compares with the deadline of the bucket it marks. */
  datatype Clock = Clock(check: int, started: int, executed: int, received: int, born: int, sample: int) {
    predicate Ordered() {
      check <= started <= executed <= received <= born <= sample
    }
  }

  /** Whether the call gets through to Redis and back. */
  datatype Link = Works | Unreachable | ReplyLost

  datatype Refilled = Ready | Refused(after: nat) | Broken

  /** One round of the loop in `ensure_refilled`: to its end, or to the wait on another call's Notify. */
  datatype Round<T> = Done(value: T) | Waits(notify: nat)

  datatype LeaseOnce = LeaseOnce(result: Refilled, bucket: Option<BucketState>, slot: Slot)

  function Lease(bucket: Option<BucketState>, slot: Slot, p: Policy, link: Link, c: Clock): LeaseOnce {
    if link.Unreachable? then LeaseOnce(Broken, bucket, slot)
    else
      var run := LeaseScript(slot, c.executed, p);
      if run.reply.None? || link.ReplyLost? then LeaseOnce(Broken, bucket, run.slot)
      else
        match FinishLease(bucket, run.reply.value, LeaseTtl(run.reply.value, c.started, c.received), c.born, c.born)
        case Inserted(b) => LeaseOnce(Ready, Some(b), run.slot)
        case Marked(b, after) => LeaseOnce(Refused(after), Some(b), run.slot)
        case Bare(after) => LeaseOnce(Refused(after), bucket, run.slot)
  }

  function Refill(bucket: Option<BucketState>, slot: Slot, p: Policy, link: Link, c: Clock): LeaseOnce {
    match Check(bucket, false, c.check)
    case Usable => LeaseOnce(Ready, bucket, slot)
    case Reject(after) => LeaseOnce(Refused(after), bucket, slot)
    case NeedsLease => Lease(bucket, slot, p, link, c)
  }

  datatype Served = Served(answer: Answer, bucket: Option<BucketState>, slot: Slot)

  function Serve(bucket: Option<BucketState>, slot: Slot, p: Policy, link: Link, c: Clock): Served {
    Conclude(Refill(bucket, slot, p, link, c), c.sample)
  }

  /** What `consume` does once the bucket is refilled, or is not. */
  function Conclude(r: LeaseOnce, sample: int): Served {
    match r.result
    case Refused(after) => Served(Exhausted(after), r.bucket, r.slot)
    case Broken => Served(CacheError, r.bucket, r.slot)
    case Ready =>
      match Spend(r.bucket, sample)
      case Missing => Served(Admitted(0), r.bucket, r.slot)
      case Outdated => Served(Admitted(0), None, r.slot)
      case Empty => Served(Admitted(0), r.bucket, r.slot)
      case Spent(b) => Served(Admitted(b.tokens), Some(b), r.slot)
  }
}
