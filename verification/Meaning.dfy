/** What the decisions of StoreRules.dfy and Solo.dfy come to, case by case and for all inputs, said with fields,
    clock readings and arithmetic only. */
module Meaning {
  import opened Basics
  import opened Policies
  import opened Buckets
  import opened RedisScripts
  import opened StoreRules
  import opened Solo

  /** The flag goes first; without it, or with a load that missed it, a token and a deadline ahead decide. */
  lemma {:induction false} CheckMeans(bucket: Option<BucketState>, stale: bool, now: int)
    ensures var v := Check(bucket, stale, now);
            && (v.Reject? <==> bucket.Some? && bucket.value.exhausted && !stale)
            && (v.Usable? <==> bucket.Some? && (bucket.value.exhausted ==> stale)
                               && bucket.value.tokens > 0 && now < bucket.value.expiresAt)
            && (v.Reject? ==> bucket.value.expiresAt <= now + v.after)
            && (v.Reject? && v.after > 0 ==> bucket.value.expiresAt == now + v.after)
  {
  }

  /** The time left runs from the sending, and a reply later than that leaves none. */
  lemma {:induction false} TtlMeans(r: Reply, started: int, received: int)
    ensures var ttl := LeaseTtl(r, started, received);
            started + r.pttl <= received + ttl && (ttl > 0 ==> started + r.pttl == received + ttl)
  {
  }

  /** A zero reply marks the bucket that is there, or refuses with the time left; any other makes a bucket. */
  lemma {:induction false} FinishMeans(bucket: Option<BucketState>, r: Reply, ttl: nat, born: int, now: int)
    ensures var e := FinishLease(bucket, r, ttl, born, now);
            && (e.Inserted? <==> r.leased > 0)
            && (e.Marked? <==> r.leased == 0 && bucket.Some?)
            && (e.Inserted? ==> e.bucket == BucketState(r.leased, born + ttl, r.window, false))
            && (e.Marked? ==>
                  && e.bucket == bucket.value.(exhausted := true)
                  && bucket.value.expiresAt <= now + e.after
                  && (e.after > 0 ==> bucket.value.expiresAt == now + e.after))
            && (e.Bare? ==> e.after == ttl)
  {
  }

  lemma {:induction false} SpendMeans(bucket: Option<BucketState>, sample: int)
    ensures var s := Spend(bucket, sample);
            && (s.Missing? <==> bucket.None?)
            && (s.Outdated? <==> bucket.Some? && bucket.value.expiresAt <= sample)
            && (s.Spent? <==> bucket.Some? && sample < bucket.value.expiresAt && bucket.value.tokens > 0)
            && (s.Spent? ==> s.bucket.tokens + 1 == bucket.value.tokens
                             && s.bucket == bucket.value.(tokens := s.bucket.tokens))
  {
  }

  /** The call has to ask Redis: it finds no bucket, or one that is unmarked and empty or past its deadline. */
  predicate AsksRedis(bucket: Option<BucketState>, check: int) {
    bucket.Some? ==>
      !bucket.value.exhausted && (bucket.value.tokens == 0 || bucket.value.expiresAt <= check)
  }

  /** No key that Redis would still show at `now`. */
  predicate NoKey(slot: Slot, now: int) {
    slot.None? || (slot.value.expiry.Some? && slot.value.expiry.value < now)
  }

  /** A lease on a dead key opens a window of the policy's length and puts one batch into a fresh bucket. */
  lemma {:induction false} OpeningLease(bucket: Option<BucketState>, slot: Slot, p: Policy, c: Clock)
    requires NoKey(slot, c.executed) && p.resetIn > 0 && p.leaseSize > 0
    ensures var end := c.executed + 1000 * p.resetIn;
            var ttl := Sat(1000 * p.resetIn - (c.received - c.started));
            Lease(bucket, slot, p, Works, c)
            == LeaseOnce(Ready, Some(BucketState(p.leaseSize, c.born + ttl, end, false)),
                         Some(Entry(p.quota - p.leaseSize, Some(end))))
  {
  }

  /** A lease on a live key moves a batch, or what is left of one, from the counter into a fresh bucket. */
  lemma {:induction false} FurtherLease(bucket: Option<BucketState>, end: int, counter: int, p: Policy, c: Clock)
    requires c.executed <= end && counter > 0 && p.leaseSize > 0
    ensures var n := Min(counter, p.leaseSize);
            var ttl := Sat(end - c.executed - (c.received - c.started));
            Lease(bucket, Some(Entry(counter, Some(end))), p, Works, c)
            == LeaseOnce(Ready, Some(BucketState(n, c.born + ttl, end, false)), Some(Entry(counter - n, Some(end))))
  {
  }

  /** A lease on a spent key takes nothing. It marks the bucket found and refuses until that one's deadline, or
      refuses until the end of the window counted from before the call. */
  lemma {:induction false} ZeroLease(bucket: Option<BucketState>, end: int, counter: int, p: Policy, c: Clock)
    requires c.executed <= end && counter <= 0
    ensures var slot := Some(Entry(counter, Some(end)));
            var until := if bucket.Some? then bucket.value.expiresAt - c.born
                         else end - c.executed - (c.received - c.started);
            Lease(bucket, slot, p, Works, c)
            == LeaseOnce(Refused(Sat(until)),
                         if bucket.Some? then Some(bucket.value.(exhausted := true)) else None, slot)
  {
  }

  /** A caller sees a cache error exactly when its call has to ask Redis and no reply comes: the link fails, or
      SETEX refuses to open a window of no length. Nothing local changes then. */
  lemma {:induction false} CacheErrorsMean(bucket: Option<BucketState>, slot: Slot, p: Policy, link: Link, c: Clock)
    ensures var served := Serve(bucket, slot, p, link, c);
            && (served.answer.CacheError? <==>
                  AsksRedis(bucket, c.check) && (!link.Works? || (NoKey(slot, c.executed) && p.resetIn == 0)))
            && (served.answer.CacheError? ==> served.bucket == bucket)
            && (link.Unreachable? ==> served.slot == slot)
  {
  }

  /** A caller is refused exactly when the bucket found is marked, or when it asks Redis and the live key is spent;
      a refused call leaves the counter alone. */
  lemma {:induction false} RefusalsMean(bucket: Option<BucketState>, slot: Slot, p: Policy, link: Link, c: Clock)
    requires p.Valid()
    ensures var served := Serve(bucket, slot, p, link, c);
            && (served.answer.Exhausted? <==>
                  || (bucket.Some? && bucket.value.exhausted)
                  || (AsksRedis(bucket, c.check) && link.Works? && !NoKey(slot, c.executed) && slot.value.value <= 0))
            && (served.answer.Exhausted? ==> served.slot == slot)
            && (served.answer.Exhausted? && bucket.Some? ==>
                  && served.bucket == Some(bucket.value.(exhausted := true))
                  && var from := if bucket.value.exhausted then c.check else c.born;
                     && bucket.value.expiresAt <= from + served.answer.after
                     && (served.answer.after > 0 ==> bucket.value.expiresAt == from + served.answer.after))
  {
  }

  /** An admitted call took one token from what the bucket and the counter held between them, unless the bucket it
      was sent to passed its deadline in between; then the bucket is gone and the answer shows no token left. */
  lemma {:induction false} AdmissionsMean(bucket: Option<BucketState>, slot: Slot, p: Policy, link: Link, c: Clock)
    requires p.Valid() && c.Ordered()
    ensures var served := Serve(bucket, slot, p, link, c);
            served.answer.Admitted? ==>
              if served.bucket.Some? then
                && served.answer.left == served.bucket.value.tokens && c.sample < served.bucket.value.expiresAt
                && (!AsksRedis(bucket, c.check) ==>
                      served.slot == slot && bucket == Some(served.bucket.value.(tokens := served.answer.left + 1)))
                && (AsksRedis(bucket, c.check) ==>
                      served.slot.Some?
                      && served.slot.value.value + served.answer.left + 1
                         == if NoKey(slot, c.executed) then p.quota else slot.value.value)
              else served.answer.left == 0
  {
  }
}
