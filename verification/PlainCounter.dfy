/** One instance serving one call after the other is a plain fixed-window counter. */
module PlainCounter {
  import opened Basics
  import opened Policies
  import opened Buckets
  import opened RedisScripts
  import opened StoreRules
  import opened Solo

  /** The specification: a counter that admits while it is positive. */
  function Admits(left: nat, calls: nat): seq<bool>
    decreases calls
  {
    if calls == 0 then []
    else [left > 0] + Admits(if left > 0 then left - 1 else 0, calls - 1)
  }

  lemma {:induction false} AdmitsFirst(left: nat, calls: nat)
    ensures |Admits(left, calls)| == calls
    ensures forall k :: 0 <= k < calls ==> (Admits(left, calls)[k] <==> k < left)
    decreases calls
  {
    if calls > 0 {
      AdmitsFirst(if left > 0 then left - 1 else 0, calls - 1);
    }
  }

  datatype Session = Session(bucket: Option<BucketState>, slot: Slot, answers: seq<Answer>)

  /** Calls served one after the other, starting with whatever bucket is left over. */
  function ServeAll(left: Option<BucketState>, slot: Slot, p: Policy, clocks: seq<Clock>): Session {
    if clocks == [] then Session(left, slot, [])
    else
      var n := |clocks| - 1;
      var before := ServeAll(left, slot, p, clocks[..n]);
      var now := Serve(before.bucket, before.slot, p, Works, clocks[n]);
      Session(now.bucket, now.slot, before.answers + [now.answer])
  }

  /** The first call of the batch that call `n` belongs to. */
  function BatchStart(n: nat, size: nat): nat
    requires size > 0
  {
    n / size * size
  }

  lemma BatchHolds(n: nat, size: nat)
    requires size > 0
    ensures BatchStart(n, size) <= n < BatchStart(n, size) + size
    ensures n % size == n - BatchStart(n, size)
  {
  }

  lemma BatchNext(n: nat, size: nat)
    requires size > 0 && n > 0
    ensures BatchStart(n, size) ==
      if n < BatchStart(n - 1, size) + size then BatchStart(n - 1, size) else BatchStart(n - 1, size) + size
    ensures n <= BatchStart(n - 1, size) + size
  {
    var q := (n - 1) / size;
    assert n - 1 == q * size + (n - 1) % size;
    assert (q + 1) * size == q * size + size;
    if n < q * size + size {
      DivUnique(n, size, q);
    } else {
      DivUnique(n, size, q + 1);
    }
  }

  /** Tokens leased by the time `n` calls were admitted. */
  function Handed(n: nat, p: Policy): nat
    requires p.Valid()
  {
    if n == 0 then 0 else Min(BatchStart(n - 1, p.leaseSize) + p.leaseSize, p.quota)
  }

  /** The token count reported with admission number n (from zero). */
  function Reported(n: nat, p: Policy): int
    requires p.Valid()
  {
    Min(p.leaseSize, p.quota - BatchStart(n, p.leaseSize)) - n % p.leaseSize - 1
  }

  /** How the handed-out total grows: by one lease exactly when the calls have used it up. */
  lemma HandedStep(n: nat, p: Policy)
    requires p.Valid() && n < p.quota
    ensures n <= Handed(n, p) <= p.quota
    ensures Handed(n + 1, p) == if Handed(n, p) > n then Handed(n, p) else n + Min(p.leaseSize, p.quota - n)
    ensures Handed(n + 1, p) - n - 1 == Reported(n, p)
  {
    BatchHolds(n, p.leaseSize);
    if n > 0 {
      BatchNext(n, p.leaseSize);
    } else {
      DivUnique(0, p.leaseSize, 0);
    }
  }

  /** All readings fall inside the window that ends at `end`, one longest round trip before its end. */
  predicate Inside(c: Clock, end: int, roundTrip: nat) {
    && c.Ordered()
    && c.received - c.started <= roundTrip
    && c.sample + roundTrip < end
  }

  /** The state after `n` calls of a fresh window: how many tokens are where, as a function of `n` alone. */
  ghost predicate Midway(s: Session, p: Policy, n: nat, end: int, roundTrip: nat)
    requires p.Valid()
  {
    var served := Min(n, p.quota);
    && s.slot == Some(Entry(p.quota - Handed(served, p), Some(end)))
    && s.bucket.Some?
    && s.bucket.value.tokens == Handed(served, p) - served
    && s.bucket.value.expiresAt >= end - roundTrip
    && (s.bucket.value.exhausted <==> n > p.quota)
  }

  /** What one more call does in such a state. */
  lemma {:induction false} NextCall(s: Session, p: Policy, n: nat, end: int, roundTrip: nat, c: Clock)
    requires p.Valid() && n > 0 && Midway(s, p, n, end, roundTrip) && Inside(c, end, roundTrip)
    ensures var r := Serve(s.bucket, s.slot, p, Works, c);
            && Midway(Session(r.bucket, r.slot, s.answers + [r.answer]), p, n + 1, end, roundTrip)
            && (n < p.quota ==> Reported(n, p) >= 0 && r.answer == Admitted(Reported(n, p)))
            && (n >= p.quota ==> r.answer.Exhausted?)
  {
    if n < p.quota {
      HandedStep(n, p);
    } else {
      HandedFull(p);
    }
  }

  lemma HandedFull(p: Policy)
    requires p.Valid()
    ensures Handed(p.quota, p) == p.quota
  {
    BatchHolds(p.quota - 1, p.leaseSize);
  }

  /** A bucket that no call can be served from, and that no call is refused for. */
  predicate UsedUp(left: Option<BucketState>, now: int) {
    left.Some? ==> !left.value.exhausted && !left.value.Usable(now)
  }

  lemma FirstCall(left: Option<BucketState>, slot: Slot, p: Policy, c: Clock, end: int, roundTrip: nat)
    requires p.Valid() && p.resetIn > 0 && UsedUp(left, c.check)
    requires !Alive(slot, c.executed) && end == c.executed + p.WindowMs() && Inside(c, end, roundTrip)
    ensures var r := Serve(left, slot, p, Works, c);
            && Midway(Session(r.bucket, r.slot, [r.answer]), p, 1, end, roundTrip)
            && Reported(0, p) >= 0 && r.answer == Admitted(Reported(0, p))
  {
    HandedStep(0, p);
  }

  /** The first call opens the window and all of them fall inside it. */
  predicate OneWindow(slot: Slot, p: Policy, clocks: seq<Clock>, roundTrip: nat) {
    && clocks != []
    && !Alive(slot, clocks[0].executed)
    && forall k :: 0 <= k < |clocks| ==> Inside(clocks[k], clocks[0].executed + p.WindowMs(), roundTrip)
  }

  predicate AsCounted(answers: seq<Answer>, p: Policy)
    requires p.Valid()
  {
    forall k :: 0 <= k < |answers| ==>
      if k < p.quota then Reported(k, p) >= 0 && answers[k] == Admitted(Reported(k, p)) else answers[k].Exhausted?
  }

  lemma CountedStep(s: Session, p: Policy, n: nat, end: int, roundTrip: nat, c: Clock)
    requires p.Valid() && n > 0 && Midway(s, p, n, end, roundTrip) && Inside(c, end, roundTrip)
    requires |s.answers| == n && AsCounted(s.answers, p)
    ensures var r := Serve(s.bucket, s.slot, p, Works, c);
            var s' := Session(r.bucket, r.slot, s.answers + [r.answer]);
            Midway(s', p, n + 1, end, roundTrip) && |s'.answers| == n + 1 && AsCounted(s'.answers, p)
  {
    NextCall(s, p, n, end, roundTrip, c);
    var answers := s.answers + [Serve(s.bucket, s.slot, p, Works, c).answer];
    forall k | 0 <= k < |answers|
      ensures if k < p.quota then Reported(k, p) >= 0 && answers[k] == Admitted(Reported(k, p))
              else answers[k].Exhausted?
    {
      if k < n { assert answers[k] == s.answers[k]; }
    }
  }

  lemma {:induction false} ServedAsCounted(left: Option<BucketState>, slot: Slot, p: Policy, clocks: seq<Clock>,
                                           roundTrip: nat)
    requires p.Valid() && p.resetIn > 0 && OneWindow(slot, p, clocks, roundTrip) && UsedUp(left, clocks[0].check)
    ensures var s := ServeAll(left, slot, p, clocks);
            && |s.answers| == |clocks| && AsCounted(s.answers, p)
            && Midway(s, p, |clocks|, clocks[0].executed + p.WindowMs(), roundTrip)
    decreases |clocks|
  {
    var n := |clocks| - 1;
    var end := clocks[0].executed + p.WindowMs();
    if n == 0 {
      FirstSession(left, slot, p, clocks[0], clocks, end, roundTrip);
    } else {
      OneWindowFront(slot, p, clocks, roundTrip);
      ServedAsCounted(left, slot, p, clocks[..n], roundTrip);
      CountedStep(ServeAll(left, slot, p, clocks[..n]), p, n, end, roundTrip, clocks[n]);
    }
  }

  lemma OneWindowFront(slot: Slot, p: Policy, clocks: seq<Clock>, roundTrip: nat)
    requires OneWindow(slot, p, clocks, roundTrip) && |clocks| > 1
    ensures OneWindow(slot, p, clocks[..|clocks| - 1], roundTrip)
  {
  }

  lemma FirstSession(left: Option<BucketState>, slot: Slot, p: Policy, c: Clock, clocks: seq<Clock>, end: int,
                     roundTrip: nat)
    requires p.Valid() && p.resetIn > 0 && clocks == [c] && UsedUp(left, c.check)
    requires !Alive(slot, c.executed) && end == c.executed + p.WindowMs() && Inside(c, end, roundTrip)
    ensures var s := ServeAll(left, slot, p, clocks);
            |s.answers| == 1 && AsCounted(s.answers, p) && Midway(s, p, 1, end, roundTrip)
  {
    assert clocks[..0] == [];
    FirstCall(left, slot, p, c, end, roundTrip);
  }

  /** A marked bucket refuses every call, in any window, as long as nobody removes it. */
  lemma {:induction false} MarkedRefusesAll(left: BucketState, slot: Slot, p: Policy, clocks: seq<Clock>)
    requires left.exhausted
    ensures var s := ServeAll(Some(left), slot, p, clocks);
            && s.bucket == Some(left) && |s.answers| == |clocks|
            && forall k :: 0 <= k < |clocks| ==> s.answers[k].Exhausted?
    decreases |clocks|
  {
    if clocks != [] {
      MarkedRefusesAll(left, slot, p, clocks[..|clocks| - 1]);
    }
  }

  /** The answers of the plain counter; admitted call number k (from zero) is told that
      min(L, quota - j * L) - (k mod L) - 1 tokens are left, with L = lease_size and j = k div L. */
  ghost predicate AsPlain(answers: seq<Answer>, p: Policy, calls: nat)
    requires p.Valid()
  {
    var plain := Admits(p.quota, calls);
    && |answers| == |plain| == calls
    && (forall k :: 0 <= k < calls ==> (answers[k].Admitted? <==> plain[k]))
    && (forall k :: 0 <= k < calls ==> (answers[k].Exhausted? <==> !plain[k]))
    && (forall k :: 0 <= k < calls && plain[k] ==>
          answers[k].left == Min(p.leaseSize, p.quota - k / p.leaseSize * p.leaseSize) - k % p.leaseSize - 1)
  }

  lemma CountedIsPlain(answers: seq<Answer>, p: Policy)
    requires p.Valid() && AsCounted(answers, p)
    ensures AsPlain(answers, p, |answers|)
  {
    AdmitsFirst(p.quota, |answers|);
  }

  /** Refinement: in a window opened by its first call, an instance that starts with no usable bucket answers as the
      plain counter does, if and only if it does not start with a bucket marked exhausted. */
  lemma {:induction false} RefinesPlainCounter(left: Option<BucketState>, slot: Slot, p: Policy, clocks: seq<Clock>,
                                               roundTrip: nat)
    requires p.Valid() && p.resetIn > 0 && OneWindow(slot, p, clocks, roundTrip)
    requires left.Some? ==> left.value.exhausted || !left.value.Usable(clocks[0].check)
    ensures AsPlain(ServeAll(left, slot, p, clocks).answers, p, |clocks|)
            <==> !(left.Some? && left.value.exhausted)
  {
    if left.Some? && left.value.exhausted {
      MarkedRefusesAll(left.value, slot, p, clocks);
      AdmitsFirst(p.quota, |clocks|);
      assert ServeAll(left, slot, p, clocks).answers[0].Exhausted?;
    } else {
      ServedAsCounted(left, slot, p, clocks, roundTrip);
      CountedIsPlain(ServeAll(left, slot, p, clocks).answers, p);
    }
  }
}
