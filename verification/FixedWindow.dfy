/** One instance serving one call after the other, over any number of windows and idle gaps, is a fixed-window counter
    that refills when its key dies - as long as marked buckets are swept away before the next window. */
module FixedWindow {
  import opened Basics
  import opened Buckets
  import opened Policies
  import opened RedisScripts
  import opened StoreRules
  import opened Solo
  import opened PlainCounter

  /** The specification: the end of the current window and the calls it has seen. */
  datatype Window = Window(end: int, calls: nat)

  /** The window that a call at `at` falls into. */
  function Current(w: Option<Window>, p: Policy, at: int): Window {
    if w.None? || w.value.end < at then Window(at + p.WindowMs(), 0) else w.value
  }

  datatype Tally = Tally(window: Option<Window>, admitted: seq<bool>)

  function CountAll(p: Policy, calls: seq<Arrival>): (t: Tally)
    ensures |t.admitted| == |calls|
  {
    if calls == [] then Tally(None, [])
    else
      var n := |calls| - 1;
      var before := CountAll(p, calls[..n]);
      var w := Current(before.window, p, calls[n].clock.executed);
      Tally(Some(w.(calls := w.calls + 1)), before.admitted + [w.calls < p.quota])
  }

  /** A call, and whether a cleanup tick ran since the one before it. */
  datatype Arrival = Arrival(swept: bool, clock: Clock)

  function Swept(bucket: Option<BucketState>, a: Arrival): Option<BucketState> {
    if a.swept && bucket.Some? && bucket.value.IsExpired(a.clock.check) then None else bucket
  }

  function ServeOne(s: Session, p: Policy, a: Arrival): Session {
    var r := Serve(Swept(s.bucket, a), s.slot, p, Works, a.clock);
    Session(r.bucket, r.slot, s.answers + [r.answer])
  }

  /** The same calls served by a new instance. */
  function ServeArrivals(slot: Slot, p: Policy, calls: seq<Arrival>): (s: Session)
    ensures |s.answers| == |calls|
  {
    if calls == [] then Session(None, slot, [])
    else ServeOne(ServeArrivals(slot, p, calls[..|calls| - 1]), p, calls[|calls| - 1])
  }

  /** The call falls inside the window, or opens one after an idle gap; `gap` bounds the delay between the two samples
      of a deadline and `roundTrip` the way to Redis and back. */
  predicate Fits(w: Option<Window>, slot: Slot, p: Policy, c: Clock, roundTrip: nat, gap: nat) {
    && Inside(c, Current(w, p, c.executed).end, roundTrip) && c.born - c.received <= gap
    && (w.None? ==> !Alive(slot, c.executed))
    && (w.Some? && w.value.end < c.executed ==> w.value.end + gap <= c.check)
  }

  predicate AllFit(slot: Slot, p: Policy, calls: seq<Arrival>, roundTrip: nat, gap: nat) {
    calls == [] ||
    var front := calls[..|calls| - 1];
    && AllFit(slot, p, front, roundTrip, gap)
    && Fits(CountAll(p, front).window, slot, p, calls[|calls| - 1].clock, roundTrip, gap)
  }

  /** The call opens a window, finds a bucket that the last one left marked, and no tick has removed it. */
  predicate FindsMarked(w: Option<Window>, p: Policy, a: Arrival) {
    w.Some? && w.value.end < a.clock.executed && w.value.calls > p.quota && !a.swept
  }

  predicate NeverFindsMarked(p: Policy, calls: seq<Arrival>) {
    calls == [] ||
    var front := calls[..|calls| - 1];
    NeverFindsMarked(p, front) && !FindsMarked(CountAll(p, front).window, p, calls[|calls| - 1])
  }

  predicate SaysSame(a: Answer, admitted: bool) {
    (a.Admitted? <==> admitted) && (a.Exhausted? <==> !admitted)
  }

  ghost predicate Agrees(answers: seq<Answer>, admitted: seq<bool>) {
    |answers| == |admitted| && forall k :: 0 <= k < |answers| ==> SaysSame(answers[k], admitted[k])
  }

  /** What the instance and Redis hold, given what the counter holds. */
  ghost predicate Tracks(s: Session, w: Option<Window>, slot: Slot, p: Policy, roundTrip: nat, gap: nat)
    requires p.Valid()
  {
    match w
    case None => s.bucket.None? && s.slot == slot
    case Some(win) =>
      win.calls > 0 && Midway(s, p, win.calls, win.end, roundTrip) && s.bucket.value.expiresAt <= win.end + gap
  }

  /** No new bucket outlives its window by more than `gap`. */
  lemma DeadlineKept(s: Session, p: Policy, end: int, roundTrip: nat, gap: nat, c: Clock)
    requires p.Valid() && c.Ordered() && c.born - c.received <= gap
    requires s.slot.Some? && s.slot.value.expiry == Some(end) && c.executed <= end
    requires s.bucket.Some? && s.bucket.value.expiresAt <= end + gap && c.born <= end
    ensures var b := Serve(s.bucket, s.slot, p, Works, c).bucket; b.Some? ==> b.value.expiresAt <= end + gap
  {
  }

  lemma InWindowStep(s: Session, p: Policy, w: Window, a: Arrival, roundTrip: nat, gap: nat)
    requires p.Valid() && w.calls > 0 && Midway(s, p, w.calls, w.end, roundTrip)
    requires s.bucket.value.expiresAt <= w.end + gap
    requires Inside(a.clock, w.end, roundTrip) && a.clock.born - a.clock.received <= gap
    ensures var s' := ServeOne(s, p, a);
            && Midway(s', p, w.calls + 1, w.end, roundTrip) && s'.bucket.value.expiresAt <= w.end + gap
            && SaysSame(s'.answers[|s.answers|], w.calls < p.quota)
  {
    assert Swept(s.bucket, a) == s.bucket;
    NextCall(s, p, w.calls, w.end, roundTrip, a.clock);
    DeadlineKept(s, p, w.end, roundTrip, gap, a.clock);
  }

  lemma OpeningDeadline(left: Option<BucketState>, slot: Slot, p: Policy, c: Clock, end: int, roundTrip: nat, gap: nat)
    requires p.Valid() && p.resetIn > 0 && UsedUp(left, c.check) && c.born - c.received <= gap
    requires !Alive(slot, c.executed) && end == c.executed + p.WindowMs() && Inside(c, end, roundTrip)
    ensures var b := Serve(left, slot, p, Works, c).bucket; b.Some? ==> b.value.expiresAt <= end + gap
  {
  }

  lemma OpeningStep(s: Session, p: Policy, a: Arrival, roundTrip: nat, gap: nat)
    requires p.Valid() && p.resetIn > 0 && UsedUp(Swept(s.bucket, a), a.clock.check)
    requires !Alive(s.slot, a.clock.executed) && a.clock.born - a.clock.received <= gap
    requires Inside(a.clock, a.clock.executed + p.WindowMs(), roundTrip)
    ensures var end, s' := a.clock.executed + p.WindowMs(), ServeOne(s, p, a);
            && Midway(s', p, 1, end, roundTrip) && s'.bucket.value.expiresAt <= end + gap
            && SaysSame(s'.answers[|s.answers|], true)
  {
    var end := a.clock.executed + p.WindowMs();
    FirstCall(Swept(s.bucket, a), s.slot, p, a.clock, end, roundTrip);
    OpeningDeadline(Swept(s.bucket, a), s.slot, p, a.clock, end, roundTrip, gap);
    var r := Serve(Swept(s.bucket, a), s.slot, p, Works, a.clock);
    assert Midway(Session(r.bucket, r.slot, [r.answer]), p, 1, end, roundTrip);
  }

  /** A call that finds a marked bucket is refused, where the counter would refill and admit. */
  lemma MarkedStep(s: Session, p: Policy, a: Arrival)
    requires s.bucket.Some? && s.bucket.value.exhausted && !a.swept
    ensures ServeOne(s, p, a).answers[|s.answers|].Exhausted?
  {
  }

  /** One call: the instance keeps track of the counter and says the same, unless it finds a marked bucket. */
  lemma OneCall(s: Session, p: Policy, w: Option<Window>, slot: Slot, a: Arrival, roundTrip: nat, gap: nat)
    requires p.Valid() && p.resetIn > 0 && Tracks(s, w, slot, p, roundTrip, gap)
    requires Fits(w, slot, p, a.clock, roundTrip, gap)
    ensures var cur, s' := Current(w, p, a.clock.executed), ServeOne(s, p, a);
            && (SaysSame(s'.answers[|s.answers|], cur.calls < p.quota) <==> !FindsMarked(w, p, a))
            && (!FindsMarked(w, p, a) ==> Tracks(s', Some(cur.(calls := cur.calls + 1)), slot, p, roundTrip, gap))
  {
    if w.Some? && a.clock.executed <= w.value.end {
      InWindowStep(s, p, w.value, a, roundTrip, gap);
    } else if FindsMarked(w, p, a) {
      MarkedStep(s, p, a);
    } else {
      OpeningStep(s, p, a, roundTrip, gap);
    }
  }

  lemma AgreesLast(answers: seq<Answer>, admitted: seq<bool>, a: Answer, b: bool)
    requires |answers| == |admitted|
    ensures Agrees(answers + [a], admitted + [b]) <==> Agrees(answers, admitted) && SaysSame(a, b)
  {
    if Agrees(answers + [a], admitted + [b]) {
      forall k | 0 <= k < |answers| ensures SaysSame(answers[k], admitted[k]) {
        assert SaysSame((answers + [a])[k], (admitted + [b])[k]);
      }
      assert SaysSame((answers + [a])[|answers|], (admitted + [b])[|answers|]);
    }
  }

  lemma {:induction false} LastAgrees(s: Session, t: Tally, slot: Slot, p: Policy, a: Arrival, roundTrip: nat, gap: nat)
    requires p.Valid() && p.resetIn > 0 && Tracks(s, t.window, slot, p, roundTrip, gap)
    requires |s.answers| == |t.admitted| && Agrees(s.answers, t.admitted)
    requires Fits(t.window, slot, p, a.clock, roundTrip, gap)
    ensures var cur, s' := Current(t.window, p, a.clock.executed), ServeOne(s, p, a);
            && (Agrees(s'.answers, t.admitted + [cur.calls < p.quota]) <==> !FindsMarked(t.window, p, a))
            && (!FindsMarked(t.window, p, a) ==>
                  Tracks(s', Some(cur.(calls := cur.calls + 1)), slot, p, roundTrip, gap))
  {
    var cur, s' := Current(t.window, p, a.clock.executed), ServeOne(s, p, a);
    OneCall(s, p, t.window, slot, a, roundTrip, gap);
    AgreesLast(s.answers, t.admitted, s'.answers[|s.answers|], cur.calls < p.quota);
    assert s'.answers == s.answers + [s'.answers[|s.answers|]];
  }

  /** Once they disagree they never agree again. */
  lemma {:induction false} DisagreeForGood(answers: seq<Answer>, admitted: seq<bool>, a: Answer, b: bool)
    requires |answers| == |admitted| && !Agrees(answers, admitted)
    ensures !Agrees(answers + [a], admitted + [b])
  {
    AgreesLast(answers, admitted, a, b);
  }

  /** Refinement over any number of windows: a new instance answers every call as the fixed-window counter does, if and
      only if no call that opens a window finds a marked bucket that no cleanup tick has removed. */
  lemma {:induction false} RefinesFixedWindow(slot: Slot, p: Policy, calls: seq<Arrival>, roundTrip: nat, gap: nat)
    requires p.Valid() && p.resetIn > 0 && AllFit(slot, p, calls, roundTrip, gap)
    ensures Agrees(ServeArrivals(slot, p, calls).answers, CountAll(p, calls).admitted) <==> NeverFindsMarked(p, calls)
    ensures NeverFindsMarked(p, calls) ==>
              Tracks(ServeArrivals(slot, p, calls), CountAll(p, calls).window, slot, p, roundTrip, gap)
    decreases |calls|
  {
    if calls != [] {
      var n := |calls| - 1;
      var front, a := calls[..n], calls[n];
      var s, t := ServeArrivals(slot, p, front), CountAll(p, front);
      RefinesFixedWindow(slot, p, front, roundTrip, gap);
      if NeverFindsMarked(p, front) {
        LastAgrees(s, t, slot, p, a, roundTrip, gap);
      } else {
        DisagreeForGood(s.answers, t.admitted, Serve(Swept(s.bucket, a), s.slot, p, Works, a.clock).answer,
                        Current(t.window, p, a.clock.executed).calls < p.quota);
      }
    }
  }
}
