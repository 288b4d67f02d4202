/** How many requests can be admitted without a token, and so how many at all. */
module Admission {
  import opened Basics
  import opened StoreRules
  import opened Protocol
  import opened Ledger
  import opened Timeline
  import opened Safety

  /** Calls under way. */
  function Busy(calls: seq<Call>): nat {
    if calls == [] then 0 else Busy(calls[..|calls| - 1]) + if calls[|calls| - 1].Idle? then 0 else 1
  }

  lemma {:induction false} BusyAtMost(calls: seq<Call>)
    ensures Busy(calls) <= |calls|
  {
    if calls != [] {
      BusyAtMost(calls[..|calls| - 1]);
    }
  }

  ghost predicate AtMost(s: State, k: nat) {
    forall i :: 0 <= i < |s.insts| ==> Busy(s.insts[i].calls) <= k
  }

  /** At no time in the run does an instance have more than `k` calls under way. */
  ghost predicate Limited(cfg: Config, start: State, steps: seq<Step>, k: nat)
    requires Runs(cfg, start, steps)
    decreases |steps|
  {
    AtMost(After(cfg, start, steps), k) && (steps != [] ==> Limited(cfg, start, steps[..|steps| - 1], k))
  }

  /** Reachable with at most `k` calls for the id under way at once in each instance, out of however many slots. */
  ghost predicate ReachableWith(cfg: Config, s: State, k: nat) {
    exists start, steps ::
      Init(start) && Runs(cfg, start, steps) && After(cfg, start, steps) == s && Limited(cfg, start, steps, k)
  }

  lemma {:induction false} SlotsLimit(cfg: Config, start: State, steps: seq<Step>)
    requires cfg.policy.Valid() && Init(start) && Runs(cfg, start, steps)
    ensures Limited(cfg, start, steps, cfg.slots)
    decreases |steps|
  {
    var s := After(cfg, start, steps);
    InvAfter(cfg, start, steps);
    forall i | 0 <= i < |s.insts| ensures Busy(s.insts[i].calls) <= cfg.slots {
      assert Placed(cfg, s.now, s.slot, s.insts[i]);
      BusyAtMost(s.insts[i].calls);
    }
    if steps != [] {
      SlotsLimit(cfg, start, steps[..|steps| - 1]);
    }
  }

  /** Every run keeps to the number of call slots, whatever happens. */
  lemma AllRunsLimited(cfg: Config, s: State)
    requires cfg.policy.Valid()
    ensures Reachable(cfg, s) <==> ReachableWith(cfg, s, cfg.slots)
  {
    if Reachable(cfg, s) {
      var start, steps :| Init(start) && Runs(cfg, start, steps) && After(cfg, start, steps) == s;
      SlotsLimit(cfg, start, steps);
    }
  }

  /** The bucket would serve a call made now. */
  predicate Live(inst: Inst, now: int) {
    inst.bucket.Some? && inst.bucket.value.Usable(now)
  }

  /** The call goes by a bucket of window `w`. */
  predicate Relies(c: Call, inserted: seq<int>, w: int) {
    EpochOf(c).Some? && WindowOf(inserted, EpochOf(c).value) == w
  }

  /** And that bucket cannot serve it any more. `live` says that the latest bucket is there and can serve. */
  predicate Doomed(c: Call, inserted: seq<int>, live: bool, w: int) {
    Relies(c, inserted, w) && (c.Removing? || !(EpochOf(c).value == |inserted| && live))
  }

  function ReliantAll(calls: seq<Call>, inserted: seq<int>, w: int): nat {
    if calls == [] then 0
    else ReliantAll(calls[..|calls| - 1], inserted, w) + if Relies(calls[|calls| - 1], inserted, w) then 1 else 0
  }

  function DoomedAll(calls: seq<Call>, inserted: seq<int>, live: bool, w: int): nat {
    if calls == [] then 0
    else
      DoomedAll(calls[..|calls| - 1], inserted, live, w)
      + if Doomed(calls[|calls| - 1], inserted, live, w) then 1 else 0
  }

  lemma {:induction false} DoomedUpdate(calls: seq<Call>, t: nat, c: Call, inserted: seq<int>, live: bool, w: int)
    requires t < |calls|
    ensures DoomedAll(calls[t := c], inserted, live, w) + (if Doomed(calls[t], inserted, live, w) then 1 else 0)
            == DoomedAll(calls, inserted, live, w) + (if Doomed(c, inserted, live, w) then 1 else 0)
  {
    var n := |calls| - 1;
    if t == n {
      assert calls[t := c][..n] == calls[..n];
    } else {
      assert calls[t := c][..n] == calls[..n][t := c];
      DoomedUpdate(calls[..n], t, c, inserted, live, w);
    }
  }

  lemma {:induction false} DoomedRely(calls: seq<Call>, inserted: seq<int>, live: bool, w: int)
    ensures DoomedAll(calls, inserted, live, w) <= ReliantAll(calls, inserted, w) <= Busy(calls)
    ensures !live || (inserted != [] && inserted[|inserted| - 1] != w) ==>
              DoomedAll(calls, inserted, live, w) == ReliantAll(calls, inserted, w)
    ensures DoomedAll(calls, inserted, false, w) == ReliantAll(calls, inserted, w)
  {
    if calls != [] {
      DoomedRely(calls[..|calls| - 1], inserted, live, w);
    }
  }

  /** Every call goes by a bucket made before; one more bucket dooms all of them. */
  lemma {:induction false} NewBucketDooms(calls: seq<Call>, inserted: seq<int>, window: int, live: bool, w: int)
    requires forall t :: 0 <= t < |calls| && EpochOf(calls[t]).Some? ==> 1 <= EpochOf(calls[t]).value <= |inserted|
    ensures DoomedAll(calls, inserted + [window], live, w) == ReliantAll(calls, inserted, w)
  {
    if calls != [] {
      NewBucketDooms(calls[..|calls| - 1], inserted, window, live, w);
    }
  }

  lemma {:induction false} WakeDoomsNobody(calls: seq<Call>, n: nat, inserted: seq<int>, live: bool, w: int)
    ensures DoomedAll(Wake(calls, n), inserted, live, w) == DoomedAll(calls, inserted, live, w)
  {
    if calls != [] {
      var k := |calls| - 1;
      assert Wake(calls, n)[..k] == Wake(calls[..k], n);
      WakeDoomsNobody(calls[..k], n, inserted, live, w);
    }
  }

  lemma {:induction false} IdlesDoomNobody(n: nat, inserted: seq<int>, live: bool, w: int)
    ensures DoomedAll(Idles(n), inserted, live, w) == 0
  {
    if n > 0 {
      assert Idles(n)[..n - 1] == Idles(n - 1);
      IdlesDoomNobody(n - 1, inserted, live, w);
    }
  }

  /** Buckets of window `w` that this instance made and that have stopped serving. */
  function DeadBuckets(inst: Inst, now: int, w: int): nat {
    if Live(inst, now) && inst.inserted != [] then Count(inst.inserted[..|inst.inserted| - 1], w)
    else Count(inst.inserted, w)
  }

  /** `n` times `k`, one `k` at a time. */
  function Times(n: nat, k: nat): nat {
    if n == 0 then 0 else Times(n - 1, k) + k
  }

  lemma {:induction false} TimesIsProduct(n: nat, k: nat)
    ensures Times(n, k) == k * n
  {
    if n > 0 {
      TimesIsProduct(n - 1, k);
      assert k * n == k * (n - 1) + k;
    }
  }

  lemma {:induction false} TimesMono(n: nat, more: nat, k: nat)
    requires n <= more
    ensures Times(n, k) <= Times(more, k)
    decreases more
  {
    if n < more {
      TimesMono(n, more - 1, k);
    }
  }

  /** Every answer without a token that relied on a bucket of window `w`, given or still to be given, is paid for by
      a dead bucket of that window, and no bucket pays for more answers than there are calls at once. */
  ghost predicate Paid(inst: Inst, now: int, w: int, k: nat) {
    Count(inst.untokened, w) + DoomedAll(inst.calls, inst.inserted, Live(inst, now), w)
    <= Times(DeadBuckets(inst, now, w), k)
  }

  /** Steps that make no bucket: the calls and answers are paid for as before, and if the latest bucket dies, it pays
      for all calls that went by it. */
  lemma {:induction false} StillPaid(inst: Inst, inst': Inst, now: int, now': int, w: int, k: nat)
    requires Paid(inst, now, w, k) && inst'.inserted == inst.inserted && |inst'.calls| == |inst.calls|
    requires Live(inst', now') ==> Live(inst, now)
    requires Live(inst, now) ==> inst.inserted != []
    requires DoomedAll(inst'.calls, inst.inserted, Live(inst, now), w) + Count(inst'.untokened, w)
             <= DoomedAll(inst.calls, inst.inserted, Live(inst, now), w) + Count(inst.untokened, w)
    requires Busy(inst'.calls) <= k
    ensures Paid(inst', now', w, k)
  {
    if Live(inst, now) && !Live(inst', now') {
      var n := |inst.inserted|;
      DoomedRely(inst'.calls, inst.inserted, true, w);
      assert inst.inserted == inst.inserted[..n - 1] + [inst.inserted[n - 1]];
      CountAppend(inst.inserted[..n - 1], inst.inserted[n - 1], w);
    }
  }

  /** One call moves. */
  lemma CallStillPaid(inst: Inst, inst': Inst, now: int, t: nat, w: int, k: nat)
    requires Paid(inst, now, w, k) && t < |inst.calls| == |inst'.calls| && inst'.inserted == inst.inserted
    requires inst'.calls == inst.calls[t := inst'.calls[t]]
    requires Live(inst', now) ==> Live(inst, now)
    requires Live(inst, now) ==> inst.inserted != []
    requires var live := Live(inst, now);
      Count(inst'.untokened, w) + (if Doomed(inst'.calls[t], inst.inserted, live, w) then 1 else 0)
      <= Count(inst.untokened, w) + (if Doomed(inst.calls[t], inst.inserted, live, w) then 1 else 0)
    requires Busy(inst'.calls) <= k
    ensures Paid(inst', now, w, k)
  {
    DoomedUpdate(inst.calls, t, inst'.calls[t], inst.inserted, Live(inst, now), w);
    StillPaid(inst, inst', now, now, w, k);
  }

  /** Before `check` says yes and after a lease fails, a call goes by no bucket. */
  lemma FreeCallPaid(cfg: Config, s: State, inst: Inst, step: Step, w: int, k: nat)
    requires step.Spawn? || step.Claim? || step.Register? || step.Cancel? || step.Send? || step.Execute? || step.Abort?
    requires InstEnabled(cfg, s.now, inst, step) && Timely(cfg, s.now, inst) && Paid(inst, s.now, w, k)
    requires Busy(InstEffect(cfg, s, inst, step).inst.calls) <= k
    ensures Paid(InstEffect(cfg, s, inst, step).inst, s.now, w, k)
  {
    var inst' := InstEffect(cfg, s, inst, step).inst;
    FreeCallMoves(cfg, s, inst, step);
    CallStillPaid(inst, inst', s.now, step.t, w, k);
  }

  lemma {:induction false} FreeCallMoves(cfg: Config, s: State, inst: Inst, step: Step)
    requires step.Spawn? || step.Claim? || step.Register? || step.Cancel? || step.Send? || step.Execute? || step.Abort?
    requires InstEnabled(cfg, s.now, inst, step)
    ensures var inst' := InstEffect(cfg, s, inst, step).inst;
            && |inst'.calls| == |inst.calls| && inst'.calls == inst.calls[step.t := inst'.calls[step.t]]
            && inst'.bucket == inst.bucket && inst'.inserted == inst.inserted && inst'.untokened == inst.untokened
            && EpochOf(inst'.calls[step.t]).None?
  {
  }

  lemma LeavePaid(cfg: Config, s: State, inst: Inst, t: nat, w: int, k: nat)
    requires t < |inst.calls| && inst.calls[t].Leaving?
    requires Timely(cfg, s.now, inst) && Paid(inst, s.now, w, k)
    requires Busy(LeaveEffect(s, inst, t).inst.calls) <= k
    ensures Paid(LeaveEffect(s, inst, t).inst, s.now, w, k)
  {
    CallStillPaid(inst, LeaveEffect(s, inst, t).inst, s.now, t, w, k);
  }

  lemma CheckPaid(cfg: Config, s: State, inst: Inst, t: nat, stale: bool, w: int, k: nat)
    requires t < |inst.calls| && inst.calls[t].Checking? && Timely(cfg, s.now, inst) && Paid(inst, s.now, w, k)
    requires Busy(CheckEffect(s, inst, t, stale).inst.calls) <= k
    ensures Paid(CheckEffect(s, inst, t, stale).inst, s.now, w, k)
  {
    CallStillPaid(inst, CheckEffect(s, inst, t, stale).inst, s.now, t, w, k);
  }

  lemma NotifyPaid(cfg: Config, s: State, inst: Inst, t: nat, w: int, k: nat)
    requires t < |inst.calls| && inst.calls[t].Notifying? && Timely(cfg, s.now, inst) && Paid(inst, s.now, w, k)
    requires Busy(NotifyEffect(s, inst, t).inst.calls) <= k
    ensures Paid(NotifyEffect(s, inst, t).inst, s.now, w, k)
  {
    var c := inst.calls[t];
    var calls := Woken(inst.calls, c.removed);
    WokenDoomsNobody(inst.calls, c.removed, inst.inserted, Live(inst, s.now), w);
    SameCallsPaid(inst, calls, s.now, w, k);
    assert EpochOf(NotifyEffect(s, inst, t).inst.calls[t]) == EpochOf(c);
    CallStillPaid(inst.(calls := calls), NotifyEffect(s, inst, t).inst, s.now, t, w, k);
  }

  lemma WokenDoomsNobody(calls: seq<Call>, removed: Option<nat>, inserted: seq<int>, live: bool, w: int)
    ensures DoomedAll(Woken(calls, removed), inserted, live, w) == DoomedAll(calls, inserted, live, w)
    ensures forall t :: 0 <= t < |calls| && calls[t].Notifying? ==> Woken(calls, removed)[t] == calls[t]
  {
    if removed.Some? {
      WakeDoomsNobody(calls, removed.value, inserted, live, w);
    }
  }

  lemma SameCallsPaid(inst: Inst, calls: seq<Call>, now: int, w: int, k: nat)
    requires Paid(inst, now, w, k) && |calls| == |inst.calls|
    requires DoomedAll(calls, inst.inserted, Live(inst, now), w)
             == DoomedAll(inst.calls, inst.inserted, Live(inst, now), w)
    ensures Paid(inst.(calls := calls), now, w, k)
  {
  }

  lemma {:induction false} DeliverPaid(cfg: Config, s: State, inst: Inst, t: nat, received: int, born: int, w: int,
                                       k: nat)
    requires t < |inst.calls| && inst.calls[t].Replied? && Timely(cfg, s.now, inst) && Paid(inst, s.now, w, k)
    requires Busy(DeliverEffect(s, inst, t, received, born).inst.calls) <= k
    ensures Paid(DeliverEffect(s, inst, t, received, born).inst, s.now, w, k)
  {
    var inst' := DeliverEffect(s, inst, t, received, born).inst;
    if inst.calls[t].reply.leased == 0 {
      CallStillPaid(inst, inst', s.now, t, w, k);
    } else {
      forall u | 0 <= u < |inst.calls| && EpochOf(inst.calls[u]).Some?
        ensures 1 <= EpochOf(inst.calls[u]).value <= |inst.inserted|
      {
        assert TimelyCall(cfg, s.now, inst.inserted, inst.began[u], inst.calls[u]);
      }
      NewBucketPaid(inst, inst', s.now, t, inst.calls[t].reply.window, w, k);
    }
  }

  /** A new bucket retires the old one; the call that brought it counts on the new one. */
  lemma {:induction false} NewBucketPaid(inst: Inst, inst': Inst, now: int, t: nat, window: int, w: int, k: nat)
    requires Paid(inst, now, w, k) && t < |inst.calls| == |inst'.calls|
    requires inst'.calls == inst.calls[t := inst'.calls[t]]
    requires forall u :: 0 <= u < |inst.calls| && EpochOf(inst.calls[u]).Some? ==>
               1 <= EpochOf(inst.calls[u]).value <= |inst.inserted|
    requires inst'.inserted == inst.inserted + [window] && inst'.untokened == inst.untokened
    requires EpochOf(inst.calls[t]).None?
    requires inst'.calls[t].Leaving? && EpochOf(inst'.calls[t]) == Some(|inst'.inserted|)
    requires Live(inst, now) ==> inst.inserted != []
    requires Busy(inst'.calls) <= k
    ensures Paid(inst', now, w, k)
  {
    var live' := Live(inst', now);
    DoomedUpdate(inst.calls, t, inst'.calls[t], inst'.inserted, live', w);
    NewBucketDooms(inst.calls, inst.inserted, window, live', w);
    DoomedRely(inst'.calls, inst'.inserted, live', w);
    DoomedRely(inst.calls, inst.inserted, Live(inst, now), w);
    CountAppend(inst.inserted, window, w);
    assert inst'.inserted[..|inst.inserted|] == inst.inserted;
    LatestCounts(inst.inserted, w);
  }

  lemma LatestCounts(inserted: seq<int>, w: int)
    ensures inserted != [] ==>
      var n := |inserted| - 1; Count(inserted, w) == Count(inserted[..n], w) + if inserted[n] == w then 1 else 0
  {
  }

  lemma {:induction false} ConsumePaid(cfg: Config, s: State, inst: Inst, t: nat, sample: int, w: int, k: nat)
    requires t < |inst.calls| && inst.calls[t].Past? && sample <= s.now
    requires Timely(cfg, s.now, inst) && Paid(inst, s.now, w, k)
    requires Busy(ConsumeEffect(s, inst, t, sample).inst.calls) <= k
    ensures Paid(ConsumeEffect(s, inst, t, sample).inst, s.now, w, k)
  {
    var inst' := ConsumeEffect(s, inst, t, sample).inst;
    if !Spend(inst.bucket, sample).Spent? && !Spend(inst.bucket, sample).Outdated? {
      assert !Live(inst, s.now) && !Live(inst', s.now);
      CountAppend(inst.untokened, WindowOf(inst.inserted, inst.calls[t].epoch), w);
    } else {
      assert inst'.untokened == inst.untokened && (Live(inst', s.now) ==> Live(inst, s.now));
    }
    CallStillPaid(inst, inst', s.now, t, w, k);
  }

  lemma RemovePaid(cfg: Config, s: State, inst: Inst, t: nat, w: int, k: nat)
    requires t < |inst.calls| && inst.calls[t].Removing?
    requires Timely(cfg, s.now, inst) && Paid(inst, s.now, w, k)
    requires Busy(RemoveEffect(s, inst, t).inst.calls) <= k
    ensures Paid(RemoveEffect(s, inst, t).inst, s.now, w, k)
  {
    CountAppend(inst.untokened, WindowOf(inst.inserted, inst.calls[t].epoch), w);
    CallStillPaid(inst, RemoveEffect(s, inst, t).inst, s.now, t, w, k);
  }

  lemma {:induction false} BackgroundPaid(cfg: Config, s: State, inst: Inst, step: Step, w: int, k: nat)
    requires !Global(step) && !OfCall(step) && InstEnabled(cfg, s.now, inst, step)
    requires Timely(cfg, s.now, inst) && Paid(inst, s.now, w, k)
    requires Busy(InstEffect(cfg, s, inst, step).inst.calls) <= k
    ensures Paid(InstEffect(cfg, s, inst, step).inst, s.now, w, k)
  {
    if step.Crash? {
      IdlesDoomNobody(|inst.calls|, inst.inserted, Live(inst, s.now), w);
    }
    StillPaid(inst, InstEffect(cfg, s, inst, step).inst, s.now, s.now, w, k);
  }

  lemma {:induction false} EffectPaid(cfg: Config, s: State, inst: Inst, step: Step, w: int, k: nat)
    requires !Global(step) && InstEnabled(cfg, s.now, inst, step) && Timely(cfg, s.now, inst) && Paid(inst, s.now, w, k)
    requires Busy(InstEffect(cfg, s, inst, step).inst.calls) <= k
    ensures Paid(InstEffect(cfg, s, inst, step).inst, s.now, w, k)
  {
    if !OfCall(step) {
      BackgroundPaid(cfg, s, inst, step, w, k);
    } else if step.Check? {
      CheckPaid(cfg, s, inst, step.t, step.stale, w, k);
    } else if step.Notify? {
      NotifyPaid(cfg, s, inst, step.t, w, k);
    } else if step.Deliver? {
      DeliverPaid(cfg, s, inst, step.t, step.received, step.born, w, k);
    } else if step.Consume? {
      ConsumePaid(cfg, s, inst, step.t, step.sample, w, k);
    } else if step.Remove? {
      RemovePaid(cfg, s, inst, step.t, w, k);
    } else if step.Leave? {
      LeavePaid(cfg, s, inst, step.t, w, k);
    } else {
      FreeCallPaid(cfg, s, inst, step, w, k);
    }
  }

  ghost predicate AllPaid(s: State, w: int, k: nat) {
    forall i :: 0 <= i < |s.insts| ==> Paid(s.insts[i], s.now, w, k)
  }

  lemma TickPaid(cfg: Config, s: State, d: nat, w: int, k: nat)
    requires AllTimely(cfg, s) && AllPaid(s, w, k) && AtMost(s, k)
    ensures AllPaid(s.(now := s.now + d), w, k)
  {
    forall i | 0 <= i < |s.insts| ensures Paid(s.insts[i], s.now + d, w, k) {
      StillPaid(s.insts[i], s.insts[i], s.now, s.now + d, w, k);
    }
  }

  lemma {:induction false} ActorLimited(cfg: Config, s: State, step: Step, k: nat)
    requires !Global(step) && Enabled(cfg, s, step) && AtMost(Apply(cfg, s, step), k)
    ensures Busy(InstEffect(cfg, s, s.insts[step.i], step).inst.calls) <= k
  {
    assert Apply(cfg, s, step).insts[step.i] == InstEffect(cfg, s, s.insts[step.i], step).inst;
  }

  lemma {:induction false} StepPaid(cfg: Config, s: State, step: Step, w: int, k: nat)
    requires AllTimely(cfg, s) && AllPaid(s, w, k) && Enabled(cfg, s, step) && AtMost(Apply(cfg, s, step), k)
    ensures AllPaid(Apply(cfg, s, step), w, k)
  {
    if step.Tick? {
      TickPaid(cfg, s, step.d, w, k);
    } else if step.Join? {
      JoinPaid(cfg, s, w, k);
    } else if !Global(step) {
      ActorLimited(cfg, s, step, k);
      EffectPaid(cfg, s, s.insts[step.i], step, w, k);
      InstStepPaid(s, step.i, InstEffect(cfg, s, s.insts[step.i], step), w, k);
    }
  }

  lemma InstStepPaid(s: State, i: nat, e: Effect, w: int, k: nat)
    requires i < |s.insts| && AllPaid(s, w, k) && Paid(e.inst, s.now, w, k)
    ensures AllPaid(State(s.now, e.slot, s.insts[i := e.inst], s.log + e.events), w, k)
  {
  }

  lemma {:induction false} JoinPaid(cfg: Config, s: State, w: int, k: nat)
    requires AllPaid(s, w, k)
    ensures AllPaid(Apply(cfg, s, Join), w, k)
  {
    IdlesDoomNobody(cfg.slots, [], false, w);
  }

  lemma {:induction false} PaidAfter(cfg: Config, start: State, steps: seq<Step>, w: int, k: nat)
    requires cfg.policy.Valid() && Init(start) && Runs(cfg, start, steps) && Limited(cfg, start, steps, k)
    ensures AllPaid(After(cfg, start, steps), w, k)
    decreases |steps|
  {
    if steps != [] {
      InvAfter(cfg, start, steps[..|steps| - 1]);
      PaidAfter(cfg, start, steps[..|steps| - 1], w, k);
      StepPaid(cfg, After(cfg, start, steps[..|steps| - 1]), steps[|steps| - 1], w, k);
    }
  }

  lemma PaidReachable(cfg: Config, s: State, w: int, k: nat)
    requires cfg.policy.Valid() && ReachableWith(cfg, s, k)
    ensures AllPaid(s, w, k)
  {
    var start, steps :| Init(start) && Runs(cfg, start, steps) && After(cfg, start, steps) == s
                        && Limited(cfg, start, steps, k);
    PaidAfter(cfg, start, steps, w, k);
  }

  /** Of one instance and one window: at most K answers without a token for every bucket made. */
  lemma {:induction false} UntokenedPerWindow(cfg: Config, s: State, i: nat, w: int, k: nat)
    requires cfg.policy.Valid() && ReachableWith(cfg, s, k) && i < |s.insts|
    ensures Count(s.insts[i].untokened, w) <= k * Count(s.insts[i].inserted, w)
  {
    PaidReachable(cfg, s, w, k);
    var inst := s.insts[i];
    LatestCounts(inst.inserted, w);
    TimesMono(DeadBuckets(inst, s.now, w), Count(inst.inserted, w), k);
    TimesIsProduct(Count(inst.inserted, w), k);
  }

  function Without(xs: seq<int>, x: int): seq<int> {
    if xs == [] then []
    else Without(xs[..|xs| - 1], x) + if xs[|xs| - 1] == x then [] else [xs[|xs| - 1]]
  }

  lemma {:induction false} WithoutCounts(xs: seq<int>, x: int, y: int)
    ensures |xs| == Count(xs, x) + |Without(xs, x)|
    ensures Count(Without(xs, x), y) == if x == y then 0 else Count(xs, y)
  {
    if xs != [] {
      var n := |xs| - 1;
      WithoutCounts(xs[..n], x, y);
      if xs[n] == x {
        assert Without(xs, x) == Without(xs[..n], x);
      } else {
        CountAppend(Without(xs[..n], x), xs[n], y);
      }
    }
  }

  /** Bounds for every value add up. */
  lemma {:induction false} LengthsFollowCounts(xs: seq<int>, ys: seq<int>, k: nat)
    requires forall v :: Count(xs, v) <= k * Count(ys, v)
    ensures |xs| <= k * |ys|
    decreases |xs|
  {
    if xs != [] {
      var x := xs[|xs| - 1];
      var xs', ys' := Without(xs, x), Without(ys, x);
      forall v ensures Count(xs', v) <= k * Count(ys', v) {
        WithoutCounts(xs, x, v);
        WithoutCounts(ys, x, v);
        Distributes(k, 0, 0);
      }
      WithoutCounts(xs, x, x);
      WithoutCounts(ys, x, x);
      LengthsFollowCounts(xs', ys', k);
      Distributes(k, Count(ys, x), |ys'|);
    }
  }

  /** Under every interleaving of at most K concurrent calls for the id in each instance, the Ok answers of an instance
      that took no token number at most K for every bucket it ever inserted. */
  lemma {:induction false} UntokenedAdmissionsAreBounded(cfg: Config, s: State, i: nat, k: nat)
    requires cfg.policy.Valid() && ReachableWith(cfg, s, k) && i < |s.insts|
    ensures |s.insts[i].untokened| <= k * |s.insts[i].inserted|
  {
    forall w ensures Count(s.insts[i].untokened, w) <= k * Count(s.insts[i].inserted, w) {
      UntokenedPerWindow(cfg, s, i, w, k);
    }
    LengthsFollowCounts(s.insts[i].untokened, s.insts[i].inserted, k);
  }

  /** Whether a call gets a token when it is admitted is settled by the bucket it finds in its last step. */
  predicate Backed(inst: Inst, step: Step) {
    && step.Consume? && inst.bucket.Some?
    && !inst.bucket.value.IsExpired(step.sample) && inst.bucket.value.tokens > 0
  }

  predicate Admits(cfg: Config, s: State, step: Step) {
    && !Global(step) && Enabled(cfg, s, step)
    && InstEffect(cfg, s, s.insts[step.i], step).answer.Some?
    && InstEffect(cfg, s, s.insts[step.i], step).answer.value.Admitted?
  }

  /** A token is taken exactly if the bucket is there, not expired at the deadline test, and not empty; otherwise the
      answer is booked to the window of the bucket that the call had relied on. */
  lemma {:induction false} TokenBehindAdmission(cfg: Config, s: State, step: Step)
    requires Admits(cfg, s, step)
    ensures var inst, e := s.insts[step.i], InstEffect(cfg, s, s.insts[step.i], step);
            && (Backed(inst, step) <==> exists k :: 0 <= k < |e.events| && e.events[k].Took?)
            && (step.Consume? || step.Remove?)
            && e.inst.untokened == if Backed(inst, step) then inst.untokened
                                   else MoreUntokened(inst, inst.calls[step.t].epoch)
  {
    if step.Consume? {
      var e := ConsumeEffect(s, s.insts[step.i], step.t, step.sample);
      assert e.events != [] ==> (e.events[0].Took? <==> Backed(s.insts[step.i], step));
    }
  }
}
