/** For which settings the promises hold over every run: exact conditions on the configuration. */
module Exact {
  import opened Basics
  import opened Buckets
  import opened RedisScripts
  import opened Protocol
  import opened Solo
  import opened Ledger
  import opened Timeline
  import opened Safety
  import opened Admission
  import opened Grants
  import opened OneAtATime
  import opened Exhaustion
  import opened SoloRuns

  /** A run of one instance at moment zero that has taken `n` tokens of its first window and nothing else. */
  ghost predicate Spending(cfg: Config, s: State, n: nat, calls: seq<Call>) {
    && Reachable(cfg, s) && s.now == 0 && |s.insts| == 1
    && s.insts[0].calls == calls && s.insts[0].refill.None?
    && s.insts[0].phase == Serving && !s.insts[0].snapped && !s.insts[0].sweeping
    && Stocked(cfg, s.insts[0], s.slot, n)
    && Booked(cfg, s.log, n, 0)
  }

  /** The tokens left are in the bucket and in Redis. */
  predicate Stocked(cfg: Config, inst: Inst, slot: Slot, n: nat) {
    var w := cfg.policy.WindowMs();
    || (n == 0 && inst.bucket.None? && slot.None?)
    || (&& inst.bucket.Some? && slot.Some? && slot.value.expiry == Some(w) && slot.value.value >= 0
        && inst.bucket.value.window == w && inst.bucket.value.expiresAt == w && !inst.bucket.value.exhausted
        && inst.bucket.value.tokens + slot.value.value + n == cfg.policy.quota
        && inst.inserted != [] && inst.inserted[|inst.inserted| - 1] == w)
  }

  predicate Booked(cfg: Config, log: seq<Event>, n: nat, free: nat) {
    var w := cfg.policy.WindowMs();
    && Total(log, AFair, w) == n && Total(log, AFree, w) == free
    && Total(log, AOver, w) == 0 && Total(log, ACredit, w) == 0
  }

  /** Events that are of no account here. */
  predicate Unbooked(events: seq<Event>) {
    forall k :: 0 <= k < |events| ==> !events[k].Took? && !events[k].Unbacked? && !events[k].Credited?
  }

  lemma {:induction false} NothingBooked(events: seq<Event>, a: Account, w: int)
    requires a == AFair || a == AFree || a == AOver || a == ACredit
    requires Unbooked(events)
    ensures Total(events, a, w) == 0
  {
    if events != [] {
      NothingBooked(events[..|events| - 1], a, w);
    }
  }

  lemma BookedStill(cfg: Config, log: seq<Event>, events: seq<Event>, n: nat, free: nat)
    requires Booked(cfg, log, n, free)
    requires Unbooked(events)
    ensures Booked(cfg, log + events, n, free)
  {
    var w := cfg.policy.WindowMs();
    forall a | a == AFair || a == AFree || a == AOver || a == ACredit
      ensures Total(log + events, a, w) == Total(log, a, w)
    {
      TotalConcat(log, events, a, w);
      NothingBooked(events, a, w);
    }
  }

  lemma BookedOneMore(cfg: Config, log: seq<Event>, e: Event, n: nat, free: nat)
    requires Booked(cfg, log, n, free) && e.window == cfg.policy.WindowMs()
    requires (e.Took? && e.fair) || e.Unbacked?
    ensures e.Took? ==> Booked(cfg, log + [e], n + 1, free)
    ensures e.Unbacked? ==> Booked(cfg, log + [e], n, free + 1)
  {
    var w := cfg.policy.WindowMs();
    TotalAppend(log, e, AFair, w);
    TotalAppend(log, e, AFree, w);
    TotalAppend(log, e, AOver, w);
    TotalAppend(log, e, ACredit, w);
  }

  function Zero(): Clock {
    Clock(0, 0, 0, 0, 0, 0)
  }

  /** What a lease brings while tokens are left in Redis. */
  lemma Restocked(cfg: Config, s: State, inst: Inst, n: nat)
    requires cfg.policy.Valid() && cfg.policy.resetIn > 0 && n < cfg.policy.quota && s.now == 0
    requires Stocked(cfg, inst, s.slot, n) && (inst.bucket.Some? ==> inst.bucket.value.tokens == 0)
    requires 0 < |inst.calls| && inst.calls[0].Requested? && inst.calls[0].started == 0 && !inst.snapped
    ensures LeaseScript(s.slot, 0, cfg.policy).reply.Some?
    ensures var e, d := Executed(cfg, s, inst, 0, Zero()), Delivered(cfg, s, inst, 0, Zero());
            && Stocked(cfg, d.inst, e.slot, n) && d.inst.bucket.Some? && d.inst.bucket.value.tokens > 0
            && d.inst.refill == inst.refill && d.inst.phase == inst.phase && !d.inst.snapped
            && d.inst.sweeping == inst.sweeping
            && d.inst.calls == inst.calls[0 := Leaving(inst.calls[0].n, Leased(|d.inst.inserted|))]
            && Unbooked(e.events) && Unbooked(d.events)
  {
    var e, d := Executed(cfg, s, inst, 0, Zero()), Delivered(cfg, s, inst, 0, Zero());
    assert inst.calls[0 := e.inst.calls[0]][0 := d.inst.calls[0]] == inst.calls[0 := d.inst.calls[0]];
  }

  lemma {:induction false} MoreComes(cfg: Config, s: State, n: nat) returns (s': State)
    requires cfg.policy.Valid() && cfg.policy.resetIn > 0 && n < cfg.policy.quota
    requires Reachable(cfg, s) && s.now == 0 && |s.insts| == 1 && Booked(cfg, s.log, n, 0)
    requires var inst := s.insts[0];
      && Stocked(cfg, inst, s.slot, n) && (inst.bucket.Some? ==> inst.bucket.value.tokens == 0)
      && 0 < |inst.calls| && inst.calls[0].Requested? && inst.calls[0].started == 0 && !inst.snapped
    ensures Reachable(cfg, s') && s'.now == 0 && |s'.insts| == 1 && Booked(cfg, s'.log, n, 0)
    ensures var inst, inst' := s.insts[0], s'.insts[0];
            && Stocked(cfg, inst', s'.slot, n) && inst'.bucket.Some? && inst'.bucket.value.tokens > 0
            && inst'.refill == inst.refill && inst'.phase == inst.phase && !inst'.snapped
            && inst'.sweeping == inst.sweeping
            && inst'.calls == inst.calls[0 := Leaving(inst.calls[0].n, Leased(|inst'.inserted|))]
  {
    Restocked(cfg, s, s.insts[0], n);
    var e, d := Executed(cfg, s, s.insts[0], 0, Zero()), Delivered(cfg, s, s.insts[0], 0, Zero());
    s' := ExecuteAndDeliver(cfg, s, 0, 0, Zero());
    BookedStill(cfg, s.log, e.events, n, 0);
    BookedStill(cfg, s.log + e.events, d.events, n, 0);
  }

  lemma {:induction false} AskedForMore(cfg: Config, s: State, n: nat, calls: seq<Call>) returns (s': State)
    requires cfg.policy.Valid() && cfg.policy.resetIn > 0 && n < cfg.policy.quota
    requires 0 < |calls| && calls[0].Claiming?
    requires Spending(cfg, s, n, calls) && (s.insts[0].bucket.Some? ==> s.insts[0].bucket.value.tokens == 0)
    ensures Reachable(cfg, s') && s'.now == 0 && |s'.insts| == 1 && Booked(cfg, s'.log, n, 0)
    ensures var inst := s'.insts[0];
            && Stocked(cfg, inst, s'.slot, n) && inst.bucket.Some? && inst.bucket.value.tokens > 0
            && inst.refill.Some? && inst.refill.value.notify == s.insts[0].nextNotify
            && inst.phase == Serving && !inst.snapped && !inst.sweeping
            && inst.calls == calls[0 := Leaving(s.insts[0].nextNotify, Leased(|inst.inserted|))]
  {
    s' := ClaimAndSend(cfg, s, 0, 0, 0);
    var asking := s'.insts[0];
    s' := MoreComes(cfg, s', n);
    assert asking.calls[0 := s'.insts[0].calls[0]] == calls[0 := s'.insts[0].calls[0]];
  }

  /** The call that asks brings tokens. */
  lemma {:induction false} AskForMore(cfg: Config, s: State, n: nat, calls: seq<Call>) returns (s': State)
    requires cfg.policy.Valid() && cfg.policy.resetIn > 0 && n < cfg.policy.quota
    requires 0 < |calls| && calls[0].Claiming? && forall t :: 0 < t < |calls| ==> calls[t].Idle?
    requires Spending(cfg, s, n, calls) && (s.insts[0].bucket.Some? ==> s.insts[0].bucket.value.tokens == 0)
    ensures |s'.insts| == 1 && Spending(cfg, s', n, calls[0 := Past(|s'.insts[0].inserted|)])
    ensures s'.insts[0].bucket.Some? && s'.insts[0].bucket.value.tokens > 0
  {
    s' := AskedForMore(cfg, s, n, calls);
    var answer;
    s', answer := LeaveAndNotify(cfg, s', 0, 0);
    assert s'.insts[0].calls == calls[0 := Past(|s'.insts[0].inserted|)];
  }

  /** Call `t` starts while the others rest or have passed. */
  lemma {:induction false} GetPast(cfg: Config, s: State, n: nat) returns (s': State)
    requires cfg.policy.Valid() && cfg.policy.resetIn > 0 && n < cfg.policy.quota && cfg.slots > 0
    requires Spending(cfg, s, n, Idles(cfg.slots))
    ensures |s'.insts| == 1 && Spending(cfg, s', n, Idles(cfg.slots)[0 := Past(|s'.insts[0].inserted|)])
    ensures s'.insts[0].bucket.Some? && s'.insts[0].bucket.value.tokens > 0
  {
    var m := StartCall(cfg, s, 0, 0, 0);
    if s.insts[0].bucket.Some? && s.insts[0].bucket.value.tokens > 0 {
      s' := m;
    } else {
      s' := AskForMore(cfg, m, n, Idles(cfg.slots)[0 := Claiming]);
      assert Idles(cfg.slots)[0 := Claiming][0 := Past(|s'.insts[0].inserted|)]
             == Idles(cfg.slots)[0 := Past(|s'.insts[0].inserted|)];
    }
  }

  lemma {:induction false} TakeOne(cfg: Config, s: State, n: nat, calls: seq<Call>) returns (s': State)
    requires cfg.policy.Valid() && cfg.policy.resetIn > 0
    requires 0 < |calls| && calls[0].Past? && Spending(cfg, s, n, calls)
    requires s.insts[0].bucket.Some? && s.insts[0].bucket.value.tokens > 0 && s.insts[0].since <= 0
    ensures Spending(cfg, s', n + 1, calls[0 := Idle]) && s'.insts[0].inserted == s.insts[0].inserted
    ensures s'.insts[0].bucket == Some(s.insts[0].bucket.value.(tokens := s.insts[0].bucket.value.tokens - 1))
    ensures s'.insts[0].since == s.insts[0].since
  {
    var e := ConsumeEffect(s, s.insts[0], 0, 0);
    s' := Do(cfg, s, Protocol.Consume(0, 0, 0), 0, e);
    BookedOneMore(cfg, s.log, e.events[0], n, 0);
    assert e.events == [e.events[0]];
  }

  lemma {:induction false} BucketsInThePast(cfg: Config, s: State)
    requires cfg.policy.Valid() && Reachable(cfg, s)
    ensures forall i :: 0 <= i < |s.insts| && s.insts[i].bucket.Some? ==> s.insts[i].since <= s.now
  {
    InvReachable(cfg, s);
    forall i | 0 <= i < |s.insts| && s.insts[i].bucket.Some? ensures s.insts[i].since <= s.now {
      assert Placed(cfg, s.now, s.slot, s.insts[i]);
    }
  }

  lemma OneJoined(cfg: Config) returns (s: State)
    ensures Reachable(cfg, s) && s == State(0, None, [NewInst(cfg)], [])
  {
    s := State(0, None, [], []);
    assert Runs(cfg, s, []) && After(cfg, s, []) == s;
    s := Go(cfg, s, Join);
  }

  lemma {:induction false} TakeMany(cfg: Config, n: nat) returns (s: State)
    requires cfg.policy.Valid() && cfg.policy.resetIn > 0 && n <= cfg.policy.quota && cfg.slots > 0
    ensures Spending(cfg, s, n, Idles(cfg.slots))
  {
    if n == 0 {
      s := OneJoined(cfg);
    } else {
      s := TakeMany(cfg, n - 1);
      s := GetPast(cfg, s, n - 1);
      BucketsInThePast(cfg, s);
      s := TakeOne(cfg, s, n - 1, s.insts[0].calls);
      assert Idles(cfg.slots)[0 := Past(|s.insts[0].inserted|)][0 := Idle] == Idles(cfg.slots);
    }
  }

  /** With room for two calls, the last token of a window can admit two: both pass the check before either takes it. */
  lemma {:induction false} LastTokenTwice(cfg: Config) returns (s: State)
    requires cfg.policy.Valid() && cfg.policy.resetIn > 0 && cfg.slots >= 2
    ensures Reachable(cfg, s)
    ensures Admissions(s.log, cfg.policy.WindowMs())
            == cfg.policy.quota + Total(s.log, ACredit, cfg.policy.WindowMs()) + 1
  {
    var n := cfg.policy.quota - 1;
    s := TakeMany(cfg, n);
    s := GetPast(cfg, s, n);
    var first := s.insts[0].calls;
    s := SecondGetsPast(cfg, s, n, first);
    BucketsInThePast(cfg, s);
    s := TakeOne(cfg, s, n, first[1 := Past(|s.insts[0].inserted|)]);
    s := NothingLeft(cfg, s, first[1 := Past(|s.insts[0].inserted|)][0 := Idle]);
  }

  lemma {:induction false} SecondGetsPast(cfg: Config, s: State, n: nat, calls: seq<Call>) returns (s': State)
    requires cfg.policy.Valid() && cfg.policy.resetIn > 0 && |calls| >= 2 && calls[1].Idle?
    requires Spending(cfg, s, n, calls) && s.insts[0].bucket.Some? && s.insts[0].bucket.value.tokens > 0
    ensures |s'.insts| == 1 && Spending(cfg, s', n, calls[1 := Past(|s'.insts[0].inserted|)])
    ensures s'.insts[0].bucket == s.insts[0].bucket
  {
    s' := StartCall(cfg, s, 0, 1, 0);
  }

  lemma {:induction false} NothingLeft(cfg: Config, s: State, calls: seq<Call>) returns (s': State)
    requires cfg.policy.Valid() && cfg.policy.resetIn > 0
    requires |calls| >= 2 && Spending(cfg, s, cfg.policy.quota, calls) && calls[1] == Past(|s.insts[0].inserted|)
    requires s.insts[0].bucket.Some? && s.insts[0].since <= 0
    ensures Reachable(cfg, s') && Booked(cfg, s'.log, cfg.policy.quota, 1)
  {
    var e := ConsumeEffect(s, s.insts[0], 1, 0);
    s' := Do(cfg, s, Protocol.Consume(0, 1, 0), 0, e);
    BookedOneMore(cfg, s.log, e.events[0], cfg.policy.quota, 0);
    assert e.events == [e.events[0]];
  }

  /** No run admits more requests in a window, with a token or without, than its quota and what was credited back. */
  ghost predicate NeverOverAdmits(cfg: Config) {
    forall s, w :: Reachable(cfg, s) ==> Admissions(s.log, w) <= cfg.policy.quota + Total(s.log, ACredit, w)
  }

  lemma OneSlotIsOneCall(cfg: Config, s: State)
    requires cfg.policy.Valid() && cfg.slots <= 1 && Reachable(cfg, s)
    ensures ReachableWith(cfg, s, 1)
  {
    var start, steps :| Init(start) && Runs(cfg, start, steps) && After(cfg, start, steps) == s;
    SlotsLimit(cfg, start, steps);
    LimitedMore(cfg, start, steps, cfg.slots, 1);
  }

  lemma {:induction false} LimitedMore(cfg: Config, start: State, steps: seq<Step>, k: nat, more: nat)
    requires Runs(cfg, start, steps) && Limited(cfg, start, steps, k) && k <= more
    ensures Limited(cfg, start, steps, more)
    decreases |steps|
  {
    if steps != [] {
      LimitedMore(cfg, start, steps[..|steps| - 1], k, more);
    }
  }

  /** The exact condition for the promise that admitted requests never exceed the quota, over all runs: that no
      instance serves two calls for an id at once. */
  lemma {:induction false} AdmissionPromise(cfg: Config)
    requires cfg.policy.Valid() && cfg.policy.resetIn > 0
    ensures NeverOverAdmits(cfg) <==> cfg.slots <= 1
  {
    if cfg.slots <= 1 {
      forall s, w | Reachable(cfg, s) ensures Admissions(s.log, w) <= cfg.policy.quota + Total(s.log, ACredit, w) {
        OneSlotIsOneCall(cfg, s);
        AdmittedWithinQuota(cfg, s, w);
      }
    } else {
      var s := LastTokenTwice(cfg);
      assert Admissions(s.log, cfg.policy.WindowMs()) > cfg.policy.quota + Total(s.log, ACredit, cfg.policy.WindowMs());
    }
  }

  // The quota itself

  /** Without the background loop nothing is ever due to be released, and nothing credited. */
  ghost predicate NothingReturned(s: State) {
    && (forall i :: 0 <= i < |s.insts| ==> s.insts[i].pending.None?)
    && (forall k :: 0 <= k < |s.log| ==> !s.log[k].Credited?)
  }

  lemma {:induction false} EffectReturnsNothing(cfg: Config, s: State, inst: Inst, step: Step)
    requires !cfg.cleanup && SaneKey(cfg, s) && Placed(cfg, s.now, s.slot, inst) && Timely(cfg, s.now, inst)
    requires !Global(step) && InstEnabled(cfg, s.now, inst, step) && inst.pending.None?
    ensures var e := InstEffect(cfg, s, inst, step);
            e.inst.pending.None? && forall k :: 0 <= k < |e.events| ==> !e.events[k].Credited?
  {
    if !step.Execute? {
      EventsPlain(cfg, s, inst, step);
    }
    DueStays(cfg, s, inst, step);
  }

  lemma {:induction false} DueStays(cfg: Config, s: State, inst: Inst, step: Step)
    requires !Global(step) && InstEnabled(cfg, s.now, inst, step) && !step.Snapshot? && inst.pending.None?
    ensures InstEffect(cfg, s, inst, step).inst.pending.None?
  {
  }

  lemma {:induction false} StepReturnsNothing(cfg: Config, s: State, step: Step)
    requires !cfg.cleanup && Inv(cfg, s) && NothingReturned(s) && Enabled(cfg, s, step)
    ensures NothingReturned(Apply(cfg, s, step))
  {
    if !Global(step) {
      assert Placed(cfg, s.now, s.slot, s.insts[step.i]) && Timely(cfg, s.now, s.insts[step.i]);
      EffectReturnsNothing(cfg, s, s.insts[step.i], step);
      InstStepReturnsNothing(s, step.i, InstEffect(cfg, s, s.insts[step.i], step));
    } else if step.Stray? {
      StrayReturnsNothing(cfg, s);
    }
  }

  lemma InstStepReturnsNothing(s: State, i: nat, e: Effect)
    requires NothingReturned(s) && i < |s.insts| && e.inst.pending.None?
    requires forall k :: 0 <= k < |e.events| ==> !e.events[k].Credited?
    ensures NothingReturned(State(s.now, e.slot, s.insts[i := e.inst], s.log + e.events))
  {
  }

  lemma StrayReturnsNothing(cfg: Config, s: State)
    requires NothingReturned(s)
    ensures NothingReturned(Apply(cfg, s, Stray))
  {
  }

  lemma {:induction false} NothingReturnedAfter(cfg: Config, start: State, steps: seq<Step>)
    requires cfg.policy.Valid() && !cfg.cleanup && Init(start) && Runs(cfg, start, steps)
    ensures NothingReturned(After(cfg, start, steps))
    decreases |steps|
  {
    if steps != [] {
      InvAfter(cfg, start, steps[..|steps| - 1]);
      NothingReturnedAfter(cfg, start, steps[..|steps| - 1]);
      StepReturnsNothing(cfg, After(cfg, start, steps[..|steps| - 1]), steps[|steps| - 1]);
    }
  }

  lemma NoLoopNoCredit(cfg: Config, s: State, w: int)
    requires cfg.policy.Valid() && !cfg.cleanup && Reachable(cfg, s)
    ensures Total(s.log, ACredit, w) == 0
  {
    var start, steps :| Init(start) && Runs(cfg, start, steps) && After(cfg, start, steps) == s;
    NothingReturnedAfter(cfg, start, steps);
    NoCreditWithoutWindow(s.log, w);
  }

  /** The instance after its snapshot recorded the last token. */
  function Recorded(inst: Inst): Inst {
    inst.(phase := Stopping, stopped := 0, snapped := true)
  }

  /** The last token of the window is recorded by the shutdown snapshot and returned. */
  lemma {:induction false} LastReturned(cfg: Config, s: State, calls: seq<Call>) returns (s': State)
    requires cfg.policy.Valid() && cfg.policy.resetIn > 0 && cfg.cleanup
    requires Spending(cfg, s, cfg.policy.quota - 1, calls)
    requires s.insts[0].bucket.Some? && s.insts[0].bucket.value.tokens > 0 && s.insts[0].since <= 0
    ensures var w := cfg.policy.WindowMs();
            && Reachable(cfg, s')
            && s' == State(0, Some(Entry(1, Some(w))), [Recorded(s.insts[0]).(pending := None)],
                        s.log + [Credited(w, 1)])
  {
    var w := cfg.policy.WindowMs();
    var due := Recorded(s.insts[0]).(pending := Some(Due(1, w)));
    LastIsOne(cfg, s, calls);
    LastRecorded(cfg, s, s.insts[0], w);
    var m := Do(cfg, s, Snapshot(0, 0, true), 0, Effect(due, s.slot, [], None));
    LastCredited(cfg, m, due, w);
    s' := Do(cfg, m, Release(0), 0, Effect(due.(pending := None), Some(Entry(1, Some(w))), [Credited(w, 1)], None));
    assert s.insts[0 := due][0 := due.(pending := None)] == [Recorded(s.insts[0]).(pending := None)] by {
      assert s.insts == [s.insts[0]];
    }
    assert s.log + [] == s.log;
  }

  lemma {:induction false} LastRecorded(cfg: Config, s: State, inst: Inst, w: int)
    requires cfg.cleanup && s.now == 0 && w > 0 && inst.phase == Serving && !inst.sweeping && inst.since <= 0
    requires inst.bucket == Some(BucketState(1, w, w, false))
    ensures InstEnabled(cfg, 0, inst, Snapshot(0, 0, true))
    ensures InstEffect(cfg, s, inst, Snapshot(0, 0, true))
            == Effect(Recorded(inst).(pending := Some(Due(1, w))), s.slot, [], None)
  {
  }

  lemma {:induction false} LastCredited(cfg: Config, s: State, due: Inst, w: int)
    requires s.now == 0 && w > 0 && s.slot == Some(Entry(0, Some(w))) && due.pending == Some(Due(1, w))
    ensures InstEnabled(cfg, 0, due, Release(0))
    ensures InstEffect(cfg, s, due, Release(0))
            == Effect(due.(pending := None), Some(Entry(1, Some(w))), [Credited(w, 1)], None)
  {
  }

  lemma LastIsOne(cfg: Config, s: State, calls: seq<Call>)
    requires cfg.policy.Valid() && cfg.policy.resetIn > 0
    requires Spending(cfg, s, cfg.policy.quota - 1, calls)
    requires s.insts[0].bucket.Some? && s.insts[0].bucket.value.tokens > 0
    ensures var w := cfg.policy.WindowMs();
            && s.slot == Some(Entry(0, Some(w)))
            && s.insts[0].bucket == Some(BucketState(1, w, w, false))
  {
  }

  /** And taken all the same. */
  lemma ReturnedAndTaken(cfg: Config, s: State, calls: seq<Call>) returns (s': State)
    requires cfg.policy.Valid() && cfg.policy.resetIn > 0 && cfg.cleanup
    requires 0 < |calls| && calls[0].Past? && Spending(cfg, s, cfg.policy.quota - 1, calls)
    requires s.insts[0].bucket.Some? && s.insts[0].bucket.value.tokens > 0 && s.insts[0].since <= 0
    ensures Leaking(cfg, s', calls[0 := Idle])
  {
    var w := cfg.policy.WindowMs();
    LastIsOne(cfg, s, calls);
    var m := LastReturned(cfg, s, calls);
    s' := LateTake(cfg, m, w);
    LateBooked(cfg, s.log, w);
  }

  lemma LateTake(cfg: Config, s: State, w: int) returns (s': State)
    requires Reachable(cfg, s) && s.now == 0 && |s.insts| == 1 && w > 0
    requires 0 < |s.insts[0].calls| && s.insts[0].calls[0].Past? && s.insts[0].snapped && s.insts[0].since <= 0
    requires s.insts[0].bucket == Some(BucketState(1, w, w, false))
    ensures var inst := s.insts[0];
            var inst' := inst.(calls := inst.calls[0 := Idle], bucket := Some(BucketState(0, w, w, false)));
            Reachable(cfg, s') && s' == State(0, s.slot, [inst'], s.log + [Took(0, w, false)])
  {
    var e := ConsumeEffect(s, s.insts[0], 0, 0);
    s' := Do(cfg, s, Protocol.Consume(0, 0, 0), 0, e);
  }

  lemma LateBooked(cfg: Config, log: seq<Event>, w: int)
    requires w == cfg.policy.WindowMs() && cfg.policy.Valid() && Booked(cfg, log, cfg.policy.quota - 1, 0)
    ensures var log' := log + [Credited(w, 1)] + [Took(0, w, false)];
            Total(log', AFair, w) == cfg.policy.quota - 1 && Total(log', AOver, w) == 1
  {
    TotalAppend(log, Credited(w, 1), AFair, w);
    TotalAppend(log, Credited(w, 1), AOver, w);
    TotalAppend(log + [Credited(w, 1)], Took(0, w, false), AFair, w);
    TotalAppend(log + [Credited(w, 1)], Took(0, w, false), AOver, w);
  }

  /** All tokens of the window have been taken, one of them after it was promised back, and Redis has that one again. */
  ghost predicate Leaking(cfg: Config, s: State, calls: seq<Call>) {
    var w := cfg.policy.WindowMs();
    && Reachable(cfg, s) && s.now == 0 && |s.insts| == 1 && s.slot == Some(Entry(1, Some(w)))
    && s.insts[0].calls == calls && s.insts[0].refill.None? && s.insts[0].phase == Stopping
    && s.insts[0].bucket.Some? && s.insts[0].bucket.value.tokens == 0 && !s.insts[0].bucket.value.exhausted
    && Total(s.log, AFair, w) == cfg.policy.quota - 1 && Total(s.log, AOver, w) == 1
  }

  /** The one token in Redis, leased. */
  lemma LeasedOnce(cfg: Config, s: State, inst: Inst)
    requires cfg.policy.Valid() && cfg.policy.resetIn > 0 && s.now == 0
    requires s.slot == Some(Entry(1, Some(cfg.policy.WindowMs())))
    requires 0 < |inst.calls| && inst.calls[0].Requested? && inst.calls[0].started == 0
    ensures LeaseScript(s.slot, 0, cfg.policy).reply.Some?
    ensures var e, d := Executed(cfg, s, inst, 0, Zero()), Delivered(cfg, s, inst, 0, Zero());
            var w := cfg.policy.WindowMs();
            && d.inst.bucket == Some(BucketState(1, w, w, false)) && !d.inst.snapped && d.inst.since == 0
            && d.inst.refill == inst.refill
            && d.inst.calls == inst.calls[0 := Leaving(inst.calls[0].n, Leased(|d.inst.inserted|))]
            && Unbooked(e.events) && Unbooked(d.events)
  {
    var e, d := Executed(cfg, s, inst, 0, Zero()), Delivered(cfg, s, inst, 0, Zero());
    assert inst.calls[0 := e.inst.calls[0]][0 := d.inst.calls[0]] == inst.calls[0 := d.inst.calls[0]];
  }

  lemma {:induction false} LeakedLease(cfg: Config, s: State, calls: seq<Call>) returns (s': State)
    requires cfg.policy.Valid() && cfg.policy.resetIn > 0
    requires 0 < |calls| && calls[0].Idle? && (forall t :: 0 <= t < |calls| ==> !calls[t].Waiting?)
    requires Leaking(cfg, s, calls)
    ensures Reachable(cfg, s') && s'.now == 0 && |s'.insts| == 1 && 0 < |s'.insts[0].calls|
    ensures s'.insts[0].calls[0].Past? && !s'.insts[0].snapped && s'.insts[0].since == 0
    ensures s'.insts[0].bucket == Some(BucketState(1, cfg.policy.WindowMs(), cfg.policy.WindowMs(), false))
    ensures Taken(s'.log, cfg.policy.WindowMs()) == Taken(s.log, cfg.policy.WindowMs())
  {
    var m := StartCall(cfg, s, 0, 0, 0);
    m := ClaimAndSend(cfg, m, 0, 0, 0);
    s' := LeakedDelivery(cfg, m);
    var answer;
    s', answer := LeaveAndNotify(cfg, s', 0, 0);
  }

  lemma {:induction false} LeakedDelivery(cfg: Config, s: State) returns (s': State)
    requires cfg.policy.Valid() && cfg.policy.resetIn > 0
    requires Reachable(cfg, s) && s.now == 0 && |s.insts| == 1
    requires s.slot == Some(Entry(1, Some(cfg.policy.WindowMs())))
    requires Has(s, 0, 0) && s.insts[0].calls[0].Requested? && s.insts[0].calls[0].started == 0
    ensures Reachable(cfg, s') && s'.now == 0 && |s'.insts| == 1 && |s'.insts[0].calls| == |s.insts[0].calls|
    ensures var inst, inst', w := s.insts[0], s'.insts[0], cfg.policy.WindowMs();
            && inst'.bucket == Some(BucketState(1, w, w, false)) && !inst'.snapped && inst'.since == 0
            && inst'.refill == inst.refill
            && inst'.calls == inst.calls[0 := Leaving(inst.calls[0].n, Leased(|inst'.inserted|))]
            && Taken(s'.log, w) == Taken(s.log, w)
  {
    var w := cfg.policy.WindowMs();
    LeasedOnce(cfg, s, s.insts[0]);
    var e, d := Executed(cfg, s, s.insts[0], 0, Zero()), Delivered(cfg, s, s.insts[0], 0, Zero());
    s' := ExecuteAndDeliver(cfg, s, 0, 0, Zero());
    TakenStill(s.log, e.events, w);
    TakenStill(s.log + e.events, d.events, w);
  }

  lemma {:induction false} TakenStill(log: seq<Event>, events: seq<Event>, w: int)
    requires Unbooked(events)
    ensures Taken(log + events, w) == Taken(log, w)
  {
    TotalConcat(log, events, AFair, w);
    TotalConcat(log, events, AOver, w);
    NothingBooked(events, AFair, w);
    NothingBooked(events, AOver, w);
  }

  /** With the background loop, even one call at a time can take one token more than the quota. */
  lemma {:induction false} ReturnedTokenTwice(cfg: Config) returns (s: State)
    requires cfg.policy.Valid() && cfg.policy.resetIn > 0 && cfg.slots >= 1 && cfg.cleanup
    ensures Reachable(cfg, s)
    ensures Admissions(s.log, cfg.policy.WindowMs()) > cfg.policy.quota
  {
    var n := cfg.policy.quota - 1;
    s := TakeMany(cfg, n);
    s := GetPast(cfg, s, n);
    BucketsInThePast(cfg, s);
    var calls := s.insts[0].calls;
    s := ReturnedAndTaken(cfg, s, calls);
    s := LeakedLease(cfg, s, calls[0 := Idle]);
    s := LastTake(cfg, s);
  }

  lemma {:induction false} LastTake(cfg: Config, s: State) returns (s': State)
    requires Reachable(cfg, s) && s.now == 0 && |s.insts| == 1 && 0 < |s.insts[0].calls|
    requires cfg.policy.resetIn > 0 && s.insts[0].calls[0].Past? && !s.insts[0].snapped && s.insts[0].since == 0
    requires s.insts[0].bucket == Some(BucketState(1, cfg.policy.WindowMs(), cfg.policy.WindowMs(), false))
    ensures Reachable(cfg, s')
    ensures Taken(s'.log, cfg.policy.WindowMs()) == Taken(s.log, cfg.policy.WindowMs()) + 1
  {
    var w := cfg.policy.WindowMs();
    var e := ConsumeEffect(s, s.insts[0], 0, 0);
    assert e.events == [Took(0, w, true)];
    s' := Do(cfg, s, Protocol.Consume(0, 0, 0), 0, e);
    TotalAppend(s.log, Took(0, w, true), AFair, w);
    TotalAppend(s.log, Took(0, w, true), AOver, w);
  }

  /** No run admits more requests in a window, with a token or without, than its quota. */
  ghost predicate NeverOverQuota(cfg: Config) {
    forall s, w :: Reachable(cfg, s) ==> Admissions(s.log, w) <= cfg.policy.quota
  }

  /** The exact condition for the promise as it is worded, the quota itself: no instance serves two calls for an id at
      once, and none returns tokens at shutdown. */
  lemma {:induction false} QuotaPromise(cfg: Config)
    requires cfg.policy.Valid() && cfg.policy.resetIn > 0 && cfg.slots >= 1
    ensures NeverOverQuota(cfg) <==> cfg.slots == 1 && !cfg.cleanup
  {
    if cfg.slots >= 2 {
      var s := LastTokenTwice(cfg);
      assert Admissions(s.log, cfg.policy.WindowMs()) > cfg.policy.quota;
    } else if cfg.cleanup {
      var s := ReturnedTokenTwice(cfg);
    } else {
      forall s, w | Reachable(cfg, s) ensures Admissions(s.log, w) <= cfg.policy.quota {
        OneSlotIsOneCall(cfg, s);
        AdmittedWithinQuota(cfg, s, w);
        NoLoopNoCredit(cfg, s, w);
      }
    }
  }

  // Deadlines

  /** Some bucket would serve a call although its key in Redis is dead. */
  ghost predicate ServesAfterTheEnd(s: State) {
    exists i :: 0 <= i < |s.insts| && s.insts[i].bucket.Some? && !s.insts[i].bucket.value.IsExpired(s.now)
                && !Alive(s.slot, s.now)
  }

  ghost predicate NeverOutlives(cfg: Config) {
    forall s :: Reachable(cfg, s) ==> !ServesAfterTheEnd(s)
  }

  lemma LateSample(cfg: Config, s: State, inst: Inst)
    requires cfg.policy.Valid() && cfg.policy.resetIn > 0 && s.slot == None
    requires 0 < |inst.calls| && inst.calls[0].Requested? && inst.calls[0].started == 0
    ensures LeaseScript(s.slot, 0, cfg.policy).reply.Some?
    ensures var c, w := Clock(0, 0, 0, 0, 2, 2), cfg.policy.WindowMs();
            var e, d := Executed(cfg, s, inst, 0, c), Delivered(cfg, s, inst, 0, c);
            && e.slot.Some? && e.slot.value.expiry == Some(w)
            && d.inst.bucket.Some? && d.inst.bucket.value.expiresAt == w + 2
  {
  }

  /** A reply dealt with two ticks after it was received, and the last millisecond of its bucket. */
  lemma {:induction false} OutlivesItsWindow(cfg: Config) returns (s: State)
    requires cfg.policy.Valid() && cfg.policy.resetIn > 0 && cfg.slots > 0 && cfg.gap >= 2
    ensures Reachable(cfg, s) && ServesAfterTheEnd(s)
  {
    s := OneJoined(cfg);
    s := StartCall(cfg, s, 0, 0, 0);
    s := ClaimAndSend(cfg, s, 0, 0, 0);
    s := LateDelivery(cfg, s);
    s := Wait(cfg, s, cfg.policy.WindowMs() + 1);
    assert !s.insts[0].bucket.value.IsExpired(s.now);
  }

  lemma LateDelivery(cfg: Config, s: State) returns (s': State)
    requires cfg.policy.Valid() && cfg.policy.resetIn > 0 && cfg.gap >= 2
    requires Reachable(cfg, s) && s.slot == None && s.now == 0 && |s.insts| == 1
    requires Has(s, 0, 0) && s.insts[0].calls[0].Requested? && s.insts[0].calls[0].started == 0
    ensures Reachable(cfg, s') && s'.now == 2 && |s'.insts| == 1
    ensures s'.slot.Some? && s'.slot.value.expiry == Some(cfg.policy.WindowMs())
    ensures s'.insts[0].bucket.Some? && s'.insts[0].bucket.value.expiresAt == cfg.policy.WindowMs() + 2
  {
    LateSample(cfg, s, s.insts[0]);
    s' := ExecuteAndDeliver(cfg, s, 0, 0, Clock(0, 0, 0, 0, 2, 2));
  }

  /** The exact condition for the promise that a local bucket never outlives its Redis window, over all runs: that the
      two clock samples of its deadline are less than two ticks apart. Here the instances tick in milliseconds, like
      Redis; Exhaustion.TwoTicksApart says the same of a reply for clocks of any resolution. */
  lemma {:induction false} DeadlinePromise(cfg: Config)
    requires cfg.policy.Valid() && cfg.policy.resetIn > 0 && cfg.slots > 0
    ensures NeverOutlives(cfg) <==> cfg.gap < 2
  {
    if cfg.gap >= 2 {
      var s := OutlivesItsWindow(cfg);
    } else {
      forall s | Reachable(cfg, s) ensures !ServesAfterTheEnd(s) {
        forall i | 0 <= i < |s.insts| && s.insts[i].bucket.Some?
          ensures s.insts[i].bucket.value.IsExpired(s.now) || Alive(s.slot, s.now)
        {
          LocalDeadline(cfg, s, i);
        }
      }
    }
  }
}
