/** What the ledger says about every reachable state: no over-spend, bounded counters, separate windows,
    and what a graceful shutdown leaves in Redis. */
module Safety {
  import opened Basics
  import opened RedisScripts
  import opened Protocol
  import opened Ledger
  import opened Conservation
  import opened Timeline

  ghost predicate Inv(cfg: Config, s: State) {
    && Sane(cfg, s)
    && (forall i :: 0 <= i < |s.insts| ==> OneSnapshot(s.insts[i]))
    && AllTimely(cfg, s)
    && Chronicle(cfg, s)
    && (forall w :: LedgerHolds(s, w) && NumbersHold(s, w))
  }

  lemma InvInit(cfg: Config, s: State)
    requires Init(s)
    ensures Inv(cfg, s)
  {
  }

  lemma {:induction false} InvStep(cfg: Config, s: State, step: Step)
    requires cfg.policy.Valid() && Inv(cfg, s) && Enabled(cfg, s, step)
    ensures Inv(cfg, Apply(cfg, s, step))
  {
    var s' := Apply(cfg, s, step);
    StepSane(cfg, s, step);
    StepKeepsChronicle(cfg, s, step);
    StepTimely(cfg, s, step);
    forall w ensures LedgerHolds(s', w) && NumbersHold(s', w) {
      StepKeepsLedger(cfg, s, step, w);
    }
    OneSnapshotStep(cfg, s, step);
  }

  lemma {:induction false} OneSnapshotStep(cfg: Config, s: State, step: Step)
    requires Enabled(cfg, s, step) && forall i :: 0 <= i < |s.insts| ==> OneSnapshot(s.insts[i])
    ensures forall i :: 0 <= i < |Apply(cfg, s, step).insts| ==> OneSnapshot(Apply(cfg, s, step).insts[i])
  {
    if !Global(step) {
      OneSnapshotKept(cfg, s, s.insts[step.i], step);
    }
  }

  lemma {:induction false} InvAfter(cfg: Config, start: State, steps: seq<Step>)
    requires cfg.policy.Valid() && Init(start) && Runs(cfg, start, steps)
    ensures Inv(cfg, After(cfg, start, steps))
    decreases |steps|
  {
    if steps == [] {
      InvInit(cfg, start);
    } else {
      var front := steps[..|steps| - 1];
      InvAfter(cfg, start, front);
      InvStep(cfg, After(cfg, start, front), steps[|steps| - 1]);
    }
  }

  lemma {:induction false} InvReachable(cfg: Config, s: State)
    requires cfg.policy.Valid() && Reachable(cfg, s)
    ensures Inv(cfg, s)
  {
    var start, steps :| Init(start) && Runs(cfg, start, steps) && After(cfg, start, steps) == s;
    InvAfter(cfg, start, steps);
  }

  /** Tokens of window `w` taken by all instances together. */
  function Taken(log: seq<Event>, w: int): nat {
    Total(log, AFair, w) + Total(log, AOver, w)
  }

  /** Tokens of window `w` at the instances: in replies and in buckets. */
  function OnInstances(insts: seq<Inst>, w: int): nat {
    if insts == [] then 0
    else
      var last := insts[|insts| - 1];
      OnInstances(insts[..|insts| - 1], w) + InFlightAll(last.calls, w) + InBucket(last, w)
  }

  lemma {:induction false} OnInstancesIsSum(insts: seq<Inst>, w: int)
    ensures OnInstances(insts, w) == Sum(insts, SOwed, w) + Sum(insts, SExcess, w)
  {
    if insts != [] {
      OnInstancesIsSum(insts[..|insts| - 1], w);
    }
  }

  /** Tokens of window `w` that nobody has taken, wherever they are or have gone. */
  function Unspent(s: State, w: int): int {
    Counter(s.slot, w) + OnInstances(s.insts, w)
    + Total(s.log, ALoss, w) + Total(s.log, AWaste, w) + Total(s.log, ALapse, w)
  }

  /** The same, but tokens that a shutdown snapshot has recorded count as on their way to Redis, even while they are
      still in the bucket. */
  function Unclaimed(s: State, w: int): int {
    Counter(s.slot, w) + Sum(s.insts, SOwed, w)
    + Total(s.log, ALoss, w) + Total(s.log, ADrop, w) + Total(s.log, ALapse, w)
  }

  /** What shutdown snapshots recorded of window `w` and is still to be released. */
  function AwaitingAll(insts: seq<Inst>, w: int): nat {
    if insts == [] then 0 else AwaitingAll(insts[..|insts| - 1], w) + Awaiting(insts[|insts| - 1], w)
  }

  /** What is left in the buckets that snapshots recorded. */
  function SpareAll(insts: seq<Inst>, w: int): nat {
    if insts == [] then 0 else SpareAll(insts[..|insts| - 1], w) + Spare(insts[|insts| - 1], w)
  }

  lemma {:induction false} ExcessIsSpare(insts: seq<Inst>, w: int)
    ensures Sum(insts, SExcess, w) == SpareAll(insts, w) - AwaitingAll(insts, w)
  {
    if insts != [] {
      ExcessIsSpare(insts[..|insts| - 1], w);
    }
  }

  /** Tokens are conserved, in every reachable state and for every window ever opened. The quota and what was credited
      is what was taken and what is unspent; and what snapshots recorded - credited, dropped or due - is what became
      of the recorded buckets: taken afterwards, wasted, or still there. */
  lemma {:induction false} TokensAreConserved(cfg: Config, s: State, w: int)
    requires cfg.policy.Valid() && Reachable(cfg, s) && w in Windows(s.log)
    ensures cfg.policy.quota + Total(s.log, ACredit, w) == Taken(s.log, w) + Unspent(s, w)
    ensures cfg.policy.quota == Total(s.log, AFair, w) + Unclaimed(s, w)
    ensures Total(s.log, ACredit, w) + Total(s.log, ADrop, w) + AwaitingAll(s.insts, w)
            == Total(s.log, AOver, w) + Total(s.log, AWaste, w) + SpareAll(s.insts, w)
    ensures Unspent(s, w) >= 0 && Unclaimed(s, w) >= 0
  {
    InvReachable(cfg, s);
    assert LedgerHolds(s, w);
    OnInstancesIsSum(s.insts, w);
    ExcessIsSpare(s.insts, w);
    SumOwedBounds(s.insts, w);
  }

  /** No over-spend. A window's takes never exceed its quota plus what was credited back to it; and they stay within
      the quota when no bucket is spent from after its snapshot. A window never opened has no takes. */
  lemma {:induction false} NoOverSpend(cfg: Config, s: State, w: int)
    requires cfg.policy.Valid() && Reachable(cfg, s)
    ensures Total(s.log, AFair, w) <= cfg.policy.quota
    ensures Taken(s.log, w) <= cfg.policy.quota + Total(s.log, ACredit, w)
    ensures Total(s.log, AOver, w) == 0 ==> Taken(s.log, w) <= cfg.policy.quota
    ensures w !in Windows(s.log) ==> Taken(s.log, w) == 0 && Unspent(s, w) == 0
  {
    if w in Windows(s.log) {
      TokensAreConserved(cfg, s, w);
    } else {
      InvReachable(cfg, s);
      assert LedgerHolds(s, w);
      assert Total(s.log, AIssue, w) == 0;
      OnInstancesIsSum(s.insts, w);
      SumOwedBounds(s.insts, w);
      NoCreditWithoutWindow(s.log, w);
    }
  }

  lemma {:induction false} NoCreditWithoutWindow(log: seq<Event>, w: int)
    requires forall k :: 0 <= k < |log| ==> log[k].Credited? ==> log[k].window != w
    ensures Total(log, ACredit, w) == 0 && Total(log, AReturn, w) == 0
  {
    if log != [] {
      NoCreditWithoutWindow(log[..|log| - 1], w);
    }
  }

  /** The Redis key always carries an expiry and a counter between zero and the quota. */
  lemma {:induction false} CounterAndTtl(cfg: Config, s: State)
    requires cfg.policy.Valid() && Reachable(cfg, s)
    ensures s.slot.Some? ==>
      && s.slot.value.expiry.Some?
      && 0 <= s.slot.value.value <= cfg.policy.quota
      && s.slot.value.expiry.value <= s.now + cfg.policy.WindowMs()
  {
    InvReachable(cfg, s);
    if s.slot.Some? {
      assert LedgerHolds(s, End(s.slot));
      SumOwedBounds(s.insts, End(s.slot));
    }
  }

  /** What became of the stored key from `slot` to `slot'`: it kept its expiry, or it was dead and a window of full
      length took its place, later than all before it. */
  ghost predicate KeepsOrReopens(cfg: Config, s: State, slot': Slot) {
    || (slot'.Some? == s.slot.Some? && (slot'.Some? ==> slot'.value.expiry == s.slot.value.expiry))
    || (&& !Alive(s.slot, s.now)
        && slot'.Some? && slot'.value.expiry == Some(s.now + cfg.policy.WindowMs())
        && forall w :: w in Windows(s.log) ==> w + cfg.policy.WindowMs() < slot'.value.expiry.value)
  }

  lemma ExtendsKeepsOrReopens(cfg: Config, s: State, slot': Slot, events: seq<Event>)
    requires WellKept(s.slot) && Chronicle(cfg, s) && Extends(cfg, s, slot', events)
    ensures KeepsOrReopens(cfg, s, slot')
  {
    forall w | w in Windows(s.log) ensures w <= End(s.slot) {
      LastIsLargest(Windows(s.log), cfg.policy.WindowMs(), w);
    }
  }

  /** While a key lives no step moves its expiry, and no step removes it; a step that changes the expiry of what
      is stored finds the key dead and opens a window of full length, later than every window before it. */
  lemma {:induction false} ExpiryIsConstant(cfg: Config, s: State, step: Step)
    requires cfg.policy.Valid() && Reachable(cfg, s) && Enabled(cfg, s, step)
    ensures KeepsOrReopens(cfg, s, Apply(cfg, s, step).slot)
    ensures Alive(s.slot, s.now) ==>
      Apply(cfg, s, step).slot.Some? && Apply(cfg, s, step).slot.value.expiry == s.slot.value.expiry
  {
    InvReachable(cfg, s);
    if step.Stray? {
      StrayExtends(cfg, s);
      var run := LeaseScript(s.slot, s.now, cfg.policy);
      ExtendsKeepsOrReopens(cfg, s, run.slot, StrayEvents(s.slot, s.now, run.reply, cfg.policy.quota));
    } else if !Global(step) {
      var e := InstEffect(cfg, s, s.insts[step.i], step);
      EffectExtends(cfg, s, s.insts[step.i], step);
      ExtendsKeepsOrReopens(cfg, s, e.slot, e.events);
    }
  }

  /** Over every run the ids of successive windows increase by more than a window length, the stored key is the
      latest of them, and every credit ever made went to one of them. */
  lemma {:induction false} WindowsAreSeparate(cfg: Config, s: State)
    requires cfg.policy.Valid() && Reachable(cfg, s)
    ensures forall j, k :: 0 <= j < k < |Windows(s.log)| ==>
              Windows(s.log)[j] + cfg.policy.WindowMs() < Windows(s.log)[k]
    ensures s.slot.Some? <==> Windows(s.log) != []
    ensures s.slot.Some? ==> s.slot.value.expiry == Some(Windows(s.log)[|Windows(s.log)| - 1])
    ensures forall k :: 0 <= k < |s.log| && s.log[k].Credited? ==> s.log[k].window in Windows(s.log)
  {
    InvReachable(cfg, s);
  }

  /** A release adds its tokens to the key if the window they came from is still the live one, and otherwise
      changes nothing: never a later window, never a vanished key. */
  lemma {:induction false} ReleaseOnlyOwnWindow(cfg: Config, s: State, i: nat)
    requires cfg.policy.Valid() && Reachable(cfg, s) && Enabled(cfg, s, Release(i))
    ensures var d := s.insts[i].pending.value;
            var s' := Apply(cfg, s, Release(i));
            && (d.tokens > 0 ==> d.window in Windows(s.log))
            && (Alive(s.slot, s.now) && s.slot.value.expiry == Some(d.window) ==>
                  s'.slot == Some(s.slot.value.(value := s.slot.value.value + d.tokens)))
            && (!(Alive(s.slot, s.now) && s.slot.value.expiry == Some(d.window)) ==> s'.slot == s.slot)
  {
    var d := s.insts[i].pending.value;
    AwaitedWindowOpened(cfg, s, i);
    ReleaseCreditsOneWindow(s.slot, s.now, d.tokens, d.window);
  }

  /** Tokens that await release came from a window that was opened. */
  lemma {:induction false} AwaitedWindowOpened(cfg: Config, s: State, i: nat)
    requires cfg.policy.Valid() && Reachable(cfg, s) && i < |s.insts| && s.insts[i].pending.Some?
    ensures WellKept(s.slot) && s.insts[i].pending.value.window >= 0
    ensures s.insts[i].pending.value.tokens > 0 ==> s.insts[i].pending.value.window in Windows(s.log)
  {
    InvReachable(cfg, s);
    var w := s.insts[i].pending.value.window;
    assert Placed(cfg, s.now, s.slot, s.insts[i]);
    assert LedgerHolds(s, w);
    SumOwedBounds(s.insts, w);
    assert Owed(s.insts[i], w) >= s.insts[i].pending.value.tokens;
  }

  lemma {:induction false} NoLapseYet(log: seq<Event>, w: int)
    requires forall k :: 0 <= k < |log| ==> log[k].Lapsed? ==> log[k].window < w
    ensures Total(log, ALapse, w) == 0
  {
    if log != [] {
      NoLapseYet(log[..|log| - 1], w);
    }
  }

  /** The counter of the current window, exactly: what was neither taken, nor is at an instance, nor lost. */
  lemma {:induction false} CounterIsWhatRemains(cfg: Config, s: State)
    requires cfg.policy.Valid() && Reachable(cfg, s) && s.slot.Some?
    ensures Windows(s.log) != [] && KeyEnd(s.slot) == Windows(s.log)[|Windows(s.log)| - 1]
    ensures var w := KeyEnd(s.slot);
            && s.slot.value.value == cfg.policy.quota + Total(s.log, ACredit, w) - Taken(s.log, w)
                                     - OnInstances(s.insts, w) - Total(s.log, ALoss, w) - Total(s.log, AWaste, w)
            && s.slot.value.value == cfg.policy.quota - Total(s.log, AFair, w)
                                     - Sum(s.insts, SOwed, w) - Total(s.log, ALoss, w) - Total(s.log, ADrop, w)
  {
    InvReachable(cfg, s);
    var w := KeyEnd(s.slot);
    TokensAreConserved(cfg, s, w);
    NoLapseYet(s.log, w);
  }

  // Graceful shutdown

  /** The instance keeps nothing of window `w` back from Redis: no reply in hand, no release due, and its bucket, if
      it is of that window, is empty or was recorded by the snapshot. */
  ghost predicate GaveBack(inst: Inst, w: int) {
    && (forall t :: 0 <= t < |inst.calls| ==>
          inst.calls[t].Replied? && inst.calls[t].reply.window == w ==> inst.calls[t].reply.leased == 0)
    && (inst.pending.Some? && inst.pending.value.window == w ==> inst.pending.value.tokens == 0)
    && (inst.bucket.Some? && inst.bucket.value.window == w ==> inst.snapped || inst.bucket.value.tokens == 0)
  }

  lemma {:induction false} NothingInFlight(calls: seq<Call>, w: int)
    ensures InFlightAll(calls, w) == 0 <==> forall t :: 0 <= t < |calls| ==> InFlight(calls[t], w) == 0
  {
    if calls != [] {
      NothingInFlight(calls[..|calls| - 1], w);
      assert forall t :: 0 <= t < |calls| - 1 ==> calls[..|calls| - 1][t] == calls[t];
    }
  }

  lemma GaveBackOwesNothing(inst: Inst, w: int)
    ensures GaveBack(inst, w) <==> Owed(inst, w) == 0
  {
    NothingInFlight(inst.calls, w);
    if InFlightAll(inst.calls, w) == 0 {
      assert forall t :: 0 <= t < |inst.calls| ==> InFlight(inst.calls[t], w) == 0;
    }
  }

  lemma {:induction false} NothingOwed(insts: seq<Inst>, w: int)
    ensures Sum(insts, SOwed, w) == 0 <==> forall i :: 0 <= i < |insts| ==> GaveBack(insts[i], w)
    ensures Sum(insts, SOwed, w) >= 0
  {
    if insts != [] {
      NothingOwed(insts[..|insts| - 1], w);
      GaveBackOwesNothing(insts[|insts| - 1], w);
      assert forall i :: 0 <= i < |insts| - 1 ==> insts[..|insts| - 1][i] == insts[i];
    }
  }

  /** The graceful shutdown round trip. When nothing was lost or dropped and nothing spent after a snapshot, the
      counter of the current window is quota - taken if and only if every instance has given back all it had. */
  lemma {:induction false} GracefulShutdown(cfg: Config, s: State)
    requires cfg.policy.Valid() && Reachable(cfg, s) && s.slot.Some?
    requires var w := KeyEnd(s.slot);
      Total(s.log, ALoss, w) == 0 && Total(s.log, ADrop, w) == 0 && Total(s.log, AOver, w) == 0
    ensures var w := KeyEnd(s.slot);
      s.slot.value.value == cfg.policy.quota - Taken(s.log, w)
      <==> forall i :: 0 <= i < |s.insts| ==> GaveBack(s.insts[i], w)
  {
    CounterIsWhatRemains(cfg, s);
    NothingOwed(s.insts, KeyEnd(s.slot));
  }

  /** A bucket that a stopped instance keeps to itself was inserted after the snapshot's deadline test, or was past
      its deadline at that test, or is empty. */
  predicate KeptForAReason(inst: Inst) {
    inst.phase == Stopping && inst.bucket.Some? && !inst.snapped && inst.bucket.value.tokens > 0 ==>
      inst.since >= inst.stopped || inst.bucket.value.IsExpired(inst.stopped)
  }

  /** Steps that put no other bucket in the map. */
  predicate SameBucket(inst: Inst, inst': Inst) {
    && inst'.stopped == inst.stopped && (inst'.phase == Stopping ==> inst.phase == Stopping)
    && (inst'.bucket.Some? ==>
          && inst.bucket.Some? && inst'.since == inst.since && inst'.snapped == inst.snapped
          && inst'.bucket.value.tokens <= inst.bucket.value.tokens
          && inst'.bucket.value.expiresAt == inst.bucket.value.expiresAt)
  }

  lemma {:induction false} CallKeepsBucket(cfg: Config, s: State, inst: Inst, step: Step)
    requires OfCall(step) && !step.Deliver? && InstEnabled(cfg, s.now, inst, step)
    ensures SameBucket(inst, InstEffect(cfg, s, inst, step).inst)
  {
    if step.Consume? {
      assert SameBucket(inst, ConsumeEffect(s, inst, step.t, step.sample).inst);
    } else if step.Remove? {
      assert SameBucket(inst, RemoveEffect(s, inst, step.t).inst);
    } else {
      OthersKeepBucket(cfg, s, inst, step);
    }
  }

  lemma {:induction false} OthersKeepBucket(cfg: Config, s: State, inst: Inst, step: Step)
    requires OfCall(step) && !step.Deliver? && !step.Consume? && !step.Remove? && InstEnabled(cfg, s.now, inst, step)
    ensures var inst' := InstEffect(cfg, s, inst, step).inst;
            && inst'.bucket == inst.bucket && inst'.since == inst.since && inst'.snapped == inst.snapped
            && inst'.stopped == inst.stopped && inst'.phase == inst.phase
  {
    if step.Check? {
      assert CheckEffect(s, inst, step.t, step.stale).inst.bucket == inst.bucket;
    } else if step.Notify? {
      assert NotifyEffect(s, inst, step.t).inst.bucket == inst.bucket;
    } else if step.Execute? {
      assert ExecuteEffect(cfg, s, inst, step.t).inst.bucket == inst.bucket;
    }
  }

  lemma BackgroundKeepsBucket(cfg: Config, s: State, inst: Inst, step: Step)
    requires !Global(step) && !OfCall(step) && !step.Snapshot? && InstEnabled(cfg, s.now, inst, step)
    ensures SameBucket(inst, InstEffect(cfg, s, inst, step).inst)
  {
  }

  /** Also: the snapshot is in the past. */
  predicate StoppedBefore(inst: Inst, now: int) {
    inst.phase == Stopping ==> inst.stopped <= now
  }

  lemma EffectKeepsReason(cfg: Config, s: State, inst: Inst, step: Step)
    requires !Global(step) && InstEnabled(cfg, s.now, inst, step)
    requires KeptForAReason(inst) && StoppedBefore(inst, s.now)
    ensures var inst' := InstEffect(cfg, s, inst, step).inst; KeptForAReason(inst') && StoppedBefore(inst', s.now)
  {
    if OfCall(step) && !step.Deliver? {
      CallKeepsBucket(cfg, s, inst, step);
    } else if !OfCall(step) && !step.Snapshot? {
      BackgroundKeepsBucket(cfg, s, inst, step);
    } else if step.Deliver? {
      DeliverKeepsReason(s, inst, step.t, step.received, step.born);
    }
  }

  lemma DeliverKeepsReason(s: State, inst: Inst, t: nat, received: int, born: int)
    requires t < |inst.calls| && inst.calls[t].Replied?
    requires KeptForAReason(inst) && StoppedBefore(inst, s.now)
    ensures var inst' := DeliverEffect(s, inst, t, received, born).inst;
            KeptForAReason(inst') && StoppedBefore(inst', s.now)
  {
  }

  ghost predicate AllKeptForAReason(s: State) {
    forall i :: 0 <= i < |s.insts| ==> KeptForAReason(s.insts[i]) && StoppedBefore(s.insts[i], s.now)
  }

  lemma {:induction false} ReasonsAfter(cfg: Config, start: State, steps: seq<Step>)
    requires Init(start) && Runs(cfg, start, steps)
    ensures AllKeptForAReason(After(cfg, start, steps))
    decreases |steps|
  {
    if steps != [] {
      var before, step := After(cfg, start, steps[..|steps| - 1]), steps[|steps| - 1];
      ReasonsAfter(cfg, start, steps[..|steps| - 1]);
      if !Global(step) {
        EffectKeepsReason(cfg, before, before.insts[step.i], step);
      }
    }
  }

  /** What a stopped instance with no reply in hand and no release due fails to give back is the bucket in its map,
      and that was inserted after the snapshot, while the server still served, or past its deadline at the
      snapshot. */
  lemma {:induction false} WhatIsLeftBehind(cfg: Config, s: State, i: nat, w: int)
    requires Reachable(cfg, s) && i < |s.insts| && s.insts[i].phase == Stopping
    requires s.insts[i].pending.None?
    requires forall t :: 0 <= t < |s.insts[i].calls| ==> !s.insts[i].calls[t].Replied?
    ensures var inst := s.insts[i];
            !GaveBack(inst, w) <==>
              && inst.bucket.Some? && inst.bucket.value.window == w && inst.bucket.value.tokens > 0 && !inst.snapped
              && (inst.since >= inst.stopped || inst.bucket.value.IsExpired(inst.stopped))
  {
    var start, steps :| Init(start) && Runs(cfg, start, steps) && After(cfg, start, steps) == s;
    ReasonsAfter(cfg, start, steps);
    assert KeptForAReason(s.insts[i]);
  }
}
