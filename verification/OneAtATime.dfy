/** With one call at a time for an id in each instance, every Ok answer without a token leaves an unspent token
      behind. */
module OneAtATime {
  import opened RedisScripts
  import opened StoreRules
  import opened Protocol
  import opened Ledger
  import opened Timeline
  import opened Safety
  import opened Admission
  import opened Grants

  /** A call that goes by a bucket goes by the latest; and while that is there, it is not empty. */
  predicate BackingCall(inst: Inst, c: Call) {
    EpochOf(c).Some? ==>
      && EpochOf(c).value == |inst.inserted|
      && (inst.bucket.Some? ==> inst.bucket.value.tokens > 0)
  }

  ghost predicate Backing(inst: Inst) {
    forall t :: 0 <= t < |inst.calls| ==> BackingCall(inst, inst.calls[t])
  }

  /** Calls that go by a bucket of window `w` that is gone, tokens and all. */
  function Stranded(inst: Inst, w: int): nat {
    if inst.bucket.None? then ReliantAll(inst.calls, inst.inserted, w) else 0
  }

  /** No other call is under way. */
  predicate Alone(calls: seq<Call>, t: nat) {
    t < |calls| && forall u :: 0 <= u < |calls| && u != t ==> calls[u].Idle?
  }

  lemma {:induction false} NoneBusy(calls: seq<Call>)
    requires Busy(calls) == 0
    ensures forall u :: 0 <= u < |calls| ==> calls[u].Idle?
  {
    if calls != [] {
      NoneBusy(calls[..|calls| - 1]);
    }
  }

  lemma {:induction false} BusyAlone(calls: seq<Call>, t: nat)
    requires Busy(calls) <= 1 && t < |calls| && !calls[t].Idle?
    ensures Alone(calls, t) && Busy(calls) == 1
  {
    var n := |calls| - 1;
    if t == n {
      NoneBusy(calls[..n]);
    } else {
      BusyAlone(calls[..n], t);
    }
  }

  lemma {:induction false} NobodyRelies(calls: seq<Call>, inserted: seq<int>, w: int)
    requires forall u :: 0 <= u < |calls| ==> calls[u].Idle?
    ensures ReliantAll(calls, inserted, w) == 0
  {
    if calls != [] {
      NobodyRelies(calls[..|calls| - 1], inserted, w);
    }
  }

  lemma {:induction false} AloneRelies(calls: seq<Call>, t: nat, inserted: seq<int>, w: int)
    requires Alone(calls, t)
    ensures ReliantAll(calls, inserted, w) == if Relies(calls[t], inserted, w) then 1 else 0
  {
    var n := |calls| - 1;
    if t == n {
      NobodyRelies(calls[..n], inserted, w);
    } else {
      AloneRelies(calls[..n], t, inserted, w);
    }
  }

  /** Tokens that went away with their bucket or reply pay for the answers without a token. */
  function Worth(e: Event, w: int): int {
    if e.window != w then 0
    else match e
      case Lost(_, n) => n
      case Wasted(_, n) => n
      case Unbacked(_, _, _) => -1
      case _ => 0
  }

  function WorthAll(log: seq<Event>, w: int): int {
    if log == [] then 0 else WorthAll(log[..|log| - 1], w) + Worth(log[|log| - 1], w)
  }

  lemma WorthAppend(log: seq<Event>, e: Event, w: int)
    ensures WorthAll(log + [e], w) == WorthAll(log, w) + Worth(e, w)
  {
    assert (log + [e])[..|log + [e]| - 1] == log;
  }

  lemma WorthOfOne(e: Event, w: int)
    ensures WorthAll([e], w) == Worth(e, w)
  {
    assert [e][..0] == [];
  }

  lemma {:induction false} WorthConcat(log: seq<Event>, more: seq<Event>, w: int)
    ensures WorthAll(log + more, w) == WorthAll(log, w) + WorthAll(more, w)
    decreases |more|
  {
    if more == [] {
      assert log + more == log;
    } else {
      var front := more[..|more| - 1];
      WorthConcat(log, front, w);
      assert log + more == (log + front) + [more[|more| - 1]];
      WorthAppend(log + front, more[|more| - 1], w);
    }
  }

  lemma {:induction false} WorthIsTotals(log: seq<Event>, w: int)
    ensures WorthAll(log, w) == Total(log, ALoss, w) + Total(log, AWaste, w) - Total(log, AFree, w)
  {
    if log != [] { WorthIsTotals(log[..|log| - 1], w); }
  }

  lemma {:induction false} NothingUnbacked(events: seq<Event>, w: int)
    requires forall k :: 0 <= k < |events| ==> !events[k].Unbacked?
    ensures WorthAll(events, w) >= 0
  {
    if events != [] { NothingUnbacked(events[..|events| - 1], w); }
  }

  /** A step keeps the calls backed, and strands one only at the price of a token. */
  ghost predicate PaysItsWay(inst: Inst, e: Effect, w: int) {
    Backing(inst) && Backing(e.inst) && Stranded(e.inst, w) <= Stranded(inst, w) + WorthAll(e.events, w)
  }

  /** The only call moves. */
  lemma AlonePays(inst: Inst, e: Effect, t: nat, w: int)
    requires Backing(inst) && Alone(inst.calls, t) && |e.inst.calls| == |inst.calls|
    requires e.inst.calls == inst.calls[t := e.inst.calls[t]] && BackingCall(e.inst, e.inst.calls[t])
    requires var before := inst.bucket.None? && Relies(inst.calls[t], inst.inserted, w);
      var after := e.inst.bucket.None? && Relies(e.inst.calls[t], e.inst.inserted, w);
      (if after then 1 else 0) <= (if before then 1 else 0) + WorthAll(e.events, w)
    ensures PaysItsWay(inst, e, w)
  {
    AloneRelies(inst.calls, t, inst.inserted, w);
    AloneRelies(e.inst.calls, t, e.inst.inserted, w);
    forall u | 0 <= u < |inst.calls| ensures BackingCall(e.inst, e.inst.calls[u]) {
      assert u != t ==> e.inst.calls[u].Idle?;
    }
  }

  lemma {:induction false} ConsumePays(s: State, inst: Inst, t: nat, sample: int, w: int)
    requires Backing(inst) && Alone(inst.calls, t) && inst.calls[t].Past?
    ensures PaysItsWay(inst, ConsumeEffect(s, inst, t, sample), w)
  {
    assert BackingCall(inst, inst.calls[t]);
    if Spend(inst.bucket, sample).Spent? {
      WorthOfOne(Took(s.now, inst.bucket.value.window, !inst.snapped), w);
    } else if !Spend(inst.bucket, sample).Outdated? {
      WorthOfOne(UnbackedBy(inst, t, inst.calls[t].epoch, s.now), w);
    }
    AlonePays(inst, ConsumeEffect(s, inst, t, sample), t, w);
  }

  lemma RemovePays(cfg: Config, s: State, inst: Inst, t: nat, w: int)
    requires Backing(inst) && Alone(inst.calls, t) && Timely(cfg, s.now, inst) && inst.calls[t].Removing?
    ensures PaysItsWay(inst, RemoveEffect(s, inst, t), w)
  {
    assert BackingCall(inst, inst.calls[t]);
    assert TimelyCall(cfg, s.now, inst.inserted, inst.began[t], inst.calls[t]);
    WorthAppend(Discarded(inst), UnbackedBy(inst, t, inst.calls[t].epoch, s.now), w);
    DiscardWorth(inst, w);
    AlonePays(inst, RemoveEffect(s, inst, t), t, w);
  }

  lemma DiscardWorth(inst: Inst, w: int)
    ensures WorthAll(Discarded(inst), w) == InBucket(inst, w)
  {
    if inst.bucket.Some? {
      WorthOfOne(Discarded(inst)[0], w);
    }
  }

  lemma NotifyPays(s: State, inst: Inst, t: nat, w: int)
    requires Backing(inst) && Alone(inst.calls, t) && inst.calls[t].Notifying?
    ensures PaysItsWay(inst, NotifyEffect(s, inst, t), w)
  {
    var e := NotifyEffect(s, inst, t);
    assert BackingCall(inst, inst.calls[t]);
    assert EpochOf(e.inst.calls[t]) == EpochOf(inst.calls[t]);
    assert e.inst.calls == inst.calls[t := e.inst.calls[t]];
    AlonePays(inst, e, t, w);
  }

  lemma {:induction false} DeliverPays(s: State, inst: Inst, t: nat, received: int, born: int, w: int)
    requires Backing(inst) && Alone(inst.calls, t) && inst.calls[t].Replied?
    ensures PaysItsWay(inst, DeliverEffect(s, inst, t, received, born), w)
  {
    var e := DeliverEffect(s, inst, t, received, born);
    NothingUnbacked(e.events, w);
    AlonePays(inst, e, t, w);
  }

  lemma CheckPays(s: State, inst: Inst, t: nat, stale: bool, w: int)
    requires Backing(inst) && Alone(inst.calls, t) && inst.calls[t].Checking?
    ensures PaysItsWay(inst, CheckEffect(s, inst, t, stale), w)
  {
    AlonePays(inst, CheckEffect(s, inst, t, stale), t, w);
  }

  lemma LeavePays(s: State, inst: Inst, t: nat, w: int)
    requires Backing(inst) && Alone(inst.calls, t) && inst.calls[t].Leaving?
    ensures PaysItsWay(inst, LeaveEffect(s, inst, t), w)
  {
    assert BackingCall(inst, inst.calls[t]);
    AlonePays(inst, LeaveEffect(s, inst, t), t, w);
  }

  lemma {:induction false} FreeCallPays(cfg: Config, s: State, inst: Inst, step: Step, w: int)
    requires step.Spawn? || step.Claim? || step.Register? || step.Cancel? || step.Send? || step.Execute? || step.Abort?
    requires InstEnabled(cfg, s.now, inst, step) && Backing(inst) && Alone(inst.calls, step.t)
    ensures PaysItsWay(inst, InstEffect(cfg, s, inst, step), w)
  {
    FreeCallMoves(cfg, s, inst, step);
    NothingUnbacked(InstEffect(cfg, s, inst, step).events, w);
    AlonePays(inst, InstEffect(cfg, s, inst, step), step.t, w);
  }

  /** The call that acts is the only one. */
  lemma {:induction false} ActorAlone(cfg: Config, s: State, inst: Inst, step: Step)
    requires OfCall(step) && InstEnabled(cfg, s.now, inst, step)
    requires Busy(inst.calls) <= 1 && Busy(InstEffect(cfg, s, inst, step).inst.calls) <= 1
    ensures Alone(inst.calls, step.t)
  {
    if step.Spawn? {
      var calls := inst.calls[step.t := Checking];
      assert InstEffect(cfg, s, inst, step).inst.calls == calls;
      BusyAlone(calls, step.t);
      assert forall u :: 0 <= u < |calls| && u != step.t ==> inst.calls[u] == calls[u];
    } else {
      BusyAlone(inst.calls, step.t);
    }
  }

  lemma {:induction false} SomeoneRelies(calls: seq<Call>, inserted: seq<int>, w: int) returns (t: nat)
    requires ReliantAll(calls, inserted, w) > 0
    ensures t < |calls| && Relies(calls[t], inserted, w)
  {
    var n := |calls| - 1;
    if Relies(calls[n], inserted, w) {
      t := n;
    } else {
      t := SomeoneRelies(calls[..n], inserted, w);
    }
  }

  /** Sweeping away the bucket that a call goes by loses its tokens. */
  lemma {:induction false} SweepPays(cfg: Config, s: State, inst: Inst, step: Step, w: int)
    requires step.SweepRemove? && InstEnabled(cfg, s.now, inst, step)
    requires Backing(inst) && Timely(cfg, s.now, inst) && Busy(inst.calls) <= 1
    ensures PaysItsWay(inst, InstEffect(cfg, s, inst, step), w)
  {
    DiscardWorth(inst, w);
    DoomedRely(inst.calls, inst.inserted, false, w);
    forall t | 0 <= t < |inst.calls| ensures BackingCall(InstEffect(cfg, s, inst, step).inst, inst.calls[t]) {
      assert BackingCall(inst, inst.calls[t]);
    }
    if inst.bucket.Some? && ReliantAll(inst.calls, inst.inserted, w) > 0 {
      var t := SomeoneRelies(inst.calls, inst.inserted, w);
      assert BackingCall(inst, inst.calls[t]) && inst.bucket.value.window == w;
    }
  }

  lemma {:induction false} CrashWorth(s: State, inst: Inst, w: int)
    ensures WorthAll(CrashEffect(s, inst).events, w) >= 0
  {
    UndeliveredPlain(inst.calls);
    NothingUnbacked(Discarded(inst), w);
    NothingUnbacked(Undelivered(inst.calls), w);
    WorthConcat(Discarded(inst), Undelivered(inst.calls), w);
  }

  lemma {:induction false} CrashPays(s: State, inst: Inst, w: int)
    requires Backing(inst)
    ensures PaysItsWay(inst, CrashEffect(s, inst), w)
  {
    CrashWorth(s, inst, w);
    NobodyRelies(Idles(|inst.calls|), inst.inserted, w);
  }

  lemma {:induction false} BackgroundPays(cfg: Config, s: State, inst: Inst, step: Step, w: int)
    requires !Global(step) && !OfCall(step) && InstEnabled(cfg, s.now, inst, step)
    requires !step.Crash? && !step.SweepRemove? && Backing(inst)
    ensures PaysItsWay(inst, InstEffect(cfg, s, inst, step), w)
  {
    NothingUnbacked(InstEffect(cfg, s, inst, step).events, w);
    forall t | 0 <= t < |inst.calls| ensures BackingCall(InstEffect(cfg, s, inst, step).inst, inst.calls[t]) {
      assert BackingCall(inst, inst.calls[t]);
    }
  }

  lemma EffectPays(cfg: Config, s: State, inst: Inst, step: Step, w: int)
    requires !Global(step) && InstEnabled(cfg, s.now, inst, step) && Backing(inst) && Timely(cfg, s.now, inst)
    requires Busy(inst.calls) <= 1 && Busy(InstEffect(cfg, s, inst, step).inst.calls) <= 1
    ensures PaysItsWay(inst, InstEffect(cfg, s, inst, step), w)
  {
    if step.Crash? {
      CrashPays(s, inst, w);
    } else if step.SweepRemove? {
      SweepPays(cfg, s, inst, step, w);
    } else if !OfCall(step) {
      BackgroundPays(cfg, s, inst, step, w);
    } else {
      ActorAlone(cfg, s, inst, step);
      CallPays(cfg, s, inst, step, w);
    }
  }

  lemma {:induction false} CallPays(cfg: Config, s: State, inst: Inst, step: Step, w: int)
    requires OfCall(step) && InstEnabled(cfg, s.now, inst, step) && Backing(inst) && Timely(cfg, s.now, inst)
    requires Alone(inst.calls, step.t)
    ensures PaysItsWay(inst, InstEffect(cfg, s, inst, step), w)
  {
    if step.Consume? {
      ConsumePays(s, inst, step.t, step.sample, w);
    } else if step.Remove? {
      RemovePays(cfg, s, inst, step.t, w);
    } else if step.Notify? {
      NotifyPays(s, inst, step.t, w);
    } else if step.Deliver? {
      DeliverPays(s, inst, step.t, step.received, step.born, w);
    } else if step.Check? {
      CheckPays(s, inst, step.t, step.stale, w);
    } else if step.Leave? {
      LeavePays(s, inst, step.t, w);
    } else {
      FreeCallPays(cfg, s, inst, step, w);
    }
  }

  ghost predicate AllBacking(insts: seq<Inst>) {
    forall i :: 0 <= i < |insts| ==> Backing(insts[i])
  }

  function StrandedAll(insts: seq<Inst>, w: int): nat {
    if insts == [] then 0 else StrandedAll(insts[..|insts| - 1], w) + Stranded(insts[|insts| - 1], w)
  }

  lemma {:induction false} StrandedUpdate(insts: seq<Inst>, i: nat, x: Inst, w: int)
    requires i < |insts|
    ensures StrandedAll(insts[i := x], w) == StrandedAll(insts, w) - Stranded(insts[i], w) + Stranded(x, w)
  {
    var n := |insts| - 1;
    if i == n {
      assert insts[i := x][..n] == insts[..n];
    } else {
      assert insts[i := x][..n] == insts[..n][i := x];
      StrandedUpdate(insts[..n], i, x, w);
    }
  }

  ghost predicate PaidUp(s: State, w: int) {
    AllBacking(s.insts) && StrandedAll(s.insts, w) <= WorthAll(s.log, w)
  }

  lemma {:induction false} StepPaysUp(cfg: Config, s: State, step: Step, w: int)
    requires Inv(cfg, s) && PaidUp(s, w) && Enabled(cfg, s, step)
    requires AtMost(s, 1) && AtMost(Apply(cfg, s, step), 1)
    ensures PaidUp(Apply(cfg, s, step), w)
  {
    if step.Join? {
      JoinPaysUp(cfg, s, w);
    } else if step.Stray? {
      StrayPaysUp(cfg, s, w);
    } else if !Global(step) {
      ActorLimited(cfg, s, step, 1);
      EffectPays(cfg, s, s.insts[step.i], step, w);
      InstStepPaysUp(s, step.i, InstEffect(cfg, s, s.insts[step.i], step), w);
    }
  }

  lemma StrandedAppend(insts: seq<Inst>, x: Inst, w: int)
    requires AllBacking(insts) && Backing(x)
    ensures AllBacking(insts + [x]) && StrandedAll(insts + [x], w) == StrandedAll(insts, w) + Stranded(x, w)
  {
    assert (insts + [x])[..|insts|] == insts;
  }

  lemma JoinPaysUp(cfg: Config, s: State, w: int)
    requires PaidUp(s, w)
    ensures PaidUp(Apply(cfg, s, Join), w)
  {
    NobodyRelies(NewInst(cfg).calls, [], w);
    StrandedAppend(s.insts, NewInst(cfg), w);
  }

  lemma {:induction false} StrayPaysUp(cfg: Config, s: State, w: int)
    requires PaidUp(s, w)
    ensures PaidUp(Apply(cfg, s, Stray), w)
  {
    var reply := LeaseScript(s.slot, s.now, cfg.policy).reply;
    StrayPays(s.log, StrayEvents(s.slot, s.now, reply, cfg.policy.quota), w);
  }

  lemma StrayPays(log: seq<Event>, events: seq<Event>, w: int)
    requires forall k :: 0 <= k < |events| ==> !events[k].Unbacked?
    ensures WorthAll(log + events, w) >= WorthAll(log, w)
  {
    NothingUnbacked(events, w);
    WorthConcat(log, events, w);
  }

  lemma InstStepPaysUp(s: State, i: nat, e: Effect, w: int)
    requires PaidUp(s, w) && i < |s.insts| && PaysItsWay(s.insts[i], e, w)
    ensures PaidUp(State(s.now, e.slot, s.insts[i := e.inst], s.log + e.events), w)
  {
    StrandedUpdate(s.insts, i, e.inst, w);
    WorthConcat(s.log, e.events, w);
  }

  lemma {:induction false} PaidUpAfter(cfg: Config, start: State, steps: seq<Step>, w: int)
    requires cfg.policy.Valid() && Init(start) && Runs(cfg, start, steps) && Limited(cfg, start, steps, 1)
    ensures PaidUp(After(cfg, start, steps), w)
    decreases |steps|
  {
    if steps != [] {
      var front := steps[..|steps| - 1];
      InvAfter(cfg, start, front);
      PaidUpAfter(cfg, start, front, w);
      assert Limited(cfg, start, front, 1);
      StepPaysUp(cfg, After(cfg, start, front), steps[|steps| - 1], w);
    }
  }

  /** Over every run in which no instance has two calls for the id under way at once, out of however many slots,
      admissions - with a token or without - never exceed the quota plus what was credited back. */
  lemma {:induction false} AdmittedWithinQuota(cfg: Config, s: State, w: int)
    requires cfg.policy.Valid() && ReachableWith(cfg, s, 1)
    ensures Admissions(s.log, w) <= cfg.policy.quota + Total(s.log, ACredit, w)
  {
    var start, steps :| Init(start) && Runs(cfg, start, steps) && After(cfg, start, steps) == s
                        && Limited(cfg, start, steps, 1);
    PaidUpAfter(cfg, start, steps, w);
    WorthIsTotals(s.log, w);
    LossesAreUnspent(cfg, s, w);
  }

  lemma LossesAreUnspent(cfg: Config, s: State, w: int)
    requires cfg.policy.Valid() && Reachable(cfg, s)
    ensures Taken(s.log, w) + Total(s.log, ALoss, w) + Total(s.log, AWaste, w)
            <= cfg.policy.quota + Total(s.log, ACredit, w)
  {
    InvReachable(cfg, s);
    LedgerNow(cfg, s, w);
    WhatIsLeft(s, w);
    assert Counter(s.slot, w) >= 0;
  }
}
