/** The token ledger of every window, over every run. */
module Conservation {
  import opened Basics
  import opened Policies
  import opened RedisScripts
  import opened StoreRules
  import opened Protocol
  import opened Ledger

  /** What an event takes out of the quantity that `side` sums over instances (for SOwed: and the Redis counter). */
  function Flow(e: Event, side: Side, w: int): int {
    if e.window != w then 0
    else match side
      case SOwed =>
        (match e
         case Opened(_, _, quota) => 0 - quota
         case Lapsed(_, n) => n
         case Took(_, _, fair) => if fair then 1 else 0
         case Lost(_, n) => n
         case Dropped(_, n) => n
         case _ => 0)
      case SExcess =>
        (match e
         case Took(_, _, fair) => if fair then 0 else 1
         case Wasted(_, n) => n
         case Dropped(_, n) => 0 - n
         case Credited(_, n) => 0 - n
         case _ => 0)
      case SFree => if e.Unbacked? then -1 else 0
      case SMade => if e.Granted? then -1 else 0
  }

  function Net(log: seq<Event>, side: Side, w: int): int {
    if log == [] then 0 else Net(log[..|log| - 1], side, w) + Flow(log[|log| - 1], side, w)
  }

  lemma NetAppend(log: seq<Event>, e: Event, side: Side, w: int)
    ensures Net(log + [e], side, w) == Net(log, side, w) + Flow(e, side, w)
  {
    assert (log + [e])[..|log + [e]| - 1] == log;
  }

  lemma NetOfOne(e: Event, side: Side, w: int)
    ensures Net([e], side, w) == Flow(e, side, w)
  {
    assert [e][..0] == [];
  }

  lemma {:induction false} NetConcat(log: seq<Event>, more: seq<Event>, side: Side, w: int)
    ensures Net(log + more, side, w) == Net(log, side, w) + Net(more, side, w)
    decreases |more|
  {
    if more == [] {
      assert log + more == log;
    } else {
      var front := more[..|more| - 1];
      NetConcat(log, front, side, w);
      assert log + more == (log + front) + [more[|more| - 1]];
      NetAppend(log + front, more[|more| - 1], side, w);
    }
  }

  lemma {:induction false} NetTokens(log: seq<Event>, w: int)
    ensures Net(log, SOwed, w) == Total(log, AFair, w) + Total(log, ALoss, w) + Total(log, ADrop, w)
                                  + Total(log, ALapse, w) - Total(log, AIssue, w)
  {
    if log != [] { NetTokens(log[..|log| - 1], w); }
  }

  lemma {:induction false} NetPromises(log: seq<Event>, w: int)
    ensures Net(log, SExcess, w) == Total(log, AOver, w) + Total(log, AWaste, w)
                                    - Total(log, ACredit, w) - Total(log, ADrop, w)
  {
    if log != [] { NetPromises(log[..|log| - 1], w); }
  }

  lemma {:induction false} NetNumbers(log: seq<Event>, w: int)
    ensures Net(log, SFree, w) == 0 - Total(log, AFree, w)
    ensures Net(log, SMade, w) == 0 - Total(log, AGrant, w)
  {
    if log != [] { NetNumbers(log[..|log| - 1], w); }
  }

  /** The Redis counter belongs to the tokens owed. */
  function Here(slot: Slot, side: Side, w: int): int {
    if side == SOwed then Counter(slot, w) else 0
  }

  /** `events` accounts for everything that leaves or enters the slot and the instance. Not every grant makes a
      bucket. */
  ghost predicate Balanced(s: State, inst: Inst, e: Effect, side: Side, w: int) {
    var before := Here(s.slot, side, w) + Part(inst, side, w);
    var after := Here(e.slot, side, w) + Part(e.inst, side, w) + Net(e.events, side, w);
    if side == SMade then after <= before else after == before
  }

  lemma {:induction false} ComingUpdate(calls: seq<Call>, t: nat, c: Call, w: int)
    requires t < |calls|
    ensures ComingAll(calls[t := c], w) == ComingAll(calls, w) - Coming(calls[t], w) + Coming(c, w)
  {
    var n := |calls| - 1;
    if t == n {
      assert calls[t := c][..n] == calls[..n];
    } else {
      assert calls[t := c][..n] == calls[..n][t := c];
      ComingUpdate(calls[..n], t, c, w);
    }
  }

  lemma {:induction false} WakeKeepsComing(calls: seq<Call>, n: nat, w: int)
    ensures ComingAll(Wake(calls, n), w) == ComingAll(calls, w)
  {
    if calls != [] {
      var k := |calls| - 1;
      assert Wake(calls, n)[..k] == Wake(calls[..k], n);
      WakeKeepsComing(calls[..k], n, w);
    }
  }

  lemma {:induction false} NoRepliesNothingComing(calls: seq<Call>, w: int)
    requires forall t :: 0 <= t < |calls| ==> !calls[t].Replied?
    ensures ComingAll(calls, w) == 0
  {
    if calls != [] {
      NoRepliesNothingComing(calls[..|calls| - 1], w);
    }
  }

  /** The replies among the calls after one of them moved. */
  lemma CallMoved(calls: seq<Call>, t: nat, c: Call, w: int)
    requires t < |calls|
    ensures InFlightAll(calls[t := c], w) == InFlightAll(calls, w) - InFlight(calls[t], w) + InFlight(c, w)
    ensures ComingAll(calls[t := c], w) == ComingAll(calls, w) - Coming(calls[t], w) + Coming(c, w)
  {
    InFlightUpdate(calls, t, c, w);
    ComingUpdate(calls, t, c, w);
  }

  /** When only replies change hands. */
  lemma SameHoldings(inst: Inst, inst': Inst, side: Side, w: int)
    requires inst'.bucket == inst.bucket && inst'.snapped == inst.snapped && inst'.pending == inst.pending
    requires inst'.inserted == inst.inserted && inst'.untokened == inst.untokened
    ensures Part(inst', side, w) - Part(inst, side, w) ==
      match side
      case SOwed => InFlightAll(inst'.calls, w) - InFlightAll(inst.calls, w)
      case SExcess => 0
      case SFree => 0
      case SMade => ComingAll(inst'.calls, w) - ComingAll(inst.calls, w)
  {
    assert Held(inst', w) == Held(inst, w) && Spare(inst', w) == Spare(inst, w);
  }

  /** When replies, the release due and the buckets made stay as they are. */
  lemma SameReplies(inst: Inst, inst': Inst, side: Side, w: int)
    requires InFlightAll(inst'.calls, w) == InFlightAll(inst.calls, w)
    requires ComingAll(inst'.calls, w) == ComingAll(inst.calls, w)
    requires inst'.pending == inst.pending && inst'.inserted == inst.inserted
    ensures Part(inst', side, w) - Part(inst, side, w) ==
      match side
      case SOwed => Held(inst', w) - Held(inst, w)
      case SExcess => Spare(inst', w) - Spare(inst, w)
      case SFree => Count(inst'.untokened, w) - Count(inst.untokened, w)
      case SMade => 0
  {
  }

  /** A discarded bucket is lost, or wasted if a snapshot had recorded it. */
  lemma DiscardedFlow(inst: Inst, side: Side, w: int)
    ensures Net(Discarded(inst), side, w)
            == if side == SOwed then Held(inst, w) else if side == SExcess then Spare(inst, w) else 0
  {
    if inst.bucket.Some? {
      NetOfOne(Discarded(inst)[0], side, w);
    }
  }

  /** What a lease script run records about window `w`. */
  function LeaseFlow(slot: Slot, now: int, reply: Option<Reply>, quota: nat, side: Side, w: int): int
    requires WellKept(slot)
  {
    if reply.None? then 0
    else if side == SMade then (if reply.value.leased > 0 && reply.value.window == w then -1 else 0)
    else if Alive(slot, now) || side != SOwed then 0
    else Counter(slot, w) - if reply.value.window == w then quota else 0
  }

  lemma OpeningFlow(slot: Slot, now: int, reply: Option<Reply>, quota: nat, side: Side, w: int)
    requires WellKept(slot)
    ensures Net(OpeningEvents(slot, now, reply, quota), side, w)
            == if side == SMade then 0 else LeaseFlow(slot, now, reply, quota, side, w)
  {
    if reply.Some? && !Alive(slot, now) {
      var opening := Opened(now, reply.value.window, quota);
      NetOfOne(opening, side, w);
      if slot.Some? {
        NetOfTwo(Lapsed(slot.value.expiry.value, slot.value.value), opening, side, w);
      }
    }
  }

  lemma NetOfTwo(a: Event, b: Event, side: Side, w: int)
    ensures Net([a, b], side, w) == Flow(a, side, w) + Flow(b, side, w)
  {
    assert [a, b] == [a] + [b];
    NetOfOne(a, side, w);
    NetAppend([a], b, side, w);
  }

  lemma LeaseNet(slot: Slot, now: int, reply: Option<Reply>, quota: nat, side: Side, w: int)
    requires WellKept(slot)
    ensures Net(LeaseEvents(slot, now, reply, quota), side, w) == LeaseFlow(slot, now, reply, quota, side, w)
  {
    OpeningFlow(slot, now, reply, quota, side, w);
    if reply.Some? && reply.value.leased > 0 {
      NetAppend(OpeningEvents(slot, now, reply, quota), Granted(reply.value.window), side, w);
    }
  }

  /** What a reply carries. */
  function LeasedOf(reply: Option<Reply>, w: int): nat {
    if reply.Some? && reply.value.window == w then reply.value.leased else 0
  }

  /** A lease takes from the counter what it replies; an opening adds a quota and lets the old counter lapse. */
  lemma LeaseBalance(slot: Slot, now: int, p: Policy, w: int)
    requires p.Valid() && WellKept(slot) && now >= 0
    ensures var run := LeaseScript(slot, now, p);
            Counter(run.slot, w) + LeasedOf(run.reply, w) + LeaseFlow(slot, now, run.reply, p.quota, SOwed, w)
            == Counter(slot, w)
  {
    if Alive(slot, now) {
      LiveLeaseBalance(slot, now, p, w);
    } else if p.resetIn > 0 {
      OpeningBalance(slot, now, p, w);
    }
  }

  lemma LiveLeaseBalance(slot: Slot, now: int, p: Policy, w: int)
    requires p.Valid() && WellKept(slot) && Alive(slot, now)
    ensures var run := LeaseScript(slot, now, p);
            run.reply.Some? && Counter(run.slot, w) + LeasedOf(run.reply, w) == Counter(slot, w)
  {
  }

  lemma OpeningBalance(slot: Slot, now: int, p: Policy, w: int)
    requires p.Valid() && WellKept(slot) && !Alive(slot, now) && now >= 0 && p.resetIn > 0
    ensures var run := LeaseScript(slot, now, p);
            && run.reply.Some? && run.reply.value.window == now + p.WindowMs()
            && (slot.Some? ==> End(slot) < run.reply.value.window)
            && Counter(run.slot, w) + LeasedOf(run.reply, w) == if run.reply.value.window == w then p.quota else 0
  {
  }

  lemma ExecuteBalanced(cfg: Config, s: State, inst: Inst, t: nat, side: Side, w: int)
    requires cfg.policy.Valid() && SaneKey(cfg, s)
    requires t < |inst.calls| && inst.calls[t].Requested?
    ensures Balanced(s, inst, ExecuteEffect(cfg, s, inst, t), side, w)
  {
    var run := LeaseScript(s.slot, s.now, cfg.policy);
    var e := ExecuteEffect(cfg, s, inst, t);
    LeaseBalance(s.slot, s.now, cfg.policy, w);
    LeaseNet(s.slot, s.now, run.reply, cfg.policy.quota, side, w);
    CallMoved(inst.calls, t, e.inst.calls[t], w);
    SameHoldings(inst, e.inst, side, w);
    assert InFlight(e.inst.calls[t], w) == LeasedOf(run.reply, w);
  }

  lemma {:induction false} DeliverBalanced(s: State, inst: Inst, t: nat, received: int, born: int, side: Side, w: int)
    requires t < |inst.calls| && inst.calls[t].Replied?
    ensures Balanced(s, inst, DeliverEffect(s, inst, t, received, born), side, w)
  {
    var e := DeliverEffect(s, inst, t, received, born);
    CallMoved(inst.calls, t, e.inst.calls[t], w);
    if inst.calls[t].reply.leased > 0 {
      NewBucketBalance(s, inst, t, received, born, w);
      DiscardedFlow(inst, side, w);
    } else {
      KeptBucketBalance(s, inst, t, received, born, w);
    }
  }

  lemma NewBucketBalance(s: State, inst: Inst, t: nat, received: int, born: int, w: int)
    requires t < |inst.calls| && inst.calls[t].Replied? && inst.calls[t].reply.leased > 0
    ensures var e := DeliverEffect(s, inst, t, received, born);
            && e.events == Discarded(inst) && e.slot == s.slot && e.inst.pending == inst.pending
            && Held(e.inst, w) == InFlight(inst.calls[t], w) && Spare(e.inst, w) == 0
            && Count(e.inst.inserted, w) == Count(inst.inserted, w) + Coming(inst.calls[t], w)
            && e.inst.untokened == inst.untokened
  {
    CountAppend(inst.inserted, inst.calls[t].reply.window, w);
  }

  lemma KeptBucketBalance(s: State, inst: Inst, t: nat, received: int, born: int, w: int)
    requires t < |inst.calls| && inst.calls[t].Replied? && inst.calls[t].reply.leased == 0
    ensures var e := DeliverEffect(s, inst, t, received, born);
            && e.events == [] && e.slot == s.slot && e.inst.pending == inst.pending && e.inst.snapped == inst.snapped
            && Held(e.inst, w) == Held(inst, w) && Spare(e.inst, w) == Spare(inst, w)
            && e.inst.inserted == inst.inserted && e.inst.untokened == inst.untokened
  {
  }

  lemma {:induction false} AbortBalanced(s: State, inst: Inst, t: nat, side: Side, w: int)
    requires t < |inst.calls| && Leads(inst.calls[t])
    ensures Balanced(s, inst, AbortEffect(s, inst, t), side, w)
  {
    var c := inst.calls[t];
    CallMoved(inst.calls, t, Leaving(c.n, Broken), w);
    SameHoldings(inst, AbortEffect(s, inst, t).inst, side, w);
    if c.Replied? {
      NetOfOne(Lost(c.reply.window, c.reply.leased), side, w);
    }
  }

  lemma NotifyBalanced(s: State, inst: Inst, t: nat, side: Side, w: int)
    requires t < |inst.calls| && inst.calls[t].Notifying?
    ensures Balanced(s, inst, NotifyEffect(s, inst, t), side, w)
  {
    var e := NotifyEffect(s, inst, t);
    NotifyKeepsReplies(inst.calls, inst.calls[t].removed, t, e.inst.calls[t], w);
    SameHoldings(inst, e.inst, side, w);
  }

  lemma NotifyKeepsReplies(calls: seq<Call>, removed: Option<nat>, t: nat, next: Call, w: int)
    requires t < |calls| && !calls[t].Replied? && !next.Replied?
    ensures InFlightAll(Woken(calls, removed)[t := next], w) == InFlightAll(calls, w)
    ensures ComingAll(Woken(calls, removed)[t := next], w) == ComingAll(calls, w)
  {
    if removed.Some? {
      WakeKeepsInFlight(calls, removed.value, w);
      WakeKeepsComing(calls, removed.value, w);
    }
    CallMoved(Woken(calls, removed), t, next, w);
  }

  lemma {:induction false} ConsumeBalanced(s: State, inst: Inst, t: nat, sample: int, side: Side, w: int)
    requires t < |inst.calls| && inst.calls[t].Past?
    ensures Balanced(s, inst, ConsumeEffect(s, inst, t, sample), side, w)
  {
    var e := ConsumeEffect(s, inst, t, sample);
    CallMoved(inst.calls, t, e.inst.calls[t], w);
    SameReplies(inst, e.inst, side, w);
    if Spend(inst.bucket, sample).Spent? {
      TakeFlow(s, inst, t, sample, side, w);
    } else {
      NoTakeFlow(s, inst, t, sample, side, w);
    }
  }

  lemma NoTakeFlow(s: State, inst: Inst, t: nat, sample: int, side: Side, w: int)
    requires t < |inst.calls| && inst.calls[t].Past? && !Spend(inst.bucket, sample).Spent?
    ensures var e := ConsumeEffect(s, inst, t, sample);
      && e.slot == s.slot && Held(e.inst, w) == Held(inst, w) && Spare(e.inst, w) == Spare(inst, w)
      && Net(e.events, side, w)
         == if side == SFree then Count(inst.untokened, w) - Count(e.inst.untokened, w) else 0
  {
    if !Spend(inst.bucket, sample).Outdated? {
      NetOfOne(UnbackedBy(inst, t, inst.calls[t].epoch, s.now), side, w);
      CountAppend(inst.untokened, WindowOf(inst.inserted, inst.calls[t].epoch), w);
    }
  }

  lemma TakeFlow(s: State, inst: Inst, t: nat, sample: int, side: Side, w: int)
    requires t < |inst.calls| && inst.calls[t].Past? && Spend(inst.bucket, sample).Spent?
    ensures var e := ConsumeEffect(s, inst, t, sample);
      && e.slot == s.slot && e.inst.untokened == inst.untokened
      && Net(e.events, side, w) == match side
         case SOwed => Held(inst, w) - Held(e.inst, w)
         case SExcess => Spare(inst, w) - Spare(e.inst, w)
         case SFree => 0
         case SMade => 0
  {
    NetOfOne(Took(s.now, inst.bucket.value.window, !inst.snapped), side, w);
  }

  lemma ReleaseBalanced(s: State, inst: Inst, side: Side, w: int)
    requires WellKept(s.slot) && inst.pending.Some? && inst.pending.value.window >= 0
    ensures Balanced(s, inst, ReleaseEffect(s, inst), side, w)
  {
    ReleaseCreditsOneWindow(s.slot, s.now, inst.pending.value.tokens, inst.pending.value.window);
    NetOfOne(ReleaseEffect(s, inst).events[0], side, w);
  }

  lemma {:induction false} UndeliveredFlow(calls: seq<Call>, side: Side, w: int)
    ensures Net(Undelivered(calls), side, w) == if side == SOwed then InFlightAll(calls, w) else 0
  {
    if calls != [] {
      var k := |calls| - 1;
      UndeliveredFlow(calls[..k], side, w);
      if calls[k].Replied? {
        NetAppend(Undelivered(calls[..k]), Lost(calls[k].reply.window, calls[k].reply.leased), side, w);
      }
    }
  }

  /** A crash loses what the instance holds and has in flight, and nothing that a snapshot has taken charge of. */
  lemma {:induction false} CrashFlow(inst: Inst, side: Side, w: int)
    ensures Net(Discarded(inst) + Undelivered(inst.calls), side, w)
            == if side == SOwed then Held(inst, w) + InFlightAll(inst.calls, w)
               else if side == SExcess then Spare(inst, w) else 0
  {
    DiscardedFlow(inst, side, w);
    UndeliveredFlow(inst.calls, side, w);
    NetConcat(Discarded(inst), Undelivered(inst.calls), side, w);
  }

  lemma CrashBalanced(s: State, inst: Inst, side: Side, w: int)
    ensures Balanced(s, inst, CrashEffect(s, inst), side, w)
  {
    NoRepliesNothingInFlight(Idles(|inst.calls|), w);
    NoRepliesNothingComing(Idles(|inst.calls|), w);
    CrashFlow(inst, side, w);
  }

  /** Effects that only replace one call, which has no reply in hand before or after. */
  predicate Passive(s: State, inst: Inst, e: Effect, t: nat) {
    && e.slot == s.slot && e.events == []
    && e.inst.bucket == inst.bucket && e.inst.snapped == inst.snapped && e.inst.pending == inst.pending
    && e.inst.inserted == inst.inserted && e.inst.untokened == inst.untokened
    && t < |inst.calls| == |e.inst.calls|
    && e.inst.calls == inst.calls[t := e.inst.calls[t]]
    && !inst.calls[t].Replied? && !e.inst.calls[t].Replied?
  }

  lemma {:induction false} CallStepPassive(cfg: Config, s: State, inst: Inst, step: Step)
    requires step.Spawn? || step.Check? || step.Claim? || step.Register? || step.Cancel? || step.Send? || step.Leave?
    requires InstEnabled(cfg, s.now, inst, step)
    ensures Passive(s, inst, InstEffect(cfg, s, inst, step), step.t)
  {
  }

  lemma PassiveBalanced(s: State, inst: Inst, e: Effect, t: nat, side: Side, w: int)
    requires Passive(s, inst, e, t)
    ensures Balanced(s, inst, e, side, w)
  {
    CallMoved(inst.calls, t, e.inst.calls[t], w);
    SameHoldings(inst, e.inst, side, w);
  }

  lemma {:induction false} RemoveBalanced(s: State, inst: Inst, t: nat, side: Side, w: int)
    requires t < |inst.calls| && inst.calls[t].Removing?
    ensures Balanced(s, inst, RemoveEffect(s, inst, t), side, w)
  {
    CallMoved(inst.calls, t, Idle, w);
    SameReplies(inst, RemoveEffect(s, inst, t).inst, side, w);
    NetAppend(Discarded(inst), UnbackedBy(inst, t, inst.calls[t].epoch, s.now), side, w);
    DiscardedFlow(inst, side, w);
    CountAppend(inst.untokened, WindowOf(inst.inserted, inst.calls[t].epoch), w);
  }

  lemma {:induction false} SweepBalanced(cfg: Config, s: State, inst: Inst, step: Step, side: Side, w: int)
    requires step.SweepList? || step.SweepRemove?
    requires InstEnabled(cfg, s.now, inst, step)
    ensures Balanced(s, inst, InstEffect(cfg, s, inst, step), side, w)
  {
    DiscardedFlow(inst, side, w);
  }

  lemma SnapshotBalanced(s: State, inst: Inst, sample: int, seen: bool, side: Side, w: int)
    requires inst.pending.None? && !inst.snapped
    ensures Balanced(s, inst, SnapshotEffect(s, inst, sample, seen), side, w)
  {
  }

  lemma {:induction false} DropReleaseBalanced(cfg: Config, s: State, inst: Inst, step: Step, side: Side, w: int)
    requires step.DropRelease? && InstEnabled(cfg, s.now, inst, step)
    ensures Balanced(s, inst, InstEffect(cfg, s, inst, step), side, w)
  {
    NetOfOne(Dropped(inst.pending.value.window, inst.pending.value.tokens), side, w);
  }

  /** An instance takes one snapshot in its life. */
  predicate OneSnapshot(inst: Inst) {
    inst.phase == Serving ==> inst.pending.None? && !inst.snapped
  }

  lemma {:induction false} OneSnapshotKept(cfg: Config, s: State, inst: Inst, step: Step)
    requires OneSnapshot(inst) && !Global(step) && InstEnabled(cfg, s.now, inst, step)
    ensures OneSnapshot(InstEffect(cfg, s, inst, step).inst)
  {
  }

  lemma {:induction false} CallEffectBalanced(cfg: Config, s: State, inst: Inst, step: Step, side: Side, w: int)
    requires cfg.policy.Valid() && SaneKey(cfg, s)
    requires OfCall(step) && InstEnabled(cfg, s.now, inst, step)
    ensures Balanced(s, inst, InstEffect(cfg, s, inst, step), side, w)
  {
    if step.Execute? {
      ExecuteBalanced(cfg, s, inst, step.t, side, w);
    } else if step.Deliver? {
      DeliverBalanced(s, inst, step.t, step.received, step.born, side, w);
    } else if step.Abort? {
      AbortBalanced(s, inst, step.t, side, w);
    } else if step.Notify? {
      NotifyBalanced(s, inst, step.t, side, w);
    } else if step.Consume? {
      ConsumeBalanced(s, inst, step.t, step.sample, side, w);
    } else if step.Remove? {
      RemoveBalanced(s, inst, step.t, side, w);
    } else {
      CallStepPassive(cfg, s, inst, step);
      PassiveBalanced(s, inst, InstEffect(cfg, s, inst, step), step.t, side, w);
    }
  }

  lemma EffectBalanced(cfg: Config, s: State, inst: Inst, step: Step, side: Side, w: int)
    requires cfg.policy.Valid() && SaneKey(cfg, s) && Placed(cfg, s.now, s.slot, inst) && OneSnapshot(inst)
    requires !Global(step) && InstEnabled(cfg, s.now, inst, step)
    ensures Balanced(s, inst, InstEffect(cfg, s, inst, step), side, w)
  {
    if OfCall(step) {
      CallEffectBalanced(cfg, s, inst, step, side, w);
    } else if step.Release? {
      ReleaseBalanced(s, inst, side, w);
    } else if step.Crash? {
      CrashBalanced(s, inst, side, w);
    } else if step.Snapshot? {
      SnapshotBalanced(s, inst, step.sample, step.seen, side, w);
    } else if step.DropRelease? {
      DropReleaseBalanced(cfg, s, inst, step, side, w);
    } else {
      SweepBalanced(cfg, s, inst, step, side, w);
    }
  }

  /** The books are even: what entered is there or has left. */
  ghost predicate Even(s: State, side: Side, w: int) {
    var rest := Here(s.slot, side, w) + Sum(s.insts, side, w) + Net(s.log, side, w);
    if side == SMade then rest <= 0 else rest == 0
  }

  lemma StrayNet(slot: Slot, now: int, reply: Option<Reply>, quota: nat, side: Side, w: int)
    requires WellKept(slot)
    ensures Net(StrayEvents(slot, now, reply, quota), side, w)
            == LeaseFlow(slot, now, reply, quota, side, w) + if side == SOwed then LeasedOf(reply, w) else 0
  {
    LeaseNet(slot, now, reply, quota, side, w);
    if reply.Some? {
      NetAppend(LeaseEvents(slot, now, reply, quota), Lost(reply.value.window, reply.value.leased), side, w);
    }
  }

  lemma StrayKeepsEven(cfg: Config, s: State, side: Side, w: int)
    requires cfg.policy.Valid() && SaneKey(cfg, s) && Even(s, side, w)
    ensures Even(Apply(cfg, s, Stray), side, w)
  {
    LeaseBalance(s.slot, s.now, cfg.policy, w);
    var reply := LeaseScript(s.slot, s.now, cfg.policy).reply;
    StrayNet(s.slot, s.now, reply, cfg.policy.quota, side, w);
    NetConcat(s.log, StrayEvents(s.slot, s.now, reply, cfg.policy.quota), side, w);
  }

  lemma {:induction false} JoinKeepsEven(cfg: Config, s: State, side: Side, w: int)
    requires Even(s, side, w)
    ensures Even(Apply(cfg, s, Join), side, w)
  {
    assert (s.insts + [NewInst(cfg)])[..|s.insts|] == s.insts;
    NoRepliesNothingInFlight(Idles(cfg.slots), w);
    NoRepliesNothingComing(Idles(cfg.slots), w);
  }

  lemma InstStepKeepsEven(s: State, i: nat, e: Effect, side: Side, w: int)
    requires i < |s.insts| && Even(s, side, w) && Balanced(s, s.insts[i], e, side, w)
    ensures Even(State(s.now, e.slot, s.insts[i := e.inst], s.log + e.events), side, w)
  {
    SumUpdate(s.insts, i, e.inst, side, w);
    NetConcat(s.log, e.events, side, w);
  }

  lemma {:induction false} StepKeepsEven(cfg: Config, s: State, step: Step, side: Side, w: int)
    requires cfg.policy.Valid() && Sane(cfg, s) && Enabled(cfg, s, step) && Even(s, side, w)
    requires forall i :: 0 <= i < |s.insts| ==> OneSnapshot(s.insts[i])
    ensures Even(Apply(cfg, s, step), side, w)
  {
    if step.Join? {
      JoinKeepsEven(cfg, s, side, w);
    } else if step.Stray? {
      StrayKeepsEven(cfg, s, side, w);
    } else if !Global(step) {
      EffectBalanced(cfg, s, s.insts[step.i], step, side, w);
      InstStepKeepsEven(s, step.i, InstEffect(cfg, s, s.insts[step.i], step), side, w);
    }
  }

  /** What was given to the window is in Redis, in flight, held, awaiting release, taken, lost, dropped or lapsed;
      and what snapshots promised to Redis - credited, dropped or still due - is what the snapshotted buckets had:
      taken since, wasted, or still there. */
  ghost predicate LedgerHolds(s: State, w: int) {
    && Total(s.log, AIssue, w)
       == Counter(s.slot, w) + Sum(s.insts, SOwed, w) + Total(s.log, AFair, w)
          + Total(s.log, ALoss, w) + Total(s.log, ADrop, w) + Total(s.log, ALapse, w)
    && Total(s.log, AOver, w) + Total(s.log, AWaste, w) + Sum(s.insts, SExcess, w)
       == Total(s.log, ACredit, w) + Total(s.log, ADrop, w)
  }

  /** Every Ok answer without a token is recorded, and every bucket comes from a grant. */
  ghost predicate NumbersHold(s: State, w: int) {
    && Sum(s.insts, SFree, w) == Total(s.log, AFree, w)
    && Sum(s.insts, SMade, w) <= Total(s.log, AGrant, w)
  }

  lemma EvenIsLedger(s: State, w: int)
    ensures LedgerHolds(s, w) <==> Even(s, SOwed, w) && Even(s, SExcess, w)
    ensures NumbersHold(s, w) <==> Even(s, SFree, w) && Even(s, SMade, w)
  {
    NetTokens(s.log, w);
    NetPromises(s.log, w);
    NetNumbers(s.log, w);
  }

  lemma {:induction false} StepKeepsLedger(cfg: Config, s: State, step: Step, w: int)
    requires cfg.policy.Valid() && Sane(cfg, s) && Enabled(cfg, s, step) && LedgerHolds(s, w) && NumbersHold(s, w)
    requires forall i :: 0 <= i < |s.insts| ==> OneSnapshot(s.insts[i])
    ensures LedgerHolds(Apply(cfg, s, step), w) && NumbersHold(Apply(cfg, s, step), w)
  {
    EvenIsLedger(s, w);
    EvenIsLedger(Apply(cfg, s, step), w);
    forall side ensures Even(Apply(cfg, s, step), side, w) {
      StepKeepsEven(cfg, s, step, side, w);
    }
  }
}
