/** Where the tokens of each window are: a conservation law kept by every step, and what follows from it. */
module Ledger {
  import opened Basics
  import opened Buckets
  import opened RedisScripts
  import opened Protocol

  // Tokens of window `w` in the hands of one instance

  function InFlight(c: Call, w: int): nat {
    if c.Replied? && c.reply.window == w then c.reply.leased else 0
  }

  function InFlightAll(calls: seq<Call>, w: int): nat {
    if calls == [] then 0
    else InFlightAll(calls[..|calls| - 1], w) + InFlight(calls[|calls| - 1], w)
  }

  function InBucket(inst: Inst, w: int): nat {
    if inst.bucket.Some? && inst.bucket.value.window == w then inst.bucket.value.tokens else 0
  }

  /** Tokens in a bucket that no shutdown snapshot has recorded. */
  function Held(inst: Inst, w: int): nat {
    if inst.snapped then 0 else InBucket(inst, w)
  }

  /** Tokens left in the bucket that the shutdown snapshot recorded. */
  function Spare(inst: Inst, w: int): nat {
    if inst.snapped then InBucket(inst, w) else 0
  }

  function Awaiting(inst: Inst, w: int): nat {
    if inst.pending.Some? && inst.pending.value.window == w then inst.pending.value.tokens else 0
  }

  function Owed(inst: Inst, w: int): nat {
    InFlightAll(inst.calls, w) + Held(inst, w) + Awaiting(inst, w)
  }

  /** Replies in hand that will make a bucket. */
  function Coming(c: Call, w: int): nat {
    if c.Replied? && c.reply.window == w && c.reply.leased > 0 then 1 else 0
  }

  function ComingAll(calls: seq<Call>, w: int): nat {
    if calls == [] then 0
    else ComingAll(calls[..|calls| - 1], w) + Coming(calls[|calls| - 1], w)
  }

  /** Quantities summed over instances: what they owe; what a snapshotted bucket still offers beyond the release
      that is to return it; their Ok answers without a token; and the buckets they made or have a reply for. */
  datatype Side = SOwed | SExcess | SFree | SMade

  function Part(inst: Inst, side: Side, w: int): int {
    match side
    case SOwed => Owed(inst, w)
    case SExcess => Spare(inst, w) - Awaiting(inst, w)
    case SFree => Count(inst.untokened, w)
    case SMade => Count(inst.inserted, w) + ComingAll(inst.calls, w)
  }

  function Sum(insts: seq<Inst>, side: Side, w: int): int {
    if insts == [] then 0
    else Sum(insts[..|insts| - 1], side, w) + Part(insts[|insts| - 1], side, w)
  }

  lemma {:induction false} SumUpdate(insts: seq<Inst>, i: nat, x: Inst, side: Side, w: int)
    requires i < |insts|
    ensures Sum(insts[i := x], side, w) == Sum(insts, side, w) - Part(insts[i], side, w) + Part(x, side, w)
  {
    var n := |insts| - 1;
    if i == n {
      assert insts[i := x][..n] == insts[..n];
    } else {
      assert insts[i := x][..n] == insts[..n][i := x];
      SumUpdate(insts[..n], i, x, side, w);
    }
  }

  lemma {:induction false} SumOwedBounds(insts: seq<Inst>, w: int)
    ensures Sum(insts, SOwed, w) >= 0
    ensures forall i :: 0 <= i < |insts| ==> Owed(insts[i], w) <= Sum(insts, SOwed, w)
  {
    if insts != [] {
      SumOwedBounds(insts[..|insts| - 1], w);
    }
  }

  lemma {:induction false} InFlightUpdate(calls: seq<Call>, t: nat, c: Call, w: int)
    requires t < |calls|
    ensures InFlightAll(calls[t := c], w) == InFlightAll(calls, w) - InFlight(calls[t], w) + InFlight(c, w)
  {
    var n := |calls| - 1;
    if t == n {
      assert calls[t := c][..n] == calls[..n];
    } else {
      assert calls[t := c][..n] == calls[..n][t := c];
      InFlightUpdate(calls[..n], t, c, w);
    }
  }

  lemma {:induction false} NoRepliesNothingInFlight(calls: seq<Call>, w: int)
    requires forall t :: 0 <= t < |calls| ==> !calls[t].Replied?
    ensures InFlightAll(calls, w) == 0
  {
    if calls != [] {
      NoRepliesNothingInFlight(calls[..|calls| - 1], w);
    }
  }

  lemma {:induction false} WakeKeepsInFlight(calls: seq<Call>, n: nat, w: int)
    ensures InFlightAll(Wake(calls, n), w) == InFlightAll(calls, w)
  {
    if calls != [] {
      var k := |calls| - 1;
      assert Wake(calls, n)[..k] == Wake(calls[..k], n);
      WakeKeepsInFlight(calls[..k], n, w);
    }
  }

  // Facts about single instances that hold at all times

  ghost predicate Placed(cfg: Config, now: int, slot: Slot, inst: Inst)
    requires WellKept(slot)
  {
    && |inst.calls| == cfg.slots
    && (inst.bucket.Some? ==> BucketPlaced(cfg, now, slot, inst.bucket.value, inst.since))
    && (inst.pending.Some? ==>
          && slot.Some? && 0 <= inst.pending.value.window <= End(slot)
          && inst.pending.value.tokens <= cfg.policy.leaseSize)
    && forall t :: 0 <= t < |inst.calls| ==> PlacedCall(cfg, now, slot, inst.calls[t])
  }

  predicate BucketPlaced(cfg: Config, now: int, slot: Slot, b: BucketState, since: int)
    requires WellKept(slot)
  {
    && slot.Some? && 0 <= b.window <= End(slot) && b.tokens <= cfg.policy.leaseSize && since <= now
    && (b.expiresAt <= b.window + cfg.gap || b.expiresAt <= since)
  }

  predicate PlacedCall(cfg: Config, now: int, slot: Slot, c: Call)
    requires WellKept(slot)
  {
    && (c.Requested? ==> c.started <= now)
    && (c.Replied? ==>
          && c.started <= c.executed <= now
          && c.reply.window == c.executed + c.reply.pttl && c.reply.pttl >= 0
          && c.reply.leased <= cfg.policy.leaseSize
          && slot.Some? && 0 <= c.reply.window <= End(slot))
  }

  predicate SaneKey(cfg: Config, s: State) {
    && s.now >= 0
    && WellKept(s.slot)
    && (s.slot.Some? ==> End(s.slot) <= s.now + cfg.policy.WindowMs())
  }

  ghost predicate Sane(cfg: Config, s: State) {
    && SaneKey(cfg, s)
    && forall i :: 0 <= i < |s.insts| ==> Placed(cfg, s.now, s.slot, s.insts[i])
  }

  /** Time and window ends only grow, so what was placed stays placed. */
  lemma PlacedLater(cfg: Config, now: int, slot: Slot, later: int, slot': Slot, inst: Inst)
    requires WellKept(slot) && WellKept(slot') && Placed(cfg, now, slot, inst)
    requires now <= later && (slot.Some? ==> slot'.Some? && End(slot) <= End(slot'))
    ensures Placed(cfg, later, slot', inst)
  {
    forall t | 0 <= t < |inst.calls| ensures PlacedCall(cfg, later, slot', inst.calls[t]) {
      assert PlacedCall(cfg, now, slot, inst.calls[t]);
    }
  }

  ghost predicate SaneEffect(cfg: Config, s: State, e: Effect)
    requires WellKept(s.slot)
  {
    && WellKept(e.slot)
    && (s.slot.Some? ==> e.slot.Some? && End(s.slot) <= End(e.slot))
    && (e.slot.Some? ==> End(e.slot) <= s.now + cfg.policy.WindowMs())
    && Placed(cfg, s.now, e.slot, e.inst)
  }

  lemma ExecuteSane(cfg: Config, s: State, inst: Inst, t: nat)
    requires cfg.policy.Valid() && SaneKey(cfg, s) && Placed(cfg, s.now, s.slot, inst)
    requires t < |inst.calls| && inst.calls[t].Requested?
    ensures SaneEffect(cfg, s, ExecuteEffect(cfg, s, inst, t))
  {
    LeaseMovesTokens(s.slot, s.now, cfg.policy);
    var e := ExecuteEffect(cfg, s, inst, t);
    PlacedLater(cfg, s.now, s.slot, s.now, e.slot, inst);
    assert PlacedCall(cfg, s.now, s.slot, inst.calls[t]);
  }

  lemma {:induction false} DeliverSane(cfg: Config, s: State, inst: Inst, t: nat, received: int, born: int)
    requires cfg.policy.Valid() && SaneKey(cfg, s) && Placed(cfg, s.now, s.slot, inst)
    requires InstEnabled(cfg, s.now, inst, Deliver(0, t, received, born))
    ensures SaneEffect(cfg, s, DeliverEffect(s, inst, t, received, born))
  {
    var e := DeliverEffect(s, inst, t, received, born);
    DeliveredBucketPlaced(cfg, s, inst, t, received, born);
    assert e.inst.calls == inst.calls[t := e.inst.calls[t]] && e.inst.calls[t].Leaving?;
    forall u | 0 <= u < |inst.calls| ensures PlacedCall(cfg, s.now, s.slot, e.inst.calls[u]) {
      assert u != t ==> e.inst.calls[u] == inst.calls[u] && PlacedCall(cfg, s.now, s.slot, inst.calls[u]);
    }
  }

  lemma {:induction false} DeliveredBucketPlaced(cfg: Config, s: State, inst: Inst, t: nat, received: int, born: int)
    requires SaneKey(cfg, s) && Placed(cfg, s.now, s.slot, inst)
    requires InstEnabled(cfg, s.now, inst, Deliver(0, t, received, born))
    ensures var d := DeliverEffect(s, inst, t, received, born).inst;
            && d.pending == inst.pending
            && (d.bucket.Some? ==> BucketPlaced(cfg, s.now, s.slot, d.bucket.value, d.since))
  {
    assert PlacedCall(cfg, s.now, s.slot, inst.calls[t]);
  }

  lemma ReleaseSane(cfg: Config, s: State, inst: Inst)
    requires SaneKey(cfg, s) && Placed(cfg, s.now, s.slot, inst) && inst.pending.Some?
    ensures SaneEffect(cfg, s, ReleaseEffect(s, inst))
  {
    ReleaseCreditsOneWindow(s.slot, s.now, inst.pending.value.tokens, inst.pending.value.window);
    PlacedLater(cfg, s.now, s.slot, s.now, ReleaseEffect(s, inst).slot, inst);
  }

  /** Effects that leave the key alone, insert no bucket and promote no call to Replied. */
  ghost predicate Quiet(s: State, inst: Inst, e: Effect) {
    && e.slot == s.slot && |e.inst.calls| == |inst.calls|
    && (e.inst.bucket.Some? ==>
          && inst.bucket.Some? && e.inst.since == inst.since
          && e.inst.bucket.value.tokens <= inst.bucket.value.tokens
          && e.inst.bucket.value.window == inst.bucket.value.window
          && e.inst.bucket.value.expiresAt == inst.bucket.value.expiresAt)
    && (e.inst.pending.Some? ==>
          || e.inst.pending == inst.pending
          || (&& inst.bucket.Some? && e.inst.pending.value.window == inst.bucket.value.window
              && e.inst.pending.value.tokens == inst.bucket.value.tokens))
    && forall t :: 0 <= t < |inst.calls| ==>
         || e.inst.calls[t] == inst.calls[t]
         || (!e.inst.calls[t].Replied? && (e.inst.calls[t].Requested? ==> e.inst.calls[t].started <= s.now))
  }

  predicate Noisy(step: Step) {
    step.Execute? || step.Deliver? || step.Release?
  }

  lemma CallStepQuiet(cfg: Config, s: State, inst: Inst, step: Step)
    requires OfCall(step) && !Noisy(step) && InstEnabled(cfg, s.now, inst, step)
    ensures Quiet(s, inst, InstEffect(cfg, s, inst, step))
  {
    if step.Consume? {
      ConsumeQuiet(s, inst, step.t, step.sample);
    } else if step.Notify? {
      NotifyQuiet(s, inst, step.t);
    } else if step.Check? {
      CheckQuiet(s, inst, step.t, step.stale);
    } else {
      MinorStepQuiet(cfg, s, inst, step);
    }
  }

  lemma {:induction false} ConsumeQuiet(s: State, inst: Inst, t: nat, sample: int)
    requires t < |inst.calls| && inst.calls[t].Past?
    ensures Quiet(s, inst, ConsumeEffect(s, inst, t, sample))
  {
  }

  lemma NotifyQuiet(s: State, inst: Inst, t: nat)
    requires t < |inst.calls| && inst.calls[t].Notifying?
    ensures Quiet(s, inst, NotifyEffect(s, inst, t))
  {
  }

  lemma CheckQuiet(s: State, inst: Inst, t: nat, stale: bool)
    requires t < |inst.calls| && inst.calls[t].Checking?
    ensures Quiet(s, inst, CheckEffect(s, inst, t, stale))
  {
  }

  predicate Minor(step: Step) {
    step.Spawn? || step.Claim? || step.Register? || step.Cancel? || step.Send? || step.Abort? || step.Leave?
    || step.Remove?
  }

  lemma MinorStepQuiet(cfg: Config, s: State, inst: Inst, step: Step)
    requires Minor(step) && InstEnabled(cfg, s.now, inst, step)
    ensures Quiet(s, inst, InstEffect(cfg, s, inst, step))
  {
    if step.Remove? {
      RemoveQuiet(s, inst, step.t);
    } else {
      MovesQuiet(cfg, s, inst, step);
    }
  }

  lemma RemoveQuiet(s: State, inst: Inst, t: nat)
    requires t < |inst.calls| && inst.calls[t].Removing?
    ensures Quiet(s, inst, RemoveEffect(s, inst, t))
  {
  }

  lemma {:induction false} MovesQuiet(cfg: Config, s: State, inst: Inst, step: Step)
    requires Minor(step) && !step.Remove? && InstEnabled(cfg, s.now, inst, step)
    ensures Quiet(s, inst, InstEffect(cfg, s, inst, step))
  {
    var inst' := InstEffect(cfg, s, inst, step).inst;
    assert inst'.bucket == inst.bucket && inst'.pending == inst.pending && inst'.since == inst.since;
    assert inst'.calls == inst.calls[step.t := inst'.calls[step.t]];
  }

  lemma {:induction false} OtherStepQuiet(cfg: Config, s: State, inst: Inst, step: Step)
    requires !Global(step) && !OfCall(step) && !Noisy(step) && InstEnabled(cfg, s.now, inst, step)
    ensures Quiet(s, inst, InstEffect(cfg, s, inst, step))
  {
  }

  lemma QuietSane(cfg: Config, s: State, inst: Inst, e: Effect)
    requires SaneKey(cfg, s) && Placed(cfg, s.now, s.slot, inst) && Quiet(s, inst, e)
    ensures SaneEffect(cfg, s, e)
  {
    forall t | 0 <= t < |inst.calls| ensures PlacedCall(cfg, s.now, s.slot, e.inst.calls[t]) {
      assert PlacedCall(cfg, s.now, s.slot, inst.calls[t]);
    }
  }

  lemma {:induction false} EffectSane(cfg: Config, s: State, inst: Inst, step: Step)
    requires cfg.policy.Valid() && SaneKey(cfg, s) && Placed(cfg, s.now, s.slot, inst)
    requires !Global(step) && InstEnabled(cfg, s.now, inst, step)
    ensures SaneEffect(cfg, s, InstEffect(cfg, s, inst, step))
  {
    if step.Execute? {
      ExecuteSane(cfg, s, inst, step.t);
    } else if step.Deliver? {
      DeliverSane(cfg, s, inst, step.t, step.received, step.born);
    } else if step.Release? {
      ReleaseSane(cfg, s, inst);
    } else {
      if OfCall(step) {
        CallStepQuiet(cfg, s, inst, step);
      } else {
        OtherStepQuiet(cfg, s, inst, step);
      }
      QuietSane(cfg, s, inst, InstEffect(cfg, s, inst, step));
    }
  }

  lemma InstStepSane(cfg: Config, s: State, i: nat, e: Effect)
    requires Sane(cfg, s) && i < |s.insts| && SaneEffect(cfg, s, e)
    ensures Sane(cfg, State(s.now, e.slot, s.insts[i := e.inst], s.log + e.events))
  {
    forall j | 0 <= j < |s.insts| && j != i ensures Placed(cfg, s.now, e.slot, s.insts[j]) {
      PlacedLater(cfg, s.now, s.slot, s.now, e.slot, s.insts[j]);
    }
  }

  lemma {:induction false} GlobalStepSane(cfg: Config, s: State, step: Step)
    requires cfg.policy.Valid() && Sane(cfg, s) && Global(step)
    ensures Sane(cfg, Apply(cfg, s, step))
  {
    var s' := Apply(cfg, s, step);
    if step.Stray? {
      LeaseMovesTokens(s.slot, s.now, cfg.policy);
    }
    forall i | 0 <= i < |s.insts| ensures Placed(cfg, s'.now, s'.slot, s.insts[i]) {
      PlacedLater(cfg, s.now, s.slot, s'.now, s'.slot, s.insts[i]);
    }
  }

  lemma {:induction false} StepSane(cfg: Config, s: State, step: Step)
    requires cfg.policy.Valid() && Sane(cfg, s) && Enabled(cfg, s, step)
    ensures Sane(cfg, Apply(cfg, s, step))
  {
    if Global(step) {
      GlobalStepSane(cfg, s, step);
    } else {
      EffectSane(cfg, s, s.insts[step.i], step);
      InstStepSane(cfg, s, step.i, InstEffect(cfg, s, s.insts[step.i], step));
    }
  }
}
