/** How many tokens can sit unused when Redis has none left to lease. */
module UnderAdmission {
  import opened RedisScripts
  import opened Protocol
  import opened Ledger
  import opened Conservation
  import opened Safety
  import opened Flight

  /** A leader whose reply has not been dealt with. */
  predicate Asks(c: Call) {
    c.Leading? || c.Requested? || c.Replied?
  }

  predicate Idling(inst: Inst) {
    inst.bucket.None? && forall t :: 0 <= t < |inst.calls| ==> inst.calls[t].Idle?
  }

  /** Unless a claim raced with another lease, an instance asks only while its own bucket cannot serve. */
  ghost predicate Frugal(inst: Inst, now: int) {
    && (inst.phase == Crashed ==> Idling(inst))
    && (!inst.raced && inst.bucket.Some? && inst.bucket.value.Usable(now) ==>
          forall t :: 0 <= t < |inst.calls| ==> !Asks(inst.calls[t]))
  }

  /** Steps after which the bucket serves no more than before, and no more calls ask. */
  ghost predicate AsksNoMore(inst: Inst, inst': Inst, now: int) {
    && |inst'.calls| == |inst.calls|
    && (inst'.raced <==> inst.raced)
    && (inst'.phase == Crashed ==> inst'.phase == inst.phase)
    && (inst'.bucket.Some? ==> inst.bucket.Some?)
    && (inst'.bucket.Some? && inst'.bucket.value.Usable(now) ==> inst.bucket.value.Usable(now))
    && (forall t :: 0 <= t < |inst.calls| ==> Asks(inst'.calls[t]) ==> Asks(inst.calls[t]))
    && (inst.phase == Crashed ==> forall t :: 0 <= t < |inst.calls| ==> inst.calls[t].Idle? ==> inst'.calls[t].Idle?)
  }

  lemma CallStepAsksNoMore(cfg: Config, s: State, inst: Inst, step: Step)
    requires OfCall(step) && !step.Claim? && !step.Deliver? && InstEnabled(cfg, s.now, inst, step)
    ensures AsksNoMore(inst, InstEffect(cfg, s, inst, step).inst, s.now)
  {
    if step.Consume? {
      ConsumeAsksNoMore(s, inst, step.t, step.sample);
    } else if step.Notify? || step.Check? || step.Execute? {
      TalkAsksNoMore(cfg, s, inst, step);
    } else {
      MinorStepAsksNoMore(cfg, s, inst, step);
    }
  }

  lemma {:induction false} ConsumeAsksNoMore(s: State, inst: Inst, t: nat, sample: int)
    requires t < |inst.calls| && inst.calls[t].Past?
    ensures AsksNoMore(inst, ConsumeEffect(s, inst, t, sample).inst, s.now)
  {
  }

  lemma {:induction false} TalkAsksNoMore(cfg: Config, s: State, inst: Inst, step: Step)
    requires step.Notify? || step.Check? || step.Execute?
    requires InstEnabled(cfg, s.now, inst, step)
    ensures AsksNoMore(inst, InstEffect(cfg, s, inst, step).inst, s.now)
  {
  }

  lemma {:induction false} MinorStepAsksNoMore(cfg: Config, s: State, inst: Inst, step: Step)
    requires Minor(step) && !step.Claim? && InstEnabled(cfg, s.now, inst, step)
    ensures AsksNoMore(inst, InstEffect(cfg, s, inst, step).inst, s.now)
  {
  }

  lemma ClaimFrugal(s: State, inst: Inst, t: nat)
    requires t < |inst.calls| && inst.calls[t].Claiming? && Frugal(inst, s.now)
    ensures Frugal(ClaimEffect(s, inst, t).inst, s.now)
  {
  }

  lemma {:induction false} DeliverFrugal(s: State, inst: Inst, t: nat, received: int, born: int)
    requires t < |inst.calls| && inst.calls[t].Replied? && Frugal(inst, s.now) && OneLeader(inst)
    ensures Frugal(DeliverEffect(s, inst, t, received, born).inst, s.now)
  {
    var inst' := DeliverEffect(s, inst, t, received, born).inst;
    assert CallFits(inst, t, inst.calls[t]);
    forall u | 0 <= u < |inst'.calls| ensures !Asks(inst'.calls[u]) {
      assert CallFits(inst, u, inst.calls[u]);
    }
  }

  lemma {:induction false} OtherStepFrugal(cfg: Config, s: State, inst: Inst, step: Step)
    requires !Global(step) && !OfCall(step) && InstEnabled(cfg, s.now, inst, step) && Frugal(inst, s.now)
    ensures Frugal(InstEffect(cfg, s, inst, step).inst, s.now)
  {
  }

  lemma {:induction false} EffectFrugal(cfg: Config, s: State, inst: Inst, step: Step)
    requires !Global(step) && InstEnabled(cfg, s.now, inst, step) && Frugal(inst, s.now) && OneLeader(inst)
    ensures Frugal(InstEffect(cfg, s, inst, step).inst, s.now)
  {
    if step.Claim? {
      ClaimFrugal(s, inst, step.t);
    } else if step.Deliver? {
      DeliverFrugal(s, inst, step.t, step.received, step.born);
    } else if OfCall(step) {
      CallStepAsksNoMore(cfg, s, inst, step);
    } else {
      OtherStepFrugal(cfg, s, inst, step);
    }
  }

  ghost predicate AllFrugal(s: State) {
    forall i :: 0 <= i < |s.insts| ==> Frugal(s.insts[i], s.now)
  }

  lemma {:induction false} StepFrugal(cfg: Config, s: State, step: Step)
    requires AllFrugal(s) && AllOneLeader(s) && Enabled(cfg, s, step)
    ensures AllFrugal(Apply(cfg, s, step))
  {
    var s' := Apply(cfg, s, step);
    if step.Tick? {
      forall i | 0 <= i < |s.insts| ensures Frugal(s.insts[i], s'.now) {
        assert Frugal(s.insts[i], s.now);
      }
    } else if !Global(step) {
      EffectFrugal(cfg, s, s.insts[step.i], step);
    }
  }

  lemma {:induction false} FrugalAfter(cfg: Config, start: State, steps: seq<Step>)
    requires Init(start) && Runs(cfg, start, steps)
    ensures AllFrugal(After(cfg, start, steps)) && AllOneLeader(After(cfg, start, steps))
    decreases |steps|
  {
    FitsAfter(cfg, start, steps);
    if steps != [] {
      FrugalAfter(cfg, start, steps[..|steps| - 1]);
      StepFrugal(cfg, After(cfg, start, steps[..|steps| - 1]), steps[|steps| - 1]);
    }
  }

  function ServingCount(insts: seq<Inst>): nat {
    if insts == [] then 0
    else ServingCount(insts[..|insts| - 1]) + if insts[|insts| - 1].phase == Serving then 1 else 0
  }

  /** No claim of this serving instance raced with another lease; or it is gone and has nothing due. */
  predicate Orderly(inst: Inst) {
    (inst.phase == Serving && !inst.raced) || (inst.phase == Crashed && inst.pending.None?)
  }

  /** Tokens of `w` that the instance keeps in a bucket whose own deadline has put them out of reach. */
  function Leftover(inst: Inst, w: int, now: int): nat {
    if inst.bucket.Some? && inst.bucket.value.IsExpired(now) then InBucket(inst, w) else 0
  }

  function LeftoverAll(insts: seq<Inst>, w: int, now: int): nat {
    if insts == [] then 0 else LeftoverAll(insts[..|insts| - 1], w, now) + Leftover(insts[|insts| - 1], w, now)
  }

  lemma {:induction false} OneReplyInFlight(calls: seq<Call>, t: nat, w: int)
    requires t < |calls| && forall u :: 0 <= u < |calls| && u != t ==> !calls[u].Replied?
    ensures InFlightAll(calls, w) == InFlight(calls[t], w)
  {
    var n := |calls| - 1;
    if t == n {
      NoRepliesNothingInFlight(calls[..n], w);
    } else {
      OneReplyInFlight(calls[..n], t, w);
    }
  }

  /** Apart from what its deadline has put out of reach, an orderly instance owes at most one lease of any window, and
      nothing while it waits for Redis to answer. */
  lemma {:induction false} OrderlyOwesLittle(cfg: Config, s: State, inst: Inst, w: int)
    requires SaneKey(cfg, s) && Placed(cfg, s.now, s.slot, inst)
    requires OneLeader(inst) && Frugal(inst, s.now) && OneSnapshot(inst) && Orderly(inst)
    ensures Owed(inst, w) <= Leftover(inst, w, s.now) + if inst.phase == Serving then cfg.policy.leaseSize else 0
    ensures forall t :: 0 <= t < |inst.calls| && inst.calls[t].Requested? ==> Owed(inst, w) == Leftover(inst, w, s.now)
  {
    if t :| 0 <= t < |inst.calls| && Asks(inst.calls[t]) {
      assert CallFits(inst, t, inst.calls[t]);
      forall u | 0 <= u < |inst.calls| && u != t ensures !Leads(inst.calls[u]) {
        assert CallFits(inst, u, inst.calls[u]);
      }
      OneReplyInFlight(inst.calls, t, w);
      assert PlacedCall(cfg, s.now, s.slot, inst.calls[t]);
      assert Held(inst, w) <= Leftover(inst, w, s.now);
      assert inst.phase != Crashed;
    } else {
      NoRepliesNothingInFlight(inst.calls, w);
    }
  }

  lemma {:induction false} SumOfOrderly(cfg: Config, insts: seq<Inst>, i: nat, w: int, now: int)
    requires forall j :: 0 <= j < |insts| ==>
      Owed(insts[j], w) <= Leftover(insts[j], w, now)
                           + if insts[j].phase == Serving && j != i then cfg.policy.leaseSize else 0
    requires i < |insts| ==> insts[i].phase == Serving
    ensures i < |insts| ==> ServingCount(insts) >= 1
    ensures Sum(insts, SOwed, w)
            <= (ServingCount(insts) - if i < |insts| then 1 else 0) * cfg.policy.leaseSize + LeftoverAll(insts, w, now)
  {
    if insts != [] {
      var n := |insts| - 1;
      SumOfOrderly(cfg, insts[..n], i, w, now);
      var before := ServingCount(insts[..n]) - if i < n then 1 else 0;
      OneMoreLease(before, cfg.policy.leaseSize);
      assert ServingCount(insts) - (if i < |insts| then 1 else 0)
             == if insts[n].phase == Serving && n != i then before + 1 else before;
    }
  }

  lemma OneMoreLease(k: int, size: nat)
    ensures (k + 1) * size == k * size + size
  {
  }

  lemma OrderlyOthersHoldAll(cfg: Config, s: State, i: nat, t: nat, w: int)
    requires Sane(cfg, s) && AllFrugal(s) && AllOneLeader(s)
    requires forall j :: 0 <= j < |s.insts| ==> OneSnapshot(s.insts[j]) && Orderly(s.insts[j])
    requires Enabled(cfg, s, Execute(i, t))
    ensures Sum(s.insts, SOwed, w)
            <= (ServingCount(s.insts) - 1) * cfg.policy.leaseSize + LeftoverAll(s.insts, w, s.now)
  {
    forall j | 0 <= j < |s.insts|
      ensures Owed(s.insts[j], w) <= Leftover(s.insts[j], w, s.now)
                                     + if s.insts[j].phase == Serving && j != i then cfg.policy.leaseSize else 0
    {
      assert Placed(cfg, s.now, s.slot, s.insts[j]);
      OrderlyOwesLittle(cfg, s, s.insts[j], w);
    }
    SumOfOrderly(cfg, s.insts, i, w, s.now);
  }

  /** When a lease finds the key alive but empty, what the window still has unspent is exactly what instances owe
      plus what was lost or dropped. If the instances are orderly, the other N - 1 serving instances owe at most one
      lease each, and on top come the tokens that any instance, the asking one included, keeps behind a deadline of
      its own. */
  lemma {:induction false} ZeroLeaseShortfall(cfg: Config, s: State, i: nat, t: nat)
    requires cfg.policy.Valid() && Reachable(cfg, s) && Enabled(cfg, s, Execute(i, t))
    requires Alive(s.slot, s.now) && s.slot.value.value == 0
    ensures var w := KeyEnd(s.slot);
            && cfg.policy.quota + Total(s.log, AOver, w)
               == Taken(s.log, w) + Sum(s.insts, SOwed, w) + Total(s.log, ALoss, w) + Total(s.log, ADrop, w)
            && ((forall j :: 0 <= j < |s.insts| ==> Orderly(s.insts[j]))
                ==> cfg.policy.quota - Taken(s.log, w)
                    <= (ServingCount(s.insts) - 1) * cfg.policy.leaseSize
                       + LeftoverAll(s.insts, w, s.now) + Total(s.log, ALoss, w) + Total(s.log, ADrop, w))
  {
    InvReachable(cfg, s);
    CounterIsWhatRemains(cfg, s);
    if forall j :: 0 <= j < |s.insts| ==> Orderly(s.insts[j]) {
      FrugalReachable(cfg, s);
      OrderlyOthersHoldAll(cfg, s, i, t, KeyEnd(s.slot));
    }
  }

  lemma FrugalReachable(cfg: Config, s: State)
    requires Reachable(cfg, s)
    ensures AllFrugal(s) && AllOneLeader(s)
  {
    var start, steps :| Init(start) && Runs(cfg, start, steps) && After(cfg, start, steps) == s;
    FrugalAfter(cfg, start, steps);
  }
}
