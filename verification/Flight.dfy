/** Single flight: at most one call per instance leases at a time, and who gets woken when it is done. */
module Flight {
  import opened Basics
  import opened Protocol
  import opened Ledger

  /** The refills entry exists exactly while one call leads, it is that call's, and its Notify is not reused. */
  ghost predicate OneLeader(inst: Inst) {
    && (forall t :: 0 <= t < |inst.calls| ==> CallFits(inst, t, inst.calls[t]))
    && (inst.refill.Some? ==>
          && inst.refill.value.notify < inst.nextNotify
          && inst.refill.value.leader < |inst.calls|
          && Leads(inst.calls[inst.refill.value.leader]))
  }

  predicate CallFits(inst: Inst, t: nat, c: Call) {
    && (Leads(c) ==> inst.refill == Some(Refill(c.n, t)))
    && (c.Cloned? || c.Waiting? ==> c.n < inst.nextNotify)
    && (c.Notifying? ==> c.removed.Some? && c.removed.value < inst.nextNotify)
  }

  lemma SetCallFits(inst: Inst, t: nat, c: Call, inst': Inst)
    requires OneLeader(inst) && t < |inst.calls| && inst'.calls == inst.calls[t := c]
    requires inst'.refill == inst.refill && inst'.nextNotify == inst.nextNotify
    requires CallFits(inst, t, c) && (Leads(c) <==> Leads(inst.calls[t]))
    ensures OneLeader(inst')
  {
    forall u | 0 <= u < |inst'.calls| ensures CallFits(inst', u, inst'.calls[u]) {
      assert CallFits(inst, u, inst.calls[u]);
    }
  }

  lemma {:induction false} ClaimFits(s: State, inst: Inst, t: nat)
    requires OneLeader(inst) && t < |inst.calls| && inst.calls[t].Claiming?
    ensures OneLeader(ClaimEffect(s, inst, t).inst)
  {
    var inst' := ClaimEffect(s, inst, t).inst;
    forall u | 0 <= u < |inst'.calls| ensures CallFits(inst', u, inst'.calls[u]) {
      assert CallFits(inst, u, inst.calls[u]);
    }
  }

  lemma LeaveFits(s: State, inst: Inst, t: nat)
    requires OneLeader(inst) && t < |inst.calls| && inst.calls[t].Leaving?
    ensures OneLeader(LeaveEffect(s, inst, t).inst)
    ensures LeaveEffect(s, inst, t).inst.calls[t] == Notifying(Some(inst.calls[t].n), inst.calls[t].outcome)
  {
    var inst' := LeaveEffect(s, inst, t).inst;
    assert CallFits(inst, t, inst.calls[t]);
    forall u | 0 <= u < |inst'.calls| ensures CallFits(inst', u, inst'.calls[u]) {
      assert CallFits(inst, u, inst.calls[u]);
    }
  }

  lemma NotifyFits(s: State, inst: Inst, t: nat)
    requires OneLeader(inst) && t < |inst.calls| && inst.calls[t].Notifying?
    ensures OneLeader(NotifyEffect(s, inst, t).inst)
  {
    var inst' := NotifyEffect(s, inst, t).inst;
    forall u | 0 <= u < |inst'.calls| ensures CallFits(inst', u, inst'.calls[u]) {
      assert CallFits(inst, u, inst.calls[u]);
    }
  }

  lemma CheckFits(s: State, inst: Inst, t: nat, stale: bool)
    requires OneLeader(inst) && t < |inst.calls| && inst.calls[t].Checking?
    ensures OneLeader(CheckEffect(s, inst, t, stale).inst)
  {
    var inst' := CheckEffect(s, inst, t, stale).inst;
    SetCallFits(inst, t, inst'.calls[t], inst');
  }

  lemma {:induction false} DeliverFits(s: State, inst: Inst, t: nat, received: int, born: int)
    requires OneLeader(inst) && t < |inst.calls| && inst.calls[t].Replied?
    ensures OneLeader(DeliverEffect(s, inst, t, received, born).inst)
  {
    var inst' := DeliverEffect(s, inst, t, received, born).inst;
    assert CallFits(inst, t, inst.calls[t]);
    SetCallFits(inst, t, inst'.calls[t], inst');
  }

  lemma {:induction false} ConsumeFits(s: State, inst: Inst, t: nat, sample: int)
    requires OneLeader(inst) && t < |inst.calls| && inst.calls[t].Past?
    ensures OneLeader(ConsumeEffect(s, inst, t, sample).inst)
  {
    var inst' := ConsumeEffect(s, inst, t, sample).inst;
    SetCallFits(inst, t, inst'.calls[t], inst');
  }

  lemma {:induction false} LeaderMoves(cfg: Config, s: State, inst: Inst, step: Step)
    requires step.Spawn? || step.Register? || step.Cancel? || step.Send? || step.Execute? || step.Abort?
             || step.Remove?
    requires OneLeader(inst) && InstEnabled(cfg, s.now, inst, step)
    ensures OneLeader(InstEffect(cfg, s, inst, step).inst)
  {
    var inst' := InstEffect(cfg, s, inst, step).inst;
    assert CallFits(inst, step.t, inst.calls[step.t]);
    SetCallFits(inst, step.t, inst'.calls[step.t], inst');
  }

  lemma {:induction false} OthersFit(cfg: Config, s: State, inst: Inst, step: Step)
    requires OneLeader(inst) && !Global(step) && !OfCall(step) && InstEnabled(cfg, s.now, inst, step)
    ensures OneLeader(InstEffect(cfg, s, inst, step).inst)
  {
    var inst' := InstEffect(cfg, s, inst, step).inst;
    forall u | 0 <= u < |inst'.calls| ensures CallFits(inst', u, inst'.calls[u]) {
      assert CallFits(inst, u, inst.calls[u]);
    }
  }

  lemma {:induction false} EffectFits(cfg: Config, s: State, inst: Inst, step: Step)
    requires OneLeader(inst) && !Global(step) && InstEnabled(cfg, s.now, inst, step)
    ensures OneLeader(InstEffect(cfg, s, inst, step).inst)
  {
    if step.Check? {
      CheckFits(s, inst, step.t, step.stale);
    } else if step.Claim? {
      ClaimFits(s, inst, step.t);
    } else if step.Deliver? {
      DeliverFits(s, inst, step.t, step.received, step.born);
    } else if step.Leave? {
      LeaveFits(s, inst, step.t);
    } else if step.Notify? {
      NotifyFits(s, inst, step.t);
    } else if step.Consume? {
      ConsumeFits(s, inst, step.t, step.sample);
    } else if OfCall(step) {
      LeaderMoves(cfg, s, inst, step);
    } else {
      OthersFit(cfg, s, inst, step);
    }
  }

  ghost predicate AllOneLeader(s: State) {
    forall i :: 0 <= i < |s.insts| ==> OneLeader(s.insts[i])
  }

  lemma {:induction false} StepFits(cfg: Config, s: State, step: Step)
    requires AllOneLeader(s) && Enabled(cfg, s, step)
    ensures AllOneLeader(Apply(cfg, s, step))
  {
    if !Global(step) {
      EffectFits(cfg, s, s.insts[step.i], step);
    }
  }

  lemma {:induction false} FitsAfter(cfg: Config, start: State, steps: seq<Step>)
    requires AllOneLeader(start) && Runs(cfg, start, steps)
    ensures AllOneLeader(After(cfg, start, steps))
    decreases |steps|
  {
    if steps != [] {
      FitsAfter(cfg, start, steps[..|steps| - 1]);
      StepFits(cfg, After(cfg, start, steps[..|steps| - 1]), steps[|steps| - 1]);
    }
  }

  lemma FitsReachable(cfg: Config, s: State)
    requires Reachable(cfg, s)
    ensures AllOneLeader(s)
  {
    var start, steps :| Init(start) && Runs(cfg, start, steps) && After(cfg, start, steps) == s;
    FitsAfter(cfg, start, steps);
  }

  /** Over all interleavings, an instance has a refills entry exactly while some call leads a lease, and then
      exactly one does; no step of another call removes or replaces that entry. */
  lemma {:induction false} SingleFlight(cfg: Config, s: State, step: Step, i: nat)
    requires Reachable(cfg, s) && Enabled(cfg, s, step) && i < |s.insts|
    ensures LedByOne(s.insts[i])
    ensures s.insts[i].refill.Some? ==>
      || Apply(cfg, s, step).insts[i].refill == s.insts[i].refill
      || step == Leave(i, s.insts[i].refill.value.leader)
      || step == Crash(i)
  {
    FitsReachable(cfg, s);
    EntryMeansLeader(s.insts[i]);
    InstAfter(cfg, s, step, i);
    if !Global(step) && step.i == i && s.insts[i].refill.Some? {
      EntryKept(cfg, s, s.insts[i], step);
    }
  }

  lemma {:induction false} InstAfter(cfg: Config, s: State, step: Step, i: nat)
    requires Enabled(cfg, s, step) && i < |s.insts|
    ensures i < |Apply(cfg, s, step).insts|
    ensures Apply(cfg, s, step).insts[i]
            == if Global(step) || step.i != i then s.insts[i] else InstEffect(cfg, s, s.insts[i], step).inst
  {
  }

  /** There is an entry exactly while one of the calls leads, and that is the call that inserted it. */
  ghost predicate LedByOne(inst: Inst) {
    && (forall t :: 0 <= t < |inst.calls| ==>
          (Leads(inst.calls[t]) <==> inst.refill.Some? && inst.refill.value.leader == t))
    && (inst.refill.Some? ==> inst.refill.value.leader < |inst.calls|)
  }

  lemma EntryMeansLeader(inst: Inst)
    requires OneLeader(inst)
    ensures LedByOne(inst)
  {
    forall t | 0 <= t < |inst.calls|
      ensures Leads(inst.calls[t]) <==> inst.refill.Some? && inst.refill.value.leader == t
    {
      assert CallFits(inst, t, inst.calls[t]);
    }
  }

  lemma {:induction false} EntryKept(cfg: Config, s: State, inst: Inst, step: Step)
    requires OneLeader(inst) && !Global(step) && InstEnabled(cfg, s.now, inst, step) && inst.refill.Some?
    ensures || InstEffect(cfg, s, inst, step).inst.refill == inst.refill
            || step == Leave(step.i, inst.refill.value.leader)
            || step == Crash(step.i)
  {
    if OfCall(step) {
      assert CallFits(inst, step.t, inst.calls[step.t]);
    }
  }

  /** Nobody is going to notify on `n` any more. */
  ghost predicate Forgotten(inst: Inst, n: nat) {
    && n < inst.nextNotify
    && (inst.refill.Some? ==> inst.refill.value.notify != n)
    && forall t :: 0 <= t < |inst.calls| ==> inst.calls[t].Notifying? ==> inst.calls[t].removed != Some(n)
  }

  lemma {:induction false} ForgottenByCall(cfg: Config, s: State, inst: Inst, step: Step, n: nat)
    requires OfCall(step) && !step.Leave? && !step.Notify? && InstEnabled(cfg, s.now, inst, step)
    requires OneLeader(inst) && Forgotten(inst, n)
    ensures Forgotten(InstEffect(cfg, s, inst, step).inst, n)
  {
    var inst' := InstEffect(cfg, s, inst, step).inst;
    OneCallMoves(cfg, s, inst, step);
    forall u | 0 <= u < |inst'.calls| && inst'.calls[u].Notifying? ensures inst'.calls[u].removed != Some(n) {
      assert inst'.calls[u] == inst.calls[u];
    }
  }

  /** Steps that replace one call, and at most claim a new entry. */
  predicate OneMoves(inst: Inst, inst': Inst, t: nat) {
    && t < |inst.calls| == |inst'.calls| && !inst'.calls[t].Notifying?
    && inst'.calls == inst.calls[t := inst'.calls[t]]
    && inst'.nextNotify >= inst.nextNotify
    && (inst'.refill == inst.refill || inst'.refill == Some(Refill(inst.nextNotify, t)))
  }

  lemma {:induction false} OneCallMoves(cfg: Config, s: State, inst: Inst, step: Step)
    requires OfCall(step) && !step.Leave? && !step.Notify? && InstEnabled(cfg, s.now, inst, step)
    ensures OneMoves(inst, InstEffect(cfg, s, inst, step).inst, step.t)
  {
    if step.Consume? {
      assert OneMoves(inst, ConsumeEffect(s, inst, step.t, step.sample).inst, step.t);
    } else if step.Deliver? {
      DeliverMovesOne(s, inst, step.t, step.received, step.born);
    } else if step.Check? || step.Execute? {
      AskMovesOne(cfg, s, inst, step);
    } else {
      MinorMovesOne(cfg, s, inst, step);
    }
  }

  lemma DeliverMovesOne(s: State, inst: Inst, t: nat, received: int, born: int)
    requires t < |inst.calls| && inst.calls[t].Replied?
    ensures OneMoves(inst, DeliverEffect(s, inst, t, received, born).inst, t)
  {
  }

  lemma AskMovesOne(cfg: Config, s: State, inst: Inst, step: Step)
    requires step.Check? || step.Execute?
    requires InstEnabled(cfg, s.now, inst, step)
    ensures OneMoves(inst, InstEffect(cfg, s, inst, step).inst, step.t)
  {
  }

  lemma {:induction false} MinorMovesOne(cfg: Config, s: State, inst: Inst, step: Step)
    requires Minor(step) && !step.Leave? && InstEnabled(cfg, s.now, inst, step)
    ensures OneMoves(inst, InstEffect(cfg, s, inst, step).inst, step.t)
  {
  }

  lemma {:induction false} ForgottenByLeaving(s: State, inst: Inst, t: nat, n: nat)
    requires OneLeader(inst) && Forgotten(inst, n)
    requires t < |inst.calls|
    ensures inst.calls[t].Leaving? ==> Forgotten(LeaveEffect(s, inst, t).inst, n)
    ensures inst.calls[t].Notifying? ==> Forgotten(NotifyEffect(s, inst, t).inst, n)
  {
    assert CallFits(inst, t, inst.calls[t]);
  }

  lemma {:induction false} ForgottenStays(cfg: Config, s: State, inst: Inst, step: Step, n: nat)
    requires OneLeader(inst) && Forgotten(inst, n)
    requires !Global(step) && InstEnabled(cfg, s.now, inst, step)
    ensures Forgotten(InstEffect(cfg, s, inst, step).inst, n)
  {
    if step.Leave? || step.Notify? {
      ForgottenByLeaving(s, inst, step.t, n);
    } else if OfCall(step) {
      ForgottenByCall(cfg, s, inst, step, n);
    }
  }

  /** A waiting call takes no step of its own, except that its client may give up. */
  lemma WaiterDoesNotAct(cfg: Config, now: int, inst: Inst, step: Step, t: nat)
    requires OfCall(step) && InstEnabled(cfg, now, inst, step) && t < |inst.calls| && inst.calls[t].Waiting?
    requires !(step.Cancel? && step.t == t)
    ensures step.t != t
  {
  }

  lemma {:induction false} BackgroundLeavesCalls(cfg: Config, s: State, inst: Inst, step: Step)
    requires !Global(step) && !OfCall(step) && !step.Crash? && InstEnabled(cfg, s.now, inst, step)
    ensures var inst' := InstEffect(cfg, s, inst, step).inst; inst'.calls == inst.calls && inst'.refill == inst.refill
  {
  }

  lemma {:induction false} WaiterMoves(cfg: Config, s: State, inst: Inst, step: Step, t: nat)
    requires OneLeader(inst) && !Global(step) && InstEnabled(cfg, s.now, inst, step)
    requires t < |inst.calls| && inst.calls[t].Waiting?
    requires Forgotten(inst, inst.calls[t].n) && !step.Crash? && !(step.Cancel? && step.t == t)
    ensures var after := InstEffect(cfg, s, inst, step).inst; t < |after.calls| && after.calls[t] == inst.calls[t]
  {
    if !OfCall(step) {
      BackgroundLeavesCalls(cfg, s, inst, step);
    } else {
      WaiterDoesNotAct(cfg, s.now, inst, step, t);
      if step.Notify? {
        assert CallFits(inst, step.t, inst.calls[step.t]);
        OtherNotify(s, inst, step.t, t);
      } else if !step.Leave? {
        OneCallMoves(cfg, s, inst, step);
      }
    }
  }

  lemma OtherNotify(s: State, inst: Inst, u: nat, t: nat)
    requires u < |inst.calls| && inst.calls[u].Notifying? && t < |inst.calls| && inst.calls[t].Waiting?
    requires inst.calls[u].removed != Some(inst.calls[t].n)
    ensures NotifyEffect(s, inst, u).inst.calls[t] == inst.calls[t]
  {
  }

  /** No step of the sequence stops the instance or gives up the call. */
  predicate Undisturbed(steps: seq<Step>, i: nat, t: nat) {
    Crash(i) !in steps && Cancel(i, t) !in steps
  }

  /** A call that registers too late, on a Notify already used, is never woken: it waits in every continuation of the
      run in which its instance does not stop and its client does not give up. */
  lemma {:induction false} MissedWakeUp(cfg: Config, s: State, steps: seq<Step>, i: nat, t: nat)
    requires Reachable(cfg, s) && Runs(cfg, s, steps) && Undisturbed(steps, i, t)
    requires i < |s.insts| && t < |s.insts[i].calls| && s.insts[i].calls[t].Waiting?
    requires Forgotten(s.insts[i], s.insts[i].calls[t].n)
    ensures var inst := s.insts[i];
            var s' := After(cfg, s, steps);
            && i < |s'.insts| && t < |s'.insts[i].calls|
            && s'.insts[i].calls[t] == inst.calls[t]
            && Forgotten(s'.insts[i], inst.calls[t].n)
    decreases |steps|
  {
    FitsReachable(cfg, s);
    if steps != [] {
      var front := steps[..|steps| - 1];
      var last := steps[|steps| - 1];
      MissedWakeUp(cfg, s, front, i, t);
      FitsAfter(cfg, s, front);
      var mid := After(cfg, s, front);
      if !Global(last) && last.i == i {
        assert last != Crash(i) && last != Cancel(i, t);
        ForgottenStays(cfg, mid, mid.insts[i], last, s.insts[i].calls[t].n);
        WaiterMoves(cfg, mid, mid.insts[i], last, t);
      }
    }
  }

  // Calls whose Notify will still be used

  predicate Waits(s: State, i: nat, t: nat, n: nat) {
    i < |s.insts| && t < |s.insts[i].calls| && s.insts[i].calls[t] == Waiting(n)
  }

  /** What a step of its instance may do to a call waiting on `n`. */
  ghost predicate KeptOrReleased(inst: Inst, inst': Inst, step: Step, t: nat, n: nat) {
    && t < |inst'.calls|
    && (|| (inst'.calls[t] == Waiting(n) && !Forgotten(inst', n))
        || (&& inst'.calls[t] == Checking && step.Notify?
            && step.t < |inst.calls| && inst.calls[step.t].Notifying? && inst.calls[step.t].removed == Some(n)))
  }

  lemma NotifyReleases(s: State, inst: Inst, u: nat, t: nat, n: nat)
    requires OneLeader(inst) && u < |inst.calls| && inst.calls[u].Notifying?
    requires t < |inst.calls| && inst.calls[t] == Waiting(n) && !Forgotten(inst, n)
    ensures var inst' := NotifyEffect(s, inst, u).inst;
            && t < |inst'.calls|
            && (inst.calls[u].removed == Some(n) ==> inst'.calls[t] == Checking)
            && (inst.calls[u].removed != Some(n) ==> inst'.calls[t] == Waiting(n) && !Forgotten(inst', n))
  {
    var inst' := NotifyEffect(s, inst, u).inst;
    assert CallFits(inst, u, inst.calls[u]) && CallFits(inst, t, inst.calls[t]);
    if inst.calls[u].removed != Some(n) && !(inst.refill.Some? && inst.refill.value.notify == n) {
      var v :| 0 <= v < |inst.calls| && inst.calls[v].Notifying? && inst.calls[v].removed == Some(n);
      assert inst'.calls[v] == inst.calls[v];
    }
  }

  lemma LeaveKeepsWaiter(s: State, inst: Inst, u: nat, t: nat, n: nat)
    requires OneLeader(inst) && u < |inst.calls| && inst.calls[u].Leaving?
    requires t < |inst.calls| && inst.calls[t] == Waiting(n) && !Forgotten(inst, n)
    ensures var inst' := LeaveEffect(s, inst, u).inst;
            t < |inst'.calls| && inst'.calls[t] == Waiting(n) && !Forgotten(inst', n)
  {
    var inst' := LeaveEffect(s, inst, u).inst;
    LeaveFits(s, inst, u);
    assert CallFits(inst, u, inst.calls[u]) && CallFits(inst, t, inst.calls[t]);
    if inst.refill.Some? && inst.refill.value.notify == n {
      assert inst'.calls[u].removed == Some(n);
    } else {
      var v :| 0 <= v < |inst.calls| && inst.calls[v].Notifying? && inst.calls[v].removed == Some(n);
      assert inst'.calls[v] == inst.calls[v];
    }
  }

  lemma {:induction false} OthersKeepWaiter(cfg: Config, s: State, inst: Inst, step: Step, t: nat, n: nat)
    requires OneLeader(inst) && OfCall(step) && !step.Leave? && !step.Notify?
    requires InstEnabled(cfg, s.now, inst, step) && !(step.Cancel? && step.t == t)
    requires t < |inst.calls| && inst.calls[t] == Waiting(n) && !Forgotten(inst, n)
    ensures var inst' := InstEffect(cfg, s, inst, step).inst;
            t < |inst'.calls| && inst'.calls[t] == Waiting(n) && !Forgotten(inst', n)
  {
    var inst' := InstEffect(cfg, s, inst, step).inst;
    OneCallMoves(cfg, s, inst, step);
    WaiterDoesNotAct(cfg, s.now, inst, step, t);
    assert CallFits(inst, t, inst.calls[t]);
    if inst.refill.Some? {
      EntryStays(cfg, s, inst, step);
    }
    if !(inst.refill.Some? && inst.refill.value.notify == n) {
      var v :| 0 <= v < |inst.calls| && inst.calls[v].Notifying? && inst.calls[v].removed == Some(n);
      assert inst'.calls[v] == inst.calls[v];
    }
  }

  lemma {:induction false} EntryStays(cfg: Config, s: State, inst: Inst, step: Step)
    requires OfCall(step) && !step.Leave? && InstEnabled(cfg, s.now, inst, step) && inst.refill.Some?
    ensures InstEffect(cfg, s, inst, step).inst.refill == inst.refill
  {
  }

  lemma {:induction false} EffectReleases(cfg: Config, s: State, inst: Inst, step: Step, t: nat, n: nat)
    requires OneLeader(inst) && !Global(step) && InstEnabled(cfg, s.now, inst, step)
    requires !step.Crash? && !(step.Cancel? && step.t == t)
    requires t < |inst.calls| && inst.calls[t] == Waiting(n) && !Forgotten(inst, n)
    ensures KeptOrReleased(inst, InstEffect(cfg, s, inst, step).inst, step, t, n)
  {
    if step.Notify? {
      NotifyReleases(s, inst, step.t, t, n);
    } else if step.Leave? {
      LeaveKeepsWaiter(s, inst, step.t, t, n);
    } else if OfCall(step) {
      OthersKeepWaiter(cfg, s, inst, step, t, n);
    } else {
      BackgroundLeavesCalls(cfg, s, inst, step);
    }
  }

  /** Over every interleaving, whenever it registered: as long as its Notify will still be used, a registered call
      stays registered until the very step that uses it, after success or error of the lease, and that step sends it
      back to the head of its loop. */
  lemma {:induction false} WaitersAreReleased(cfg: Config, s: State, step: Step, t: nat, n: nat)
    requires Reachable(cfg, s) && !Global(step) && Enabled(cfg, s, step) && Waits(s, step.i, t, n)
    requires !step.Crash? && step != Cancel(step.i, t) && !Forgotten(s.insts[step.i], n)
    ensures KeptOrReleased(s.insts[step.i], Apply(cfg, s, step).insts[step.i], step, t, n)
  {
    FitsReachable(cfg, s);
    EffectReleases(cfg, s, s.insts[step.i], step, t, n);
  }

  lemma {:induction false} RunsPrepend(cfg: Config, s: State, step: Step, rest: seq<Step>)
    requires Enabled(cfg, s, step) && Runs(cfg, Apply(cfg, s, step), rest)
    ensures Runs(cfg, s, [step] + rest) && After(cfg, s, [step] + rest) == After(cfg, Apply(cfg, s, step), rest)
    decreases |rest|
  {
    var steps := [step] + rest;
    if rest == [] {
      assert steps[..0] == [] && steps == [step];
      assert Runs(cfg, s, steps[..0]) && After(cfg, s, steps[..0]) == s;
    } else {
      var n := |rest| - 1;
      assert steps[..|steps| - 1] == [step] + rest[..n];
      RunsPrepend(cfg, s, step, rest[..n]);
    }
  }

  /** Call `u` of instance `i` is going to use Notify `n`, sooner or later. */
  predicate WillUse(c: Call, n: nat) {
    (Leads(c) && c.n == n) || (c.Notifying? && c.removed == Some(n))
  }

  /** What is left to do for it, if its lease fails. */
  function Remaining(i: nat, u: nat, c: Call): seq<Step> {
    match c
    case Leading(_) => [Send(i, u), Abort(i, u), Leave(i, u), Notify(i, u)]
    case Requested(_, _) => [Abort(i, u), Leave(i, u), Notify(i, u)]
    case Replied(_, _, _, _, _) => [Abort(i, u), Leave(i, u), Notify(i, u)]
    case Leaving(_, _) => [Leave(i, u), Notify(i, u)]
    case Notifying(_, _) => [Notify(i, u)]
    case _ => []
  }

  /** The next of the remaining steps, at its instance. */
  lemma {:induction false} NextAct(cfg: Config, s: State, inst: Inst, step: Step, t: nat, u: nat, n: nat)
    requires OneLeader(inst) && !Global(step) && t < |inst.calls| && inst.calls[t] == Waiting(n)
    requires u < |inst.calls| && WillUse(inst.calls[u], n)
    requires step == Remaining(step.i, u, inst.calls[u])[0]
    ensures InstEnabled(cfg, s.now, inst, step)
    ensures var inst' := InstEffect(cfg, s, inst, step).inst;
      && |inst'.calls| == |inst.calls|
      && (inst.calls[u].Notifying? ==> inst'.calls[t] == Checking)
      && (!inst.calls[u].Notifying? ==>
            && inst'.calls[t] == Waiting(n) && WillUse(inst'.calls[u], n)
            && Remaining(step.i, u, inst.calls[u])[1..] == Remaining(step.i, u, inst'.calls[u]))
  {
    assert CallFits(inst, u, inst.calls[u]);
    if inst.calls[u].Notifying? {
      NotifyWakes(s, inst, u, t, n);
    } else if inst.calls[u].Leaving? {
      LeaveFits(s, inst, u);
    } else if inst.calls[u].Leading? {
      assert InstEffect(cfg, s, inst, step).inst.calls[u] == Requested(n, s.now);
    } else {
      assert InstEffect(cfg, s, inst, step).inst.calls[u] == Leaving(n, Broken);
    }
  }

  lemma {:induction false} NextMove(cfg: Config, s: State, i: nat, t: nat, u: nat, n: nat) returns (step: Step)
    requires AllOneLeader(s) && Waits(s, i, t, n) && u < |s.insts[i].calls| && WillUse(s.insts[i].calls[u], n)
    ensures Remaining(i, u, s.insts[i].calls[u]) != [] && step == Remaining(i, u, s.insts[i].calls[u])[0]
    ensures Enabled(cfg, s, step)
    ensures var s' := Apply(cfg, s, step);
      && AllOneLeader(s') && i < |s'.insts| && t < |s'.insts[i].calls| == |s.insts[i].calls|
      && (s.insts[i].calls[u].Notifying? ==> s'.insts[i].calls[t] == Checking)
      && (!s.insts[i].calls[u].Notifying? ==>
            && Waits(s', i, t, n) && WillUse(s'.insts[i].calls[u], n)
            && Remaining(i, u, s.insts[i].calls[u])[1..] == Remaining(i, u, s'.insts[i].calls[u]))
  {
    step := Remaining(i, u, s.insts[i].calls[u])[0];
    NextAct(cfg, s, s.insts[i], step, t, u, n);
    StepFits(cfg, s, step);
  }

  lemma NotifyWakes(s: State, inst: Inst, u: nat, t: nat, n: nat)
    requires u < |inst.calls| && inst.calls[u].Notifying? && inst.calls[u].removed == Some(n)
    requires t < |inst.calls| && inst.calls[t] == Waiting(n)
    ensures NotifyEffect(s, inst, u).inst.calls[t] == Checking
  {
  }

  lemma {:induction false} FinishingReleases(cfg: Config, s: State, i: nat, t: nat, u: nat, n: nat)
    requires AllOneLeader(s) && Waits(s, i, t, n) && u < |s.insts[i].calls| && WillUse(s.insts[i].calls[u], n)
    ensures var steps := Remaining(i, u, s.insts[i].calls[u]);
            && Runs(cfg, s, steps) && Undisturbed(steps, i, t)
            && i < |After(cfg, s, steps).insts| && t < |After(cfg, s, steps).insts[i].calls|
            && After(cfg, s, steps).insts[i].calls[t] == Checking
    decreases |Remaining(i, u, s.insts[i].calls[u])|
  {
    var steps := Remaining(i, u, s.insts[i].calls[u]);
    var step := NextMove(cfg, s, i, t, u, n);
    var s' := Apply(cfg, s, step);
    assert steps == [step] + steps[1..];
    if !s.insts[i].calls[u].Notifying? {
      FinishingReleases(cfg, s', i, t, u, n);
    } else {
      assert steps[1..] == [] && Runs(cfg, s', steps[1..]) && After(cfg, s', steps[1..]) == s';
    }
    RunsPrepend(cfg, s, step, steps[1..]);
  }

  /** The steps lead call `t` of instance `i` out of its wait. */
  ghost predicate LeadsOut(cfg: Config, s: State, steps: seq<Step>, i: nat, t: nat, n: nat) {
    Runs(cfg, s, steps) && Undisturbed(steps, i, t) && !Waits(After(cfg, s, steps), i, t, n)
  }

  /** Exactly which registered calls can still be woken: those whose Notify is still that of the refills entry, or is
      in the hands of a leader about to use it. */
  lemma {:induction false} WakeableUnlessForgotten(cfg: Config, s: State, i: nat, t: nat, n: nat)
    requires Reachable(cfg, s) && Waits(s, i, t, n)
    ensures (exists steps :: LeadsOut(cfg, s, steps, i, t, n)) <==> !Forgotten(s.insts[i], n)
  {
    FitsReachable(cfg, s);
    var inst := s.insts[i];
    assert CallFits(inst, t, inst.calls[t]);
    if Forgotten(inst, n) {
      forall steps | Runs(cfg, s, steps) && Undisturbed(steps, i, t) ensures Waits(After(cfg, s, steps), i, t, n) {
        MissedWakeUp(cfg, s, steps, i, t);
      }
    } else {
      var u := Waker(inst, t, n);
      FinishingReleases(cfg, s, i, t, u, n);
      assert LeadsOut(cfg, s, Remaining(i, u, inst.calls[u]), i, t, n);
    }
  }

  lemma Waker(inst: Inst, t: nat, n: nat) returns (u: nat)
    requires OneLeader(inst) && t < |inst.calls| && inst.calls[t] == Waiting(n) && !Forgotten(inst, n)
    ensures u < |inst.calls| && WillUse(inst.calls[u], n)
  {
    assert CallFits(inst, t, inst.calls[t]);
    if inst.refill.Some? && inst.refill.value.notify == n {
      u := inst.refill.value.leader;
      assert CallFits(inst, u, inst.calls[u]);
    } else {
      u :| 0 <= u < |inst.calls| && inst.calls[u].Notifying? && inst.calls[u].removed == Some(n);
    }
  }
}
