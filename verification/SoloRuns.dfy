/** A call that runs alone, as the class in Store.dfy runs it, is a run of the step system: what is proved of all
    runs holds of it. */
module SoloRuns {
  import opened Basics
  import opened RedisScripts
  import opened StoreRules
  import opened Protocol
  import opened Solo
  import opened Ledger
  import opened Safety
  import opened Flight

  lemma RunsExtend(cfg: Config, start: State, steps: seq<Step>, step: Step)
    requires Runs(cfg, start, steps) && Enabled(cfg, After(cfg, start, steps), step)
    ensures Runs(cfg, start, steps + [step])
    ensures After(cfg, start, steps + [step]) == Apply(cfg, After(cfg, start, steps), step)
  {
    assert (steps + [step])[..|steps + [step]| - 1] == steps;
  }

  /** A run from `s` to `s'` on which exactly the answers in `told` are given, in this order. */
  ghost predicate Path(cfg: Config, s: State, s': State, told: seq<Told>) {
    exists steps :: Runs(cfg, s, steps) && After(cfg, s, steps) == s' && TellsAll(cfg, s, steps) == told
  }

  lemma PathOf(cfg: Config, s: State, steps: seq<Step>)
    requires Runs(cfg, s, steps)
    ensures Path(cfg, s, After(cfg, s, steps), TellsAll(cfg, s, steps))
  {
  }

  lemma {:induction false} PathStep(cfg: Config, s: State, m: State, step: Step, told: seq<Told>)
    requires Path(cfg, s, m, told) && Enabled(cfg, m, step)
    ensures Path(cfg, s, Apply(cfg, m, step), told + Tells(cfg, m, step))
  {
    var steps :| Runs(cfg, s, steps) && After(cfg, s, steps) == m && TellsAll(cfg, s, steps) == told;
    RunsExtend(cfg, s, steps, step);
    assert (steps + [step])[..|steps + [step]| - 1] == steps;
    PathOf(cfg, s, steps + [step]);
  }

  lemma {:induction false} PathAlong(cfg: Config, s: State, m: State, told: seq<Told>, steps: seq<Step>)
    requires Path(cfg, s, m, told) && Runs(cfg, m, steps)
    ensures Path(cfg, s, After(cfg, m, steps), told + TellsAll(cfg, m, steps))
    decreases |steps|
  {
    if steps == [] {
      assert told + [] == told;
    } else {
      var front, last := steps[..|steps| - 1], steps[|steps| - 1];
      PathAlong(cfg, s, m, told, front);
      PathStep(cfg, s, After(cfg, m, front), last, told + TellsAll(cfg, m, front));
      var tell := Tells(cfg, After(cfg, m, front), last);
      assert told + TellsAll(cfg, m, front) + tell == told + (TellsAll(cfg, m, front) + tell);
    }
  }

  lemma {:induction false} PathJoin(cfg: Config, s: State, m: State, s': State, told: seq<Told>, more: seq<Told>)
    requires Path(cfg, s, m, told) && Path(cfg, m, s', more)
    ensures Path(cfg, s, s', told + more)
  {
    var steps :| Runs(cfg, m, steps) && After(cfg, m, steps) == s' && TellsAll(cfg, m, steps) == more;
    PathAlong(cfg, s, m, told, steps);
  }

  lemma {:induction false} PathReaches(cfg: Config, s: State, s': State, told: seq<Told>)
    requires Reachable(cfg, s) && Path(cfg, s, s', told)
    ensures Reachable(cfg, s')
  {
    var start, before :| Init(start) && Runs(cfg, start, before) && After(cfg, start, before) == s;
    PathOf(cfg, start, before);
    PathJoin(cfg, start, s, s', TellsAll(cfg, start, before), told);
  }

  function ToldOf(i: nat, t: nat, answer: Option<Answer>): seq<Told> {
    if answer.Some? then [Told(i, t, answer.value)] else []
  }

  lemma {:induction false} PathHere(cfg: Config, s: State)
    ensures Path(cfg, s, s, [])
  {
    PathOf(cfg, s, []);
  }

  lemma {:induction false} Go(cfg: Config, s: State, step: Step) returns (s': State)
    requires Reachable(cfg, s) && Enabled(cfg, s, step)
    ensures s' == Apply(cfg, s, step) && Reachable(cfg, s')
  {
    s' := Apply(cfg, s, step);
    PathHere(cfg, s);
    PathStep(cfg, s, s, step, []);
    PathReaches(cfg, s, s', [] + Tells(cfg, s, step));
  }

  lemma Wait(cfg: Config, s: State, until: int) returns (s': State)
    requires Reachable(cfg, s) && s.now <= until
    ensures s' == s.(now := until) && Reachable(cfg, s')
  {
    s' := Go(cfg, s, Tick(until - s.now));
  }

  /** A step of instance `i` with its effect spelled out. */
  lemma Do(cfg: Config, s: State, step: Step, i: nat, e: Effect) returns (s': State)
    requires Reachable(cfg, s) && !Global(step) && Enabled(cfg, s, step) && step.i == i
    requires InstEffect(cfg, s, s.insts[i], step) == e
    ensures Reachable(cfg, s') && s' == State(s.now, e.slot, s.insts[i := e.inst], s.log + e.events)
  {
    s' := Go(cfg, s, step);
  }

  /** The same two at the end of a path without answers. */
  lemma {:induction false} WaitOn(cfg: Config, from: State, s: State, until: int) returns (s': State)
    requires Path(cfg, from, s, []) && s.now <= until
    ensures Path(cfg, from, s', []) && s' == s.(now := until)
  {
    s' := s.(now := until);
    PathStep(cfg, from, s, Tick(until - s.now), []);
  }

  lemma {:induction false} DoOn(cfg: Config, from: State, s: State, step: Step, i: nat, e: Effect) returns (s': State)
    requires Path(cfg, from, s, []) && OfCall(step) && Enabled(cfg, s, step) && step.i == i
    requires InstEffect(cfg, s, s.insts[i], step) == e
    ensures Path(cfg, from, s', ToldOf(i, step.t, e.answer))
    ensures s' == State(s.now, e.slot, s.insts[i := e.inst], s.log + e.events)
  {
    s' := Apply(cfg, s, step);
    PathStep(cfg, from, s, step, []);
    assert [] + Tells(cfg, s, step) == ToldOf(i, step.t, e.answer);
  }

  predicate Has(s: State, i: nat, t: nat) {
    i < |s.insts| && t < |s.insts[i].calls|
  }

  /** From an empty call slot to the verdict of `check`. */
  lemma {:induction false} StartOn(cfg: Config, from: State, s: State, i: nat, t: nat, check: int) returns (s': State)
    requires Path(cfg, from, s, []) && Has(s, i, t) && s.now <= check
    requires s.insts[i].calls[t].Idle? && s.insts[i].phase != Crashed
    ensures var v := StoreRules.Check(s.insts[i].bucket, false, check);
            Path(cfg, from, s', if v.Reject? then [Told(i, t, Exhausted(v.after))] else [])
    ensures var inst := s.insts[i];
            var v := StoreRules.Check(inst.bucket, false, check);
            var next := if v.Usable? then Past(|inst.inserted|) else if v.NeedsLease? then Claiming else Idle;
            s' == s.(now := check, insts := s.insts[i := SetCall(StartedAt(inst, t, s.now), t, next)])
  {
    var inst := StartedAt(s.insts[i], t, s.now);
    var checking := SetCall(inst, t, Checking);
    var m := DoOn(cfg, from, s, Spawn(i, t), i, Effect(checking, s.slot, [], None));
    m := WaitOn(cfg, from, m, check);
    var e := CheckEffect(m, checking, t, false);
    CheckedAlone(m, inst, t);
    s' := DoOn(cfg, from, m, Protocol.Check(i, t, false), i, e);
    assert s.insts[i := checking][i := e.inst] == s.insts[i := e.inst];
    assert s.log + [] + [] == s.log;
  }

  lemma {:induction false} StartCall(cfg: Config, s: State, i: nat, t: nat, check: int) returns (s': State)
    requires Reachable(cfg, s) && Has(s, i, t) && s.now <= check
    requires s.insts[i].calls[t].Idle? && s.insts[i].phase != Crashed
    ensures Reachable(cfg, s')
    ensures var inst := s.insts[i];
            var v := StoreRules.Check(inst.bucket, false, check);
            var next := if v.Usable? then Past(|inst.inserted|) else if v.NeedsLease? then Claiming else Idle;
            s' == s.(now := check, insts := s.insts[i := SetCall(StartedAt(inst, t, s.now), t, next)])
  {
    PathHere(cfg, s);
    s' := StartOn(cfg, s, s, i, t, check);
    var v := StoreRules.Check(s.insts[i].bucket, false, check);
    PathReaches(cfg, s, s', if v.Reject? then [Told(i, t, Exhausted(v.after))] else []);
  }

  lemma CheckedAlone(s: State, inst: Inst, t: nat)
    requires t < |inst.calls|
    ensures var e := CheckEffect(s, SetCall(inst, t, Checking), t, false);
            var v := StoreRules.Check(inst.bucket, false, s.now);
            var next := if v.Usable? then Past(|inst.inserted|) else if v.NeedsLease? then Claiming else Idle;
            e.inst == SetCall(inst, t, next) && e.slot == s.slot && e.events == []
  {
    var e := CheckEffect(s, SetCall(inst, t, Checking), t, false);
    assert inst.calls[t := Checking][t := e.inst.calls[t]] == inst.calls[t := e.inst.calls[t]];
  }

  /** The instance while its call `t` waits for Redis. */
  function Asking(inst: Inst, t: nat, started: int, now: int): Inst
    requires t < |inst.calls|
  {
    inst.(calls := inst.calls[t := Requested(inst.nextNotify, started)], refill := Some(Refill(inst.nextNotify, t)),
          nextNotify := inst.nextNotify + 1,
          raced := inst.raced || (inst.bucket.Some? && inst.bucket.value.Usable(now)))
  }

  /** From a claim that finds no entry to the request on its way. */
  lemma {:induction false} ClaimOn(cfg: Config, from: State, s: State, i: nat, t: nat, started: int)
    returns (s': State)
    requires Path(cfg, from, s, []) && Has(s, i, t) && s.now <= started
    requires s.insts[i].calls[t].Claiming? && s.insts[i].refill.None?
    ensures Path(cfg, from, s', [])
    ensures s' == s.(now := started, insts := s.insts[i := Asking(s.insts[i], t, started, s.now)])
  {
    var inst := s.insts[i];
    var m := DoOn(cfg, from, s, Claim(i, t), i, ClaimEffect(s, inst, t));
    m := WaitOn(cfg, from, m, started);
    var asking := Asking(inst, t, started, s.now);
    TwoMoves(inst.calls, t, Leading(inst.nextNotify), asking.calls[t]);
    s' := DoOn(cfg, from, m, Send(i, t), i, Effect(asking, s.slot, [], None));
    assert s.insts[i := m.insts[i]][i := asking] == s.insts[i := asking];
    assert s.log + [] + [] == s.log;
  }

  lemma {:induction false} ClaimAndSend(cfg: Config, s: State, i: nat, t: nat, started: int) returns (s': State)
    requires Reachable(cfg, s) && Has(s, i, t) && s.now <= started
    requires s.insts[i].calls[t].Claiming? && s.insts[i].refill.None?
    ensures Reachable(cfg, s')
    ensures s' == s.(now := started, insts := s.insts[i := Asking(s.insts[i], t, started, s.now)])
  {
    PathHere(cfg, s);
    s' := ClaimOn(cfg, s, s, i, t, started);
    PathReaches(cfg, s, s', []);
  }

  function Executed(cfg: Config, s: State, inst: Inst, t: nat, c: Clock): Effect
    requires t < |inst.calls| && inst.calls[t].Requested?
  {
    ExecuteEffect(cfg, s.(now := c.executed), inst, t)
  }

  function Delivered(cfg: Config, s: State, inst: Inst, t: nat, c: Clock): Effect
    requires t < |inst.calls| && inst.calls[t].Requested?
    requires LeaseScript(s.slot, c.executed, cfg.policy).reply.Some?
  {
    var e := Executed(cfg, s, inst, t, c);
    DeliverEffect(s.(now := c.born, slot := e.slot), e.inst, t, c.received, c.born)
  }

  /** The script run and the reply dealt with. */
  lemma {:induction false} DeliverOn(cfg: Config, from: State, s: State, i: nat, t: nat, c: Clock) returns (s': State)
    requires Path(cfg, from, s, []) && Has(s, i, t)
    requires c.Ordered() && s.now == c.started && c.born - c.received <= cfg.gap
    requires s.insts[i].calls[t].Requested?
    requires LeaseScript(s.slot, c.executed, cfg.policy).reply.Some?
    ensures Path(cfg, from, s', [])
    ensures var e, d := Executed(cfg, s, s.insts[i], t, c), Delivered(cfg, s, s.insts[i], t, c);
            s' == State(c.born, e.slot, s.insts[i := d.inst], s.log + e.events + d.events)
  {
    var inst := s.insts[i];
    var e, d := Executed(cfg, s, inst, t, c), Delivered(cfg, s, inst, t, c);
    var m := WaitOn(cfg, from, s, c.executed);
    m := DoOn(cfg, from, m, Execute(i, t), i, e);
    m := WaitOn(cfg, from, m, c.born);
    s' := Delivery(cfg, from, m, i, t, c.received, c.born);
    assert s.insts[i := e.inst][i := d.inst] == s.insts[i := d.inst];
  }

  lemma Delivery(cfg: Config, from: State, s: State, i: nat, t: nat, received: int, born: int) returns (s': State)
    requires Path(cfg, from, s, []) && Has(s, i, t) && s.now == born
    requires InstEnabled(cfg, s.now, s.insts[i], Deliver(i, t, received, born))
    ensures Path(cfg, from, s', [])
    ensures var e := DeliverEffect(s, s.insts[i], t, received, born);
            s' == State(s.now, s.slot, s.insts[i := e.inst], s.log + e.events)
  {
    s' := DoOn(cfg, from, s, Deliver(i, t, received, born), i, DeliverEffect(s, s.insts[i], t, received, born));
  }

  lemma {:induction false} ExecuteAndDeliver(cfg: Config, s: State, i: nat, t: nat, c: Clock) returns (s': State)
    requires Reachable(cfg, s) && Has(s, i, t) && c.Ordered() && s.now == c.started && c.born - c.received <= cfg.gap
    requires s.insts[i].calls[t].Requested?
    requires LeaseScript(s.slot, c.executed, cfg.policy).reply.Some?
    ensures Reachable(cfg, s')
    ensures var e, d := Executed(cfg, s, s.insts[i], t, c), Delivered(cfg, s, s.insts[i], t, c);
            s' == State(c.born, e.slot, s.insts[i := d.inst], s.log + e.events + d.events)
  {
    PathHere(cfg, s);
    s' := DeliverOn(cfg, s, s, i, t, c);
    PathReaches(cfg, s, s', []);
  }

  /** What they amount to: the lease of a call alone. */
  lemma {:induction false} DeliveredIsLease(cfg: Config, s: State, inst: Inst, t: nat, c: Clock)
    requires t < |inst.calls| && inst.calls[t].Requested? && inst.calls[t].started == c.started
    requires LeaseScript(s.slot, c.executed, cfg.policy).reply.Some?
    ensures var spec := Solo.Lease(inst.bucket, s.slot, cfg.policy, Works, c);
            var d := Delivered(cfg, s, inst, t, c).inst;
            && Executed(cfg, s, inst, t, c).slot == spec.slot
            && d.bucket == spec.bucket && d.refill == inst.refill && d.phase == inst.phase
            && |d.calls| == |inst.calls| && d.calls[t].Leaving? && d.calls == inst.calls[t := d.calls[t]]
            && (spec.result.Ready? ==> d.calls[t].outcome.Leased? && d.since == c.born)
            && (!spec.result.Ready? ==>
                  && spec.result.Refused?
                  && d.calls[t].outcome.Refused? && d.calls[t].outcome.after == spec.result.after)
  {
    var e := Executed(cfg, s, inst, t, c);
    var d := Delivered(cfg, s, inst, t, c);
    assert inst.calls[t := e.inst.calls[t]][t := d.inst.calls[t]] == inst.calls[t := d.inst.calls[t]];
  }

  function Answered(o: Outcome): Option<Answer> {
    match o
    case Leased(_) => None
    case Refused(after, _, _, _) => Some(Exhausted(after))
    case Broken => Some(CacheError)
  }

  lemma {:induction false} NobodyToWake(calls: seq<Call>, n: nat)
    requires forall u :: 0 <= u < |calls| ==> calls[u] != Waiting(n)
    ensures Wake(calls, n) == calls
  {
    if calls != [] {
      NobodyToWake(calls[..|calls| - 1], n);
    }
  }

  /** The instance after its call `t` has left `ensure_refilled`. */
  function Left(inst: Inst, t: nat): Inst
    requires t < |inst.calls| && inst.calls[t].Leaving?
  {
    var o := inst.calls[t].outcome;
    inst.(calls := inst.calls[t := if o.Leased? then Past(o.epoch) else Idle], refill := None)
  }

  /** The instance between removing its entry and notifying. */
  function Parting(inst: Inst, t: nat): Inst
    requires t < |inst.calls| && inst.calls[t].Leaving? && inst.refill.Some?
  {
    inst.(calls := inst.calls[t := Notifying(Some(inst.refill.value.notify), inst.calls[t].outcome)], refill := None)
  }

  lemma QuietNotify(s: State, inst: Inst, t: nat)
    requires t < |inst.calls| && inst.calls[t].Leaving? && inst.refill.Some?
    requires forall u :: 0 <= u < |inst.calls| ==> inst.calls[u] != Waiting(inst.refill.value.notify)
    ensures NotifyEffect(s, Parting(inst, t), t) == Effect(Left(inst, t), s.slot, [], Answered(inst.calls[t].outcome))
  {
    NobodyToWake(Parting(inst, t).calls, inst.refill.value.notify);
    TwoMoves(inst.calls, t, Parting(inst, t).calls[t], Left(inst, t).calls[t]);
  }

  lemma TwoMoves(calls: seq<Call>, t: nat, a: Call, b: Call)
    requires t < |calls|
    ensures calls[t := a][t := b] == calls[t := b]
  {
  }

  /** The entry removed and nobody there to be woken. */
  lemma {:induction false} LeaveOn(cfg: Config, from: State, s: State, i: nat, t: nat)
    returns (s': State, answer: Option<Answer>)
    requires Path(cfg, from, s, []) && Has(s, i, t)
    requires var inst := s.insts[i];
      && inst.calls[t].Leaving? && inst.refill.Some?
      && forall u :: 0 <= u < |inst.calls| ==> inst.calls[u] != Waiting(inst.refill.value.notify)
    ensures Path(cfg, from, s', ToldOf(i, t, answer))
    ensures s' == s.(insts := s.insts[i := Left(s.insts[i], t)])
    ensures answer == Answered(s.insts[i].calls[t].outcome)
  {
    var inst := s.insts[i];
    var parting := Parting(inst, t);
    var m := DoOn(cfg, from, s, Leave(i, t), i, Effect(parting, s.slot, [], None));
    QuietNotify(m, inst, t);
    answer := Answered(inst.calls[t].outcome);
    s' := DoOn(cfg, from, m, Notify(i, t), i, Effect(Left(inst, t), s.slot, [], answer));
    assert s.insts[i := parting][i := Left(inst, t)] == s.insts[i := Left(inst, t)];
    assert s.log + [] + [] == s.log;
  }

  lemma {:induction false} LeaveAndNotify(cfg: Config, s: State, i: nat, t: nat)
    returns (s': State, answer: Option<Answer>)
    requires Reachable(cfg, s) && Has(s, i, t)
    requires var inst := s.insts[i];
      && inst.calls[t].Leaving? && inst.refill.Some?
      && forall u :: 0 <= u < |inst.calls| ==> inst.calls[u] != Waiting(inst.refill.value.notify)
    ensures Reachable(cfg, s')
    ensures s' == s.(insts := s.insts[i := Left(s.insts[i], t)])
    ensures answer == Answered(s.insts[i].calls[t].outcome)
  {
    PathHere(cfg, s);
    s', answer := LeaveOn(cfg, s, s, i, t);
    PathReaches(cfg, s, s', ToldOf(i, t, answer));
  }

  /** The deadline test and the token, or the removal of an expired bucket. */
  lemma {:induction false} Finish(cfg: Config, from: State, s: State, i: nat, t: nat)
    returns (s': State, answer: Answer)
    requires Path(cfg, from, s, []) && Has(s, i, t) && s.insts[i].calls[t].Past?
    requires s.insts[i].bucket.Some? ==> s.insts[i].since <= s.now
    ensures Path(cfg, from, s', [Told(i, t, answer)])
    ensures |s'.insts| == |s.insts| && s'.slot == s.slot && s'.now == s.now
    ensures var spending := Spend(s.insts[i].bucket, s.now);
            && s'.insts[i].bucket == (if spending.Outdated? then None
                                      else if spending.Spent? then Some(spending.bucket) else s.insts[i].bucket)
            && answer == (if spending.Spent? then Admitted(spending.bucket.tokens) else Admitted(0))
            && s'.insts[i].calls == s.insts[i].calls[t := Idle] && s'.insts[i].refill == s.insts[i].refill
            && s'.insts == s.insts[i := s'.insts[i]]
  {
    var e := ConsumeEffect(s, s.insts[i], t, s.now);
    var m := DoOn(cfg, from, s, Protocol.Consume(i, t, s.now), i, e);
    if Spend(s.insts[i].bucket, s.now).Outdated? {
      s', answer := RemoveNow(cfg, from, m, i, t);
      TwoMoves(s.insts[i].calls, t, Removing(s.insts[i].calls[t].epoch), Idle);
      assert s.insts[i := e.inst][i := s'.insts[i]] == s.insts[i := s'.insts[i]];
    } else {
      s', answer := m, e.answer.value;
    }
  }

  lemma RemoveNow(cfg: Config, from: State, s: State, i: nat, t: nat) returns (s': State, answer: Answer)
    requires Path(cfg, from, s, []) && Has(s, i, t) && s.insts[i].calls[t].Removing?
    ensures Path(cfg, from, s', [Told(i, t, answer)])
    ensures |s'.insts| == |s.insts| && s'.slot == s.slot && s'.now == s.now
    ensures s'.insts[i].bucket == None && s'.insts[i].refill == s.insts[i].refill
    ensures s'.insts[i].calls == s.insts[i].calls[t := Idle] && s'.insts == s.insts[i := s'.insts[i]]
    ensures answer == Admitted(0)
  {
    var e := InstEffect(cfg, s, s.insts[i], Remove(i, t));
    s' := DoOn(cfg, from, s, Remove(i, t), i, e);
    answer := e.answer.value;
  }

  /** No reply comes: Redis refused the script, was not reached, or its reply was lost. */
  lemma {:induction false} NoReply(cfg: Config, from: State, s: State, i: nat, t: nat, link: Link, c: Clock)
    returns (s': State)
    requires Path(cfg, from, s, []) && Has(s, i, t) && c.Ordered() && s.now == c.started
    requires s.insts[i].calls[t].Requested?
    requires Solo.Lease(s.insts[i].bucket, s.slot, cfg.policy, link, c).result.Broken?
    ensures Path(cfg, from, s', []) && s'.now == c.executed
    ensures s'.slot == Solo.Lease(s.insts[i].bucket, s.slot, cfg.policy, link, c).slot
    ensures s'.insts == s.insts[i := SetCall(s.insts[i], t, Leaving(s.insts[i].calls[t].n, Outcome.Broken))]
  {
    if link.Unreachable? {
      s' := WaitOn(cfg, from, s, c.executed);
      s' := DoOn(cfg, from, s', Abort(i, t), i, AbortEffect(s', s.insts[i], t));
    } else {
      s' := NoReplyFromScript(cfg, from, s, i, t, c);
    }
  }

  lemma {:induction false} NoReplyFromScript(cfg: Config, from: State, s: State, i: nat, t: nat, c: Clock)
    returns (s': State)
    requires Path(cfg, from, s, []) && Has(s, i, t) && c.Ordered() && s.now == c.started
    requires s.insts[i].calls[t].Requested?
    ensures Path(cfg, from, s', []) && s'.now == c.executed
    ensures s'.slot == LeaseScript(s.slot, c.executed, cfg.policy).slot
    ensures s'.insts == s.insts[i := SetCall(s.insts[i], t, Leaving(s.insts[i].calls[t].n, Outcome.Broken))]
  {
    var inst := s.insts[i];
    var e := Executed(cfg, s, inst, t, c);
    s' := WaitOn(cfg, from, s, c.executed);
    s' := DoOn(cfg, from, s', Execute(i, t), i, e);
    if e.inst.calls[t].Replied? {
      s' := LoseReply(cfg, from, s', i, t);
      TwoMoves(inst.calls, t, e.inst.calls[t], s'.insts[i].calls[t]);
      assert s.insts[i := e.inst][i := s'.insts[i]] == s.insts[i := s'.insts[i]];
    }
  }

  lemma LoseReply(cfg: Config, from: State, s: State, i: nat, t: nat) returns (s': State)
    requires Path(cfg, from, s, []) && Has(s, i, t) && s.insts[i].calls[t].Replied?
    ensures Path(cfg, from, s', []) && s'.now == s.now && s'.slot == s.slot
    ensures s'.insts == s.insts[i := SetCall(s.insts[i], t, Leaving(s.insts[i].calls[t].n, Outcome.Broken))]
  {
    s' := DoOn(cfg, from, s, Abort(i, t), i, AbortEffect(s, s.insts[i], t));
  }

  /** From the request on its way to the end of `lease`. */
  lemma {:induction false} AskedAlone(cfg: Config, from: State, s: State, i: nat, t: nat, link: Link, c: Clock)
    returns (s': State)
    requires Path(cfg, from, s, []) && Has(s, i, t)
    requires c.Ordered() && s.now == c.started && c.born - c.received <= cfg.gap
    requires s.insts[i].calls[t].Requested? && s.insts[i].calls[t].started == c.started
    ensures Path(cfg, from, s', [])
    ensures s'.now <= c.born && |s'.insts| == |s.insts| && s'.insts == s.insts[i := s'.insts[i]]
    ensures var inst, inst' := s.insts[i], s'.insts[i];
            var spec := Solo.Lease(inst.bucket, s.slot, cfg.policy, link, c);
            && s'.slot == spec.slot && inst'.bucket == spec.bucket && inst'.refill == inst.refill
            && t < |inst'.calls| && inst'.calls == inst.calls[t := inst'.calls[t]] && inst'.calls[t].Leaving?
            && (spec.result.Ready? ==> inst'.calls[t].outcome.Leased? && inst'.since <= c.born)
            && (spec.result.Refused? ==>
                  inst'.calls[t].outcome.Refused? && inst'.calls[t].outcome.after == spec.result.after)
            && (spec.result.Broken? ==> inst'.calls[t].outcome == Outcome.Broken)
  {
    if Solo.Lease(s.insts[i].bucket, s.slot, cfg.policy, link, c).result.Broken? {
      s' := NoReply(cfg, from, s, i, t, link, c);
    } else {
      DeliveredIsLease(cfg, s, s.insts[i], t, c);
      s' := DeliverOn(cfg, from, s, i, t, c);
    }
  }

  /** From a check that asks for a lease to the end of `lease`. */
  lemma {:induction false} LeaseAlone(cfg: Config, from: State, s: State, i: nat, t: nat, link: Link, c: Clock)
    returns (s': State)
    requires Path(cfg, from, s, []) && Has(s, i, t)
    requires c.Ordered() && s.now <= c.started && c.born - c.received <= cfg.gap
    requires s.insts[i].calls[t].Claiming? && s.insts[i].refill.None?
    ensures Path(cfg, from, s', [])
    ensures s'.now <= c.born && |s'.insts| == |s.insts| && s'.insts == s.insts[i := s'.insts[i]]
    ensures var inst, inst' := s.insts[i], s'.insts[i];
            var spec := Solo.Lease(inst.bucket, s.slot, cfg.policy, link, c);
            && s'.slot == spec.slot && inst'.bucket == spec.bucket
            && inst'.refill == Some(Refill(inst.nextNotify, t))
            && t < |inst'.calls| && inst'.calls == inst.calls[t := inst'.calls[t]] && inst'.calls[t].Leaving?
            && (spec.result.Ready? ==> inst'.calls[t].outcome.Leased? && inst'.since <= c.born)
            && (spec.result.Refused? ==>
                  inst'.calls[t].outcome.Refused? && inst'.calls[t].outcome.after == spec.result.after)
            && (spec.result.Broken? ==> inst'.calls[t].outcome == Outcome.Broken)
  {
    var m := ClaimOn(cfg, from, s, i, t, c.started);
    s' := AskedAlone(cfg, from, m, i, t, link, c);
    TwoMoves(s.insts[i].calls, t, m.insts[i].calls[t], s'.insts[i].calls[t]);
  }

  /** No call of the instance waits for the Notify that it will make next. */
  predicate NobodyYet(inst: Inst) {
    forall u :: 0 <= u < |inst.calls| ==> inst.calls[u] != Waiting(inst.nextNotify)
  }

  lemma NobodyWaitsYet(cfg: Config, s: State, i: nat)
    requires Reachable(cfg, s) && i < |s.insts|
    ensures NobodyYet(s.insts[i])
  {
    FitsReachable(cfg, s);
    var inst := s.insts[i];
    assert OneLeader(inst);
    forall u | 0 <= u < |inst.calls| ensures inst.calls[u] != Waiting(inst.nextNotify) {
      assert CallFits(inst, u, inst.calls[u]);
    }
  }

  /** From a check that asks for a lease to the end of `ensure_refilled`. */
  lemma {:induction false} RefillAlone(cfg: Config, from: State, s: State, i: nat, t: nat, link: Link, c: Clock)
    returns (s': State, answer: Option<Answer>)
    requires Path(cfg, from, s, []) && Has(s, i, t) && NobodyYet(s.insts[i])
    requires c.Ordered() && s.now <= c.started && c.born - c.received <= cfg.gap
    requires s.insts[i].calls[t].Claiming? && s.insts[i].refill.None?
    ensures Path(cfg, from, s', ToldOf(i, t, answer))
    ensures s'.now <= c.born && |s'.insts| == |s.insts| && s'.insts == s.insts[i := s'.insts[i]]
    ensures var inst, inst' := s.insts[i], s'.insts[i];
            var spec := Solo.Lease(inst.bucket, s.slot, cfg.policy, link, c);
            && s'.slot == spec.slot && inst'.bucket == spec.bucket && inst'.refill.None?
            && t < |inst'.calls| && inst'.calls == inst.calls[t := inst'.calls[t]]
            && (spec.result.Ready? ==> inst'.calls[t].Past? && answer.None? && inst'.since <= c.born)
            && (spec.result.Refused? ==> inst'.calls[t].Idle? && answer == Some(Exhausted(spec.result.after)))
            && (spec.result.Broken? ==> inst'.calls[t].Idle? && answer == Some(CacheError))
  {
    var m := LeaseAlone(cfg, from, s, i, t, link, c);
    s', answer := LeaveOn(cfg, from, m, i, t);
    TwoMoves(s.insts[i].calls, t, m.insts[i].calls[t], s'.insts[i].calls[t]);
  }

  /** What a call leaves behind: its answer, the bucket and the key as specified, no call and no entry. */
  ghost predicate Concluded(s: State, i: nat, t: nat, s': State, spec: Served)
    requires Has(s, i, t)
  {
    && |s'.insts| == |s.insts| && s'.insts == s.insts[i := s'.insts[i]]
    && s'.insts[i].bucket == spec.bucket && s'.slot == spec.slot
    && s'.insts[i].calls == s.insts[i].calls[t := Idle] && s'.insts[i].refill.None?
  }

  lemma {:induction false} SpendAlone(cfg: Config, from: State, s: State, i: nat, t: nat, sample: int)
    returns (s': State, answer: Answer)
    requires Path(cfg, from, s, []) && Has(s, i, t) && s.now <= sample
    requires s.insts[i].calls[t].Past? && s.insts[i].refill.None?
    requires s.insts[i].bucket.Some? ==> s.insts[i].since <= sample
    ensures Path(cfg, from, s', [Told(i, t, answer)])
    ensures var spec := Conclude(LeaseOnce(Ready, s.insts[i].bucket, s.slot), sample);
            answer == spec.answer && Concluded(s, i, t, s', spec)
  {
    s' := WaitOn(cfg, from, s, sample);
    s', answer := Finish(cfg, from, s', i, t);
  }

  lemma {:induction false} MissAlone(cfg: Config, from: State, s: State, i: nat, t: nat, link: Link, c: Clock)
    returns (s': State, answer: Answer)
    requires Path(cfg, from, s, []) && Has(s, i, t) && NobodyYet(s.insts[i])
    requires c.Ordered() && s.now <= c.started && c.born - c.received <= cfg.gap
    requires s.insts[i].calls[t].Claiming? && s.insts[i].refill.None?
    ensures Path(cfg, from, s', [Told(i, t, answer)])
    ensures var spec := Conclude(Solo.Lease(s.insts[i].bucket, s.slot, cfg.policy, link, c), c.sample);
            answer == spec.answer && Concluded(s, i, t, s', spec)
  {
    var m, early := RefillAlone(cfg, from, s, i, t, link, c);
    TwoMoves(s.insts[i].calls, t, m.insts[i].calls[t], Idle);
    if early.Some? {
      s', answer := m, early.value;
    } else {
      s', answer := SpendAlone(cfg, from, m, i, t, c.sample);
    }
  }

  lemma {:induction false} CheckedCall(cfg: Config, from: State, s: State, i: nat, t: nat, link: Link, c: Clock)
    returns (s': State, answer: Answer)
    requires Path(cfg, from, s, []) && Has(s, i, t) && NobodyYet(s.insts[i]) && s.insts[i].refill.None?
    requires c.Ordered() && s.now == c.check && c.born - c.received <= cfg.gap
    requires s.insts[i].bucket.Some? ==> s.insts[i].since <= s.now
    requires var v := StoreRules.Check(s.insts[i].bucket, false, c.check);
      !v.Reject? && if v.Usable? then s.insts[i].calls[t].Past? else s.insts[i].calls[t].Claiming?
    ensures Path(cfg, from, s', [Told(i, t, answer)])
    ensures var spec := Serve(s.insts[i].bucket, s.slot, cfg.policy, link, c);
            answer == spec.answer && Concluded(s, i, t, s', spec)
  {
    if s.insts[i].calls[t].Claiming? {
      s', answer := MissAlone(cfg, from, s, i, t, link, c);
    } else {
      s', answer := SpendAlone(cfg, from, s, i, t, c.sample);
    }
  }

  /** Such a call as steps that end in `s'`, with one answer on the way. */
  lemma {:induction false} SoloCall(cfg: Config, s: State, i: nat, t: nat, link: Link, c: Clock)
    returns (s': State, answer: Answer)
    requires Has(s, i, t) && NobodyYet(s.insts[i]) && (s.insts[i].bucket.Some? ==> s.insts[i].since <= s.now)
    requires s.insts[i].calls[t].Idle? && s.insts[i].phase != Crashed && s.insts[i].refill.None?
    requires c.Ordered() && s.now <= c.check && c.born - c.received <= cfg.gap
    ensures Path(cfg, s, s', [Told(i, t, answer)])
    ensures var spec := Serve(s.insts[i].bucket, s.slot, cfg.policy, link, c);
            answer == spec.answer && Concluded(s, i, t, s', spec)
  {
    PathHere(cfg, s);
    var m := StartOn(cfg, s, s, i, t, c.check);
    var v := StoreRules.Check(s.insts[i].bucket, false, c.check);
    TwoMoves(s.insts[i].calls, t, m.insts[i].calls[t], Idle);
    if v.Reject? {
      s', answer := m, Exhausted(v.after);
    } else {
      s', answer := CheckedCall(cfg, s, m, i, t, link, c);
    }
  }

  /** A call that runs alone, with any clock readings and any fate of its request, is a run of the step system that
      gives one answer, that of the call, and ends with the same bucket and the same Redis key. */
  lemma {:induction false} SoloCallIsARun(cfg: Config, s: State, i: nat, t: nat, link: Link, c: Clock)
    returns (steps: seq<Step>, answer: Answer)
    requires cfg.policy.Valid() && Reachable(cfg, s) && Has(s, i, t)
    requires s.insts[i].calls[t].Idle? && s.insts[i].phase != Crashed && s.insts[i].refill.None?
    requires c.Ordered() && s.now <= c.check && c.born - c.received <= cfg.gap
    ensures Runs(cfg, s, steps) && Reachable(cfg, After(cfg, s, steps))
    ensures TellsAll(cfg, s, steps) == [Told(i, t, answer)]
    ensures var spec := Serve(s.insts[i].bucket, s.slot, cfg.policy, link, c);
            answer == spec.answer && Concluded(s, i, t, After(cfg, s, steps), spec)
  {
    NobodyWaitsYet(cfg, s, i);
    InvReachable(cfg, s);
    assert Placed(cfg, s.now, s.slot, s.insts[i]);
    var s', told := SoloCall(cfg, s, i, t, link, c);
    answer := told;
    PathReaches(cfg, s, s', [Told(i, t, answer)]);
    steps :| Runs(cfg, s, steps) && After(cfg, s, steps) == s' && TellsAll(cfg, s, steps) == [Told(i, t, answer)];
  }

  /** From a claim that finds an entry to the registration with its Notify. */
  lemma {:induction false} JoinWaiters(cfg: Config, from: State, s: State, i: nat, t: nat) returns (s': State)
    requires Path(cfg, from, s, []) && Has(s, i, t)
    requires s.insts[i].calls[t].Claiming? && s.insts[i].refill.Some?
    ensures Path(cfg, from, s', [])
    ensures s' == s.(insts := s.insts[i := SetCall(s.insts[i], t, Waiting(s.insts[i].refill.value.notify))])
  {
    var inst := s.insts[i];
    var n := inst.refill.value.notify;
    var m := DoOn(cfg, from, s, Claim(i, t), i, Effect(SetCall(inst, t, Cloned(n)), s.slot, [], None));
    TwoMoves(inst.calls, t, Cloned(n), Waiting(n));
    s' := DoOn(cfg, from, m, Register(i, t), i, Effect(SetCall(inst, t, Waiting(n)), s.slot, [], None));
    assert s.log + [] + [] == s.log;
  }

  lemma {:induction false} WaitingCall(cfg: Config, s: State, i: nat, t: nat, check: int) returns (s': State)
    requires Has(s, i, t) && s.now <= check
    requires s.insts[i].calls[t].Idle? && s.insts[i].phase != Crashed && s.insts[i].refill.Some?
    requires StoreRules.Check(s.insts[i].bucket, false, check).NeedsLease?
    ensures Path(cfg, s, s', [])
    ensures var inst := StartedAt(s.insts[i], t, s.now);
            s' == s.(now := check, insts := s.insts[i := SetCall(inst, t, Waiting(inst.refill.value.notify))])
  {
    var inst := StartedAt(s.insts[i], t, s.now);
    PathHere(cfg, s);
    var m := StartOn(cfg, s, s, i, t, check);
    s' := JoinWaiters(cfg, s, m, i, t);
    TwoMoves(inst.calls, t, Claiming, Waiting(inst.refill.value.notify));
  }

  /** And a call that finds another one's entry ends up registered with that one's Notify, as the class says, and
      nothing is answered on the way. */
  lemma {:induction false} WaitingCallIsARun(cfg: Config, s: State, i: nat, t: nat, check: int)
    returns (steps: seq<Step>)
    requires Reachable(cfg, s) && Has(s, i, t) && s.now <= check
    requires s.insts[i].calls[t].Idle? && s.insts[i].phase != Crashed && s.insts[i].refill.Some?
    requires StoreRules.Check(s.insts[i].bucket, false, check).NeedsLease?
    ensures Runs(cfg, s, steps) && Reachable(cfg, After(cfg, s, steps)) && TellsAll(cfg, s, steps) == []
    ensures var inst := StartedAt(s.insts[i], t, s.now);
            After(cfg, s, steps)
            == s.(now := check, insts := s.insts[i := SetCall(inst, t, Waiting(inst.refill.value.notify))])
  {
    var s' := WaitingCall(cfg, s, i, t, check);
    PathReaches(cfg, s, s', []);
    steps :| Runs(cfg, s, steps) && After(cfg, s, steps) == s' && TellsAll(cfg, s, steps) == [];
  }
}
