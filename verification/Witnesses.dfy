/** Concrete runs that show why the conditions of the bounds are there. */
module Witnesses {
  import opened Basics
  import opened Policies
  import opened Buckets
  import opened RedisScripts
  import opened StoreRules
  import opened Protocol
  import opened Solo
  import opened Safety
  import opened Flight
  import opened SoloRuns
  import opened UnderAdmission

  /** A policy of one lease per one-second window. */
  function Small(quota: nat): Policy {
    Policy(Sub, quota, quota, 1)
  }

  function Fresh(a: Call, b: Call): Inst {
    Inst(None, None, [a, b], Serving, false, None, [0, 0], 0, false, 0, 0, [], [], false, None)
  }

  lemma Pairs(a: Call, b: Call, c: Call)
    ensures [a, b][0 := c] == [c, b] && [a, b][1 := c] == [a, c]
  {
  }

  lemma OneJoins(cfg: Config) returns (s: State)
    requires cfg.slots == 2
    ensures Reachable(cfg, s) && s == State(0, None, [Fresh(Idle, Idle)], [])
  {
    s := State(0, None, [], []);
    assert Runs(cfg, s, []) && After(cfg, s, []) == s;
    s := Go(cfg, s, Join);
    assert Idles(1) == [Idle] && Idles(2) == [Idle, Idle];
    assert Zeros(1) == [0] && Zeros(2) == [0, 0];
  }

  /** A call of the only instance starts and gets the verdict of `check`. */
  lemma Starts(cfg: Config, s: State, t: nat, check: int, inst: Inst) returns (s': State)
    requires Reachable(cfg, s) && |s.insts| == 1 && Has(s, 0, t) && s.now <= check
    requires s.insts[0].calls[t].Idle? && s.insts[0].phase != Crashed
    requires var v := StoreRules.Check(s.insts[0].bucket, false, check);
      var next := if v.Usable? then Past(|s.insts[0].inserted|) else if v.NeedsLease? then Claiming else Idle;
      inst == SetCall(StartedAt(s.insts[0], t, s.now), t, next)
    ensures Reachable(cfg, s') && s' == State(check, s.slot, [inst], s.log)
  {
    s' := StartCall(cfg, s, 0, t, check);
    assert s.insts[0 := inst] == [inst];
  }

  /** An instance after its first lease, which took `delay` to reach Redis, with call 0 about to consume. */
  function Supplied(quota: nat, delay: nat): Inst {
    Fresh(Past(1), Idle).(bucket := Some(BucketState(quota, 1000, 1000 + delay, false)), since := delay,
                          inserted := [1000 + delay], nextNotify := 1)
  }

  function FirstLog(quota: nat, delay: nat): seq<Event> {
    [Opened(delay, 1000 + delay, quota), Granted(1000 + delay)]
  }

  lemma {:induction false} FirstLease(cfg: Config, delay: nat) returns (s: State)
    requires cfg.policy == Small(cfg.policy.quota) && cfg.policy.Valid() && cfg.slots == 2 && delay < 1000
    ensures Reachable(cfg, s)
    ensures s == State(delay, Some(Entry(0, Some(1000 + delay))), [Supplied(cfg.policy.quota, delay)],
                       FirstLog(cfg.policy.quota, delay))
  {
    s := OneJoins(cfg);
    Pairs(Idle, Idle, Claiming);
    s := Starts(cfg, s, 0, 0, Fresh(Claiming, Idle));
    Pairs(Claiming, Idle, Requested(0, 0));
    s := ClaimAndSend(cfg, s, 0, 0, 0);
    s := FirstDelivery(cfg, s, Idle, delay);
    Pairs(Leaving(0, Leased(1)), Idle, Past(1));
    var answer;
    s, answer := LeaveAndNotify(cfg, s, 0, 0);
  }

  /** The first lease is in the bucket; its leader has not left yet. */
  function Leased1(quota: nat, delay: nat, other: Call): Inst {
    Supplied(quota, delay).(calls := [Leaving(0, Leased(1)), other], refill := Some(Refill(0, 0)))
  }

  lemma {:induction false} FirstDelivery(cfg: Config, s: State, other: Call, delay: nat) returns (s': State)
    requires cfg.policy == Small(cfg.policy.quota) && cfg.policy.Valid() && delay < 1000
    requires Reachable(cfg, s) && s.now == 0 && s.slot == None && s.log == []
    requires s.insts == [Fresh(Requested(0, 0), other).(refill := Some(Refill(0, 0)), nextNotify := 1)]
    ensures Reachable(cfg, s')
    ensures s' == State(delay, Some(Entry(0, Some(1000 + delay))), [Leased1(cfg.policy.quota, delay, other)],
                        FirstLog(cfg.policy.quota, delay))
  {
    var c := Clock(0, 0, delay, delay, delay, delay);
    var reply := Reply(cfg.policy.quota, 1000, 1000 + delay);
    Pairs(Requested(0, 0), other, Replied(0, 0, delay, reply, 0));
    Pairs(Replied(0, 0, delay, reply, 0), other, Leaving(0, Leased(1)));
    s' := ExecuteAndDeliver(cfg, s, 0, 0, c);
    assert [] + [1000 + delay] == [1000 + delay];
    assert s'.insts[0] == Leased1(cfg.policy.quota, delay, other);
    assert s'.log == FirstLog(cfg.policy.quota, delay);
  }

  /** Spending after the shutdown snapshot can take more than the quota from one window: the token returned to
      Redis is spent locally all the same, and then leased and spent again. */
  lemma {:induction false} SpentAfterSnapshot() returns (cfg: Config, s: State)
    ensures cfg.policy.Valid() && Reachable(cfg, s)
    ensures Taken(s.log, 1000) == cfg.policy.quota + Total(s.log, ACredit, 1000) > cfg.policy.quota
  {
    cfg := Config(Small(1), 2, 0, 0, true);
    s := FirstLease(cfg, 0);
    s := Returned(cfg, s);
    s := SpentAgain(cfg, s);
  }

  /** The bucket was snapshotted and released, and its token then taken. */
  function Overspent(call: Call): Inst {
    Supplied(0, 0).(calls := [Idle, call], phase := Stopping, snapped := true)
  }

  function OverspentLog(): seq<Event> {
    FirstLog(1, 0) + [Credited(1000, 1), Took(0, 1000, false)]
  }

  lemma {:induction false} Returned(cfg: Config, s: State) returns (s': State)
    requires cfg == Config(Small(1), 2, 0, 0, true) && Reachable(cfg, s)
    requires s == State(0, Some(Entry(0, Some(1000))), [Supplied(1, 0)], FirstLog(1, 0))
    ensures Reachable(cfg, s')
    ensures s' == State(0, Some(Entry(1, Some(1000))), [Overspent(Idle)], OverspentLog())
  {
    Pairs(Past(1), Idle, Idle);
    var stopping := Supplied(1, 0).(phase := Stopping, snapped := true);
    s' := Do(cfg, s, Snapshot(0, 0, true), 0, Effect(stopping.(pending := Some(Due(1, 1000))), s.slot, [], None));
    s' := Do(cfg, s', Release(0), 0, Effect(stopping, Some(Entry(1, Some(1000))), [Credited(1000, 1)], None));
    s' := LateTake(cfg, s', stopping);
    assert s'.log == OverspentLog();
  }

  lemma {:induction false} LateTake(cfg: Config, s: State, stopping: Inst) returns (s': State)
    requires cfg == Config(Small(1), 2, 0, 0, true) && Reachable(cfg, s)
    requires stopping == Supplied(1, 0).(phase := Stopping, snapped := true)
    requires s.now == 0 && s.insts == [stopping]
    ensures Reachable(cfg, s') && s' == State(0, s.slot, [Overspent(Idle)], s.log + [Took(0, 1000, false)])
  {
    Pairs(Past(1), Idle, Idle);
    s' := Do(cfg, s, Protocol.Consume(0, 0, 0), 0,
             Effect(Overspent(Idle), s.slot, [Took(0, 1000, false)], Some(Admitted(0))));
  }

  lemma {:induction false} SpentAgain(cfg: Config, s: State) returns (s': State)
    requires cfg == Config(Small(1), 2, 0, 0, true) && Reachable(cfg, s)
    requires s == State(0, Some(Entry(1, Some(1000))), [Overspent(Idle)], OverspentLog())
    ensures Reachable(cfg, s')
    ensures Taken(s'.log, 1000) == 2 && Total(s'.log, ACredit, 1000) == 1
  {
    Pairs(Idle, Idle, Claiming);
    s' := Starts(cfg, s, 1, 0, Overspent(Claiming));
    s' := ClaimAndSend(cfg, s', 0, 1, 0);
    s' := LeasedAgain(cfg, s');
    s' := TakenAgain(cfg, s');
    Tally(s'.log);
  }

  /** The returned token, leased once more and about to be spent. */
  function Resupplied(call: Call): Inst {
    Supplied(1, 0).(calls := [Idle, call], phase := Stopping, inserted := [1000, 1000], nextNotify := 2)
  }

  lemma TakenAgain(cfg: Config, s: State) returns (s': State)
    requires cfg == Config(Small(1), 2, 0, 0, true) && Reachable(cfg, s)
    requires s.now == 0 && s.insts == [Resupplied(Past(2))]
    ensures Reachable(cfg, s') && s'.log == s.log + [Took(0, 1000, true)]
  {
    s' := Go(cfg, s, Protocol.Consume(0, 1, 0));
  }

  lemma Tally(whole: seq<Event>)
    requires whole == OverspentLog() + [Granted(1000)] + [Wasted(1000, 0)] + [Took(0, 1000, true)]
    ensures Taken(whole, 1000) == 2 && Total(whole, ACredit, 1000) == 1
  {
    forall a ensures Total(whole, a, 1000)
                     == Amount(Opened(0, 1000, 1), a, 1000) + Amount(Granted(1000), a, 1000)
                        + Amount(Credited(1000, 1), a, 1000) + Amount(Took(0, 1000, false), a, 1000)
                        + Amount(Granted(1000), a, 1000) + Amount(Wasted(1000, 0), a, 1000)
                        + Amount(Took(0, 1000, true), a, 1000)
    {
      var log := FirstLog(1, 0);
      FirstTotals(1, 0, a, 1000);
      TotalAppend(log, Credited(1000, 1), a, 1000);
      TotalAppend(log + [Credited(1000, 1)], Took(0, 1000, false), a, 1000);
      assert OverspentLog() == log + [Credited(1000, 1)] + [Took(0, 1000, false)];
      TotalAppend(OverspentLog(), Granted(1000), a, 1000);
      TotalAppend(OverspentLog() + [Granted(1000)], Wasted(1000, 0), a, 1000);
      TotalAppend(OverspentLog() + [Granted(1000)] + [Wasted(1000, 0)], Took(0, 1000, true), a, 1000);
    }
  }

  lemma FirstTotals(quota: nat, delay: nat, a: Account, w: int)
    ensures Total(FirstLog(quota, delay), a, w)
            == Amount(Opened(delay, 1000 + delay, quota), a, w) + Amount(Granted(1000 + delay), a, w)
  {
    TotalOfOne(Opened(delay, 1000 + delay, quota), a, w);
    assert FirstLog(quota, delay) == [Opened(delay, 1000 + delay, quota)] + [Granted(1000 + delay)];
    TotalAppend([Opened(delay, 1000 + delay, quota)], Granted(1000 + delay), a, w);
  }

  lemma {:induction false} LeasedAgain(cfg: Config, s: State) returns (s': State)
    requires cfg == Config(Small(1), 2, 0, 0, true) && Reachable(cfg, s)
    requires s == State(0, Some(Entry(1, Some(1000))), [Asking(Overspent(Claiming), 1, 0, 0)], s.log)
    ensures Reachable(cfg, s') && s'.now == 0 && s'.insts == [Resupplied(Past(2))]
    ensures s'.log == s.log + [Granted(1000)] + [Wasted(1000, 0)]
  {
    s' := DeliveredAgain(cfg, s);
    Pairs(Idle, Leaving(1, Leased(2)), Past(2));
    var answer;
    s', answer := LeaveAndNotify(cfg, s', 0, 1);
  }

  lemma {:induction false} DeliveredAgain(cfg: Config, s: State) returns (s': State)
    requires cfg == Config(Small(1), 2, 0, 0, true) && Reachable(cfg, s)
    requires s == State(0, Some(Entry(1, Some(1000))), [Asking(Overspent(Claiming), 1, 0, 0)], s.log)
    ensures Reachable(cfg, s')
    ensures s' == State(0, Some(Entry(0, Some(1000))),
                        [Resupplied(Leaving(1, Leased(2))).(refill := Some(Refill(1, 1)))],
                        s.log + [Granted(1000)] + [Wasted(1000, 0)])
  {
    var credited := Total(s.log, ACredit, 1000);
    s' := ExecutedAgain(cfg, s, credited);
    Pairs(Idle, Replied(1, 0, 0, Reply(1, 1000, 1000), credited), Leaving(1, Leased(2)));
    var leaving := Resupplied(Leaving(1, Leased(2))).(refill := Some(Refill(1, 1)));
    s' := Do(cfg, s', Deliver(0, 1, 0, 0), 0, Effect(leaving, s'.slot, [Wasted(1000, 0)], None));
  }

  /** The returned token is in flight. */
  function InFlightAgain(credited: nat): Inst {
    Overspent(Replied(1, 0, 0, Reply(1, 1000, 1000), credited)).(refill := Some(Refill(1, 1)), nextNotify := 2)
  }

  lemma {:induction false} ExecutedAgain(cfg: Config, s: State, credited: nat) returns (s': State)
    requires cfg == Config(Small(1), 2, 0, 0, true) && Reachable(cfg, s)
    requires s == State(0, Some(Entry(1, Some(1000))), [Asking(Overspent(Claiming), 1, 0, 0)], s.log)
    requires credited == Total(s.log, ACredit, 1000)
    ensures Reachable(cfg, s')
    ensures s' == State(0, Some(Entry(0, Some(1000))), [InFlightAgain(credited)], s.log + [Granted(1000)])
  {
    var e := Effect(InFlightAgain(credited), Some(Entry(0, Some(1000))), [Granted(1000)], None);
    LeasedAgainBy(cfg, s, s.insts[0], credited, e);
    s' := Do(cfg, s, Execute(0, 1), 0, e);
    assert s.insts[0 := e.inst] == [e.inst];
  }

  lemma {:induction false} LeasedAgainBy(cfg: Config, s: State, inst: Inst, credited: nat, e: Effect)
    requires cfg == Config(Small(1), 2, 0, 0, true) && s.now == 0 && s.slot == Some(Entry(1, Some(1000)))
    requires credited == Total(s.log, ACredit, 1000) && inst == Asking(Overspent(Claiming), 1, 0, 0)
    requires e == Effect(InFlightAgain(credited), Some(Entry(0, Some(1000))), [Granted(1000)], None)
    ensures InstEnabled(cfg, 0, inst, Execute(0, 1)) && InstEffect(cfg, s, inst, Execute(0, 1)) == e
  {
    Pairs(Idle, Claiming, Requested(1, 0));
    Pairs(Idle, Requested(1, 0), Replied(1, 0, 0, Reply(1, 1000, 1000), credited));
    assert inst.calls == [Idle, Requested(1, 0)];
    assert LeaseScript(s.slot, 0, cfg.policy) == LeaseRun(Some(Entry(0, Some(1000))), Some(Reply(1, 1000, 1000)));
  }

  /** One instance alone can be told that Redis is empty while it keeps a token that its own deadline has put out
      of reach: nothing is lost, no claim raced, and still more than (N - 1) * lease_size tokens are unspent. */
  lemma {:induction false} LeftoverBehindDeadline() returns (cfg: Config, s: State)
    ensures cfg.policy.Valid() && Reachable(cfg, s) && Enabled(cfg, s, Execute(0, 0))
    ensures Alive(s.slot, s.now) && s.slot == Some(Entry(0, Some(1001)))
    ensures Total(s.log, ALoss, 1001) == 0 && Total(s.log, ADrop, 1001) == 0
    ensures |s.insts| == 1 && ServingCount(s.insts) == 1 && Orderly(s.insts[0])
    ensures cfg.policy.quota - Taken(s.log, 1001) > (ServingCount(s.insts) - 1) * cfg.policy.leaseSize
  {
    cfg := Config(Small(2), 2, 0, 0, true);
    s := FirstLease(cfg, 1);
    s := OneTaken(cfg, s);
    s := AskTooLate(cfg, s);
    LeftoverTally(s.log);
  }

  lemma LeftoverTally(log: seq<Event>)
    requires log == FirstLog(2, 1) + [Took(1, 1001, true)]
    ensures Total(log, ALoss, 1001) == Total(log, ADrop, 1001) == Total(log, AOver, 1001) == 0
    ensures Total(log, AFair, 1001) == 1
  {
    forall a
      ensures Total(log, a, 1001) == Amount(Opened(1, 1001, 2), a, 1001) + Amount(Granted(1001), a, 1001)
                                     + Amount(Took(1, 1001, true), a, 1001)
    {
      FirstTotals(2, 1, a, 1001);
      TotalAppend(FirstLog(2, 1), Took(1, 1001, true), a, 1001);
    }
  }

  lemma {:induction false} OneTaken(cfg: Config, s: State) returns (s': State)
    requires cfg == Config(Small(2), 2, 0, 0, true) && Reachable(cfg, s)
    requires s == State(1, Some(Entry(0, Some(1001))), [Supplied(2, 1)], FirstLog(2, 1))
    ensures Reachable(cfg, s')
    ensures s' == State(1, Some(Entry(0, Some(1001))), [Supplied(1, 1).(calls := [Idle, Idle])],
                        FirstLog(2, 1) + [Took(1, 1001, true)])
  {
    s' := Go(cfg, s, Protocol.Consume(0, 0, 1));
    Pairs(Past(1), Idle, Idle);
    assert s'.insts[0].calls == [Idle, Idle];
    assert s'.insts == [Supplied(1, 1).(calls := [Idle, Idle])];
  }

  lemma {:induction false} AskTooLate(cfg: Config, s: State) returns (s': State)
    requires cfg == Config(Small(2), 2, 0, 0, true) && Reachable(cfg, s)
    requires s.now == 1 && s.slot == Some(Entry(0, Some(1001)))
    requires s.insts == [Supplied(1, 1).(calls := [Idle, Idle])]
    ensures Reachable(cfg, s') && Enabled(cfg, s', Execute(0, 0))
    ensures s'.now == 1000 && s'.slot == s.slot && s'.log == s.log
    ensures |s'.insts| == 1 && s'.insts[0].phase == Serving && !s'.insts[0].raced && ServingCount(s'.insts) == 1
  {
    Pairs(Idle, Idle, Claiming);
    s' := Starts(cfg, s, 0, 1000, SetCall(StartedAt(s.insts[0], 0, 1), 0, Claiming));
    s' := ClaimAndSend(cfg, s', 0, 0, 1000);
    assert s'.insts[..0] == [];
  }

  /** A call can register on a Notify that has been used already, and then Flight.MissedWakeUp applies. */
  lemma {:induction false} RegisteredTooLate() returns (cfg: Config, s: State)
    ensures cfg.policy.Valid() && Reachable(cfg, s)
    ensures |s.insts| == 1 && s.insts[0].calls == [Past(1), Waiting(0)] && Forgotten(s.insts[0], 0)
  {
    cfg := Config(Small(1), 2, 0, 0, true);
    s := OneJoins(cfg);
    Pairs(Idle, Idle, Claiming);
    Pairs(Claiming, Idle, Claiming);
    s := Starts(cfg, s, 0, 0, Fresh(Claiming, Idle));
    s := Starts(cfg, s, 1, 0, Fresh(Claiming, Claiming));
    s := BothClaim(cfg, s);
    s := FirstDelivery(cfg, s, Cloned(0), 0);
    s := LeftAndRegistered(cfg, s);
  }

  lemma {:induction false} BothClaim(cfg: Config, s: State) returns (s': State)
    requires cfg == Config(Small(1), 2, 0, 0, true) && Reachable(cfg, s)
    requires s == State(0, None, [Fresh(Claiming, Claiming)], [])
    ensures Reachable(cfg, s')
    ensures s' == State(0, None, [Fresh(Requested(0, 0), Cloned(0)).(refill := Some(Refill(0, 0)), nextNotify := 1)],
                        [])
  {
    s' := ClaimAndSend(cfg, s, 0, 0, 0);
    Pairs(Claiming, Claiming, Requested(0, 0));
    Pairs(Requested(0, 0), Claiming, Cloned(0));
    var both := Fresh(Requested(0, 0), Cloned(0)).(refill := Some(Refill(0, 0)), nextNotify := 1);
    s' := Do(cfg, s', Claim(0, 1), 0, Effect(both, None, [], None));
  }

  lemma {:induction false} LeftAndRegistered(cfg: Config, s: State) returns (s': State)
    requires cfg == Config(Small(1), 2, 0, 0, true) && Reachable(cfg, s)
    requires s.insts == [Leased1(1, 0, Cloned(0))]
    ensures Reachable(cfg, s')
    ensures |s'.insts| == 1 && s'.insts[0].calls == [Past(1), Waiting(0)] && Forgotten(s'.insts[0], 0)
  {
    Pairs(Leaving(0, Leased(1)), Cloned(0), Past(1));
    Pairs(Past(1), Cloned(0), Waiting(0));
    var answer;
    s', answer := LeaveAndNotify(cfg, s, 0, 0);
    s' := Go(cfg, s', Register(0, 1));
  }
}
