/** Local deadlines, the durations told to rejected clients, and the exhausted flag. */
module Exhaustion {
  import opened Basics
  import opened Buckets
  import opened RedisScripts
  import opened StoreRules
  import opened Protocol
  import opened Ledger
  import opened Timeline
  import opened Safety

  // One reply, on an instance's clock of `k` ticks to the millisecond. Redis counts whole milliseconds: at tick `at` it
  // reads `at / k`. Durations and instants of the instance are in ticks, `pttl` and `window` in milliseconds.

  /** The readings are in order, and the reply is that of a lease at tick `executed`. */
  predicate Plausible(k: nat, r: Reply, started: int, executed: int, received: int, born: int) {
    && k >= 1 && 0 <= started <= executed <= received <= born
    && r.leased > 0 && r.pttl >= 0 && r.window == executed / k + r.pttl
  }

  /** The time left that `cache::lease` computes. With one tick to the millisecond it is StoreRules.LeaseTtl. */
  function TicksLeft(k: nat, r: Reply, started: int, received: int): nat {
    Sat(k * r.pttl - (received - started))
  }

  /** The bucket made from the reply. */
  function MadeFrom(k: nat, r: Reply, started: int, received: int, born: int): BucketState
    requires r.leased > 0
  {
    FinishLease(None, r, TicksLeft(k, r, started, received), born, born).bucket
  }

  /** A call made at tick `at` would find the bucket unexpired although the Redis key is dead. */
  predicate ServesDead(k: nat, r: Reply, b: BucketState, at: int)
    requires k >= 1
  {
    !b.IsExpired(at) && r.window < at / k
  }

  /** With one tick to the millisecond these are the duration and the bucket of the step system and the class. */
  lemma OneTick(r: Reply, started: int, received: int, born: int)
    requires r.leased > 0
    ensures TicksLeft(1, r, started, received) == LeaseTtl(r, started, received)
    ensures forall bucket, now ::
              FinishLease(bucket, r, LeaseTtl(r, started, received), born, now)
              == Inserted(MadeFrom(1, r, started, received, born))
  {
  }

  /** How long a bucket made from a reply lasts, exactly, for every ordering of the clock readings. One whose reply
      came too late is born expired. Any other serves at some moment while the key is dead if and only if the delay
      between the two clock samples of its deadline is longer than the request took to reach Redis and what was then
      left of the millisecond on Redis's clock. */
  lemma {:induction false} DeadlineFromReply(k: nat, r: Reply, started: int, executed: int, received: int, born: int)
    requires Plausible(k, r, started, executed, received, born)
    ensures var b := MadeFrom(k, r, started, received, born);
            var late := received - started >= k * r.pttl;
            && (late <==> b.IsExpired(born))
            && ((exists at :: born <= at && ServesDead(k, r, b, at))
                <==> !late && born - received > executed - started + (k - executed % k))
            && (forall at :: born <= at && !b.IsExpired(at) ==> at < k * (r.window + 1) + (born - received))
  {
    var b := MadeFrom(k, r, started, received, born);
    DeadFrom(k, r, executed);
    forall at | born <= at ensures r.window < at / k <==> executed + (k - executed % k) + k * r.pttl <= at {
      DeadAt(k, r, executed, at);
    }
    if received - started < k * r.pttl && born - received > executed - started + (k - executed % k) {
      assert born <= b.expiresAt - 1 && ServesDead(k, r, b, b.expiresAt - 1);
    }
  }

  /** The tick at which the key of the reply is found dead. */
  lemma DeadFrom(k: nat, r: Reply, executed: int)
    requires k >= 1 && executed >= 0 && r.window == executed / k + r.pttl
    ensures k * (r.window + 1) == executed + (k - executed % k) + k * r.pttl
  {
    assert executed == k * (executed / k) + executed % k;
    Distribute3(k, executed / k, r.pttl);
  }

  lemma Distribute3(k: int, a: int, b: int)
    ensures k * (a + b + 1) == k * a + k * b + k
  {
  }

  lemma DeadAt(k: nat, r: Reply, executed: int, at: int)
    requires k >= 1 && 0 <= executed && 0 <= at && r.window == executed / k + r.pttl
    ensures r.window < at / k <==> executed + (k - executed % k) + k * r.pttl <= at
  {
    DeadFrom(k, r, executed);
    var q, n := at / k, r.window + 1;
    assert at == k * q + at % k;
    if n <= q {
      assert k * n <= k * q by { MulMono(n, q, k); }
    } else {
      assert k * (q + 1) <= k * n by { MulMono(q + 1, n, k); }
      assert k * (q + 1) == k * q + k;
    }
  }

  /** Some reply, with its two samples at most `gap` ticks apart, makes a bucket that serves while the key is dead. */
  ghost predicate CanServeDead(k: nat, gap: nat)
    requires k >= 1
  {
    exists r, started, executed, received, born, at ::
      && Plausible(k, r, started, executed, received, born) && born - received <= gap
      && born <= at && ServesDead(k, r, MadeFrom(k, r, started, received, born), at)
  }

  /** However fine the instance's clock is, it takes samples two ticks apart. */
  lemma {:induction false} TwoTicksApart(k: nat, gap: nat)
    requires k >= 1
    ensures CanServeDead(k, gap) <==> gap >= 2
  {
    if gap >= 2 {
      LastTickOfMillisecond(k);
    } else if CanServeDead(k, gap) {
      var r, started, executed, received, born, at :|
        && Plausible(k, r, started, executed, received, born) && born - received <= gap
        && born <= at && ServesDead(k, r, MadeFrom(k, r, started, received, born), at);
      DeadlineFromReply(k, r, started, executed, received, born);
      assert false;
    }
  }

  /** A lease on the last tick of a millisecond, dealt with two ticks later. */
  lemma LastTickOfMillisecond(k: nat)
    requires k >= 1
    ensures var r := Reply(1, 1, 1);
            && Plausible(k, r, k - 1, k - 1, k - 1, k + 1)
            && k + 1 <= 2 * k && ServesDead(k, r, MadeFrom(k, r, k - 1, k - 1, k + 1), 2 * k)
  {
    DivUnique(k - 1, k, 0);
    DivUnique(2 * k, k, 2);
  }

  /** Over every run: while a bucket is not expired, its Redis window is not over, but for `gap`. */
  lemma {:induction false} LocalDeadline(cfg: Config, s: State, i: nat)
    requires cfg.policy.Valid() && Reachable(cfg, s) && i < |s.insts| && s.insts[i].bucket.Some?
    ensures var b := s.insts[i].bucket.value;
            && (!b.IsExpired(s.now) ==> s.now < b.window + cfg.gap)
            && s.slot.Some? && s.slot.value.expiry.Some? && b.window <= s.slot.value.expiry.value
  {
    InvReachable(cfg, s);
    assert Placed(cfg, s.now, s.slot, s.insts[i]);
  }

  /** The outcome that a call carries to its answer. */
  function OutcomeOf(c: Call): Option<Outcome> {
    match c
    case Leaving(_, o) => Some(o)
    case Notifying(_, o) => Some(o)
    case _ => None
  }

  /** A refusal's duration was at most the time left, when it was measured, until the end of a window of the key. */
  predicate FairRefusal(cfg: Config, now: int, slot: Slot, c: Call)
    requires WellKept(slot)
  {
    OutcomeOf(c).Some? && OutcomeOf(c).value.Refused? ==>
      var o := OutcomeOf(c).value;
      && slot.Some? && o.asOf <= now && o.end <= End(slot) && o.after <= Sat(o.end - o.asOf) + cfg.gap
      && o.due <= o.asOf + o.after && (o.after > 0 ==> o.due == o.asOf + o.after)
  }

  ghost predicate FairRefusals(cfg: Config, now: int, slot: Slot, inst: Inst)
    requires WellKept(slot)
  {
    forall t :: 0 <= t < |inst.calls| ==> FairRefusal(cfg, now, slot, inst.calls[t])
  }

  lemma FairLater(cfg: Config, now: int, slot: Slot, later: int, slot': Slot, inst: Inst)
    requires WellKept(slot) && WellKept(slot') && FairRefusals(cfg, now, slot, inst)
    requires now <= later && (slot.Some? ==> slot'.Some? && End(slot) <= End(slot'))
    ensures FairRefusals(cfg, later, slot', inst)
  {
    forall t | 0 <= t < |inst.calls| ensures FairRefusal(cfg, later, slot', inst.calls[t]) {
      assert FairRefusal(cfg, now, slot, inst.calls[t]);
    }
  }

  /** The duration that a lease of zero tokens reports: if it marks a bucket, from that moment until the bucket's
      deadline; otherwise, from the arrival of the reply until the end it was told, less the way to Redis. */
  lemma {:induction false} DeliveredRefusal(cfg: Config, s: State, inst: Inst, t: nat, received: int, born: int)
    requires SaneKey(cfg, s) && Placed(cfg, s.now, s.slot, inst)
    requires InstEnabled(cfg, s.now, inst, Deliver(0, t, received, born))
    ensures var c := DeliverEffect(s, inst, t, received, born).inst.calls[t];
            && FairRefusal(cfg, s.now, s.slot, c)
            && (OutcomeOf(c).value.Refused? && inst.bucket.None? ==>
                  && OutcomeOf(c).value.asOf == received && OutcomeOf(c).value.end == inst.calls[t].reply.window
                  && OutcomeOf(c).value.due
                     == inst.calls[t].reply.window - (inst.calls[t].executed - inst.calls[t].started))
            && (OutcomeOf(c).value.Refused? && inst.bucket.Some? ==>
                  && OutcomeOf(c).value.asOf == s.now && OutcomeOf(c).value.end == KeyEnd(s.slot)
                  && OutcomeOf(c).value.due == inst.bucket.value.expiresAt)
  {
    assert PlacedCall(cfg, s.now, s.slot, inst.calls[t]);
  }

  lemma {:induction false} DeliverFair(cfg: Config, s: State, inst: Inst, t: nat, received: int, born: int)
    requires SaneKey(cfg, s) && Placed(cfg, s.now, s.slot, inst) && FairRefusals(cfg, s.now, s.slot, inst)
    requires InstEnabled(cfg, s.now, inst, Deliver(0, t, received, born))
    ensures FairRefusals(cfg, s.now, s.slot, DeliverEffect(s, inst, t, received, born).inst)
  {
    var inst' := DeliverEffect(s, inst, t, received, born).inst;
    DeliveredRefusal(cfg, s, inst, t, received, born);
    assert inst'.calls == inst.calls[t := inst'.calls[t]];
    forall u | 0 <= u < |inst'.calls| ensures FairRefusal(cfg, s.now, s.slot, inst'.calls[u]) {
      assert u != t ==> FairRefusal(cfg, s.now, s.slot, inst.calls[u]);
    }
  }

  /** Apart from deliveries, calls carry only outcomes that were there before. */
  ghost predicate NoNewRefusal(inst: Inst, inst': Inst) {
    && |inst'.calls| == |inst.calls|
    && forall t :: 0 <= t < |inst.calls| ==>
         (OutcomeOf(inst'.calls[t]).Some? && OutcomeOf(inst'.calls[t]).value.Refused? ==>
            OutcomeOf(inst'.calls[t]) == OutcomeOf(inst.calls[t]))
  }

  lemma {:induction false} CallRefusesNoMore(cfg: Config, s: State, inst: Inst, step: Step)
    requires OfCall(step) && !step.Deliver? && InstEnabled(cfg, s.now, inst, step)
    ensures NoNewRefusal(inst, InstEffect(cfg, s, inst, step).inst)
  {
    if step.Notify? {
      assert NoNewRefusal(inst, NotifyEffect(s, inst, step.t).inst);
    } else if step.Consume? {
      assert NoNewRefusal(inst, ConsumeEffect(s, inst, step.t, step.sample).inst);
    } else if step.Check? || step.Execute? {
      TalkRefusesNoMore(cfg, s, inst, step);
    } else {
      MinorRefusesNoMore(cfg, s, inst, step);
    }
  }

  lemma {:induction false} TalkRefusesNoMore(cfg: Config, s: State, inst: Inst, step: Step)
    requires step.Check? || step.Execute?
    requires InstEnabled(cfg, s.now, inst, step)
    ensures NoNewRefusal(inst, InstEffect(cfg, s, inst, step).inst)
  {
  }

  lemma {:induction false} MinorRefusesNoMore(cfg: Config, s: State, inst: Inst, step: Step)
    requires Minor(step) && InstEnabled(cfg, s.now, inst, step)
    ensures NoNewRefusal(inst, InstEffect(cfg, s, inst, step).inst)
  {
  }

  lemma BackgroundRefusesNoMore(cfg: Config, s: State, inst: Inst, step: Step)
    requires !Global(step) && !OfCall(step) && InstEnabled(cfg, s.now, inst, step)
    ensures NoNewRefusal(inst, InstEffect(cfg, s, inst, step).inst)
  {
  }

  lemma NoNewIsFair(cfg: Config, now: int, slot: Slot, inst: Inst, inst': Inst)
    requires WellKept(slot) && FairRefusals(cfg, now, slot, inst) && NoNewRefusal(inst, inst')
    ensures FairRefusals(cfg, now, slot, inst')
  {
    forall t | 0 <= t < |inst'.calls| ensures FairRefusal(cfg, now, slot, inst'.calls[t]) {
      assert FairRefusal(cfg, now, slot, inst.calls[t]);
    }
  }

  lemma {:induction false} EffectFair(cfg: Config, s: State, inst: Inst, step: Step)
    requires cfg.policy.Valid() && SaneKey(cfg, s) && Placed(cfg, s.now, s.slot, inst)
    requires !Global(step) && InstEnabled(cfg, s.now, inst, step) && FairRefusals(cfg, s.now, s.slot, inst)
    ensures var e := InstEffect(cfg, s, inst, step);
            && WellKept(e.slot) && (s.slot.Some? ==> e.slot.Some? && End(s.slot) <= End(e.slot))
            && FairRefusals(cfg, s.now, e.slot, e.inst)
  {
    var e := InstEffect(cfg, s, inst, step);
    EffectSane(cfg, s, inst, step);
    if step.Deliver? {
      DeliverFair(cfg, s, inst, step.t, step.received, step.born);
    } else {
      if OfCall(step) {
        CallRefusesNoMore(cfg, s, inst, step);
      } else {
        BackgroundRefusesNoMore(cfg, s, inst, step);
      }
      NoNewIsFair(cfg, s.now, s.slot, inst, e.inst);
    }
    FairLater(cfg, s.now, s.slot, s.now, e.slot, e.inst);
  }

  ghost predicate AllFair(cfg: Config, s: State)
    requires WellKept(s.slot)
  {
    forall i :: 0 <= i < |s.insts| ==> FairRefusals(cfg, s.now, s.slot, s.insts[i])
  }

  lemma {:induction false} StepFair(cfg: Config, s: State, step: Step)
    requires cfg.policy.Valid() && Sane(cfg, s) && AllFair(cfg, s) && Enabled(cfg, s, step)
    ensures WellKept(Apply(cfg, s, step).slot) && AllFair(cfg, Apply(cfg, s, step))
  {
    var s' := Apply(cfg, s, step);
    if step.Stray? {
      LeaseMovesTokens(s.slot, s.now, cfg.policy);
    } else if !Global(step) {
      assert Placed(cfg, s.now, s.slot, s.insts[step.i]);
      EffectFair(cfg, s, s.insts[step.i], step);
    }
    forall i | 0 <= i < |s'.insts| ensures FairRefusals(cfg, s'.now, s'.slot, s'.insts[i]) {
      if i < |s.insts| && s'.insts[i] == s.insts[i] {
        FairLater(cfg, s.now, s.slot, s'.now, s'.slot, s.insts[i]);
      }
    }
  }

  lemma {:induction false} FairAfter(cfg: Config, start: State, steps: seq<Step>)
    requires cfg.policy.Valid() && Init(start) && Runs(cfg, start, steps)
    ensures Inv(cfg, After(cfg, start, steps)) && AllFair(cfg, After(cfg, start, steps))
    decreases |steps|
  {
    InvAfter(cfg, start, steps);
    if steps != [] {
      FairAfter(cfg, start, steps[..|steps| - 1]);
      StepFair(cfg, After(cfg, start, steps[..|steps| - 1]), steps[|steps| - 1]);
    }
  }

  /** The answer that step `step` gives its client, if it gives one. */
  function AnswerOf(cfg: Config, s: State, step: Step): Option<Answer>
    requires Enabled(cfg, s, step)
  {
    if Global(step) then None else InstEffect(cfg, s, s.insts[step.i], step).answer
  }

  /** When the duration of an Exhausted answer was measured: by `check` itself, or by the lease it goes back to. */
  function MeasuredAt(s: State, step: Step): int
    requires !Global(step) && OfCall(step) && step.i < |s.insts| && step.t < |s.insts[step.i].calls|
  {
    var o := OutcomeOf(s.insts[step.i].calls[step.t]);
    if step.Notify? && o.Some? && o.value.Refused? then o.value.asOf else s.now
  }

  /** And the end of the key's window that it was measured against. */
  function MeasuredTo(s: State, step: Step): int
    requires !Global(step) && OfCall(step) && step.i < |s.insts| && step.t < |s.insts[step.i].calls|
  {
    var o := OutcomeOf(s.insts[step.i].calls[step.t]);
    if step.Notify? && o.Some? && o.value.Refused? then o.value.end else KeyEnd(s.slot)
  }

  /** No client is told to wait longer than the time that was left in the key's window when the duration was
      measured, but for `gap`: not by the flag, even on a bucket left over from an older window, and not by a lease of
      zero tokens, with a bucket or without, however long the answer then took. No other step says Exhausted. */
  lemma {:induction false} RetryBound(cfg: Config, s: State, step: Step)
    requires cfg.policy.Valid() && Reachable(cfg, s) && Enabled(cfg, s, step)
    requires AnswerOf(cfg, s, step).Some? && AnswerOf(cfg, s, step).value.Exhausted?
    ensures step.Check? || step.Notify?
    ensures MeasuredAt(s, step) <= s.now && MeasuredTo(s, step) <= KeyEnd(s.slot)
    ensures AnswerOf(cfg, s, step).value.after <= Sat(MeasuredTo(s, step) - MeasuredAt(s, step)) + cfg.gap
  {
    var start, steps :| Init(start) && Runs(cfg, start, steps) && After(cfg, start, steps) == s;
    FairAfter(cfg, start, steps);
    var inst := s.insts[step.i];
    OnlyTheseRefuse(cfg, s, inst, step);
    if step.Check? {
      FlagRetry(cfg, s, inst, step.t, step.stale);
    } else {
      assert FairRefusal(cfg, s.now, s.slot, inst.calls[step.t]);
    }
  }

  lemma {:induction false} OnlyTheseRefuse(cfg: Config, s: State, inst: Inst, step: Step)
    requires !Global(step) && InstEnabled(cfg, s.now, inst, step)
    requires InstEffect(cfg, s, inst, step).answer.Some? && InstEffect(cfg, s, inst, step).answer.value.Exhausted?
    ensures step.Check? || step.Notify?
    ensures step.Notify? ==>
      var c := inst.calls[step.t];
      c.outcome.Refused? && InstEffect(cfg, s, inst, step).answer.value.after == c.outcome.after
  {
  }

  /** The moment until which an Exhausted answer tells its client to wait: the deadline of the marked bucket, or what
      the lease recorded. */
  function WaitsUntil(s: State, step: Step): int
    requires !Global(step) && OfCall(step) && step.i < |s.insts| && step.t < |s.insts[step.i].calls|
  {
    var inst := s.insts[step.i];
    var o := OutcomeOf(inst.calls[step.t]);
    if step.Notify? && o.Some? && o.value.Refused? then o.value.due
    else if inst.bucket.Some? then inst.bucket.value.expiresAt
    else s.now
  }

  /** And no client is told to come back earlier: a refusal by the flag or by a lease lasts, from when it was measured,
      until the bucket's deadline or the time left that the lease computed, and no longer than that needs. */
  lemma {:induction false} RetryIsExact(cfg: Config, s: State, step: Step)
    requires cfg.policy.Valid() && Reachable(cfg, s) && Enabled(cfg, s, step)
    requires AnswerOf(cfg, s, step).Some? && AnswerOf(cfg, s, step).value.Exhausted?
    ensures step.Check? || step.Notify?
    ensures step.Check? ==> s.insts[step.i].bucket.Some? && s.insts[step.i].bucket.value.exhausted
    ensures var after := AnswerOf(cfg, s, step).value.after;
            && WaitsUntil(s, step) <= MeasuredAt(s, step) + after
            && (after > 0 ==> WaitsUntil(s, step) == MeasuredAt(s, step) + after)
  {
    var start, steps :| Init(start) && Runs(cfg, start, steps) && After(cfg, start, steps) == s;
    FairAfter(cfg, start, steps);
    var inst := s.insts[step.i];
    OnlyTheseRefuse(cfg, s, inst, step);
    if step.Check? {
      FlagWait(s, inst, step.t, step.stale);
    } else {
      assert FairRefusal(cfg, s.now, s.slot, inst.calls[step.t]);
    }
  }

  lemma FlagWait(s: State, inst: Inst, t: nat, stale: bool)
    requires t < |inst.calls|
    ensures var answer := CheckEffect(s, inst, t, stale).answer;
      answer.Some? ==>
        && answer.value.Exhausted? && inst.bucket.Some? && inst.bucket.value.exhausted
        && inst.bucket.value.expiresAt <= s.now + answer.value.after
        && (answer.value.after > 0 ==> inst.bucket.value.expiresAt == s.now + answer.value.after)
  {
  }

  lemma FlagRetry(cfg: Config, s: State, inst: Inst, t: nat, stale: bool)
    requires SaneKey(cfg, s) && Placed(cfg, s.now, s.slot, inst) && t < |inst.calls|
    ensures var answer := CheckEffect(s, inst, t, stale).answer;
            answer.Some? ==> answer.value.Exhausted? && answer.value.after <= Sat(KeyEnd(s.slot) - s.now) + cfg.gap
  {
  }

  /** Window `w` was empty when `credited` tokens had been returned to it, and has stayed empty unless more were. */
  predicate EmptyUntilCredited(slot: Slot, log: seq<Event>, w: int, credited: nat)
    requires WellKept(slot)
  {
    && slot.Some? && w <= End(slot)
    && credited <= Total(log, ACredit, w)
    && (End(slot) == w && Total(log, ACredit, w) == credited ==> slot.value.value == 0)
  }

  /** A zero reply, in flight or behind a flag, still speaks the truth. */
  ghost predicate Truthful(slot: Slot, log: seq<Event>, inst: Inst)
    requires WellKept(slot)
  {
    && (inst.bucket.Some? && inst.bucket.value.exhausted ==> inst.mark.Some?)
    && (inst.mark.Some? ==> EmptyUntilCredited(slot, log, inst.mark.value.window, inst.mark.value.credited))
    && (forall t :: 0 <= t < |inst.calls| ==> TruthfulCall(slot, log, inst.calls[t]))
  }

  predicate TruthfulCall(slot: Slot, log: seq<Event>, c: Call)
    requires WellKept(slot)
  {
    c.Replied? && c.reply.leased == 0 ==> EmptyUntilCredited(slot, log, c.reply.window, c.credited)
  }

  /** An emptied window stays empty through any step that does not credit it. */
  ghost predicate KeepsEmpty(s: State, slot: Slot, log: seq<Event>)
    requires WellKept(s.slot) && WellKept(slot)
  {
    forall w, credited ::
      EmptyUntilCredited(s.slot, s.log, w, credited) ==> EmptyUntilCredited(slot, log, w, credited)
  }

  lemma LeaseKeepsEmpty(cfg: Config, s: State, events: seq<Event>)
    requires cfg.policy.Valid() && SaneKey(cfg, s)
    requires forall w :: Total(events, ACredit, w) == 0
    ensures var run := LeaseScript(s.slot, s.now, cfg.policy);
            WellKept(run.slot) && KeepsEmpty(s, run.slot, s.log + events)
  {
    LeaseMovesTokens(s.slot, s.now, cfg.policy);
    forall w ensures Total(s.log + events, ACredit, w) == Total(s.log, ACredit, w) {
      TotalConcat(s.log, events, ACredit, w);
    }
  }

  lemma LeaseCreditsNothing(cfg: Config, s: State)
    requires cfg.policy.Valid() && SaneKey(cfg, s)
    ensures var reply := LeaseScript(s.slot, s.now, cfg.policy).reply;
            forall w :: Total(LeaseEvents(s.slot, s.now, reply, cfg.policy.quota), ACredit, w) == 0
                        && Total(StrayEvents(s.slot, s.now, reply, cfg.policy.quota), ACredit, w) == 0
  {
    var reply := LeaseScript(s.slot, s.now, cfg.policy).reply;
    LeaseEventsCreditNothing(s.slot, s.now, reply, cfg.policy.quota);
  }

  lemma LeaseEventsCreditNothing(slot: Slot, now: int, reply: Option<Reply>, quota: nat)
    ensures forall w :: Total(LeaseEvents(slot, now, reply, quota), ACredit, w) == 0
    ensures forall w :: Total(StrayEvents(slot, now, reply, quota), ACredit, w) == 0
  {
    NoCredits(LeaseEvents(slot, now, reply, quota));
    NoCredits(StrayEvents(slot, now, reply, quota));
  }

  lemma NoCredits(events: seq<Event>)
    requires forall k :: 0 <= k < |events| ==> !events[k].Credited?
    ensures forall w :: Total(events, ACredit, w) == 0
  {
    forall w ensures Total(events, ACredit, w) == 0 {
      NoCreditWithoutWindow(events, w);
    }
  }

  lemma ReleaseKeepsEmpty(cfg: Config, s: State, inst: Inst)
    requires SaneKey(cfg, s) && Placed(cfg, s.now, s.slot, inst) && inst.pending.Some?
    ensures var e := ReleaseEffect(s, inst);
            WellKept(e.slot) && KeepsEmpty(s, e.slot, s.log + e.events)
  {
    var e := ReleaseEffect(s, inst);
    ReleaseCreditsOneWindow(s.slot, s.now, inst.pending.value.tokens, inst.pending.value.window);
    forall w ensures Total(s.log + e.events, ACredit, w) == Total(s.log, ACredit, w) + Amount(e.events[0], ACredit, w) {
      TotalConcat(s.log, e.events, ACredit, w);
      TotalOfOne(e.events[0], ACredit, w);
    }
  }

  lemma OtherKeepsEmpty(s: State, events: seq<Event>)
    requires WellKept(s.slot) && forall k :: 0 <= k < |events| ==> !events[k].Credited?
    ensures KeepsEmpty(s, s.slot, s.log + events)
  {
    forall w ensures Total(s.log + events, ACredit, w) == Total(s.log, ACredit, w) {
      TotalConcat(s.log, events, ACredit, w);
      NoCreditWithoutWindow(events, w);
    }
  }

  lemma {:induction false} EffectKeepsEmpty(cfg: Config, s: State, inst: Inst, step: Step)
    requires cfg.policy.Valid() && SaneKey(cfg, s) && Placed(cfg, s.now, s.slot, inst) && Timely(cfg, s.now, inst)
    requires !Global(step) && InstEnabled(cfg, s.now, inst, step)
    ensures var e := InstEffect(cfg, s, inst, step);
            WellKept(e.slot) && KeepsEmpty(s, e.slot, s.log + e.events)
  {
    if step.Execute? {
      LeaseCreditsNothing(cfg, s);
      LeaseKeepsEmpty(cfg, s, ExecuteEffect(cfg, s, inst, step.t).events);
    } else if step.Release? {
      ReleaseKeepsEmpty(cfg, s, inst);
    } else {
      SlotKept(cfg, s, inst, step);
      EventsPlain(cfg, s, inst, step);
      OtherKeepsEmpty(s, InstEffect(cfg, s, inst, step).events);
    }
  }

  lemma TruthfulLater(s: State, slot: Slot, log: seq<Event>, inst: Inst)
    requires WellKept(s.slot) && WellKept(slot) && Truthful(s.slot, s.log, inst) && KeepsEmpty(s, slot, log)
    ensures Truthful(slot, log, inst)
  {
    forall t | 0 <= t < |inst.calls| ensures TruthfulCall(slot, log, inst.calls[t]) {
      assert TruthfulCall(s.slot, s.log, inst.calls[t]);
    }
  }

  /** What a step may do to the instance itself: it makes no reply, and sets no flag without its mark. */
  ghost predicate TellsNothingNew(inst: Inst, inst': Inst) {
    && |inst'.calls| == |inst.calls|
    && (inst'.mark.Some? ==> inst'.mark == inst.mark)
    && (inst'.bucket.Some? && inst'.bucket.value.exhausted ==>
          inst.bucket.Some? && inst.bucket.value.exhausted && inst'.mark == inst.mark)
    && (forall t :: 0 <= t < |inst.calls| ==> inst'.calls[t].Replied? ==> inst'.calls[t] == inst.calls[t])
  }

  lemma CallStepTellsNothing(cfg: Config, s: State, inst: Inst, step: Step)
    requires OfCall(step) && !step.Execute? && !step.Deliver? && InstEnabled(cfg, s.now, inst, step)
    ensures TellsNothingNew(inst, InstEffect(cfg, s, inst, step).inst)
  {
    if step.Consume? {
      ConsumeTellsNothing(s, inst, step.t, step.sample);
    } else if step.Notify? || step.Check? {
      TalkTellsNothing(cfg, s, inst, step);
    } else {
      MinorStepTellsNothing(cfg, s, inst, step);
    }
  }

  lemma {:induction false} ConsumeTellsNothing(s: State, inst: Inst, t: nat, sample: int)
    requires t < |inst.calls| && inst.calls[t].Past?
    ensures TellsNothingNew(inst, ConsumeEffect(s, inst, t, sample).inst)
  {
  }

  lemma TalkTellsNothing(cfg: Config, s: State, inst: Inst, step: Step)
    requires step.Notify? || step.Check?
    requires InstEnabled(cfg, s.now, inst, step)
    ensures TellsNothingNew(inst, InstEffect(cfg, s, inst, step).inst)
  {
  }

  lemma {:induction false} MinorStepTellsNothing(cfg: Config, s: State, inst: Inst, step: Step)
    requires Minor(step) && InstEnabled(cfg, s.now, inst, step)
    ensures TellsNothingNew(inst, InstEffect(cfg, s, inst, step).inst)
  {
  }

  lemma {:induction false} OtherStepTellsNothing(cfg: Config, s: State, inst: Inst, step: Step)
    requires !Global(step) && !OfCall(step) && InstEnabled(cfg, s.now, inst, step)
    ensures TellsNothingNew(inst, InstEffect(cfg, s, inst, step).inst)
  {
  }

  lemma NothingNewIsTruthful(slot: Slot, log: seq<Event>, inst: Inst, inst': Inst)
    requires WellKept(slot) && Truthful(slot, log, inst) && TellsNothingNew(inst, inst')
    ensures Truthful(slot, log, inst')
  {
    forall t | 0 <= t < |inst'.calls| ensures TruthfulCall(slot, log, inst'.calls[t]) {
      assert TruthfulCall(slot, log, inst.calls[t]);
    }
  }

  lemma ExecuteTruthful(cfg: Config, s: State, inst: Inst, t: nat)
    requires cfg.policy.Valid() && SaneKey(cfg, s)
    requires t < |inst.calls| && inst.calls[t].Requested?
    requires WellKept(ExecuteEffect(cfg, s, inst, t).slot)
    requires var e := ExecuteEffect(cfg, s, inst, t); Truthful(e.slot, s.log + e.events, inst)
    ensures var e := ExecuteEffect(cfg, s, inst, t); Truthful(e.slot, s.log + e.events, e.inst)
  {
    var e := ExecuteEffect(cfg, s, inst, t);
    LeaseMovesTokens(s.slot, s.now, cfg.policy);
    LeaseCreditsNothing(cfg, s);
    forall u | 0 <= u < |e.inst.calls| ensures TruthfulCall(e.slot, s.log + e.events, e.inst.calls[u]) {
      if u == t {
        if e.inst.calls[t].Replied? { TotalConcat(s.log, e.events, ACredit, e.inst.calls[t].reply.window); }
      } else {
        assert TruthfulCall(e.slot, s.log + e.events, inst.calls[u]);
      }
    }
  }

  lemma {:induction false} DeliverTruthful(s: State, inst: Inst, t: nat, received: int, born: int, slot: Slot,
                                           log: seq<Event>)
    requires WellKept(slot) && Truthful(slot, log, inst)
    requires t < |inst.calls| && inst.calls[t].Replied?
    ensures Truthful(slot, log, DeliverEffect(s, inst, t, received, born).inst)
  {
    var inst' := DeliverEffect(s, inst, t, received, born).inst;
    assert TruthfulCall(slot, log, inst.calls[t]);
    forall u | 0 <= u < |inst'.calls| ensures TruthfulCall(slot, log, inst'.calls[u]) {
      assert TruthfulCall(slot, log, inst.calls[u]);
    }
  }

  lemma {:induction false} EffectTruthful(cfg: Config, s: State, inst: Inst, step: Step)
    requires cfg.policy.Valid() && SaneKey(cfg, s) && Placed(cfg, s.now, s.slot, inst) && Timely(cfg, s.now, inst)
    requires !Global(step) && InstEnabled(cfg, s.now, inst, step) && Truthful(s.slot, s.log, inst)
    ensures var e := InstEffect(cfg, s, inst, step);
            WellKept(e.slot) && Truthful(e.slot, s.log + e.events, e.inst)
  {
    var e := InstEffect(cfg, s, inst, step);
    EffectKeepsEmpty(cfg, s, inst, step);
    TruthfulLater(s, e.slot, s.log + e.events, inst);
    if step.Execute? {
      ExecuteTruthful(cfg, s, inst, step.t);
    } else if step.Deliver? {
      DeliverTruthful(s, inst, step.t, step.received, step.born, e.slot, s.log + e.events);
    } else {
      if OfCall(step) {
        CallStepTellsNothing(cfg, s, inst, step);
      } else {
        OtherStepTellsNothing(cfg, s, inst, step);
      }
      NothingNewIsTruthful(e.slot, s.log + e.events, inst, e.inst);
    }
  }

  ghost predicate AllTruthful(s: State)
    requires WellKept(s.slot)
  {
    forall i :: 0 <= i < |s.insts| ==> Truthful(s.slot, s.log, s.insts[i])
  }

  lemma {:induction false} StrayTruthful(cfg: Config, s: State)
    requires cfg.policy.Valid() && Inv(cfg, s) && AllTruthful(s)
    ensures WellKept(Apply(cfg, s, Stray).slot) && AllTruthful(Apply(cfg, s, Stray))
  {
    var s' := Apply(cfg, s, Stray);
    LeaseCreditsNothing(cfg, s);
    var reply := LeaseScript(s.slot, s.now, cfg.policy).reply;
    LeaseKeepsEmpty(cfg, s, StrayEvents(s.slot, s.now, reply, cfg.policy.quota));
    forall i | 0 <= i < |s.insts| ensures Truthful(s'.slot, s'.log, s.insts[i]) {
      TruthfulLater(s, s'.slot, s'.log, s.insts[i]);
    }
  }

  lemma InstStepTruthful(s: State, i: nat, e: Effect)
    requires i < |s.insts| && WellKept(s.slot) && AllTruthful(s) && WellKept(e.slot)
    requires KeepsEmpty(s, e.slot, s.log + e.events) && Truthful(e.slot, s.log + e.events, e.inst)
    ensures AllTruthful(State(s.now, e.slot, s.insts[i := e.inst], s.log + e.events))
  {
    forall j | 0 <= j < |s.insts| && j != i ensures Truthful(e.slot, s.log + e.events, s.insts[j]) {
      TruthfulLater(s, e.slot, s.log + e.events, s.insts[j]);
    }
  }

  lemma {:induction false} StepTruthful(cfg: Config, s: State, step: Step)
    requires cfg.policy.Valid() && Inv(cfg, s) && AllTruthful(s) && Enabled(cfg, s, step)
    ensures WellKept(Apply(cfg, s, step).slot) && AllTruthful(Apply(cfg, s, step))
  {
    if step.Stray? {
      StrayTruthful(cfg, s);
    } else if !Global(step) {
      assert Placed(cfg, s.now, s.slot, s.insts[step.i]) && Timely(cfg, s.now, s.insts[step.i]);
      EffectKeepsEmpty(cfg, s, s.insts[step.i], step);
      EffectTruthful(cfg, s, s.insts[step.i], step);
      InstStepTruthful(s, step.i, InstEffect(cfg, s, s.insts[step.i], step));
    }
  }

  lemma {:induction false} TruthfulAfter(cfg: Config, start: State, steps: seq<Step>)
    requires cfg.policy.Valid() && Init(start) && Runs(cfg, start, steps)
    ensures var s := After(cfg, start, steps); Inv(cfg, s) && AllTruthful(s)
    decreases |steps|
  {
    InvAfter(cfg, start, steps);
    if steps != [] {
      TruthfulAfter(cfg, start, steps[..|steps| - 1]);
      StepTruthful(cfg, After(cfg, start, steps[..|steps| - 1]), steps[|steps| - 1]);
    }
  }

  /** An Exhausted answer from the local flag agrees with Redis as long as the window it was marked in is alive
      and nothing has been credited to that window since: a fresh lease would get nothing either. Without that
      condition it agrees exactly when the key is alive and empty. */
  lemma {:induction false} FlagAgreesWithRedis(cfg: Config, s: State, i: nat)
    requires cfg.policy.Valid() && Reachable(cfg, s) && i < |s.insts|
    requires s.insts[i].bucket.Some? && s.insts[i].bucket.value.exhausted
    ensures s.insts[i].mark.Some?
    ensures var m := s.insts[i].mark.value;
            var run := LeaseScript(s.slot, s.now, cfg.policy);
            && (Alive(s.slot, s.now) && s.slot.value.expiry == Some(m.window)
                && Total(s.log, ACredit, m.window) == m.credited
                ==> run.reply.Some? && run.reply.value.leased == 0)
            && (run.reply.Some? && run.reply.value.leased == 0 <==> Alive(s.slot, s.now) && s.slot.value.value == 0)
  {
    var start, steps :| Init(start) && Runs(cfg, start, steps) && After(cfg, start, steps) == s;
    TruthfulAfter(cfg, start, steps);
    assert Truthful(s.slot, s.log, s.insts[i]);
    LeaseMovesTokens(s.slot, s.now, cfg.policy);
  }
}
