/** How many requests a window can admit in all: grants are limited by the quota, buckets by grants, answers without a
    token by buckets. */
module Grants {
  import opened Basics
  import opened Policies
  import opened RedisScripts
  import opened Protocol
  import opened Ledger
  import opened Conservation
  import opened Timeline
  import opened Safety
  import opened Admission

  /** Leases that the counter of window `w` can still feed. */
  function Batches(slot: Slot, p: Policy, w: int): nat
    requires p.Valid()
  {
    CeilDiv(Sat(Counter(slot, w)), p.leaseSize)
  }

  /** Leases that a full window can feed. */
  function FullBatches(log: seq<Event>, p: Policy, w: int): nat
    requires p.Valid()
  {
    if w in Windows(log) then CeilDiv(p.quota, p.leaseSize) else 0
  }

  /** Every grant uses up a batch, and every credit adds at most one. */
  ghost predicate GrantsFit(cfg: Config, s: State, w: int)
    requires cfg.policy.Valid()
  {
    Total(s.log, AGrant, w) + Batches(s.slot, cfg.policy, w)
    <= FullBatches(s.log, cfg.policy, w) + Total(s.log, AReturn, w)
  }

  lemma OneBatchLess(c: nat, size: nat)
    requires c > 0 && size > 0
    ensures CeilDiv(c - Min(c, size), size) + 1 == CeilDiv(c, size)
  {
    if c <= size {
      DivUnique(c + size - 1, size, 1);
      DivUnique(size - 1, size, 0);
    } else {
      DivMinusOne(c + size - 1, size);
    }
  }

  lemma OneBatchMore(c: nat, n: nat, size: nat)
    requires n <= size && size > 0
    ensures CeilDiv(c + n, size) <= CeilDiv(c, size) + 1
  {
    DivMinusOne(c + size + size - 1, size);
    DivMono(c + n + size - 1, c + size + size - 1, size);
  }

  /** A granting lease uses up one batch of its window. */
  lemma LeaseUsesBatch(slot: Slot, now: int, p: Policy, w: int)
    requires p.Valid() && WellKept(slot) && now >= 0
    ensures var run := LeaseScript(slot, now, p);
            var granted := if LeasedOf(run.reply, w) > 0 then 1 else 0;
            && (Alive(slot, now) || run.reply.None? ==> granted + Batches(run.slot, p, w) == Batches(slot, p, w))
            && (!Alive(slot, now) && run.reply.Some? ==>
                  granted + Batches(run.slot, p, w)
                  == if run.reply.value.window == w then CeilDiv(p.quota, p.leaseSize) else 0)
  {
    LeaseMovesTokens(slot, now, p);
    if Alive(slot, now) {
      if slot.value.value > 0 { OneBatchLess(slot.value.value, p.leaseSize); }
    } else {
      OneBatchLess(p.quota, p.leaseSize);
      DivUnique(p.leaseSize - 1, p.leaseSize, 0);
    }
  }

  /** What a lease adds to the numbers of grants and credits. */
  lemma LeaseNumbers(slot: Slot, now: int, reply: Option<Reply>, quota: nat, w: int)
    requires WellKept(slot)
    ensures var granted := if reply.Some? && reply.value.leased > 0 && reply.value.window == w then 1 else 0;
            && Total(LeaseEvents(slot, now, reply, quota), AGrant, w) == granted
            && Total(StrayEvents(slot, now, reply, quota), AGrant, w) == granted
    ensures Total(LeaseEvents(slot, now, reply, quota), AReturn, w) == 0
    ensures Total(StrayEvents(slot, now, reply, quota), AReturn, w) == 0
  {
    LeaseNet(slot, now, reply, quota, SMade, w);
    StrayNet(slot, now, reply, quota, SMade, w);
    NetNumbers(LeaseEvents(slot, now, reply, quota), w);
    NetNumbers(StrayEvents(slot, now, reply, quota), w);
    StrayReturnsNothing(slot, now, reply, quota, w);
    LeaseReturnsNothing(slot, now, reply, quota, w);
  }

  lemma {:induction false} OpeningReturnsNothing(slot: Slot, now: int, reply: Option<Reply>, quota: nat, w: int)
    ensures Total(OpeningEvents(slot, now, reply, quota), AReturn, w) == 0
  {
    if reply.Some? && !Alive(slot, now) {
      var opening := Opened(now, reply.value.window, quota);
      TotalOfOne(opening, AReturn, w);
      if slot.Some? && slot.value.expiry.Some? && slot.value.value >= 0 {
        PairReturnsNothing(Lapsed(slot.value.expiry.value, slot.value.value), opening, w);
      }
    }
  }

  lemma {:induction false} PairReturnsNothing(a: Event, b: Event, w: int)
    requires !a.Credited? && !b.Credited?
    ensures Total([a, b], AReturn, w) == 0
  {
    assert [a, b] == [a] + [b];
    TotalOfOne(a, AReturn, w);
    TotalAppend([a], b, AReturn, w);
  }

  lemma {:induction false} LeaseReturnsNothing(slot: Slot, now: int, reply: Option<Reply>, quota: nat, w: int)
    ensures Total(LeaseEvents(slot, now, reply, quota), AReturn, w) == 0
  {
    var opening := OpeningEvents(slot, now, reply, quota);
    OpeningReturnsNothing(slot, now, reply, quota, w);
    if reply.Some? && reply.value.leased > 0 {
      AlsoNothing(opening, Granted(reply.value.window), LeaseEvents(slot, now, reply, quota), w);
    } else {
      assert LeaseEvents(slot, now, reply, quota) == opening;
    }
  }

  lemma {:induction false} StrayReturnsNothing(slot: Slot, now: int, reply: Option<Reply>, quota: nat, w: int)
    ensures Total(StrayEvents(slot, now, reply, quota), AReturn, w) == 0
  {
    var events := LeaseEvents(slot, now, reply, quota);
    LeaseReturnsNothing(slot, now, reply, quota, w);
    if reply.Some? {
      AlsoNothing(events, Lost(reply.value.window, reply.value.leased), StrayEvents(slot, now, reply, quota), w);
    } else {
      assert StrayEvents(slot, now, reply, quota) == events;
    }
  }

  lemma {:induction false} AlsoNothing(events: seq<Event>, e: Event, all: seq<Event>, w: int)
    requires Total(events, AReturn, w) == 0 && !e.Credited? && all == events + [e]
    ensures Total(all, AReturn, w) == 0
  {
    TotalAppend(events, e, AReturn, w);
  }

  /** A new window has not been granted from. */
  lemma NothingGrantedYet(cfg: Config, s: State, w: int)
    requires cfg.policy.Valid() && WellKept(s.slot) && Chronicle(cfg, s) && GrantsFit(cfg, s, w)
    requires w !in Windows(s.log)
    ensures Total(s.log, AGrant, w) == 0
  {
    NoCreditWithoutWindow(s.log, w);
  }

  lemma {:induction false} LeaseFits(cfg: Config, s: State, s': State, events: seq<Event>, w: int)
    requires cfg.policy.Valid() && SaneKey(cfg, s) && Chronicle(cfg, s) && GrantsFit(cfg, s, w)
    requires var run := LeaseScript(s.slot, s.now, cfg.policy);
      && (|| events == LeaseEvents(s.slot, s.now, run.reply, cfg.policy.quota)
          || events == StrayEvents(s.slot, s.now, run.reply, cfg.policy.quota))
      && Extends(cfg, s, run.slot, events) && s'.slot == run.slot && s'.log == s.log + events
    ensures GrantsFit(cfg, s', w)
  {
    var run := LeaseScript(s.slot, s.now, cfg.policy);
    LeaseNumbers(s.slot, s.now, run.reply, cfg.policy.quota, w);
    LeaseUsesBatch(s.slot, s.now, cfg.policy, w);
    LeaseWindows(cfg, s, run.slot, events);
    if w !in Windows(s.log) {
      NothingGrantedYet(cfg, s, w);
    }
    FitsAfter(cfg, s, s', events, w);
  }

  /** The sums after new events that credit nothing. */
  lemma FitsAfter(cfg: Config, s: State, s': State, events: seq<Event>, w: int)
    requires cfg.policy.Valid() && GrantsFit(cfg, s, w) && s'.log == s.log + events && Total(events, AReturn, w) == 0
    requires var granted := Total(events, AGrant, w);
      var before, after := Batches(s.slot, cfg.policy, w), Batches(s'.slot, cfg.policy, w);
      || granted + after <= before
      || (w in Windows(events) && Total(s.log, AGrant, w) == 0
          && granted + after <= CeilDiv(cfg.policy.quota, cfg.policy.leaseSize))
    ensures GrantsFit(cfg, s', w)
  {
    TotalConcat(s.log, events, AGrant, w);
    TotalConcat(s.log, events, AReturn, w);
    WindowsConcat(s.log, events);
  }

  /** A lease opens the window it replies when the key is dead, a window not seen before, and none otherwise. */
  lemma {:induction false} LeaseWindows(cfg: Config, s: State, slot: Slot, events: seq<Event>)
    requires cfg.policy.Valid() && SaneKey(cfg, s) && Chronicle(cfg, s) && Extends(cfg, s, slot, events)
    requires slot == LeaseScript(s.slot, s.now, cfg.policy).slot
    ensures var reply := LeaseScript(s.slot, s.now, cfg.policy).reply;
            && (reply.Some? && !Alive(s.slot, s.now) ==>
                  reply.value.window !in Windows(s.log) && Windows(events) == [reply.value.window])
            && (reply.None? || Alive(s.slot, s.now) ==> Windows(events) == [])
  {
    var reply := LeaseScript(s.slot, s.now, cfg.policy).reply;
    LeaseMovesTokens(s.slot, s.now, cfg.policy);
    if reply.Some? && reply.value.window in Windows(s.log) {
      LastIsLargest(Windows(s.log), cfg.policy.WindowMs(), reply.value.window);
    }
  }

  lemma {:induction false} NothingNumbered(events: seq<Event>, w: int)
    requires forall k :: 0 <= k < |events| ==> !events[k].Granted? && !events[k].Credited?
    ensures Total(events, AGrant, w) == 0 && Total(events, AReturn, w) == 0 && Total(events, ACredit, w) == 0
  {
    if events != [] {
      NothingNumbered(events[..|events| - 1], w);
    }
  }

  lemma QuietFits(cfg: Config, s: State, s': State, events: seq<Event>, w: int)
    requires cfg.policy.Valid() && GrantsFit(cfg, s, w)
    requires s'.slot == s.slot && s'.log == s.log + events
    requires forall k :: 0 <= k < |events| ==> Plain(events[k]) || events[k].Took? || events[k].Unbacked?
    ensures GrantsFit(cfg, s', w)
  {
    NothingNumbered(events, w);
    TotalConcat(s.log, events, AGrant, w);
    TotalConcat(s.log, events, AReturn, w);
    PlainTail(s.log, events);
  }

  lemma CreditFits(slot: Slot, now: int, p: Policy, d: Due, w: int)
    requires p.Valid() && WellKept(slot) && d.window >= 0 && d.tokens <= p.leaseSize
    ensures var run := ReleaseScript(slot, now, d.tokens, d.window);
            Batches(run.slot, p, w) <= Batches(slot, p, w) + if run.released && d.window == w then 1 else 0
  {
    ReleaseCreditsOneWindow(slot, now, d.tokens, d.window);
    if Alive(slot, now) && d.window == w {
      OneBatchMore(slot.value.value, d.tokens, p.leaseSize);
    }
  }

  lemma {:induction false} ReleaseFits(cfg: Config, s: State, inst: Inst, s': State, w: int)
    requires cfg.policy.Valid() && SaneKey(cfg, s) && Placed(cfg, s.now, s.slot, inst) && inst.pending.Some?
    requires GrantsFit(cfg, s, w)
    requires s'.slot == ReleaseEffect(s, inst).slot && s'.log == s.log + ReleaseEffect(s, inst).events
    ensures GrantsFit(cfg, s', w)
  {
    var e := ReleaseEffect(s, inst).events[0];
    CreditFits(s.slot, s.now, cfg.policy, inst.pending.value, w);
    TotalAppend(s.log, e, AGrant, w);
    TotalAppend(s.log, e, AReturn, w);
    PlainTail(s.log, [e]);
  }

  lemma {:induction false} StepFits(cfg: Config, s: State, step: Step, w: int)
    requires cfg.policy.Valid() && Inv(cfg, s) && Enabled(cfg, s, step) && GrantsFit(cfg, s, w)
    ensures GrantsFit(cfg, Apply(cfg, s, step), w)
  {
    var s' := Apply(cfg, s, step);
    if step.Stray? {
      StrayExtends(cfg, s);
      var reply := LeaseScript(s.slot, s.now, cfg.policy).reply;
      LeaseFits(cfg, s, s', StrayEvents(s.slot, s.now, reply, cfg.policy.quota), w);
    } else if !Global(step) {
      InstStepFits(cfg, s, s.insts[step.i], step, s', w);
    }
  }

  lemma {:induction false} InstStepFits(cfg: Config, s: State, inst: Inst, step: Step, s': State, w: int)
    requires cfg.policy.Valid() && SaneKey(cfg, s) && Chronicle(cfg, s) && GrantsFit(cfg, s, w)
    requires Placed(cfg, s.now, s.slot, inst) && Timely(cfg, s.now, inst)
    requires !Global(step) && InstEnabled(cfg, s.now, inst, step)
    requires var e := InstEffect(cfg, s, inst, step); s'.slot == e.slot && s'.log == s.log + e.events
    ensures GrantsFit(cfg, s', w)
  {
    var e := InstEffect(cfg, s, inst, step);
    if step.Execute? {
      LeaseExtends(cfg, s);
      LeaseFits(cfg, s, s', e.events, w);
    } else if step.Release? {
      ReleaseFits(cfg, s, inst, s', w);
    } else {
      SlotKept(cfg, s, inst, step);
      EventsPlain(cfg, s, inst, step);
      QuietFits(cfg, s, s', e.events, w);
    }
  }

  lemma {:induction false} GrantsFitAfter(cfg: Config, start: State, steps: seq<Step>, w: int)
    requires cfg.policy.Valid() && Init(start) && Runs(cfg, start, steps)
    ensures GrantsFit(cfg, After(cfg, start, steps), w)
    decreases |steps|
  {
    if steps == [] {
      DivUnique(cfg.policy.leaseSize - 1, cfg.policy.leaseSize, 0);
    } else {
      InvAfter(cfg, start, steps[..|steps| - 1]);
      GrantsFitAfter(cfg, start, steps[..|steps| - 1], w);
      StepFits(cfg, After(cfg, start, steps[..|steps| - 1]), steps[|steps| - 1], w);
    }
  }

  /** A window grants at most ceil(quota / lease_size) leases, and one more for every credit it received. */
  lemma {:induction false} GrantsAreLimited(cfg: Config, s: State, w: int)
    requires cfg.policy.Valid() && Reachable(cfg, s)
    ensures Total(s.log, AGrant, w) <= FullBatches(s.log, cfg.policy, w) + Total(s.log, AReturn, w)
    ensures w !in Windows(s.log) ==> Total(s.log, AGrant, w) == 0
  {
    var start, steps :| Init(start) && Runs(cfg, start, steps) && After(cfg, start, steps) == s;
    GrantsFitAfter(cfg, start, steps, w);
    InvReachable(cfg, s);
    if w !in Windows(s.log) {
      NothingGrantedYet(cfg, s, w);
    }
  }

  lemma OneMoreSum(x: nat, y: nat, k: nat, a: nat, b: nat, c: nat)
    requires x <= k * a && y <= k * b
    ensures x + y <= k * (a + (b + c))
  {
    Distributes(k, a, b);
    MulMono(a + b, a + (b + c), k);
  }

  lemma {:induction false} UntokenedSum(insts: seq<Inst>, w: int, k: nat)
    requires forall i :: 0 <= i < |insts| ==> Count(insts[i].untokened, w) <= k * Count(insts[i].inserted, w)
    ensures 0 <= Sum(insts, SMade, w) && 0 <= Sum(insts, SFree, w) <= k * Sum(insts, SMade, w)
  {
    if insts != [] {
      var n := |insts| - 1;
      var last := insts[n];
      UntokenedSum(insts[..n], w, k);
      OneMoreSum(Sum(insts[..n], SFree, w), Count(last.untokened, w), k, Sum(insts[..n], SMade, w),
                 Count(last.inserted, w), ComingAll(last.calls, w));
    }
  }

  /** Over all instances, a window's Ok answers without a token number at most K for each of its grants. */
  lemma UntokenedFollowGrants(cfg: Config, s: State, w: int, k: nat)
    requires cfg.policy.Valid() && ReachableWith(cfg, s, k)
    ensures Total(s.log, AFree, w) <= k * Total(s.log, AGrant, w)
  {
    InvReachable(cfg, s);
    assert NumbersHold(s, w);
    forall i | 0 <= i < |s.insts| ensures Count(s.insts[i].untokened, w) <= k * Count(s.insts[i].inserted, w) {
      UntokenedPerWindow(cfg, s, i, w, k);
    }
    UntokenedSum(s.insts, w, k);
    AtMostTimes(Total(s.log, AFree, w), k, Sum(s.insts, SMade, w), Total(s.log, AGrant, w));
  }

  /** Ok answers that went by a bucket of window `w`, with a token of it or without. */
  function Admissions(log: seq<Event>, w: int): nat {
    Taken(log, w) + Total(log, AFree, w)
  }

  lemma {:induction false} NoReturnNoCredit(log: seq<Event>, w: int)
    requires Total(log, AReturn, w) == 0
    ensures Total(log, ACredit, w) == 0
  {
    if log != [] {
      NoReturnNoCredit(log[..|log| - 1], w);
    }
  }

  lemma UntokenedPerWindowAll(cfg: Config, s: State, w: int, k: nat)
    requires cfg.policy.Valid() && ReachableWith(cfg, s, k)
    ensures Total(s.log, AFree, w) <= k * (FullBatches(s.log, cfg.policy, w) + Total(s.log, AReturn, w))
  {
    GrantsAreLimited(cfg, s, w);
    UntokenedFollowGrants(cfg, s, w, k);
    AtMostTimes(Total(s.log, AFree, w), k, Total(s.log, AGrant, w),
                FullBatches(s.log, cfg.policy, w) + Total(s.log, AReturn, w));
  }

  lemma AtMostTimes(x: nat, k: nat, a: int, b: int)
    requires x <= k * a && a <= b
    ensures x <= k * b
  {
    MulMono(a, b, k);
  }

  /** How many requests a window admits, over all instances and every run with at most K calls for the id at once in
      each
      instance: what was credited and K for each lease come on top of the quota. */
  lemma {:induction false} AdmittedPerWindow(cfg: Config, s: State, w: int, k: nat)
    requires cfg.policy.Valid() && ReachableWith(cfg, s, k)
    ensures Admissions(s.log, w)
            <= cfg.policy.quota + Total(s.log, ACredit, w)
               + k * (FullBatches(s.log, cfg.policy, w) + Total(s.log, AReturn, w))
    ensures Total(s.log, AOver, w) == 0 ==>
              Admissions(s.log, w) <= cfg.policy.quota
                                      + k * (FullBatches(s.log, cfg.policy, w) + Total(s.log, AReturn, w))
  {
    NoOverSpend(cfg, s, w);
    UntokenedPerWindowAll(cfg, s, w, k);
  }

  /** A window never opened admits nothing. */
  lemma {:induction false} NoWindowNoAdmissions(cfg: Config, s: State, w: int)
    requires cfg.policy.Valid() && Reachable(cfg, s) && w !in Windows(s.log)
    ensures Admissions(s.log, w) == 0
  {
    assert Taken(s.log, w) == 0 by {
      NoOverSpend(cfg, s, w);
    }
    assert Total(s.log, AFree, w) == 0 by {
      AllRunsLimited(cfg, s);
      GrantsAreLimited(cfg, s, w);
      UntokenedFollowGrants(cfg, s, w, cfg.slots);
      NoneOfNone(Total(s.log, AFree, w), cfg.slots, Total(s.log, AGrant, w));
    }
  }

  lemma NoneOfNone(x: nat, k: nat, a: nat)
    requires x <= k * a && a == 0
    ensures x == 0
  {
  }

  /** A window that nothing was credited to admits at most quota + K * ceil(quota / lease_size). */
  lemma {:induction false} AdmittedWithoutCredit(cfg: Config, s: State, w: int, k: nat)
    requires cfg.policy.Valid() && ReachableWith(cfg, s, k) && Total(s.log, AReturn, w) == 0
    ensures Admissions(s.log, w) <= cfg.policy.quota + k * CeilDiv(cfg.policy.quota, cfg.policy.leaseSize)
  {
    NoReturnNoCredit(s.log, w);
    AdmittedPerWindow(cfg, s, w, k);
    MulMono(FullBatches(s.log, cfg.policy, w), CeilDiv(cfg.policy.quota, cfg.policy.leaseSize), k);
  }

  /** What an answer adds to the accounts that admissions and the ledger share. */
  function FreeOf(inst: Inst, step: Step, w: int): nat {
    if !Backed(inst, step) && WindowOf(inst.inserted, EpochBehind(inst, step)) == w then 1 else 0
  }

  /** The bucket that the answered call had relied on. */
  function EpochBehind(inst: Inst, step: Step): nat {
    if (step.Consume? || step.Remove?) && step.t < |inst.calls| && EpochOf(inst.calls[step.t]).Some?
    then EpochOf(inst.calls[step.t]).value
    else 0
  }

  function OverOf(inst: Inst, step: Step, w: int): nat {
    if Backed(inst, step) && inst.snapped && inst.bucket.value.window == w then 1 else 0
  }

  lemma {:induction false} AnswerEvents(cfg: Config, s: State, step: Step, w: int)
    requires Admits(cfg, s, step) && step.Consume?
    ensures var inst := s.insts[step.i];
            var events := ConsumeEffect(s, inst, step.t, step.sample).events;
            && Total(events, AIssue, w) == Total(events, ACredit, w) == 0
            && Total(events, AFree, w) == FreeOf(inst, step, w)
            && Total(events, AOver, w) == OverOf(inst, step, w)
  {
    var inst := s.insts[step.i];
    var e := ConsumeEffect(s, inst, step.t, step.sample).events[0];
    TotalOfOne(e, AIssue, w);
    TotalOfOne(e, ACredit, w);
    TotalOfOne(e, AFree, w);
    TotalOfOne(e, AOver, w);
  }

  lemma {:induction false} RemovalEvents(cfg: Config, s: State, step: Step, w: int)
    requires Admits(cfg, s, step) && step.Remove?
    ensures var inst := s.insts[step.i];
            var events := RemoveEffect(s, inst, step.t).events;
            && Total(events, AIssue, w) == Total(events, ACredit, w) == 0
            && Total(events, AFree, w) == FreeOf(inst, step, w)
            && Total(events, AOver, w) == OverOf(inst, step, w)
  {
    var inst := s.insts[step.i];
    var freed := UnbackedBy(inst, step.t, inst.calls[step.t].epoch, s.now);
    DiscardedOthers(inst, w);
    TotalAppend(Discarded(inst), freed, AIssue, w);
    TotalAppend(Discarded(inst), freed, ACredit, w);
    TotalAppend(Discarded(inst), freed, AFree, w);
    TotalAppend(Discarded(inst), freed, AOver, w);
  }

  lemma DiscardedOthers(inst: Inst, w: int)
    ensures Total(Discarded(inst), AIssue, w) == Total(Discarded(inst), ACredit, w) == 0
    ensures Total(Discarded(inst), AFree, w) == Total(Discarded(inst), AOver, w) == 0
  {
    if inst.bucket.Some? {
      TotalOfOne(Discarded(inst)[0], AIssue, w);
      TotalOfOne(Discarded(inst)[0], ACredit, w);
      TotalOfOne(Discarded(inst)[0], AFree, w);
      TotalOfOne(Discarded(inst)[0], AOver, w);
    }
  }

  /** What a step adds to the admissions of window `w` over what it takes from the tokens left. */
  function Uncovered(s: State, s': State, w: int): int {
    Admissions(s'.log, w) - Admissions(s.log, w) - (Unspent(s, w) - Unspent(s', w))
  }

  /** The same, where tokens recorded by a shutdown snapshot do not count as left. */
  function Overdrawn(s: State, s': State, w: int): int {
    Admissions(s'.log, w) - Admissions(s.log, w) - (Unclaimed(s, w) - Unclaimed(s', w))
  }

  lemma WhatIsLeft(s: State, w: int)
    requires LedgerHolds(s, w)
    ensures Unspent(s, w) == Total(s.log, AIssue, w) + Total(s.log, ACredit, w) - Taken(s.log, w)
    ensures Unclaimed(s, w) == Total(s.log, AIssue, w) - Total(s.log, AFair, w)
  {
    OnInstancesIsSum(s.insts, w);
  }

  lemma CostFromEvents(s: State, s': State, events: seq<Event>, w: int)
    requires LedgerHolds(s, w) && LedgerHolds(s', w) && s'.log == s.log + events
    requires Total(events, AIssue, w) == Total(events, ACredit, w) == 0
    ensures Uncovered(s, s', w) == Total(events, AFree, w)
    ensures Overdrawn(s, s', w) == Total(events, AFree, w) + Total(events, AOver, w)
  {
    WhatIsLeft(s, w);
    WhatIsLeft(s', w);
    TotalConcat(s.log, events, AIssue, w);
    TotalConcat(s.log, events, ACredit, w);
    TotalConcat(s.log, events, AFree, w);
    TotalConcat(s.log, events, AOver, w);
  }

  lemma {:induction false} AdmissionEvents(cfg: Config, s: State, step: Step, w: int)
    requires Admits(cfg, s, step)
    ensures var events := InstEffect(cfg, s, s.insts[step.i], step).events;
            && Total(events, AIssue, w) == Total(events, ACredit, w) == 0
            && Total(events, AFree, w) == FreeOf(s.insts[step.i], step, w)
            && Total(events, AOver, w) == OverOf(s.insts[step.i], step, w)
  {
    if step.Consume? {
      AnswerEvents(cfg, s, step, w);
    } else {
      RemovalEvents(cfg, s, step, w);
    }
  }

  lemma LedgerNow(cfg: Config, s: State, w: int)
    requires cfg.policy.Valid() && Reachable(cfg, s)
    ensures LedgerHolds(s, w)
  {
    InvReachable(cfg, s);
  }

  lemma LedgerNext(cfg: Config, s: State, step: Step, w: int)
    requires cfg.policy.Valid() && Reachable(cfg, s) && Enabled(cfg, s, step)
    ensures LedgerHolds(Apply(cfg, s, step), w)
  {
    InvReachable(cfg, s);
    InvStep(cfg, s, step);
  }

  lemma StepExtendsLog(cfg: Config, s: State, step: Step)
    requires !Global(step) && Enabled(cfg, s, step)
    ensures Apply(cfg, s, step).log == s.log + InstEffect(cfg, s, s.insts[step.i], step).events
  {
  }

  lemma AdmissionBooked(cfg: Config, s: State, step: Step, s': State, events: seq<Event>, w: int)
    requires cfg.policy.Valid() && Reachable(cfg, s) && Admits(cfg, s, step)
    requires s' == Apply(cfg, s, step) && events == InstEffect(cfg, s, s.insts[step.i], step).events
    ensures LedgerHolds(s, w) && LedgerHolds(s', w) && s'.log == s.log + events
  {
    LedgerNow(cfg, s, w);
    LedgerNext(cfg, s, step, w);
    StepExtendsLog(cfg, s, step);
  }

  lemma {:induction false} AdmissionCost(cfg: Config, s: State, step: Step, s': State, w: int)
    requires cfg.policy.Valid() && Reachable(cfg, s) && Admits(cfg, s, step) && s' == Apply(cfg, s, step)
    ensures Uncovered(s, s', w) == FreeOf(s.insts[step.i], step, w)
    ensures Overdrawn(s, s', w) == FreeOf(s.insts[step.i], step, w) + OverOf(s.insts[step.i], step, w)
  {
    var events := InstEffect(cfg, s, s.insts[step.i], step).events;
    AdmissionEvents(cfg, s, step, w);
    AdmissionBooked(cfg, s, step, s', events, w);
    CostFromEvents(s, s', events, w);
  }

  /** Exactly when one more admitted request is covered by a token, seen from the call: admissions grow by what the
      tokens left shrink by, in every window, if and only if the call finds its bucket there, unexpired at its
      deadline test and not empty; and by what is left to Redis and its lessees too, if and only if moreover the
      bucket has not been recorded by a shutdown snapshot. */
  lemma {:induction false} CoveredAdmission(cfg: Config, s: State, step: Step, s': State)
    requires cfg.policy.Valid() && Reachable(cfg, s) && Admits(cfg, s, step) && s' == Apply(cfg, s, step)
    ensures (forall w :: Uncovered(s, s', w) == 0) <==> Backed(s.insts[step.i], step)
    ensures (forall w :: Overdrawn(s, s', w) == 0) <==> Backed(s.insts[step.i], step) && !s.insts[step.i].snapped
  {
    var inst := s.insts[step.i];
    forall w ensures Uncovered(s, s', w) == FreeOf(inst, step, w)
                     && Overdrawn(s, s', w) == FreeOf(inst, step, w) + OverOf(inst, step, w)
    {
      AdmissionCost(cfg, s, step, s', w);
    }
    CoveredIff(s, s', inst, step);
  }

  lemma {:induction false} CoveredIff(s: State, s': State, inst: Inst, step: Step)
    requires forall w :: Uncovered(s, s', w) == FreeOf(inst, step, w)
    requires forall w :: Overdrawn(s, s', w) == FreeOf(inst, step, w) + OverOf(inst, step, w)
    ensures (forall w :: Uncovered(s, s', w) == 0) <==> Backed(inst, step)
    ensures (forall w :: Overdrawn(s, s', w) == 0) <==> Backed(inst, step) && !inst.snapped
  {
    var w := if Backed(inst, step) then inst.bucket.value.window else WindowOf(inst.inserted, EpochBehind(inst, step));
    assert Uncovered(s, s', w) == FreeOf(inst, step, w);
    assert Overdrawn(s, s', w) == FreeOf(inst, step, w) + OverOf(inst, step, w);
  }
}
