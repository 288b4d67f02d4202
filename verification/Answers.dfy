/** What the step system tells its callers, against what it writes into its history; and what its steps do, said with
    the bucket, the key and the clock. */
module Answers {
  import opened Basics
  import opened RedisScripts
  import opened StoreRules
  import opened Protocol

  predicate Admits(e: Event) {
    e.Took? || e.Unbacked?
  }

  /** Ok answers recorded in a history, and Ok answers given. */
  function RecordedOks(log: seq<Event>): nat {
    if log == [] then 0 else RecordedOks(log[..|log| - 1]) + if Admits(log[|log| - 1]) then 1 else 0
  }

  function Oks(told: seq<Told>): nat {
    if told == [] then 0 else Oks(told[..|told| - 1]) + if told[|told| - 1].answer.Admitted? then 1 else 0
  }

  lemma {:induction false} RecordedOksConcat(log: seq<Event>, more: seq<Event>)
    ensures RecordedOks(log + more) == RecordedOks(log) + RecordedOks(more)
    decreases |more|
  {
    if more == [] {
      assert log + more == log;
    } else {
      var n := |more| - 1;
      RecordedOksConcat(log, more[..n]);
      assert (log + more)[..|log + more| - 1] == log + more[..n];
    }
  }

  lemma {:induction false} OksConcat(told: seq<Told>, more: seq<Told>)
    ensures Oks(told + more) == Oks(told) + Oks(more)
    decreases |more|
  {
    if more == [] {
      assert told + more == told;
    } else {
      var n := |more| - 1;
      OksConcat(told, more[..n]);
      assert (told + more)[..|told + more| - 1] == told + more[..n];
    }
  }

  lemma {:induction false} NoRecordedOks(log: seq<Event>)
    requires forall k :: 0 <= k < |log| ==> !Admits(log[k])
    ensures RecordedOks(log) == 0
  {
    if log != [] {
      NoRecordedOks(log[..|log| - 1]);
    }
  }

  lemma {:induction false} LastIsOk(log: seq<Event>)
    requires log != [] && Admits(log[|log| - 1]) && forall k :: 0 <= k < |log| - 1 ==> !Admits(log[k])
    ensures RecordedOks(log) == 1
  {
    NoRecordedOks(log[..|log| - 1]);
  }

  lemma {:induction false} NoneUndelivered(calls: seq<Call>)
    ensures forall k :: 0 <= k < |Undelivered(calls)| ==> !Admits(Undelivered(calls)[k])
  {
    if calls != [] {
      NoneUndelivered(calls[..|calls| - 1]);
    }
  }

  /** What one step answers, from the bucket, the outcome and the clock readings it is taken with. A take shows the
      tokens left in the bucket; an answer without a token shows none; a cache error comes from a lease without a
      reply, told by its leader, and no other step gives one. */
  lemma {:induction false} StepAnswers(cfg: Config, s: State, step: Step)
    requires Enabled(cfg, s, step) && !Global(step)
    ensures var inst := s.insts[step.i];
            var e := InstEffect(cfg, s, inst, step);
            && (e.answer == Some(CacheError) <==> step.Notify? && inst.calls[step.t].outcome.Broken?)
            && (e.answer.Some? && e.answer.value.Admitted? <==>
                  step.Remove? || (step.Consume? && (inst.bucket.None? || step.sample < inst.bucket.value.expiresAt)))
            && (e.answer.Some? && e.answer.value.Admitted? ==>
                  && e.events != []
                  && var last := e.events[|e.events| - 1];
                     if step.Consume? && inst.bucket.Some? && inst.bucket.value.tokens > 0 then
                       && last == Took(s.now, inst.bucket.value.window, !inst.snapped)
                       && e.inst.bucket == Some(inst.bucket.value.(tokens := e.answer.value.left))
                       && e.answer.value.left + 1 == inst.bucket.value.tokens
                     else
                       last.Unbacked? && last.at == s.now && e.answer.value.left == 0)
  {
  }

  predicate Serves(inst: Inst, step: Step) {
    step.Remove? || (step.Consume? && (inst.bucket.None? || step.sample < inst.bucket.value.expiresAt))
  }

  lemma {:induction false} OthersLogNone(cfg: Config, s: State, step: Step)
    requires Enabled(cfg, s, step) && !Global(step) && !Serves(s.insts[step.i], step)
    ensures RecordedOks(InstEffect(cfg, s, s.insts[step.i], step).events) == 0
  {
    var inst := s.insts[step.i];
    NoneUndelivered(inst.calls);
    NoRecordedOks(InstEffect(cfg, s, inst, step).events);
  }

  lemma {:induction false} ServingLogsOne(cfg: Config, s: State, step: Step)
    requires Enabled(cfg, s, step) && !Global(step) && Serves(s.insts[step.i], step)
    ensures RecordedOks(InstEffect(cfg, s, s.insts[step.i], step).events) == 1
  {
    LastIsOk(InstEffect(cfg, s, s.insts[step.i], step).events);
  }

  lemma {:induction false} LocalStepLogsItsAnswer(cfg: Config, s: State, step: Step)
    requires Enabled(cfg, s, step) && !Global(step)
    ensures RecordedOks(InstEffect(cfg, s, s.insts[step.i], step).events) == Oks(Tells(cfg, s, step))
  {
    StepAnswers(cfg, s, step);
    if Serves(s.insts[step.i], step) {
      ServingLogsOne(cfg, s, step);
    } else {
      OthersLogNone(cfg, s, step);
    }
  }

  lemma {:induction false} StepLogsItsAnswer(cfg: Config, s: State, step: Step)
    requires Enabled(cfg, s, step)
    ensures RecordedOks(Apply(cfg, s, step).log) == RecordedOks(s.log) + Oks(Tells(cfg, s, step))
  {
    if step.Stray? {
      var run := LeaseScript(s.slot, s.now, cfg.policy);
      var events := StrayEvents(s.slot, s.now, run.reply, cfg.policy.quota);
      NoRecordedOks(events);
      RecordedOksConcat(s.log, events);
    } else if !Global(step) {
      LocalStepLogsItsAnswer(cfg, s, step);
      RecordedOksConcat(s.log, InstEffect(cfg, s, s.insts[step.i], step).events);
    }
  }

  /** Over every run, from any state: the history records as many takes and answers without a token as callers were
      told Ok. The bounds on recorded admissions are bounds on Ok answers. */
  lemma {:induction false} OkAnswersAreRecorded(cfg: Config, s: State, steps: seq<Step>)
    requires Runs(cfg, s, steps)
    ensures RecordedOks(After(cfg, s, steps).log) == RecordedOks(s.log) + Oks(TellsAll(cfg, s, steps))
    decreases |steps|
  {
    if steps != [] {
      var front, last := steps[..|steps| - 1], steps[|steps| - 1];
      OkAnswersAreRecorded(cfg, s, front);
      StepLogsItsAnswer(cfg, After(cfg, s, front), last);
      OksConcat(TellsAll(cfg, s, front), Tells(cfg, After(cfg, s, front), last));
    }
  }

  /** A lease ends without a reply only because the connection failed or SETEX refused to open a window of no
      length, and the leader passes on the outcome it left with. */
  lemma {:induction false} BrokenComesFrom(cfg: Config, s: State, step: Step)
    requires Enabled(cfg, s, step) && (step.Execute? || step.Abort? || step.Deliver? || step.Leave?)
    ensures var before := s.insts[step.i].calls[step.t];
            var inst := InstEffect(cfg, s, s.insts[step.i], step).inst;
            && step.t < |inst.calls|
            && var call := inst.calls[step.t];
            && (call.Leaving? && call.outcome.Broken? <==>
                  step.Abort?
                  || (step.Execute? && cfg.policy.resetIn == 0
                      && (s.slot.None? || (s.slot.value.expiry.Some? && s.slot.value.expiry.value < s.now))))
            && (step.Leave? ==> call.Notifying? && call.outcome == before.outcome)
  {
  }

  /** Where a check leads, with a flag load that came before the flag was set or not. */
  lemma {:induction false} CheckLeads(cfg: Config, s: State, step: Step)
    requires Enabled(cfg, s, step) && step.Check?
    ensures var inst := s.insts[step.i];
            var e := InstEffect(cfg, s, inst, step);
            var b := inst.bucket;
            && e.inst.bucket == b && e.slot == s.slot && e.events == []
            && (if b.Some? && b.value.exhausted && !step.stale then
                  e.inst.calls[step.t].Idle? && e.answer.Some? && e.answer.value.Exhausted?
                else if b.Some? && b.value.tokens > 0 && s.now < b.value.expiresAt then
                  e.inst.calls[step.t].Past? && e.answer.None?
                else
                  e.inst.calls[step.t].Claiming? && e.answer.None?)
  {
  }

  /** The cleanup tick lists a bucket only once it has expired, and what it listed is gone after the removal, whatever
      bucket is there by then. */
  lemma {:induction false} CleanupRemoves(cfg: Config, s: State, step: Step)
    requires Enabled(cfg, s, step) && (step.SweepList? || step.SweepRemove?)
    ensures var inst, inst' := s.insts[step.i], Apply(cfg, s, step).insts[step.i];
            && Apply(cfg, s, step).slot == s.slot
            && (step.SweepList? ==>
                  inst.bucket.Some? && inst.bucket.value.expiresAt <= s.now && inst'.bucket == inst.bucket
                  && inst'.sweeping)
            && (step.SweepRemove? ==> inst.sweeping && inst'.bucket.None? && !inst'.sweeping)
  {
  }

  /** An orphaned request takes a batch that nobody gets. */
  lemma {:induction false} StrayTakesBatch(cfg: Config, s: State)
    requires s.slot.Some? && s.slot.value.expiry.Some? && s.now <= s.slot.value.expiry.value
    requires s.slot.value.value > 0 && cfg.policy.leaseSize > 0
    ensures var n, w := Min(s.slot.value.value, cfg.policy.leaseSize), s.slot.value.expiry.value;
            var s' := Apply(cfg, s, Stray);
            && s'.slot == Some(Entry(s.slot.value.value - n, Some(w))) && s'.insts == s.insts
            && s'.log == s.log + [Granted(w), Lost(w, n)]
  {
  }

  /** The shutdown snapshot of an instance: a bucket with a deadline ahead and tokens, or with a deadline ahead and an
      emptiness test before its last takes, is recorded with its tokens and its window; any other is not, and the bucket
      is left as it is. With `seen` false this is what the class records. */
  lemma {:induction false} SnapshotRecords(s: State, inst: Inst, sample: int, seen: bool)
    requires inst.pending.None?
    ensures var after := SnapshotEffect(s, inst, sample, seen).inst;
            && after.bucket == inst.bucket
            && (after.pending.Some? <==>
                  && inst.bucket.Some? && sample < inst.bucket.value.expiresAt
                  && (inst.bucket.value.tokens > 0 || seen))
            && (after.pending.Some? ==>
                  after.pending == Some(Due(inst.bucket.value.tokens, inst.bucket.value.window)))
            && after.snapped == (after.pending.Some? || inst.snapped)
  {
  }
}
