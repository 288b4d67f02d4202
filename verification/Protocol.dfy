/** The distributed protocol for one bucket id: any number of instances, each with any number of concurrent
    `consume` calls, one Redis key, and integer time in milliseconds. A step is one map operation, one atomic
    load or update, or one script run; everything that the code does between two of them may be interleaved. */
module Protocol {
  import opened Basics
  import opened Policies
  import opened Buckets
  import opened RedisScripts
  import opened StoreRules

  /** `slots` bounds the concurrent `consume` calls of one instance. `gap` bounds the delay between the two clock
      samples that make a deadline (`started.elapsed()` and the one in `Bucket::new`), `lag` the delay between a
      deadline test, of `consume` or of the shutdown snapshot, and the token update or load that follows it. `cleanup`
      says whether there is a background loop at all. */
  datatype Config = Config(policy: Policy, slots: nat, gap: nat, lag: nat, cleanup: bool)

  /** What `lease` returned. `epoch` counts the instance's buckets. A refusal also remembers when its duration was
      measured, until which moment, and the window end behind that. */
  datatype Outcome = Leased(epoch: nat) | Refused(after: nat, asOf: int, due: int, end: int) | Broken

  /** Where a `consume` call stands. `n` names the `Notify` it has hold of. */
  datatype Call =
    | Idle                                  // no call in this slot
    | Checking                              // head of the loop of `ensure_refilled`
    | Claiming                              // `check` said no; about to open the refills entry
    | Cloned(n: nat)                        // found another leader, not registered with its Notify yet
    | Waiting(n: nat)                       // registered
    | Leading(n: nat)                       // owns the refills entry
    | Requested(n: nat, started: int)       // script sent
    | Replied(n: nat, started: int, executed: int, reply: Reply, credited: nat)
    | Leaving(n: nat, outcome: Outcome)     // `lease` returned; the refills entry is still there
    | Notifying(removed: Option<nat>, outcome: Outcome)  // entry removed; its waiters are about to be notified
    | Past(epoch: nat)                      // `ensure_refilled` returned Ok
    | Removing(epoch: nat)                  // `consume` saw an expired bucket and dropped its guard

  predicate Leads(c: Call) {
    c.Leading? || c.Requested? || c.Replied? || c.Leaving?
  }

  /** The entry of the refills map; `leader` records which call inserted it. */
  datatype Refill = Refill(notify: nat, leader: nat)

  datatype Phase = Serving | Stopping | Crashed

  /** A pair recorded by the shutdown snapshot whose release script has not run. */
  datatype Due = Due(tokens: nat, window: int)

  /** The zero reply behind an exhausted flag: its window, and what had been credited to that window by then. */
  datatype Mark = Mark(window: int, credited: nat)

  datatype Inst = Inst(
    bucket: Option<BucketState>,
    refill: Option<Refill>,
    calls: seq<Call>,
    phase: Phase,
    sweeping: bool,            // the cleanup tick listed the bucket as expired and will remove it
    pending: Option<Due>,
    // history, read by no decision of the code
    began: seq<int>,           // when the call in each slot began
    since: int,                // when the bucket was inserted
    snapped: bool,             // the bucket is the one recorded by the shutdown snapshot
    stopped: int,              // the clock sample with which the shutdown snapshot tested the deadline
    nextNotify: nat,
    inserted: seq<int>,        // the windows of the buckets inserted so far; an epoch is a position in it, from 1
    untokened: seq<int>,       // for each Ok answer without a token, the window of the bucket it had relied on
    raced: bool,               // a refill was claimed while the bucket was usable
    mark: Option<Mark>)

  /** The observable history. `fair` is false for a token taken from a bucket after its shutdown snapshot. */
  datatype Event =
    | Opened(at: int, window: int, quota: nat)
    | Granted(window: int)                          // a lease that handed out tokens
    | Lapsed(window: int, n: nat)                   // tokens still in Redis when the next window opened
    | Took(at: int, window: int, fair: bool)
    | Unbacked(at: int, window: int, began: int)    // an Ok answer without a token
    | Lost(window: int, n: nat)                     // in a reply, or in a bucket that went away
    | Wasted(window: int, n: nat)                   // in a bucket that went away after its shutdown snapshot
    | Dropped(window: int, n: nat)                  // a release that Redis refused or never saw
    | Credited(window: int, n: nat)

  datatype State = State(now: int, slot: Slot, insts: seq<Inst>, log: seq<Event>)

  datatype Step =
    | Tick(d: nat)
    | Join                                          // a new instance, or a restarted one
    | Stray                                         // a lease request whose sender gave up or died still runs
    | Crash(i: nat)
    | Spawn(i: nat, t: nat)
    | Check(i: nat, t: nat, stale: bool)
    | Claim(i: nat, t: nat)
    | Register(i: nat, t: nat)
    | Cancel(i: nat, t: nat)                        // the client of a waiting call gives up
    | Send(i: nat, t: nat)
    | Execute(i: nat, t: nat)
    | Abort(i: nat, t: nat)                         // connection error, before or after the script ran
    | Deliver(i: nat, t: nat, received: int, born: int)
    | Leave(i: nat, t: nat)
    | Notify(i: nat, t: nat)
    | Consume(i: nat, t: nat, sample: int)
    | Remove(i: nat, t: nat)
    | SweepList(i: nat)
    | SweepRemove(i: nat)
    | Snapshot(i: nat, sample: int, seen: bool)     // `seen`: the emptiness test came before the last takes
    | Release(i: nat)
    | DropRelease(i: nat)                           // connection error

  predicate Global(step: Step) {
    step.Tick? || step.Join? || step.Stray?
  }

  predicate OfCall(step: Step) {
    step.Spawn? || step.Check? || step.Claim? || step.Register? || step.Cancel? || step.Send? || step.Execute?
    || step.Abort? || step.Deliver?
    || step.Leave? || step.Notify? || step.Consume? || step.Remove?
  }

  function NewInst(cfg: Config): Inst {
    Inst(None, None, Idles(cfg.slots), Serving, false, None, Zeros(cfg.slots), 0, false, 0, 0, [], [], false, None)
  }

  predicate Enabled(cfg: Config, s: State, step: Step) {
    Global(step) || (step.i < |s.insts| && InstEnabled(cfg, s.now, s.insts[step.i], step))
  }

  predicate InstEnabled(cfg: Config, now: int, inst: Inst, step: Step)
    requires !Global(step)
  {
    (OfCall(step) ==> step.t < |inst.calls|) &&
    match step
    case Crash(_) => inst.phase != Crashed
    case Spawn(_, t) => inst.calls[t].Idle? && inst.phase != Crashed
    case Check(_, t, stale) => inst.calls[t].Checking?
    case Claim(_, t) => inst.calls[t].Claiming?
    case Register(_, t) => inst.calls[t].Cloned?
    case Cancel(_, t) => inst.calls[t].Waiting?
    case Send(_, t) => inst.calls[t].Leading?
    case Execute(_, t) => inst.calls[t].Requested?
    case Abort(_, t) => inst.calls[t].Requested? || inst.calls[t].Replied?
    case Deliver(_, t, received, born) =>
      && inst.calls[t].Replied?
      && inst.calls[t].executed <= received <= born <= now
      && born - received <= cfg.gap
    case Leave(_, t) => inst.calls[t].Leaving?
    case Notify(_, t) => inst.calls[t].Notifying?
    case Consume(_, t, sample) =>
      && inst.calls[t].Past?
      && now - cfg.lag <= sample <= now
      && (inst.bucket.Some? ==> inst.since <= sample)
    case Remove(_, t) => inst.calls[t].Removing?
    case SweepList(_) =>
      && cfg.cleanup && inst.phase == Serving && !inst.sweeping
      && inst.bucket.Some? && inst.bucket.value.IsExpired(now)
    case SweepRemove(_) => inst.sweeping
    case Snapshot(_, sample, seen) =>
      && cfg.cleanup && inst.phase == Serving && !inst.sweeping
      && now - cfg.lag <= sample <= now
      && (inst.bucket.Some? ==> inst.since <= sample)
    case Release(_) => inst.pending.Some?
    case DropRelease(_) => inst.pending.Some?
    case _ => false
  }

  /** What a step does to its instance and to the Redis key, what it adds to the history, and what it answers. */
  datatype Effect = Effect(inst: Inst, slot: Slot, events: seq<Event>, answer: Option<Answer>)

  /** What a step tells the call it belongs to. */
  datatype Told = Told(i: nat, t: nat, answer: Answer)

  function SetCall(inst: Inst, t: nat, c: Call): Inst
    requires t < |inst.calls|
  {
    inst.(calls := inst.calls[t := c])
  }

  /** Overwriting or removing a bucket loses its tokens; a shutdown snapshot may have promised them to Redis. */
  function Discarded(inst: Inst): seq<Event> {
    match inst.bucket
    case None => []
    case Some(b) => [if inst.snapped then Wasted(b.window, b.tokens) else Lost(b.window, b.tokens)]
  }

  /** The window of the bucket that a call relied on. */
  function WindowOf(inserted: seq<int>, epoch: nat): int {
    if 1 <= epoch <= |inserted| then inserted[epoch - 1] else 0
  }

  function BeganAt(inst: Inst, t: nat): int {
    if t < |inst.began| then inst.began[t] else 0
  }

  function StartedAt(inst: Inst, t: nat, now: int): Inst {
    if t < |inst.began| then inst.(began := inst.began[t := now]) else inst
  }

  /** What an Ok answer without a token adds to the history. */
  function UnbackedBy(inst: Inst, t: nat, epoch: nat, now: int): Event {
    Unbacked(now, WindowOf(inst.inserted, epoch), BeganAt(inst, t))
  }

  function MoreUntokened(inst: Inst, epoch: nat): seq<int> {
    inst.untokened + [WindowOf(inst.inserted, epoch)]
  }

  function WithoutBucket(inst: Inst): Inst {
    inst.(bucket := None, snapped := false, mark := None)
  }

  /** Replies that die with their instance. */
  function Undelivered(calls: seq<Call>): seq<Event> {
    if calls == [] then []
    else
      var last, before := calls[|calls| - 1], Undelivered(calls[..|calls| - 1]);
      if last.Replied? then before + [Lost(last.reply.window, last.reply.leased)] else before
  }

  /** `notify_waiters`: the registered ones go back to the head of their loop. */
  function Wake(calls: seq<Call>, n: nat): (woken: seq<Call>)
    ensures |woken| == |calls|
    ensures forall t :: 0 <= t < |calls| ==> woken[t] == if calls[t] == Waiting(n) then Checking else calls[t]
  {
    if calls == [] then []
    else
      var last := calls[|calls| - 1];
      Wake(calls[..|calls| - 1], n) + [if last == Waiting(n) then Checking else last]
  }

  function Woken(calls: seq<Call>, removed: Option<nat>): (woken: seq<Call>)
    ensures |woken| == |calls|
  {
    if removed.Some? then Wake(calls, removed.value) else calls
  }

  function Idles(n: nat): (calls: seq<Call>)
    ensures |calls| == n
    ensures forall t :: 0 <= t < n ==> calls[t] == Idle
  {
    if n == 0 then [] else Idles(n - 1) + [Idle]
  }

  function Zeros(n: nat): (zeros: seq<int>)
    ensures |zeros| == n
  {
    if n == 0 then [] else Zeros(n - 1) + [0]
  }

  /** A lease on a dead key lets what is stored there lapse, and opens a window. */
  function OpeningEvents(slot: Slot, now: int, reply: Option<Reply>, quota: nat): seq<Event> {
    if reply.None? || Alive(slot, now) then []
    else
      var opening := Opened(now, reply.value.window, quota);
      if slot.Some? && slot.value.expiry.Some? && slot.value.value >= 0
      then [Lapsed(slot.value.expiry.value, slot.value.value), opening]
      else [opening]
  }

  /** The history of a lease script run at `now`. */
  function LeaseEvents(slot: Slot, now: int, reply: Option<Reply>, quota: nat): seq<Event> {
    var opening := OpeningEvents(slot, now, reply, quota);
    if reply.Some? && reply.value.leased > 0 then opening + [Granted(reply.value.window)] else opening
  }

  /** A lease whose reply goes nowhere. */
  function StrayEvents(slot: Slot, now: int, reply: Option<Reply>, quota: nat): seq<Event> {
    var events := LeaseEvents(slot, now, reply, quota);
    if reply.Some? then events + [Lost(reply.value.window, reply.value.leased)] else events
  }

  function CheckEffect(s: State, inst: Inst, t: nat, stale: bool): Effect
    requires t < |inst.calls|
  {
    var v := StoreRules.Check(inst.bucket, stale, s.now);
    var next := match v
      case Usable => Past(|inst.inserted|)
      case NeedsLease => Claiming
      case Reject(_) => Idle;
    Effect(SetCall(inst, t, next), s.slot, [], if v.Reject? then Some(Exhausted(v.after)) else None)
  }

  function ClaimEffect(s: State, inst: Inst, t: nat): Effect
    requires t < |inst.calls|
  {
    match inst.refill
    case Some(r) => Effect(SetCall(inst, t, Cloned(r.notify)), s.slot, [], None)
    case None =>
      var n := inst.nextNotify;
      var leader := inst.(
        calls := inst.calls[t := Leading(n)], refill := Some(Refill(n, t)), nextNotify := n + 1,
        raced := inst.raced || (inst.bucket.Some? && inst.bucket.value.Usable(s.now)));
      Effect(leader, s.slot, [], None)
  }

  function ExecuteEffect(cfg: Config, s: State, inst: Inst, t: nat): Effect
    requires t < |inst.calls| && inst.calls[t].Requested?
  {
    var c := inst.calls[t];
    var run := LeaseScript(s.slot, s.now, cfg.policy);
    var next :=
      if run.reply.None? then Leaving(c.n, Broken)
      else Replied(c.n, c.started, s.now, run.reply.value, Total(s.log, ACredit, run.reply.value.window));
    Effect(SetCall(inst, t, next), run.slot, LeaseEvents(s.slot, s.now, run.reply, cfg.policy.quota), None)
  }

  function AbortEffect(s: State, inst: Inst, t: nat): Effect
    requires t < |inst.calls| && Leads(inst.calls[t])
  {
    var c := inst.calls[t];
    Effect(SetCall(inst, t, Leaving(c.n, Broken)), s.slot,
           if c.Replied? then [Lost(c.reply.window, c.reply.leased)] else [], None)
  }

  function DeliverEffect(s: State, inst: Inst, t: nat, received: int, born: int): Effect
    requires t < |inst.calls| && inst.calls[t].Replied?
  {
    var c := inst.calls[t];
    match FinishLease(inst.bucket, c.reply, LeaseTtl(c.reply, c.started, received), born, s.now)
    case Inserted(b) =>
      Effect(inst.(calls := inst.calls[t := Leaving(c.n, Leased(|inst.inserted| + 1))], bucket := Some(b),
                   since := s.now, snapped := false, mark := None, inserted := inst.inserted + [b.window]),
             s.slot, Discarded(inst), None)
    case Marked(b, after) =>
      var refusal := Refused(after, s.now, b.expiresAt, KeyEnd(s.slot));
      Effect(inst.(calls := inst.calls[t := Leaving(c.n, refusal)], bucket := Some(b),
                   mark := Some(Mark(c.reply.window, c.credited))),
             s.slot, [], None)
    case Bare(after) =>
      var refusal := Refused(after, received, c.started + c.reply.pttl, c.reply.window);
      Effect(SetCall(inst, t, Leaving(c.n, refusal)), s.slot, [], None)
  }

  /** When the stored key ends or ended. */
  function KeyEnd(slot: Slot): int {
    if slot.Some? && slot.value.expiry.Some? then slot.value.expiry.value else 0
  }

  /** The leader removes whatever entry is there. */
  function LeaveEffect(s: State, inst: Inst, t: nat): Effect
    requires t < |inst.calls| && inst.calls[t].Leaving?
  {
    var removed := if inst.refill.Some? then Some(inst.refill.value.notify) else None;
    Effect(inst.(calls := inst.calls[t := Notifying(removed, inst.calls[t].outcome)], refill := None), s.slot, [], None)
  }

  function NotifyEffect(s: State, inst: Inst, t: nat): Effect
    requires t < |inst.calls| && inst.calls[t].Notifying?
  {
    var c := inst.calls[t];
    var woken := Woken(inst.calls, c.removed);
    var next := if c.outcome.Leased? then Past(c.outcome.epoch) else Idle;
    var answer := match c.outcome
      case Leased(_) => None
      case Refused(after, _, _, _) => Some(Exhausted(after))
      case Broken => Some(CacheError);
    Effect(inst.(calls := woken[t := next]), s.slot, [], answer)
  }

  function ConsumeEffect(s: State, inst: Inst, t: nat, sample: int): Effect
    requires t < |inst.calls| && inst.calls[t].Past?
  {
    var epoch := inst.calls[t].epoch;
    match Spend(inst.bucket, sample)
    case Outdated => Effect(SetCall(inst, t, Removing(epoch)), s.slot, [], None)
    case Spent(b) =>
      Effect(inst.(calls := inst.calls[t := Idle], bucket := Some(b)), s.slot,
             [Took(s.now, b.window, !inst.snapped)], Some(Admitted(b.tokens)))
    case _ =>
      Effect(inst.(calls := inst.calls[t := Idle], untokened := MoreUntokened(inst, epoch)), s.slot,
             [UnbackedBy(inst, t, epoch, s.now)], Some(Admitted(0)))
  }

  function RemoveEffect(s: State, inst: Inst, t: nat): Effect
    requires t < |inst.calls| && inst.calls[t].Removing?
  {
    var epoch := inst.calls[t].epoch;
    Effect(WithoutBucket(inst).(calls := inst.calls[t := Idle], untokened := MoreUntokened(inst, epoch)), s.slot,
           Discarded(inst) + [UnbackedBy(inst, t, epoch, s.now)], Some(Admitted(0)))
  }

  /** The emptiness test, the deadline test at `sample`, and then the load of the tokens to return. */
  function SnapshotEffect(s: State, inst: Inst, sample: int, seen: bool): Effect {
    var b := inst.bucket;
    if b.Some? && (b.value.tokens != 0 || seen) && !b.value.IsExpired(sample) then
      Effect(inst.(phase := Stopping, stopped := sample, snapped := true,
                   pending := Some(Due(b.value.tokens, b.value.window))),
             s.slot, [], None)
    else
      Effect(inst.(phase := Stopping, stopped := sample), s.slot, [], None)
  }

  function ReleaseEffect(s: State, inst: Inst): Effect
    requires inst.pending.Some?
  {
    var d := inst.pending.value;
    var run := ReleaseScript(s.slot, s.now, d.tokens, d.window);
    Effect(inst.(pending := None), run.slot,
           [if run.released then Credited(d.window, d.tokens) else Dropped(d.window, d.tokens)], None)
  }

  /** A release that was already sent may still run, so `pending` outlives the process. */
  function CrashEffect(s: State, inst: Inst): Effect {
    Effect(WithoutBucket(inst).(refill := None, calls := Idles(|inst.calls|), phase := Crashed, sweeping := false),
           s.slot, Discarded(inst) + Undelivered(inst.calls), None)
  }

  function InstEffect(cfg: Config, s: State, inst: Inst, step: Step): Effect
    requires !Global(step) && InstEnabled(cfg, s.now, inst, step)
  {
    match step
    case Crash(_) => CrashEffect(s, inst)
    case Spawn(_, t) => Effect(SetCall(StartedAt(inst, t, s.now), t, Checking), s.slot, [], None)
    case Check(_, t, stale) => CheckEffect(s, inst, t, stale)
    case Claim(_, t) => ClaimEffect(s, inst, t)
    case Register(_, t) => Effect(SetCall(inst, t, Waiting(inst.calls[t].n)), s.slot, [], None)
    case Cancel(_, t) => Effect(SetCall(inst, t, Idle), s.slot, [], None)
    case Send(_, t) => Effect(SetCall(inst, t, Requested(inst.calls[t].n, s.now)), s.slot, [], None)
    case Execute(_, t) => ExecuteEffect(cfg, s, inst, t)
    case Abort(_, t) => AbortEffect(s, inst, t)
    case Deliver(_, t, received, born) => DeliverEffect(s, inst, t, received, born)
    case Leave(_, t) => LeaveEffect(s, inst, t)
    case Notify(_, t) => NotifyEffect(s, inst, t)
    case Consume(_, t, sample) => ConsumeEffect(s, inst, t, sample)
    case Remove(_, t) => RemoveEffect(s, inst, t)
    case SweepList(_) => Effect(inst.(sweeping := true), s.slot, [], None)
    case SweepRemove(_) => Effect(WithoutBucket(inst).(sweeping := false), s.slot, Discarded(inst), None)
    case Snapshot(_, sample, seen) => SnapshotEffect(s, inst, sample, seen)
    case Release(_) => ReleaseEffect(s, inst)
    case DropRelease(_) =>
      Effect(inst.(pending := None), s.slot, [Dropped(inst.pending.value.window, inst.pending.value.tokens)], None)
  }

  function Apply(cfg: Config, s: State, step: Step): State
    requires Enabled(cfg, s, step)
  {
    match step
    case Tick(d) => s.(now := s.now + d)
    case Join => s.(insts := s.insts + [NewInst(cfg)])
    case Stray =>
      var run := LeaseScript(s.slot, s.now, cfg.policy);
      s.(slot := run.slot, log := s.log + StrayEvents(s.slot, s.now, run.reply, cfg.policy.quota))
    case _ =>
      var e := InstEffect(cfg, s, s.insts[step.i], step);
      State(s.now, e.slot, s.insts[step.i := e.inst], s.log + e.events)
  }

  predicate Init(s: State) {
    s.now >= 0 && s.slot == None && s.insts == [] && s.log == []
  }

  /** `steps` can be taken one after the other from `s`; `After` is where they lead. */
  predicate Runs(cfg: Config, s: State, steps: seq<Step>)
    decreases |steps|, 0
  {
    steps == [] ||
    (Runs(cfg, s, steps[..|steps| - 1])
     && Enabled(cfg, After(cfg, s, steps[..|steps| - 1]), steps[|steps| - 1]))
  }

  function After(cfg: Config, s: State, steps: seq<Step>): State
    requires Runs(cfg, s, steps)
    decreases |steps|, 1
  {
    if steps == [] then s
    else Apply(cfg, After(cfg, s, steps[..|steps| - 1]), steps[|steps| - 1])
  }

  function Tells(cfg: Config, s: State, step: Step): seq<Told>
    requires Enabled(cfg, s, step)
  {
    if Global(step) || !OfCall(step) then []
    else
      var answer := InstEffect(cfg, s, s.insts[step.i], step).answer;
      if answer.Some? then [Told(step.i, step.t, answer.value)] else []
  }

  /** All answers given along a run, in order. */
  function TellsAll(cfg: Config, s: State, steps: seq<Step>): seq<Told>
    requires Runs(cfg, s, steps)
    decreases |steps|
  {
    if steps == [] then []
    else
      var front := steps[..|steps| - 1];
      TellsAll(cfg, s, front) + Tells(cfg, After(cfg, s, front), steps[|steps| - 1])
  }

  ghost predicate Reachable(cfg: Config, s: State) {
    exists start, steps :: Init(start) && Runs(cfg, start, steps) && After(cfg, start, steps) == s
  }

  // Sums over the history

  /** Tokens given to a window, lapsed with it, taken before and after a snapshot, lost, wasted, dropped, credited;
      and numbers of grants, of credits, and of Ok answers without a token. */
  datatype Account = AIssue | ALapse | AFair | AOver | ALoss | AWaste | ADrop | ACredit | AGrant | AReturn | AFree

  /** What one event contributes to an account of window `w`. */
  function Amount(e: Event, a: Account, w: int): nat {
    if e.window != w then 0
    else match e
      case Opened(_, _, q) => if a == AIssue then q else 0
      case Granted(_) => if a == AGrant then 1 else 0
      case Lapsed(_, n) => if a == ALapse then n else 0
      case Took(_, _, fair) => if a == (if fair then AFair else AOver) then 1 else 0
      case Unbacked(_, _, _) => if a == AFree then 1 else 0
      case Lost(_, n) => if a == ALoss then n else 0
      case Wasted(_, n) => if a == AWaste then n else 0
      case Dropped(_, n) => if a == ADrop then n else 0
      case Credited(_, n) => if a == ACredit then n else if a == AReturn then 1 else 0
  }

  function Total(log: seq<Event>, a: Account, w: int): nat {
    if log == [] then 0 else Total(log[..|log| - 1], a, w) + Amount(log[|log| - 1], a, w)
  }

  lemma TotalAppend(log: seq<Event>, e: Event, a: Account, w: int)
    ensures Total(log + [e], a, w) == Total(log, a, w) + Amount(e, a, w)
  {
    assert (log + [e])[..|log + [e]| - 1] == log;
  }

  lemma TotalOfOne(e: Event, a: Account, w: int)
    ensures Total([e], a, w) == Amount(e, a, w)
  {
    assert [e][..0] == [];
  }

  lemma {:induction false} TotalConcat(log: seq<Event>, more: seq<Event>, a: Account, w: int)
    ensures Total(log + more, a, w) == Total(log, a, w) + Total(more, a, w)
    decreases |more|
  {
    if more == [] {
      assert log + more == log;
    } else {
      var front := more[..|more| - 1];
      TotalConcat(log, front, a, w);
      assert log + more == (log + front) + [more[|more| - 1]];
      TotalAppend(log + front, more[|more| - 1], a, w);
    }
  }
}
