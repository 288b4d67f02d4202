/** When windows open and when tokens are taken. */
module Timeline {
  import opened Basics
  import opened RedisScripts
  import opened Protocol
  import opened Ledger

  /** Ends of the windows opened, in the order of opening. A window's end is its id. */
  function Windows(log: seq<Event>): seq<int> {
    if log == [] then []
    else
      var last := log[|log| - 1];
      Windows(log[..|log| - 1]) + if last.Opened? then [last.window] else []
  }

  lemma {:induction false} WindowsConcat(log: seq<Event>, more: seq<Event>)
    ensures Windows(log + more) == Windows(log) + Windows(more)
    decreases |more|
  {
    if more == [] {
      assert log + more == log;
    } else {
      var front := more[..|more| - 1];
      assert (log + more)[..|log + more| - 1] == log + front;
      WindowsConcat(log, front);
    }
  }

  /** Successive windows are more than one window length apart. */
  ghost predicate Spaced(ws: seq<int>, length: nat) {
    forall j, k :: 0 <= j < k < |ws| ==> ws[j] + length < ws[k]
  }

  /** A take happens after its window opened, and before its end but for the two delays. An Ok answer without a
      token happens after that too, and its call began before the end of the window but for `gap`. */
  predicate InTime(cfg: Config, now: int, e: Event) {
    && (e.Took? || e.Unbacked? ==> e.window - cfg.policy.WindowMs() <= e.at <= now)
    && (e.Took? ==> e.at < e.window + cfg.gap + cfg.lag)
    && (e.Unbacked? ==> e.began <= e.at && e.began <= e.window + cfg.gap)
  }

  /** The bucket that a call relies on: the one `check` found usable, or the one its own lease brought. */
  function EpochOf(c: Call): Option<nat> {
    match c
    case Past(e) => Some(e)
    case Removing(e) => Some(e)
    case Leaving(_, Leased(e)) => Some(e)
    case Notifying(_, Leased(e)) => Some(e)
    case _ => None
  }

  predicate TimelyCall(cfg: Config, now: int, inserted: seq<int>, began: int, c: Call) {
    && (!c.Idle? ==> began <= now)
    && (c.Requested? || c.Replied? ==> began <= c.started)
    && (EpochOf(c).Some? ==>
          1 <= EpochOf(c).value <= |inserted| && began <= WindowOf(inserted, EpochOf(c).value) + cfg.gap)
  }

  /** The windows of the buckets made are known, the last being that of the bucket in the map, and every call began
      in time for the bucket it relies on. */
  ghost predicate Timely(cfg: Config, now: int, inst: Inst) {
    && |inst.began| == |inst.calls|
    && (forall k :: 0 <= k < |inst.inserted| ==> inst.inserted[k] <= now + cfg.policy.WindowMs())
    && (inst.bucket.Some? ==> inst.inserted != [] && inst.inserted[|inst.inserted| - 1] == inst.bucket.value.window)
    && (forall t :: 0 <= t < |inst.calls| ==> TimelyCall(cfg, now, inst.inserted, inst.began[t], inst.calls[t]))
  }

  lemma TimelyLater(cfg: Config, now: int, later: int, inst: Inst)
    requires Timely(cfg, now, inst) && now <= later
    ensures Timely(cfg, later, inst)
  {
    forall t | 0 <= t < |inst.calls| ensures TimelyCall(cfg, later, inst.inserted, inst.began[t], inst.calls[t]) {
      assert TimelyCall(cfg, now, inst.inserted, inst.began[t], inst.calls[t]);
    }
  }

  /** Steps that move one call and make no bucket. */
  lemma OneMoveTimely(cfg: Config, now: int, inst: Inst, inst': Inst, t: nat)
    requires Timely(cfg, now, inst) && t < |inst.calls| == |inst'.calls|
    requires inst'.calls == inst.calls[t := inst'.calls[t]]
    requires inst'.began == inst.began && inst'.inserted == inst.inserted
    requires inst'.bucket.Some? ==> inst.bucket.Some? && inst'.bucket.value.window == inst.bucket.value.window
    requires TimelyCall(cfg, now, inst.inserted, inst.began[t], inst'.calls[t])
    ensures Timely(cfg, now, inst')
  {
    forall u | 0 <= u < |inst.calls|
      ensures TimelyCall(cfg, now, inst'.inserted, inst'.began[u], inst'.calls[u])
    {
      assert TimelyCall(cfg, now, inst.inserted, inst.began[u], inst.calls[u]);
    }
  }

  lemma {:induction false} SpawnTimely(cfg: Config, s: State, inst: Inst, step: Step)
    requires step.Spawn? && InstEnabled(cfg, s.now, inst, step) && Timely(cfg, s.now, inst)
    ensures Timely(cfg, s.now, InstEffect(cfg, s, inst, step).inst)
  {
    var inst' := InstEffect(cfg, s, inst, step).inst;
    forall u | 0 <= u < |inst.calls|
      ensures TimelyCall(cfg, s.now, inst'.inserted, inst'.began[u], inst'.calls[u])
    {
      assert TimelyCall(cfg, s.now, inst.inserted, inst.began[u], inst.calls[u]);
    }
  }

  lemma CheckTimely(cfg: Config, s: State, inst: Inst, t: nat, stale: bool)
    requires SaneKey(cfg, s) && Placed(cfg, s.now, s.slot, inst) && Timely(cfg, s.now, inst)
    requires t < |inst.calls| && inst.calls[t].Checking?
    ensures Timely(cfg, s.now, CheckEffect(s, inst, t, stale).inst)
  {
    var inst' := CheckEffect(s, inst, t, stale).inst;
    assert TimelyCall(cfg, s.now, inst.inserted, inst.began[t], inst.calls[t]);
    OneMoveTimely(cfg, s.now, inst, inst', t);
  }

  lemma {:induction false} DeliverTimely(cfg: Config, s: State, inst: Inst, t: nat, received: int, born: int)
    requires SaneKey(cfg, s) && Placed(cfg, s.now, s.slot, inst) && Timely(cfg, s.now, inst)
    requires t < |inst.calls| && inst.calls[t].Replied?
    ensures Timely(cfg, s.now, DeliverEffect(s, inst, t, received, born).inst)
  {
    var inst' := DeliverEffect(s, inst, t, received, born).inst;
    assert PlacedCall(cfg, s.now, s.slot, inst.calls[t]);
    assert TimelyCall(cfg, s.now, inst.inserted, inst.began[t], inst.calls[t]);
    if inst.calls[t].reply.leased == 0 {
      OneMoveTimely(cfg, s.now, inst, inst', t);
    } else {
      NewBucketTimely(cfg, s.now, inst, inst', t, inst.calls[t].reply.window);
    }
  }

  lemma NewBucketTimely(cfg: Config, now: int, inst: Inst, inst': Inst, t: nat, window: int)
    requires Timely(cfg, now, inst) && t < |inst.calls| == |inst'.calls|
    requires inst'.calls == inst.calls[t := inst'.calls[t]]
    requires inst'.began == inst.began && inst'.inserted == inst.inserted + [window]
    requires window <= now + cfg.policy.WindowMs()
    requires inst'.bucket.Some? ==> inst'.bucket.value.window == window
    requires TimelyCall(cfg, now, inst'.inserted, inst.began[t], inst'.calls[t])
    ensures Timely(cfg, now, inst')
  {
    forall u | 0 <= u < |inst.calls|
      ensures TimelyCall(cfg, now, inst'.inserted, inst'.began[u], inst'.calls[u])
    {
      assert TimelyCall(cfg, now, inst.inserted, inst.began[u], inst.calls[u]);
    }
  }

  lemma NotifyTimely(cfg: Config, s: State, inst: Inst, t: nat)
    requires t < |inst.calls| && inst.calls[t].Notifying? && Timely(cfg, s.now, inst)
    ensures Timely(cfg, s.now, NotifyEffect(s, inst, t).inst)
  {
    var inst' := NotifyEffect(s, inst, t).inst;
    forall u | 0 <= u < |inst.calls|
      ensures TimelyCall(cfg, s.now, inst'.inserted, inst'.began[u], inst'.calls[u])
    {
      assert TimelyCall(cfg, s.now, inst.inserted, inst.began[u], inst.calls[u]);
    }
  }

  lemma {:induction false} ConsumeTimely(cfg: Config, s: State, inst: Inst, t: nat, sample: int)
    requires t < |inst.calls| && inst.calls[t].Past? && Timely(cfg, s.now, inst)
    ensures Timely(cfg, s.now, ConsumeEffect(s, inst, t, sample).inst)
  {
    assert TimelyCall(cfg, s.now, inst.inserted, inst.began[t], inst.calls[t]);
    OneMoveTimely(cfg, s.now, inst, ConsumeEffect(s, inst, t, sample).inst, t);
  }

  /** Steps that leave the call with nothing new to rely on. */
  lemma {:induction false} AskTimely(cfg: Config, s: State, inst: Inst, step: Step)
    requires step.Claim? || step.Register? || step.Cancel? || step.Send? || step.Execute? || step.Abort?
    requires InstEnabled(cfg, s.now, inst, step) && Timely(cfg, s.now, inst)
    ensures Timely(cfg, s.now, InstEffect(cfg, s, inst, step).inst)
  {
    var inst' := InstEffect(cfg, s, inst, step).inst;
    assert TimelyCall(cfg, s.now, inst.inserted, inst.began[step.t], inst.calls[step.t]);
    assert EpochOf(inst'.calls[step.t]).None?;
    OneMoveTimely(cfg, s.now, inst, inst', step.t);
  }

  lemma {:induction false} EndTimely(cfg: Config, s: State, inst: Inst, step: Step)
    requires step.Leave? || step.Remove?
    requires InstEnabled(cfg, s.now, inst, step) && Timely(cfg, s.now, inst)
    ensures Timely(cfg, s.now, InstEffect(cfg, s, inst, step).inst)
  {
    assert TimelyCall(cfg, s.now, inst.inserted, inst.began[step.t], inst.calls[step.t]);
    OneMoveTimely(cfg, s.now, inst, InstEffect(cfg, s, inst, step).inst, step.t);
  }

  lemma {:induction false} BackgroundTimely(cfg: Config, s: State, inst: Inst, step: Step)
    requires !Global(step) && !OfCall(step) && InstEnabled(cfg, s.now, inst, step) && Timely(cfg, s.now, inst)
    ensures Timely(cfg, s.now, InstEffect(cfg, s, inst, step).inst)
  {
  }

  lemma {:induction false} EffectTimely(cfg: Config, s: State, inst: Inst, step: Step)
    requires SaneKey(cfg, s) && Placed(cfg, s.now, s.slot, inst) && Timely(cfg, s.now, inst)
    requires !Global(step) && InstEnabled(cfg, s.now, inst, step)
    ensures Timely(cfg, s.now, InstEffect(cfg, s, inst, step).inst)
  {
    if !OfCall(step) {
      BackgroundTimely(cfg, s, inst, step);
    } else if step.Spawn? {
      SpawnTimely(cfg, s, inst, step);
    } else if step.Check? {
      CheckTimely(cfg, s, inst, step.t, step.stale);
    } else if step.Deliver? {
      DeliverTimely(cfg, s, inst, step.t, step.received, step.born);
    } else if step.Notify? {
      NotifyTimely(cfg, s, inst, step.t);
    } else if step.Consume? {
      ConsumeTimely(cfg, s, inst, step.t, step.sample);
    } else if step.Leave? || step.Remove? {
      EndTimely(cfg, s, inst, step);
    } else {
      AskTimely(cfg, s, inst, step);
    }
  }

  ghost predicate AllTimely(cfg: Config, s: State) {
    forall i :: 0 <= i < |s.insts| ==> Timely(cfg, s.now, s.insts[i])
  }

  lemma {:induction false} StepTimely(cfg: Config, s: State, step: Step)
    requires Sane(cfg, s) && AllTimely(cfg, s) && Enabled(cfg, s, step)
    ensures AllTimely(cfg, Apply(cfg, s, step))
  {
    var s' := Apply(cfg, s, step);
    if !Global(step) {
      EffectTimely(cfg, s, s.insts[step.i], step);
    }
    forall i | 0 <= i < |s'.insts| ensures Timely(cfg, s'.now, s'.insts[i]) {
      if i < |s.insts| && s'.insts[i] == s.insts[i] {
        TimelyLater(cfg, s.now, s'.now, s.insts[i]);
      }
    }
  }

  /** The windows opened so far; the stored key, alive or not, is the latest. */
  ghost predicate Lineage(cfg: Config, slot: Slot, ws: seq<int>)
    requires WellKept(slot)
  {
    && Spaced(ws, cfg.policy.WindowMs())
    && (slot.Some? <==> ws != [])
    && (slot.Some? ==> ws[|ws| - 1] == End(slot))
  }

  /** Every window was given exactly one quota. */
  ghost predicate IssuedOnce(cfg: Config, log: seq<Event>) {
    forall w :: Total(log, AIssue, w) == if w in Windows(log) then cfg.policy.quota else 0
  }

  ghost predicate AllInTime(cfg: Config, now: int, log: seq<Event>) {
    forall k :: 0 <= k < |log| ==> InTime(cfg, now, log[k])
  }

  /** Only windows before the current one have lapsed. */
  ghost predicate LapsesPast(slot: Slot, log: seq<Event>)
    requires WellKept(slot)
  {
    forall k :: 0 <= k < |log| ==> log[k].Lapsed? ==> slot.Some? && log[k].window < End(slot)
  }

  /** A release credits only a window that was opened. */
  ghost predicate CreditsOpened(log: seq<Event>) {
    forall k :: 0 <= k < |log| ==> log[k].Credited? ==> log[k].window in Windows(log)
  }

  ghost predicate Chronicle(cfg: Config, s: State)
    requires WellKept(s.slot)
  {
    && Lineage(cfg, s.slot, Windows(s.log))
    && IssuedOnce(cfg, s.log)
    && AllInTime(cfg, s.now, s.log)
    && LapsesPast(s.slot, s.log)
    && CreditsOpened(s.log)
  }

  /** How a step may extend the history: it opens no window and keeps the end of the current one, or it opens
      one when the key is gone. */
  ghost predicate Extends(cfg: Config, s: State, slot: Slot, events: seq<Event>)
    requires WellKept(s.slot)
  {
    && WellKept(slot)
    && (|| (Windows(events) == [] && (slot.Some? <==> s.slot.Some?) && (slot.Some? ==> End(slot) == End(s.slot)))
        || (&& Windows(events) == [s.now + cfg.policy.WindowMs()]
            && slot.Some? && End(slot) == s.now + cfg.policy.WindowMs()
            && (s.slot.Some? ==> End(s.slot) < s.now)))
    && IssuedOnce(cfg, events)
    && AllInTime(cfg, s.now, events)
    && LapsesPast(slot, events)
    && CreditsLive(s, events)
  }

  /** Credits go to the live window. */
  predicate CreditsLive(s: State, events: seq<Event>)
    requires WellKept(s.slot)
  {
    forall k :: 0 <= k < |events| ==>
      events[k].Credited? ==> Alive(s.slot, s.now) && events[k].window == End(s.slot)
  }

  lemma WindowsOfOne(e: Event)
    ensures Windows([e]) == if e.Opened? then [e.window] else []
    ensures forall w :: Total([e], AIssue, w) == Amount(e, AIssue, w)
  {
    assert [e][..0] == [];
  }

  lemma LeaseExtends(cfg: Config, s: State)
    requires cfg.policy.Valid() && SaneKey(cfg, s)
    ensures var run := LeaseScript(s.slot, s.now, cfg.policy);
            Extends(cfg, s, run.slot, LeaseEvents(s.slot, s.now, run.reply, cfg.policy.quota))
  {
    var run := LeaseScript(s.slot, s.now, cfg.policy);
    OpeningExtends(cfg, s);
    if run.reply.Some? && run.reply.value.leased > 0 {
      TailExtends(cfg, s, run.slot, OpeningEvents(s.slot, s.now, run.reply, cfg.policy.quota),
                  Granted(run.reply.value.window));
    }
  }

  lemma {:induction false} OpeningExtends(cfg: Config, s: State)
    requires cfg.policy.Valid() && SaneKey(cfg, s)
    ensures var run := LeaseScript(s.slot, s.now, cfg.policy);
            Extends(cfg, s, run.slot, OpeningEvents(s.slot, s.now, run.reply, cfg.policy.quota))
  {
    LeaseMovesTokens(s.slot, s.now, cfg.policy);
    var run := LeaseScript(s.slot, s.now, cfg.policy);
    if run.reply.Some? && !Alive(s.slot, s.now) {
      var opening := Opened(s.now, run.reply.value.window, cfg.policy.quota);
      OnlyOpening(opening);
      if s.slot.Some? {
        OpeningAfterLapse(Lapsed(s.slot.value.expiry.value, s.slot.value.value), opening);
      }
    }
  }

  lemma OnlyOpening(opening: Event)
    requires opening.Opened?
    ensures Windows([opening]) == [opening.window]
    ensures forall w :: Total([opening], AIssue, w) == if w == opening.window then opening.quota else 0
  {
    WindowsOfOne(opening);
  }

  lemma OpeningAfterLapse(lapse: Event, opening: Event)
    requires opening.Opened? && lapse.Lapsed?
    ensures Windows([lapse, opening]) == [opening.window]
    ensures forall w :: Total([lapse, opening], AIssue, w) == if w == opening.window then opening.quota else 0
  {
    assert [lapse, opening] == [lapse] + [opening];
    WindowsConcat([lapse], [opening]);
    WindowsOfOne(lapse);
    WindowsOfOne(opening);
    forall w ensures Total([lapse, opening], AIssue, w) == Amount(opening, AIssue, w) {
      TotalConcat([lapse], [opening], AIssue, w);
    }
  }

  lemma TailQuiet(cfg: Config, s: State, slot: Slot, events: seq<Event>, e: Event)
    requires WellKept(s.slot) && WellKept(slot) && (e.Granted? || e.Lost?)
    requires AllInTime(cfg, s.now, events) && LapsesPast(slot, events) && CreditsLive(s, events)
    ensures AllInTime(cfg, s.now, events + [e]) && LapsesPast(slot, events + [e]) && CreditsLive(s, events + [e])
  {
    assert forall k :: 0 <= k < |events| ==> (events + [e])[k] == events[k];
  }

  /** A grant or a loss at the end changes nothing. */
  lemma TailExtends(cfg: Config, s: State, slot: Slot, events: seq<Event>, e: Event)
    requires WellKept(s.slot) && Extends(cfg, s, slot, events) && (e.Granted? || e.Lost?)
    ensures Extends(cfg, s, slot, events + [e])
  {
    TailQuiet(cfg, s, slot, events, e);
    PlainTail(events, [e]);
    assert IssuedOnce(cfg, events + [e]);
  }

  /** Events that open nothing add nothing to windows and quotas. */
  lemma PlainTail(events: seq<Event>, tail: seq<Event>)
    requires forall k :: 0 <= k < |tail| ==> !tail[k].Opened?
    ensures Windows(events + tail) == Windows(events)
    ensures forall w :: Total(events + tail, AIssue, w) == Total(events, AIssue, w)
  {
    PlainExtends(tail);
    WindowsConcat(events, tail);
    assert Windows(events) + [] == Windows(events);
    forall w ensures Total(events + tail, AIssue, w) == Total(events, AIssue, w) {
      TotalConcat(events, tail, AIssue, w);
    }
  }

  predicate Plain(e: Event) {
    e.Lost? || e.Wasted? || e.Dropped?
  }

  lemma {:induction false} PlainExtends(events: seq<Event>)
    requires forall k :: 0 <= k < |events| ==> !events[k].Opened?
    ensures Windows(events) == []
    ensures forall w :: Total(events, AIssue, w) == 0
  {
    if events != [] {
      PlainExtends(events[..|events| - 1]);
    }
  }

  lemma {:induction false} UndeliveredPlain(calls: seq<Call>)
    ensures forall k :: 0 <= k < |Undelivered(calls)| ==> Plain(Undelivered(calls)[k])
  {
    if calls != [] {
      UndeliveredPlain(calls[..|calls| - 1]);
    }
  }

  /** Steps other than Execute and Release record losses, takes and answers without a token, all of them in time. */
  lemma {:induction false} EventsPlain(cfg: Config, s: State, inst: Inst, step: Step)
    requires SaneKey(cfg, s) && Placed(cfg, s.now, s.slot, inst) && Timely(cfg, s.now, inst)
    requires !Global(step) && InstEnabled(cfg, s.now, inst, step) && !step.Execute? && !step.Release?
    ensures var events := InstEffect(cfg, s, inst, step).events;
            forall k :: 0 <= k < |events| ==>
              (Plain(events[k]) || events[k].Took? || events[k].Unbacked?) && InTime(cfg, s.now, events[k])
  {
    if step.Crash? {
      UndeliveredPlain(inst.calls);
    } else if step.Consume? {
      ConsumeInTime(cfg, s, inst, step.t, step.sample);
    } else if step.Remove? {
      UnbackedInTime(cfg, s, inst, step.t);
    }
  }

  lemma UnbackedInTime(cfg: Config, s: State, inst: Inst, t: nat)
    requires SaneKey(cfg, s) && Timely(cfg, s.now, inst)
    requires t < |inst.calls| && (inst.calls[t].Past? || inst.calls[t].Removing?)
    ensures InTime(cfg, s.now, UnbackedBy(inst, t, inst.calls[t].epoch, s.now))
  {
    assert TimelyCall(cfg, s.now, inst.inserted, inst.began[t], inst.calls[t]);
  }

  lemma ConsumeInTime(cfg: Config, s: State, inst: Inst, t: nat, sample: int)
    requires SaneKey(cfg, s) && Placed(cfg, s.now, s.slot, inst) && Timely(cfg, s.now, inst)
    requires InstEnabled(cfg, s.now, inst, Consume(0, t, sample))
    ensures var events := ConsumeEffect(s, inst, t, sample).events;
            forall k :: 0 <= k < |events| ==>
              (events[k].Took? || events[k].Unbacked?) && InTime(cfg, s.now, events[k])
  {
    UnbackedInTime(cfg, s, inst, t);
  }

  lemma ReleaseKeepsEnd(cfg: Config, s: State, inst: Inst)
    requires SaneKey(cfg, s) && Placed(cfg, s.now, s.slot, inst) && inst.pending.Some?
    ensures var slot := ReleaseEffect(s, inst).slot;
            WellKept(slot) && (slot.Some? <==> s.slot.Some?) && (slot.Some? ==> End(slot) == End(s.slot))
    ensures var events := ReleaseEffect(s, inst).events;
            CreditsLive(s, events) && |events| == 1 && (events[0].Credited? || events[0].Dropped?)
  {
    ReleaseCreditsOneWindow(s.slot, s.now, inst.pending.value.tokens, inst.pending.value.window);
  }

  lemma {:induction false} SlotKept(cfg: Config, s: State, inst: Inst, step: Step)
    requires !Global(step) && InstEnabled(cfg, s.now, inst, step) && !step.Execute? && !step.Release?
    ensures InstEffect(cfg, s, inst, step).slot == s.slot
  {
  }

  lemma QuietExtends(cfg: Config, s: State, events: seq<Event>)
    requires SaneKey(cfg, s)
    requires forall k :: 0 <= k < |events| ==>
      (Plain(events[k]) || events[k].Took? || events[k].Unbacked?) && InTime(cfg, s.now, events[k])
    ensures Extends(cfg, s, s.slot, events)
  {
    PlainExtends(events);
  }

  lemma ReleaseExtends(cfg: Config, s: State, inst: Inst)
    requires SaneKey(cfg, s) && Placed(cfg, s.now, s.slot, inst) && inst.pending.Some?
    ensures Extends(cfg, s, ReleaseEffect(s, inst).slot, ReleaseEffect(s, inst).events)
  {
    ReleaseKeepsEnd(cfg, s, inst);
    PlainExtends(ReleaseEffect(s, inst).events);
  }

  lemma {:induction false} EffectExtends(cfg: Config, s: State, inst: Inst, step: Step)
    requires cfg.policy.Valid() && SaneKey(cfg, s) && Placed(cfg, s.now, s.slot, inst) && Timely(cfg, s.now, inst)
    requires !Global(step) && InstEnabled(cfg, s.now, inst, step)
    ensures var e := InstEffect(cfg, s, inst, step); Extends(cfg, s, e.slot, e.events)
  {
    var e := InstEffect(cfg, s, inst, step);
    if step.Execute? {
      LeaseExtends(cfg, s);
    } else if step.Release? {
      ReleaseExtends(cfg, s, inst);
    } else {
      EventsPlain(cfg, s, inst, step);
      SlotKept(cfg, s, inst, step);
      QuietExtends(cfg, s, e.events);
    }
  }

  lemma LastIsLargest(ws: seq<int>, length: nat, w: int)
    requires Spaced(ws, length) && w in ws
    ensures w <= ws[|ws| - 1]
  {
    var k :| 0 <= k < |ws| && ws[k] == w;
    if k < |ws| - 1 {
      assert ws[k] + length < ws[|ws| - 1];
    }
  }

  lemma IssueAppend(cfg: Config, s: State, slot: Slot, events: seq<Event>)
    requires WellKept(s.slot) && Chronicle(cfg, s) && Extends(cfg, s, slot, events)
    ensures IssuedOnce(cfg, s.log + events)
  {
    WindowsConcat(s.log, events);
    forall w ensures Total(s.log + events, AIssue, w) == if w in Windows(s.log + events) then cfg.policy.quota else 0 {
      TotalConcat(s.log, events, AIssue, w);
      if w in Windows(events) && w in Windows(s.log) {
        LastIsLargest(Windows(s.log), cfg.policy.WindowMs(), w);
        assert false;
      }
    }
  }

  lemma LineageAppend(cfg: Config, s: State, slot: Slot, events: seq<Event>)
    requires WellKept(s.slot) && Chronicle(cfg, s) && Extends(cfg, s, slot, events)
    ensures Lineage(cfg, slot, Windows(s.log + events))
  {
    var ws := Windows(s.log);
    var length := cfg.policy.WindowMs();
    WindowsConcat(s.log, events);
    assert ws + [] == ws;
    if Windows(events) != [] {
      var ws' := ws + [s.now + length];
      forall j, k | 0 <= j < k < |ws'| ensures ws'[j] + length < ws'[k] {
        if k == |ws| { LastIsLargest(ws, length, ws[j]); }
      }
    }
  }

  lemma ChronicleAppend(cfg: Config, s: State, s': State, events: seq<Event>)
    requires WellKept(s.slot) && Chronicle(cfg, s) && Extends(cfg, s, s'.slot, events)
    requires s'.now == s.now && s'.log == s.log + events
    ensures Chronicle(cfg, s')
  {
    LineageAppend(cfg, s, s'.slot, events);
    IssueAppend(cfg, s, s'.slot, events);
    WindowsConcat(s.log, events);
    assert CreditsOpened(s'.log) by {
      forall k | 0 <= k < |s'.log| && s'.log[k].Credited? ensures s'.log[k].window in Windows(s'.log) {
        if k < |s.log| { assert s.log[k].window in Windows(s.log); }
      }
    }
  }

  lemma StrayExtends(cfg: Config, s: State)
    requires cfg.policy.Valid() && SaneKey(cfg, s)
    ensures var run := LeaseScript(s.slot, s.now, cfg.policy);
            Extends(cfg, s, run.slot, StrayEvents(s.slot, s.now, run.reply, cfg.policy.quota))
  {
    LeaseExtends(cfg, s);
    var run := LeaseScript(s.slot, s.now, cfg.policy);
    if run.reply.Some? {
      TailExtends(cfg, s, run.slot, LeaseEvents(s.slot, s.now, run.reply, cfg.policy.quota),
                  Lost(run.reply.value.window, run.reply.value.leased));
    }
  }

  lemma {:induction false} StepKeepsChronicle(cfg: Config, s: State, step: Step)
    requires cfg.policy.Valid() && Sane(cfg, s) && AllTimely(cfg, s) && Chronicle(cfg, s) && Enabled(cfg, s, step)
    requires WellKept(Apply(cfg, s, step).slot)
    ensures Chronicle(cfg, Apply(cfg, s, step))
  {
    if step.Stray? {
      StrayExtends(cfg, s);
      var run := LeaseScript(s.slot, s.now, cfg.policy);
      ChronicleAppend(cfg, s, Apply(cfg, s, step), StrayEvents(s.slot, s.now, run.reply, cfg.policy.quota));
    } else if !Global(step) {
      EffectExtends(cfg, s, s.insts[step.i], step);
      ChronicleAppend(cfg, s, Apply(cfg, s, step), InstEffect(cfg, s, s.insts[step.i], step).events);
    }
  }
}
