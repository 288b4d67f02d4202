/** Key independence: a run of the whole store, seen from one id. */
module Projection {
  import opened Basics
  import opened Buckets
  import opened RedisScripts
  import opened StoreRules
  import opened Protocol
  import opened SoloRuns
  import opened Keys

  // What updates of the maps look like from an id

  lemma SeeCalls(node: Node, calls: seq<Tagged>, id: Id)
    requires |calls| == |node.calls|
    ensures ViewNode(node.(calls := calls), id) == ViewNode(node, id).(calls := ViewCalls(calls, id))
  {
  }

  lemma TaggedMove(calls: seq<Tagged>, t: nat, c: Call, id: Id)
    requires t < |calls|
    ensures ViewCalls(calls[t := Tagged(calls[t].id, c)], id)
            == if calls[t].id == id then ViewCalls(calls, id)[t := c] else ViewCalls(calls, id)
  {
  }

  lemma SeeMove(node: Node, t: nat, c: Call, id: Id)
    requires t < |node.calls|
    ensures ViewNode(node.Move(t, c), id)
            == if node.calls[t].id == id then SetCall(ViewNode(node, id), t, c) else ViewNode(node, id)
  {
    TaggedMove(node.calls, t, c, id);
    SeeCalls(node, node.Move(t, c).calls, id);
  }

  /** An instance with its history replaced. */
  function Recalling(inst: Inst, h: History): Inst {
    inst.(began := h.began, since := h.since, snapped := h.snapped, nextNotify := h.nextNotify, inserted := h.inserted,
          untokened := h.untokened, raced := h.raced, mark := h.mark)
  }

  lemma SeeHistory(node: Node, x: Id, h: History, id: Id)
    ensures ViewNode(node.Remember(x, h), id)
            == if x == id then Recalling(ViewNode(node, id), h) else ViewNode(node, id)
  {
  }

  lemma SeeBucket(node: Node, x: Id, b: BucketState, id: Id)
    ensures ViewNode(node.(buckets := node.buckets[x := b]), id)
            == if x == id then ViewNode(node, id).(bucket := Some(b)) else ViewNode(node, id)
  {
  }

  lemma SeeRemoval(node: Node, x: Id, id: Id)
    ensures ViewNode(node.WithoutBucket(x), id)
            == if x == id then Protocol.WithoutBucket(ViewNode(node, id)) else ViewNode(node, id)
  {
  }

  lemma SeeEntry(node: Node, x: Id, r: Refill, id: Id)
    ensures ViewNode(node.(refills := node.refills[x := r]), id)
            == if x == id then ViewNode(node, id).(refill := Some(r)) else ViewNode(node, id)
  {
  }

  lemma SeeEntryGone(node: Node, x: Id, id: Id)
    ensures ViewNode(node.(refills := node.refills - {x}), id)
            == if x == id then ViewNode(node, id).(refill := None) else ViewNode(node, id)
  {
  }

  function WakeSeen(calls: seq<Tagged>, x: Id, n: nat, id: Id): (view: seq<Call>)
    ensures |view| == |calls|
  {
    if x == id then Wake(ViewCalls(calls, id), n) else ViewCalls(calls, id)
  }

  lemma TaggedWakeAt(calls: seq<Tagged>, x: Id, n: nat, id: Id, t: nat)
    requires t < |calls|
    ensures ViewCalls(WakeUp(calls, x, n), id)[t] == WakeSeen(calls, x, n, id)[t]
  {
    assert WakeUp(calls, x, n)[t] == if calls[t] == Tagged(x, Waiting(n)) then Tagged(x, Checking) else calls[t];
  }

  lemma TaggedWake(calls: seq<Tagged>, x: Id, n: nat, id: Id)
    ensures ViewCalls(WakeUp(calls, x, n), id) == WakeSeen(calls, x, n, id)
  {
    forall t | 0 <= t < |calls| ensures ViewCalls(WakeUp(calls, x, n), id)[t] == WakeSeen(calls, x, n, id)[t] {
      TaggedWakeAt(calls, x, n, id, t);
    }
  }

  lemma SeeWake(node: Node, x: Id, n: nat, id: Id)
    ensures ViewNode(node.(calls := WakeUp(node.calls, x, n)), id)
            == if x == id then ViewNode(node, id).(calls := Wake(ViewCalls(node.calls, id), n)) else ViewNode(node, id)
  {
    TaggedWake(node.calls, x, n, id);
    SeeCalls(node, WakeUp(node.calls, x, n), id);
  }

  lemma SeeDue(node: Node, x: Id, d: Due, id: Id)
    ensures ViewNode(node.(pending := node.pending[x := d]), id)
            == if x == id then ViewNode(node, id).(pending := Some(d)) else ViewNode(node, id)
  {
  }

  lemma SeeDueGone(node: Node, x: Id, id: Id)
    ensures ViewNode(node.(pending := node.pending - {x}), id)
            == if x == id then ViewNode(node, id).(pending := None) else ViewNode(node, id)
  {
  }

  // Calls

  /** A change of the maps is, for its id, the effect of a step of the single-key protocol. */
  ghost predicate Matches(c: Change, id: Id, e: Effect) {
    ViewNode(c.node, id) == e.inst && c.slot == e.slot && c.events == e.events && c.answer == e.answer
  }

  /** And all other ids do not see it. */
  ghost predicate Unseen(node: Node, node': Node, id: Id) {
    forall other :: other != id ==> ViewNode(node', other) == ViewNode(node, other)
  }

  /** What the single-key protocol knows of the world, instances aside. */
  predicate Sees(s: State, w: World, id: Id) {
    s.now == w.now && s.slot == SlotOf(w.db, id) && s.log == w.LogOf(id)
  }

  lemma MoveUnseen(node: Node, t: nat, c: Call)
    requires t < |node.calls|
    ensures Unseen(node, node.Move(t, c), node.calls[t].id)
  {
    forall other | other != node.calls[t].id ensures ViewNode(node.Move(t, c), other) == ViewNode(node, other) {
      SeeMove(node, t, c, other);
    }
  }

  lemma CheckChange(w: World, s: State, node: Node, inst: Inst, t: nat, stale: bool)
    requires t < |node.calls| == |inst.calls| && Sees(s, w, node.calls[t].id)
    requires inst.bucket == Find(node.buckets, node.calls[t].id)
    requires inst.inserted == node.Past(node.calls[t].id).inserted
    ensures var c, e := CheckOf(w, node, t, stale), CheckEffect(s, inst, t, stale);
            && c.node == node.Move(t, e.inst.calls[t]) && e.inst == SetCall(inst, t, e.inst.calls[t])
            && c.slot == e.slot && c.events == e.events && c.answer == e.answer
  {
  }

  lemma CheckMatches(w: World, s: State, node: Node, t: nat, stale: bool)
    requires t < |node.calls| && Sees(s, w, node.calls[t].id)
    ensures var id, c := node.calls[t].id, CheckOf(w, node, t, stale);
            Matches(c, id, CheckEffect(s, ViewNode(node, id), t, stale)) && Unseen(node, c.node, id)
  {
    var inst := ViewNode(node, node.calls[t].id);
    var e := CheckEffect(s, inst, t, stale);
    CheckChange(w, s, node, inst, t, stale);
    SeeMove(node, t, e.inst.calls[t], node.calls[t].id);
    MoveUnseen(node, t, e.inst.calls[t]);
  }

  lemma ClaimMatches(w: World, s: State, node: Node, t: nat)
    requires t < |node.calls| && Sees(s, w, node.calls[t].id)
    ensures var id, c := node.calls[t].id, ClaimOf(w, node, t);
            Matches(c, id, ClaimEffect(s, ViewNode(node, id), t)) && Unseen(node, c.node, id)
  {
    if node.calls[t].id in node.refills {
      FollowMatches(w, s, node, t);
    } else {
      LeadMatches(w, s, node, t);
    }
  }

  lemma FollowMatches(w: World, s: State, node: Node, t: nat)
    requires t < |node.calls| && Sees(s, w, node.calls[t].id) && node.calls[t].id in node.refills
    ensures var id, c := node.calls[t].id, ClaimOf(w, node, t);
            Matches(c, id, ClaimEffect(s, ViewNode(node, id), t)) && Unseen(node, c.node, id)
  {
    var id := node.calls[t].id;
    SeeMove(node, t, Cloned(node.refills[id].notify), id);
    MoveUnseen(node, t, Cloned(node.refills[id].notify));
  }

  lemma LeadEffect(s: State, inst: Inst, t: nat, h: History)
    requires t < |inst.calls| && inst.refill.None? && Recalling(inst, h) == inst
    ensures var usable := inst.bucket.Some? && inst.bucket.value.Usable(s.now);
            var h' := h.(nextNotify := h.nextNotify + 1, raced := h.raced || usable);
            var n := h.nextNotify;
            ClaimEffect(s, inst, t)
            == Effect(Recalling(SetCall(inst, t, Leading(n)).(refill := Some(Refill(n, t))), h'), s.slot, [], None)
  {
  }

  lemma LeadChange(w: World, node: Node, t: nat)
    requires t < |node.calls| && node.calls[t].id !in node.refills
    ensures var id := node.calls[t].id;
            var h := node.Past(id);
            var usable := id in node.buckets && node.buckets[id].Usable(w.now);
            var r := Refill(h.nextNotify, t);
            var h' := h.(nextNotify := h.nextNotify + 1, raced := h.raced || usable);
            ClaimOf(w, node, t)
            == Change(node.Move(t, Leading(r.notify)).(refills := node.refills[id := r]).Remember(id, h'),
                      SlotOf(w.db, id), [], None)
  {
  }

  lemma SeeSame(node: Node, id: Id)
    ensures Recalling(ViewNode(node, id), node.Past(id)) == ViewNode(node, id)
    ensures ViewNode(node, id).bucket == Find(node.buckets, id) && ViewNode(node, id).refill == Find(node.refills, id)
  {
  }

  lemma BothAre(c: Change, node: Node, node': Node, id: Id, e: Effect, inst': Inst, slot: Slot, events: seq<Event>)
    requires c == Change(node', slot, events, None) && e == Effect(inst', slot, events, None)
    requires ViewNode(node', id) == inst' && Unseen(node, node', id)
    ensures Matches(c, id, e) && Unseen(node, c.node, id)
  {
  }

  lemma {:induction false} LeadMatches(w: World, s: State, node: Node, t: nat)
    requires t < |node.calls| && Sees(s, w, node.calls[t].id) && node.calls[t].id !in node.refills
    ensures var id, c := node.calls[t].id, ClaimOf(w, node, t);
            Matches(c, id, ClaimEffect(s, ViewNode(node, id), t)) && Unseen(node, c.node, id)
  {
    var id := node.calls[t].id;
    var h, inst := node.Past(id), ViewNode(node, id);
    var r := Refill(h.nextNotify, t);
    var h' := h.(nextNotify := h.nextNotify + 1,
                 raced := h.raced || (inst.bucket.Some? && inst.bucket.value.Usable(s.now)));
    var node' := node.Move(t, Leading(r.notify)).(refills := node.refills[id := r]).Remember(id, h');
    var inst' := Recalling(SetCall(inst, t, Leading(r.notify)).(refill := Some(r)), h');
    assert ClaimOf(w, node, t) == Change(node', s.slot, [], None) by {
      SeeSame(node, id);
      LeadChange(w, node, t);
    }
    assert ClaimEffect(s, inst, t) == Effect(inst', s.slot, [], None) by {
      SeeSame(node, id);
      LeadEffect(s, inst, t, h);
    }
    Claimed(node, t, r, h');
    BothAre(ClaimOf(w, node, t), node, node', id, ClaimEffect(s, inst, t), inst', s.slot, []);
  }

  lemma Claimed(node: Node, t: nat, r: Refill, h: History)
    requires t < |node.calls|
    ensures var id := node.calls[t].id;
            var node' := node.Move(t, Leading(r.notify)).(refills := node.refills[id := r]).Remember(id, h);
            && ViewNode(node', id)
               == Recalling(SetCall(ViewNode(node, id), t, Leading(r.notify)).(refill := Some(r)), h)
            && Unseen(node, node', id)
  {
    var id := node.calls[t].id;
    var moved := node.Move(t, Leading(r.notify));
    var led := moved.(refills := moved.refills[id := r]);
    forall other ensures ViewNode(led.Remember(id, h), other)
                         == if other == id
                            then Recalling(SetCall(ViewNode(node, id), t, Leading(r.notify)).(refill := Some(r)), h)
                            else ViewNode(node, other)
    {
      SeeMove(node, t, Leading(r.notify), other);
      SeeEntry(moved, id, r, other);
      SeeHistory(led, id, h, other);
    }
  }

  lemma {:induction false} ExecuteMatches(cfg: Settings, w: World, s: State, node: Node, t: nat)
    requires t < |node.calls| && Sees(s, w, node.calls[t].id) && node.calls[t].call.Requested?
    ensures var id, c := node.calls[t].id, ExecuteOf(cfg, w, node, t);
            Matches(c, id, ExecuteEffect(cfg.For(id), s, ViewNode(node, id), t)) && Unseen(node, c.node, id)
  {
    var id := node.calls[t].id;
    var e := ExecuteEffect(cfg.For(id), s, ViewNode(node, id), t);
    SeeMove(node, t, e.inst.calls[t], id);
    MoveUnseen(node, t, e.inst.calls[t]);
  }

  lemma AbortMatches(w: World, s: State, node: Node, t: nat)
    requires t < |node.calls| && Sees(s, w, node.calls[t].id)
    requires node.calls[t].call.Requested? || node.calls[t].call.Replied?
    ensures var id, c := node.calls[t].id, AbortOf(w, node, t);
            Matches(c, id, AbortEffect(s, ViewNode(node, id), t)) && Unseen(node, c.node, id)
  {
    var c := Leaving(node.calls[t].call.n, Broken);
    SeeMove(node, t, c, node.calls[t].id);
    MoveUnseen(node, t, c);
  }

  /** A call moves, its bucket changes, and something is remembered. */
  lemma Delivered(node: Node, t: nat, c: Call, b: BucketState, h: History)
    requires t < |node.calls|
    ensures var id := node.calls[t].id;
            var node' := node.Move(t, c).(buckets := node.buckets[id := b]).Remember(id, h);
            && ViewNode(node', id) == Recalling(SetCall(ViewNode(node, id), t, c).(bucket := Some(b)), h)
            && Unseen(node, node', id)
  {
    var id := node.calls[t].id;
    var moved := node.Move(t, c);
    var stored := moved.(buckets := moved.buckets[id := b]);
    forall other ensures ViewNode(stored.Remember(id, h), other)
                         == if other == id then Recalling(SetCall(ViewNode(node, id), t, c).(bucket := Some(b)), h)
                            else ViewNode(node, other)
    {
      SeeMove(node, t, c, other);
      SeeBucket(moved, id, b, other);
      SeeHistory(stored, id, h, other);
    }
  }

  lemma DroppingIsDiscarded(node: Node, id: Id)
    ensures Dropping(node, id) == Discarded(ViewNode(node, id))
  {
  }

  lemma DeliverMatches(w: World, s: State, node: Node, t: nat, received: int, born: int)
    requires t < |node.calls| && Sees(s, w, node.calls[t].id) && node.calls[t].call.Replied?
    ensures var id, c := node.calls[t].id, DeliverOf(w, node, t, received, born);
            Matches(c, id, DeliverEffect(s, ViewNode(node, id), t, received, born)) && Unseen(node, c.node, id)
  {
    if node.calls[t].call.reply.leased > 0 {
      InsertMatches(w, s, node, t, received, born);
    } else if node.calls[t].id in node.buckets {
      MarkMatches(w, s, node, t, received, born);
    } else {
      BareMatches(w, s, node, t, received, born);
    }
  }

  /** A lease that brought tokens, in the maps. */
  lemma InsertChange(w: World, node: Node, t: nat, received: int, born: int)
    requires t < |node.calls| && node.calls[t].call.Replied? && node.calls[t].call.reply.leased > 0
    ensures var id, c, h := node.calls[t].id, node.calls[t].call, node.Past(node.calls[t].id);
            var b := BucketState(c.reply.leased, born + LeaseTtl(c.reply, c.started, received), c.reply.window, false);
            var h' := h.(since := w.now, snapped := false, mark := None, inserted := h.inserted + [b.window]);
            var c' := Leaving(c.n, Leased(|h.inserted| + 1));
            DeliverOf(w, node, t, received, born)
            == Change(node.Move(t, c').(buckets := node.buckets[id := b]).Remember(id, h'), SlotOf(w.db, id),
                      Dropping(node, id), None)
  {
  }

  lemma InsertEffect(s: State, inst: Inst, t: nat, received: int, born: int, h: History)
    requires t < |inst.calls| && inst.calls[t].Replied? && inst.calls[t].reply.leased > 0 && Recalling(inst, h) == inst
    ensures var c := inst.calls[t];
            var b := BucketState(c.reply.leased, born + LeaseTtl(c.reply, c.started, received), c.reply.window, false);
            var h' := h.(since := s.now, snapped := false, mark := None, inserted := h.inserted + [b.window]);
            var c' := Leaving(c.n, Leased(|h.inserted| + 1));
            DeliverEffect(s, inst, t, received, born)
            == Effect(Recalling(SetCall(inst, t, c').(bucket := Some(b)), h'), s.slot, Discarded(inst), None)
  {
  }

  lemma {:induction false} InsertMatches(w: World, s: State, node: Node, t: nat, received: int, born: int)
    requires t < |node.calls| && Sees(s, w, node.calls[t].id) && node.calls[t].call.Replied?
    requires node.calls[t].call.reply.leased > 0
    ensures var id, c := node.calls[t].id, DeliverOf(w, node, t, received, born);
            Matches(c, id, DeliverEffect(s, ViewNode(node, id), t, received, born)) && Unseen(node, c.node, id)
  {
    var id, c := node.calls[t].id, node.calls[t].call;
    var h, inst := node.Past(id), ViewNode(node, id);
    var b := BucketState(c.reply.leased, born + LeaseTtl(c.reply, c.started, received), c.reply.window, false);
    var c' := Leaving(c.n, Leased(|h.inserted| + 1));
    var h' := h.(since := w.now, snapped := false, mark := None, inserted := h.inserted + [b.window]);
    var node' := node.Move(t, c').(buckets := node.buckets[id := b]).Remember(id, h');
    var inst' := Recalling(SetCall(inst, t, c').(bucket := Some(b)), h');
    assert DeliverOf(w, node, t, received, born) == Change(node', s.slot, Dropping(node, id), None) by {
      InsertChange(w, node, t, received, born);
    }
    assert DeliverEffect(s, inst, t, received, born) == Effect(inst', s.slot, Dropping(node, id), None) by {
      SeeSame(node, id);
      DroppingIsDiscarded(node, id);
      InsertEffect(s, inst, t, received, born, h);
    }
    Delivered(node, t, c', b, h');
    BothAre(DeliverOf(w, node, t, received, born), node, node', id, DeliverEffect(s, inst, t, received, born), inst',
            s.slot, Dropping(node, id));
  }

  lemma MarkMatches(w: World, s: State, node: Node, t: nat, received: int, born: int)
    requires t < |node.calls| && Sees(s, w, node.calls[t].id) && node.calls[t].call.Replied?
    requires node.calls[t].call.reply.leased == 0 && node.calls[t].id in node.buckets
    ensures var id, c := node.calls[t].id, DeliverOf(w, node, t, received, born);
            Matches(c, id, DeliverEffect(s, ViewNode(node, id), t, received, born)) && Unseen(node, c.node, id)
  {
    var id, c := node.calls[t].id, node.calls[t].call;
    var end := FinishLease(Find(node.buckets, id), c.reply, LeaseTtl(c.reply, c.started, received), born, w.now);
    Delivered(node, t, Leaving(c.n, Refused(end.after, w.now, end.bucket.expiresAt, KeyEnd(s.slot))), end.bucket,
              node.Past(id).(mark := Some(Mark(c.reply.window, c.credited))));
  }

  lemma BareMatches(w: World, s: State, node: Node, t: nat, received: int, born: int)
    requires t < |node.calls| && Sees(s, w, node.calls[t].id) && node.calls[t].call.Replied?
    requires node.calls[t].call.reply.leased == 0 && node.calls[t].id !in node.buckets
    ensures var id, c := node.calls[t].id, DeliverOf(w, node, t, received, born);
            Matches(c, id, DeliverEffect(s, ViewNode(node, id), t, received, born)) && Unseen(node, c.node, id)
  {
    var id, c := node.calls[t].id, node.calls[t].call;
    var ttl := LeaseTtl(c.reply, c.started, received);
    var c' := Leaving(c.n, Refused(ttl, received, c.started + c.reply.pttl, c.reply.window));
    assert DeliverEffect(s, ViewNode(node, id), t, received, born)
           == Effect(SetCall(ViewNode(node, id), t, c'), s.slot, [], None);
    assert DeliverOf(w, node, t, received, born) == Change(node.Move(t, c'), s.slot, [], None);
    SeeMove(node, t, c', id);
    MoveUnseen(node, t, c');
  }

  lemma {:induction false} LeaveMatches(w: World, s: State, node: Node, t: nat)
    requires t < |node.calls| && Sees(s, w, node.calls[t].id) && node.calls[t].call.Leaving?
    ensures var id, c := node.calls[t].id, LeaveOf(w, node, t);
            Matches(c, id, LeaveEffect(s, ViewNode(node, id), t)) && Unseen(node, c.node, id)
  {
    var id := node.calls[t].id;
    var e := LeaveEffect(s, ViewNode(node, id), t);
    var moved := node.Move(t, e.inst.calls[t]);
    forall other ensures ViewNode(moved.(refills := moved.refills - {id}), other)
                         == if other == id then SetCall(ViewNode(node, id), t, e.inst.calls[t]).(refill := None)
                            else ViewNode(node, other)
    {
      SeeMove(node, t, e.inst.calls[t], other);
      SeeEntryGone(moved, id, other);
    }
  }

  function AllWoken(node: Node, id: Id, removed: Option<nat>): Node {
    if removed.Some? then node.(calls := WakeUp(node.calls, id, removed.value)) else node
  }

  lemma SeeAllWoken(node: Node, x: Id, removed: Option<nat>, id: Id)
    ensures ViewNode(AllWoken(node, x, removed), id)
            == if x == id then ViewNode(node, id).(calls := Woken(ViewNode(node, id).calls, removed))
               else ViewNode(node, id)
  {
    if removed.Some? {
      SeeWake(node, x, removed.value, id);
    }
  }

  /** The waiters woken, and then the call itself moved. */
  lemma Notified(node: Node, t: nat, removed: Option<nat>, c: Call)
    requires t < |node.calls| && node.calls[t].call.Notifying?
    ensures var id := node.calls[t].id;
            var node' := AllWoken(node, id, removed).Move(t, c);
            var inst := ViewNode(node, id);
            && ViewNode(node', id) == inst.(calls := Woken(inst.calls, removed)[t := c])
            && Unseen(node, node', id)
  {
    var id := node.calls[t].id;
    var woken := AllWoken(node, id, removed);
    assert woken.calls[t].id == id;
    SeeAllWoken(node, id, removed, id);
    SeeMove(woken, t, c, id);
    forall other | other != id ensures ViewNode(woken.Move(t, c), other) == ViewNode(node, other) {
      SeeAllWoken(node, id, removed, other);
      SeeMove(woken, t, c, other);
    }
  }

  lemma NotifyChange(w: World, node: Node, t: nat)
    requires t < |node.calls| && node.calls[t].call.Notifying?
    ensures var id, c := node.calls[t].id, node.calls[t].call;
            var next := if c.outcome.Leased? then Call.Past(c.outcome.epoch) else Idle;
            && NotifyOf(w, node, t).node == AllWoken(node, id, c.removed).Move(t, next)
            && NotifyOf(w, node, t).slot == SlotOf(w.db, id) && NotifyOf(w, node, t).events == []
            && NotifyOf(w, node, t).answer == Answered(c.outcome)
  {
  }

  lemma NotifyMatches(w: World, s: State, node: Node, t: nat)
    requires t < |node.calls| && Sees(s, w, node.calls[t].id) && node.calls[t].call.Notifying?
    ensures var id, c := node.calls[t].id, NotifyOf(w, node, t);
            Matches(c, id, NotifyEffect(s, ViewNode(node, id), t)) && Unseen(node, c.node, id)
  {
    var c := node.calls[t].call;
    NotifyChange(w, node, t);
    assert ViewNode(node, node.calls[t].id).calls[t] == c;
    Notified(node, t, c.removed, if c.outcome.Leased? then Call.Past(c.outcome.epoch) else Idle);
  }

  lemma Unpaid(node: Node, t: nat, h: History)
    requires t < |node.calls|
    ensures var id := node.calls[t].id;
            && ViewNode(node.Move(t, Idle).Remember(id, h), id) == Recalling(SetCall(ViewNode(node, id), t, Idle), h)
            && Unseen(node, node.Move(t, Idle).Remember(id, h), id)
  {
    var id := node.calls[t].id;
    forall other ensures ViewNode(node.Move(t, Idle).Remember(id, h), other)
                         == if other == id then Recalling(SetCall(ViewNode(node, id), t, Idle), h)
                            else ViewNode(node, other)
    {
      SeeMove(node, t, Idle, other);
      SeeHistory(node.Move(t, Idle), id, h, other);
    }
  }

  lemma NoTokenMatches(node: Node, id: Id, t: nat, epoch: nat, now: int)
    ensures NoToken(node, id, t, epoch, now) == UnbackedBy(ViewNode(node, id), t, epoch, now)
  {
  }

  lemma {:induction false} ConsumeMatches(w: World, s: State, node: Node, t: nat, sample: int)
    requires t < |node.calls| && Sees(s, w, node.calls[t].id) && node.calls[t].call.Past?
    ensures var id, c := node.calls[t].id, ConsumeOf(w, node, t, sample);
            Matches(c, id, ConsumeEffect(s, ViewNode(node, id), t, sample)) && Unseen(node, c.node, id)
  {
    var id, epoch := node.calls[t].id, node.calls[t].call.epoch;
    var spending := Spend(Find(node.buckets, id), sample);
    if spending.Outdated? {
      SeeMove(node, t, Removing(epoch), id);
      MoveUnseen(node, t, Removing(epoch));
    } else if spending.Spent? {
      TakeMatches(node, t, spending.bucket);
    } else {
      EmptyMatches(w, s, node, t, sample);
    }
  }

  lemma {:induction false} EmptyMatches(w: World, s: State, node: Node, t: nat, sample: int)
    requires t < |node.calls| && Sees(s, w, node.calls[t].id) && node.calls[t].call.Past?
    requires Spend(Find(node.buckets, node.calls[t].id), sample).Missing?
             || Spend(Find(node.buckets, node.calls[t].id), sample).Empty?
    ensures var id, c := node.calls[t].id, ConsumeOf(w, node, t, sample);
            Matches(c, id, ConsumeEffect(s, ViewNode(node, id), t, sample)) && Unseen(node, c.node, id)
  {
    var id, epoch := node.calls[t].id, node.calls[t].call.epoch;
    var h := node.Past(id);
    Unpaid(node, t, h.(untokened := h.untokened + [WindowOf(h.inserted, epoch)]));
    NoTokenMatches(node, id, t, epoch, w.now);
  }

  lemma TakeMatches(node: Node, t: nat, b: BucketState)
    requires t < |node.calls|
    ensures var id := node.calls[t].id;
            var node' := node.Move(t, Idle).(buckets := node.buckets[id := b]);
            && ViewNode(node', id) == SetCall(ViewNode(node, id), t, Idle).(bucket := Some(b))
            && Unseen(node, node', id)
  {
    var id := node.calls[t].id;
    var moved := node.Move(t, Idle);
    forall other ensures ViewNode(moved.(buckets := moved.buckets[id := b]), other)
                         == if other == id then SetCall(ViewNode(node, id), t, Idle).(bucket := Some(b))
                            else ViewNode(node, other)
    {
      SeeMove(node, t, Idle, other);
      SeeBucket(moved, id, b, other);
    }
  }

  lemma {:induction false} RemoveMatches(w: World, s: State, node: Node, t: nat)
    requires t < |node.calls| && Sees(s, w, node.calls[t].id) && node.calls[t].call.Removing?
    ensures var id, c := node.calls[t].id, RemoveOf(w, node, t);
            Matches(c, id, RemoveEffect(s, ViewNode(node, id), t)) && Unseen(node, c.node, id)
  {
    var id, epoch := node.calls[t].id, node.calls[t].call.epoch;
    var moved := node.Move(t, Idle);
    var bare := moved.WithoutBucket(id);
    var h := bare.Past(id);
    var h' := h.(untokened := h.untokened + [WindowOf(h.inserted, epoch)]);
    NoTokenMatches(node, id, t, epoch, w.now);
    DroppingIsDiscarded(node, id);
    forall other ensures ViewNode(bare.Remember(id, h'), other)
                         == if other == id
                            then Recalling(Protocol.WithoutBucket(SetCall(ViewNode(node, id), t, Idle)), h')
                            else ViewNode(node, other)
    {
      SeeMove(node, t, Idle, other);
      SeeRemoval(moved, id, other);
      SeeHistory(bare, id, h', other);
    }
  }

  lemma QuietMatches(w: World, s: State, node: Node, t: nat, c: Call)
    requires t < |node.calls| && Sees(s, w, node.calls[t].id)
    ensures var id, change := node.calls[t].id, Change(node.Move(t, c), SlotOf(w.db, node.calls[t].id), [], None);
            && Matches(change, id, Effect(SetCall(ViewNode(node, id), t, c), s.slot, [], None))
            && Unseen(node, change.node, id)
  {
    SeeMove(node, t, c, node.calls[t].id);
    MoveUnseen(node, t, c);
  }

  lemma ReadyIsEnabled(cfg: Settings, now: int, node: Node, step: Step)
    requires OfCall(step) && Ready(cfg, now, node, step)
    ensures InstEnabled(cfg.For(node.calls[step.t].id), now, ViewNode(node, node.calls[step.t].id), step)
  {
  }

  lemma {:induction false} ActMatches(cfg: Settings, w: World, s: State, node: Node, step: Step)
    requires OfCall(step) && Ready(cfg, w.now, node, step) && Sees(s, w, node.calls[step.t].id)
    ensures var id, c := node.calls[step.t].id, ActOf(cfg, w, node, step);
            && InstEnabled(cfg.For(id), s.now, ViewNode(node, id), step)
            && Matches(c, id, InstEffect(cfg.For(id), s, ViewNode(node, id), step))
            && Unseen(node, c.node, id)
  {
    ReadyIsEnabled(cfg, w.now, node, step);
    if step.Check? {
      CheckMatches(w, s, node, step.t, step.stale);
    } else if step.Claim? {
      ClaimMatches(w, s, node, step.t);
    } else if step.Execute? {
      ExecuteMatches(cfg, w, s, node, step.t);
    } else if step.Abort? {
      AbortMatches(w, s, node, step.t);
    } else if step.Deliver? {
      DeliverMatches(w, s, node, step.t, step.received, step.born);
    } else if step.Leave? {
      LeaveMatches(w, s, node, step.t);
    } else if step.Notify? {
      NotifyMatches(w, s, node, step.t);
    } else if step.Consume? {
      ConsumeMatches(w, s, node, step.t, step.sample);
    } else if step.Remove? {
      RemoveMatches(w, s, node, step.t);
    } else {
      QuietActMatches(cfg, w, s, node, step);
    }
  }

  lemma {:induction false} QuietActMatches(cfg: Settings, w: World, s: State, node: Node, step: Step)
    requires step.Register? || step.Cancel? || step.Send?
    requires Ready(cfg, w.now, node, step) && Sees(s, w, node.calls[step.t].id)
    requires InstEnabled(cfg.For(node.calls[step.t].id), s.now, ViewNode(node, node.calls[step.t].id), step)
    ensures var id, c := node.calls[step.t].id, ActOf(cfg, w, node, step);
            && Matches(c, id, InstEffect(cfg.For(id), s, ViewNode(node, id), step))
            && Unseen(node, c.node, id)
  {
    var c := node.calls[step.t].call;
    assert ViewNode(node, node.calls[step.t].id).calls[step.t] == c;
    var next := if step.Register? then Waiting(c.n) else if step.Cancel? then Idle else Requested(c.n, w.now);
    QuietMatches(w, s, node, step.t, next);
  }

  // The rest of what an instance does for one id

  lemma TaggedBegin(calls: seq<Tagged>, t: nat, x: Id, id: Id)
    requires t < |calls| && calls[t].call.Idle?
    ensures ViewCalls(calls[t := Tagged(x, Checking)], id)
            == if x == id then ViewCalls(calls, id)[t := Checking] else ViewCalls(calls, id)
  {
  }

  lemma Begun(node: Node, t: nat, x: Id, h: History, id: Id)
    requires t < |node.calls| && node.calls[t].call.Idle?
    ensures ViewNode(node.(calls := node.calls[t := Tagged(x, Checking)]).Remember(x, h), id)
            == if x == id then Recalling(SetCall(ViewNode(node, x), t, Checking), h) else ViewNode(node, id)
  {
    var calls := node.calls[t := Tagged(x, Checking)];
    TaggedBegin(node.calls, t, x, id);
    SeeCalls(node, calls, id);
    SeeHistory(node.(calls := calls), x, h, id);
  }

  lemma {:induction false} BeginMatches(w: World, s: State, node: Node, t: nat, x: Id)
    requires t < |node.calls| && node.calls[t].call.Idle? && Sees(s, w, x)
    ensures var c := BeginOf(w, node, t, x);
            && Matches(c, x, Effect(SetCall(StartedAt(ViewNode(node, x), t, s.now), t, Checking), s.slot, [], None))
            && Unseen(node, c.node, x)
  {
    var h := node.Past(x);
    var h' := h.(began := if t < |h.began| then h.began[t := w.now] else h.began);
    Begun(node, t, x, h', x);
    SeeSame(node, x);
    forall id | id != x ensures ViewNode(BeginOf(w, node, t, x).node, id) == ViewNode(node, id) {
      Begun(node, t, x, h', id);
    }
  }

  lemma SeeLoop(node: Node, loop: Loop, id: Id)
    ensures ViewNode(node.(loop := loop), id)
            == ViewNode(node, id).(phase := PhaseOf(node.(loop := loop), id),
                                   sweeping := loop.Ticking? && id in loop.listed, stopped := StoppedAt(loop, id))
  {
  }

  lemma ListMatches(w: World, s: State, node: Node, x: Id)
    requires node.loop.Ticking? && Sees(s, w, x)
    ensures var c := Change(node.(loop := Ticking(node.loop.listed + {x})), SlotOf(w.db, x), [], None);
            && Matches(c, x, Effect(ViewNode(node, x).(sweeping := true), s.slot, [], None))
            && Unseen(node, c.node, x)
  {
    var loop := Ticking(node.loop.listed + {x});
    forall id ensures ViewNode(node.(loop := loop), id)
                      == if id == x then ViewNode(node, x).(sweeping := true) else ViewNode(node, id)
    {
      SeeLoop(node, loop, id);
    }
  }

  lemma EvictMatches(w: World, s: State, node: Node, x: Id)
    requires node.loop.Ticking? && Sees(s, w, x)
    ensures var c := Change(node.WithoutBucket(x).(loop := Ticking(node.loop.listed - {x})), SlotOf(w.db, x),
                            Dropping(node, x), None);
            && Matches(c, x, Effect(Protocol.WithoutBucket(ViewNode(node, x)).(sweeping := false), s.slot,
                                    Discarded(ViewNode(node, x)), None))
            && Unseen(node, c.node, x)
  {
    DroppingIsDiscarded(node, x);
    Evicted(node, x, Ticking(node.loop.listed - {x}));
  }

  lemma Evicted(node: Node, x: Id, loop: Loop)
    requires node.loop.Ticking? && loop == Ticking(node.loop.listed - {x})
    ensures forall id :: ViewNode(node.WithoutBucket(x).(loop := loop), id)
              == if id == x then Protocol.WithoutBucket(ViewNode(node, x)).(sweeping := false) else ViewNode(node, id)
  {
    forall id ensures ViewNode(node.WithoutBucket(x).(loop := loop), id)
                      == if id == x then Protocol.WithoutBucket(ViewNode(node, x)).(sweeping := false)
                         else ViewNode(node, id)
    {
      SeeRemoval(node, x, id);
      SeeLoop(node.WithoutBucket(x), loop, id);
    }
  }

  /** One more id passed. */
  lemma SeePassed(node: Node, x: Id, sample: int)
    requires node.loop.Passing? && !node.crashed && x !in node.loop.passed
    ensures var on := node.(loop := Passing(node.loop.passed[x := sample]));
            forall id :: ViewNode(on, id)
              == if id == x then ViewNode(node, x).(phase := Stopping, stopped := sample) else ViewNode(node, id)
  {
    var loop := Passing(node.loop.passed[x := sample]);
    forall id ensures ViewNode(node.(loop := loop), id)
                      == if id == x then ViewNode(node, x).(phase := Stopping, stopped := sample)
                         else ViewNode(node, id)
    {
      SeeLoop(node, loop, id);
    }
  }

  lemma {:induction false} PassMatches(w: World, s: State, node: Node, x: Id, sample: int, seen: bool)
    requires node.loop.Passing? && !node.crashed && x !in node.loop.passed && Sees(s, w, x)
    ensures var c := PassOf(w, node, x, sample, seen);
            Matches(c, x, SnapshotEffect(s, ViewNode(node, x), sample, seen)) && Unseen(node, c.node, x)
  {
    var loop := Passing(node.loop.passed[x := sample]);
    SeePassed(node, x, sample);
    SeeSame(node, x);
    if x in node.buckets && (node.buckets[x].tokens != 0 || seen) && !node.buckets[x].IsExpired(sample) {
      var d := Due(node.buckets[x].tokens, node.buckets[x].window);
      Recorded(node, x, loop, d);
      var node' := node.(loop := loop).(pending := node.pending[x := d]).Remember(x, node.Past(x).(snapped := true));
      assert PassOf(w, node, x, sample, seen) == Change(node', SlotOf(w.db, x), [], None);
    } else {
      assert PassOf(w, node, x, sample, seen) == Change(node.(loop := loop), SlotOf(w.db, x), [], None);
    }
  }

  lemma Recorded(node: Node, x: Id, loop: Loop, d: Due)
    ensures var on := node.(loop := loop);
            var node' := on.(pending := node.pending[x := d]).Remember(x, node.Past(x).(snapped := true));
            forall id :: ViewNode(node', id)
              == if id == x then ViewNode(on, x).(pending := Some(d), snapped := true) else ViewNode(on, id)
  {
    var on := node.(loop := loop);
    var due := on.(pending := on.pending[x := d]);
    var h := node.Past(x).(snapped := true);
    forall id ensures ViewNode(due.Remember(x, h), id)
                      == if id == x then ViewNode(on, x).(pending := Some(d), snapped := true) else ViewNode(on, id)
    {
      SeeDue(on, x, d, id);
      SeeHistory(due, x, h, id);
      SeeSame(on, id);
    }
  }

  lemma ReturnMatches(w: World, s: State, node: Node, x: Id)
    requires x in node.pending && Sees(s, w, x)
    ensures var c := ReturnOf(w, node, x);
            Matches(c, x, ReleaseEffect(s, ViewNode(node, x))) && Unseen(node, c.node, x)
  {
    forall id ensures ViewNode(node.(pending := node.pending - {x}), id)
                      == if id == x then ViewNode(node, x).(pending := None) else ViewNode(node, id)
    {
      SeeDueGone(node, x, id);
    }
  }
}
