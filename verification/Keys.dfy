/** Many ids at once: one Redis table with string keys, and in each instance one buckets map, one refills map, one pool
    of calls and one background loop for all ids. Seen from one id, a run of all this is a run of the single-key
    protocol, with the same answers. */
module Keys {
  import opened Basics
  import opened Policies
  import opened Buckets
  import opened RedisScripts
  import opened StoreRules
  import opened Protocol

  /** The settings of a store; all ids of one kind share a policy. */
  datatype Settings = Settings(public: Policy, protected: Policy, slots: nat, gap: nat, lag: nat,
                               cleanup: bool) {
    function For(id: Id): Config {
      Config(if id.Public? then public else protected, slots, gap, lag, cleanup)
    }

    predicate Valid() {
      public.Valid() && protected.Valid()
    }
  }

  /** A call and the id it was made for. */
  datatype Tagged = Tagged(id: Id, call: Call)

  /** The background loop: it lists expired buckets and removes them, until the shutdown command makes it pass through
      the map once, noting the clock sample at each id, and then release what it recorded. */
  datatype Loop =
    | Ticking(listed: set<Id>)
    | Passing(passed: map<Id, int>)
    | Releasing(passed: map<Id, int>, since: int)

  /** What the single-key protocol remembers without deciding by it. */
  datatype History = History(began: seq<int>, since: int, snapped: bool, nextNotify: nat, inserted: seq<int>,
                             untokened: seq<int>, raced: bool, mark: Option<Mark>)

  function NoHistory(slots: nat): History {
    History(Zeros(slots), 0, false, 0, [], [], false, None)
  }

  function Find<T>(m: map<Id, T>, id: Id): Option<T> {
    if id in m then Some(m[id]) else None
  }

  datatype Node = Node(buckets: map<Id, BucketState>, refills: map<Id, Refill>, calls: seq<Tagged>, crashed: bool,
                       loop: Loop, pending: map<Id, Due>, histories: map<Id, History>) {
    function Past(id: Id): History {
      if id in histories then histories[id] else NoHistory(|calls|)
    }

    function Remember(id: Id, h: History): Node {
      this.(histories := histories[id := h])
    }

    function Move(t: nat, c: Call): Node
      requires t < |calls|
    {
      this.(calls := calls[t := Tagged(calls[t].id, c)])
    }

    function WithoutBucket(id: Id): Node {
      this.(buckets := buckets - {id}).Remember(id, Past(id).(snapped := false, mark := None))
    }
  }

  /** An answer, with the call it was given to. */
  datatype Given = Given(id: Id, i: nat, t: nat, answer: Answer)

  datatype World = World(now: int, db: Table, nodes: seq<Node>, logs: map<Id, seq<Event>>, answers: seq<Given>) {
    function LogOf(id: Id): seq<Event> {
      if id in logs then logs[id] else []
    }

    /** The part of the world that concerns one id. */
    function View(id: Id): State {
      State(now, SlotOf(db, id), Views(nodes, id), LogOf(id))
    }
  }

  function ViewCalls(calls: seq<Tagged>, id: Id): (view: seq<Call>)
    ensures |view| == |calls|
    ensures forall t :: 0 <= t < |calls| ==> view[t] == if calls[t].id == id then calls[t].call else Idle
  {
    if calls == [] then []
    else
      var last := calls[|calls| - 1];
      ViewCalls(calls[..|calls| - 1], id) + [if last.id == id then last.call else Idle]
  }

  function PhaseOf(node: Node, id: Id): Phase {
    if node.crashed then Crashed
    else match node.loop
      case Ticking(_) => Serving
      case Passing(passed) => if id in passed then Stopping else Serving
      case Releasing(_, _) => Stopping
  }

  function StoppedAt(loop: Loop, id: Id): int {
    match loop
    case Ticking(_) => 0
    case Passing(passed) => if id in passed then passed[id] else 0
    case Releasing(passed, since) => if id in passed then passed[id] else since
  }

  /** An instance seen from one id. */
  function ViewNode(node: Node, id: Id): Inst {
    var h := node.Past(id);
    Inst(Find(node.buckets, id), Find(node.refills, id), ViewCalls(node.calls, id), PhaseOf(node, id),
         node.loop.Ticking? && id in node.loop.listed, Find(node.pending, id), h.began, h.since, h.snapped,
         StoppedAt(node.loop, id), h.nextNotify, h.inserted, h.untokened, h.raced, h.mark)
  }

  function Views(nodes: seq<Node>, id: Id): (insts: seq<Inst>)
    ensures |insts| == |nodes|
    ensures forall i :: 0 <= i < |nodes| ==> insts[i] == ViewNode(nodes[i], id)
  {
    if nodes == [] then [] else Views(nodes[..|nodes| - 1], id) + [ViewNode(nodes[|nodes| - 1], id)]
  }

  datatype Move =
    | Elapse(d: nat)
    | Enter
    | Orphan(id: Id)                                    // a lease request whose sender is gone
    | Halt(i: nat)
    | Begin(i: nat, t: nat, id: Id)
    | Act(step: Step)                                   // a call goes on, for the id it was made for
    | List(i: nat, id: Id)
    | Evict(i: nat, id: Id)
    | StartPass(i: nat)
    | Pass(i: nat, id: Id, sample: int, seen: bool)
    | EndPass(i: nat)
    | Return(i: nat, id: Id)
    | GiveUp(i: nat, id: Id)

  predicate OfNode(m: Move) {
    !m.Elapse? && !m.Enter? && !m.Orphan?
  }

  function NodeOf(m: Move): nat
    requires OfNode(m) && (m.Act? ==> OfCall(m.step))
  {
    if m.Act? then m.step.i else m.i
  }

  // What a call may do, by what it finds in the maps

  predicate Ready(cfg: Settings, now: int, node: Node, step: Step)
    requires OfCall(step)
  {
    step.t < |node.calls| &&
    var id, c := node.calls[step.t].id, node.calls[step.t].call;
    match step
    case Check(_, _, _) => c.Checking?
    case Claim(_, _) => c.Claiming?
    case Register(_, _) => c.Cloned?
    case Cancel(_, _) => c.Waiting?
    case Send(_, _) => c.Leading?
    case Execute(_, _) => c.Requested?
    case Abort(_, _) => c.Requested? || c.Replied?
    case Deliver(_, _, received, born) =>
      c.Replied? && c.executed <= received <= born <= now && born - received <= cfg.gap
    case Leave(_, _) => c.Leaving?
    case Notify(_, _) => c.Notifying?
    case Consume(_, _, sample) =>
      c.Past? && now - cfg.lag <= sample <= now && (id in node.buckets ==> node.Past(id).since <= sample)
    case Remove(_, _) => c.Removing?
    case _ => false
  }

  predicate Possible(cfg: Settings, w: World, m: Move) {
    (m.Act? ==> OfCall(m.step)) && (OfNode(m) ==> NodeOf(m) < |w.nodes|) &&
    match m
    case Elapse(_) => true
    case Enter => true
    case Orphan(_) => true
    case Halt(i) => !w.nodes[i].crashed
    case Begin(i, t, _) => t < |w.nodes[i].calls| && w.nodes[i].calls[t].call.Idle? && !w.nodes[i].crashed
    case Act(step) => Ready(cfg, w.now, w.nodes[step.i], step)
    case List(i, id) =>
      var n := w.nodes[i];
      && cfg.cleanup && !n.crashed && n.loop.Ticking?
      && id !in n.loop.listed && id in n.buckets && n.buckets[id].IsExpired(w.now)
    case Evict(i, id) => w.nodes[i].loop.Ticking? && id in w.nodes[i].loop.listed
    case StartPass(i) => cfg.cleanup && !w.nodes[i].crashed && w.nodes[i].loop == Ticking({})
    case Pass(i, id, sample, _) =>
      var n := w.nodes[i];
      && cfg.cleanup && !n.crashed && n.loop.Passing? && id !in n.loop.passed
      && w.now - cfg.lag <= sample <= w.now && (id in n.buckets ==> n.Past(id).since <= sample)
    case EndPass(i) =>
      && cfg.cleanup && !w.nodes[i].crashed && w.nodes[i].loop.Passing?
      && w.nodes[i].buckets.Keys <= w.nodes[i].loop.passed.Keys
    case Return(i, id) => id in w.nodes[i].pending && w.nodes[i].loop.Releasing?
    case GiveUp(i, id) => id in w.nodes[i].pending && (w.nodes[i].loop.Releasing? || w.nodes[i].crashed)
  }

  /** What a move does to its instance, to the Redis key of its id and to the history of that id. */
  datatype Change = Change(node: Node, slot: Slot, events: seq<Event>, answer: Option<Answer>)

  function Dropping(node: Node, id: Id): seq<Event> {
    if id !in node.buckets then []
    else
      var b := node.buckets[id];
      [if node.Past(id).snapped then Wasted(b.window, b.tokens) else Lost(b.window, b.tokens)]
  }

  function NoToken(node: Node, id: Id, t: nat, epoch: nat, now: int): Event {
    var h := node.Past(id);
    Unbacked(now, WindowOf(h.inserted, epoch), if t < |h.began| then h.began[t] else 0)
  }

  function Untokened(node: Node, id: Id, epoch: nat): Node {
    var h := node.Past(id);
    node.Remember(id, h.(untokened := h.untokened + [WindowOf(h.inserted, epoch)]))
  }

  /** `notify_waiters` reaches the calls for the same id that are registered. */
  function WakeUp(calls: seq<Tagged>, id: Id, n: nat): (woken: seq<Tagged>)
    ensures |woken| == |calls|
    ensures forall t :: 0 <= t < |calls| ==>
      woken[t] == if calls[t] == Tagged(id, Waiting(n)) then Tagged(id, Checking) else calls[t]
  {
    if calls == [] then []
    else
      var last := calls[|calls| - 1];
      WakeUp(calls[..|calls| - 1], id, n) + [if last == Tagged(id, Waiting(n)) then Tagged(id, Checking) else last]
  }

  function CheckOf(w: World, node: Node, t: nat, stale: bool): Change
    requires t < |node.calls|
  {
    var id := node.calls[t].id;
    var slot := SlotOf(w.db, id);
    match StoreRules.Check(Find(node.buckets, id), stale, w.now)
    case Usable => Change(node.Move(t, Call.Past(|node.Past(id).inserted|)), slot, [], None)
    case NeedsLease => Change(node.Move(t, Claiming), slot, [], None)
    case Reject(after) => Change(node.Move(t, Idle), slot, [], Some(Exhausted(after)))
  }

  function ClaimOf(w: World, node: Node, t: nat): Change
    requires t < |node.calls|
  {
    var id := node.calls[t].id;
    var slot := SlotOf(w.db, id);
    if id in node.refills then Change(node.Move(t, Cloned(node.refills[id].notify)), slot, [], None)
    else
      var h := node.Past(id);
      var n := h.nextNotify;
      var usable := id in node.buckets && node.buckets[id].Usable(w.now);
      var led := node.Move(t, Leading(n)).(refills := node.refills[id := Refill(n, t)]);
      Change(led.Remember(id, h.(nextNotify := n + 1, raced := h.raced || usable)), slot, [], None)
  }

  function ExecuteOf(cfg: Settings, w: World, node: Node, t: nat): Change
    requires t < |node.calls| && node.calls[t].call.Requested?
  {
    var id, c := node.calls[t].id, node.calls[t].call;
    var p := cfg.For(id).policy;
    var run := LeaseScript(SlotOf(w.db, id), w.now, p);
    var events := LeaseEvents(SlotOf(w.db, id), w.now, run.reply, p.quota);
    if run.reply.None? then Change(node.Move(t, Leaving(c.n, Broken)), run.slot, events, None)
    else
      var credited := Total(w.LogOf(id), ACredit, run.reply.value.window);
      Change(node.Move(t, Replied(c.n, c.started, w.now, run.reply.value, credited)), run.slot, events, None)
  }

  function AbortOf(w: World, node: Node, t: nat): Change
    requires t < |node.calls| && (node.calls[t].call.Requested? || node.calls[t].call.Replied?)
  {
    var id, c := node.calls[t].id, node.calls[t].call;
    Change(node.Move(t, Leaving(c.n, Broken)), SlotOf(w.db, id),
           if c.Replied? then [Lost(c.reply.window, c.reply.leased)] else [], None)
  }

  function DeliverOf(w: World, node: Node, t: nat, received: int, born: int): Change
    requires t < |node.calls| && node.calls[t].call.Replied?
  {
    var id, c := node.calls[t].id, node.calls[t].call;
    var slot, h := SlotOf(w.db, id), node.Past(id);
    match FinishLease(Find(node.buckets, id), c.reply, LeaseTtl(c.reply, c.started, received), born, w.now)
    case Inserted(b) =>
      var stored := node.Move(t, Leaving(c.n, Leased(|h.inserted| + 1))).(buckets := node.buckets[id := b]);
      var h' := h.(since := w.now, snapped := false, mark := None, inserted := h.inserted + [b.window]);
      Change(stored.Remember(id, h'), slot, Dropping(node, id), None)
    case Marked(b, after) =>
      var refusal := Refused(after, w.now, b.expiresAt, KeyEnd(slot));
      var refused := node.Move(t, Leaving(c.n, refusal)).(buckets := node.buckets[id := b]);
      Change(refused.Remember(id, h.(mark := Some(Mark(c.reply.window, c.credited)))), slot, [], None)
    case Bare(after) =>
      var refusal := Refused(after, received, c.started + c.reply.pttl, c.reply.window);
      Change(node.Move(t, Leaving(c.n, refusal)), slot, [], None)
  }

  function LeaveOf(w: World, node: Node, t: nat): Change
    requires t < |node.calls| && node.calls[t].call.Leaving?
  {
    var id, c := node.calls[t].id, node.calls[t].call;
    var removed := if id in node.refills then Some(node.refills[id].notify) else None;
    Change(node.Move(t, Notifying(removed, c.outcome)).(refills := node.refills - {id}), SlotOf(w.db, id), [], None)
  }

  function NotifyOf(w: World, node: Node, t: nat): Change
    requires t < |node.calls| && node.calls[t].call.Notifying?
  {
    var id, c := node.calls[t].id, node.calls[t].call;
    var slot := SlotOf(w.db, id);
    var woken := if c.removed.Some? then node.(calls := WakeUp(node.calls, id, c.removed.value)) else node;
    match c.outcome
    case Leased(epoch) => Change(woken.Move(t, Call.Past(epoch)), slot, [], None)
    case Refused(after, _, _, _) => Change(woken.Move(t, Idle), slot, [], Some(Exhausted(after)))
    case Broken => Change(woken.Move(t, Idle), slot, [], Some(CacheError))
  }

  function ConsumeOf(w: World, node: Node, t: nat, sample: int): Change
    requires t < |node.calls| && node.calls[t].call.Past?
  {
    var id, c := node.calls[t].id, node.calls[t].call;
    var slot := SlotOf(w.db, id);
    match Spend(Find(node.buckets, id), sample)
    case Outdated => Change(node.Move(t, Removing(c.epoch)), slot, [], None)
    case Spent(b) =>
      Change(node.Move(t, Idle).(buckets := node.buckets[id := b]), slot,
             [Took(w.now, b.window, !node.Past(id).snapped)], Some(Admitted(b.tokens)))
    case _ =>
      Change(Untokened(node.Move(t, Idle), id, c.epoch), slot, [NoToken(node, id, t, c.epoch, w.now)],
             Some(Admitted(0)))
  }

  function RemoveOf(w: World, node: Node, t: nat): Change
    requires t < |node.calls| && node.calls[t].call.Removing?
  {
    var id, c := node.calls[t].id, node.calls[t].call;
    Change(Untokened(node.Move(t, Idle).WithoutBucket(id), id, c.epoch), SlotOf(w.db, id),
           Dropping(node, id) + [NoToken(node, id, t, c.epoch, w.now)], Some(Admitted(0)))
  }

  function ActOf(cfg: Settings, w: World, node: Node, step: Step): Change
    requires OfCall(step) && Ready(cfg, w.now, node, step)
  {
    var id, c := node.calls[step.t].id, node.calls[step.t].call;
    match step
    case Check(_, t, stale) => CheckOf(w, node, t, stale)
    case Claim(_, t) => ClaimOf(w, node, t)
    case Register(_, t) => Change(node.Move(t, Waiting(c.n)), SlotOf(w.db, id), [], None)
    case Cancel(_, t) => Change(node.Move(t, Idle), SlotOf(w.db, id), [], None)
    case Send(_, t) => Change(node.Move(t, Requested(c.n, w.now)), SlotOf(w.db, id), [], None)
    case Execute(_, t) => ExecuteOf(cfg, w, node, t)
    case Abort(_, t) => AbortOf(w, node, t)
    case Deliver(_, t, received, born) => DeliverOf(w, node, t, received, born)
    case Leave(_, t) => LeaveOf(w, node, t)
    case Notify(_, t) => NotifyOf(w, node, t)
    case Consume(_, t, sample) => ConsumeOf(w, node, t, sample)
    case Remove(_, t) => RemoveOf(w, node, t)
  }

  function BeginOf(w: World, node: Node, t: nat, id: Id): Change
    requires t < |node.calls|
  {
    var h := node.Past(id);
    var began := if t < |h.began| then h.began[t := w.now] else h.began;
    Change(node.(calls := node.calls[t := Tagged(id, Checking)]).Remember(id, h.(began := began)), SlotOf(w.db, id), [],
           None)
  }

  function PassOf(w: World, node: Node, id: Id, sample: int, seen: bool): Change
    requires node.loop.Passing?
  {
    var on := node.(loop := Passing(node.loop.passed[id := sample]));
    var slot := SlotOf(w.db, id);
    if id in node.buckets && (node.buckets[id].tokens != 0 || seen) && !node.buckets[id].IsExpired(sample) then
      var b := node.buckets[id];
      Change(on.(pending := node.pending[id := Due(b.tokens, b.window)])
               .Remember(id, node.Past(id).(snapped := true)), slot, [], None)
    else
      Change(on, slot, [], None)
  }

  function ReturnOf(w: World, node: Node, id: Id): Change
    requires id in node.pending
  {
    var d := node.pending[id];
    var run := ReleaseScript(SlotOf(w.db, id), w.now, d.tokens, d.window);
    Change(node.(pending := node.pending - {id}), run.slot,
           [if run.released then Credited(d.window, d.tokens) else Dropped(d.window, d.tokens)], None)
  }

  /** Moves of one instance on one id. */
  predicate OnId(m: Move) {
    m.Begin? || m.Act? || m.List? || m.Evict? || m.Pass? || m.Return? || m.GiveUp?
  }

  function IdOf(w: World, m: Move): Id
    requires OnId(m)
    requires m.Act? ==> OfCall(m.step) && m.step.i < |w.nodes| && m.step.t < |w.nodes[m.step.i].calls|
  {
    if m.Act? then w.nodes[m.step.i].calls[m.step.t].id else m.id
  }

  function ChangeOf(cfg: Settings, w: World, m: Move): Change
    requires OnId(m) && Possible(cfg, w, m)
  {
    var node := w.nodes[NodeOf(m)];
    match m
    case Begin(_, t, id) => BeginOf(w, node, t, id)
    case Act(step) => ActOf(cfg, w, node, step)
    case List(_, id) => Change(node.(loop := Ticking(node.loop.listed + {id})), SlotOf(w.db, id), [], None)
    case Evict(_, id) =>
      Change(node.WithoutBucket(id).(loop := Ticking(node.loop.listed - {id})), SlotOf(w.db, id), Dropping(node, id),
             None)
    case Pass(_, id, sample, seen) => PassOf(w, node, id, sample, seen)
    case Return(_, id) => ReturnOf(w, node, id)
    case GiveUp(_, id) =>
      var d := node.pending[id];
      Change(node.(pending := node.pending - {id}), SlotOf(w.db, id), [Dropped(d.window, d.tokens)], None)
  }

  /** Redis after a script; no script removes a key. */
  function Put(db: Table, id: Id, slot: Slot): Table {
    if slot.Some? then db[id.ToKey() := slot.value] else db
  }

  function Written(w: World, id: Id, i: nat, t: nat, c: Change): World
    requires i < |w.nodes|
  {
    w.(db := Put(w.db, id, c.slot), nodes := w.nodes[i := c.node], logs := w.logs[id := w.LogOf(id) + c.events],
       answers := w.answers + if c.answer.Some? then [Given(id, i, t, c.answer.value)] else [])
  }

  /** The call slot that a move's answer goes to. */
  function SlotNumber(m: Move): nat {
    if m.Act? && OfCall(m.step) then m.step.t else 0
  }

  // Moves that concern all ids

  function IdleAll(calls: seq<Tagged>): (idle: seq<Tagged>)
    ensures |idle| == |calls|
    ensures forall t :: 0 <= t < |calls| ==> idle[t] == Tagged(calls[t].id, Idle)
  {
    if calls == [] then []
    else IdleAll(calls[..|calls| - 1]) + [Tagged(calls[|calls| - 1].id, Idle)]
  }

  function HaltNode(node: Node): Node {
    Node(map[], map[], IdleAll(node.calls), true, if node.loop.Ticking? then Ticking({}) else node.loop, node.pending,
         map id | id in node.histories :: node.histories[id].(snapped := false, mark := None))
  }

  /** What a crash of the instance loses of one id. */
  function HaltEvents(node: Node, id: Id): seq<Event> {
    Dropping(node, id) + Undelivered(ViewCalls(node.calls, id))
  }

  function Tags(calls: seq<Tagged>): set<Id> {
    set t | 0 <= t < |calls| :: calls[t].id
  }

  function HaltLogs(w: World, node: Node): map<Id, seq<Event>> {
    map id | id in w.logs.Keys + node.buckets.Keys + Tags(node.calls) :: w.LogOf(id) + HaltEvents(node, id)
  }

  function Blanks(n: nat): (calls: seq<Tagged>)
    ensures |calls| == n
    ensures forall t :: 0 <= t < n ==> calls[t].call == Idle
  {
    if n == 0 then [] else Blanks(n - 1) + [Tagged(Public(""), Idle)]
  }

  function Halted(w: World, i: nat): World
    requires i < |w.nodes|
  {
    w.(nodes := w.nodes[i := HaltNode(w.nodes[i])], logs := HaltLogs(w, w.nodes[i]))
  }

  function Turned(w: World, i: nat, loop: Loop): World
    requires i < |w.nodes|
  {
    w.(nodes := w.nodes[i := w.nodes[i].(loop := loop)])
  }

  function Entered(cfg: Settings, w: World): World {
    w.(nodes := w.nodes + [Node(map[], map[], Blanks(cfg.slots), false, Ticking({}), map[], map[])])
  }

  function Orphaned(cfg: Settings, w: World, id: Id): World {
    var p := cfg.For(id).policy;
    var run := LeaseScript(SlotOf(w.db, id), w.now, p);
    w.(db := Put(w.db, id, run.slot),
       logs := w.logs[id := w.LogOf(id) + StrayEvents(SlotOf(w.db, id), w.now, run.reply, p.quota)])
  }

  function Next(cfg: Settings, w: World, m: Move): World
    requires Possible(cfg, w, m)
  {
    match m
    case Elapse(d) => w.(now := w.now + d)
    case Enter => Entered(cfg, w)
    case Orphan(id) => Orphaned(cfg, w, id)
    case Halt(i) => Halted(w, i)
    case StartPass(i) => Turned(w, i, Passing(map[]))
    case EndPass(i) => Turned(w, i, Releasing(w.nodes[i].loop.passed, w.now))
    case _ => Written(w, IdOf(w, m), NodeOf(m), SlotNumber(m), ChangeOf(cfg, w, m))
  }
}
