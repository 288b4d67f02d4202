/** Runs of the whole store projected to one id, and what that carries over from the single-key protocol. */
module KeyRuns {
  import opened Basics
  import opened Buckets
  import opened RedisScripts
  import opened Protocol
  import opened Safety
  import opened Grants
  import opened Rate
  import OneAtATime
  import opened Admission
  import opened Answers
  import opened SoloRuns
  import opened Keys
  import opened Projection

  /** What a move is, seen from `id`: a step of the single-key protocol or nothing. */
  function SeenAs(w: World, m: Move, id: Id): Option<Step>
    requires OfNode(m) ==> (m.Act? ==> OfCall(m.step)) && NodeOf(m) < |w.nodes|
    requires m.Act? ==> m.step.t < |w.nodes[m.step.i].calls|
  {
    match m
    case Elapse(d) => Some(Tick(d))
    case Enter => Some(Join)
    case Halt(i) => Some(Crash(i))
    case Orphan(x) => if x == id then Some(Stray) else None
    case Begin(i, t, x) => if x == id then Some(Spawn(i, t)) else None
    case Act(step) => if w.nodes[step.i].calls[step.t].id == id then Some(step) else None
    case List(i, x) => if x == id then Some(SweepList(i)) else None
    case Evict(i, x) => if x == id then Some(SweepRemove(i)) else None
    case StartPass(_) => None
    case Pass(i, x, sample, seen) => if x == id then Some(Snapshot(i, sample, seen)) else None
    case EndPass(i) =>
      var loop := w.nodes[i].loop;
      if loop.Passing? && id in loop.passed then None else Some(Snapshot(i, w.now, true))
    case Return(i, x) => if x == id then Some(Release(i)) else None
    case GiveUp(i, x) => if x == id then Some(DropRelease(i)) else None
  }

  /** The answer a step gives, and to which call. */
  function Gives(cfg: Config, s: State, step: Step, id: Id): seq<Given>
    requires Enabled(cfg, s, step)
  {
    if Global(step) then []
    else
      var answer := InstEffect(cfg, s, s.insts[step.i], step).answer;
      if answer.Some? then [Given(id, step.i, if OfCall(step) then step.t else 0, answer.value)] else []
  }

  function AnswersTo(answers: seq<Given>, id: Id): seq<Given> {
    if answers == [] then []
    else
      var last := answers[|answers| - 1];
      AnswersTo(answers[..|answers| - 1], id) + if last.id == id then [last] else []
  }

  /** From `w` to `w'` the id sees the given step of the single-key protocol, or nothing. */
  ghost predicate Follows(cfg: Settings, w: World, w': World, id: Id, seen: Option<Step>) {
    match seen
    case None => w'.View(id) == w.View(id) && AnswersTo(w'.answers, id) == AnswersTo(w.answers, id)
    case Some(step) =>
      && Enabled(cfg.For(id), w.View(id), step)
      && w'.View(id) == Apply(cfg.For(id), w.View(id), step)
      && AnswersTo(w'.answers, id) == AnswersTo(w.answers, id) + Gives(cfg.For(id), w.View(id), step, id)
  }

  lemma SeeNode(nodes: seq<Node>, i: nat, node: Node, id: Id)
    requires i < |nodes|
    ensures Views(nodes[i := node], id) == Views(nodes, id)[i := ViewNode(node, id)]
  {
  }

  lemma SeeNoChange(nodes: seq<Node>, i: nat, node: Node, id: Id)
    requires i < |nodes| && ViewNode(node, id) == ViewNode(nodes[i], id)
    ensures Views(nodes[i := node], id) == Views(nodes, id)
  {
    SeeNode(nodes, i, node, id);
  }

  lemma SamePut(db: Table, x: Id, slot: Slot, id: Id)
    requires slot.Some? || SlotOf(db, x).None?
    ensures SlotOf(Put(db, x, slot), id) == if x == id then slot else SlotOf(db, id)
  {
    KeysAreInjective(x, id);
  }

  lemma OneMoreAnswer(answers: seq<Given>, g: Given, id: Id)
    ensures AnswersTo(answers + [g], id) == AnswersTo(answers, id) + if g.id == id then [g] else []
  {
    assert (answers + [g])[..|answers + [g]| - 1] == answers;
  }

  lemma SeeAnswers(w: World, x: Id, i: nat, t: nat, c: Change, id: Id)
    requires i < |w.nodes|
    ensures AnswersTo(Written(w, x, i, t, c).answers, id)
            == AnswersTo(w.answers, id) + if x == id && c.answer.Some? then [Given(x, i, t, c.answer.value)] else []
  {
    if c.answer.Some? {
      OneMoreAnswer(w.answers, Given(x, i, t, c.answer.value), id);
    } else {
      assert w.answers + [] == w.answers;
    }
  }

  /** What a move of instance `i` on `id` leaves for `id` to see. */
  lemma SeeOwn(w: World, id: Id, i: nat, t: nat, c: Change)
    requires i < |w.nodes| && (c.slot.Some? || SlotOf(w.db, id).None?)
    ensures Written(w, id, i, t, c).View(id)
            == State(w.now, c.slot, w.View(id).insts[i := ViewNode(c.node, id)], w.LogOf(id) + c.events)
  {
    SamePut(w.db, id, c.slot, id);
    SeeNode(w.nodes, i, c.node, id);
  }

  /** Another id sees nothing of it, in its instances, in Redis or in its history. */
  lemma {:induction false} SeeOther(w: World, x: Id, i: nat, t: nat, c: Change, id: Id)
    requires i < |w.nodes| && (c.slot.Some? || SlotOf(w.db, x).None?) && Unseen(w.nodes[i], c.node, x) && x != id
    ensures Written(w, x, i, t, c).View(id) == w.View(id)
  {
    SamePut(w.db, x, c.slot, id);
    SeeNoChange(w.nodes, i, c.node, id);
    assert Written(w, x, i, t, c).LogOf(id) == w.LogOf(id);
  }

  lemma InstStep(cfg: Config, s: State, step: Step, e: Effect)
    requires !Global(step) && step.i < |s.insts| && InstEnabled(cfg, s.now, s.insts[step.i], step)
    requires InstEffect(cfg, s, s.insts[step.i], step) == e
    ensures Enabled(cfg, s, step)
    ensures Apply(cfg, s, step) == State(s.now, e.slot, s.insts[step.i := e.inst], s.log + e.events)
  {
  }

  /** A move on one id that matches a step is that step for its id, and nothing for the others. */
  lemma {:induction false} WrittenFollows(cfg: Settings, w: World, x: Id, t: nat, step: Step, c: Change, id: Id)
    requires !Global(step) && step.i < |w.nodes|
    requires (if OfCall(step) then step.t else 0) == t || c.answer.None?
    requires InstEnabled(cfg.For(x), w.now, ViewNode(w.nodes[step.i], x), step)
    requires Matches(c, x, InstEffect(cfg.For(x), w.View(x), ViewNode(w.nodes[step.i], x), step))
    requires Unseen(w.nodes[step.i], c.node, x) && (c.slot.Some? || SlotOf(w.db, x).None?)
    ensures Follows(cfg, w, Written(w, x, step.i, t, c), id, if x == id then Some(step) else None)
  {
    if x == id {
      OwnFollows(cfg, w, id, t, step, c, InstEffect(cfg.For(x), w.View(x), ViewNode(w.nodes[step.i], x), step));
    } else {
      OtherFollows(cfg, w, x, step.i, t, c, id);
    }
  }

  lemma {:induction false} OwnFollows(cfg: Settings, w: World, id: Id, t: nat, step: Step, c: Change, e: Effect)
    requires !Global(step) && step.i < |w.nodes|
    requires (if OfCall(step) then step.t else 0) == t || c.answer.None?
    requires InstEnabled(cfg.For(id), w.now, ViewNode(w.nodes[step.i], id), step)
    requires e == InstEffect(cfg.For(id), w.View(id), ViewNode(w.nodes[step.i], id), step) && Matches(c, id, e)
    requires c.slot.Some? || SlotOf(w.db, id).None?
    ensures Follows(cfg, w, Written(w, id, step.i, t, c), id, Some(step))
  {
    SeeAnswers(w, id, step.i, t, c, id);
    SeeOwn(w, id, step.i, t, c);
    InstStep(cfg.For(id), w.View(id), step, e);
  }

  lemma {:induction false} OtherFollows(cfg: Settings, w: World, x: Id, i: nat, t: nat, c: Change, id: Id)
    requires i < |w.nodes| && x != id && Unseen(w.nodes[i], c.node, x) && (c.slot.Some? || SlotOf(w.db, x).None?)
    ensures Follows(cfg, w, Written(w, x, i, t, c), id, None)
  {
    SeeAnswers(w, x, i, t, c, id);
    SeeOther(w, x, i, t, c, id);
    assert AnswersTo(w.answers, id) + [] == AnswersTo(w.answers, id);
  }

  lemma {:induction false} SlotsStay(cfg: Settings, w: World, m: Move)
    requires OnId(m) && Possible(cfg, w, m)
    ensures ChangeOf(cfg, w, m).slot.Some? || SlotOf(w.db, IdOf(w, m)).None?
  {
  }

  lemma {:induction false} ActFollows(cfg: Settings, w: World, m: Move, id: Id)
    requires m.Act? && Possible(cfg, w, m)
    ensures Follows(cfg, w, Next(cfg, w, m), id, SeenAs(w, m, id))
  {
    var x := IdOf(w, m);
    SlotsStay(cfg, w, m);
    ActMatches(cfg, w, w.View(x), w.nodes[m.step.i], m.step);
    WrittenFollows(cfg, w, x, m.step.t, m.step, ActOf(cfg, w, w.nodes[m.step.i], m.step), id);
  }

  /** The step that a background move is for its id. */
  function StepOf(m: Move): Step
    requires OnId(m) && !m.Act?
  {
    match m
    case Begin(i, t, _) => Spawn(i, t)
    case List(i, _) => SweepList(i)
    case Evict(i, _) => SweepRemove(i)
    case Pass(i, _, sample, seen) => Snapshot(i, sample, seen)
    case Return(i, _) => Release(i)
    case GiveUp(i, _) => DropRelease(i)
  }

  lemma {:induction false} StepOfEnabled(cfg: Settings, w: World, m: Move)
    requires OnId(m) && !m.Act? && Possible(cfg, w, m)
    ensures InstEnabled(cfg.For(m.id), w.now, ViewNode(w.nodes[m.i], m.id), StepOf(m))
  {
  }

  lemma {:induction false} StepOfMatches(cfg: Settings, w: World, s: State, m: Move)
    requires OnId(m) && !m.Act? && Possible(cfg, w, m) && Sees(s, w, m.id)
    requires InstEnabled(cfg.For(m.id), s.now, ViewNode(w.nodes[m.i], m.id), StepOf(m))
    ensures Matches(ChangeOf(cfg, w, m), m.id,
                    InstEffect(cfg.For(m.id), s, ViewNode(w.nodes[m.i], m.id), StepOf(m)))
    ensures Unseen(w.nodes[m.i], ChangeOf(cfg, w, m).node, m.id)
  {
    if m.Begin? {
      BeginMatches(w, s, w.nodes[m.i], m.t, m.id);
    } else if m.List? || m.Evict? {
      TickMatches(cfg, w, s, m);
    } else if m.Pass? {
      PassMatches(w, s, w.nodes[m.i], m.id, m.sample, m.seen);
    } else {
      ReturnMatches(w, s, w.nodes[m.i], m.id);
    }
  }

  lemma {:induction false} TickMatches(cfg: Settings, w: World, s: State, m: Move)
    requires (m.List? || m.Evict?) && Possible(cfg, w, m) && Sees(s, w, m.id)
    requires InstEnabled(cfg.For(m.id), s.now, ViewNode(w.nodes[m.i], m.id), StepOf(m))
    ensures Matches(ChangeOf(cfg, w, m), m.id,
                    InstEffect(cfg.For(m.id), s, ViewNode(w.nodes[m.i], m.id), StepOf(m)))
    ensures Unseen(w.nodes[m.i], ChangeOf(cfg, w, m).node, m.id)
  {
    if m.List? {
      ListMatches(w, s, w.nodes[m.i], m.id);
    } else {
      EvictMatches(w, s, w.nodes[m.i], m.id);
    }
  }

  lemma NothingSaid(cfg: Settings, w: World, m: Move)
    requires OnId(m) && !m.Act? && Possible(cfg, w, m)
    ensures ChangeOf(cfg, w, m).answer.None?
  {
  }

  lemma {:induction false} BackgroundFollows(cfg: Settings, w: World, m: Move, id: Id)
    requires OnId(m) && !m.Act? && Possible(cfg, w, m)
    ensures Follows(cfg, w, Next(cfg, w, m), id, if m.id == id then Some(StepOf(m)) else None)
  {
    SlotsStay(cfg, w, m);
    NothingSaid(cfg, w, m);
    StepOfEnabled(cfg, w, m);
    StepOfMatches(cfg, w, w.View(m.id), m);
    WrittenFollows(cfg, w, m.id, SlotNumber(m), StepOf(m), ChangeOf(cfg, w, m), id);
  }

  // Moves that all ids see

  lemma NoAnswer(w: World, w': World, id: Id)
    requires w'.answers == w.answers
    ensures AnswersTo(w'.answers, id) == AnswersTo(w.answers, id) + []
  {
  }

  lemma {:induction false} SeeHalt(node: Node, id: Id, s: State)
    ensures ViewNode(HaltNode(node), id) == CrashEffect(s, ViewNode(node, id)).inst
    ensures HaltEvents(node, id) == CrashEffect(s, ViewNode(node, id)).events
  {
    DroppingIsDiscarded(node, id);
    assert ViewCalls(IdleAll(node.calls), id) == Idles(|node.calls|);
  }

  lemma {:induction false} NothingUndelivered(calls: seq<Call>)
    requires forall t :: 0 <= t < |calls| ==> calls[t].Idle?
    ensures Undelivered(calls) == []
  {
    if calls != [] {
      NothingUndelivered(calls[..|calls| - 1]);
    }
  }

  lemma NothingToHalt(node: Node, id: Id)
    requires id !in node.buckets && id !in Tags(node.calls)
    ensures HaltEvents(node, id) == []
  {
    assert forall t :: 0 <= t < |node.calls| ==> node.calls[t].id in Tags(node.calls);
    NothingUndelivered(ViewCalls(node.calls, id));
  }

  lemma SeeHaltLogs(w: World, i: nat, id: Id)
    requires i < |w.nodes|
    ensures Halted(w, i).LogOf(id) == w.LogOf(id) + HaltEvents(w.nodes[i], id)
  {
    var node := w.nodes[i];
    if id !in w.logs && id !in node.buckets && id !in Tags(node.calls) {
      NothingToHalt(node, id);
    }
  }

  lemma SeeHalted(w: World, i: nat, id: Id, e: Effect)
    requires i < |w.nodes| && e == CrashEffect(w.View(id), ViewNode(w.nodes[i], id))
    ensures Halted(w, i).View(id)
            == State(w.now, SlotOf(w.db, id), w.View(id).insts[i := e.inst], w.LogOf(id) + e.events)
  {
    SeeHalt(w.nodes[i], id, w.View(id));
    SeeHaltLogs(w, i, id);
    SeeNode(w.nodes, i, HaltNode(w.nodes[i]), id);
  }

  lemma CrashStep(cfg: Config, s: State, i: nat, e: Effect)
    requires i < |s.insts| && s.insts[i].phase != Crashed && e == CrashEffect(s, s.insts[i])
    ensures Enabled(cfg, s, Crash(i)) && e.answer.None?
    ensures Apply(cfg, s, Crash(i)) == State(s.now, e.slot, s.insts[i := e.inst], s.log + e.events)
    ensures e.slot == s.slot
  {
  }

  lemma NothingGiven(cfg: Config, s: State, i: nat, id: Id)
    requires i < |s.insts| && s.insts[i].phase != Crashed
    ensures Enabled(cfg, s, Crash(i)) && Gives(cfg, s, Crash(i), id) == []
  {
  }

  lemma {:induction false} HaltFollows(cfg: Settings, w: World, i: nat, id: Id)
    requires i < |w.nodes| && !w.nodes[i].crashed
    ensures Follows(cfg, w, Halted(w, i), id, Some(Crash(i)))
  {
    var s := w.View(id);
    var e := CrashEffect(s, s.insts[i]);
    SeeHalted(w, i, id, e);
    CrashStep(cfg.For(id), s, i, e);
    NothingGiven(cfg.For(id), s, i, id);
    NoAnswer(w, Halted(w, i), id);
  }

  lemma {:induction false} EnterFollows(cfg: Settings, w: World, id: Id)
    ensures Follows(cfg, w, Entered(cfg, w), id, Some(Join))
  {
    var entered := Node(map[], map[], Blanks(cfg.slots), false, Ticking({}), map[], map[]);
    SeeEntered(cfg, entered, id);
    assert Views(w.nodes + [entered], id) == Views(w.nodes, id) + [ViewNode(entered, id)];
    NoAnswer(w, Entered(cfg, w), id);
  }

  lemma SeeEntered(cfg: Settings, entered: Node, id: Id)
    requires entered == Node(map[], map[], Blanks(cfg.slots), false, Ticking({}), map[], map[])
    ensures ViewNode(entered, id) == NewInst(cfg.For(id))
  {
    assert ViewCalls(entered.calls, id) == Idles(cfg.slots);
  }

  lemma {:induction false} OrphanFollows(cfg: Settings, w: World, x: Id, id: Id)
    ensures Follows(cfg, w, Orphaned(cfg, w, x), id, if x == id then Some(Stray) else None)
  {
    var run := LeaseScript(SlotOf(w.db, x), w.now, cfg.For(x).policy);
    SamePut(w.db, x, run.slot, id);
    NoAnswer(w, Orphaned(cfg, w, x), id);
  }

  /** The background loop turns from ticking to passing, and from passing to releasing. */
  lemma SeeTurn(node: Node, loop: Loop, id: Id, now: int)
    requires !node.crashed
    requires (node.loop == Ticking({}) && loop == Passing(map[]))
             || (node.loop.Passing? && loop == Releasing(node.loop.passed, now))
    ensures ViewNode(node.(loop := loop), id)
            == if loop.Releasing? && id !in loop.passed then ViewNode(node, id).(phase := Stopping, stopped := now)
               else ViewNode(node, id)
  {
    SeeLoop(node, loop, id);
  }

  lemma {:induction false} UnseenTurn(cfg: Settings, w: World, i: nat, loop: Loop, id: Id)
    requires i < |w.nodes| && ViewNode(w.nodes[i].(loop := loop), id) == ViewNode(w.nodes[i], id)
    ensures Follows(cfg, w, Turned(w, i, loop), id, None)
  {
    SeeNoChange(w.nodes, i, w.nodes[i].(loop := loop), id);
  }

  lemma LateSnapshot(cfg: Config, s: State, i: nat)
    requires cfg.cleanup && i < |s.insts| && s.insts[i].phase == Serving && !s.insts[i].sweeping
    requires s.insts[i].bucket.None?
    ensures Enabled(cfg, s, Snapshot(i, s.now, true))
    ensures Apply(cfg, s, Snapshot(i, s.now, true))
            == s.(insts := s.insts[i := s.insts[i].(phase := Stopping, stopped := s.now)])
    ensures InstEffect(cfg, s, s.insts[i], Snapshot(i, s.now, true)).answer.None?
  {
    assert s.log + [] == s.log;
  }

  /** An id that was never passed had no bucket when the pass ended. */
  lemma {:induction false} LastPass(cfg: Settings, w: World, i: nat, id: Id)
    requires cfg.cleanup && i < |w.nodes| && !w.nodes[i].crashed && w.nodes[i].loop.Passing?
    requires id !in w.nodes[i].loop.passed && id !in w.nodes[i].buckets
    ensures Follows(cfg, w, Turned(w, i, Releasing(w.nodes[i].loop.passed, w.now)), id,
                    Some(Snapshot(i, w.now, true)))
  {
    var node := w.nodes[i];
    var loop := Releasing(node.loop.passed, w.now);
    SeeTurn(node, loop, id, w.now);
    SeeNode(w.nodes, i, node.(loop := loop), id);
    SeeSame(node, id);
    LateSnapshot(cfg.For(id), w.View(id), i);
    NoAnswer(w, Turned(w, i, loop), id);
  }

  lemma {:induction false} EndFollows(cfg: Settings, w: World, m: Move, id: Id)
    requires m.EndPass? && Possible(cfg, w, m)
    ensures Follows(cfg, w, Next(cfg, w, m), id, SeenAs(w, m, id))
  {
    var node := w.nodes[m.i];
    if id in node.loop.passed {
      SeeTurn(node, Releasing(node.loop.passed, w.now), id, w.now);
      UnseenTurn(cfg, w, m.i, Releasing(node.loop.passed, w.now), id);
    } else {
      LastPass(cfg, w, m.i, id);
    }
  }

  lemma {:induction false} ElapseFollows(cfg: Settings, w: World, d: nat, id: Id)
    ensures Follows(cfg, w, w.(now := w.now + d), id, Some(Tick(d)))
  {
    NoAnswer(w, w.(now := w.now + d), id);
  }

  lemma {:induction false} SharedFollows(cfg: Settings, w: World, m: Move, id: Id)
    requires Possible(cfg, w, m) && !OnId(m)
    ensures Follows(cfg, w, Next(cfg, w, m), id, SeenAs(w, m, id))
  {
    if m.Halt? {
      HaltFollows(cfg, w, m.i, id);
    } else if m.Enter? {
      EnterFollows(cfg, w, id);
    } else if m.Orphan? {
      OrphanFollows(cfg, w, m.id, id);
    } else if m.Elapse? {
      ElapseFollows(cfg, w, m.d, id);
    } else if m.StartPass? {
      SeeTurn(w.nodes[m.i], Passing(map[]), id, w.now);
      UnseenTurn(cfg, w, m.i, Passing(map[]), id);
    } else {
      EndFollows(cfg, w, m, id);
    }
  }

  lemma {:induction false} MoveFollows(cfg: Settings, w: World, m: Move, id: Id)
    requires Possible(cfg, w, m)
    ensures Follows(cfg, w, Next(cfg, w, m), id, SeenAs(w, m, id))
  {
    if m.Act? {
      ActFollows(cfg, w, m, id);
    } else if OnId(m) {
      BackgroundFollows(cfg, w, m, id);
    } else {
      SharedFollows(cfg, w, m, id);
    }
  }

  // Runs

  predicate Empty(w: World) {
    w.now >= 0 && w.db == map[] && w.nodes == [] && w.logs == map[] && w.answers == []
  }

  predicate Moves(cfg: Settings, w: World, moves: seq<Move>)
    decreases |moves|, 0
  {
    moves == [] ||
    (Moves(cfg, w, moves[..|moves| - 1]) && Possible(cfg, Later(cfg, w, moves[..|moves| - 1]), moves[|moves| - 1]))
  }

  function Later(cfg: Settings, w: World, moves: seq<Move>): World
    requires Moves(cfg, w, moves)
    decreases |moves|, 1
  {
    if moves == [] then w else Next(cfg, Later(cfg, w, moves[..|moves| - 1]), moves[|moves| - 1])
  }

  /** The run as seen from one id: what does not concern it left out. */
  function Filtered(cfg: Settings, w: World, moves: seq<Move>, id: Id): seq<Step>
    requires Moves(cfg, w, moves)
    decreases |moves|
  {
    if moves == [] then []
    else
      var front := moves[..|moves| - 1];
      var seen := SeenAs(Later(cfg, w, front), moves[|moves| - 1], id);
      Filtered(cfg, w, front, id) + if seen.Some? then [seen.value] else []
  }

  /** All answers given in a run of the single-key protocol. */
  function AnswersIn(cfg: Config, s: State, steps: seq<Step>, id: Id): seq<Given>
    requires Runs(cfg, s, steps)
    decreases |steps|
  {
    if steps == [] then []
    else
      var front := steps[..|steps| - 1];
      AnswersIn(cfg, s, front, id) + Gives(cfg, After(cfg, s, front), steps[|steps| - 1], id)
  }

  lemma OneMoreStep(cfg: Config, s: State, steps: seq<Step>, step: Step, id: Id)
    requires Runs(cfg, s, steps) && Enabled(cfg, After(cfg, s, steps), step)
    ensures Runs(cfg, s, steps + [step])
    ensures After(cfg, s, steps + [step]) == Apply(cfg, After(cfg, s, steps), step)
    ensures AnswersIn(cfg, s, steps + [step], id)
            == AnswersIn(cfg, s, steps, id) + Gives(cfg, After(cfg, s, steps), step, id)
  {
    RunsExtend(cfg, s, steps, step);
    assert (steps + [step])[..|steps + [step]| - 1] == steps;
  }

  /** Key independence. Any run of the whole store, with what does not concern `id` left out, is a run of the single-key
      protocol with that id's policy; it ends in what `id` sees at the end of the whole run, and gives the same answers
      to the same calls. */
  lemma {:induction false} RunsProject(cfg: Settings, start: World, moves: seq<Move>, id: Id)
    requires Empty(start) && Moves(cfg, start, moves)
    ensures var steps := Filtered(cfg, start, moves, id);
            var end := Later(cfg, start, moves);
            && Init(start.View(id)) && Runs(cfg.For(id), start.View(id), steps)
            && After(cfg.For(id), start.View(id), steps) == end.View(id)
            && AnswersIn(cfg.For(id), start.View(id), steps, id) == AnswersTo(end.answers, id)
    decreases |moves|
  {
    if moves != [] {
      var front, m := moves[..|moves| - 1], moves[|moves| - 1];
      var w := Later(cfg, start, front);
      RunsProject(cfg, start, front, id);
      MoveFollows(cfg, w, m, id);
      var seen := SeenAs(w, m, id);
      if seen.Some? {
        OneMoreStep(cfg.For(id), start.View(id), Filtered(cfg, start, front, id), seen.value, id);
      } else {
        assert Filtered(cfg, start, moves, id) == Filtered(cfg, start, front, id);
      }
    }
  }

  /** At no time in the run does an instance have more than `k` calls for `id` under way, whatever it does for others.
      */
  ghost predicate LimitedTo(cfg: Settings, start: World, moves: seq<Move>, id: Id, k: nat)
    requires Moves(cfg, start, moves)
    decreases |moves|
  {
    var w := Later(cfg, start, moves);
    && (forall i :: 0 <= i < |w.nodes| ==> Busy(ViewCalls(w.nodes[i].calls, id)) <= k)
    && (moves != [] ==> LimitedTo(cfg, start, moves[..|moves| - 1], id, k))
  }

  lemma LimitSeen(w: World, id: Id, k: nat)
    requires forall i :: 0 <= i < |w.nodes| ==> Busy(ViewCalls(w.nodes[i].calls, id)) <= k
    ensures AtMost(w.View(id), k)
  {
    forall i | 0 <= i < |w.nodes| ensures Busy(w.View(id).insts[i].calls) <= k {
      assert w.View(id).insts[i] == ViewNode(w.nodes[i], id);
    }
  }

  lemma LimitedNext(cfg: Config, start: State, steps: seq<Step>, next: Option<Step>, all: seq<Step>, k: nat)
    requires Runs(cfg, start, steps) && Limited(cfg, start, steps, k)
    requires all == steps + if next.Some? then [next.value] else []
    requires Runs(cfg, start, all) && AtMost(After(cfg, start, all), k)
    ensures Limited(cfg, start, all, k)
  {
    if next.Some? {
      assert all[..|all| - 1] == steps;
    } else {
      assert all == steps;
    }
  }

  lemma {:induction false} EndLimited(cfg: Settings, start: World, moves: seq<Move>, id: Id, k: nat)
    requires Empty(start) && Moves(cfg, start, moves) && LimitedTo(cfg, start, moves, id, k)
    ensures Runs(cfg.For(id), start.View(id), Filtered(cfg, start, moves, id))
    ensures AtMost(After(cfg.For(id), start.View(id), Filtered(cfg, start, moves, id)), k)
  {
    RunsProject(cfg, start, moves, id);
    LimitSeen(Later(cfg, start, moves), id, k);
  }

  lemma {:induction false} LimitProjects(cfg: Settings, start: World, moves: seq<Move>, id: Id, k: nat)
    requires Empty(start) && Moves(cfg, start, moves) && LimitedTo(cfg, start, moves, id, k)
    ensures Runs(cfg.For(id), start.View(id), Filtered(cfg, start, moves, id))
    ensures Limited(cfg.For(id), start.View(id), Filtered(cfg, start, moves, id), k)
    decreases |moves|
  {
    EndLimited(cfg, start, moves, id, k);
    if moves != [] {
      var front := moves[..|moves| - 1];
      LimitProjects(cfg, start, front, id, k);
      LimitedNext(cfg.For(id), start.View(id), Filtered(cfg, start, front, id),
                  SeenAs(Later(cfg, start, front), moves[|moves| - 1], id), Filtered(cfg, start, moves, id), k);
    }
  }

  lemma {:induction false} ViewReachable(cfg: Settings, start: World, moves: seq<Move>, id: Id, k: nat)
    requires Empty(start) && Moves(cfg, start, moves) && LimitedTo(cfg, start, moves, id, k)
    ensures ReachableWith(cfg.For(id), Later(cfg, start, moves).View(id), k)
  {
    RunsProject(cfg, start, moves, id);
    LimitProjects(cfg, start, moves, id, k);
  }

  /** Every run keeps to the size of the pool, for every id. */
  lemma {:induction false} PoolLimits(cfg: Settings, start: World, moves: seq<Move>, id: Id)
    requires cfg.Valid() && Empty(start) && Moves(cfg, start, moves)
    ensures LimitedTo(cfg, start, moves, id, cfg.slots)
    decreases |moves|
  {
    var w := Later(cfg, start, moves);
    RunsProject(cfg, start, moves, id);
    InvReachable(cfg.For(id), w.View(id));
    forall i | 0 <= i < |w.nodes| ensures Busy(ViewCalls(w.nodes[i].calls, id)) <= cfg.slots {
      assert Ledger.Placed(cfg.For(id), w.now, w.View(id).slot, w.View(id).insts[i]);
      BusyAtMost(ViewCalls(w.nodes[i].calls, id));
    }
    if moves != [] {
      PoolLimits(cfg, start, moves[..|moves| - 1], id);
    }
  }

  /** What the single-key theorems say of a window when no instance has more than `k` calls for the id at once: tokens
      are conserved, takes keep to the quota and what was credited, and admissions to `k` more for every lease; with one
      call at a time they keep to the quota and what was credited. */
  ghost predicate WindowIsSafe(cfg: Config, s: State, window: int, k: nat)
    requires cfg.policy.Valid()
  {
    var p := cfg.policy;
    && (window in Timeline.Windows(s.log) ==>
          p.quota + Total(s.log, ACredit, window) == Taken(s.log, window) + Unspent(s, window))
    && Taken(s.log, window) <= p.quota + Total(s.log, ACredit, window)
    && (Total(s.log, AOver, window) == 0 ==> Taken(s.log, window) <= p.quota)
    && Admissions(s.log, window)
       <= p.quota + Total(s.log, ACredit, window)
          + k * (FullBatches(s.log, p, window) + Total(s.log, AReturn, window))
    && (k == 1 ==> Admissions(s.log, window) <= p.quota + Total(s.log, ACredit, window))
  }

  lemma ReachableIsSafe(cfg: Config, s: State, window: int, k: nat)
    requires cfg.policy.Valid() && ReachableWith(cfg, s, k)
    ensures WindowIsSafe(cfg, s, window, k)
  {
    NoOverSpend(cfg, s, window);
    AdmittedPerWindow(cfg, s, window, k);
    if window in Timeline.Windows(s.log) {
      TokensAreConserved(cfg, s, window);
    }
    if k == 1 {
      OneAtATime.AdmittedWithinQuota(cfg, s, window);
    }
  }

  /** So they hold of every key of the store, whatever happens to the others, with `k` the number of calls for that id
      alone. */
  lemma {:induction false} EveryKeyIsSafe(cfg: Settings, start: World, moves: seq<Move>, id: Id, window: int, k: nat)
    requires cfg.Valid() && Empty(start) && Moves(cfg, start, moves) && LimitedTo(cfg, start, moves, id, k)
    ensures WindowIsSafe(cfg.For(id), Later(cfg, start, moves).View(id), window, k)
    ensures Total(Later(cfg, start, moves).LogOf(id), AFair, window)
            <= if id.Public? then cfg.public.quota else cfg.protected.quota
  {
    ViewReachable(cfg, start, moves, id, k);
    ReachableIsSafe(cfg.For(id), Later(cfg, start, moves).View(id), window, k);
    NoOverSpend(cfg.For(id), Later(cfg, start, moves).View(id), window);
  }

  /** Each kind of id has its own policy: a lease script on a dead key opens a window of that policy. */
  lemma {:induction false} OpensOwnPolicy(cfg: Settings, w: World, m: Move, id: Id)
    requires Possible(cfg, w, m)
    requires m == Orphan(id)
             || (m.Act? && m.step.Execute? && w.nodes[m.step.i].calls[m.step.t].id == id)
    requires var slot := SlotOf(w.db, id);
      slot.None? || (slot.value.expiry.Some? && slot.value.expiry.value < w.now)
    ensures var slot := SlotOf(Next(cfg, w, m).db, id);
            && (id.Public? && cfg.public.resetIn > 0 ==>
                  slot == Some(Entry(cfg.public.quota - cfg.public.leaseSize,
                                     Some(w.now + 1000 * cfg.public.resetIn))))
            && (id.Protected? && cfg.protected.resetIn > 0 ==>
                  slot == Some(Entry(cfg.protected.quota - cfg.protected.leaseSize,
                                     Some(w.now + 1000 * cfg.protected.resetIn))))
  {
  }

  /** And so do the rate bounds. */
  lemma {:induction false} EveryKeyIsPaced(cfg: Settings, start: World, moves: seq<Move>, id: Id, from: int,
                                           length: nat, k: nat)
    requires cfg.Valid() && Empty(start) && Moves(cfg, start, moves) && cfg.For(id).policy.resetIn > 0
    requires LimitedTo(cfg, start, moves, id, k)
    ensures var s, c := Later(cfg, start, moves).View(id), cfg.For(id);
            && TakenBetween(s.log, from, from + length)
               <= WindowsPer(c, length) * c.policy.quota + LateBetween(s.log, from, from + length)
            && AdmittedBetween(s.log, from, from + length)
               <= WindowsPer(c, length) * PerWindow(c, k)
                  + k * CreditsTo(s.log, WindowsOf(c, s, from, from + length))
                  + LateBetween(s.log, from, from + length)
  {
    ViewReachable(cfg, start, moves, id, k);
    RateBound(cfg.For(id), Later(cfg, start, moves).View(id), from, length);
    RequestRateBound(cfg.For(id), Later(cfg, start, moves).View(id), from, length, k);
  }

  function OksTo(answers: seq<Given>): nat {
    if answers == [] then 0
    else OksTo(answers[..|answers| - 1]) + if answers[|answers| - 1].answer.Admitted? then 1 else 0
  }

  lemma {:induction false} OksToConcat(answers: seq<Given>, more: seq<Given>)
    ensures OksTo(answers + more) == OksTo(answers) + OksTo(more)
    decreases |more|
  {
    if more == [] {
      assert answers + more == answers;
    } else {
      var n := |more| - 1;
      OksToConcat(answers, more[..n]);
      assert (answers + more)[..|answers + more| - 1] == answers + more[..n];
    }
  }

  /** A step gives as many Ok answers as it tells. */
  lemma {:induction false} GivesWhatItTells(cfg: Config, s: State, step: Step, id: Id)
    requires Enabled(cfg, s, step)
    ensures OksTo(Gives(cfg, s, step, id)) == Oks(Tells(cfg, s, step))
  {
    if !Global(step) {
      StepAnswers(cfg, s, step);
    }
  }

  lemma {:induction false} GivenAlongRun(cfg: Config, s: State, steps: seq<Step>, id: Id)
    requires Runs(cfg, s, steps)
    ensures OksTo(AnswersIn(cfg, s, steps, id)) == Oks(TellsAll(cfg, s, steps))
    decreases |steps|
  {
    if steps != [] {
      var front, last := steps[..|steps| - 1], steps[|steps| - 1];
      GivenAlongRun(cfg, s, front, id);
      GivesWhatItTells(cfg, After(cfg, s, front), last, id);
      OksToConcat(AnswersIn(cfg, s, front, id), Gives(cfg, After(cfg, s, front), last, id));
      OksConcat(TellsAll(cfg, s, front), Tells(cfg, After(cfg, s, front), last));
    }
  }

  /** What the bounds above count is what clients see: in every run of the whole store the number of Ok answers given
      to calls for an id is the number of admissions in the history of its key. */
  lemma {:induction false} OksAreInTheHistory(cfg: Settings, start: World, moves: seq<Move>, id: Id)
    requires Empty(start) && Moves(cfg, start, moves)
    ensures var end := Later(cfg, start, moves);
            OksTo(AnswersTo(end.answers, id)) == RecordedOks(end.LogOf(id))
  {
    var steps := Filtered(cfg, start, moves, id);
    RunsProject(cfg, start, moves, id);
    GivenAlongRun(cfg.For(id), start.View(id), steps, id);
    OkAnswersAreRecorded(cfg.For(id), start.View(id), steps);
  }
}
