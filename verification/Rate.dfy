/** Rate bounds in real time, over every run: on tokens taken, and on requests admitted. */
module Rate {
  import opened Basics
  import opened Protocol
  import opened Timeline
  import opened Safety
  import opened Admission
  import opened Grants

  /** Tokens taken at moments in [from, to), whatever their window. */
  function TakenBetween(log: seq<Event>, from: int, to: int): nat {
    if log == [] then 0
    else
      var e := log[|log| - 1];
      TakenBetween(log[..|log| - 1], from, to) + if e.Took? && from <= e.at < to then 1 else 0
  }

  /** Those of them that came from a bucket after its shutdown snapshot. */
  function LateBetween(log: seq<Event>, from: int, to: int): nat {
    if log == [] then 0
    else
      var e := log[|log| - 1];
      LateBetween(log[..|log| - 1], from, to) + if e.Took? && !e.fair && from <= e.at < to then 1 else 0
  }

  /** Requests admitted in [from, to): with a token, or without one if they also arrived in that time. */
  function AdmittedBetween(log: seq<Event>, from: int, to: int): nat {
    if log == [] then 0
    else
      var e := log[|log| - 1];
      AdmittedBetween(log[..|log| - 1], from, to)
      + if (e.Took? || (e.Unbacked? && from <= e.began)) && from <= e.at < to then 1 else 0
  }

  /** What is counted by window: takes in time, or all answers that do not follow a snapshot. */
  datatype Kind = Takes | Answers

  predicate Counts(e: Event, kind: Kind, from: int, to: int) {
    || (e.Took? && e.fair && from <= e.at < to)
    || (kind.Answers? && e.Unbacked? && from <= e.began && from <= e.at < to)
  }

  function Counted(log: seq<Event>, kind: Kind, from: int, to: int): nat {
    if log == [] then 0
    else
      Counted(log[..|log| - 1], kind, from, to) + if Counts(log[|log| - 1], kind, from, to) then 1 else 0
  }

  lemma {:induction false} CountedIsTakes(log: seq<Event>, from: int, to: int)
    ensures TakenBetween(log, from, to) == Counted(log, Takes, from, to) + LateBetween(log, from, to)
    ensures AdmittedBetween(log, from, to) == Counted(log, Answers, from, to) + LateBetween(log, from, to)
  {
    if log != [] {
      CountedIsTakes(log[..|log| - 1], from, to);
    }
  }

  /** The windows with from <= end < to. */
  function Touched(ws: seq<int>, from: int, to: int): seq<int> {
    if ws == [] then []
    else
      var w := ws[|ws| - 1];
      Touched(ws[..|ws| - 1], from, to) + if from <= w < to then [w] else []
  }

  lemma {:induction false} TouchedMembers(ws: seq<int>, from: int, to: int, w: int)
    ensures w in Touched(ws, from, to) <==> w in ws && from <= w < to
  {
    if ws != [] {
      var n := |ws| - 1;
      assert ws == ws[..n] + [ws[n]];
      TouchedMembers(ws[..n], from, to, w);
    }
  }

  lemma {:induction false} TouchedSpaced(ws: seq<int>, from: int, to: int, length: nat)
    requires Spaced(ws, length)
    ensures Spaced(Touched(ws, from, to), length)
  {
    if ws != [] {
      var n := |ws| - 1;
      var front := Touched(ws[..n], from, to);
      TouchedSpaced(ws[..n], from, to, length);
      forall k | 0 <= k < |front| ensures front[k] + length < ws[n] {
        TouchedMembers(ws[..n], from, to, front[k]);
        var j :| 0 <= j < n && ws[..n][j] == front[k];
      }
    }
  }

  lemma {:induction false} SpacedSpread(ws: seq<int>, length: nat)
    requires Spaced(ws, length) && ws != []
    ensures (|ws| - 1) * length <= ws[|ws| - 1] - ws[0]
  {
    var n := |ws| - 1;
    if n > 0 {
      SpacedSpread(ws[..n], length);
      assert n * length == (n - 1) * length + length;
    }
  }

  /** Counted events that belong to one of the given windows. */
  function CountedIn(log: seq<Event>, kind: Kind, from: int, to: int, ws: seq<int>): nat {
    if log == [] then 0
    else
      var e := log[|log| - 1];
      CountedIn(log[..|log| - 1], kind, from, to, ws) + if Counts(e, kind, from, to) && e.window in ws then 1 else 0
  }

  /** What a window contributes over the whole history. */
  function Share(log: seq<Event>, kind: Kind, w: int): nat {
    Total(log, AFair, w) + if kind.Answers? then Total(log, AFree, w) else 0
  }

  lemma {:induction false} CountedInSplit(log: seq<Event>, kind: Kind, from: int, to: int, ws: seq<int>, w: int)
    ensures CountedIn(log, kind, from, to, ws + [w]) <= CountedIn(log, kind, from, to, ws) + Share(log, kind, w)
  {
    if log != [] {
      CountedInSplit(log[..|log| - 1], kind, from, to, ws, w);
    }
  }

  lemma {:induction false} CountedInNone(log: seq<Event>, kind: Kind, from: int, to: int)
    ensures CountedIn(log, kind, from, to, []) == 0
  {
    if log != [] {
      CountedInNone(log[..|log| - 1], kind, from, to);
    }
  }

  /** Credits to the given windows. */
  function CreditsTo(log: seq<Event>, ws: seq<int>): nat {
    if ws == [] then 0 else CreditsTo(log, ws[..|ws| - 1]) + Total(log, AReturn, ws[|ws| - 1])
  }

  /** `each` for every window, and `extra` for every credit, bound the count. */
  lemma {:induction false} CountedInBound(log: seq<Event>, kind: Kind, from: int, to: int, ws: seq<int>,
                                          each: nat, extra: nat)
    requires forall w :: Share(log, kind, w) <= each + extra * Total(log, AReturn, w)
    ensures CountedIn(log, kind, from, to, ws) <= |ws| * each + extra * CreditsTo(log, ws)
  {
    if ws == [] {
      CountedInNone(log, kind, from, to);
    } else {
      var n := |ws| - 1;
      CountedInBound(log, kind, from, to, ws[..n], each, extra);
      assert ws == ws[..n] + [ws[n]];
      CountedInSplit(log, kind, from, to, ws[..n], ws[n]);
      OneMore(n, each, extra, CreditsTo(log, ws[..n]), Total(log, AReturn, ws[n]));
    }
  }

  lemma OneMore(n: nat, each: nat, extra: nat, credits: nat, more: nat)
    ensures n * each + extra * credits + each + extra * more == (n + 1) * each + extra * (credits + more)
  {
    Distributes(extra, credits, more);
    Distributes(each, n, 1);
  }

  lemma {:induction false} CountedInAll(log: seq<Event>, kind: Kind, from: int, to: int, ws: seq<int>)
    requires forall k :: 0 <= k < |log| ==> Counts(log[k], kind, from, to) ==> log[k].window in ws
    ensures Counted(log, kind, from, to) == CountedIn(log, kind, from, to, ws)
  {
    if log != [] {
      CountedInAll(log[..|log| - 1], kind, from, to, ws);
    }
  }

  lemma {:induction false} CountedShows(log: seq<Event>, k: nat, kind: Kind, from: int, to: int)
    requires k < |log| && Counts(log[k], kind, from, to)
    ensures Admissions(log, log[k].window) > 0
  {
    if k < |log| - 1 {
      CountedShows(log[..|log| - 1], k, kind, from, to);
    }
  }

  function Delays(cfg: Config): nat {
    cfg.gap + cfg.lag
  }

  /** The windows that events in [from, to) can belong to: those that end soon enough after `from` and began
      before `to`. */
  function WindowsOf(cfg: Config, s: State, from: int, to: int): seq<int> {
    Touched(Windows(s.log), from - Delays(cfg), to + cfg.policy.WindowMs())
  }

  lemma {:induction false} EventsAreTouched(cfg: Config, s: State, kind: Kind, from: int, to: int, k: nat)
    requires cfg.policy.Valid() && Reachable(cfg, s)
    requires k < |s.log| && Counts(s.log[k], kind, from, to)
    ensures s.log[k].window in WindowsOf(cfg, s, from, to)
  {
    InvReachable(cfg, s);
    assert InTime(cfg, s.now, s.log[k]);
    CountedShows(s.log, k, kind, from, to);
    if s.log[k].window !in Windows(s.log) {
      NoWindowNoAdmissions(cfg, s, s.log[k].window);
    }
    TouchedMembers(Windows(s.log), from - Delays(cfg), to + cfg.policy.WindowMs(), s.log[k].window);
  }

  lemma {:induction false} TouchedSpread(ws: seq<int>, from: int, to: int)
    requires Touched(ws, from, to) != []
    ensures var touched := Touched(ws, from, to); touched[|touched| - 1] - touched[0] < to - from
  {
    var touched := Touched(ws, from, to);
    TouchedMembers(ws, from, to, touched[0]);
    TouchedMembers(ws, from, to, touched[|touched| - 1]);
  }

  lemma {:induction false} TouchedAreFew(ws: seq<int>, from: int, length: nat, delays: nat, window: nat)
    requires Spaced(ws, window) && window > 0
    ensures |Touched(ws, from - delays, from + length + window)| <= CeilDiv(length + delays, window) + 1
  {
    var first, to := from - delays, from + length + window;
    if Touched(ws, first, to) == [] {
      assert CeilDiv(length + delays, window) >= 0;
    } else {
      TouchedSpaced(ws, first, to, window);
      TouchedSpread(ws, first, to);
      SpacedAreFew(Touched(ws, first, to), length + delays, window);
    }
  }

  lemma SpacedAreFew(ws: seq<int>, spread: nat, window: nat)
    requires Spaced(ws, window) && window > 0 && ws != [] && ws[|ws| - 1] - ws[0] < spread + window
    ensures |ws| <= CeilDiv(spread, window) + 1
  {
    SpacedSpread(ws, window);
    CountByCeil(|ws|, spread, window);
  }

  /** How many windows an interval of the given length can touch. */
  function WindowsPer(cfg: Config, length: nat): nat
    requires cfg.policy.resetIn > 0
  {
    CeilDiv(length + Delays(cfg), cfg.policy.WindowMs()) + 1
  }

  lemma {:induction false} CountedBound(cfg: Config, s: State, kind: Kind, from: int, length: nat, each: nat,
                                        extra: nat)
    requires cfg.policy.Valid() && cfg.policy.resetIn > 0 && Reachable(cfg, s)
    requires forall w :: Share(s.log, kind, w) <= each + extra * Total(s.log, AReturn, w)
    ensures Counted(s.log, kind, from, from + length)
            <= WindowsPer(cfg, length) * each + extra * CreditsTo(s.log, WindowsOf(cfg, s, from, from + length))
  {
    var to := from + length;
    var ws := WindowsOf(cfg, s, from, to);
    assert Counted(s.log, kind, from, to) <= |ws| * each + extra * CreditsTo(s.log, ws) by {
      CountedInWindows(cfg, s, kind, from, to);
      CountedInBound(s.log, kind, from, to, ws, each, extra);
    }
    assert |ws| <= WindowsPer(cfg, length) by {
      WindowsAreSeparate(cfg, s);
      TouchedAreFew(Windows(s.log), from, length, Delays(cfg), cfg.policy.WindowMs());
    }
    MoreOfEach(Counted(s.log, kind, from, to), |ws|, WindowsPer(cfg, length), each, extra * CreditsTo(s.log, ws));
  }

  lemma MoreOfEach(x: int, n: nat, m: nat, each: nat, rest: int)
    requires x <= n * each + rest && n <= m
    ensures x <= m * each + rest
  {
    MulMono(n, m, each);
  }

  lemma {:induction false} CountedInWindows(cfg: Config, s: State, kind: Kind, from: int, to: int)
    requires cfg.policy.Valid() && Reachable(cfg, s)
    ensures Counted(s.log, kind, from, to) == CountedIn(s.log, kind, from, to, WindowsOf(cfg, s, from, to))
  {
    var ws := WindowsOf(cfg, s, from, to);
    forall k | 0 <= k < |s.log| && Counts(s.log[k], kind, from, to) ensures s.log[k].window in ws {
      EventsAreTouched(cfg, s, kind, from, to, k);
    }
    CountedInAll(s.log, kind, from, to, ws);
  }

  /** With any number of instances, any time interval of length T sees at most (ceil((T + delays) / reset_in) + 1)
      quotas of tokens taken for a key, and those taken from buckets after their shutdown snapshot. */
  lemma {:induction false} RateBound(cfg: Config, s: State, from: int, length: nat)
    requires cfg.policy.Valid() && cfg.policy.resetIn > 0 && Reachable(cfg, s)
    ensures TakenBetween(s.log, from, from + length)
            <= WindowsPer(cfg, length) * cfg.policy.quota + LateBetween(s.log, from, from + length)
  {
    forall w ensures Share(s.log, Takes, w) <= cfg.policy.quota + 0 * Total(s.log, AReturn, w) {
      NoOverSpend(cfg, s, w);
    }
    CountedBound(cfg, s, Takes, from, length, cfg.policy.quota, 0);
    CountedIsTakes(s.log, from, from + length);
  }

  /** With no delays, no more than two quotas in any stretch of one window length, wherever it starts. */
  lemma {:induction false} TwoQuotasPerWindowLength(cfg: Config, s: State, from: int)
    requires cfg.policy.Valid() && cfg.policy.resetIn > 0 && Reachable(cfg, s)
    requires Delays(cfg) == 0
    ensures TakenBetween(s.log, from, from + cfg.policy.WindowMs())
            <= 2 * cfg.policy.quota + LateBetween(s.log, from, from + cfg.policy.WindowMs())
  {
    var length := cfg.policy.WindowMs();
    assert WindowsPer(cfg, length) <= 2 by {
      CeilOfSelf(length);
    }
    RateBound(cfg, s, from, length);
    MoreOfEach(TakenBetween(s.log, from, from + length), WindowsPer(cfg, length), 2, cfg.policy.quota,
               LateBetween(s.log, from, from + length));
  }

  lemma CeilOfSelf(y: nat)
    requires y > 0
    ensures CeilDiv(y, y) == 1
  {
  }

  /** What one window admits when nothing is credited to it and no bucket is spent from after a snapshot, with at most
      `k` calls at once in each instance. */
  function PerWindow(cfg: Config, k: nat): nat
    requires cfg.policy.Valid()
  {
    cfg.policy.quota + k * CeilDiv(cfg.policy.quota, cfg.policy.leaseSize)
  }

  lemma {:induction false} AnswersShare(cfg: Config, s: State, w: int, k: nat)
    requires cfg.policy.Valid() && ReachableWith(cfg, s, k)
    ensures Share(s.log, Answers, w) <= PerWindow(cfg, k) + k * Total(s.log, AReturn, w)
  {
    var batches := CeilDiv(cfg.policy.quota, cfg.policy.leaseSize);
    assert Total(s.log, AFair, w) <= cfg.policy.quota by {
      NoOverSpend(cfg, s, w);
    }
    assert Total(s.log, AFree, w) <= k * batches + k * Total(s.log, AReturn, w) by {
      UntokenedPerWindowAll(cfg, s, w, k);
      OnTop(Total(s.log, AFree, w), k, FullBatches(s.log, cfg.policy, w), batches, Total(s.log, AReturn, w));
    }
  }

  lemma OnTop(free: nat, k: nat, full: nat, batches: nat, more: nat)
    requires free <= k * (full + more) && full <= batches
    ensures free <= k * batches + k * more
  {
    AtMostTimes(free, k, full + more, batches + more);
    Distributes(k, batches, more);
  }

  /** The rate bound on requests rather than tokens: with at most K calls for the id at once in each instance, of the
      requests that arrive and are answered in an interval of length T at most quota + K * ceil(quota / lease_size) are
      admitted for each of ceil((T + delays) / reset_in) + 1 windows, K more for every credit to one of these, and those
      served from buckets after their shutdown snapshot. */
  lemma {:induction false} RequestRateBound(cfg: Config, s: State, from: int, length: nat, k: nat)
    requires cfg.policy.Valid() && cfg.policy.resetIn > 0 && ReachableWith(cfg, s, k)
    ensures AdmittedBetween(s.log, from, from + length)
            <= WindowsPer(cfg, length) * PerWindow(cfg, k)
               + k * CreditsTo(s.log, WindowsOf(cfg, s, from, from + length))
               + LateBetween(s.log, from, from + length)
  {
    forall w ensures Share(s.log, Answers, w) <= PerWindow(cfg, k) + k * Total(s.log, AReturn, w) {
      AnswersShare(cfg, s, w, k);
    }
    CountedBound(cfg, s, Answers, from, length, PerWindow(cfg, k), k);
    CountedIsTakes(s.log, from, from + length);
  }
}
