/** The two Lua scripts and the Redis commands they are made of (crates/core/src/cache.rs). */
module RedisScripts {
  import opened Basics
  import opened Buckets
  import opened Policies

  /** A stored counter; `expiry` is absent on a key without TTL. */
  datatype Entry = Entry(value: int, expiry: Option<int>)

  /** What Redis stores under one key. An expired entry stays stored until it is overwritten. */
  type Slot = Option<Entry>

  predicate Alive(slot: Slot, now: int) {
    slot.Some? && (slot.value.expiry.Some? ==> now <= slot.value.expiry.value)
  }

  /** PEXPIRETIME: -2 for no key, -1 for a key without TTL. */
  function PExpireTime(slot: Slot, now: int): int {
    if !Alive(slot, now) then -2
    else if slot.value.expiry.None? then -1
    else slot.value.expiry.value
  }

  /** PTTL, with the same error values. */
  function PTtl(slot: Slot, now: int): int {
    var at := PExpireTime(slot, now);
    if slot.Some? && slot.value.expiry.Some? && Alive(slot, now) then at - now else at
  }

  datatype Reply = Reply(leased: nat, pttl: int, window: int)

  /** The outcome of a script run; no reply when SETEX refuses a TTL of zero. */
  datatype LeaseRun = LeaseRun(slot: Slot, reply: Option<Reply>)

  function LeaseScript(slot: Slot, now: int, p: Policy): LeaseRun {
    if !Alive(slot, now) then
      if p.resetIn == 0 then
        LeaseRun(slot, None)
      else
        var opening := Some(Entry(p.quota - p.leaseSize, Some(now + p.WindowMs())));
        LeaseRun(opening, Some(Reply(p.leaseSize, PTtl(opening, now), PExpireTime(opening, now))))
    else if slot.value.value <= 0 then
      LeaseRun(slot, Some(Reply(0, PTtl(slot, now), PExpireTime(slot, now))))
    else
      var toLease := Min(slot.value.value, p.leaseSize);
      var rest := Some(slot.value.(value := slot.value.value - toLease));
      LeaseRun(rest, Some(Reply(toLease, PTtl(rest, now), PExpireTime(rest, now))))
  }

  datatype ReleaseRun = ReleaseRun(slot: Slot, released: bool)

  function ReleaseScript(slot: Slot, now: int, tokens: nat, window: int): ReleaseRun {
    if PExpireTime(slot, now) != window then
      ReleaseRun(slot, false)
    else
      ReleaseRun(IncrBy(slot, now, tokens), true)
  }

  /** INCRBY creates a missing key, without TTL. */
  function IncrBy(slot: Slot, now: int, n: int): Slot {
    if Alive(slot, now) then Some(slot.value.(value := slot.value.value + n)) else Some(Entry(n, None))
  }

  /** What Redis stores, by key. */
  type Table = map<string, Entry>

  function Get(db: Table, key: string): Slot {
    if key in db then Some(db[key]) else None
  }

  function SlotOf(db: Table, id: Id): Slot {
    Get(db, id.ToKey())
  }

  /** Redis as a mutable table of keys. Every method is one atomic script or command at time `now`. */
  class Redis {
    var db: Table

    constructor ()
      ensures db == map[]
    {
      db := map[];
    }

    function At(id: Id): Slot
      reads this
    {
      SlotOf(db, id)
    }

    method Lease(id: Id, now: int, p: Policy) returns (reply: Option<Reply>)
      modifies this
      ensures reply == LeaseScript(old(At(id)), now, p).reply
      ensures At(id) == LeaseScript(old(At(id)), now, p).slot
      ensures forall other :: other != id ==> At(other) == old(At(other))
    {
      var key := id.ToKey();
      OtherKeys(id);
      if !Alive(At(id), now) {
        if p.resetIn == 0 {
          return None;
        }
        var remaining := p.quota - p.leaseSize;
        db := db[key := Entry(remaining, Some(now + 1000 * p.resetIn))];
        return Some(Reply(p.leaseSize, PTtl(At(id), now), PExpireTime(At(id), now)));
      }
      var tokens := db[key].value;
      if tokens <= 0 {
        return Some(Reply(0, PTtl(At(id), now), PExpireTime(At(id), now)));
      }
      var toLease := Min(tokens, p.leaseSize);
      db := db[key := db[key].(value := tokens - toLease)];
      return Some(Reply(toLease, PTtl(At(id), now), PExpireTime(At(id), now)));
    }

    method Release(id: Id, now: int, tokens: nat, window: int) returns (released: bool)
      modifies this
      ensures released == ReleaseScript(old(At(id)), now, tokens, window).released
      ensures At(id) == ReleaseScript(old(At(id)), now, tokens, window).slot
      ensures forall other :: other != id ==> At(other) == old(At(other))
    {
      var key := id.ToKey();
      OtherKeys(id);
      if PExpireTime(At(id), now) != window {
        return false;
      }
      var value := if Alive(At(id), now) then db[key] else Entry(0, None);
      db := db[key := value.(value := value.value + tokens)];
      return true;
    }
  }

  /** The stored counter of window `w`, alive or not. */
  function Counter(slot: Slot, w: int): int {
    if slot.Some? && slot.value.expiry == Some(w) then slot.value.value else 0
  }

  /** No stored entry lacks a TTL, and no counter is negative. */
  predicate WellKept(slot: Slot) {
    slot.Some? ==> slot.value.expiry.Some? && slot.value.value >= 0 && slot.value.expiry.value >= 0
  }

  /** The end of the latest window. */
  function End(slot: Slot): int
    requires slot.Some? && WellKept(slot)
  {
    slot.value.expiry.value
  }

  /** A lease moves tokens from the counter to the caller, or opens the next window with a full quota;
      it never moves a live window's end, and its reply names the window the tokens came from. */
  lemma {:induction false} LeaseMovesTokens(slot: Slot, now: int, p: Policy)
    requires p.Valid() && WellKept(slot) && now >= 0
    ensures var run := LeaseScript(slot, now, p);
            && WellKept(run.slot)
            && (run.reply.None? <==> !Alive(slot, now) && p.resetIn == 0)
            && (run.reply.None? ==> run.slot == slot)
            && (run.reply.Some? ==>
                  var r := run.reply.value;
                  && Alive(run.slot, now)
                  && run.slot.value.expiry == Some(r.window)
                  && r.window == now + r.pttl && r.pttl >= 0
                  && r.leased <= p.leaseSize
                  && r.leased + run.slot.value.value == (if Alive(slot, now) then slot.value.value else p.quota)
                  && (r.leased == 0 <==> Alive(slot, now) && slot.value.value == 0)
                  && (Alive(slot, now) ==> run.slot.value.expiry == slot.value.expiry)
                  && (!Alive(slot, now) ==> r.window == now + p.WindowMs()))
  {
  }

  /** A release changes a counter only by crediting exactly the window named, and only while that key lives;
      the one window name that could create a key is the code's own "no key" answer, -2. */
  lemma {:induction false} ReleaseCreditsOneWindow(slot: Slot, now: int, tokens: nat, window: int)
    ensures var run := ReleaseScript(slot, now, tokens, window);
            && (run.released <==> PExpireTime(slot, now) == window)
            && (!run.released ==> run.slot == slot)
            && (run.released && window >= 0 ==>
                  && Alive(slot, now) && slot.value.expiry == Some(window)
                  && run.slot == Some(Entry(slot.value.value + tokens, Some(window))))
            && (!Alive(slot, now) ==> (run.released <==> window == -2))
  {
  }

  /** Leases at the given moments of one window, in order: tokens handed out, and how many were non-zero. */
  datatype Handout = Handout(slot: Slot, total: nat, nonZero: nat)

  function LeaseAll(slot: Slot, moments: seq<int>, p: Policy): Handout
    decreases |moments|
  {
    if moments == [] then Handout(slot, 0, 0)
    else
      var before := LeaseAll(slot, moments[..|moments| - 1], p);
      var run := LeaseScript(before.slot, moments[|moments| - 1], p);
      if run.reply.None? then before
      else
        Handout(run.slot, before.total + run.reply.value.leased,
                before.nonZero + if run.reply.value.leased > 0 then 1 else 0)
  }

  /** With no release, the first n leases of a window hand out min(n * lease_size, quota) tokens between them,
      and exactly the first ceil(quota / lease_size) of them are non-zero. */
  lemma {:induction false} LeaseClosedForm(slot: Slot, moments: seq<int>, p: Policy)
    requires p.Valid() && p.resetIn > 0 && moments != []
    requires !Alive(slot, moments[0])
    requires forall k :: 0 <= k < |moments| ==> moments[0] <= moments[k] <= moments[0] + p.WindowMs()
    ensures var out := LeaseAll(slot, moments, p);
            && out.total == Min(|moments| * p.leaseSize, p.quota)
            && out.nonZero == Min(|moments|, CeilDiv(p.quota, p.leaseSize))
            && out.slot == Some(Entry(p.quota - out.total, Some(moments[0] + p.WindowMs())))
    decreases |moments|
  {
    var n := |moments|;
    HandoutStep(n, p.leaseSize, p.quota);
    if n == 1 {
      assert LeaseAll(slot, moments[..0], p) == Handout(slot, 0, 0);
    } else {
      var front := moments[..n - 1];
      LeaseClosedForm(slot, front, p);
      NextLease(LeaseAll(slot, front, p).slot, moments[n - 1], p);
    }
  }

  lemma NextLease(slot: Slot, now: int, p: Policy)
    requires p.Valid() && Alive(slot, now) && 0 <= slot.value.value
    ensures var run := LeaseScript(slot, now, p);
            && run.reply.Some? && run.reply.value.leased == Min(slot.value.value, p.leaseSize)
            && run.slot == Some(slot.value.(value := slot.value.value - run.reply.value.leased))
  {
  }

  /** The arithmetic of the n-th lease. */
  lemma HandoutStep(n: nat, size: nat, quota: nat)
    requires n >= 1 && 1 <= size <= quota
    ensures var before := Min((n - 1) * size, quota);
            var given := Min(quota - before, size);
            && before + given == Min(n * size, quota)
            && Min(n - 1, CeilDiv(quota, size)) + (if given > 0 then 1 else 0) == Min(n, CeilDiv(quota, size))
    ensures (n - 1) * size >= 0
  {
    var q := CeilDiv(quota, size);
    CeilBounds(quota, size);
    assert n * size == (n - 1) * size + size;
    if n - 1 < q {
      MulMono(n - 1, q - 1, size);
    } else {
      MulMono(q, n - 1, size);
    }
  }
}
