/** The store of one instance, with its maps updated in place (crates/core/src/store.rs). */
module Stores {
  import opened Basics
  import opened Policies
  import opened Buckets
  import opened RedisScripts
  import opened StoreRules
  import opened Solo
  import opened Returns

  class Store {
    var buckets: map<Id, Bucket>
    var refills: map<Id, nat>
    var notifies: nat  // Notify objects made so far; each is known by its number
    const protected: Policy
    const public: Policy

    constructor (protected: Policy, public: Policy)
      ensures Valid() && buckets == map[] && refills == map[]
      ensures this.protected == protected && this.public == public
    {
      this.protected := protected;
      this.public := public;
      buckets := map[];
      refills := map[];
      notifies := 0;
    }

    /** No two ids share a bucket. */
    ghost predicate Valid()
      reads this`buckets
    {
      forall a, b :: a in buckets && b in buckets && a != b ==> buckets[a] != buckets[b]
    }

    function At(id: Id): Option<BucketState>
      reads this`buckets, buckets.Values
    {
      if id in buckets then Some(buckets[id].Value()) else None
    }

    method Check(id: Id, now: int) returns (v: Verdict)
      ensures v == StoreRules.Check(At(id), false, now)
      ensures v.Reject? <==> id in buckets && buckets[id].exhausted
      ensures v.Usable? <==> id in buckets && !buckets[id].exhausted && buckets[id].tokens > 0
                             && now < buckets[id].expiresAt
      ensures v.Reject? ==> buckets[id].expiresAt <= now + v.after
                            && (v.after > 0 ==> buckets[id].expiresAt == now + v.after)
    {
      if id in buckets {
        var b := buckets[id];
        if b.exhausted {
          return Reject(Sat(b.expiresAt - now));
        }
        if b.tokens == 0 {
          return NeedsLease;
        }
        if b.expiresAt <= now {
          return NeedsLease;
        }
        return Usable;
      }
      return NeedsLease;
    }

    /** The call to Redis and what is done with its reply; only this id's bucket and key are touched. */
    method Lease(id: Id, redis: Redis, link: Link, c: Clock) returns (r: Refilled)
      requires Valid()
      modifies this`buckets, buckets.Values, redis
      ensures Valid() && fresh(buckets.Values - old(buckets.Values))
      ensures var spec := Solo.Lease(old(At(id)), old(redis.At(id)), if id.Public? then public else protected, link, c);
              r == spec.result && At(id) == spec.bucket && redis.At(id) == spec.slot
      ensures id.Public? && link.Works? && public.resetIn > 0 && public.leaseSize > 0
              && old(redis.At(id) == None || (redis.At(id).value.expiry.Some?
                                              && redis.At(id).value.expiry.value < c.executed)) ==>
                var window := c.executed + 1000 * public.resetIn;
                var ttl := Sat(1000 * public.resetIn - (c.received - c.started));
                && r == Ready
                && redis.At(id) == Some(Entry(public.quota - public.leaseSize, Some(window)))
                && At(id) == Some(BucketState(public.leaseSize, c.born + ttl, window, false))
      ensures id.Protected? && link.Works? && protected.resetIn > 0 && protected.leaseSize > 0
              && old(redis.At(id) == None || (redis.At(id).value.expiry.Some?
                                              && redis.At(id).value.expiry.value < c.executed)) ==>
                var window := c.executed + 1000 * protected.resetIn;
                var ttl := Sat(1000 * protected.resetIn - (c.received - c.started));
                && r == Ready
                && redis.At(id) == Some(Entry(protected.quota - protected.leaseSize, Some(window)))
                && At(id) == Some(BucketState(protected.leaseSize, c.born + ttl, window, false))
      ensures forall other :: other != id ==> At(other) == old(At(other)) && redis.At(other) == old(redis.At(other))
    {
      var criteria := match id
        case Public(_) => public
        case Protected(_) => protected;
      r := Broken;
      if !link.Unreachable? {
        var reply := redis.Lease(id, c.executed, criteria);
        if reply.Some? && !link.ReplyLost? {
          r := DealWith(id, reply.value, Sat(reply.value.pttl - (c.received - c.started)), c.born);
        }
      }
    }

    /** The rest of `lease`, with the time left that was computed from the reply. */
    method DealWith(id: Id, reply: Reply, ttl: nat, born: int) returns (r: Refilled)
      requires Valid()
      modifies this`buckets, buckets.Values
      ensures Valid() && fresh(buckets.Values - old(buckets.Values))
      ensures match FinishLease(old(At(id)), reply, ttl, born, born)
              case Inserted(b) => r == Ready && At(id) == Some(b)
              case Marked(b, after) => r == Refused(after) && At(id) == Some(b)
              case Bare(after) => r == Refused(after) && At(id) == old(At(id))
      ensures r.Refused? && id in old(buckets) ==>
                && At(id) == Some(old(buckets[id].Value()).(exhausted := true))
                && At(id).value.expiresAt <= born + r.after
                && (r.after > 0 ==> At(id).value.expiresAt == born + r.after)
      ensures forall other :: other != id ==> At(other) == old(At(other))
    {
      if reply.leased == 0 {
        if id in buckets {
          var b := buckets[id];
          b.SetExhausted();
          return Refused(Sat(b.expiresAt - born));
        }
        return Refused(ttl);
      }
      var b := new Bucket(reply.leased, ttl, reply.window, born);
      buckets := buckets[id := b];
      return Ready;
    }

    /** One round of the loop; a call that waits comes back to its head when it is notified. */
    method EnsureRefilled(id: Id, redis: Redis, link: Link, c: Clock) returns (r: Round<Refilled>)
      requires Valid()
      modifies this, buckets.Values, redis
      ensures Valid() && fresh(buckets.Values - old(buckets.Values)) && refills == old(refills)
      ensures id in old(refills) ==> redis.At(id) == old(redis.At(id))
      ensures if id in old(refills)
                 && (id !in old(buckets)
                     || old(!buckets[id].exhausted && (buckets[id].tokens == 0 || buckets[id].expiresAt <= c.check)))
              then
                r == Waits(old(refills)[id]) && At(id) == old(At(id))
              else
                var p := if id.Public? then public else protected;
                var spec := Refill(old(At(id)), old(redis.At(id)), p, link, c);
                r == Done(spec.result) && At(id) == spec.bucket && redis.At(id) == spec.slot
      ensures forall other :: other != id ==> At(other) == old(At(other)) && redis.At(other) == old(redis.At(other))
    {
      var v := Check(id, c.check);
      if v.Reject? {
        return Done(Refused(v.after));
      }
      if v.Usable? {
        return Done(Ready);
      }
      if id in refills {
        return Waits(refills[id]);
      }
      ghost var before := refills;
      refills := refills[id := notifies];
      notifies := notifies + 1;
      var leased := Lease(id, redis, link, c);
      refills := refills - {id};
      assert refills == before;
      return Done(leased);
    }

    method Consume(id: Id, redis: Redis, link: Link, c: Clock) returns (answer: Round<Answer>)
      requires Valid()
      modifies this, buckets.Values, redis
      ensures Valid() && fresh(buckets.Values - old(buckets.Values)) && refills == old(refills)
      ensures id in old(refills) ==> redis.At(id) == old(redis.At(id))
      ensures if id in old(refills)
                 && (id !in old(buckets)
                     || old(!buckets[id].exhausted && (buckets[id].tokens == 0 || buckets[id].expiresAt <= c.check)))
              then
                answer == Waits(old(refills)[id]) && At(id) == old(At(id))
              else
                var p := if id.Public? then public else protected;
                var spec := Serve(old(At(id)), old(redis.At(id)), p, link, c);
                answer == Done(spec.answer) && At(id) == spec.bucket && redis.At(id) == spec.slot
      ensures forall other :: other != id ==> At(other) == old(At(other)) && redis.At(other) == old(redis.At(other))
    {
      var round := EnsureRefilled(id, redis, link, c);
      if round.Waits? {
        return Waits(round.notify);
      }
      var r := round.value;
      if r.Refused? {
        return Done(Exhausted(r.after));
      }
      if r.Broken? {
        return Done(CacheError);
      }
      var left := Take(id, c.sample);
      return Done(Admitted(left));
    }

    /** The second half of `consume`. */
    method Take(id: Id, sample: int) returns (left: nat)
      requires Valid()
      modifies this`buckets, buckets.Values
      ensures Valid() && buckets.Values <= old(buckets.Values)
      ensures match Spend(old(At(id)), sample)
              case Missing => left == 0 && At(id) == None
              case Outdated => left == 0 && At(id) == None
              case Empty => left == 0 && At(id) == old(At(id))
              case Spent(b) => left == b.tokens && At(id) == Some(b)
      ensures forall other :: other != id ==> At(other) == old(At(other))
    {
      if id in buckets {
        var b := buckets[id];
        if b.expiresAt <= sample {
          buckets := buckets - {id};
          return 0;
        }
        left := b.Consume();
        return left;
      }
      return 0;
    }

    /** The cleanup tick: first lists the expired buckets, then removes what it listed. */
    method Sweep(now: int)
      modifies this`buckets
      ensures buckets == map id | id in old(buckets) && now < old(buckets[id].Value().expiresAt) :: old(buckets)[id]
    {
      var expired: set<Id> := {};
      var todo := buckets.Keys;
      while todo != {}
        invariant todo <= buckets.Keys
        invariant expired == set id | id in buckets.Keys - todo && buckets[id].expiresAt <= now
        decreases todo
      {
        var id :| id in todo;
        if buckets[id].expiresAt <= now {
          expired := expired + {id};
        }
        todo := todo - {id};
      }
      while expired != {}
        invariant expired <= set id | id in old(buckets) && old(buckets[id].expiresAt) <= now
        invariant buckets == map id | id in old(buckets) && (id in expired || now < old(buckets[id].expiresAt))
                                    :: old(buckets)[id]
        decreases expired
      {
        var id :| id in expired;
        buckets := buckets - {id};
        expired := expired - {id};
      }
    }

    /** The shutdown snapshot: every bucket worth returning, once, and the buckets left as they are. */
    method Snapshot(now: int) returns (items: seq<Item>)
      ensures forall k :: 0 <= k < |items| ==>
                && items[k].id in buckets
                && items[k].tokens == buckets[items[k].id].Value().tokens
                && items[k].window == buckets[items[k].id].Value().window
      ensures forall id :: (exists k :: 0 <= k < |items| && items[k].id == id) <==>
                id in buckets && buckets[id].Value().tokens > 0 && now < buckets[id].Value().expiresAt
      ensures forall j, k :: 0 <= j < k < |items| ==> items[j].id != items[k].id
    {
      items := [];
      var todo := buckets.Keys;
      while todo != {}
        invariant todo <= buckets.Keys
        invariant forall k :: 0 <= k < |items| ==>
                    && items[k].id in buckets.Keys - todo
                    && items[k].tokens == buckets[items[k].id].tokens > 0
                    && items[k].window == buckets[items[k].id].window && now < buckets[items[k].id].expiresAt
        invariant forall id :: id in buckets.Keys - todo && buckets[id].tokens > 0 && now < buckets[id].expiresAt ==>
                    exists k :: 0 <= k < |items| && items[k].id == id
        invariant forall j, k :: 0 <= j < k < |items| ==> items[j].id != items[k].id
        decreases todo
      {
        var id :| id in todo;
        if buckets[id].tokens != 0 && buckets[id].expiresAt > now {
          ghost var before := items;
          items := items + [Item(id, buckets[id].tokens, buckets[id].window)];
          assert items[|before|].id == id;
          assert forall k :: 0 <= k < |before| ==> items[k] == before[k];
        }
        todo := todo - {id};
      }
    }

    /** One entry of the snapshot; `fate` says which requests get through. */
    method ReleaseItem(redis: Redis, items: seq<Item>, n: nat, moments: nat -> int, fate: Id -> bool, ghost db: Table)
      requires n < |items|
      requires forall id :: redis.At(id) == SlotOf(ReleaseAll(db, Stamped(items[..n], moments, fate)).db, id)
      modifies redis
      ensures forall id :: redis.At(id) == SlotOf(ReleaseAll(db, Stamped(items[..n + 1], moments, fate)).db, id)
    {
      NextRelease(db, items, moments, fate, n);
      if fate(items[n].id) {
        var released := redis.Release(items[n].id, moments(n), items[n].tokens, items[n].window);
      }
    }

    /** One chunk: its items are released in order, whatever becomes of each. */
    method ReleaseChunk(redis: Redis, items: seq<Item>, from: nat, end: nat, moments: nat -> int, fate: Id -> bool,
                        ghost db: Table)
      requires from <= end <= |items|
      requires forall id :: redis.At(id) == SlotOf(ReleaseAll(db, Stamped(items[..from], moments, fate)).db, id)
      modifies redis
      ensures forall id :: redis.At(id) == SlotOf(ReleaseAll(db, Stamped(items[..end], moments, fate)).db, id)
    {
      var n := from;
      while n < end
        invariant from <= n <= end
        invariant forall id :: redis.At(id) == SlotOf(ReleaseAll(db, Stamped(items[..n], moments, fate)).db, id)
      {
        ReleaseItem(redis, items, n, moments, fate, db);
        n := n + 1;
      }
    }

    /** The shutdown branch, its chunks one after the other; Returns.ChunkedEqualsSequential says that running them
        concurrently comes to the same. The buckets keep their tokens. */
    method ReturnTokens(redis: Redis, now: int, moments: nat -> int, fate: Id -> bool) returns (items: seq<Item>)
      modifies redis
      ensures forall k :: 0 <= k < |items| ==>
                && items[k].id in buckets
                && items[k].tokens == buckets[items[k].id].Value().tokens
                && items[k].window == buckets[items[k].id].Value().window
      ensures forall id :: (exists k :: 0 <= k < |items| && items[k].id == id) <==>
                id in buckets && buckets[id].Value().tokens > 0 && now < buckets[id].Value().expiresAt
      ensures forall j, k :: 0 <= j < k < |items| ==> items[j].id != items[k].id
      ensures forall id :: redis.At(id) == SlotOf(ReleaseAll(old(redis.db), Stamped(items, moments, fate)).db, id)
      ensures forall id :: (forall k :: 0 <= k < |items| ==> items[k].id != id) ==> redis.At(id) == old(redis.At(id))
      ensures forall k :: 0 <= k < |items| ==>
                var key := old(redis.At(items[k].id));
                redis.At(items[k].id) == Released(key, Timed(items[k], moments(k), fate(items[k].id)))
    {
      items := Snapshot(now);
      ghost var db := redis.db;
      ReleaseInChunks(redis, items, moments, fate);
      KeysAfterReturn(db, items, moments, fate);
    }

    /** A shutdown with every request getting through, seen by one key: its own release, if its bucket was listed. */
    method ReturnSeenBy(id: Id, redis: Redis, now: int, moments: nat -> int) returns (items: seq<Item>, ghost k: nat)
      modifies redis
      ensures var b := At(id);
              if b.Some? && b.value.tokens > 0 && now < b.value.expiresAt then
                var r := Timed(Item(id, b.value.tokens, b.value.window), moments(k), true);
                redis.At(id) == Released(old(redis.At(id)), r)
              else redis.At(id) == old(redis.At(id))
    {
      k := 0;
      items := ReturnTokens(redis, now, moments, i => true);
      if j :| 0 <= j < |items| && items[j].id == id {
        k := j;
        assert items[j] == Item(id, buckets[id].tokens, buckets[id].window);
      }
    }

    /** Within the live window that the bucket was leased from, the counter rises by exactly the tokens still in the
        bucket. No release runs after `latest`. */
    method ReturnToLive(id: Id, redis: Redis, now: int, moments: nat -> int, ghost latest: int)
      returns (items: seq<Item>)
      requires forall k :: moments(k) <= latest
      modifies redis
      ensures && id in buckets && now < buckets[id].expiresAt && latest <= buckets[id].window && buckets[id].window >= 0
              && old(redis.At(id)).Some? && old(redis.At(id)).value.expiry == Some(buckets[id].window) ==>
                var value := old(redis.At(id)).value.value + buckets[id].tokens;
                redis.At(id) == Some(Entry(value, Some(buckets[id].window)))
    {
      ghost var key, k := redis.At(id), 0;
      items, k := ReturnSeenBy(id, redis, now, moments);
      if id in buckets && buckets[id].window >= 0 {
        ReleasedMeans(key, Timed(Item(id, buckets[id].tokens, buckets[id].window), moments(k), true));
      }
    }

    /** The round trip of a batch: a call leases it and takes one token, and a shutdown while the bucket and its window
        live, with every request getting through, leaves the counter one lower than the call found it. */
    method ServeThenReturn(id: Id, redis: Redis, c: Clock, now: int, moments: nat -> int, ghost latest: int)
      returns (answer: Round<Answer>)
      requires forall k :: moments(k) <= latest
      requires Valid() && id !in buckets && id !in refills
      requires WellKept(redis.At(id)) && c.executed >= 0
      requires public.Valid() && protected.Valid()
      modifies this, buckets.Values, redis
      ensures id in buckets && now < buckets[id].expiresAt && latest <= buckets[id].window ==>
                var key := old(redis.At(id));
                var found := if key.Some? && c.executed <= key.value.expiry.value then key.value.value
                             else if id.Public? then public.quota else protected.quota;
                && answer == Done(Admitted(buckets[id].tokens))
                && redis.At(id) == Some(Entry(found - 1, Some(buckets[id].window)))
    {
      FirstCallOfBatch(redis.At(id), if id.Public? then public else protected, c);
      answer := Consume(id, redis, Works, c);
      var items := ReturnToLive(id, redis, now, moments, latest);
    }

    method ReleaseInChunks(redis: Redis, items: seq<Item>, moments: nat -> int, fate: Id -> bool)
      modifies redis
      ensures forall id :: redis.At(id) == SlotOf(ReleaseAll(old(redis.db), Stamped(items, moments, fate)).db, id)
    {
      ghost var db := redis.db;
      var n: nat := 0;
      assert items[..0] == [];
      while n < |items|
        invariant n <= |items|
        invariant forall id :: redis.At(id) == SlotOf(ReleaseAll(db, Stamped(items[..n], moments, fate)).db, id)
        decreases |items| - n
      {
        var end := Min(n + CHUNK_SIZE, |items|);
        ReleaseChunk(redis, items, n, end, moments, fate, db);
        n := end;
      }
      assert items[..n] == items;
    }
  }

  /** What a leased batch leaves in the bucket and in Redis is what was there, but for the token of the call. */
  lemma {:induction false} FirstCallOfBatch(slot: Slot, p: Policy, c: Clock)
    requires p.Valid() && WellKept(slot) && c.executed >= 0
    ensures var served := Serve(None, slot, p, Works, c);
            var found := if slot.Some? && c.executed <= slot.value.expiry.value then slot.value.value else p.quota;
            served.bucket.Some? ==>
              var b := served.bucket.value;
              && served.answer == Admitted(b.tokens) && b.window >= 0
              && served.slot == Some(Entry(found - 1 - b.tokens, Some(b.window)))
  {
  }

  lemma {:induction false} StampedAt(items: seq<Item>, moments: nat -> int, fate: Id -> bool)
    ensures |Stamped(items, moments, fate)| == |items|
    ensures forall k :: 0 <= k < |items| ==>
              Stamped(items, moments, fate)[k] == Timed(items[k], moments(k), fate(items[k].id))
  {
    if items != [] {
      StampedAt(items[..|items| - 1], moments, fate);
    }
  }

  /** A key outside the snapshot is as it was, and a key in it shows its own release. */
  lemma {:induction false} KeysAfterReturn(db: Table, items: seq<Item>, moments: nat -> int, fate: Id -> bool)
    requires forall j, k :: 0 <= j < k < |items| ==> items[j].id != items[k].id
    ensures var after := ReleaseAll(db, Stamped(items, moments, fate)).db;
            && (forall id :: (forall k :: 0 <= k < |items| ==> items[k].id != id) ==>
                               SlotOf(after, id) == SlotOf(db, id))
            && (forall k :: 0 <= k < |items| ==>
                              SlotOf(after, items[k].id)
                              == Released(SlotOf(db, items[k].id), Timed(items[k], moments(k), fate(items[k].id))))
  {
    var order := Stamped(items, moments, fate);
    StampedAt(items, moments, fate);
    forall id | forall k :: 0 <= k < |items| ==> items[k].id != id
      ensures SlotOf(ReleaseAll(db, order).db, id) == SlotOf(db, id)
    {
      OwnReleaseOnly(db, order, id);
    }
    forall k | 0 <= k < |items|
      ensures SlotOf(ReleaseAll(db, order).db, items[k].id) == Released(SlotOf(db, items[k].id), order[k])
    {
      OwnReleaseOnly(db, order, items[k].id);
    }
  }

  lemma NextRelease(db: Table, items: seq<Item>, moments: nat -> int, fate: Id -> bool, n: nat)
    requires n < |items|
    ensures var before := ReleaseAll(db, Stamped(items[..n], moments, fate)).db;
            var after := ReleaseAll(db, Stamped(items[..n + 1], moments, fate)).db;
            forall id :: SlotOf(after, id) ==
              if id == items[n].id && fate(id)
              then ReleaseScript(SlotOf(before, id), moments(n), items[n].tokens, items[n].window).slot
              else SlotOf(before, id)
  {
    assert items[..n + 1][..n] == items[..n];
    var front := Stamped(items[..n], moments, fate);
    var r := Timed(items[n], moments(n), fate(items[n].id));
    assert (front + [r])[..|front + [r]| - 1] == front;
    forall id ensures SlotOf(ReleaseOne(ReleaseAll(db, front).db, r), id)
                      == if r.item.id == id then Released(SlotOf(ReleaseAll(db, front).db, id), r)
                         else SlotOf(ReleaseAll(db, front).db, id)
    {
      ReleaseOneOnly(ReleaseAll(db, front).db, r, id);
    }
  }
}
