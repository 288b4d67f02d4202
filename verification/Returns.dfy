/** Returning tokens at shutdown: chunks of the snapshot released concurrently
    (crates/core/src/store.rs, crates/core/src/cache.rs). */
module Returns {
  import opened Basics
  import opened Buckets
  import opened RedisScripts

  /** What the shutdown snapshot records for one bucket. */
  datatype Item = Item(id: Id, tokens: nat, window: int)

  const CHUNK_SIZE: nat := 2000

  /** One release: when Redis runs it, if the request gets that far. */
  datatype Timed = Timed(item: Item, at: int, reaches: bool)

  predicate Accepted(db: Table, r: Timed) {
    r.reaches && PExpireTime(SlotOf(db, r.item.id), r.at) == r.item.window
  }

  /** What becomes of the key. */
  function Released(slot: Slot, r: Timed): Slot {
    if r.reaches then ReleaseScript(slot, r.at, r.item.tokens, r.item.window).slot else slot
  }

  /** Tokens go back exactly when the request gets through while the window they were leased from is live. */
  lemma {:induction false} ReleasedMeans(slot: Slot, r: Timed)
    requires r.item.window >= 0
    ensures Released(slot, r)
            == if r.reaches && slot.Some? && slot.value.expiry == Some(r.item.window) && r.at <= r.item.window
               then Some(Entry(slot.value.value + r.item.tokens, Some(r.item.window)))
               else slot
  {
  }

  function ReleaseOne(db: Table, r: Timed): Table {
    var slot := Released(SlotOf(db, r.item.id), r);
    if slot.Some? then db[r.item.id.ToKey() := slot.value] else db
  }

  datatype Outcome = Outcome(db: Table, credited: nat, dropped: nat)

  function ReleaseAll(db: Table, order: seq<Timed>): Outcome {
    if order == [] then Outcome(db, 0, 0)
    else
      var before := ReleaseAll(db, order[..|order| - 1]);
      var r := order[|order| - 1];
      var n := r.item.tokens;
      if Accepted(before.db, r) then Outcome(ReleaseOne(before.db, r), before.credited + n, before.dropped)
      else Outcome(ReleaseOne(before.db, r), before.credited, before.dropped + n)
  }

  // The workers, one a chunk

  function Chunks(items: seq<Item>, size: nat): seq<seq<Item>>
    requires size > 0
  {
    if |items| <= size then [items] else [items[..size]] + Chunks(items[size..], size)
  }

  function Flat(chunks: seq<seq<Item>>): seq<Item> {
    if chunks == [] then [] else chunks[0] + Flat(chunks[1..])
  }

  lemma {:induction false} ChunksKeepItems(items: seq<Item>, size: nat)
    requires size > 0
    ensures Flat(Chunks(items, size)) == items
    ensures forall c :: 0 <= c < |Chunks(items, size)| ==> |Chunks(items, size)[c]| <= size
    decreases |items|
  {
    if |items| <= size {
      assert Flat([items]) == items + Flat([]);
    } else {
      ChunksKeepItems(items[size..], size);
      FlatCons(items[..size], Chunks(items[size..], size));
    }
  }

  lemma FlatCons(chunk: seq<Item>, chunks: seq<seq<Item>>)
    ensures Flat([chunk] + chunks) == chunk + Flat(chunks)
  {
    assert ([chunk] + chunks)[1..] == chunks;
  }

  /** A step: `worker` releases the next item of its chunk at time `at`. */
  datatype Pick = Pick(worker: nat, at: int)

  /** The picks run every worker to its end. */
  predicate Completes(rest: seq<seq<Item>>, picks: seq<Pick>)
    decreases |picks|
  {
    if picks == [] then forall c :: 0 <= c < |rest| ==> rest[c] == []
    else
      && picks[0].worker < |rest| && rest[picks[0].worker] != []
      && Completes(rest[picks[0].worker := rest[picks[0].worker][1..]], picks[1..])
  }

  function Order(rest: seq<seq<Item>>, picks: seq<Pick>, fate: Id -> bool): seq<Timed>
    requires Completes(rest, picks)
    decreases |picks|
  {
    if picks == [] then []
    else
      var chunk := rest[picks[0].worker];
      [Timed(chunk[0], picks[0].at, fate(chunk[0].id))]
      + Order(rest[picks[0].worker := chunk[1..]], picks[1..], fate)
  }

  function ItemsOf(order: seq<Timed>): seq<Item> {
    if order == [] then [] else ItemsOf(order[..|order| - 1]) + [order[|order| - 1].item]
  }

  lemma {:induction false} ItemsOfAt(order: seq<Timed>)
    ensures |ItemsOf(order)| == |order|
    ensures forall k :: 0 <= k < |order| ==> ItemsOf(order)[k] == order[k].item
  {
    if order != [] {
      ItemsOfAt(order[..|order| - 1]);
    }
  }

  lemma {:induction false} FlatEmpty(rest: seq<seq<Item>>)
    requires forall c :: 0 <= c < |rest| ==> rest[c] == []
    ensures Flat(rest) == []
    decreases |rest|
  {
    if rest != [] {
      FlatEmpty(rest[1..]);
    }
  }

  lemma {:induction false} FlatPop(rest: seq<seq<Item>>, c: nat)
    requires c < |rest| && rest[c] != []
    ensures multiset(Flat(rest)) == multiset{rest[c][0]} + multiset(Flat(rest[c := rest[c][1..]]))
    decreases |rest|
  {
    var after := rest[c := rest[c][1..]];
    if c == 0 {
      assert after[1..] == rest[1..];
      assert rest[0] == [rest[0][0]] + rest[0][1..];
    } else {
      assert after[1..] == rest[1..][c - 1 := rest[c][1..]];
      FlatPop(rest[1..], c - 1);
    }
  }

  /** Whatever the interleaving and the fate of requests, every item is offered to Redis exactly once. */
  lemma {:induction false} OfferedOnce(rest: seq<seq<Item>>, picks: seq<Pick>, fate: Id -> bool)
    requires Completes(rest, picks)
    ensures multiset(ItemsOf(Order(rest, picks, fate))) == multiset(Flat(rest))
    decreases |picks|
  {
    if picks == [] {
      FlatEmpty(rest);
    } else {
      var c := picks[0].worker;
      var after := rest[c := rest[c][1..]];
      OfferedOnce(after, picks[1..], fate);
      FlatPop(rest, c);
      ItemsOfCons(Timed(rest[c][0], picks[0].at, fate(rest[c][0].id)), Order(after, picks[1..], fate));
    }
  }

  /** Each at the moment its worker picks it, with the fate of its request. */
  lemma {:induction false} OrderLabels(rest: seq<seq<Item>>, picks: seq<Pick>, fate: Id -> bool)
    requires Completes(rest, picks)
    ensures var order := Order(rest, picks, fate);
            && |order| == |picks|
            && forall k :: 0 <= k < |picks| ==> order[k].at == picks[k].at && order[k].reaches == fate(order[k].item.id)
    decreases |picks|
  {
    if picks != [] {
      var c := picks[0].worker;
      OrderLabels(rest[c := rest[c][1..]], picks[1..], fate);
    }
  }

  lemma ItemsOfCons(first: Timed, order: seq<Timed>)
    ensures multiset(ItemsOf([first] + order)) == multiset{first.item} + multiset(ItemsOf(order))
  {
    ItemsOfAt([first] + order);
    ItemsOfAt(order);
    assert ItemsOf([first] + order) == [first.item] + ItemsOf(order);
  }

  /** The items in their own order, the k-th released at `moments(k)`. */
  function Stamped(items: seq<Item>, moments: nat -> int, fate: Id -> bool): seq<Timed> {
    if items == [] then []
    else
      var n := |items| - 1;
      Stamped(items[..n], moments, fate) + [Timed(items[n], moments(n), fate(items[n].id))]
  }

  // The result does not depend on the order

  predicate Distinct(order: seq<Timed>) {
    forall j, k :: 0 <= j < k < |order| ==> order[j].item.id != order[k].item.id
  }

  lemma {:induction false} UntouchedByOthers(db: Table, order: seq<Timed>, id: Id)
    requires forall k :: 0 <= k < |order| ==> order[k].item.id != id
    ensures SlotOf(ReleaseAll(db, order).db, id) == SlotOf(db, id)
  {
    if order != [] {
      var n := |order| - 1;
      UntouchedByOthers(db, order[..n], id);
      ReleaseOneOnly(ReleaseAll(db, order[..n]).db, order[n], id);
    }
  }

  lemma {:induction false} TouchedByOwn(db: Table, order: seq<Timed>, k: nat)
    requires Distinct(order) && k < |order|
    ensures SlotOf(ReleaseAll(db, order).db, order[k].item.id) == Released(SlotOf(db, order[k].item.id), order[k])
  {
    var n := |order| - 1;
    var id := order[k].item.id;
    if k == n {
      UntouchedByOthers(db, order[..n], id);
    } else {
      TouchedByOwn(db, order[..n], k);
    }
    ReleaseOneOnly(ReleaseAll(db, order[..n]).db, order[n], id);
  }

  /** One key after all releases: touched by its own release only. */
  lemma {:induction false} OwnReleaseOnly(db: Table, order: seq<Timed>, id: Id)
    requires Distinct(order)
    ensures (forall k :: 0 <= k < |order| ==> order[k].item.id != id) ==>
              SlotOf(ReleaseAll(db, order).db, id) == SlotOf(db, id)
    ensures forall k :: 0 <= k < |order| && order[k].item.id == id ==>
              SlotOf(ReleaseAll(db, order).db, id) == Released(SlotOf(db, id), order[k])
  {
    if k :| 0 <= k < |order| && order[k].item.id == id {
      TouchedByOwn(db, order, k);
    } else {
      UntouchedByOthers(db, order, id);
    }
  }

  lemma ReleaseOneOnly(db: Table, r: Timed, id: Id)
    ensures SlotOf(ReleaseOne(db, r), id) == if r.item.id == id then Released(SlotOf(db, id), r) else SlotOf(db, id)
  {
    OtherKeys(r.item.id);
  }

  /** Keys of no item are left alone. */
  lemma {:induction false} ForeignKeysKept(db: Table, order: seq<Timed>, key: string)
    requires forall k :: 0 <= k < |order| ==> order[k].item.id.ToKey() != key
    ensures Get(ReleaseAll(db, order).db, key) == Get(db, key)
  {
    if order != [] {
      ForeignKeysKept(db, order[..|order| - 1], key);
    }
  }

  predicate WindowLives(db: Table, i: Item, at: int) {
    PExpireTime(SlotOf(db, i.id), at) == i.window
  }

  /** Over the whole shutdown each snapshotted window is either still live or already gone, as it is at `when`. */
  ghost predicate Unmoved(db: Table, order: seq<Timed>, when: int) {
    forall k :: 0 <= k < |order| ==>
      order[k].item.window >= 0
      && (WindowLives(db, order[k].item, order[k].at) <==> WindowLives(db, order[k].item, when))
  }

  /** And requests get through as `fate` says. */
  ghost predicate Settled(db: Table, order: seq<Timed>, when: int, fate: Id -> bool) {
    && Unmoved(db, order, when)
    && forall k :: 0 <= k < |order| ==> order[k].reaches == fate(order[k].item.id)
  }

  /** The releases one after the other, all at one moment. */
  function Sequential(items: seq<Item>, when: int, fate: Id -> bool): (order: seq<Timed>)
    ensures |order| == |items|
    ensures forall k :: 0 <= k < |items| ==> order[k] == Timed(items[k], when, fate(items[k].id))
  {
    if items == [] then []
    else Sequential(items[..|items| - 1], when, fate) + [Timed(items[|items| - 1], when, fate(items[|items| - 1].id))]
  }

  /** Tokens of the items that a release at `when` gets accepted, or of those that it does not. */
  function SumOf(db: Table, items: seq<Item>, when: int, fate: Id -> bool, live: bool): nat {
    if items == [] then 0
    else
      var i := items[|items| - 1];
      SumOf(db, items[..|items| - 1], when, fate, live) + Worth(db, i, when, fate, live)
  }

  function Worth(db: Table, i: Item, when: int, fate: Id -> bool, live: bool): nat {
    if Accepted(db, Timed(i, when, fate(i.id))) == live then i.tokens else 0
  }

  lemma SumAppend(db: Table, items: seq<Item>, i: Item, when: int, fate: Id -> bool, live: bool)
    ensures SumOf(db, items + [i], when, fate, live)
            == SumOf(db, items, when, fate, live) + Worth(db, i, when, fate, live)
  {
    assert (items + [i])[..|items + [i]| - 1] == items;
  }

  lemma FrontWithout(items: seq<Item>, k: nat)
    requires k < |items| - 1
    ensures items[..k] + items[k + 1..]
            == items[..|items| - 1][..k] + items[..|items| - 1][k + 1..] + [items[|items| - 1]]
  {
  }

  lemma {:induction false} SumWithout(db: Table, items: seq<Item>, when: int, fate: Id -> bool, live: bool, k: nat)
    requires k < |items|
    ensures SumOf(db, items, when, fate, live)
            == SumOf(db, items[..k] + items[k + 1..], when, fate, live) + Worth(db, items[k], when, fate, live)
  {
    var n := |items| - 1;
    if k == n {
      assert items[..k] + items[k + 1..] == items[..n];
    } else {
      var front := items[..n];
      SumWithout(db, front, when, fate, live, k);
      SumAppend(db, front[..k] + front[k + 1..], items[n], when, fate, live);
      assert items[..k] + items[k + 1..] == front[..k] + front[k + 1..] + [items[n]] by {
        FrontWithout(items, k);
      }
      assert SumOf(db, items, when, fate, live)
             == SumOf(db, front, when, fate, live) + Worth(db, items[n], when, fate, live);
    }
  }

  lemma {:induction false} SumIgnoresOrder(db: Table, a: seq<Item>, b: seq<Item>, when: int, fate: Id -> bool,
                                           live: bool)
    requires multiset(a) == multiset(b)
    ensures SumOf(db, a, when, fate, live) == SumOf(db, b, when, fate, live)
    decreases |a|
  {
    if a == [] {
      assert |multiset(b)| == 0;
    } else {
      var n := |a| - 1;
      assert a[n] in multiset(a);
      var k :| 0 <= k < |b| && b[k] == a[n];
      SameWithout(a, b, k);
      SumIgnoresOrder(db, a[..n], b[..k] + b[k + 1..], when, fate, live);
      SumWithout(db, b, when, fate, live, k);
    }
  }

  lemma SameWithout(a: seq<Item>, b: seq<Item>, k: nat)
    requires multiset(a) == multiset(b) && a != [] && k < |b| && b[k] == a[|a| - 1]
    ensures multiset(a[..|a| - 1]) == multiset(b[..k] + b[k + 1..])
  {
    var n := |a| - 1;
    TakeOut(a, n);
    assert a[..n] + a[n + 1..] == a[..n];
    TakeOut(b, k);
  }

  lemma TakeOut(items: seq<Item>, k: nat)
    requires k < |items|
    ensures multiset(items[..k] + items[k + 1..]) == multiset(items) - multiset{items[k]}
  {
    assert items == items[..k] + [items[k]] + items[k + 1..];
  }

  /** A release is accepted or not as it would be at the start and at `when`. */
  lemma AcceptedThen(db: Table, order: seq<Timed>, when: int, fate: Id -> bool)
    requires order != [] && Distinct(order) && Settled(db, order, when, fate)
    ensures var n := |order| - 1;
            Accepted(ReleaseAll(db, order[..n]).db, order[n])
            <==> Accepted(db, Timed(order[n].item, when, fate(order[n].item.id)))
  {
    var n := |order| - 1;
    OwnReleaseOnly(db, order[..n], order[n].item.id);
  }

  lemma ItemsOfLast(order: seq<Timed>)
    requires order != []
    ensures ItemsOf(order) == ItemsOf(order[..|order| - 1]) + [order[|order| - 1].item]
  {
  }

  lemma {:induction false} TotalsOfRelease(db: Table, order: seq<Timed>, when: int, fate: Id -> bool)
    requires Distinct(order) && Settled(db, order, when, fate)
    ensures ReleaseAll(db, order).credited == SumOf(db, ItemsOf(order), when, fate, true)
    ensures ReleaseAll(db, order).dropped == SumOf(db, ItemsOf(order), when, fate, false)
  {
    if order != [] {
      var n := |order| - 1;
      TotalsOfRelease(db, order[..n], when, fate);
      AcceptedThen(db, order, when, fate);
      ItemsOfLast(order);
      SumAppend(db, ItemsOf(order[..n]), order[n].item, when, fate, true);
      SumAppend(db, ItemsOf(order[..n]), order[n].item, when, fate, false);
    }
  }

  lemma SameFinalSlot(db: Table, a: seq<Timed>, b: seq<Timed>, when: int, fate: Id -> bool, id: Id)
    requires Distinct(a) && Distinct(b) && Settled(db, a, when, fate) && Settled(db, b, when, fate)
    requires multiset(ItemsOf(a)) == multiset(ItemsOf(b))
    ensures SlotOf(ReleaseAll(db, a).db, id) == SlotOf(ReleaseAll(db, b).db, id)
  {
    OwnReleaseOnly(db, a, id);
    OwnReleaseOnly(db, b, id);
    if k :| 0 <= k < |a| && a[k].item.id == id {
      var j := FindIn(a, b, k);
    } else if j :| 0 <= j < |b| && b[j].item.id == id {
      var k := FindIn(b, a, j);
      assert false;
    }
  }

  lemma FindIn(a: seq<Timed>, b: seq<Timed>, k: nat) returns (j: nat)
    requires multiset(ItemsOf(a)) == multiset(ItemsOf(b)) && k < |a|
    ensures j < |b| && b[j].item == a[k].item
  {
    ItemsOfAt(a);
    ItemsOfAt(b);
    assert ItemsOf(a)[k] in multiset(ItemsOf(b));
    j :| 0 <= j < |b| && ItemsOf(b)[j] == a[k].item;
  }

  lemma SameFinalKey(db: Table, a: seq<Timed>, b: seq<Timed>, when: int, fate: Id -> bool, key: string)
    requires Distinct(a) && Distinct(b) && Settled(db, a, when, fate) && Settled(db, b, when, fate)
    requires multiset(ItemsOf(a)) == multiset(ItemsOf(b))
    ensures Get(ReleaseAll(db, a).db, key) == Get(ReleaseAll(db, b).db, key)
  {
    if k :| 0 <= k < |a| && a[k].item.id.ToKey() == key {
      SameFinalSlot(db, a, b, when, fate, a[k].item.id);
    } else if j :| 0 <= j < |b| && b[j].item.id.ToKey() == key {
      SameFinalSlot(db, a, b, when, fate, b[j].item.id);
    } else {
      ForeignKeysKept(db, a, key);
      ForeignKeysKept(db, b, key);
    }
  }

  lemma SameKeysSameTable(a: Table, b: Table)
    requires forall key :: Get(a, key) == Get(b, key)
    ensures a == b
  {
    forall key ensures key in a <==> key in b {
      assert Get(a, key) == Get(b, key);
    }
    forall key | key in a ensures a[key] == b[key] {
      assert Get(a, key) == Get(b, key);
    }
  }

  /** Chunked concurrent release equals sequential release: for any number of buckets and any interleaving of the
      chunk workers, every snapshot entry is offered once, what is credited and what is dropped add up to the
      snapshot, and Redis ends up the same. */
  lemma {:induction false} ChunkedEqualsSequential(db: Table, items: seq<Item>, picks: seq<Pick>, when: int,
                                                   fate: Id -> bool)
    requires forall j, k :: 0 <= j < k < |items| ==> items[j].id != items[k].id
    requires Completes(Chunks(items, CHUNK_SIZE), picks)
    requires Unmoved(db, Order(Chunks(items, CHUNK_SIZE), picks, fate), when)
    ensures var order := Order(Chunks(items, CHUNK_SIZE), picks, fate);
            && multiset(ItemsOf(order)) == multiset(items)
            && ReleaseAll(db, order) == ReleaseAll(db, Sequential(items, when, fate))
            && ReleaseAll(db, order).credited + ReleaseAll(db, order).dropped == SumTokens(items)
  {
    var order := Order(Chunks(items, CHUNK_SIZE), picks, fate);
    var plain := Sequential(items, when, fate);
    ChunksKeepItems(items, CHUNK_SIZE);
    OfferedOnce(Chunks(items, CHUNK_SIZE), picks, fate);
    OrderLabels(Chunks(items, CHUNK_SIZE), picks, fate);
    ItemsOfAt(plain);
    assert ItemsOf(plain) == items;
    PermutedStaysDistinct(items, order);
    SettledSequential(db, order, items, when, fate);
    forall key ensures Get(ReleaseAll(db, order).db, key) == Get(ReleaseAll(db, plain).db, key) {
      SameFinalKey(db, order, plain, when, fate, key);
    }
    SameKeysSameTable(ReleaseAll(db, order).db, ReleaseAll(db, plain).db);
    TotalsOfRelease(db, order, when, fate);
    TotalsOfRelease(db, plain, when, fate);
    SumIgnoresOrder(db, ItemsOf(order), items, when, fate, true);
    SumIgnoresOrder(db, ItemsOf(order), items, when, fate, false);
    LiveAndDeadAddUp(db, items, when, fate);
  }

  function SumTokens(items: seq<Item>): nat {
    if items == [] then 0 else SumTokens(items[..|items| - 1]) + items[|items| - 1].tokens
  }

  lemma {:induction false} LiveAndDeadAddUp(db: Table, items: seq<Item>, when: int, fate: Id -> bool)
    ensures SumOf(db, items, when, fate, true) + SumOf(db, items, when, fate, false) == SumTokens(items)
  {
    if items != [] {
      LiveAndDeadAddUp(db, items[..|items| - 1], when, fate);
    }
  }

  lemma PermutedStaysDistinct(items: seq<Item>, order: seq<Timed>)
    requires forall j, k :: 0 <= j < k < |items| ==> items[j].id != items[k].id
    requires multiset(ItemsOf(order)) == multiset(items)
    ensures Distinct(order)
  {
    ItemsOfAt(order);
    var permuted := ItemsOf(order);
    forall j, k | 0 <= j < k < |order| ensures order[j].item.id != order[k].item.id {
      if order[j].item.id == order[k].item.id {
        assert permuted[j] in multiset(items) && permuted[k] in multiset(items);
        var a :| 0 <= a < |items| && items[a] == permuted[j];
        var b :| 0 <= b < |items| && items[b] == permuted[k];
        assert a == b;
        AtMostOnce(items, a);
        TwiceInSequence(permuted, j, k);
        assert false;
      }
    }
  }

  lemma AtMostOnce(items: seq<Item>, a: nat)
    requires a < |items| && forall j, k :: 0 <= j < k < |items| ==> items[j].id != items[k].id
    ensures multiset(items)[items[a]] == 1
  {
    assert items == items[..a] + [items[a]] + items[a + 1..];
    assert items[a] !in items[..a] && items[a] !in items[a + 1..];
  }

  lemma TwiceInSequence(items: seq<Item>, j: nat, k: nat)
    requires j < k < |items| && items[j] == items[k]
    ensures multiset(items)[items[j]] >= 2
  {
    assert items == items[..j] + [items[j]] + items[j + 1..];
    assert items[j + 1..][k - j - 1] == items[j];
    assert items[j] in items[j + 1..];
  }

  lemma SettledSequential(db: Table, order: seq<Timed>, items: seq<Item>, when: int, fate: Id -> bool)
    requires Settled(db, order, when, fate) && multiset(ItemsOf(order)) == multiset(items)
    ensures Settled(db, Sequential(items, when, fate), when, fate)
  {
    ItemsOfAt(order);
    forall k | 0 <= k < |items| ensures items[k].window >= 0 {
      assert items[k] in multiset(ItemsOf(order));
      var j :| 0 <= j < |order| && ItemsOf(order)[j] == items[k];
      assert order[j].item == items[k];
    }
  }
}
