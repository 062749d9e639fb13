/** Rebuilding storage: copying live entries to a new table, and rehashing without a second table. */
module Rebuild {
  import opened Powers
  import opened Slots
  import opened Probing
  import opened Bags
  import opened Layout

  // ---------------------------------------------------------------- copying to new storage

  /** Freshly allocated, zeroed storage. */
  ghost function Empty<K, V>(k: Log2): (s: seq<Slot<K, V>>)
    ensures Sized(s, k)
  {
    seq(Pow2(k), _ => FreeSlot())
  }

  lemma EmptyCoherent<K, V>(k: Log2, hash: K -> HashNumber)
    ensures Coherent(Empty<K, V>(k), k, hash)
    ensures Bag(Empty<K, V>(k)) == multiset{} && Tombs(Empty<K, V>(k)) == 0
  {
    NoLive(Empty<K, V>(k));
    NoTombs(Empty<K, V>(k));
  }

  /** The live entries of the first `n` slots, in slot order. */
  ghost function LiveItems<K, V>(s: seq<Slot<K, V>>, n: nat): seq<Item<K, V>>
    requires n <= |s|
  {
    if n == 0 then [] else LiveItems(s, n - 1) + OneItem(s[n - 1])
  }

  ghost function OneItem<K, V>(x: Slot<K, V>): (r: seq<Item<K, V>>)
    ensures multiset(r) == One(x)
  {
    if x.IsLive() && x.WellFormed() then [x.Get()] else []
  }

  lemma {:induction false} LiveItemsBag<K, V>(s: seq<Slot<K, V>>, n: nat)
    requires n <= |s|
    ensures multiset(LiveItems(s, n)) == BagTo(s, n)
    decreases n
  {
    hide One, OneItem;
    if n > 0 {
      LiveItemsBag(s, n - 1);
    }
  }

  /** Inserting entries one after the other with `findFreeEntry`. */
  ghost function InsertAll<K, V>(s: seq<Slot<K, V>>, k: Log2, items: seq<Item<K, V>>): (t: seq<Slot<K, V>>)
    requires Sized(s, k)
    ensures Sized(t, k)
    decreases |items|
  {
    if items == [] then s
    else Insert(InsertAll(s, k, items[..|items| - 1]), k, items[|items| - 1])
  }

  lemma {:induction false} InsertAllKeeps<K, V>(s: seq<Slot<K, V>>, k: Log2, items: seq<Item<K, V>>,
                                                hash: K -> HashNumber)
    requires Coherent(s, k, hash) && Tombs(s) == 0
    requires forall it :: it in items ==> ItemOk(it, hash)
    requires |Bag(s)| + |items| <= |s|
    ensures Coherent(InsertAll(s, k, items), k, hash)
    ensures Bag(InsertAll(s, k, items)) == Bag(s) + multiset(items)
    ensures Tombs(InsertAll(s, k, items)) == 0
    decreases |items|
  {
    if items == [] {
    } else {
      var n := |items| - 1;
      assert items == items[..n] + [items[n]];
      InsertAllKeeps(s, k, items[..n], hash);
      InsertKeeps(InsertAll(s, k, items[..n]), k, items[n], hash);
    }
  }

  /** The storage that `changeTableSize` leaves: the live entries of `s`, in slot order, in a new table. */
  ghost function Copied<K, V>(s: seq<Slot<K, V>>, k: Log2): (t: seq<Slot<K, V>>)
    ensures Sized(t, k)
  {
    InsertAll(Empty(k), k, LiveItems(s, |s|))
  }

  lemma ItemsOk<K, V>(s: seq<Slot<K, V>>, hash: K -> HashNumber, items: seq<Item<K, V>>)
    requires SlotsOk(s, hash)
    requires multiset(items) <= Bag(s)
    ensures forall it :: it in items ==> ItemOk(it, hash)
  {
    forall it | it in items ensures ItemOk(it, hash) {
      assert it in multiset(items);
      var i := BagHasSlot(s, it);
      assert SlotOk(s[i], hash);
    }
  }

  /** Copying keeps exactly the entries, drops every tombstone, and re-establishes the invariant. */
  lemma CopiedCorrect<K, V>(s: seq<Slot<K, V>>, k: Log2, hash: K -> HashNumber)
    requires SlotsOk(s, hash)
    requires |Bag(s)| <= Pow2(k)
    ensures Coherent(Copied(s, k), k, hash)
    ensures Bag(Copied(s, k)) == Bag(s) && Tombs(Copied(s, k)) == 0
  {
    EmptyCoherent<K, V>(k, hash);
    var items := LiveItems(s, |s|);
    LiveItemsBag(s, |s|);
    assert |multiset(items)| == |items|;
    ItemsOk(s, hash, items);
    InsertAllKeeps(Empty(k), k, items, hash);
  }

  // ---------------------------------------------------------------- rehashing in place

  /** The number of slots whose collision bit is clear, among the first `n`. */
  ghost function ClearTo<K, V>(s: seq<Slot<K, V>>, n: nat): nat
    requires n <= |s|
  {
    if n == 0 then 0 else ClearTo(s, n - 1) + if s[n - 1].HasCollision() then 0 else 1
  }

  ghost function ClearCount<K, V>(s: seq<Slot<K, V>>): nat {
    ClearTo(s, |s|)
  }

  lemma {:induction false} ClearToUpdate<K, V>(s: seq<Slot<K, V>>, i: nat, x: Slot<K, V>, n: nat)
    requires i < |s| && n <= |s|
    ensures i >= n ==> ClearTo(s[i := x], n) == ClearTo(s, n)
    ensures i < n ==>
      ClearTo(s[i := x], n) + (if s[i].HasCollision() then 0 else 1)
        == ClearTo(s, n) + (if x.HasCollision() then 0 else 1)
    decreases n
  {
    if n > 0 {
      ClearToUpdate(s, i, x, n - 1);
    }
  }

  lemma ClearUpdate<K, V>(s: seq<Slot<K, V>>, i: nat, x: Slot<K, V>)
    requires i < |s|
    ensures ClearCount(s[i := x]) + (if s[i].HasCollision() then 0 else 1)
         == ClearCount(s) + (if x.HasCollision() then 0 else 1)
  {
    ClearToUpdate(s, i, x, |s|);
  }

  /** `unsetCollision` on every slot, which also turns tombstones into free slots. */
  ghost function Unmark<K, V>(s: seq<Slot<K, V>>): (t: seq<Slot<K, V>>)
    ensures |t| == |s| && forall i :: 0 <= i < |s| ==> t[i] == s[i].UnsetCollision()
  {
    seq(|s|, i requires 0 <= i < |s| => s[i].UnsetCollision())
  }

  /** The first step from `j` on whose slot holds no placed entry; the last step when there is none. */
  ghost function SeekClear<K, V>(s: seq<Slot<K, V>>, k: Log2, h: HashNumber, j: nat): (d: nat)
    requires Sized(s, k) && j < |s|
    ensures j <= d < |s|
    ensures forall e :: j <= e < d ==> s[Probe(k, h, e)].HasCollision()
    ensures d == |s| - 1 || !s[Probe(k, h, d)].HasCollision()
    decreases |s| - j
  {
    if j == |s| - 1 || !s[Probe(k, h, j)].HasCollision() then j else SeekClear(s, k, h, j + 1)
  }

  /** Where the entry at slot `i` goes: the first slot on its path not holding a placed entry. */
  ghost function PlaceTarget<K, V>(s: seq<Slot<K, V>>, k: Log2, i: nat): (m: nat)
    requires Sized(s, k) && i < |s|
    ensures m < |s|
  {
    Probe(k, s[i].KeyHash(), SeekClear(s, k, s[i].KeyHash(), 0))
  }

  lemma PlaceTargetFirst<K, V>(s: seq<Slot<K, V>>, k: Log2, i: nat)
    requires Sized(s, k) && i < |s| && !s[i].HasCollision()
    ensures var h, m := s[i].KeyHash(), PlaceTarget(s, k, i);
      !s[m].HasCollision() && PathMarked(s, k, h, m)
  {
    var h, m := s[i].KeyHash(), PlaceTarget(s, k, i);
    RankOfProbe(k, h, SeekClear(s, k, h, 0));
    assert Probe(k, h, Rank(k, h, i)) == i;
    forall e | 0 <= e < |s| && Rank(k, h, e) < Rank(k, h, m) ensures s[e].HasCollision() {
      assert Probe(k, h, Rank(k, h, e)) == e;
    }
  }

  /** One swap of the in-place rehash: the entry of slot `i` is placed and marked. */
  ghost function Place<K, V>(s: seq<Slot<K, V>>, k: Log2, i: nat): (t: seq<Slot<K, V>>)
    requires Sized(s, k) && i < |s|
    ensures Sized(t, k)
  {
    var m := PlaceTarget(s, k, i);
    s[i := s[m]][m := s[i].SetCollision()]
  }

  lemma PlaceProgress<K, V>(s: seq<Slot<K, V>>, k: Log2, i: nat)
    requires Sized(s, k) && i < |s| && !s[i].HasCollision()
    ensures ClearCount(Place(s, k, i)) == ClearCount(s) - 1
  {
    hide Probe, Rank, PlaceTarget, ClearCount;
    PlaceTargetFirst(s, k, i);
    var m := PlaceTarget(s, k, i);
    ClearUpdate(s, i, s[m]);
    ClearUpdate(s[i := s[m]], m, s[i].SetCollision());
  }

  /** The outer loop of the in-place rehash from slot `i` on. */
  ghost function RehashFrom<K, V>(s: seq<Slot<K, V>>, k: Log2, i: nat): (t: seq<Slot<K, V>>)
    requires Sized(s, k) && i <= |s|
    ensures Sized(t, k)
    decreases ClearCount(s), |s| - i
  {
    if i == |s| then s
    else if !s[i].IsLive() || s[i].HasCollision() then RehashFrom(s, k, i + 1)
    else
      PlaceProgress(s, k, i);
      RehashFrom(Place(s, k, i), k, i)
  }

  /** The order in which that loop places the entries not yet placed. */
  ghost function PlacementOrder<K, V>(s: seq<Slot<K, V>>, k: Log2, i: nat): seq<Item<K, V>>
    requires Sized(s, k) && i <= |s|
    decreases ClearCount(s), |s| - i
  {
    if i == |s| then []
    else if !s[i].IsLive() || s[i].HasCollision() then PlacementOrder(s, k, i + 1)
    else
      PlaceProgress(s, k, i);
      (if s[i].WellFormed() then [s[i].Get()] else []) + PlacementOrder(Place(s, k, i), k, i)
  }

  ghost function RehashedInPlace<K, V>(s: seq<Slot<K, V>>, k: Log2): (t: seq<Slot<K, V>>)
    requires Sized(s, k)
    ensures Sized(t, k)
  {
    RehashFrom(Unmark(s), k, 0)
  }

  /** Half-way through: marked slots hold placed entries, and placed entries are reachable. */
  ghost predicate Placing<K, V>(s: seq<Slot<K, V>>, k: Log2, hash: K -> HashNumber) {
    && Sized(s, k)
    && SlotsOk(s, hash)
    && (forall i :: 0 <= i < |s| && s[i].HasCollision() ==> s[i].IsLive() && PathMarked(s, k, s[i].KeyHash(), i))
  }

  lemma MarkedOne<K, V>(x: Slot<K, V>)
    requires x.IsLive()
    ensures One(x.SetCollision()) == One(x)
  {
    hide DropBit, WithBit;
  }

  lemma SwapBags<T>(a: multiset<T>, b: multiset<T>, c: multiset<T>, p: multiset<T>, q: multiset<T>)
    requires b + p == a + q && c + q == b + p
    ensures c == a
  {
    assert (c + q) - q == c && (a + q) - q == a;
  }

  lemma PlaceBag<K, V>(s: seq<Slot<K, V>>, k: Log2, i: nat)
    requires Sized(s, k) && i < |s| && s[i].IsLive()
    ensures Bag(Place(s, k, i)) == Bag(s)
  {
    hide Probe, Rank, PlaceTarget, Bag, One;
    var m := PlaceTarget(s, k, i);
    var x := s[i].SetCollision();
    MarkedOne(s[i]);
    var u := s[i := s[m]];
    BagUpdate(s, i, s[m]);
    BagUpdate(u, m, x);
    SwapBags(Bag(s), Bag(u), Bag(u[m := x]), One(s[i]), One(s[m]));
  }

  lemma PlaceKeeps<K, V>(s: seq<Slot<K, V>>, k: Log2, i: nat, hash: K -> HashNumber)
    requires Placing(s, k, hash) && i < |s| && s[i].IsLive() && !s[i].HasCollision()
    ensures Placing(Place(s, k, i), k, hash)
  {
    hide Probe, Rank, PlaceTarget, PrepareHash, DropBit, WithBit;
    PlaceTargetFirst(s, k, i);
    var m, t := PlaceTarget(s, k, i), Place(s, k, i);
    assert SlotOk(s[i], hash) && SlotOk(s[m], hash);
    assert t[m].KeyHash() == s[i].KeyHash() && SlotOk(t[m], hash);
    assert forall e :: 0 <= e < |s| && s[e].HasCollision() ==> t[e] == s[e];
    forall e | 0 <= e < |t| && t[e].HasCollision()
      ensures t[e].IsLive() && PathMarked(t, k, t[e].KeyHash(), e)
    {
      PathMarkedGrows(s, t, k, t[e].KeyHash(), e);
    }
  }

  /** Every slot below `i` is either not live or placed. */
  ghost predicate DoneBelow<K, V>(s: seq<Slot<K, V>>, i: nat) {
    forall e :: 0 <= e < i && e < |s| && s[e].IsLive() ==> s[e].HasCollision()
  }

  lemma PlaceDone<K, V>(s: seq<Slot<K, V>>, k: Log2, i: nat)
    requires Sized(s, k) && i < |s| && s[i].IsLive() && DoneBelow(s, i)
    ensures DoneBelow(Place(s, k, i), i)
  {
    hide Probe, Rank, PlaceTarget, DropBit, WithBit;
  }

  lemma {:induction false} RehashFromCorrect<K, V>(s: seq<Slot<K, V>>, k: Log2, i: nat, hash: K -> HashNumber)
    requires Placing(s, k, hash) && i <= |s| && DoneBelow(s, i)
    ensures Placing(RehashFrom(s, k, i), k, hash)
    ensures DoneBelow(RehashFrom(s, k, i), |s|)
    ensures Bag(RehashFrom(s, k, i)) == Bag(s)
    decreases ClearCount(s), |s| - i
  {
    hide Probe, Rank, Place, PathMarked, Bag, ClearCount;
    if i == |s| {
    } else if !s[i].IsLive() || s[i].HasCollision() {
      RehashFromCorrect(s, k, i + 1, hash);
    } else {
      PlaceProgress(s, k, i);
      PlaceKeeps(s, k, i, hash);
      PlaceBag(s, k, i);
      PlaceDone(s, k, i);
      RehashFromCorrect(Place(s, k, i), k, i, hash);
    }
  }

  lemma UnmarkKeeps<K, V>(s: seq<Slot<K, V>>, k: Log2, hash: K -> HashNumber)
    requires Sized(s, k) && SlotsOk(s, hash)
    ensures Placing(Unmark(s), k, hash) && Bag(Unmark(s)) == Bag(s)
  {
    var t := Unmark(s);
    forall i | 0 <= i < |s|
      ensures SlotOk(t[i], hash) && One(t[i]) == One(s[i]) && !t[i].HasCollision()
    {
      assert SlotOk(s[i], hash);
    }
    BagPointwise(s, t);
  }

  /**
   * Rehashing in place keeps exactly the entries, leaves no tombstone, and makes
   * every entry reachable again, whatever the paths looked like before.
   */
  lemma RehashedInPlaceCorrect<K, V>(s: seq<Slot<K, V>>, k: Log2, hash: K -> HashNumber)
    requires Sized(s, k) && SlotsOk(s, hash)
    ensures Coherent(RehashedInPlace(s, k), k, hash)
    ensures Bag(RehashedInPlace(s, k)) == Bag(s)
    ensures Tombs(RehashedInPlace(s, k)) == 0
  {
    UnmarkKeeps(s, k, hash);
    RehashFromCorrect(Unmark(s), k, 0, hash);
    NoTombs(RehashedInPlace(s, k));
  }

  // ---------------------------------------------------------------- the in-place layout as insertions

  /** The placed entries of `s` are the entries of `u`, in the same slots. */
  ghost predicate SamePlaces<K, V>(s: seq<Slot<K, V>>, u: seq<Slot<K, V>>) {
    && |s| == |u|
    && forall i :: 0 <= i < |s| ==>
      && !u[i].IsRemoved()
      && (s[i].HasCollision() <==> u[i].IsLive())
      && (s[i].HasCollision() ==> s[i].KeyHash() == u[i].KeyHash() && s[i].mem == u[i].mem)
  }

  /** Placing an entry in `s` and inserting it in `u` choose the same slot. */
  lemma SameTarget<K, V>(s: seq<Slot<K, V>>, u: seq<Slot<K, V>>, k: Log2, i: nat)
    requires Sized(s, k) && SamePlaces(s, u) && i < |s| && !s[i].HasCollision()
    ensures PlaceTarget(s, k, i) == FreeEntry(u, k, s[i].KeyHash())
  {
    var h := s[i].KeyHash();
    PlaceTargetFirst(s, k, i);
    assert !u[i].IsLive();
    FreeEntryFirst(u, k, h);
    var m, e := PlaceTarget(s, k, i), FreeEntry(u, k, h);
    assert Rank(k, h, m) == Rank(k, h, e);
  }

  lemma PlaceLikeInsert<K, V>(s: seq<Slot<K, V>>, u: seq<Slot<K, V>>, k: Log2, i: nat, hash: K -> HashNumber)
    requires Placing(s, k, hash) && SamePlaces(s, u)
    requires i < |s| && s[i].IsLive() && !s[i].HasCollision()
    ensures s[i].WellFormed() && !u[i].IsLive()
    ensures SamePlaces(Place(s, k, i), Insert(u, k, s[i].Get()))
  {
    hide Probe, Rank, Seek, PlaceTarget, FreeEntry, PrepareHash, Fill, DropBit, WithBit;
    assert SlotOk(s[i], hash);
    SameTarget(s, u, k, i);
    PlaceTargetFirst(s, k, i);
    var it, m := s[i].Get(), PlaceTarget(s, k, i);
    assert !u[i].IsLive();
    FreeEntryFirst(u, k, it.stem);
    FillFacts(u[m], it);
    var t, v, w := Place(s, k, i), Insert(u, k, it), MarkTo(u, k, it.stem, Seek(u, k, it.stem, 0));
    forall e | 0 <= e < |u| && e != m
      ensures v[e].IsLive() == u[e].IsLive() && v[e].KeyHash() == u[e].KeyHash()
      ensures v[e].mem == u[e].mem && v[e].IsRemoved() == u[e].IsRemoved()
    {
      assert v[e] == w[e];
    }
  }

  /** At most `n` entries, each with its key's prepared hash. */
  ghost predicate ItemsFit<K, V>(items: seq<Item<K, V>>, n: nat, hash: K -> HashNumber) {
    |items| <= n && forall it :: it in items ==> ItemOk(it, hash)
  }

  lemma PlaceExtends<K, V>(s: seq<Slot<K, V>>, k: Log2, i: nat, done: seq<Item<K, V>>, hash: K -> HashNumber)
    requires Placing(s, k, hash) && i < |s| && s[i].IsLive() && !s[i].HasCollision()
    requires SamePlaces(s, InsertAll(Empty(k), k, done))
    requires ItemsFit(done, |s|, hash)
    ensures s[i].WellFormed() && ItemsFit(done + [s[i].Get()], |s|, hash)
    ensures SamePlaces(Place(s, k, i), InsertAll(Empty(k), k, done + [s[i].Get()]))
  {
    hide Probe, Rank, Place, PathMarked, Bag, ClearCount, Insert, SamePlaces, PrepareHash;
    var u := InsertAll(Empty(k), k, done);
    PlaceLikeInsert(s, u, k, i, hash);
    EmptyCoherent<K, V>(k, hash);
    InsertAllKeeps(Empty(k), k, done, hash);
    HoleMeansRoom(u, i);
    assert |multiset(done)| == |done|;
    assert SlotOk(s[i], hash);
    var next := done + [s[i].Get()];
    assert next[..|next| - 1] == done;
  }

  /** From slot `i` on, the loop extends the layout of inserting `done` by inserting the rest in placement order. */
  lemma {:induction false} RehashFromInserts<K, V>(s: seq<Slot<K, V>>, k: Log2, i: nat, done: seq<Item<K, V>>,
                                                   hash: K -> HashNumber)
    requires Placing(s, k, hash) && i <= |s|
    requires SamePlaces(s, InsertAll(Empty(k), k, done))
    requires ItemsFit(done, |s|, hash)
    ensures SamePlaces(RehashFrom(s, k, i), InsertAll(Empty(k), k, done + PlacementOrder(s, k, i)))
    ensures ItemsFit(done + PlacementOrder(s, k, i), |s|, hash)
    decreases ClearCount(s), |s| - i
  {
    hide Probe, Rank, Place, PathMarked, Bag, ClearCount, InsertAll, SamePlaces, ItemsFit;
    if i == |s| {
      assert done + [] == done;
    } else if !s[i].IsLive() || s[i].HasCollision() {
      RehashFromInserts(s, k, i + 1, done, hash);
    } else {
      PlaceProgress(s, k, i);
      PlaceKeeps(s, k, i, hash);
      PlaceExtends(s, k, i, done, hash);
      var next := done + [s[i].Get()];
      RehashFromInserts(Place(s, k, i), k, i, next, hash);
      assert next + PlacementOrder(Place(s, k, i), k, i) == done + PlacementOrder(s, k, i);
    }
  }

  lemma NothingPlaced<K, V>(s: seq<Slot<K, V>>, k: Log2)
    requires Sized(s, k)
    ensures SamePlaces(Unmark(s), InsertAll(Empty(k), k, []))
  {
  }

  /**
   * Collision bits aside, the in-place result is the layout of inserting all the entries, one
   * at a time, into an empty table; the loop's own placing order is such an order.
   */
  lemma InPlaceIsAnInsertionOrder<K, V>(s: seq<Slot<K, V>>, k: Log2, hash: K -> HashNumber)
    requires Sized(s, k) && SlotsOk(s, hash)
    ensures exists order: seq<Item<K, V>> ::
      && multiset(order) == Bag(s)
      && Unmark(RehashedInPlace(s, k)) == Unmark(InsertAll(Empty(k), k, order))
  {
    hide Probe, Rank, RehashFrom, PlacementOrder, Bag, Tombs, InsertAll;
    var s0 := Unmark(s);
    var order := PlacementOrder(s0, k, 0);
    UnmarkKeeps(s, k, hash);
    NothingPlaced(s, k);
    RehashFromInserts(s0, k, 0, [], hash);
    assert [] + order == order;
    RehashFromCorrect(s0, k, 0, hash);
    var t, u := RehashedInPlace(s, k), InsertAll(Empty(k), k, order);
    EmptyCoherent<K, V>(k, hash);
    InsertAllKeeps(Empty(k), k, order, hash);
    forall i | 0 <= i < |t|
      ensures t[i].UnsetCollision() == u[i].UnsetCollision() && One(t[i]) == One(u[i])
    {
      assert SlotOk(t[i], hash) && SlotOk(u[i], hash);
    }
    BagPointwise(t, u);
    assert Unmark(t) == Unmark(u);
  }
}
