/** One-iteration facts for the table's probing and rebuilding loops. */
module LoopSteps {
  import opened Powers
  import opened Slots
  import opened Probing
  import opened Bags
  import opened Layout
  import opened Rebuild

  // ---------------------------------------------------------------- searching

  /** The marks a search leaves on its first `d` slots: `lookup` passes bit 0, `lookupForAdd` the collision bit. */
  ghost function MarkIf<K, V>(s: seq<Slot<K, V>>, k: Log2, h: HashNumber, d: nat, bit: nat): (t: seq<Slot<K, V>>)
    requires Sized(s, k)
    ensures Sized(t, k)
  {
    if bit == 0 then s else MarkTo(s, k, h, d)
  }

  lemma MarkIfStep<K, V>(s: seq<Slot<K, V>>, k: Log2, h: HashNumber, j: nat, bit: nat)
    requires Sized(s, k) && j < |s|
    ensures MarkIf(s, k, h, 0, bit) == s
    ensures var i, t := Probe(k, h, j), MarkIf(s, k, h, j, bit);
      && t[i] == s[i]
      && MarkIf(s, k, h, j + 1, bit) == t[i := s[i].OrCollision(bit)]
      && (s[i].IsRemoved() ==> MarkIf(s, k, h, j + 1, bit) == t)
  {
    hide Probe, Rank, DropBit, WithBit;
    MarkStep(s, k, h, j);
    MarkNone(s, k, h);
    assert s[Probe(k, h, j)].IsRemoved() ==> s[Probe(k, h, j)].SetCollision() == s[Probe(k, h, j)] by {
      RemovedMarked(s[Probe(k, h, j)]);
    }
  }

  lemma RemovedMarked<K, V>(x: Slot<K, V>)
    ensures x.IsRemoved() ==> x.SetCollision() == x
  {
  }

  /** The state of `lookup` after `j` collisions: the slot it looks at, the first tombstone it saw, the storage. */
  ghost predicate Searching<K, V>(s: seq<Slot<K, V>>, k: Log2, h: HashNumber, key: K, bit: nat,
                                  j: nat, entry: nat, firstRemoved: Option<nat>, t: seq<Slot<K, V>>)
    requires Sized(s, k)
  {
    && j < |s| && entry == Probe(k, h, j)
    && Stop(s, k, h, key, j) == Stop(s, k, h, key, 0)
    && !s[entry].IsFree() && !Hits(s[entry], h, key)
    && t == MarkIf(s, k, h, j, bit)
    && var d := Stop(s, k, h, key, 0);
    && (firstRemoved.None? ==> FirstRemoved(s, k, h, 0, d) == FirstRemoved(s, k, h, j, d))
    && (firstRemoved.Some? ==> firstRemoved.value == Probe(k, h, FirstRemoved(s, k, h, 0, d)))
  }

  /** What `lookup` leaves and returns when it stops at slot `entry`. */
  ghost predicate SearchDone<K, V>(s: seq<Slot<K, V>>, k: Log2, h: HashNumber, key: K, bit: nat,
                                   entry: nat, firstRemoved: Option<nat>, t: seq<Slot<K, V>>)
    requires Sized(s, k) && entry < |s|
  {
    && t == MarkIf(s, k, h, Stop(s, k, h, key, 0), bit)
    && Target(s, k, h, key) ==
         if s[entry].IsFree() && firstRemoved.Some? then firstRemoved.value else entry
  }

  lemma FreeNoHit<K, V>(x: Slot<K, V>, h: HashNumber, key: K)
    requires IsStem(h)
    ensures !(x.IsFree() && Hits(x, h, key))
  {
  }

  lemma SearchStart<K, V>(s: seq<Slot<K, V>>, k: Log2, h: HashNumber, key: K, bit: nat)
    requires Sized(s, k) && IsStem(h)
    ensures var entry := Probe(k, h, 0);
      if s[entry].IsFree() || Hits(s[entry], h, key) then SearchDone(s, k, h, key, bit, entry, None, s)
      else Searching(s, k, h, key, bit, 0, entry, None, s)
  {
    hide Probe, Rank, Hits, MarkIf;
    MarkIfStep(s, k, h, 0, bit);
    FreeNoHit(s[Probe(k, h, 0)], h, key);
    var d := Stop(s, k, h, key, 0);
    FirstRemovedEnd(s, k, h, d);
  }

  lemma FirstRemovedEnd<K, V>(s: seq<Slot<K, V>>, k: Log2, h: HashNumber, d: nat)
    requires Sized(s, k) && d < |s|
    ensures FirstRemoved(s, k, h, d, d) == d
  {
    hide Probe;
  }

  lemma StopLater<K, V>(s: seq<Slot<K, V>>, k: Log2, h: HashNumber, key: K, j: nat)
    requires Sized(s, k) && (exists f :: 0 <= f < |s| && s[f].IsFree())
    requires j < |s| && Stop(s, k, h, key, j) == Stop(s, k, h, key, 0)
    requires !s[Probe(k, h, j)].IsFree() && !Hits(s[Probe(k, h, j)], h, key)
    ensures j + 1 < |s| && Stop(s, k, h, key, j + 1) == Stop(s, k, h, key, 0)
    ensures s[Probe(k, h, j + 1)].IsFree() || Hits(s[Probe(k, h, j + 1)], h, key) ==> Stop(s, k, h, key, 0) == j + 1
  {
    hide Probe, Rank, Hits;
    StopFirst(s, k, h, key);
  }

  lemma FirstRemovedStep<K, V>(s: seq<Slot<K, V>>, k: Log2, h: HashNumber, j: nat, d: nat)
    requires Sized(s, k) && j < d < |s|
    ensures FirstRemoved(s, k, h, j, d) == if s[Probe(k, h, j)].IsRemoved() then j else FirstRemoved(s, k, h, j + 1, d)
  {
    hide Probe;
  }

  /** The storage after one turn: the slot passed is marked unless it is a tombstone, and the next one is as before. */
  lemma SearchStepMarks<K, V>(s: seq<Slot<K, V>>, k: Log2, h: HashNumber, bit: nat, j: nat)
    requires Sized(s, k) && j + 1 < |s|
    ensures var i, i', t := Probe(k, h, j), Probe(k, h, j + 1), MarkIf(s, k, h, j, bit);
      && t[i] == s[i]
      && MarkIf(s, k, h, j + 1, bit) == (if s[i].IsRemoved() then t else t[i := t[i].OrCollision(bit)])
      && MarkIf(s, k, h, j + 1, bit)[i'] == s[i']
  {
    hide Probe, Rank, MarkIf, DropBit, WithBit, IsLiveHash;
    MarkIfStep(s, k, h, j, bit);
    MarkIfStep(s, k, h, j + 1, bit);
  }

  /** One turn of the search loop: mark or remember the slot passed, and look at the next one. */
  lemma SearchStep<K, V>(s: seq<Slot<K, V>>, k: Log2, h: HashNumber, key: K, bit: nat,
                         j: nat, entry: nat, firstRemoved: Option<nat>, t: seq<Slot<K, V>>)
    requires Sized(s, k) && IsStem(h) && (exists f :: 0 <= f < |s| && s[f].IsFree())
    requires Searching(s, k, h, key, bit, j, entry, firstRemoved, t)
    ensures j + 1 < |s| && entry < |t| == |s| && t[entry] == s[entry]
    ensures var removed := s[entry].IsRemoved();
      var firstRemoved' := if removed && firstRemoved.None? then Some(entry) else firstRemoved;
      var t' := if removed then t else t[entry := t[entry].OrCollision(bit)];
      var entry' := Probe(k, h, j + 1);
      && entry' < |t'| && t'[entry'] == s[entry']
      && if s[entry'].IsFree() || Hits(s[entry'], h, key)
         then SearchDone(s, k, h, key, bit, entry', firstRemoved', t')
         else Searching(s, k, h, key, bit, j + 1, entry', firstRemoved', t')
  {
    hide Probe, Rank, Hits, MarkIf, Stop, FirstRemoved, DropBit, WithBit, IsLiveHash;
    var d := Stop(s, k, h, key, 0);
    StopLater(s, k, h, key, j);
    FreeNoHit(s[Probe(k, h, j + 1)], h, key);
    SearchStepMarks(s, k, h, bit, j);
    FirstRemovedStep(s, k, h, j, d);
    FirstRemovedEnd(s, k, h, d);
  }

  // ---------------------------------------------------------------- inserting

  /** The state of `findFreeEntry` after `j` collisions. */
  ghost predicate Seeking<K, V>(s: seq<Slot<K, V>>, k: Log2, h: HashNumber, j: nat, entry: nat, t: seq<Slot<K, V>>)
    requires Sized(s, k)
  {
    && j < |s| && entry == Probe(k, h, j)
    && Seek(s, k, h, j) == Seek(s, k, h, 0)
    && t == MarkTo(s, k, h, j) && t[entry] == s[entry]
  }

  lemma SeekStart<K, V>(s: seq<Slot<K, V>>, k: Log2, h: HashNumber)
    requires Sized(s, k)
    ensures Seeking(s, k, h, 0, Probe(k, h, 0), s)
  {
    hide Probe, Rank;
    MarkNone(s, k, h);
  }

  lemma SeekDone<K, V>(s: seq<Slot<K, V>>, k: Log2, h: HashNumber, j: nat, entry: nat, t: seq<Slot<K, V>>)
    requires Sized(s, k) && Seeking(s, k, h, j, entry, t) && !t[entry].IsLive()
    ensures FreeEntry(s, k, h) == entry && t == MarkTo(s, k, h, Seek(s, k, h, 0))
  {
    hide Probe, Rank;
  }

  /** One turn of `findFreeEntry`: mark the live slot passed, and look at the next one. */
  lemma SeekStep<K, V>(s: seq<Slot<K, V>>, k: Log2, h: HashNumber, j: nat, entry: nat, t: seq<Slot<K, V>>)
    requires Sized(s, k) && (exists f :: 0 <= f < |s| && !s[f].IsLive())
    requires Seeking(s, k, h, j, entry, t) && t[entry].IsLive()
    ensures j + 1 < |s| && entry < |t| == |s|
    ensures Seeking(s, k, h, j + 1, Probe(k, h, j + 1), t[entry := t[entry].SetCollision()])
  {
    hide Probe, Rank, MarkTo;
    FreeEntryFirst(s, k, h);
    MarkStep(s, k, h, j);
    MarkStep(s, k, h, j + 1);
  }

  // ---------------------------------------------------------------- copying

  /** The new table when the first `n` old slots have been copied. */
  ghost function CopiedTo<K, V>(s: seq<Slot<K, V>>, k: Log2, n: nat): (t: seq<Slot<K, V>>)
    requires n <= |s|
    ensures Sized(t, k)
  {
    InsertAll(Empty(k), k, LiveItems(s, n))
  }

  lemma {:induction false} BagToGrows<K, V>(s: seq<Slot<K, V>>, n: nat, m: nat)
    requires n <= m <= |s|
    ensures BagTo(s, n) <= BagTo(s, m)
    decreases m
  {
    hide One;
    if n < m {
      BagToGrows(s, n, m - 1);
    }
  }

  lemma CardinalityGrows<T>(a: multiset<T>, b: multiset<T>)
    requires a <= b
    ensures |a| <= |b|
  {
    assert b == a + (b - a);
  }

  lemma PrefixItems<K, V>(s: seq<Slot<K, V>>, k: Log2, n: nat, hash: K -> HashNumber)
    requires SlotsOk(s, hash) && n <= |s| && |Bag(s)| <= Pow2(k)
    ensures Coherent(CopiedTo(s, k, n), k, hash)
    ensures Bag(CopiedTo(s, k, n)) == BagTo(s, n) && Tombs(CopiedTo(s, k, n)) == 0
  {
    hide InsertAll, LiveItems, Empty, PrepareHash, Probe, Rank;
    var items := LiveItems(s, n);
    EmptyCoherent<K, V>(k, hash);
    LiveItemsBag(s, n);
    BagToGrows(s, n, |s|);
    CardinalityGrows(BagTo(s, n), Bag(s));
    assert |multiset(items)| == |items|;
    ItemsOk(s, hash, items);
    InsertAllKeeps(Empty(k), k, items, hash);
  }

  lemma CopyNone<K, V>(s: seq<Slot<K, V>>, k: Log2)
    ensures CopiedTo(s, k, 0) == Empty(k)
  {
  }

  lemma CopyAll<K, V>(s: seq<Slot<K, V>>, k: Log2)
    ensures CopiedTo(s, k, |s|) == Copied(s, k)
  {
  }

  /** The new table always has room for the next live entry, and no tombstone to recycle. */
  lemma CopyRoom<K, V>(s: seq<Slot<K, V>>, k: Log2, n: nat, hash: K -> HashNumber)
    requires SlotsOk(s, hash) && n < |s| && s[n].IsLive() && |Bag(s)| <= Pow2(k)
    ensures exists f :: 0 <= f < Pow2(k) && !CopiedTo(s, k, n)[f].IsLive()
    ensures forall f :: 0 <= f < Pow2(k) ==> !CopiedTo(s, k, n)[f].IsRemoved()
  {
    hide CopiedTo, PathsOk, PrepareHash, Tombs, DropBit;
    assert SlotOk(s[n], hash);
    var t := CopiedTo(s, k, n);
    PrefixItems(s, k, n, hash);
    BagToGrows(s, n + 1, |s|);
    CardinalityGrows(BagTo(s, n + 1), Bag(s));
    OneSize(s[n]);
    assert forall i :: 0 <= i < |t| ==> SlotOk(t[i], hash);
    RoomLeft(t);
    NoTombs(t);
  }

  lemma CopyInsert<K, V>(s: seq<Slot<K, V>>, k: Log2, n: nat)
    requires n < |s|
    ensures !s[n].IsLive() ==> CopiedTo(s, k, n + 1) == CopiedTo(s, k, n)
    ensures s[n].IsLive() && s[n].WellFormed() ==> CopiedTo(s, k, n + 1) == Insert(CopiedTo(s, k, n), k, s[n].Get())
  {
    hide Insert, Empty, DropBit;
    var items := LiveItems(s, n + 1);
    if s[n].IsLive() && s[n].WellFormed() {
      assert items == LiveItems(s, n) + [s[n].Get()];
      assert items[..|items| - 1] == LiveItems(s, n);
    } else {
      assert items == LiveItems(s, n);
    }
  }

  lemma CopySkip<K, V>(s: seq<Slot<K, V>>, k: Log2, n: nat)
    requires n < |s| && !s[n].IsLive()
    ensures CopiedTo(s, k, n + 1) == CopiedTo(s, k, n)
  {
    hide CopiedTo, Insert;
    CopyInsert(s, k, n);
  }

  /** `findFreeEntry` and then `setLive` with the word `h`. */
  ghost function SetAtFree<K, V>(t: seq<Slot<K, V>>, k: Log2, h: HashNumber, key: K, value: V): (u: seq<Slot<K, V>>)
    requires Sized(t, k)
    ensures Sized(u, k)
  {
    MarkTo(t, k, h, Seek(t, k, h, 0))[FreeEntry(t, k, h) := LiveSlot(h, key, value)]
  }

  lemma InsertOverFree<K, V>(t: seq<Slot<K, V>>, k: Log2, it: Item<K, V>)
    requires Sized(t, k) && !t[FreeEntry(t, k, it.stem)].IsRemoved()
    ensures Insert(t, k, it) == SetAtFree(t, k, it.stem, it.key, it.value)
  {
    hide MarkTo, Seek, FreeEntry;
  }

  lemma CopyStep<K, V>(s: seq<Slot<K, V>>, k: Log2, n: nat, hash: K -> HashNumber)
    requires SlotsOk(s, hash) && n < |s| && s[n].IsLive() && |Bag(s)| <= Pow2(k)
    ensures s[n].mem.Some?
    ensures exists f :: 0 <= f < Pow2(k) && !CopiedTo(s, k, n)[f].IsLive()
    ensures CopiedTo(s, k, n + 1)
         == SetAtFree(CopiedTo(s, k, n), k, s[n].KeyHash(), s[n].mem.value.0, s[n].mem.value.1)
  {
    hide CopiedTo, SetAtFree, FreeEntry, Insert, Bag, PrepareHash, DropBit;
    assert SlotOk(s[n], hash);
    CopyRoom(s, k, n, hash);
    CopyInsert(s, k, n);
    InsertOverFree(CopiedTo(s, k, n), k, s[n].Get());
  }

  // ---------------------------------------------------------------- rehashing in place

  /** The state of the inner loop of the in-place rehash, looking for the place of the entry at slot `i`. */
  ghost predicate Clearing<K, V>(s: seq<Slot<K, V>>, k: Log2, i: nat, j: nat, target: nat)
    requires Sized(s, k)
  {
    && i < |s| && !s[i].HasCollision()
    && j < |s| && target == Probe(k, s[i].KeyHash(), j)
    && SeekClear(s, k, s[i].KeyHash(), j) == SeekClear(s, k, s[i].KeyHash(), 0)
  }

  lemma ClearStep<K, V>(s: seq<Slot<K, V>>, k: Log2, i: nat, j: nat, target: nat)
    requires Sized(s, k) && Clearing(s, k, i, j, target)
    ensures if s[target].HasCollision()
            then j + 1 < |s| && Clearing(s, k, i, j + 1, Probe(k, s[i].KeyHash(), j + 1))
            else PlaceTarget(s, k, i) == target
  {
    hide Probe, Rank, DropBit;
    PlaceTargetFirst(s, k, i);
  }

  /** The first `n` slots unmarked, the others as they were. */
  ghost predicate UnmarkedTo<K, V>(s: seq<Slot<K, V>>, t: seq<Slot<K, V>>, n: nat) {
    && |s| == |t| && n <= |s|
    && (forall i :: 0 <= i < n ==> t[i] == s[i].UnsetCollision())
    && (forall i :: n <= i < |s| ==> t[i] == s[i])
  }

  lemma UnmarkedAll<K, V>(s: seq<Slot<K, V>>, t: seq<Slot<K, V>>)
    requires UnmarkedTo(s, t, |s|)
    ensures t == Unmark(s)
  {
    hide DropBit;
  }

  lemma RehashFromStep<K, V>(s: seq<Slot<K, V>>, k: Log2, i: nat)
    requires Sized(s, k) && i < |s|
    ensures if !s[i].IsLive() || s[i].HasCollision() then RehashFrom(s, k, i) == RehashFrom(s, k, i + 1)
            else RehashFrom(s, k, i) == RehashFrom(Place(s, k, i), k, i) && ClearCount(Place(s, k, i)) < ClearCount(s)
    ensures RehashFrom(s, k, |s|) == s
  {
    hide Probe, Rank, Place, ClearCount, DropBit;
    if s[i].IsLive() && !s[i].HasCollision() {
      PlaceProgress(s, k, i);
    }
  }
}
