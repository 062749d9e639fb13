/**
 * Which pointers outlive a rekey. Rekeying can rehash in place without a new generation, and then
 * entries may move although `generation()` is the same.
 */
module Rekeying {
  import opened Powers
  import opened Slots
  import opened Probing
  import opened Bags
  import opened Layout
  import opened Rebuild
  import opened InPlace
  import opened TableState
  import opened Operations
  import opened MapOperations
  import opened Staying

  // ---------------------------------------------------------------- the table after a rekey, told beforehand

  /** Where the rekeyed entry goes: the first slot of its new path that is free, a tombstone, or the one it leaves. */
  ghost function NewHome<K, V>(t: Table<K, V>, i: nat, h: HashNumber): (f: nat)
    requires Sane(t) && i < |t.slots|
    ensures f < |t.slots|
  {
    FreeEntry(t.slots[i := FreeSlot()], t.log2, h)
  }

  /** The number of tombstones after the entry at `i` has gone to `f`. */
  ghost function TombsAfter<K, V>(t: Table<K, V>, i: nat, f: nat): int
    requires i < |t.slots| && f < |t.slots|
  {
    if f == i then t.removedCount
    else t.removedCount + (if t.slots[i].HasCollision() then 1 else 0) - if t.slots[f].IsRemoved() then 1 else 0
  }

  /** The rekeyed table will be at least three quarters full. */
  ghost predicate FullAfter<K, V>(t: Table<K, V>, i: nat, key: K, hash: K -> HashNumber)
    requires Sane(t) && i < |t.slots|
  {
    4 * (t.entryCount + TombsAfter(t, i, NewHome(t, i, Stem(hash, key)))) >= 3 * Capacity(t)
  }

  /** It will be, and there is no second table to be had. */
  ghost predicate RehashesInPlace<K, V>(t: Table<K, V>, i: nat, key: K, alloc: bool, hash: K -> HashNumber)
    requires Sane(t) && i < |t.slots|
  {
    && FullAfter(t, i, key, hash)
    && (!alloc || (Capacity(t) == MAX_CAPACITY
                   && 4 * TombsAfter(t, i, NewHome(t, i, Stem(hash, key))) < Capacity(t)))
  }

  /** The capacity if the rekeyed table is rebuilt: doubled unless a quarter of the slots will be tombstones. */
  ghost function RebuiltCapacity<K, V>(t: Table<K, V>, i: nat, key: K, hash: K -> HashNumber): nat
    requires Sane(t) && i < |t.slots|
  {
    if 4 * TombsAfter(t, i, NewHome(t, i, Stem(hash, key))) >= Capacity(t) then Capacity(t) else 2 * Capacity(t)
  }

  /** The entries will be settled once the entry at `i` is at its new home. */
  ghost predicate SettledAfter<K, V>(t: Table<K, V>, i: nat, key: K, hash: K -> HashNumber)
    requires Sane(t) && i < |t.slots| && t.slots[i].mem.Some?
  {
    var h := Stem(hash, key);
    Settled(t.slots[i := FreeSlot()][NewHome(t, i, h) := LiveSlot(h, key, t.slots[i].mem.value.1)], t.log2)
  }

  /** A rekey after which every other entry is where it was, if the generation is. */
  ghost predicate Quiet<K, V>(t: Table<K, V>, i: nat, key: K, alloc: bool, hash: K -> HashNumber)
    requires Sane(t) && i < |t.slots| && t.slots[i].mem.Some?
  {
    !RehashesInPlace(t, i, key, alloc, hash) || SettledAfter(t, i, key, hash)
  }

  // ---------------------------------------------------------------- the table after a rekey

  /** `t1` is `t` with the entry at `i` moved to `f` under another key. */
  ghost predicate MovedOne<K, V>(t: Table<K, V>, i: nat, t1: Table<K, V>, f: nat, x: Slot<K, V>)
    requires i < |t.slots|
  {
    && t1.log2 == t.log2 && t1.gen == t.gen && t1.entryCount == t.entryCount && |t1.slots| == |t.slots|
    && f < |t.slots| && t1.removedCount == TombsAfter(t, i, f)
    && x.IsLive() && SameEntry(x, t1.slots[f])
    && forall e :: 0 <= e < |t.slots| && e != f ==>
      && (t1.slots[e].IsLive() <==> e != i && t.slots[e].IsLive())
      && (t1.slots[e].IsLive() ==> SameEntry(t.slots[e], t1.slots[e]))
  }

  lemma {:induction false} SeekSame<K, V>(s: seq<Slot<K, V>>, u: seq<Slot<K, V>>, k: Log2, h: HashNumber, j: nat)
    requires Sized(s, k) && Sized(u, k) && j < |s|
    requires forall i :: 0 <= i < |s| ==> s[i].IsLive() == u[i].IsLive()
    ensures Seek(s, k, h, j) == Seek(u, k, h, j)
    decreases |s| - j
  {
    hide Probe, IsLiveHash;
    if j < |s| - 1 && s[Probe(k, h, j)].IsLive() {
      SeekSame(s, u, k, h, j + 1);
    }
  }

  /** Taking the entry out leaves a hole either way, so its new home can be told beforehand. */
  lemma HomeAfterRemoval<K, V>(t: Table<K, V>, i: nat, h: HashNumber)
    requires Sane(t) && i < |t.slots|
    ensures FreeEntry(RemoveAt(t.slots, i), t.log2, h) == NewHome(t, i, h)
    ensures !RemoveAt(t.slots, i)[NewHome(t, i, h)].IsLive()
    ensures forall m :: 0 <= m < |t.slots| && Rank(t.log2, h, m) < Rank(t.log2, h, NewHome(t, i, h)) ==>
      m != i && t.slots[m].IsLive()
  {
    hide Probe, Rank;
    var s, u := RemoveAt(t.slots, i), t.slots[i := FreeSlot()];
    assert !s[i].IsLive();
    SeekSame(s, u, t.log2, h, 0);
    FreeEntryFirst(s, t.log2, h);
  }

  lemma FillMoves<K, V>(t: Table<K, V>, i: nat, s: seq<Slot<K, V>>, d: nat, it: Item<K, V>)
    requires Sane(t) && i < |t.slots| && t.entryCount > 0 && t.slots[i].IsLive() && IsStem(it.stem)
    requires s == RemoveAt(t.slots, i)
    requires var f := FreeEntry(s, t.log2, it.stem);
      !s[f].IsLive() && MarkTo(s, t.log2, it.stem, d)[f] == s[f]
    requires t.removedCount > 0 || !t.slots[FreeEntry(s, t.log2, it.stem)].IsRemoved()
    ensures var f := FreeEntry(s, t.log2, it.stem);
      MovedOne(t, i, FillEntry(RemoveEntry(t, i).(slots := MarkTo(s, t.log2, it.stem, d)), f, it), f,
               LiveSlot(it.stem, it.key, it.value))
  {
    hide Probe, Rank, FreeEntry, DropBit, WithBit;
    var f := FreeEntry(s, t.log2, it.stem);
    FillFacts(s[f], it);
    StemDrop(it.stem);
    MarkSame(s, t.log2, it.stem, d);
  }

  lemma StemDrop(h: HashNumber)
    requires IsStem(h)
    ensures DropBit(h) == h && IsLiveHash(h)
  {
  }

  lemma MarkSame<K, V>(s: seq<Slot<K, V>>, k: Log2, h: HashNumber, d: nat)
    requires Sized(s, k)
    ensures forall e :: 0 <= e < |s| && s[e].IsLive() ==> SameEntry(s[e], MarkTo(s, k, h, d)[e])
    ensures forall e :: 0 <= e < |s| && MarkTo(s, k, h, d)[e].IsLive() ==> s[e].IsLive()
  {
    hide Rank, Probe;
  }

  lemma RekeyMovesOne<K, V>(t: Table<K, V>, i: nat, key: K, hash: K -> HashNumber)
    requires Counted(t, hash) && i < |t.slots| && t.slots[i].IsLive() && t.slots[i].WellFormed()
    ensures Sane(t) && t.entryCount > 0
    ensures var h := Stem(hash, key);
      MovedOne(t, i, RekeyWithoutRehash(t, i, key, hash), NewHome(t, i, h), LiveSlot(h, key, t.slots[i].mem.value.1))
  {
    hide Probe, Rank, MarkTo, Seek, FreeEntry, Bag, Tombs, PathMarked, DistinctKeys, RemoveAt, MovedOne, NewHome;
    var h := Stem(hash, key);
    RemoveEntryCounted(t, i, hash);
    CountedSized(t, hash);
    HomeAfterRemoval(t, i, h);
    var t1, it := RemoveEntry(t, i), Item(h, key, t.slots[i].mem.value.1);
    CountsFit(t.slots);
    FreeEntryReady(t1.slots, t.log2, h, hash);
    NoTombs(t.slots);
    FillMoves(t, i, t1.slots, Seek(t1.slots, t.log2, h, 0), it);
  }

  /** Rekeying an entry to its own key makes no tombstone: its path up to its slot has no free slot to fill. */
  lemma RekeySameKey<K, V>(t: Table<K, V>, i: nat, hash: K -> HashNumber)
    requires Counted(t, hash) && i < |t.slots| && t.slots[i].IsLive() && t.slots[i].WellFormed()
    ensures Sane(t) && t.entryCount > 0
    ensures RekeyWithoutRehash(t, i, t.slots[i].Get().key, hash).removedCount <= t.removedCount
  {
    hide Probe, Rank, Bag, Tombs, DistinctKeys, RekeyWithoutRehash, NewHome, PrepareHash, DropBit;
    var key := t.slots[i].Get().key;
    var h := Stem(hash, key);
    RekeyMovesOne(t, i, key, hash);
    HomeAfterRemoval(t, i, h);
    assert SlotOk(t.slots[i], hash) && PathMarked(t.slots, t.log2, h, i);
    if NewHome(t, i, h) != i {
      RanksDiffer(t.log2, h, NewHome(t, i, h), i);
      MarkedHole(t.slots[NewHome(t, i, h)]);
    }
  }

  lemma MarkedHole<K, V>(x: Slot<K, V>)
    requires x.HasCollision() && !x.IsLive()
    ensures x.IsRemoved()
  {
  }

  lemma RanksDiffer(k: Log2, h: HashNumber, p: nat, f: nat)
    requires p < Pow2(k) && f < Pow2(k) && p != f
    ensures Rank(k, h, p) != Rank(k, h, f)
  {
    hide Pow2;
    assert Probe(k, h, Rank(k, h, p)) == p && Probe(k, h, Rank(k, h, f)) == f;
  }

  // ---------------------------------------------------------------- what stays

  lemma SettledAfterIs<K, V>(t: Table<K, V>, i: nat, key: K, t1: Table<K, V>, hash: K -> HashNumber)
    requires Sane(t) && i < |t.slots| && t.slots[i].mem.Some?
    requires var h := Stem(hash, key);
      MovedOne(t, i, t1, NewHome(t, i, h), LiveSlot(h, key, t.slots[i].mem.value.1))
    ensures Sane(t1) && (SettledAfter(t, i, key, hash) <==> Settled(t1.slots, t1.log2))
  {
    hide Settled, PrepareHash, DropBit, NewHome;
    var h := Stem(hash, key);
    var moved := t.slots[i := FreeSlot()][NewHome(t, i, h) := LiveSlot(h, key, t.slots[i].mem.value.1)];
    SettledSame(moved, t1.slots, t.log2);
  }

  lemma MustFailAfter<K, V>(t: Table<K, V>, i: nat, key: K, t1: Table<K, V>, x: Slot<K, V>, alloc: bool,
                            hash: K -> HashNumber)
    requires Sane(t) && i < |t.slots| && MovedOne(t, i, t1, NewHome(t, i, Stem(hash, key)), x)
    ensures RehashesInPlace(t, i, key, alloc, hash) <==> MustFail(t1, alloc)
    ensures FullAfter(t, i, key, hash) <==> Overloaded(t1)
  {
    hide Pow2, TombsAfter, NewHome, PrepareHash;
    CapacityFacts(t1);
  }

  lemma RebuiltIs<K, V>(t: Table<K, V>, i: nat, key: K, t1: Table<K, V>, x: Slot<K, V>, hash: K -> HashNumber)
    requires Sane(t) && i < |t.slots| && MovedOne(t, i, t1, NewHome(t, i, Stem(hash, key)), x)
    ensures RebuiltCapacity(t, i, key, hash)
         == if 4 * t1.removedCount >= Capacity(t1) then Capacity(t1) else 2 * Capacity(t1)
  {
    hide Pow2, TombsAfter, NewHome, PrepareHash;
  }

  lemma UnmovedStays<K, V>(t: Table<K, V>, t': Table<K, V>, hash: K -> HashNumber)
    requires Counted(t, hash)
    ensures Stays(t, t', {}, {}) <==> Unmoved(t.slots, t'.slots)
  {
    hide Bag, Tombs, PathsOk, DistinctKeys, DropBit;
    forall i | 0 <= i < |t.slots| && t.slots[i].IsLive() ensures t.slots[i].mem.Some? {
      LiveSome(t.slots, t.log2, i, hash);
    }
  }

  /** The slot of an entry that is neither rekeyed nor held there any more. */
  lemma StayedThere<K, V>(t: Table<K, V>, t': Table<K, V>, x: K, e: nat)
    requires Stays(t, t', {x}, {}) && e < |t.slots|
    requires t.slots[e].IsLive() && t.slots[e].mem.Some? && t.slots[e].mem.value.0 != x
    ensures |t'.slots| == |t.slots| && SameEntry(t.slots[e], t'.slots[e])
  {
    hide DropBit;
  }

  /** When the table is not settled, its rehash in place moves an entry other than the one just rekeyed. */
  lemma OtherMoves<K, V>(t: Table<K, V>, i: nat, t1: Table<K, V>, x: Slot<K, V>, hash: K -> HashNumber)
    requires Counted(t, hash) && i < |t.slots| && t.slots[i].IsLive() && t.slots[i].mem.Some?
    requires MovedOne(t, i, t1, NewHome(t, i, x.KeyHash()), x) && Counted(t1, hash)
    requires !Settled(t1.slots, t1.log2) && x.mem.Some?
    ensures Sane(t1) && !Stays(t, RehashTableInPlace(t1), {t.slots[i].mem.value.0}, {})
  {
    hide Probe, Rank, Bag, Tombs, PathsOk, DistinctKeys, Settled, RehashedInPlace, NewHome, DropBit, Stays, IsLiveHash;
    CountedSized(t1, hash);
    var s, k, f, u := t1.slots, t1.log2, NewHome(t, i, x.KeyHash()), RehashedInPlace(t1.slots, t1.log2);
    HomeAfterRemoval(t, i, x.KeyHash());
    var a, p := UnsettledMoves(s, k);
    var gone := t.slots[i].mem.value.0;
    if Stays(t, RehashTableInPlace(t1), {gone}, {}) {
      LiveSome(s, k, a, hash);
      if a != f {
        OtherKey(t, i, a, hash);
        StayedThere(t, RehashTableInPlace(t1), gone, a);
        NoTwoPlaces(s, k, s[a], a, p, hash);
      } else {
        RanksDiffer(k, x.KeyHash(), p, f);
        OtherKey(t, i, p, hash);
        StayedThere(t, RehashTableInPlace(t1), gone, p);
        assert SameEntry(t.slots[p], u[p]) && SameEntry(s[f], u[p]);
        SameKeySameSlot(s, k, f, p, hash);
      }
    }
  }

  lemma OtherKey<K, V>(t: Table<K, V>, i: nat, e: nat, hash: K -> HashNumber)
    requires Counted(t, hash) && i < |t.slots| && e < |t.slots| && e != i
    requires t.slots[i].IsLive() && t.slots[e].IsLive()
    ensures t.slots[i].mem.Some? && t.slots[e].mem.Some? && t.slots[e].mem.value.0 != t.slots[i].mem.value.0
  {
    hide Bag, Tombs, PathsOk, DistinctKeys;
    LiveSome(t.slots, t.log2, i, hash);
    LiveSome(t.slots, t.log2, e, hash);
    if t.slots[e].mem.value.0 == t.slots[i].mem.value.0 {
      SameKeySameSlot(t.slots, t.log2, e, i, hash);
    }
  }

  lemma InPlaceStays<K, V>(t: Table<K, V>, i: nat, t1: Table<K, V>, x: Slot<K, V>, hash: K -> HashNumber)
    requires Counted(t, hash) && i < |t.slots| && t.slots[i].IsLive() && t.slots[i].mem.Some?
    requires MovedOne(t, i, t1, NewHome(t, i, x.KeyHash()), x) && Counted(t1, hash) && x.mem.Some?
    requires Stays(t, t1, {t.slots[i].mem.value.0}, {})
    ensures Sane(t1)
    ensures Stays(t, RehashTableInPlace(t1), {t.slots[i].mem.value.0}, {}) <==> Settled(t1.slots, t1.log2)
  {
    hide Counted, Settled, MovedOne, Stays, RehashedInPlace, NewHome, DropBit, Unmoved;
    CountedSized(t1, hash);
    if Settled(t1.slots, t1.log2) {
      SettledIsUnmoved(t1.slots, t1.log2);
      UnmovedStays(t1, RehashTableInPlace(t1), hash);
      var gone, none: set<K> := {t.slots[i].mem.value.0}, {};
      StaysTogether(t, t1, RehashTableInPlace(t1), gone, none, none, none);
      assert gone + none == gone && none + none == none;
    } else {
      OtherMoves(t, i, t1, x, hash);
    }
  }

  lemma MovedFields<K, V>(t: Table<K, V>, i: nat, t1: Table<K, V>, f: nat, x: Slot<K, V>)
    requires i < |t.slots| && MovedOne(t, i, t1, f, x)
    ensures t1.gen == t.gen && t1.log2 == t.log2 && t1.entryCount == t.entryCount
  {
  }

  lemma CheckOverRemovedGen<K, V>(t: Table<K, V>, alloc: bool, hash: K -> HashNumber)
    requires Counted(t, hash) && 4 * t.entryCount <= 3 * Capacity(t)
    ensures var t' := CheckOverRemoved(t, alloc);
      && t'.gen >= t.gen
      && (t'.gen == t.gen <==> !Overloaded(t) || MustFail(t, alloc))
      && (!Overloaded(t) ==> t' == t)
      && (MustFail(t, alloc) ==> t' == RehashTableInPlace(t))
  {
    hide Pow2, Copied, Counted, RehashedInPlace;
    CapacityFacts(t);
    TopCapacity(t.log2);
    CountedSized(t, hash);
  }

  /**
   * A rekey keeps the generation unless the table is rebuilt elsewhere. When it does, every other
   * entry is in its slot if and only if there was no rehash in place or the entries were settled.
   */
  lemma RekeyKeepsOthers<K, V>(t: Table<K, V>, i: nat, key: K, alloc: bool, hash: K -> HashNumber)
    requires Inv(t, hash) && i < |t.slots| && t.slots[i].IsLive() && t.slots[i].WellFormed()
    requires key in View(t) ==> key == t.slots[i].Get().key
    ensures Sane(t) && t.entryCount > 0
    ensures var t' := RekeyAndMaybeRehash(t, i, key, alloc, hash);
      && t'.gen >= t.gen
      && (t'.gen == t.gen <==> !FullAfter(t, i, key, hash) || RehashesInPlace(t, i, key, alloc, hash))
      && (t'.gen == t.gen ==>
            (Stays(t, t', {t.slots[i].mem.value.0}, {}) <==> Quiet(t, i, key, alloc, hash)))
      && (t'.gen == t.gen ==> Capacity(t') == Capacity(t))
      && (t'.gen != t.gen ==> t'.gen == t.gen + 1 && Capacity(t') == RebuiltCapacity(t, i, key, hash))
  {
    hide Pow2, Bag, Tombs, WellLaid, RekeyWithoutRehash, CheckOverRemoved, MustFail, Stays, MovedOne, Settled, NewHome,
         TombsAfter, RehashesInPlace, SettledAfter, FullAfter, RehashTableInPlace, PrepareHash, RebuiltCapacity;
    RekeyStays(t, i, key, hash);
    RekeyWithoutRehashCorrect(t, i, key, hash);
    RekeyMovesOne(t, i, key, hash);
    var t1, x := RekeyWithoutRehash(t, i, key, hash), LiveSlot(Stem(hash, key), key, t.slots[i].mem.value.1);
    CountedSized(t1, hash);
    StemDrop(Stem(hash, key));
    MovedFields(t, i, t1, NewHome(t, i, Stem(hash, key)), x);
    MustFailAfter(t, i, key, t1, x, alloc, hash);
    SettledAfterIs(t, i, key, t1, hash);
    CheckOverRemovedGen(t1, alloc, hash);
    CheckOverRemovedCorrect(t1, alloc, hash);
    RebuiltIs(t, i, key, t1, x, hash);
    if RehashesInPlace(t, i, key, alloc, hash) {
      InPlaceStays(t, i, t1, x, hash);
    }
  }

  /** A `rekeyAs` that finds no entry, or is quiet. */
  ghost predicate QuietRekey<K, V>(t: Table<K, V>, oldKey: K, newKey: K, alloc: bool, hash: K -> HashNumber)
    requires Sane(t)
  {
    var i := Lookup(t, oldKey, hash);
    t.slots[i].IsLive() && t.slots[i].mem.Some? ==> Quiet(t, i, newKey, alloc, hash)
  }

  /** The same for `rekeyAs`. */
  lemma RekeyAsKeepsOthers<K, V>(t: Table<K, V>, oldKey: K, newKey: K, alloc: bool, hash: K -> HashNumber)
    requires Inv(t, hash) && (oldKey in View(t) && newKey in View(t) ==> newKey == oldKey)
    ensures Sane(t)
    ensures var t' := RekeyAs(t, oldKey, newKey, alloc, hash);
      && t'.gen >= t.gen
      && (t'.gen == t.gen ==>
            (Stays(t, t', {oldKey}, {}) <==> QuietRekey(t, oldKey, newKey, alloc, hash)))
  {
    hide Inv, View, RekeyAndMaybeRehash, Lookup, Stays, Quiet, FullAfter, RehashesInPlace;
    InvLookup(t, oldKey, hash);
    StaysGone(t, {oldKey});
    if oldKey in View(t) {
      RekeyKeepsOthers(t, Lookup(t, oldKey, hash), newKey, alloc, hash);
    }
  }
}
