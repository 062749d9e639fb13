/** Each operation keeps the invariant and does to the map what its name says. */
module Operations {
  import opened Powers
  import opened Slots
  import opened Probing
  import opened Bags
  import opened Layout
  import opened Rebuild
  import opened TableState

  lemma ThreeQuarters(capacity: nat, used: nat)
    requires capacity % 4 == 0
    ensures used >= capacity * 3 / 4 <==> 4 * used >= 3 * capacity
    ensures used <= capacity * 1 / 4 <==> 4 * used <= capacity
  {
  }

  lemma CapacityFacts<K, V>(t: Table<K, V>)
    ensures Capacity(t) % 4 == 0 && 4 <= Capacity(t) <= MAX_CAPACITY
    ensures Overloaded(t) <==> 4 * (t.entryCount + t.removedCount) >= 3 * Capacity(t)
    ensures Underloaded(t) <==> Capacity(t) > 4 && 4 * t.entryCount <= Capacity(t)
  {
    hide Pow2;
    SplitWord(t.log2);
    ThreeQuarters(Capacity(t), t.entryCount + t.removedCount);
    ThreeQuarters(Capacity(t), t.entryCount);
  }

  /** At least a quarter of the slots are free, so every search ends. */
  lemma QuarterFree<K, V>(t: Table<K, V>, hash: K -> HashNumber)
    requires Inv(t, hash)
    ensures 4 * (|t.slots| - |Bag(t.slots)| - Tombs(t.slots)) >= |t.slots|
    ensures HasFree(t)
  {
    CapacityFacts(t);
    CountsFit(t.slots);
    assert forall i :: 0 <= i < |t.slots| ==> SlotOk(t.slots[i], hash);
  }

  /** `count()` is the number of keys in the map. */
  lemma CountIsSize<K, V>(t: Table<K, V>, hash: K -> HashNumber)
    requires Counted(t, hash)
    ensures |View(t)| == t.entryCount
  {
    hide Probe, Rank, PathsOk, DistinctKeys, Contents;
    ContentsSize(Bag(t.slots));
  }

  // ---------------------------------------------------------------- resizing

  /** Growing, compressing and shrinking keep every entry and drop every tombstone; failing changes nothing. */
  lemma ChangeTableSizeCorrect<K, V>(t: Table<K, V>, deltaLog2: int, alloc: bool, hash: K -> HashNumber)
    requires Counted(t, hash)
    requires 2 <= t.log2 + deltaLog2
    requires t.log2 + deltaLog2 <= 24 ==> t.entryCount <= Pow2(t.log2 + deltaLog2)
    ensures var r := ChangeTableSize(t, deltaLog2, alloc);
      && (r.status == Rehashed <==> alloc && t.log2 + deltaLog2 <= 24)
      && (r.status == RehashFailed <==> r.status != Rehashed)
      && (r.status == RehashFailed ==> r.table == t)
      && (r.status == Rehashed ==>
            r.table.removedCount == 0 && r.table.log2 == t.log2 + deltaLog2 && r.table.gen == t.gen + 1)
      && Counted(r.table, hash)
      && Bag(r.table.slots) == Bag(t.slots)
      && r.table.entryCount == t.entryCount
  {
    hide Pow2, Probe, Rank, PathMarked, Bag, Tombs, Copied, PrepareHash, DistinctKeys;
    if t.log2 + deltaLog2 <= 24 && alloc {
      CopiedCorrect(t.slots, t.log2 + deltaLog2, hash);
    }
  }

  lemma Doubling(k: nat)
    ensures Pow2(k + 1) == 2 * Pow2(k)
  {
  }

  /** No room for one more entry, and no way to get any. */
  ghost predicate MustFail<K, V>(t: Table<K, V>, alloc: bool) {
    Overloaded(t) && (!alloc || (Capacity(t) == MAX_CAPACITY && 4 * t.removedCount < Capacity(t)))
  }

  /** A new table, as large as before if a quarter of the slots were tombstones, and else twice as large. */
  ghost predicate Rebuilds<K, V>(t: Table<K, V>, t': Table<K, V>) {
    && t'.gen == t.gen + 1
    && Capacity(t') == if 4 * t.removedCount >= Capacity(t) then Capacity(t) else 2 * Capacity(t)
  }

  /** The table is of the same capacity and generation. */
  ghost predicate SameStorage<K, V>(t: Table<K, V>, t': Table<K, V>) {
    t'.gen == t.gen && Capacity(t') == Capacity(t)
  }

  lemma TopCapacity(k: Log2)
    ensures Pow2(k) == MAX_CAPACITY <==> k == 24
  {
    hide Pow2;
    Pow2Values();
    if k < 24 {
      Pow2Monotone(k, 23);
    }
  }

  /** Making room before an insertion: unless it fails, one more entry fits within the load bound. */
  lemma CheckOverloadedCorrect<K, V>(t: Table<K, V>, alloc: bool, hash: K -> HashNumber)
    requires Inv(t, hash)
    ensures var r := CheckOverloaded(t, alloc);
      && Inv(r.table, hash)
      && Bag(r.table.slots) == Bag(t.slots)
      && r.table.entryCount == t.entryCount
      && (r.status == NotOverloaded <==> !Overloaded(t))
      && (r.status == RehashFailed <==> MustFail(t, alloc))
      && (r.status != Rehashed ==> r.table == t)
      && (r.status == Rehashed ==> r.table.removedCount == 0 && Rebuilds(t, r.table))
      && (r.status != RehashFailed ==>
            4 * (r.table.entryCount + r.table.removedCount + 1) <= 3 * Capacity(r.table))
  {
    hide Pow2, Copied;
    CapacityFacts(t);
    TopCapacity(t.log2);
    if Overloaded(t) {
      Doubling(t.log2);
      ChangeTableSizeCorrect(t, OverloadDelta(t), alloc, hash);
    }
  }

  lemma RehashTableInPlaceCorrect<K, V>(t: Table<K, V>, hash: K -> HashNumber)
    requires Counted(t, hash)
    ensures Counted(RehashTableInPlace(t), hash)
    ensures Bag(RehashTableInPlace(t).slots) == Bag(t.slots)
  {
    hide RehashedInPlace, PathsOk, SlotsOk;
    assert Coherent(t.slots, t.log2, hash);
    RehashIt(t.slots, t.log2, hash);
  }

  lemma RehashIt<K, V>(s: seq<Slot<K, V>>, k: Log2, hash: K -> HashNumber)
    requires Coherent(s, k, hash)
    ensures Coherent(RehashedInPlace(s, k), k, hash)
    ensures Bag(RehashedInPlace(s, k)) == Bag(s) && Tombs(RehashedInPlace(s, k)) == 0
  {
    RehashedInPlaceCorrect(s, k, hash);
  }

  /** Infallible: whatever the allocator answers, the load bound holds afterwards if the live entries respect it. */
  lemma CheckOverRemovedCorrect<K, V>(t: Table<K, V>, alloc: bool, hash: K -> HashNumber)
    requires Counted(t, hash) && 4 * t.entryCount <= 3 * Capacity(t)
    ensures Inv(CheckOverRemoved(t, alloc), hash)
    ensures Bag(CheckOverRemoved(t, alloc).slots) == Bag(t.slots)
    ensures if Overloaded(t) then CheckOverRemoved(t, alloc).removedCount == 0 else CheckOverRemoved(t, alloc) == t
    ensures if Overloaded(t) && !MustFail(t, alloc)
            then Rebuilds(t, CheckOverRemoved(t, alloc)) else SameStorage(t, CheckOverRemoved(t, alloc))
    ensures CheckOverRemoved(t, alloc).entryCount == t.entryCount
  {
    hide Pow2, Copied, RehashedInPlace;
    CapacityFacts(t);
    TopCapacity(t.log2);
    if Overloaded(t) {
      Doubling(t.log2);
      ChangeTableSizeCorrect(t, OverloadDelta(t), alloc, hash);
      RehashTableInPlaceCorrect(t, hash);
    }
  }

  lemma CheckUnderloadedCorrect<K, V>(t: Table<K, V>, alloc: bool, hash: K -> HashNumber)
    requires Inv(t, hash)
    ensures Inv(CheckUnderloaded(t, alloc), hash)
    ensures Bag(CheckUnderloaded(t, alloc).slots) == Bag(t.slots)
    ensures var t' := CheckUnderloaded(t, alloc);
      if Underloaded(t) && alloc
      then 2 * Capacity(t') == Capacity(t) && 2 * |Bag(t'.slots)| <= Capacity(t') && t'.removedCount == 0
           && t'.gen == t.gen + 1
      else t' == t
  {
    hide Pow2, Copied;
    CapacityFacts(t);
    if Underloaded(t) {
      UnderloadedCanShrink(t.log2, t.entryCount);
      Doubling(t.log2 - 1);
      ChangeTableSizeCorrect(t, -1, alloc, hash);
    }
  }

  /**
   * The chosen capacity is the largest one, by halving, that is not underloaded, and after
   * any halving the entries fill at most half of it.
   */
  lemma {:induction false} BestLog2Largest(k: Log2, entryCount: nat)
    ensures var b := BestLog2(k, entryCount);
      && !WouldBeUnderloaded(Pow2(b), entryCount)
      && (forall c :: b < c <= k ==> WouldBeUnderloaded(Pow2(c), entryCount))
      && (b < k ==> 2 * entryCount <= Pow2(b))
    decreases k
  {
    if WouldBeUnderloaded(Pow2(k), entryCount) {
      UnderloadedCanShrink(k, entryCount);
      SplitWord(k);
      BestLog2Largest(k - 1, entryCount);
    }
  }

  /** A new table without tombstones, of the largest capacity by halving that is not underloaded. */
  ghost predicate Compacts<K, V>(t: Table<K, V>, t': Table<K, V>) {
    && t'.gen == t.gen + 1 && t'.removedCount == 0 && t'.entryCount == t.entryCount
    && t'.log2 < t.log2 && (Capacity(t') == 4 || 4 * t.entryCount > Capacity(t'))
    && 4 * t.entryCount <= 2 * Capacity(t')
  }

  lemma CompactCorrect<K, V>(t: Table<K, V>, alloc: bool, hash: K -> HashNumber)
    requires Inv(t, hash)
    ensures Inv(CompactIfUnderloaded(t, alloc), hash)
    ensures Bag(CompactIfUnderloaded(t, alloc).slots) == Bag(t.slots)
    ensures alloc ==> !Underloaded(CompactIfUnderloaded(t, alloc))
    ensures !alloc || !Underloaded(t) ==> CompactIfUnderloaded(t, alloc) == t
    ensures alloc && Underloaded(t) ==> Compacts(t, CompactIfUnderloaded(t, alloc))
  {
    hide Pow2, Copied, BestLog2;
    var b := BestLog2(t.log2, t.entryCount);
    BestLog2Largest(t.log2, t.entryCount);
    CapacityFacts(t);
    if b != t.log2 {
      ChangeTableSizeCorrect(t, b - t.log2, alloc, hash);
      CapacityFacts(CompactIfUnderloaded(t, alloc));
    }
  }

  // ---------------------------------------------------------------- removing

  /** Mid-enumeration form: the counters and the probe paths, not the load bound. */
  lemma RemoveEntryCounted<K, V>(t: Table<K, V>, i: nat, hash: K -> HashNumber)
    requires Counted(t, hash) && i < |t.slots| && t.slots[i].IsLive()
    ensures t.slots[i].WellFormed() && t.entryCount > 0
    ensures var t' := RemoveEntry(t, i);
      && Counted(t', hash)
      && Bag(t'.slots) == Bag(t.slots) - multiset{t.slots[i].Get()}
      && View(t') == View(t) - {t.slots[i].Get().key}
      && t'.entryCount + 1 == t.entryCount
      && t'.entryCount + t'.removedCount <= t.entryCount + t.removedCount
  {
    hide Probe, Rank, PathMarked, Bag, Tombs, RemoveAt, PrepareHash;
    assert SlotOk(t.slots[i], hash);
    RemoveKeeps(t.slots, t.log2, i, hash);
    RemoveCounts(t.slots, i);
    ContentsRemove(Bag(t.slots), t.slots[i].Get());
  }

  /**
   * One entry fewer; the table is halved exactly when that leaves at most a quarter of the slots in use, it
   * is not of the smallest capacity, and there is memory. Halving leaves no tombstone.
   */
  ghost predicate Removes<K, V>(t: Table<K, V>, t': Table<K, V>, alloc: bool) {
    && t'.entryCount == t.entryCount - 1
    && if alloc && Capacity(t) > 4 && 4 * (t.entryCount - 1) <= Capacity(t)
       then 2 * Capacity(t') == Capacity(t) && t'.removedCount == 0 && t'.gen == t.gen + 1
       else SameStorage(t, t') && t.removedCount <= t'.removedCount <= t.removedCount + 1
  }

  lemma RemovePtrCorrect<K, V>(t: Table<K, V>, i: nat, alloc: bool, hash: K -> HashNumber)
    requires Inv(t, hash) && i < |t.slots| && t.slots[i].IsLive()
    ensures t.slots[i].WellFormed() && t.entryCount > 0
    ensures Inv(RemovePtr(t, i, alloc), hash)
    ensures View(RemovePtr(t, i, alloc)) == View(t) - {t.slots[i].Get().key}
    ensures Removes(t, RemovePtr(t, i, alloc), alloc)
  {
    hide Pow2, Bag, Tombs, RemoveAt, WellLaid;
    RemoveEntryCounted(t, i, hash);
    CapacityFacts(RemoveEntry(t, i));
    CheckUnderloadedCorrect(RemoveEntry(t, i), alloc, hash);
  }

  // ---------------------------------------------------------------- searching and adding

  /** The slot a search returns is live exactly when the map has the key, and then holds its value. */
  lemma LookupCorrect<K, V>(t: Table<K, V>, key: K, hash: K -> HashNumber)
    requires Counted(t, hash) && HasFree(t)
    ensures t.slots[Lookup(t, key, hash)].IsLive() <==> key in View(t)
    ensures key in View(t) ==> Holds(t, Lookup(t, key, hash), Item(Stem(hash, key), key, View(t)[key]))
  {
    hide Probe, Target, Bag, PrepareHash;
    SearchCorrect(t.slots, t.log2, key, hash);
  }

  /** What `add` relies on: the remembered slot can take the key without hiding it. */
  ghost predicate AddReady<K, V>(t: Table<K, V>, p: AddPtr, key: K, hash: K -> HashNumber)
    requires Sane(t)
  {
    && p.keyHash == Stem(hash, key)
    && p.entry < |t.slots| && !t.slots[p.entry].IsLive()
    && PathMarked(t.slots, t.log2, p.keyHash, p.entry)
    && key !in View(t)
  }

  lemma MarkForKeeps<K, V>(t: Table<K, V>, key: K, hash: K -> HashNumber)
    requires Counted(t, hash) && HasFree(t)
    ensures Counted(MarkFor(t, key, hash), hash)
    ensures Bag(MarkFor(t, key, hash).slots) == Bag(t.slots)
    ensures forall i :: 0 <= i < |t.slots| ==>
              var x, y := t.slots[i], MarkFor(t, key, hash).slots[i];
              x == y || (x.IsLive() && y == x.SetCollision()) || (x.IsRemoved() && y == x)
  {
    hide Probe, Rank, Bag, Tombs, Stop, PrepareHash, Hits, PathMarked;
    var h := Stem(hash, key);
    StopFirst(t.slots, t.log2, h, key);
    MarkKeeps(t.slots, t.log2, h, Stop(t.slots, t.log2, h, key, 0), hash);
    TombMark(t.slots);
  }

  lemma TombMark<K, V>(s: seq<Slot<K, V>>)
    ensures forall i :: 0 <= i < |s| && s[i].IsRemoved() ==> s[i].SetCollision() == s[i]
  {
  }

  /** The slot a missed search returns comes no later than its stopping point. */
  lemma MissTarget<K, V>(s: seq<Slot<K, V>>, k: Log2, h: HashNumber, key: K)
    requires Sized(s, k)
    requires !Hits(s[Probe(k, h, Stop(s, k, h, key, 0))], h, key)
    ensures Rank(k, h, Target(s, k, h, key)) <= Stop(s, k, h, key, 0)
  {
    hide Probe, Rank, Hits, Stop;
    RankOfProbe(k, h, FirstRemoved(s, k, h, 0, Stop(s, k, h, key, 0)));
  }

  /** `lookupForAdd` changes no entry; a miss leaves a pointer ready for `add`. */
  lemma LookupForAddCorrect<K, V>(t: Table<K, V>, key: K, hash: K -> HashNumber)
    requires Counted(t, hash) && HasFree(t)
    ensures var (t', p) := LookupForAdd(t, key, hash);
      && Counted(t', hash) && Bag(t'.slots) == Bag(t.slots) && View(t') == View(t)
      && (t'.slots[p.entry].IsLive() <==> key in View(t))
      && (key in View(t) ==> Holds(t', p.entry, Item(Stem(hash, key), key, View(t)[key])))
      && (key !in View(t) ==> AddReady(t', p, key, hash))
  {
    hide Probe, Rank, Bag, Tombs, Stop, Target, PrepareHash, Hits, DropBit, WithBit, WellLaid;
    assert WellLaid(t.slots, t.log2, hash);
    MarkForKeeps(t, key, hash);
    SearchCorrect(t.slots, t.log2, key, hash);
    var h := Stem(hash, key);
    if key !in View(t) {
      MissTarget(t.slots, t.log2, h, key);
    }
  }

  /** A missed pointer stays ready across further searches, which only set bits on live slots. */
  lemma AddReadyStays<K, V>(t: Table<K, V>, p: AddPtr, key: K, other: K, hash: K -> HashNumber)
    requires Counted(t, hash) && HasFree(t) && AddReady(t, p, key, hash)
    ensures AddReady(LookupForAdd(t, other, hash).0, p, key, hash)
  {
    hide Probe, Rank, Bag, Stop, Target, PrepareHash, DropBit, WithBit;
    MarkForKeeps(t, other, hash);
    var t' := MarkFor(t, other, hash);
    PathMarkedGrows(t.slots, t'.slots, t.log2, p.keyHash, p.entry);
  }

  lemma FillEntryCorrect<K, V>(t: Table<K, V>, i: nat, it: Item<K, V>, hash: K -> HashNumber)
    requires Counted(t, hash) && i < |t.slots| && !t.slots[i].IsLive()
    requires ItemOk(it, hash) && PathMarked(t.slots, t.log2, it.stem, i) && it.key !in View(t)
    ensures var t' := FillEntry(t, i, it);
      && Counted(t', hash)
      && View(t') == View(t)[it.key := it.value]
      && Bag(t'.slots) == Bag(t.slots) + multiset{it}
      && Holds(t', i, it)
      && t'.entryCount == t.entryCount + 1
      && t'.removedCount == t.removedCount - (if t.slots[i].IsRemoved() then 1 else 0)
      && (t'.slots[i].HasCollision() <==> t.slots[i].IsRemoved())
  {
    hide Probe, Rank, PathMarked, Bag, Tombs, Fill, PrepareHash;
    FillFacts(t.slots[i], it);
    FillKeeps(t.slots, t.log2, i, it, hash);
    FillCounts(t.slots, i, it);
    ContentsAdd(Bag(t.slots), it);
  }

  lemma PutNewInfallibleCorrect<K, V>(t: Table<K, V>, it: Item<K, V>, hash: K -> HashNumber)
    requires Counted(t, hash) && t.entryCount < |t.slots|
    requires ItemOk(it, hash) && it.key !in View(t)
    ensures var t' := PutNewInfallible(t, it);
      && Counted(t', hash)
      && View(t') == View(t)[it.key := it.value]
      && Bag(t'.slots) == Bag(t.slots) + multiset{it}
      && t'.entryCount == t.entryCount + 1
      && t'.removedCount <= t.removedCount
    ensures Holds(PutNewInfallible(t, it), FreeEntry(t.slots, t.log2, it.stem), it)
  {
    hide Probe, Rank, PathMarked, Seek, FreeEntry, MarkTo, Bag, Tombs, Fill, PrepareHash;
    var h := it.stem;
    FreeEntryReady(t.slots, t.log2, h, hash);
    var m := t.(slots := MarkTo(t.slots, t.log2, h, Seek(t.slots, t.log2, h, 0)));
    FillEntryCorrect(m, FreeEntry(t.slots, t.log2, h), it, hash);
  }

  lemma PutNewCorrect<K, V>(t: Table<K, V>, it: Item<K, V>, alloc: bool, hash: K -> HashNumber)
    requires Inv(t, hash) && ItemOk(it, hash) && it.key !in View(t)
    ensures var r := PutNew(t, it, alloc);
      && Inv(r.table, hash)
      && (r.status == RehashFailed <==> MustFail(t, alloc))
      && (r.status == RehashFailed ==> r.table == t)
      && (r.status != RehashFailed ==> View(r.table) == View(t)[it.key := it.value])
      && (r.status != RehashFailed ==>
            if Overloaded(t) then Rebuilds(t, r.table) else SameStorage(t, r.table))
  {
    hide Pow2, Counted, Overloaded, PutNewInfallible, ItemOk, MustFail;
    CheckOverloadedCorrect(t, alloc, hash);
    var r := CheckOverloaded(t, alloc);
    if r.status != RehashFailed {
      CountedSized(r.table, hash);
      PutNewInfallibleCorrect(r.table, it, hash);
      FillKeepsLog2(r.table, it);
    }
  }

  lemma CountedSized<K, V>(t: Table<K, V>, hash: K -> HashNumber)
    requires Counted(t, hash)
    ensures Sane(t) && |t.slots| == Capacity(t)
  {
  }

  lemma InvSized<K, V>(t: Table<K, V>, hash: K -> HashNumber)
    requires Inv(t, hash)
    ensures Sane(t)
  {
    CountedSized(t, hash);
  }

  lemma FillKeepsLog2<K, V>(t: Table<K, V>, it: Item<K, V>)
    requires Sane(t)
    ensures PutNewInfallible(t, it).log2 == t.log2 && PutNewInfallible(t, it).gen == t.gen
  {
  }

  /**
   * `add` through a ready pointer: on success the key is in the map, the pointer denotes its
   * entry even after a rehash, and the load bound still holds; on failure nothing changed.
   */
  lemma AddCorrect<K, V>(t: Table<K, V>, p: AddPtr, key: K, value: V, alloc: bool, hash: K -> HashNumber)
    requires Inv(t, hash) && AddReady(t, p, key, hash)
    ensures var r := Add(t, p, key, value, alloc);
      && Inv(r.table, hash)
      && (!r.ok <==> !t.slots[p.entry].IsRemoved() && MustFail(t, alloc))
      && (!r.ok ==> r.table == t)
      && (r.ok ==> View(r.table) == View(t)[key := value])
      && (r.ok ==> Holds(r.table, r.ptr.entry, Item(Stem(hash, key), key, value)))
      && (r.ok ==> if Overloaded(t) && !t.slots[p.entry].IsRemoved() then Rebuilds(t, r.table)
                   else SameStorage(t, r.table) && r.ptr.entry == p.entry)
  {
    hide Pow2, Counted, Overloaded, PutNewInfallible, FillEntry, PathMarked, Fill, MustFail;
    CountedSized(t, hash);
    var it := Item(p.keyHash, key, value);
    FillEntryCorrect(t, p.entry, it, hash);
    FillEntryLog2(t, p.entry, it);
    if !t.slots[p.entry].IsRemoved() {
      CheckOverloadedCorrect(t, alloc, hash);
      var r := CheckOverloaded(t, alloc);
      if r.status == Rehashed {
        CountedSized(r.table, hash);
        PutNewInfallibleCorrect(r.table, it, hash);
        FillKeepsLog2(r.table, it);
      }
    }
  }

  lemma FillEntryLog2<K, V>(t: Table<K, V>, i: nat, it: Item<K, V>)
    requires i < |t.slots|
    ensures FillEntry(t, i, it).log2 == t.log2 && FillEntry(t, i, it).gen == t.gen
  {
  }

  /** An insertion of `key` is refused: the key is new, its slot is no tombstone, and no room can be made. */
  ghost predicate Refused<K, V>(t: Table<K, V>, key: K, alloc: bool, hash: K -> HashNumber)
    requires Sane(t)
  {
    key !in View(t) && !t.slots[Lookup(t, key, hash)].IsRemoved() && MustFail(t, alloc)
  }

  /** The marks of a search make no tombstone and unmake none. */
  lemma MarkKeepsTombs<K, V>(t: Table<K, V>, key: K, hash: K -> HashNumber)
    requires Counted(t, hash) && HasFree(t)
    ensures var (t', p) := LookupForAdd(t, key, hash);
      p.entry < |t'.slots| == |t.slots| && SameTombs(t, t')
  {
    hide Probe, Rank, Target, Stop, Bag, PathMarked, MarkFor, DropBit, WithBit;
    LookupForAddCounters(t, key, hash);
    MarkForKeeps(t, key, hash);
    MarkedNotRemoved<K, V>();
  }

  ghost predicate SameTombs<K, V>(t: Table<K, V>, t': Table<K, V>) {
    |t'.slots| == |t.slots| && forall i :: 0 <= i < |t.slots| ==> t'.slots[i].IsRemoved() == t.slots[i].IsRemoved()
  }

  lemma MarkedNotRemoved<K, V>()
    ensures forall x: Slot<K, V> :: x.IsLive() ==> !x.SetCollision().IsRemoved()
  {
  }

  lemma LookupIs<K, V>(t: Table<K, V>, key: K, hash: K -> HashNumber)
    requires Sane(t)
    ensures LookupForAdd(t, key, hash).1.entry == Lookup(t, key, hash)
  {
  }

  lemma MustFailSame<K, V>(t: Table<K, V>, t': Table<K, V>, alloc: bool)
    requires t.entryCount == t'.entryCount && t.removedCount == t'.removedCount && t.log2 == t'.log2
    ensures MustFail(t, alloc) == MustFail(t', alloc)
  {
  }

  lemma RelookupOrAddCorrect<K, V>(t: Table<K, V>, key: K, value: V, alloc: bool, hash: K -> HashNumber)
    requires Inv(t, hash)
    ensures Sane(t)
    ensures var r := RelookupOrAdd(t, key, value, alloc, hash);
      && Inv(r.table, hash)
      && (key in View(t) ==> View(r.table) == View(t))
      && (!r.ok <==> Refused(t, key, alloc, hash))
      && (key !in View(t) ==> View(r.table) == if r.ok then View(t)[key := value] else View(t))
      && (r.ok ==> Holds(r.table, r.ptr.entry, Item(Stem(hash, key), key, View(r.table)[key])))
  {
    hide Pow2, Counted, Add, AddReady, Bag, Tombs, MustFail, View;
    CountedSized(t, hash);
    QuarterFree(t, hash);
    LookupForAddCorrect(t, key, hash);
    var (t', p) := LookupForAdd(t, key, hash);
    LookupForAddCounters(t, key, hash);
    MarkKeepsTombs(t, key, hash);
    LookupIs(t, key, hash);
    MustFailSame(t, t', alloc);
    if key !in View(t) {
      AddCorrect(t', p, key, value, alloc, hash);
    }
  }

  lemma LookupForAddCounters<K, V>(t: Table<K, V>, key: K, hash: K -> HashNumber)
    requires Sane(t)
    ensures var (t', p) := LookupForAdd(t, key, hash);
      && t'.entryCount == t.entryCount && t'.removedCount == t.removedCount
      && t'.log2 == t.log2 && t'.gen == t.gen && |t'.slots| == |t.slots|
      && p.entry < |t'.slots|
  {
  }

  // ---------------------------------------------------------------- rekeying and clearing

  /** Mid-enumeration form of rekeying: no load bound needed or promised. */
  lemma RekeyWithoutRehashCorrect<K, V>(t: Table<K, V>, i: nat, key: K, hash: K -> HashNumber)
    requires Counted(t, hash) && i < |t.slots| && t.slots[i].IsLive()
    requires t.slots[i].WellFormed() && (key in View(t) ==> key == t.slots[i].Get().key)
    ensures t.entryCount > 0
    ensures var t' := RekeyWithoutRehash(t, i, key, hash);
      && Counted(t', hash)
      && View(t') == (View(t) - {t.slots[i].Get().key})[key := t.slots[i].Get().value]
      && t'.entryCount == t.entryCount && t'.log2 == t.log2
  {
    hide Pow2, Bag, Tombs, RemoveEntry, PutNewInfallible, WellLaid;
    RemoveEntryCounted(t, i, hash);
    var t1, it := RemoveEntry(t, i), Item(Stem(hash, key), key, t.slots[i].mem.value.1);
    RemoveEntryShape(t, i);
    CountedSized(t, hash);
    CountedSized(t1, hash);
    CountsFit(t.slots);
    PutNewInfallibleCorrect(t1, it, hash);
    FillKeepsLog2(t1, it);
  }

  lemma RemoveEntryShape<K, V>(t: Table<K, V>, i: nat)
    requires i < |t.slots| && t.entryCount > 0
    ensures RemoveEntry(t, i).log2 == t.log2 && RemoveEntry(t, i).gen == t.gen
    ensures |RemoveEntry(t, i).slots| == |t.slots|
  {
  }

  lemma RekeyAndMaybeRehashCorrect<K, V>(t: Table<K, V>, i: nat, key: K, alloc: bool, hash: K -> HashNumber)
    requires Inv(t, hash) && i < |t.slots| && t.slots[i].IsLive()
    requires t.slots[i].WellFormed() && (key in View(t) ==> key == t.slots[i].Get().key)
    ensures t.entryCount > 0
    ensures var t' := RekeyAndMaybeRehash(t, i, key, alloc, hash);
      && Inv(t', hash)
      && View(t') == (View(t) - {t.slots[i].Get().key})[key := t.slots[i].Get().value]
  {
    hide Pow2, Bag, Tombs, WellLaid, RekeyWithoutRehash, CheckOverRemoved;
    RekeyWithoutRehashCorrect(t, i, key, hash);
    CountedSized(t, hash);
    CountedSized(RekeyWithoutRehash(t, i, key, hash), hash);
    CheckOverRemovedCorrect(RekeyWithoutRehash(t, i, key, hash), alloc, hash);
  }

  lemma ClearCorrect<K, V>(t: Table<K, V>, hash: K -> HashNumber)
    ensures Inv(Clear(t), hash) && View(Clear(t)) == map[] && SameStorage(t, Clear(t))
  {
    EmptyCoherent<K, V>(t.log2, hash);
    assert Keys<K, V>(multiset{}) == {};
  }

  ghost function WithValue<K, V>(x: Slot<K, V>, value: V): Slot<K, V>
    requires x.mem.Some?
  {
    x.(mem := Some((x.mem.value.0, value)))
  }

  lemma SetValueBag<K, V>(s: seq<Slot<K, V>>, i: nat, value: V)
    requires i < |s| && s[i].IsLive() && s[i].WellFormed()
    ensures s[i].Get() in Bag(s)
    ensures Bag(s[i := WithValue(s[i], value)])
         == Bag(s) - multiset{s[i].Get()} + multiset{s[i].Get().(value := value)}
    ensures Tombs(s[i := WithValue(s[i], value)]) == Tombs(s)
  {
    hide Bag, Tombs, DropBit;
    var y := WithValue(s[i], value);
    SlotInBag(s, i);
    BagUpdate(s, i, y);
    TombsUpdate(s, i, y);
    assert s[i].Get() in One(s[i]);
    Exchange(Bag(s), Bag(s[i := y]), s[i].Get(), y.Get());
  }

  lemma ContentsExchange<K, V>(b: multiset<Item<K, V>>, it: Item<K, V>, value: V)
    requires DistinctKeys(b) && it in b
    ensures DistinctKeys(b - multiset{it} + multiset{it.(value := value)})
    ensures Contents(b - multiset{it} + multiset{it.(value := value)}) == Contents(b)[it.key := value]
  {
    hide DistinctKeys, Contents;
    ContentsRemove(b, it);
    ContentsAdd(b - multiset{it}, it.(value := value));
    assert (Contents(b) - {it.key})[it.key := value] == Contents(b)[it.key := value];
  }

  /** Overwriting a value in place. */
  lemma SetValueCorrect<K, V>(t: Table<K, V>, i: nat, value: V, hash: K -> HashNumber)
    requires Inv(t, hash) && i < |t.slots| && t.slots[i].IsLive()
    ensures t.slots[i].WellFormed()
    ensures Inv(SetValue(t, i, value), hash)
    ensures View(SetValue(t, i, value)) == View(t)[t.slots[i].Get().key := value]
    ensures SameStorage(t, SetValue(t, i, value)) && SetValue(t, i, value).removedCount == t.removedCount
  {
    hide Probe, Rank, PathsOk, Bag, Tombs, PrepareHash, DropBit, DistinctKeys, Contents;
    assert SlotOk(t.slots[i], hash);
    SetValueBag(t.slots, i, value);
    ContentsExchange(Bag(t.slots), t.slots[i].Get(), value);
    SetValuePaths(t.slots, t.log2, i, WithValue(t.slots[i], value));
  }

  lemma Exchange<T>(b: multiset<T>, c: multiset<T>, x: T, y: T)
    requires x in b && c + multiset{x} == b + multiset{y}
    ensures c == b - multiset{x} + multiset{y}
  {
    assert (c + multiset{x}) - multiset{x} == c;
    assert (b + multiset{y}) - multiset{x} == b - multiset{x} + multiset{y};
  }

  lemma SetValuePaths<K, V>(s: seq<Slot<K, V>>, k: Log2, i: nat, y: Slot<K, V>)
    requires Sized(s, k) && PathsOk(s, k) && i < |s| && y.keyHash == s[i].keyHash
    ensures PathsOk(s[i := y], k)
  {
    hide Probe, Rank;
    var t := s[i := y];
    forall m | 0 <= m < |t| && t[m].IsLive() ensures PathMarked(t, k, t[m].KeyHash(), m) {
      PathMarkedGrows(s, t, k, t[m].KeyHash(), m);
    }
  }
}
