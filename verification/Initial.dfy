/** Choosing the initial capacity, and what it is good for. */
module Initial {
  import opened Powers
  import opened Slots
  import opened Probing
  import opened Bags
  import opened Layout
  import opened Rebuild
  import opened TableState
  import opened Operations

  /** `ceil(length / max-alpha)`, at least the minimum capacity. */
  function WantedCapacity(length: nat): nat {
    var newCapacity := (length * 4 + 3 - 1) / 3;
    if newCapacity < MIN_CAPACITY then MIN_CAPACITY else newCapacity
  }

  /** Double from `k` on until the capacity is reached. */
  ghost function RoundUpLog2(k: Log2, wanted: nat): (r: Log2)
    requires wanted <= MAX_CAPACITY
    ensures k <= r
    ensures Pow2(r) >= wanted
    ensures forall c: Log2 :: k <= c < r ==> Pow2(c) < wanted
    decreases 24 - k
  {
    Pow2Values();
    if Pow2(k) >= wanted then k else
      assert k < 24;
      RoundUpLog2(k + 1, wanted)
  }

  lemma WantedFits(length: nat)
    requires length <= MAX_INIT
    ensures WantedCapacity(length) <= MAX_CAPACITY
    ensures length * 4 + 3 - 1 < 0x1_0000_0000
    ensures length <= WantedCapacity(length)
    ensures forall c: nat :: c >= 4 ==> (c >= WantedCapacity(length) <==> 4 * length <= 3 * c)
  {
  }

  /** The accepted lengths end at the largest power of two whose capacity is legal. */
  lemma LengthLimit(k: nat)
    ensures Pow2(k) <= MAX_INIT <==> WantedCapacity(Pow2(k)) <= 0x100_0000
  {
    hide Pow2;
    Pow2Values();
    if k <= 23 {
      Pow2Monotone(k, 23);
    } else {
      Pow2Monotone(24, k);
    }
  }

  /** The table `init(length)` creates; `None` when the length is too large or the allocation fails. */
  ghost function Init<K, V>(length: nat, gen: nat, alloc: bool): Option<Table<K, V>> {
    if length > MAX_INIT || !alloc then None
    else
      WantedFits(length);
      var k := RoundUpLog2(2, WantedCapacity(length));
      Some(Table(Empty(k), k, 0, 0, gen))
  }

  /**
   * `init` picks the smallest legal capacity in which `length` entries stay within three
   * quarters, never beyond the maximum and without overflowing a 32-bit word on the way.
   */
  lemma InitSmallest<K, V>(length: nat, gen: nat, hash: K -> HashNumber)
    requires length <= MAX_INIT
    ensures Init<K, V>(length, gen, true).Some?
    ensures var t := Init<K, V>(length, gen, true).value;
      && Inv(t, hash) && View(t) == map[] && t.gen == gen && t.removedCount == 0 && t.entryCount == 0
      && 4 * length <= 3 * Capacity(t) <= 3 * MAX_CAPACITY
      && (forall c: Log2 :: c < t.log2 ==> 4 * length > 3 * Pow2(c))
    ensures length * 4 + 3 - 1 < 0x1_0000_0000
  {
    hide Pow2;
    WantedFits(length);
    var k := RoundUpLog2(2, WantedCapacity(length));
    SplitWord(k);
    EmptyCoherent<K, V>(k, hash);
    assert Keys<K, V>(multiset{}) == {};
    forall c: Log2 | c < k ensures 4 * length > 3 * Pow2(c) {
      SplitWord(c);
    }
  }

  /** `putNew` for each entry in turn, stopping at a failure. */
  ghost function PutNewAll<K, V>(t: Table<K, V>, items: seq<Item<K, V>>, alloc: bool): (Table<K, V>, bool)
    decreases |items|
  {
    if items == [] then (t, true)
    else if !Sane(t) then (t, false)
    else
      var r := PutNew(t, items[0], alloc);
      if r.status == RehashFailed then (r.table, false) else PutNewAll(r.table, items[1..], alloc)
  }

  ghost predicate FreshKeys<K, V>(items: seq<Item<K, V>>, m: map<K, V>, hash: K -> HashNumber) {
    && (forall i :: 0 <= i < |items| ==> ItemOk(items[i], hash) && items[i].key !in m)
    && (forall i, j :: 0 <= i < j < |items| ==> items[i].key != items[j].key)
  }

  lemma PutNewGen<K, V>(t: Table<K, V>, it: Item<K, V>, alloc: bool, hash: K -> HashNumber)
    requires Inv(t, hash)
    ensures Sane(t)
    ensures var r := PutNew(t, it, alloc);
      && r.table.gen == t.gen + (if r.status == Rehashed then 1 else 0)
      && (r.status == NotOverloaded <==> !Overloaded(t))
      && (r.status == NotOverloaded ==> r.table.log2 == t.log2)
  {
    hide Pow2, Counted, Overloaded, PutNewInfallible, Copied, MustFail;
    CountedSized(t, hash);
    CheckOverloadedCorrect(t, alloc, hash);
    CountedSized(CheckOverloaded(t, alloc).table, hash);
    FillKeepsLog2(CheckOverloaded(t, alloc).table, it);
  }

  lemma {:induction false} GenGrows<K, V>(t: Table<K, V>, items: seq<Item<K, V>>, alloc: bool, hash: K -> HashNumber)
    requires Inv(t, hash) && FreshKeys(items, View(t), hash)
    ensures PutNewAll(t, items, alloc).0.gen >= t.gen
    decreases |items|
  {
    hide Inv, View, PutNew, MustFail, ItemOk;
    if items != [] {
      PutNewGen(t, items[0], alloc, hash);
      PutNewCorrect(t, items[0], alloc, hash);
      var r := PutNew(t, items[0], alloc);
      if r.status != RehashFailed {
        GenGrows(r.table, items[1..], alloc, hash);
      }
    }
  }

  lemma CleanCounts<K, V>(t: Table<K, V>, it: Item<K, V>, alloc: bool, hash: K -> HashNumber)
    requires Inv(t, hash) && ItemOk(it, hash) && it.key !in View(t) && t.removedCount == 0 && !Overloaded(t)
    ensures Sane(t)
    ensures var t' := PutNew(t, it, alloc).table;
      t'.entryCount == t.entryCount + 1 && t'.removedCount == 0
  {
    hide Pow2, PutNewInfallible, ItemOk, Bag, Tombs;
    CountedSized(t, hash);
    CapacityFacts(t);
    PutNewInfallibleCorrect(t, it, hash);
  }

  ghost function ItemKeys<K, V>(items: seq<Item<K, V>>): set<K> {
    set it | it in items :: it.key
  }

  /** Unless one fails, the insertions add exactly their keys; without a rehash they make no tombstone. */
  lemma {:induction false} PutNewAllCorrect<K, V>(t: Table<K, V>, items: seq<Item<K, V>>, alloc: bool,
                                                  hash: K -> HashNumber)
    requires Inv(t, hash) && FreshKeys(items, View(t), hash)
    ensures var (t', ok) := PutNewAll(t, items, alloc);
      && Inv(t', hash)
      && (ok ==> View(t').Keys == View(t).Keys + ItemKeys(items))
      && (t.removedCount == 0 && t'.gen == t.gen ==> t'.removedCount == 0 && t'.log2 == t.log2)
    decreases |items|
  {
    hide Inv, View, PutNew, MustFail, ItemOk, Overloaded;
    if items != [] {
      PutNewGen(t, items[0], alloc, hash);
      PutNewCorrect(t, items[0], alloc, hash);
      var r := PutNew(t, items[0], alloc);
      if r.status != RehashFailed {
        if t.removedCount == 0 && r.status == NotOverloaded {
          CleanCounts(t, items[0], alloc, hash);
        }
        GenGrows(r.table, items[1..], alloc, hash);
        PutNewAllCorrect(r.table, items[1..], alloc, hash);
        assert ItemKeys(items) == {items[0].key} + ItemKeys(items[1..]) by {
          assert items == [items[0]] + items[1..];
        }
      }
    }
  }

  /**
   * From a table without tombstones, inserting new keys one by one all succeeds without a
   * rehash, whatever the allocator answers, exactly when they end within three quarters.
   */
  lemma {:induction false} InsertsWithoutRehash<K, V>(t: Table<K, V>, items: seq<Item<K, V>>, alloc: bool,
                                                      hash: K -> HashNumber)
    requires Inv(t, hash) && t.removedCount == 0 && FreshKeys(items, View(t), hash)
    ensures var (t', ok) := PutNewAll(t, items, alloc);
      (ok && t'.gen == t.gen) <==> 4 * (t.entryCount + |items|) <= 3 * Capacity(t)
    decreases |items|
  {
    hide Pow2, Counted, View, PutNew, MustFail, ItemOk;
    CapacityFacts(t);
    if items != [] {
      PutNewGen(t, items[0], alloc, hash);
      PutNewCorrect(t, items[0], alloc, hash);
      var r := PutNew(t, items[0], alloc);
      if r.status == NotOverloaded {
        CleanCounts(t, items[0], alloc, hash);
        InsertsWithoutRehash(r.table, items[1..], alloc, hash);
      } else if r.status == Rehashed {
        GenGrows(r.table, items[1..], alloc, hash);
      }
    }
  }

  /**
   * After `init(length)` the next `length` insertions of distinct keys succeed and leave the
   * generation alone, and in no smaller legal capacity would they.
   */
  lemma InitIsEnough<K, V>(length: nat, gen: nat, items: seq<Item<K, V>>, alloc: bool, hash: K -> HashNumber)
    requires length <= MAX_INIT && |items| == length && FreshKeys(items, map[], hash)
    ensures var t := Init<K, V>(length, gen, true);
      && t.Some?
      && (var (t', ok) := PutNewAll(t.value, items, alloc); ok && t'.gen == gen)
      && forall c: Log2 :: c < t.value.log2 ==>
           var (t', ok) := PutNewAll(Table(Empty(c), c, 0, 0, gen), items, alloc); !(ok && t'.gen == gen)
  {
    hide Pow2, PutNewAll, FreshKeys;
    InitSmallest<K, V>(length, gen, hash);
    var t := Init<K, V>(length, gen, true).value;
    InsertsWithoutRehash(t, items, alloc, hash);
    forall c: Log2 | c < t.log2
      ensures var (t', ok) := PutNewAll(Table(Empty(c), c, 0, 0, gen), items, alloc); !(ok && t'.gen == gen)
    {
      var u: Table<K, V> := Table(Empty(c), c, 0, 0, gen);
      EmptyCoherent<K, V>(c, hash);
      assert Keys<K, V>(multiset{}) == {};
      assert View(u) == map[];
      InsertsWithoutRehash(u, items, alloc, hash);
    }
  }
}
