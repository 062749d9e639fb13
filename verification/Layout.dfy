/** Storage layouts: the probe-path invariant, searching, inserting and removing. */
module Layout {
  import opened Powers
  import opened Slots
  import opened Probing
  import opened Bags

  ghost predicate Sized<K, V>(s: seq<Slot<K, V>>, k: Log2) {
    |s| == Pow2(k)
  }

  /** The word tells whether the memory is in use, and of a live slot it is the key's prepared hash. */
  ghost predicate SlotOk<K, V>(x: Slot<K, V>, hash: K -> HashNumber) {
    && x.WellFormed()
    && (x.IsLive() ==> x.KeyHash() == PrepareHash(hash(x.mem.value.0)))
  }

  ghost predicate SlotsOk<K, V>(s: seq<Slot<K, V>>, hash: K -> HashNumber) {
    forall i :: 0 <= i < |s| ==> SlotOk(s[i], hash)
  }

  /** Every slot strictly earlier than `i` on the probe path of `h` has its collision bit set. */
  ghost predicate PathMarked<K, V>(s: seq<Slot<K, V>>, k: Log2, h: HashNumber, i: nat)
    requires Sized(s, k) && i < |s|
  {
    forall m :: 0 <= m < |s| && Rank(k, h, m) < Rank(k, h, i) ==> s[m].HasCollision()
  }

  ghost predicate PathsOk<K, V>(s: seq<Slot<K, V>>, k: Log2)
    requires Sized(s, k)
  {
    forall i :: 0 <= i < |s| && s[i].IsLive() ==> PathMarked(s, k, s[i].KeyHash(), i)
  }

  /** The layout invariant, apart from keys being distinct. */
  ghost predicate Coherent<K, V>(s: seq<Slot<K, V>>, k: Log2, hash: K -> HashNumber) {
    Sized(s, k) && SlotsOk(s, hash) && PathsOk(s, k)
  }

  ghost predicate WellLaid<K, V>(s: seq<Slot<K, V>>, k: Log2, hash: K -> HashNumber) {
    Coherent(s, k, hash) && DistinctKeys(Bag(s))
  }

  ghost function ContentsOf<K, V>(s: seq<Slot<K, V>>): map<K, V> {
    Contents(Bag(s))
  }

  // ---------------------------------------------------------------- marking

  /** Set the collision bit on the first `d` slots of the probe path of `h`. */
  ghost function MarkTo<K, V>(s: seq<Slot<K, V>>, k: Log2, h: HashNumber, d: nat): (t: seq<Slot<K, V>>)
    requires Sized(s, k)
    ensures Sized(t, k)
    ensures forall i :: 0 <= i < |s| ==> t[i] == if Rank(k, h, i) < d then s[i].SetCollision() else s[i]
  {
    seq(|s|, i requires 0 <= i < |s| => if Rank(k, h, i) < d then s[i].SetCollision() else s[i])
  }

  lemma MarkStep<K, V>(s: seq<Slot<K, V>>, k: Log2, h: HashNumber, j: nat)
    requires Sized(s, k) && j < |s|
    ensures MarkTo(s, k, h, j)[Probe(k, h, j)] == s[Probe(k, h, j)]
    ensures MarkTo(s, k, h, j + 1) == MarkTo(s, k, h, j)[Probe(k, h, j) := s[Probe(k, h, j)].SetCollision()]
  {
    RankOfProbe(k, h, j);
    var i := Probe(k, h, j);
    var t, t' := MarkTo(s, k, h, j), MarkTo(s, k, h, j + 1);
    assert t' == t[i := s[i].SetCollision()];
  }

  lemma MarkNone<K, V>(s: seq<Slot<K, V>>, k: Log2, h: HashNumber)
    requires Sized(s, k)
    ensures MarkTo(s, k, h, 0) == s
  {
  }

  /** The first `d` slots of the path of `h` are not free. */
  ghost predicate NoneFree<K, V>(s: seq<Slot<K, V>>, k: Log2, h: HashNumber, d: nat)
    requires Sized(s, k)
  {
    forall m :: 0 <= m < |s| && Rank(k, h, m) < d ==> !s[m].IsFree()
  }

  lemma SetCollisionKeeps<K, V>(x: Slot<K, V>, hash: K -> HashNumber)
    requires SlotOk(x, hash) && !x.IsFree()
    ensures var y := x.SetCollision();
      && SlotOk(y, hash) && y.HasCollision() && One(y) == One(x)
      && y.IsRemoved() == x.IsRemoved() && y.IsLive() == x.IsLive() && y.KeyHash() == x.KeyHash()
  {
    hide DropBit, WithBit, PrepareHash;
  }

  /** Marking non-free slots only sets bits: same entries, same tombstones, and the invariant stays. */
  lemma MarkKeeps<K, V>(s: seq<Slot<K, V>>, k: Log2, h: HashNumber, d: nat, hash: K -> HashNumber)
    requires Coherent(s, k, hash) && NoneFree(s, k, h, d)
    ensures Coherent(MarkTo(s, k, h, d), k, hash)
    ensures Bag(MarkTo(s, k, h, d)) == Bag(s)
    ensures Tombs(MarkTo(s, k, h, d)) == Tombs(s)
  {
    hide Probe, Rank, One, Bag, Tombs, SlotOk;
    var t := MarkTo(s, k, h, d);
    forall i | 0 <= i < |s|
      ensures SlotOk(t[i], hash) && One(t[i]) == One(s[i])
      ensures t[i].IsRemoved() == s[i].IsRemoved() && t[i].IsLive() == s[i].IsLive()
      ensures t[i].KeyHash() == s[i].KeyHash()
      ensures s[i].HasCollision() ==> t[i].HasCollision()
    {
      if Rank(k, h, i) < d {
        SetCollisionKeeps(s[i], hash);
      }
    }
    BagPointwise(s, t);
    TombsPointwise(s, t);
    forall i | 0 <= i < |t| && t[i].IsLive() ensures PathMarked(t, k, t[i].KeyHash(), i) {
      PathMarkedGrows(s, t, k, t[i].KeyHash(), i);
    }
  }

  // ---------------------------------------------------------------- inserting

  /** The first step from `j` on whose slot is not live; the last step when there is none. */
  ghost function Seek<K, V>(s: seq<Slot<K, V>>, k: Log2, h: HashNumber, j: nat): (d: nat)
    requires Sized(s, k) && j < |s|
    ensures j <= d < |s|
    ensures forall e :: j <= e < d ==> s[Probe(k, h, e)].IsLive()
    ensures d == |s| - 1 || !s[Probe(k, h, d)].IsLive()
    decreases |s| - j
  {
    if j == |s| - 1 || !s[Probe(k, h, j)].IsLive() then j else Seek(s, k, h, j + 1)
  }

  /** Where `findFreeEntry` stops: the first slot on the path that is not live. */
  ghost function FreeEntry<K, V>(s: seq<Slot<K, V>>, k: Log2, h: HashNumber): (i: nat)
    requires Sized(s, k)
    ensures i < |s|
  {
    Probe(k, h, Seek(s, k, h, 0))
  }

  lemma FreeEntryFirst<K, V>(s: seq<Slot<K, V>>, k: Log2, h: HashNumber)
    requires Sized(s, k)
    requires exists i :: 0 <= i < |s| && !s[i].IsLive()
    ensures var i := FreeEntry(s, k, h);
      && !s[i].IsLive()
      && Rank(k, h, i) == Seek(s, k, h, 0)
      && forall m :: 0 <= m < |s| && Rank(k, h, m) < Rank(k, h, i) ==> s[m].IsLive()
  {
    var d := Seek(s, k, h, 0);
    RankOfProbe(k, h, d);
    forall m | 0 <= m < |s| && Rank(k, h, m) < d ensures s[m].IsLive() {
      assert Probe(k, h, Rank(k, h, m)) == m;
    }
    var i :| 0 <= i < |s| && !s[i].IsLive();
    assert Probe(k, h, Rank(k, h, i)) == i;
  }

  /** `findFreeEntry` followed by `setLive`; a recycled tombstone keeps its collision bit. */
  ghost function Insert<K, V>(s: seq<Slot<K, V>>, k: Log2, it: Item<K, V>): (t: seq<Slot<K, V>>)
    requires Sized(s, k)
    ensures Sized(t, k)
  {
    var i := FreeEntry(s, k, it.stem);
    MarkTo(s, k, it.stem, Seek(s, k, it.stem, 0))[i := Fill(s[i], it)]
  }

  ghost predicate ItemOk<K, V>(it: Item<K, V>, hash: K -> HashNumber) {
    it.stem == PrepareHash(hash(it.key))
  }

  /** The word `setLive` stores for `it` over the slot `x`. */
  ghost function Fill<K, V>(x: Slot<K, V>, it: Item<K, V>): Slot<K, V> {
    LiveSlot(if x.IsRemoved() then WithBit(it.stem) else it.stem, it.key, it.value)
  }

  lemma FillFacts<K, V>(x: Slot<K, V>, it: Item<K, V>)
    requires !x.IsLive() && IsStem(it.stem)
    ensures Fill(x, it).IsLive() && Fill(x, it).WellFormed() && Fill(x, it).Get() == it
    ensures Fill(x, it).KeyHash() == it.stem
    ensures Fill(x, it).HasCollision() <==> x.IsRemoved()
    ensures x.HasCollision() <==> x.IsRemoved()
  {
  }

  lemma FillCounts<K, V>(s: seq<Slot<K, V>>, i: nat, it: Item<K, V>)
    requires i < |s| && !s[i].IsLive() && IsStem(it.stem)
    ensures Bag(s[i := Fill(s[i], it)]) == Bag(s) + multiset{it}
    ensures Tombs(s[i := Fill(s[i], it)]) == Tombs(s) - if s[i].IsRemoved() then 1 else 0
  {
    hide Bag, Tombs, Fill;
    var x := Fill(s[i], it);
    FillFacts(s[i], it);
    BagUpdate(s, i, x);
    TombsUpdate(s, i, x);
    assert One(s[i]) == multiset{} && One(x) == multiset{it};
    assert Bag(s[i := x]) + multiset{} == Bag(s[i := x]);
  }

  /** A path stays marked when no collision bit is lost. */
  lemma PathMarkedGrows<K, V>(s: seq<Slot<K, V>>, t: seq<Slot<K, V>>, k: Log2, h: HashNumber, i: nat)
    requires Sized(s, k) && Sized(t, k) && i < |s| && PathMarked(s, k, h, i)
    requires forall m :: 0 <= m < |s| && s[m].HasCollision() ==> t[m].HasCollision()
    ensures PathMarked(t, k, h, i)
  {
    hide Probe, Rank;
  }

  /** Writing a live entry at a non-live slot whose path is marked keeps the invariant. */
  lemma FillKeeps<K, V>(s: seq<Slot<K, V>>, k: Log2, i: nat, it: Item<K, V>, hash: K -> HashNumber)
    requires Coherent(s, k, hash) && ItemOk(it, hash)
    requires i < |s| && !s[i].IsLive() && PathMarked(s, k, it.stem, i)
    ensures Coherent(s[i := Fill(s[i], it)], k, hash)
  {
    hide Probe, Rank, Fill, PrepareHash;
    var x := Fill(s[i], it);
    var t := s[i := x];
    FillFacts(s[i], it);
    forall m | 0 <= m < |t| && t[m].IsLive() ensures PathMarked(t, k, t[m].KeyHash(), m) {
      PathMarkedGrows(s, t, k, t[m].KeyHash(), m);
    }
    assert forall m :: 0 <= m < |s| ==> SlotOk(s[m], hash);
  }

  /** The slot `findFreeEntry` returns, once the path to it is marked. */
  lemma FreeEntryReady<K, V>(s: seq<Slot<K, V>>, k: Log2, h: HashNumber, hash: K -> HashNumber)
    requires Coherent(s, k, hash) && |Bag(s)| < |s|
    ensures var i, t := FreeEntry(s, k, h), MarkTo(s, k, h, Seek(s, k, h, 0));
      && !s[i].IsLive() && t[i] == s[i]
      && Coherent(t, k, hash) && PathMarked(t, k, h, i)
      && Bag(t) == Bag(s) && Tombs(t) == Tombs(s)
  {
    hide Probe, Rank, Seek, Bag, Tombs, MarkTo;
    assert forall i :: 0 <= i < |s| ==> SlotOk(s[i], hash);
    RoomLeft(s);
    FreeEntryFirst(s, k, h);
    MarkKeeps(s, k, h, Seek(s, k, h, 0), hash);
  }

  lemma InsertKeeps<K, V>(s: seq<Slot<K, V>>, k: Log2, it: Item<K, V>, hash: K -> HashNumber)
    requires Coherent(s, k, hash) && ItemOk(it, hash) && |Bag(s)| < |s|
    ensures Coherent(Insert(s, k, it), k, hash)
    ensures Bag(Insert(s, k, it)) == Bag(s) + multiset{it}
    ensures Tombs(Insert(s, k, it)) == Tombs(s) - if s[FreeEntry(s, k, it.stem)].IsRemoved() then 1 else 0
    ensures !s[FreeEntry(s, k, it.stem)].IsLive()
    ensures var x := Insert(s, k, it)[FreeEntry(s, k, it.stem)];
      && x.IsLive() && x.WellFormed() && x.Get() == it
      && (x.HasCollision() <==> s[FreeEntry(s, k, it.stem)].IsRemoved())
  {
    hide Probe, Rank, Seek, Bag, Tombs, Fill, PrepareHash;
    FreeEntryReady(s, k, it.stem, hash);
    var i, t := FreeEntry(s, k, it.stem), MarkTo(s, k, it.stem, Seek(s, k, it.stem, 0));
    FillFacts(t[i], it);
    FillKeeps(t, k, i, it, hash);
    FillCounts(t, i, it);
  }

  // ---------------------------------------------------------------- removing

  /** `remove(Entry&)`: a slot on nobody's path becomes free, any other a tombstone. */
  ghost function RemoveAt<K, V>(s: seq<Slot<K, V>>, i: nat): seq<Slot<K, V>>
    requires i < |s|
  {
    s[i := if s[i].HasCollision() then Tombstone() else FreeSlot()]
  }

  lemma RemoveCounts<K, V>(s: seq<Slot<K, V>>, i: nat)
    requires i < |s| && s[i].IsLive() && s[i].WellFormed()
    ensures s[i].Get() in Bag(s)
    ensures Bag(RemoveAt(s, i)) == Bag(s) - multiset{s[i].Get()}
    ensures Tombs(RemoveAt(s, i)) == Tombs(s) + if s[i].HasCollision() then 1 else 0
  {
    hide Bag, Tombs;
    SlotInBag(s, i);
    var x := RemoveAt(s, i)[i];
    BagUpdate(s, i, x);
    TombsUpdate(s, i, x);
    assert One(s[i]) == multiset{s[i].Get()} && One(x) == multiset{};
    assert s[i].Get() in One(s[i]);
    assert Bag(s) == Bag(RemoveAt(s, i)) + multiset{s[i].Get()};
  }

  /** Freeing a slot whose bit is clear, or burying one whose bit is set, hides no other entry. */
  lemma RemoveKeeps<K, V>(s: seq<Slot<K, V>>, k: Log2, i: nat, hash: K -> HashNumber)
    requires Coherent(s, k, hash) && i < |s| && s[i].IsLive()
    ensures Coherent(RemoveAt(s, i), k, hash)
  {
    hide Probe, Rank, PrepareHash;
    assert SlotOk(s[i], hash);
    var t := RemoveAt(s, i);
    assert t[i].HasCollision() == s[i].HasCollision();
    forall m | 0 <= m < |t| && t[m].IsLive() ensures PathMarked(t, k, t[m].KeyHash(), m) {
      assert PathMarked(s, k, s[m].KeyHash(), m);
    }
  }

  // ---------------------------------------------------------------- searching

  ghost predicate Hits<K, V>(x: Slot<K, V>, h: HashNumber, key: K) {
    x.MatchHash(h) && x.mem.Some? && x.mem.value.0 == key
  }

  /** The first step from `j` on at a free slot or at the wanted entry; the last step when there is none. */
  ghost function Stop<K, V>(s: seq<Slot<K, V>>, k: Log2, h: HashNumber, key: K, j: nat): (d: nat)
    requires Sized(s, k) && j < |s|
    ensures j <= d < |s|
    ensures forall e :: j <= e < d ==> !s[Probe(k, h, e)].IsFree() && !Hits(s[Probe(k, h, e)], h, key)
    ensures d == |s| - 1 || s[Probe(k, h, d)].IsFree() || Hits(s[Probe(k, h, d)], h, key)
    decreases |s| - j
  {
    if j == |s| - 1 || s[Probe(k, h, j)].IsFree() || Hits(s[Probe(k, h, j)], h, key) then j
    else Stop(s, k, h, key, j + 1)
  }

  /** The first step from `j` on, before `d`, at a tombstone; `d` when there is none. */
  ghost function FirstRemoved<K, V>(s: seq<Slot<K, V>>, k: Log2, h: HashNumber, j: nat, d: nat): (e: nat)
    requires Sized(s, k) && j <= d < |s|
    ensures j <= e <= d
    ensures e < d ==> s[Probe(k, h, e)].IsRemoved()
    ensures forall x :: j <= x < e ==> !s[Probe(k, h, x)].IsRemoved()
    decreases d - j
  {
    if j == d || s[Probe(k, h, j)].IsRemoved() then j else FirstRemoved(s, k, h, j + 1, d)
  }

  /** The slot a search returns: the entry itself, or on a miss the slot where it may be added. */
  ghost function Target<K, V>(s: seq<Slot<K, V>>, k: Log2, h: HashNumber, key: K): (i: nat)
    requires Sized(s, k)
    ensures i < |s|
  {
    var d := Stop(s, k, h, key, 0);
    if Hits(s[Probe(k, h, d)], h, key) then Probe(k, h, d)
    else Probe(k, h, FirstRemoved(s, k, h, 0, d))
  }

  lemma StopFirst<K, V>(s: seq<Slot<K, V>>, k: Log2, h: HashNumber, key: K)
    requires Sized(s, k)
    requires exists i :: 0 <= i < |s| && s[i].IsFree()
    ensures var d := Stop(s, k, h, key, 0); var i := Probe(k, h, d);
      && Rank(k, h, i) == d
      && (s[i].IsFree() || Hits(s[i], h, key))
      && (forall m :: 0 <= m < |s| && Rank(k, h, m) < d ==> !s[m].IsFree() && !Hits(s[m], h, key))
  {
    hide Probe, Rank, Hits;
    var d := Stop(s, k, h, key, 0);
    var p := Probe(k, h, d);
    RankOfProbe(k, h, d);
    forall m | 0 <= m < |s| && Rank(k, h, m) < d ensures !s[m].IsFree() && !Hits(s[m], h, key) {
      assert Probe(k, h, Rank(k, h, m)) == m;
    }
    var i :| 0 <= i < |s| && s[i].IsFree();
    assert Probe(k, h, Rank(k, h, i)) == i;
  }

  /** Every entry is found by a search for its key. */
  lemma SearchFinds<K, V>(s: seq<Slot<K, V>>, k: Log2, key: K, i: nat, hash: K -> HashNumber)
    requires WellLaid(s, k, hash)
    requires exists f :: 0 <= f < |s| && s[f].IsFree()
    requires i < |s| && s[i].IsLive() && s[i].mem.Some? && s[i].mem.value.0 == key
    ensures Target(s, k, PrepareHash(hash(key)), key) == i
    ensures Probe(k, PrepareHash(hash(key)), Stop(s, k, PrepareHash(hash(key)), key, 0)) == i
  {
    hide Probe, Rank, Stop, PrepareHash, Bag;
    var h := PrepareHash(hash(key));
    assert SlotOk(s[i], hash);
    StopFirst(s, k, h, key);
    var p := Probe(k, h, Stop(s, k, h, key, 0));
    assert Hits(s[i], h, key);
    assert PathMarked(s, k, s[i].KeyHash(), i);
    if !s[p].IsFree() {
      HitIsLive(s, k, p, h, key, hash);
      SameKeySameSlot(s, k, p, i, hash);
    }
  }

  lemma HitIsLive<K, V>(s: seq<Slot<K, V>>, k: Log2, i: nat, h: HashNumber, key: K, hash: K -> HashNumber)
    requires SlotsOk(s, hash) && IsStem(h) && i < |s| && Hits(s[i], h, key)
    ensures s[i].IsLive() && s[i].WellFormed() && s[i].Get().key == key
  {
    assert SlotOk(s[i], hash);
  }

  lemma SameKeySameSlot<K, V>(s: seq<Slot<K, V>>, k: Log2, i: nat, j: nat, hash: K -> HashNumber)
    requires WellLaid(s, k, hash)
    requires i < |s| && j < |s| && s[i].IsLive() && s[j].IsLive()
    requires s[i].mem.Some? && s[j].mem.Some? && s[i].mem.value.0 == s[j].mem.value.0
    ensures i == j
  {
    hide Probe, Rank, PrepareHash, BagTo;
    assert SlotOk(s[i], hash) && SlotOk(s[j], hash);
    if i != j {
      var it := s[i].Get();
      SlotInBag(s, i);
      SlotInBag(s, j);
      assert it in One(s[i]) && s[j].Get() in One(s[j]);
      assert it == s[j].Get();
      RemoveCounts(s, i);
      SlotInBag(RemoveAt(s, i), j);
    }
  }

  lemma LiveInContents<K, V>(s: seq<Slot<K, V>>, k: Log2, i: nat, hash: K -> HashNumber)
    requires WellLaid(s, k, hash) && i < |s| && s[i].IsLive()
    ensures s[i].WellFormed() && s[i].Get() in Bag(s)
    ensures s[i].Get().key in ContentsOf(s) && ContentsOf(s)[s[i].Get().key] == s[i].Get().value
  {
    assert SlotOk(s[i], hash);
    SlotInBag(s, i);
    assert s[i].Get() in One(s[i]);
    ContentsHas(Bag(s), s[i].Get());
  }

  /** The slot holding a key of the map. */
  lemma KeyHasSlot<K, V>(s: seq<Slot<K, V>>, k: Log2, key: K, hash: K -> HashNumber) returns (i: nat)
    requires WellLaid(s, k, hash) && key in ContentsOf(s)
    ensures i < |s| && s[i].IsLive() && s[i].WellFormed()
    ensures s[i].Get().key == key && s[i].Get().value == ContentsOf(s)[key]
  {
    ContentsKey(Bag(s), key);
    var it := ItemOf(Bag(s), key);
    i := BagHasSlot(s, it);
    LiveInContents(s, k, i, hash);
  }

  /** A search finds a live entry exactly when the key is in the map, and then that key's entry. */
  lemma SearchCorrect<K, V>(s: seq<Slot<K, V>>, k: Log2, key: K, hash: K -> HashNumber)
    requires WellLaid(s, k, hash)
    requires exists f :: 0 <= f < |s| && s[f].IsFree()
    ensures var h := PrepareHash(hash(key)); var i := Target(s, k, h, key);
      && (s[i].IsLive() <==> key in ContentsOf(s))
      && (s[i].IsLive() <==> Hits(s[Probe(k, h, Stop(s, k, h, key, 0))], h, key))
      && (s[i].IsLive() ==> s[i].WellFormed() && s[i].Get() == Item(h, key, ContentsOf(s)[key]))
  {
    hide Probe, Rank, PrepareHash, Stop, Bag;
    var h := PrepareHash(hash(key));
    if key in ContentsOf(s) {
      var i := KeyHasSlot(s, k, key, hash);
      assert SlotOk(s[i], hash);
      SearchFinds(s, k, key, i, hash);
    } else {
      StopFirst(s, k, h, key);
      var p := Probe(k, h, Stop(s, k, h, key, 0));
      if Hits(s[p], h, key) {
        HitIsLive(s, k, p, h, key, hash);
        LiveInContents(s, k, p, hash);
      }
    }
  }

  /** On a miss a search ends where `findFreeEntry` would: at the first slot of the path that is not live. */
  lemma MissIsFreeEntry<K, V>(s: seq<Slot<K, V>>, k: Log2, h: HashNumber, key: K)
    requires Sized(s, k)
    requires exists i :: 0 <= i < |s| && s[i].IsFree()
    requires !Hits(s[Probe(k, h, Stop(s, k, h, key, 0))], h, key)
    ensures Target(s, k, h, key) == FreeEntry(s, k, h)
  {
    hide Pow2, Probe, Rank, Hits, Stop, Seek, FirstRemoved;
    StopFirst(s, k, h, key);
    FreeEntryFirst(s, k, h);
    var d := Stop(s, k, h, key, 0);
    var e := FirstRemoved(s, k, h, 0, d);
    RankOfProbe(k, h, e);
    var i, f := Probe(k, h, e), FreeEntry(s, k, h);
    assert !s[i].IsLive();
    forall m | 0 <= m < |s| && Rank(k, h, m) < e ensures s[m].IsLive() {
      assert Probe(k, h, Rank(k, h, m)) == m;
    }
    assert Rank(k, h, i) == Rank(k, h, f);
    assert Probe(k, h, Rank(k, h, i)) == i && Probe(k, h, Rank(k, h, f)) == f;
  }
}
