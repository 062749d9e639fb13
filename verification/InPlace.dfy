/** When a rehash without a second table leaves every entry where it is. */
module InPlace {
  import opened Slots
  import opened Probing
  import opened Bags
  import opened Layout
  import opened Rebuild

  /** Every slot earlier on the path of the entry at `i` holds an entry, and the rehash comes to it before `i`. */
  ghost predicate SettledAt<K, V>(s: seq<Slot<K, V>>, k: Log2, i: nat)
    requires Sized(s, k) && i < |s|
  {
    var h := s[i].KeyHash();
    forall m :: 0 <= m < |s| && Rank(k, h, m) < Rank(k, h, i) ==> s[m].IsLive() && m < i
  }

  ghost predicate Settled<K, V>(s: seq<Slot<K, V>>, k: Log2)
    requires Sized(s, k)
  {
    forall i :: 0 <= i < |s| && s[i].IsLive() ==> SettledAt(s, k, i)
  }

  /** Slot `y` holds the entry of slot `x`. */
  ghost predicate SameEntry<K, V>(x: Slot<K, V>, y: Slot<K, V>) {
    y.IsLive() && y.KeyHash() == x.KeyHash() && y.mem == x.mem
  }

  /** Every entry of `s` is in the same slot of `t`. */
  ghost predicate Unmoved<K, V>(s: seq<Slot<K, V>>, t: seq<Slot<K, V>>) {
    |t| == |s| && forall i :: 0 <= i < |s| && s[i].IsLive() ==> SameEntry(s[i], t[i])
  }

  /** Being settled depends only on which slots are live and on their hash words without the bit. */
  lemma SettledSame<K, V>(s: seq<Slot<K, V>>, u: seq<Slot<K, V>>, k: Log2)
    requires Sized(s, k) && Sized(u, k)
    requires forall i :: 0 <= i < |s| ==>
      s[i].IsLive() == u[i].IsLive() && (s[i].IsLive() ==> s[i].KeyHash() == u[i].KeyHash())
    ensures Settled(s, k) <==> Settled(u, k)
  {
    hide Rank, DropBit, IsLiveHash;
    forall i | 0 <= i < |s| && s[i].IsLive() ensures SettledAt(s, k, i) <==> SettledAt(u, k, i) {
    }
  }

  lemma UnmarkLive<K, V>(s: seq<Slot<K, V>>)
    ensures forall i :: 0 <= i < |s| ==> Unmark(s)[i].IsLive() == s[i].IsLive() && !Unmark(s)[i].HasCollision()
    ensures forall i :: 0 <= i < |s| ==> Unmark(s)[i].KeyHash() == s[i].KeyHash() && Unmark(s)[i].mem == s[i].mem
  {
  }

  lemma MarkedEntry<K, V>(x: Slot<K, V>)
    requires x.IsLive()
    ensures SameEntry(x, x.SetCollision()) && x.SetCollision().HasCollision()
  {
  }

  // ---------------------------------------------------------------- placed entries stay

  lemma PlaceLeavesPlaced<K, V>(s: seq<Slot<K, V>>, k: Log2, i: nat, e: nat)
    requires Sized(s, k) && i < |s| && e < |s| && !s[i].HasCollision() && s[e].HasCollision()
    ensures Place(s, k, i)[e] == s[e]
  {
    hide Probe, Rank, PlaceTarget;
    PlaceTargetFirst(s, k, i);
  }

  lemma {:induction false} PlacedStays<K, V>(s: seq<Slot<K, V>>, k: Log2, i: nat, e: nat)
    requires Sized(s, k) && i <= |s| && e < |s| && s[e].HasCollision()
    ensures RehashFrom(s, k, i)[e] == s[e]
    decreases ClearCount(s), |s| - i
  {
    hide Place, ClearCount;
    if i == |s| {
    } else if !s[i].IsLive() || s[i].HasCollision() {
      PlacedStays(s, k, i + 1, e);
    } else {
      PlaceProgress(s, k, i);
      PlaceLeavesPlaced(s, k, i, e);
      PlacedStays(Place(s, k, i), k, i, e);
    }
  }

  // ---------------------------------------------------------------- settled entries are placed where they are

  /** The storage when the entries below slot `i` have been placed where they were. */
  ghost function PlacedBelow<K, V>(s: seq<Slot<K, V>>, i: nat): (t: seq<Slot<K, V>>)
    ensures |t| == |s|
    ensures forall e :: 0 <= e < |s| ==> t[e] == if e < i && s[e].IsLive() then s[e].SetCollision() else s[e]
  {
    seq(|s|, e requires 0 <= e < |s| => if e < i && s[e].IsLive() then s[e].SetCollision() else s[e])
  }

  ghost predicate NoMarks<K, V>(s: seq<Slot<K, V>>) {
    forall i :: 0 <= i < |s| ==> !s[i].HasCollision()
  }

  /** The loop takes the entry at `i` to the first slot of its path that it has not settled before. */
  lemma TargetFacts<K, V>(s: seq<Slot<K, V>>, k: Log2, i: nat)
    requires Sized(s, k) && NoMarks(s) && i < |s| && s[i].IsLive()
    ensures var h, p := s[i].KeyHash(), PlaceTarget(PlacedBelow(s, i), k, i);
      && Rank(k, h, p) <= Rank(k, h, i)
      && !(s[p].IsLive() && p < i)
      && forall m :: 0 <= m < |s| && Rank(k, h, m) < Rank(k, h, p) ==> s[m].IsLive() && m < i
  {
    hide Probe, Rank, PlaceTarget, DropBit;
    var t := PlacedBelow(s, i);
    PlaceTargetFirst(t, k, i);
    var p := PlaceTarget(t, k, i);
    if s[p].IsLive() && p < i {
      MarkedEntry(s[p]);
    }
  }

  lemma TargetIsHome<K, V>(s: seq<Slot<K, V>>, k: Log2, i: nat)
    requires Sized(s, k) && NoMarks(s) && i < |s| && s[i].IsLive()
    ensures SettledAt(s, k, i) <==> PlaceTarget(PlacedBelow(s, i), k, i) == i
  {
    hide Rank, Probe, PlaceTarget, PlacedBelow, DropBit, IsLiveHash;
    TargetFacts(s, k, i);
    var h, p := s[i].KeyHash(), PlaceTarget(PlacedBelow(s, i), k, i);
    assert Probe(k, h, Rank(k, h, i)) == i && Probe(k, h, Rank(k, h, p)) == p;
  }

  lemma PlaceAtHome<K, V>(s: seq<Slot<K, V>>, k: Log2, i: nat)
    requires Sized(s, k) && NoMarks(s) && i < |s| && s[i].IsLive() && SettledAt(s, k, i)
    ensures Place(PlacedBelow(s, i), k, i) == PlacedBelow(s, i + 1)
    ensures PlacedBelow(s, i)[i] == s[i] && PlacedBelow(s, i + 1)[i].HasCollision()
  {
    hide Rank, Probe, PlaceTarget, SettledAt, DropBit;
    TargetIsHome(s, k, i);
    MarkedEntry(s[i]);
    assert Place(PlacedBelow(s, i), k, i) == PlacedBelow(s, i)[i := s[i].SetCollision()];
  }

  /** While the entries are settled, the loop leaves them where they are. */
  lemma {:induction false} SettledPrefix<K, V>(s: seq<Slot<K, V>>, k: Log2, i: nat)
    requires Sized(s, k) && NoMarks(s) && i <= |s|
    requires forall e :: 0 <= e < i && s[e].IsLive() ==> SettledAt(s, k, e)
    ensures RehashFrom(s, k, 0) == RehashFrom(PlacedBelow(s, i), k, i)
  {
    hide Place, SettledAt, ClearCount, DropBit;
    if i == 0 {
      assert PlacedBelow(s, 0) == s;
    } else {
      SettledPrefix(s, k, i - 1);
      if s[i - 1].IsLive() {
        PlaceAtHome(s, k, i - 1);
        RehashPlaces(PlacedBelow(s, i - 1), k, i - 1);
        RehashSkips(PlacedBelow(s, i), k, i - 1);
      } else {
        assert PlacedBelow(s, i) == PlacedBelow(s, i - 1);
        RehashSkips(PlacedBelow(s, i), k, i - 1);
      }
    }
  }

  lemma RehashPlaces<K, V>(s: seq<Slot<K, V>>, k: Log2, i: nat)
    requires Sized(s, k) && i < |s| && s[i].IsLive() && !s[i].HasCollision()
    ensures RehashFrom(s, k, i) == RehashFrom(Place(s, k, i), k, i)
  {
    hide Place;
  }

  lemma RehashSkips<K, V>(s: seq<Slot<K, V>>, k: Log2, i: nat)
    requires Sized(s, k) && i < |s| && (!s[i].IsLive() || s[i].HasCollision())
    ensures RehashFrom(s, k, i) == RehashFrom(s, k, i + 1)
  {
    hide Place;
  }

  lemma RehashEnds<K, V>(s: seq<Slot<K, V>>, k: Log2)
    requires Sized(s, k)
    ensures RehashFrom(s, k, |s|) == s
  {
  }

  lemma SettledIsUnmoved<K, V>(s: seq<Slot<K, V>>, k: Log2)
    requires Sized(s, k) && Settled(s, k)
    ensures Unmoved(s, RehashedInPlace(s, k))
  {
    hide Rank, Probe, RehashFrom, DropBit;
    var u := Unmark(s);
    UnmarkLive(s);
    SettledSame(s, u, k);
    SettledPrefix(u, k, |u|);
    RehashEnds(PlacedBelow(u, |u|), k);
    forall i | 0 <= i < |s| && s[i].IsLive() ensures SameEntry(s[i], RehashedInPlace(s, k)[i]) {
      MarkedEntry(u[i]);
    }
  }

  // ---------------------------------------------------------------- the first unsettled entry moves

  lemma {:induction false} LeastUnsettled<K, V>(s: seq<Slot<K, V>>, k: Log2, n: nat) returns (i: nat)
    requires Sized(s, k) && n <= |s|
    requires exists e :: 0 <= e < n && s[e].IsLive() && !SettledAt(s, k, e)
    ensures i < n && s[i].IsLive() && !SettledAt(s, k, i)
    ensures forall e :: 0 <= e < i && s[e].IsLive() ==> SettledAt(s, k, e)
    decreases n
  {
    hide SettledAt;
    if exists e :: 0 <= e < n - 1 && s[e].IsLive() && !SettledAt(s, k, e) {
      i := LeastUnsettled(s, k, n - 1);
    } else {
      i := n - 1;
    }
  }

  /**
   * When some entry is not settled, the first such one, at `i`, ends at an earlier slot `p` of its path.
   * Up to `p` that path has only entries at lower slots; `p` itself is free or holds an entry that comes later.
   */
  lemma UnsettledMoves<K, V>(s: seq<Slot<K, V>>, k: Log2) returns (i: nat, p: nat)
    requires Sized(s, k) && !Settled(s, k)
    ensures i < |s| && s[i].IsLive() && p < |s| && p != i
    ensures SameEntry(s[i], RehashedInPlace(s, k)[p])
    ensures Rank(k, s[i].KeyHash(), p) <= Rank(k, s[i].KeyHash(), i)
    ensures s[p].IsLive() ==> i < p
  {
    hide Rank, Probe, SettledAt, RehashFrom, PlaceTarget, DropBit, IsLiveHash, PlacedBelow;
    var u := Unmark(s);
    UnmarkLive(s);
    SettledSame(s, u, k);
    i := LeastUnsettled(u, k, |u|);
    SettledPrefix(u, k, i);
    TargetFacts(u, k, i);
    TargetIsHome(u, k, i);
    p := PlaceTarget(PlacedBelow(u, i), k, i);
    PlaceEnds(u, k, i);
  }

  lemma PlaceEnds<K, V>(s: seq<Slot<K, V>>, k: Log2, i: nat)
    requires Sized(s, k) && NoMarks(s) && i < |s| && s[i].IsLive()
    ensures SameEntry(s[i], RehashFrom(PlacedBelow(s, i), k, i)[PlaceTarget(PlacedBelow(s, i), k, i)])
  {
    hide Rank, Probe, RehashFrom, PlaceTarget, DropBit;
    var t := PlacedBelow(s, i);
    var p := PlaceTarget(t, k, i);
    RehashPlaces(t, k, i);
    MarkedEntry(s[i]);
    assert Place(t, k, i)[p] == s[i].SetCollision();
    PlacedStays(Place(t, k, i), k, i, p);
  }

  /** Two slots of a rehashed table do not hold the same entry. */
  lemma NoTwoPlaces<K, V>(s: seq<Slot<K, V>>, k: Log2, x: Slot<K, V>, i: nat, p: nat, hash: K -> HashNumber)
    requires WellLaid(s, k, hash) && i < |s| && p < |s| && x.mem.Some?
    requires SameEntry(x, RehashedInPlace(s, k)[i]) && SameEntry(x, RehashedInPlace(s, k)[p])
    ensures i == p
  {
    hide Bag, Tombs, Rank, Probe, RehashedInPlace, PathsOk;
    RehashedInPlaceCorrect(s, k, hash);
    SameKeySameSlot(RehashedInPlace(s, k), k, i, p, hash);
  }

  lemma LiveSome<K, V>(s: seq<Slot<K, V>>, k: Log2, i: nat, hash: K -> HashNumber)
    requires WellLaid(s, k, hash) && i < |s| && s[i].IsLive()
    ensures s[i].mem.Some?
  {
    hide Bag, PathsOk;
    assert SlotOk(s[i], hash);
  }

  /** A rehash in place leaves every entry in its slot exactly when the entries are settled. */
  lemma UnmovedIffSettled<K, V>(s: seq<Slot<K, V>>, k: Log2, hash: K -> HashNumber)
    requires WellLaid(s, k, hash)
    ensures Unmoved(s, RehashedInPlace(s, k)) <==> Settled(s, k)
  {
    hide Settled, RehashedInPlace, Coherent, DistinctKeys, SameEntry;
    WellSized(s, k, hash);
    if Settled(s, k) {
      SettledIsUnmoved(s, k);
    } else {
      var i, p := UnsettledMoves(s, k);
      LiveSome(s, k, i, hash);
      if Unmoved(s, RehashedInPlace(s, k)) {
        NoTwoPlaces(s, k, s[i], i, p, hash);
      }
    }
  }

  lemma WellSized<K, V>(s: seq<Slot<K, V>>, k: Log2, hash: K -> HashNumber)
    requires WellLaid(s, k, hash)
    ensures Sized(s, k)
  {
  }
}
