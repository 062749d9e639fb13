/** Multisets of live entries, the map they stand for, and the numbers of live and removed slots. */
module Bags {
  import opened Slots

  /** What one slot contributes to the bag of live entries. */
  ghost function One<K, V>(x: Slot<K, V>): multiset<Item<K, V>> {
    if x.IsLive() && x.WellFormed() then multiset{x.Get()} else multiset{}
  }

  /** The live entries of the first `n` slots. */
  ghost function BagTo<K, V>(s: seq<Slot<K, V>>, n: nat): multiset<Item<K, V>>
    requires n <= |s|
  {
    if n == 0 then multiset{} else BagTo(s, n - 1) + One(s[n - 1])
  }

  /** The live entries of a slot sequence. */
  ghost function Bag<K, V>(s: seq<Slot<K, V>>): multiset<Item<K, V>> {
    BagTo(s, |s|)
  }

  /** The number of tombstones among the first `n` slots. */
  ghost function TombsTo<K, V>(s: seq<Slot<K, V>>, n: nat): nat
    requires n <= |s|
  {
    if n == 0 then 0 else TombsTo(s, n - 1) + if s[n - 1].IsRemoved() then 1 else 0
  }

  /** The number of tombstones. */
  ghost function Tombs<K, V>(s: seq<Slot<K, V>>): nat {
    TombsTo(s, |s|)
  }

  lemma {:induction false} BagToPointwise<K, V>(s: seq<Slot<K, V>>, t: seq<Slot<K, V>>, n: nat)
    requires n <= |s| && n <= |t|
    requires forall i :: 0 <= i < n ==> One(s[i]) == One(t[i])
    ensures BagTo(s, n) == BagTo(t, n)
    decreases n
  {
    hide One;
    if n > 0 {
      BagToPointwise(s, t, n - 1);
    }
  }

  lemma BagPointwise<K, V>(s: seq<Slot<K, V>>, t: seq<Slot<K, V>>)
    requires |s| == |t|
    requires forall i :: 0 <= i < |s| ==> One(s[i]) == One(t[i])
    ensures Bag(s) == Bag(t)
  {
    BagToPointwise(s, t, |s|);
  }

  lemma {:induction false} TombsToPointwise<K, V>(s: seq<Slot<K, V>>, t: seq<Slot<K, V>>, n: nat)
    requires n <= |s| && n <= |t|
    requires forall i :: 0 <= i < n ==> (s[i].IsRemoved() <==> t[i].IsRemoved())
    ensures TombsTo(s, n) == TombsTo(t, n)
    decreases n
  {
    if n > 0 {
      TombsToPointwise(s, t, n - 1);
    }
  }

  lemma TombsPointwise<K, V>(s: seq<Slot<K, V>>, t: seq<Slot<K, V>>)
    requires |s| == |t|
    requires forall i :: 0 <= i < |s| ==> (s[i].IsRemoved() <==> t[i].IsRemoved())
    ensures Tombs(s) == Tombs(t)
  {
    TombsToPointwise(s, t, |s|);
  }

  lemma AddToBoth<T>(a: multiset<T>, x: multiset<T>, b: multiset<T>, y: multiset<T>, c: multiset<T>)
    requires a + x == b + y
    ensures (a + c) + x == (b + c) + y
  {
    assert (a + c) + x == (a + x) + c;
    assert (b + c) + y == (b + y) + c;
  }

  lemma {:induction false} BagToUpdate<K, V>(s: seq<Slot<K, V>>, i: nat, x: Slot<K, V>, n: nat)
    requires i < n <= |s|
    ensures BagTo(s[i := x], n) + One(s[i]) == BagTo(s, n) + One(x)
    decreases n
  {
    hide One;
    var t := s[i := x];
    if i == n - 1 {
      BagToPointwise(s, t, i);
      assert BagTo(t, n) == BagTo(s, i) + One(x);
    } else {
      BagToUpdate(s, i, x, n - 1);
      AddToBoth(BagTo(t, n - 1), One(s[i]), BagTo(s, n - 1), One(x), One(s[n - 1]));
    }
  }

  lemma BagUpdate<K, V>(s: seq<Slot<K, V>>, i: nat, x: Slot<K, V>)
    requires i < |s|
    ensures Bag(s[i := x]) + One(s[i]) == Bag(s) + One(x)
  {
    BagToUpdate(s, i, x, |s|);
  }

  lemma {:induction false} TombsToUpdate<K, V>(s: seq<Slot<K, V>>, i: nat, x: Slot<K, V>, n: nat)
    requires i < n <= |s|
    ensures TombsTo(s[i := x], n) + (if s[i].IsRemoved() then 1 else 0)
         == TombsTo(s, n) + (if x.IsRemoved() then 1 else 0)
    decreases n
  {
    if i == n - 1 {
      TombsToPointwise(s, s[i := x], i);
    } else {
      TombsToUpdate(s, i, x, n - 1);
    }
  }

  lemma TombsUpdate<K, V>(s: seq<Slot<K, V>>, i: nat, x: Slot<K, V>)
    requires i < |s|
    ensures Tombs(s[i := x]) + (if s[i].IsRemoved() then 1 else 0)
         == Tombs(s) + (if x.IsRemoved() then 1 else 0)
  {
    TombsToUpdate(s, i, x, |s|);
  }

  lemma {:induction false} NoTombsTo<K, V>(s: seq<Slot<K, V>>, n: nat)
    requires n <= |s|
    ensures TombsTo(s, n) == 0 <==> forall i :: 0 <= i < n ==> !s[i].IsRemoved()
    decreases n
  {
    if n > 0 {
      NoTombsTo(s, n - 1);
    }
  }

  lemma NoTombs<K, V>(s: seq<Slot<K, V>>)
    ensures Tombs(s) == 0 <==> forall i :: 0 <= i < |s| ==> !s[i].IsRemoved()
  {
    NoTombsTo(s, |s|);
  }

  lemma {:induction false} NoLiveTo<K, V>(s: seq<Slot<K, V>>, n: nat)
    requires n <= |s|
    requires forall i :: 0 <= i < n ==> !s[i].IsLive()
    ensures BagTo(s, n) == multiset{}
    decreases n
  {
    if n > 0 {
      NoLiveTo(s, n - 1);
    }
  }

  lemma NoLive<K, V>(s: seq<Slot<K, V>>)
    requires forall i :: 0 <= i < |s| ==> !s[i].IsLive()
    ensures Bag(s) == multiset{}
  {
    NoLiveTo(s, |s|);
  }

  lemma {:induction false} SlotInBagTo<K, V>(s: seq<Slot<K, V>>, i: nat, n: nat)
    requires i < n <= |s|
    ensures One(s[i]) <= BagTo(s, n)
    decreases n
  {
    hide One;
    if i < n - 1 {
      SlotInBagTo(s, i, n - 1);
    }
  }

  lemma SlotInBag<K, V>(s: seq<Slot<K, V>>, i: nat)
    requires i < |s|
    ensures One(s[i]) <= Bag(s)
  {
    SlotInBagTo(s, i, |s|);
  }

  lemma {:induction false} BagToHasSlot<K, V>(s: seq<Slot<K, V>>, it: Item<K, V>, n: nat) returns (i: nat)
    requires n <= |s| && it in BagTo(s, n)
    ensures i < n && s[i].IsLive() && s[i].WellFormed() && s[i].Get() == it
    decreases n
  {
    if it in One(s[n - 1]) {
      i := n - 1;
    } else {
      assert it in BagTo(s, n - 1);
      i := BagToHasSlot(s, it, n - 1);
    }
  }

  lemma BagHasSlot<K, V>(s: seq<Slot<K, V>>, it: Item<K, V>) returns (i: nat)
    requires it in Bag(s)
    ensures i < |s| && s[i].IsLive() && s[i].WellFormed() && s[i].Get() == it
  {
    i := BagToHasSlot(s, it, |s|);
  }

  lemma OneSize<K, V>(x: Slot<K, V>)
    ensures |One(x)| == if x.IsLive() && x.WellFormed() then 1 else 0
  {
  }

  /** Live and removed slots are disjoint, so together they fit in the table, with the free slots to spare. */
  lemma {:induction false} CountsTo<K, V>(s: seq<Slot<K, V>>, n: nat)
    requires n <= |s|
    ensures |BagTo(s, n)| + TombsTo(s, n) <= n
    ensures (forall i :: 0 <= i < n ==> s[i].WellFormed() && !s[i].IsFree()) ==>
              |BagTo(s, n)| + TombsTo(s, n) == n
    decreases n
  {
    hide One;
    if n > 0 {
      CountsTo(s, n - 1);
      OneSize(s[n - 1]);
    }
  }

  lemma CountsFit<K, V>(s: seq<Slot<K, V>>)
    ensures |Bag(s)| + Tombs(s) <= |s|
    ensures |Bag(s)| + Tombs(s) < |s| && (forall i :: 0 <= i < |s| ==> s[i].WellFormed()) ==>
              exists i :: 0 <= i < |s| && s[i].IsFree()
  {
    CountsTo(s, |s|);
  }

  lemma {:induction false} AllLiveTo<K, V>(s: seq<Slot<K, V>>, n: nat)
    requires n <= |s|
    ensures |BagTo(s, n)| <= n
    ensures (forall i :: 0 <= i < n ==> s[i].IsLive() && s[i].WellFormed()) <==> |BagTo(s, n)| == n
    decreases n
  {
    hide One;
    if n > 0 {
      AllLiveTo(s, n - 1);
      OneSize(s[n - 1]);
    }
  }

  lemma RoomLeft<K, V>(s: seq<Slot<K, V>>)
    requires |Bag(s)| < |s|
    requires forall i :: 0 <= i < |s| ==> s[i].WellFormed()
    ensures exists i :: 0 <= i < |s| && !s[i].IsLive()
  {
    AllLiveTo(s, |s|);
  }

  lemma HoleMeansRoom<K, V>(s: seq<Slot<K, V>>, i: nat)
    requires i < |s| && !s[i].IsLive()
    ensures |Bag(s)| < |s|
  {
    AllLiveTo(s, |s|);
  }

  /** No two entries of the bag have the same key. */
  ghost predicate DistinctKeys<K, V>(b: multiset<Item<K, V>>) {
    && (forall x, y :: x in b && y in b && x.key == y.key ==> x == y)
    && (forall x :: x in b ==> b[x] == 1)
  }

  ghost predicate HasKey<K, V>(b: multiset<Item<K, V>>, key: K) {
    exists it :: it in b && it.key == key
  }

  /** The entry with the given key. */
  ghost function ItemOf<K, V>(b: multiset<Item<K, V>>, key: K): (it: Item<K, V>)
    requires HasKey(b, key)
    ensures it in b && it.key == key
  {
    var it :| it in b && it.key == key;
    it
  }

  ghost function Keys<K, V>(b: multiset<Item<K, V>>): set<K> {
    set it | it in b :: it.key
  }

  /** The map that a bag of entries with distinct keys stands for. */
  ghost function Contents<K, V>(b: multiset<Item<K, V>>): (m: map<K, V>)
    ensures m.Keys == Keys(b)
  {
    map key | key in Keys(b) :: ItemOf(b, key).value
  }

  lemma ContentsHas<K, V>(b: multiset<Item<K, V>>, it: Item<K, V>)
    requires DistinctKeys(b) && it in b
    ensures it.key in Contents(b) && Contents(b)[it.key] == it.value
  {
    assert ItemOf(b, it.key) == it;
  }

  lemma ContentsKey<K, V>(b: multiset<Item<K, V>>, key: K)
    requires key in Contents(b)
    ensures HasKey(b, key)
  {
  }

  lemma DistinctAdd<K, V>(b: multiset<Item<K, V>>, it: Item<K, V>)
    requires DistinctKeys(b) && it.key !in Contents(b)
    ensures DistinctKeys(b + multiset{it})
  {
    var c := b + multiset{it};
    if it in b {
      ContentsHas(b, it);
    }
    forall x, y | x in c && y in c && x.key == y.key ensures x == y {
      if x in b { ContentsHas(b, x); }
      if y in b { ContentsHas(b, y); }
    }
  }

  lemma ContentsAdd<K, V>(b: multiset<Item<K, V>>, it: Item<K, V>)
    requires DistinctKeys(b) && it.key !in Contents(b)
    ensures DistinctKeys(b + multiset{it})
    ensures Contents(b + multiset{it}) == Contents(b)[it.key := it.value]
  {
    hide DistinctKeys, ItemOf;
    var c := b + multiset{it};
    DistinctAdd(b, it);
    ContentsHas(c, it);
    assert Keys(c) == Keys(b) + {it.key};
    forall key | key in Keys(b) ensures Contents(c)[key] == Contents(b)[key] {
      var x := ItemOf(b, key);
      ContentsHas(b, x);
      ContentsHas(c, x);
    }
  }

  lemma DistinctRemove<K, V>(b: multiset<Item<K, V>>, it: Item<K, V>)
    requires DistinctKeys(b) && it in b
    ensures DistinctKeys(b - multiset{it})
    ensures forall x :: x in b - multiset{it} <==> x in b && x.key != it.key
  {
    var c := b - multiset{it};
    assert c[it] == 0;
    forall x ensures x in c <==> x in b && x.key != it.key {
      if x != it {
        assert c[x] == b[x];
      }
    }
  }

  lemma ContentsRemove<K, V>(b: multiset<Item<K, V>>, it: Item<K, V>)
    requires DistinctKeys(b) && it in b
    ensures DistinctKeys(b - multiset{it})
    ensures Contents(b - multiset{it}) == Contents(b) - {it.key}
  {
    hide DistinctKeys, ItemOf, Keys, Contents;
    var c := b - multiset{it};
    DistinctRemove(b, it);
    KeysRemove(b, c, it);
    forall key | key in Contents(c) ensures Contents(c)[key] == Contents(b)[key] {
      ContentsKey(c, key);
      var x := ItemOf(c, key);
      ContentsHas(b, x);
      ContentsHas(c, x);
    }
    assert Contents(c).Keys == (Contents(b) - {it.key}).Keys;
  }

  lemma KeysRemove<K, V>(b: multiset<Item<K, V>>, c: multiset<Item<K, V>>, it: Item<K, V>)
    requires forall x :: x in c <==> x in b && x.key != it.key
    ensures Keys(c) == Keys(b) - {it.key}
  {
    forall key | key in Keys(b) && key != it.key ensures key in Keys(c) {
      var x :| x in b && x.key == key;
      assert x in c;
    }
  }

  lemma {:induction false} ContentsSize<K, V>(b: multiset<Item<K, V>>)
    requires DistinctKeys(b)
    ensures |Contents(b)| == |b|
    decreases |b|
  {
    hide DistinctKeys, ItemOf;
    if b == multiset{} {
      assert Keys(b) == {};
      assert Contents(b) == map[];
    } else {
      var it :| it in b;
      var c := b - multiset{it};
      ContentsHas(b, it);
      ContentsRemove(b, it);
      ContentsSize(c);
      assert |Keys(b)| == |Keys(c)| + 1 by {
        assert Keys(c) == Keys(b) - {it.key};
      }
    }
  }
}
