/** What a client of a mutating enumeration wants done to the map, and how far it has been done. */
module Plans {

  /** What a client decides for each entry: drop it, or keep its value under a possibly different key. */
  datatype Plan<!K, !V> = Plan(drop: (K, V) -> bool, move: (K, V) -> K)

  /** The entry of `k` is kept. */
  ghost predicate Kept<K, V>(m: map<K, V>, plan: Plan<K, V>, k: K)
    requires k in m
  {
    !plan.drop(k, m[k])
  }

  /** The key under which the entry of `k` is kept. */
  ghost function MovedTo<K, V>(m: map<K, V>, plan: Plan<K, V>, k: K): K
    requires k in m
  {
    plan.move(k, m[k])
  }

  /**
   * What the client owes, about the entries present at the start: kept entries move to different
   * keys, never onto another original key, and a moved entry is judged as it was before.
   */
  ghost predicate Sensible<K, V>(m: map<K, V>, plan: Plan<K, V>) {
    && (forall k, l :: k in m && l in m && Kept(m, plan, k) && Kept(m, plan, l) ==>
          (MovedTo(m, plan, k) == MovedTo(m, plan, l) ==> k == l))
    && (forall k :: k in m && Kept(m, plan, k) && MovedTo(m, plan, k) != k ==> MovedTo(m, plan, k) !in m)
    && (forall k :: k in m && Kept(m, plan, k) ==>
          && !plan.drop(MovedTo(m, plan, k), m[k])
          && plan.move(MovedTo(m, plan, k), m[k]) == MovedTo(m, plan, k))
  }

  /** The keys whose entries a plan drops. */
  ghost function Dropped<K, V>(m: map<K, V>, plan: Plan<K, V>): set<K> {
    set k | k in m && !Kept(m, plan, k)
  }

  /** The keys whose entries a plan moves to other keys. */
  ghost function Moved<K, V>(m: map<K, V>, plan: Plan<K, V>): set<K> {
    set k | k in m && Kept(m, plan, k) && MovedTo(m, plan, k) != k
  }

  /** The map `c` while the keys in `pending` are still to be visited. */
  ghost predicate Midway<K, V>(m: map<K, V>, c: map<K, V>, pending: set<K>, plan: Plan<K, V>) {
    && (forall k :: k in m && Kept(m, plan, k) ==>
          || (k in pending && k in c && c[k] == m[k])
          || (MovedTo(m, plan, k) in c && c[MovedTo(m, plan, k)] == m[k]))
    && (forall x :: x in c ==> Source(m, c, pending, plan, x))
    && (forall k :: k in m && Kept(m, plan, k) && k in c && MovedTo(m, plan, k) != k ==> MovedTo(m, plan, k) !in c)
  }

  /** `x` is a key not visited yet, or where a kept entry went. */
  ghost predicate Source<K, V>(m: map<K, V>, c: map<K, V>, pending: set<K>, plan: Plan<K, V>, x: K)
    requires x in c
  {
    || (x in m && x in pending && c[x] == m[x])
    || (exists k :: k in m && Kept(m, plan, k) && x == MovedTo(m, plan, k) && c[x] == m[k])
  }

  /** `c` is exactly the image of the kept entries of `m`. */
  ghost predicate IsImage<K, V>(m: map<K, V>, c: map<K, V>, plan: Plan<K, V>) {
    && (forall k :: k in m && Kept(m, plan, k) ==> MovedTo(m, plan, k) in c && c[MovedTo(m, plan, k)] == m[k])
    && (forall x :: x in c ==> exists k :: k in m && Kept(m, plan, k) && x == MovedTo(m, plan, k) && c[x] == m[k])
  }

  /** The keys under which entries are kept. */
  ghost function KeptKeys<K, V>(m: map<K, V>, plan: Plan<K, V>): set<K> {
    set k | k in m && Kept(m, plan, k) :: MovedTo(m, plan, k)
  }

  /** The original key of the entry kept under `x`. */
  ghost function Origin<K, V>(m: map<K, V>, plan: Plan<K, V>, x: K): (k: K)
    requires x in KeptKeys(m, plan)
    ensures k in m && Kept(m, plan, k) && MovedTo(m, plan, k) == x
  {
    var k :| k in m && Kept(m, plan, k) && MovedTo(m, plan, k) == x;
    k
  }

  /** The map after a plan has been carried out. */
  ghost function Image<K, V>(m: map<K, V>, plan: Plan<K, V>): map<K, V> {
    map x | x in KeptKeys(m, plan) :: m[Origin(m, plan, x)]
  }

  /** There is only one image. */
  lemma ImageUnique<K, V>(m: map<K, V>, c: map<K, V>, plan: Plan<K, V>)
    requires Sensible(m, plan) && IsImage(m, c, plan)
    ensures c == Image(m, plan)
  {
    assert c.Keys == KeptKeys(m, plan);
    forall x | x in c ensures c[x] == Image(m, plan)[x] {
      assert Kept(m, plan, Origin(m, plan, x));
    }
  }

  lemma SkipMidway<K, V>(m: map<K, V>, c: map<K, V>, pending: set<K>, pending': set<K>, plan: Plan<K, V>, x: K)
    requires Sensible(m, plan) && Midway(m, c, pending, plan) && pending - {x} <= pending'
    requires x in c && !plan.drop(x, c[x]) && plan.move(x, c[x]) == x
    ensures Midway(m, c, pending', plan)
  {
    forall y | y in c ensures Source(m, c, pending', plan, y) {
      assert Source(m, c, pending, plan, y);
    }
  }

  lemma NothingMidway<K, V>(m: map<K, V>, c: map<K, V>, pending: set<K>, pending': set<K>, plan: Plan<K, V>)
    requires Midway(m, c, pending, plan) && pending <= pending'
    ensures Midway(m, c, pending', plan)
  {
    forall y | y in c ensures Source(m, c, pending', plan, y) {
      assert Source(m, c, pending, plan, y);
    }
  }

  lemma DropMidway<K, V>(m: map<K, V>, c: map<K, V>, pending: set<K>, pending': set<K>, plan: Plan<K, V>, x: K)
    requires Sensible(m, plan) && Midway(m, c, pending, plan) && pending - {x} <= pending'
    requires x in c && plan.drop(x, c[x])
    ensures x in m && c[x] == m[x]
    ensures Midway(m, c - {x}, pending', plan)
  {
    assert Source(m, c, pending, plan, x);
    var c' := c - {x};
    forall y | y in c' ensures Source(m, c', pending', plan, y) {
      assert Source(m, c, pending, plan, y);
    }
  }

  lemma MoveMidway<K, V>(m: map<K, V>, c: map<K, V>, pending: set<K>, pending': set<K>, plan: Plan<K, V>, x: K)
    requires Sensible(m, plan) && Midway(m, c, pending, plan) && pending - {x} <= pending'
    requires x in c && !plan.drop(x, c[x]) && plan.move(x, c[x]) != x
    ensures plan.move(x, c[x]) !in c
    ensures Midway(m, (c - {x})[plan.move(x, c[x]) := c[x]], pending', plan)
  {
    assert Source(m, c, pending, plan, x);
    var z := plan.move(x, c[x]);
    assert x in m && c[x] == m[x];
    var c' := (c - {x})[z := c[x]];
    forall y | y in c' ensures Source(m, c', pending', plan, y) {
      if y != z {
        assert Source(m, c, pending, plan, y);
      }
    }
  }

  lemma FinishMidway<K, V>(m: map<K, V>, c: map<K, V>, plan: Plan<K, V>)
    requires Midway(m, c, {}, plan)
    ensures IsImage(m, c, plan)
  {
    forall x | x in c
      ensures exists k :: k in m && Kept(m, plan, k) && x == MovedTo(m, plan, k) && c[x] == m[k]
    {
      assert Source(m, c, {}, plan, x);
    }
  }

  lemma StartMidway<K, V>(m: map<K, V>, plan: Plan<K, V>)
    requires Sensible(m, plan)
    ensures Midway(m, m, m.Keys, plan)
  {
    forall x | x in m ensures Source(m, m, m.Keys, plan, x) {
    }
  }

  ghost function NewKeysOf<K, V>(m: map<K, V>, plan: Plan<K, V>, from: set<K>): set<K>
    requires from <= m.Keys
  {
    set k | k in from :: MovedTo(m, plan, k)
  }

  lemma {:induction false} AsManyNewKeys<K, V>(m: map<K, V>, plan: Plan<K, V>, from: set<K>)
    requires Sensible(m, plan) && from <= Moved(m, plan)
    ensures |NewKeysOf(m, plan, from)| == |from|
    decreases |from|
  {
    if from != {} {
      var k :| k in from;
      AsManyNewKeys(m, plan, from - {k});
      assert NewKeysOf(m, plan, from) == NewKeysOf(m, plan, from - {k}) + {MovedTo(m, plan, k)};
      assert MovedTo(m, plan, k) !in NewKeysOf(m, plan, from - {k});
    }
  }

  /** The keys that a plan brings into the map are as many as the entries it moves. */
  lemma ImageNewKeys<K, V>(m: map<K, V>, plan: Plan<K, V>)
    requires Sensible(m, plan)
    ensures |Image(m, plan).Keys - m.Keys| == |Moved(m, plan)|
  {
    AsManyNewKeys(m, plan, Moved(m, plan));
    assert Image(m, plan).Keys - m.Keys == NewKeysOf(m, plan, Moved(m, plan));
  }

  /** The documented loop, which only removes: any choice of entries to drop is sensible, and keeps the others. */
  lemma DroppingOnly<K, V>(m: map<K, V>, plan: Plan<K, V>)
    requires forall k :: k in m ==> plan.move(k, m[k]) == k
    ensures Sensible(m, plan)
    ensures Image(m, plan) == map k | k in m && !plan.drop(k, m[k]) :: m[k]
  {
    forall k | k in m && !plan.drop(k, m[k]) ensures k in KeptKeys(m, plan) && Origin(m, plan, k) == k {
      assert MovedTo(m, plan, k) == k;
    }
  }
}
