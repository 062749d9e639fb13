/** Ranges over a table's live entries, and the mutating enumeration built on them. */
module Enums {
  import opened Powers
  import opened Slots
  import opened Bags
  import opened Layout
  import opened Rebuild
  import opened TableState
  import opened Operations
  import opened Plans
  import opened Enumeration
  import opened HashTables

  /** No live slot in `[i, j)`. */
  ghost predicate AllDead<K, V>(s: seq<Slot<K, V>>, i: nat, j: nat) {
    forall m :: i <= m < j && m < |s| ==> !s[m].IsLive()
  }

  /** A cursor over the live entries, in slot order. */
  class Range<K(==), V> {
    const storage: array<Slot<K, V>>
    var cur: nat

    constructor (storage: array<Slot<K, V>>)
      ensures this.storage == storage && cur <= storage.Length
      ensures AllDead(storage[..], 0, cur)
      ensures cur < storage.Length ==> storage[cur].IsLive()
    {
      this.storage := storage;
      cur := 0;
      new;
      while cur < storage.Length && !storage[cur].IsLive()
        invariant cur <= storage.Length && AllDead(storage[..], 0, cur)
      {
        cur := cur + 1;
      }
    }

    predicate Empty()
      reads this
    {
      cur >= storage.Length
    }

    function Front(): (K, V)
      requires !Empty() && storage[cur].mem.Some?
      reads this, storage
    {
      storage[cur].mem.value
    }

    method PopFront()
      requires !Empty()
      modifies this
      ensures old(cur) < cur <= storage.Length
      ensures AllDead(storage[..], old(cur) + 1, cur)
      ensures cur < storage.Length ==> storage[cur].IsLive()
    {
      cur := cur + 1;
      while cur < storage.Length && !storage[cur].IsLive()
        invariant old(cur) < cur <= storage.Length && AllDead(storage[..], old(cur) + 1, cur)
      {
        cur := cur + 1;
      }
    }
  }

  // ---------------------------------------------------------------- walking all entries

  /** The entries of the first `n` slots, as a range yields them. */
  ghost function Entries<K, V>(s: seq<Slot<K, V>>, n: nat): seq<(K, V)>
    requires n <= |s|
  {
    if n == 0 then []
    else Entries(s, n - 1) + if s[n - 1].IsLive() && s[n - 1].mem.Some? then [s[n - 1].mem.value] else []
  }

  lemma {:induction false} EntriesSkip<K, V>(s: seq<Slot<K, V>>, i: nat, j: nat)
    requires i <= j <= |s| && AllDead(s, i, j)
    ensures Entries(s, j) == Entries(s, i)
    decreases j
  {
    if i < j {
      EntriesSkip(s, i, j - 1);
    }
  }

  /** `seen` lists the keys and values of `items`. */
  ghost predicate Projects<K, V>(seen: seq<(K, V)>, items: seq<Item<K, V>>) {
    |seen| == |items| && forall i :: 0 <= i < |items| ==> seen[i] == (items[i].key, items[i].value)
  }

  lemma NextItem<K, V>(s: seq<Slot<K, V>>, n: nat)
    requires 0 < n <= |s|
    ensures var x := s[n - 1];
      if x.IsLive() && x.mem.Some?
      then LiveItems(s, n) == LiveItems(s, n - 1) + [Item(x.KeyHash(), x.mem.value.0, x.mem.value.1)]
      else LiveItems(s, n) == LiveItems(s, n - 1)
  {
    hide DropBit, One, IsLiveHash;
  }

  lemma {:induction false} EntriesAreItems<K, V>(s: seq<Slot<K, V>>, n: nat)
    requires n <= |s|
    ensures Projects(Entries(s, n), LiveItems(s, n))
    decreases n
  {
    hide DropBit, LiveItems, IsLiveHash;
    if n == 0 {
      NoItems(s);
    } else {
      EntriesAreItems(s, n - 1);
      NextItem(s, n);
    }
  }

  lemma NoItems<K, V>(s: seq<Slot<K, V>>)
    ensures LiveItems(s, 0) == []
  {
  }

  lemma OnceInSequence<T>(q: seq<T>, i: nat, j: nat)
    requires i < j < |q| && multiset(q)[q[i]] == 1
    ensures q[i] != q[j]
  {
    assert q == q[..i] + [q[i]] + q[i + 1..j] + [q[j]] + q[j + 1..];
  }

  /** `seen` lists every entry of the map, and none twice. */
  ghost predicate ListsOnce<K, V>(seen: seq<(K, V)>, m: map<K, V>) {
    && |seen| == |m|
    && (forall i :: 0 <= i < |seen| ==> seen[i].0 in m && m[seen[i].0] == seen[i].1)
    && (forall i, j :: 0 <= i < j < |seen| ==> seen[i].0 != seen[j].0)
    && (forall key :: key in m ==> (key, m[key]) in seen)
  }

  lemma ProjectionOnce<K, V>(seen: seq<(K, V)>, items: seq<Item<K, V>>, b: multiset<Item<K, V>>)
    requires DistinctKeys(b) && multiset(items) == b && |items| == |b| && Projects(seen, items)
    ensures ListsOnce(seen, Contents(b))
  {
    hide Contents, ItemOf;
    ContentsSize(b);
    forall i | 0 <= i < |seen| ensures seen[i].0 in Contents(b) && Contents(b)[seen[i].0] == seen[i].1 {
      assert items[i] in multiset(items);
      ContentsHas(b, items[i]);
    }
    forall i, j | 0 <= i < j < |seen| ensures seen[i].0 != seen[j].0 {
      assert items[i] in multiset(items) && items[j] in multiset(items);
      OnceInSequence(items, i, j);
    }
    forall key | key in Contents(b) ensures (key, Contents(b)[key]) in seen {
      var it := ItemOf(b, key);
      ContentsHas(b, it);
      assert it in multiset(items);
      var i :| 0 <= i < |items| && items[i] == it;
      assert seen[i] == (key, Contents(b)[key]);
    }
  }

  /** The entries in slot order are those of the map, each of them once. */
  lemma EachEntryOnce<K, V>(t: Table<K, V>, hash: K -> HashNumber)
    requires Counted(t, hash)
    ensures ListsOnce(Entries(t.slots, |t.slots|), View(t))
  {
    hide Coherent, DistinctKeys, Bag, Tombs, Contents, LiveItems, Entries, Projects, ListsOnce;
    EntriesAreItems(t.slots, |t.slots|);
    ItemsAreBag(t.slots);
    ProjectionOnce(Entries(t.slots, |t.slots|), LiveItems(t.slots, |t.slots|), Bag(t.slots));
  }

  lemma ItemsAreBag<K, V>(s: seq<Slot<K, V>>)
    ensures multiset(LiveItems(s, |s|)) == Bag(s) && |LiveItems(s, |s|)| == |Bag(s)|
  {
    hide One;
    LiveItemsBag(s, |s|);
    assert |multiset(LiveItems(s, |s|))| == |LiveItems(s, |s|)|;
  }

  /** The documented loop over `all()`: it yields `count()` elements, every entry of the map once. */
  method Walk<K(==), V>(map_: HashTable<K, V>) returns (seen: seq<(K, V)>)
    requires map_.Ready()
    ensures |seen| == map_.entryCount && ListsOnce(seen, map_.Contents())
  {
    hide Pow2, View, Counted, Entries, AllDead, ListsOnce;
    ghost var t, s := map_.State(), map_.table[..];
    EachEntryOnce(t, map_.hash);
    ListsCount(Entries(s, |s|), t, map_.hash);
    EntriesNone(s);
    var r := new Range(map_.table);
    EntriesSkip(s, 0, r.cur);
    seen := [];
    while !r.Empty()
      invariant r.storage == map_.table && map_.table[..] == s && r.cur <= |s|
      invariant !r.Empty() ==> map_.table[r.cur].IsLive()
      invariant seen == Entries(s, r.cur)
      decreases |s| - r.cur
    {
      LiveCount(t, r.cur, map_.hash);
      EntriesNext(s, r.cur);
      ghost var i := r.cur;
      seen := seen + [r.Front()];
      r.PopFront();
      EntriesSkip(s, i + 1, r.cur);
    }
  }

  lemma EntriesNone<K, V>(s: seq<Slot<K, V>>)
    ensures Entries(s, 0) == []
  {
  }

  lemma EntriesNext<K, V>(s: seq<Slot<K, V>>, i: nat)
    requires i < |s| && s[i].IsLive() && s[i].mem.Some?
    ensures Entries(s, i + 1) == Entries(s, i) + [s[i].mem.value]
  {
  }

  lemma ListsCount<K, V>(seen: seq<(K, V)>, t: Table<K, V>, hash: K -> HashNumber)
    requires Counted(t, hash) && ListsOnce(seen, View(t))
    ensures |seen| == t.entryCount
  {
    hide Counted, View;
    CountIsSize(t, hash);
  }

  lemma LiveCount<K, V>(t: Table<K, V>, i: nat, hash: K -> HashNumber)
    requires Counted(t, hash) && i < |t.slots| && t.slots[i].IsLive()
    ensures t.slots[i].mem.Some?
  {
    hide Bag, View;
    LiveKey(t, i, hash);
  }

  // ---------------------------------------------------------------- mutating enumerations

  /** The cursor of an enumeration that may edit the table; `Close` is the destructor, and ends the enumeration. */
  class Enum<K(==), V> {
    const map_: HashTable<K, V>
    const range: Range<K, V>
    var rekeyed: bool
    var removed: bool

    constructor (map_: HashTable<K, V>)
      requires map_.Ready()
      ensures this.map_ == map_ && fresh(range) && range.storage == map_.table && Open()
      ensures State() == EnumState(map_.State(), false, false)
      ensures AllDead(map_.table[..], 0, range.cur)
      ensures !range.Empty() ==> map_.table[range.cur].IsLive()
    {
      this.map_ := map_;
      range := new Range(map_.table);
      rekeyed := false;
      removed := false;
    }

    /**
     * No rehash happens while the enumeration is open, so the range keeps walking the table's
     * storage. Rekeying may leave more tombstones than the load bound allows, but never more entries.
     */
    ghost predicate Open()
      reads this, map_, map_.table, range
    {
      && map_.Valid() && Counted(map_.State(), map_.hash)
      && 4 * map_.entryCount <= 3 * map_.table.Length
      && (!rekeyed ==> 4 * (map_.entryCount + map_.removedCount) <= 3 * map_.table.Length)
      && range.storage == map_.table && range.cur <= map_.table.Length
    }

    ghost function State(): (e: EnumState<K, V>)
      requires Open()
      reads this, map_, map_.table, range
      ensures Sane(e.table)
    {
      EnumState(map_.State(), rekeyed, removed)
    }

    method RemoveFront()
      requires Open() && !range.Empty() && map_.table[range.cur].IsLive()
      modifies this, map_, map_.table
      ensures Open() && map_.table == old(map_.table) && old(map_.entryCount) > 0 && map_.walked == old(map_.walked)
      ensures State() == Enumeration.RemoveFront(old(State()), range.cur)
      ensures map_.Contents() == old(map_.Contents()) - {old(map_.table[range.cur].mem.value.0)}
    {
      hide Pow2, WellLaid, Bag, Tombs, View, RemoveEntry;
      RemoveEntryCounted(map_.State(), range.cur, map_.hash);
      map_.RemoveEntry(range.cur);
      removed := true;
    }

    method RekeyFront(key: K)
      requires Open() && !range.Empty() && map_.table[range.cur].IsLive() && map_.table[range.cur].WellFormed()
      requires key in map_.Contents() ==> key == map_.table[range.cur].Get().key
      modifies this, map_, map_.table
      ensures Open() && map_.table == old(map_.table) && old(map_.entryCount) > 0 && map_.walked == old(map_.walked)
      ensures State() == Enumeration.RekeyFront(old(State()), range.cur, key, map_.hash)
      ensures map_.Contents() == (old(map_.Contents()) - {old(map_.table[range.cur].Get().key)})
                                   [key := old(map_.table[range.cur].Get().value)]
    {
      hide Pow2, Counted, View, RekeyWithoutRehash;
      RekeyWithoutRehashCorrect(map_.State(), range.cur, key, map_.hash);
      map_.RekeyWithoutRehash(range.cur, key);
      rekeyed := true;
    }

    /** `~Enum`: the postponed rehashing. */
    method Close(alloc1: bool, alloc2: bool)
      requires Open()
      modifies map_, map_.table
      ensures map_.Ready() && map_.Contents() == old(map_.Contents())
      ensures map_.State() == Enumeration.Close(old(State()), alloc1, alloc2)
      ensures map_.table == old(map_.table) || fresh(map_.table)
      ensures map_.gen >= old(map_.gen) && (map_.gen == old(map_.gen) ==> map_.table == old(map_.table))
      ensures map_.walked == old(map_.walked) + CloseWalked(old(State()), alloc1, alloc2)
    {
      hide Pow2, Counted, View, CheckOverRemoved, CompactIfUnderloaded, Overloaded, Underloaded, MustFail,
           MayCompact, Compacts, Rebuilds, SameStorage;
      CloseCorrect(State(), alloc1, alloc2, map_.hash);
      if rekeyed {
        GenCounted(map_.State(), map_.hash);
        map_.gen := map_.gen + 1;
        CheckOverRemovedCorrect(map_.State(), alloc1, map_.hash);
        map_.CheckOverRemoved(alloc1);
      }
      if removed {
        map_.CompactIfUnderloaded(alloc2);
      }
    }
  }

  /** Slots that are not live are passed without effect. */
  lemma {:induction false} PassSkips<K, V>(e: EnumState<K, V>, i: nat, j: nat, plan: Plan<K, V>, hash: K -> HashNumber)
    requires Sane(e.table) && i <= j <= |e.table.slots| && AllDead(e.table.slots, i, j)
    ensures Pass(e, i, plan, hash) == Pass(e, j, plan, hash)
    decreases j - i
  {
    hide RemoveFront, RekeyFront;
    if i < j {
      assert Visit(e, i, plan, hash) == e;
      PassSkips(e, i + 1, j, plan, hash);
    }
  }

  lemma VisitIs<K, V>(e: EnumState<K, V>, i: nat, plan: Plan<K, V>, hash: K -> HashNumber)
    requires Counted(e.table, hash) && i < |e.table.slots| && e.table.slots[i].IsLive()
    ensures e.table.slots[i].WellFormed() && Sane(e.table) && e.table.entryCount > 0
    ensures Pass(e, i, plan, hash) == Pass(Visit(e, i, plan, hash), i + 1, plan, hash)
  {
    hide Visit, Bag;
    LiveKey(e.table, i, hash);
    VisitShape(e, i, plan, hash);
  }

  lemma VisitAllowed<K, V>(m: map<K, V>, e: EnumState<K, V>, i: nat, plan: Plan<K, V>, hash: K -> HashNumber)
    requires Sensible(m, plan) && PassInv(m, e, i, plan, hash) && i < |e.table.slots|
    requires e.table.slots[i].IsLive() && e.table.slots[i].WellFormed()
    requires !Drops(plan, e.table.slots[i]) && NewKey(plan, e.table.slots[i]) != e.table.slots[i].Get().key
    ensures NewKey(plan, e.table.slots[i]) !in View(e.table)
  {
    hide Sensible, Midway, View, WellLaid, Bag, KeysFrom, DropBit;
    LiveKey(e.table, i, hash);
    var x := e.table.slots[i].Get().key;
    MoveMidway(m, View(e.table), KeysFrom(e.table, i), KeysFrom(e.table, i), plan, x);
  }

  /** Slots that are not live leave the pass invariant alone. */
  lemma {:induction false} PassInvSkips<K, V>(m: map<K, V>, e: EnumState<K, V>, i: nat, j: nat, plan: Plan<K, V>,
                                              hash: K -> HashNumber)
    requires Sensible(m, plan) && PassInv(m, e, i, plan, hash)
    requires i <= j <= |e.table.slots| && AllDead(e.table.slots, i, j)
    ensures PassInv(m, e, j, plan, hash)
    decreases j - i
  {
    hide Sensible, PassInv, RemoveFront, RekeyFront;
    if i < j {
      VisitKeeps(m, e, i, plan, hash);
      assert Visit(e, i, plan, hash) == e;
      PassInvSkips(m, e, i + 1, j, plan, hash);
    }
  }

  /** The documented client loop: visit every entry once through an `Enum`, dropping or moving it. */
  method Sweep<K(==), V>(map_: HashTable<K, V>, plan: Plan<K, V>, alloc1: bool, alloc2: bool)
    requires map_.Ready() && Sensible(map_.Contents(), plan)
    modifies map_, map_.table
    ensures map_.Ready() && IsImage(old(map_.Contents()), map_.Contents(), plan)
    ensures map_.State() == Swept(old(map_.State()), plan, alloc1, alloc2, map_.hash)
    ensures Dropped(old(map_.Contents()), plan) != {} && alloc2 ==> !Underloaded(map_.State())
    ensures Dropped(old(map_.Contents()), plan) == {} || !alloc2 ==> map_.table.Length >= old(map_.table.Length)
    ensures map_.gen >= old(map_.gen) && (map_.gen == old(map_.gen) ==> map_.table == old(map_.table))
    ensures map_.table == old(map_.table) || fresh(map_.table)
    ensures map_.walked == old(map_.walked) + SweptWalked(old(map_.State()), plan, alloc1, alloc2, map_.hash)
  {
    hide Pow2, Sensible, Midway, Counted, View, Pass, Close, IsImage, PassInv, Visit, RemoveFront, RekeyFront, Image,
         Dropped, Moved, Underloaded, SameStorage, CloseWalked;
    ghost var t, m, hash := map_.State(), map_.Contents(), map_.hash;
    EnumerationCorrect(t, plan, alloc1, alloc2, hash);
    PassStart(t, plan, hash);
    var e := new Enum(map_);
    PassSkips(e.State(), 0, e.range.cur, plan, hash);
    PassInvSkips(m, e.State(), 0, e.range.cur, plan, hash);
    while !e.range.Empty()
      invariant fresh(e) && fresh(e.range) && e.map_ == map_ && map_.table == old(map_.table) && e.Open()
      invariant map_.walked == old(map_.walked)
      invariant !e.range.Empty() ==> map_.table[e.range.cur].IsLive()
      invariant PassInv(m, e.State(), e.range.cur, plan, hash)
      invariant Pass(e.State(), e.range.cur, plan, hash) == Pass(EnumState(t, false, false), 0, plan, hash)
      decreases map_.table.Length - e.range.cur
    {
      ghost var i, before := e.range.cur, e.State();
      VisitIs(before, i, plan, hash);
      VisitKeeps(m, before, i, plan, hash);
      VisitFront(e, plan, m);
      assert Pass(e.State(), i + 1, plan, hash) == Pass(EnumState(t, false, false), 0, plan, hash);
      ghost var after := e.State();
      e.range.PopFront();
      assert e.State() == after;
      PassSkips(after, i + 1, e.range.cur, plan, hash);
      PassInvSkips(m, after, i + 1, e.range.cur, plan, hash);
    }
    PassEnd(m, e.State(), plan, hash);
    PassGen(EnumState(t, false, false), 0, plan, hash);
    e.Close(alloc1, alloc2);
  }

  /** The body of that loop. */
  method VisitFront<K(==), V>(e: Enum<K, V>, plan: Plan<K, V>, ghost m: map<K, V>)
    requires e.Open() && !e.range.Empty() && e.map_.table[e.range.cur].IsLive()
    requires Sensible(m, plan) && PassInv(m, e.State(), e.range.cur, plan, e.map_.hash)
    modifies e, e.map_, e.map_.table
    ensures e.Open() && e.map_.table == old(e.map_.table) && e.map_.walked == old(e.map_.walked)
    ensures e.State() == Visit(old(e.State()), e.range.cur, plan, e.map_.hash)
  {
    hide Pow2, Sensible, PassInv, Counted, View, RemoveFront, RekeyFront;
    ghost var before := e.State();
    VisitIs(before, e.range.cur, plan, e.map_.hash);
    var (key, value) := e.map_.table[e.range.cur].mem.value;
    if plan.drop(key, value) {
      e.RemoveFront();
    } else if plan.move(key, value) != key {
      VisitAllowed(m, before, e.range.cur, plan, e.map_.hash);
      e.RekeyFront(plan.move(key, value));
    }
  }

  lemma PassEnd<K, V>(m: map<K, V>, e: EnumState<K, V>, plan: Plan<K, V>, hash: K -> HashNumber)
    requires PassInv(m, e, |e.table.slots|, plan, hash)
    ensures Sane(e.table) && Pass(e, |e.table.slots|, plan, hash) == e
  {
    hide Midway, Visit;
    CountedSized(e.table, hash);
  }
}
