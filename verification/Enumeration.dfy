/** A mutating enumeration: rehashing is postponed until the enumeration is over. */
module Enumeration {
  import opened Slots
  import opened Probing
  import opened Bags
  import opened Layout
  import opened TableState
  import opened Operations
  import opened Staying
  import opened Plans

  /** The table under an open enumeration, and what the enumeration has done to it. */
  datatype EnumState<K, V> = EnumState(table: Table<K, V>, rekeyed: bool, removed: bool)

  /** `removeFront` on the entry at slot `i`. */
  ghost function RemoveFront<K, V>(e: EnumState<K, V>, i: nat): EnumState<K, V>
    requires i < |e.table.slots| && e.table.entryCount > 0
  {
    EnumState(RemoveEntry(e.table, i), e.rekeyed, true)
  }

  /** `rekeyFront(key)` on the entry at slot `i`. */
  ghost function RekeyFront<K, V>(e: EnumState<K, V>, i: nat, key: K, hash: K -> HashNumber): EnumState<K, V>
    requires Sane(e.table) && i < |e.table.slots| && e.table.entryCount > 0 && e.table.slots[i].mem.Some?
  {
    EnumState(RekeyWithoutRehash(e.table, i, key, hash), true, e.removed)
  }

  /** The enumeration's destructor; its two rebuilds ask the allocator separately. */
  ghost function Close<K, V>(e: EnumState<K, V>, alloc1: bool, alloc2: bool): Table<K, V>
    requires Sane(e.table)
  {
    var t := if e.rekeyed then CheckOverRemoved(e.table.(gen := e.table.gen + 1), alloc1) else e.table;
    if e.removed then CompactIfUnderloaded(t, alloc2) else t
  }

  /** The slots walked by the two rebuilds of an enumeration's destructor. */
  ghost function CloseWalked<K, V>(e: EnumState<K, V>, alloc1: bool, alloc2: bool): nat
    requires Sane(e.table)
  {
    var t1 := if e.rekeyed then e.table.(gen := e.table.gen + 1) else e.table;
    var t2 := if e.rekeyed then CheckOverRemoved(t1, alloc1) else t1;
    Walked(t1, t2) + if e.removed then Walked(t2, CompactIfUnderloaded(t2, alloc2)) else 0
  }

  /** The plan's decision about the entry in a slot. */
  ghost predicate Drops<K, V>(plan: Plan<K, V>, x: Slot<K, V>)
    requires x.mem.Some?
  {
    plan.drop(x.mem.value.0, x.mem.value.1)
  }

  /** The key under which the plan keeps the entry in a slot. */
  ghost function NewKey<K, V>(plan: Plan<K, V>, x: Slot<K, V>): K
    requires x.mem.Some?
  {
    plan.move(x.mem.value.0, x.mem.value.1)
  }

  /** One turn of the client's loop, at slot `i`. */
  ghost function Visit<K, V>(e: EnumState<K, V>, i: nat, plan: Plan<K, V>, hash: K -> HashNumber): EnumState<K, V>
    requires Sane(e.table) && i < |e.table.slots|
  {
    var x := e.table.slots[i];
    if !x.IsLive() || x.mem.None? || e.table.entryCount == 0 then e
    else if Drops(plan, x) then RemoveFront(e, i)
    else if NewKey(plan, x) != x.mem.value.0 then RekeyFront(e, i, NewKey(plan, x), hash)
    else e
  }

  lemma VisitShape<K, V>(e: EnumState<K, V>, i: nat, plan: Plan<K, V>, hash: K -> HashNumber)
    requires Sane(e.table) && i < |e.table.slots|
    ensures Sane(Visit(e, i, plan, hash).table)
    ensures |Visit(e, i, plan, hash).table.slots| == |e.table.slots|
  {
    hide Rank, Probe, Fill, FreeEntry, Seek;
  }

  /** The client's loop from slot `i` to the end of the table. */
  ghost function Pass<K, V>(e: EnumState<K, V>, i: nat, plan: Plan<K, V>, hash: K -> HashNumber): (e': EnumState<K, V>)
    requires Sane(e.table) && i <= |e.table.slots|
    ensures Sane(e'.table)
    decreases |e.table.slots| - i
  {
    if i == |e.table.slots| then e
    else
      VisitShape(e, i, plan, hash);
      Pass(Visit(e, i, plan, hash), i + 1, plan, hash)
  }

  /** A whole mutating enumeration, from the `Enum`'s construction to its destruction. */
  ghost function Swept<K, V>(t: Table<K, V>, plan: Plan<K, V>, alloc1: bool, alloc2: bool, hash: K -> HashNumber)
    : Table<K, V>
    requires Sane(t)
  {
    Close(Pass(EnumState(t, false, false), 0, plan, hash), alloc1, alloc2)
  }

  /** The slots that its destructor walks. */
  ghost function SweptWalked<K, V>(t: Table<K, V>, plan: Plan<K, V>, alloc1: bool, alloc2: bool,
                                   hash: K -> HashNumber): nat
    requires Sane(t)
  {
    CloseWalked(Pass(EnumState(t, false, false), 0, plan, hash), alloc1, alloc2)
  }

  lemma VisitGen<K, V>(e: EnumState<K, V>, i: nat, plan: Plan<K, V>, hash: K -> HashNumber)
    requires Sane(e.table) && i < |e.table.slots|
    ensures Visit(e, i, plan, hash).table.gen == e.table.gen && Visit(e, i, plan, hash).table.log2 == e.table.log2
    ensures e.rekeyed ==> Visit(e, i, plan, hash).rekeyed
  {
    hide RemoveAt, PutNewInfallible;
    var t, x := e.table, e.table.slots[i];
    if x.mem.Some? && t.entryCount > 0 {
      RemoveEntryShape(t, i);
      FillKeepsLog2(RemoveEntry(t, i), Item(Stem(hash, NewKey(plan, x)), NewKey(plan, x), x.mem.value.1));
    }
  }

  lemma {:induction false} PassGen<K, V>(e: EnumState<K, V>, i: nat, plan: Plan<K, V>, hash: K -> HashNumber)
    requires Sane(e.table) && i <= |e.table.slots|
    ensures Pass(e, i, plan, hash).table.gen == e.table.gen && Pass(e, i, plan, hash).table.log2 == e.table.log2
    ensures e.rekeyed ==> Pass(e, i, plan, hash).rekeyed
    decreases |e.table.slots| - i
  {
    hide Visit;
    if i < |e.table.slots| {
      VisitShape(e, i, plan, hash);
      VisitGen(e, i, plan, hash);
      PassGen(Visit(e, i, plan, hash), i + 1, plan, hash);
    }
  }

  // ---------------------------------------------------------------- the plan on the table

  /** The keys of the live entries from slot `i` on. */
  ghost function KeysFrom<K, V>(t: Table<K, V>, i: nat): set<K> {
    set j | i <= j < |t.slots| && t.slots[j].IsLive() && t.slots[j].mem.Some? :: t.slots[j].mem.value.0
  }

  lemma PendingStays<K, V>(t: Table<K, V>, t': Table<K, V>, i: nat, gone: set<K>)
    requires Stays(t, t', gone, {})
    ensures KeysFrom(t, i) - gone <= KeysFrom(t', i)
  {
    hide DropBit;
    forall key | key in KeysFrom(t, i) && key !in gone ensures key in KeysFrom(t', i) {
      var j :| i <= j < |t.slots| && t.slots[j].IsLive() && t.slots[j].mem.Some? && t.slots[j].mem.value.0 == key;
      assert StillHolds(t.slots[j], t'.slots[j], {});
    }
  }

  lemma PendingNext<K, V>(t: Table<K, V>, i: nat, gone: set<K>)
    requires i < |t.slots|
    requires t.slots[i].IsLive() && t.slots[i].mem.Some? ==> t.slots[i].mem.value.0 in gone
    ensures KeysFrom(t, i) - gone <= KeysFrom(t, i + 1)
  {
    forall key | key in KeysFrom(t, i) && key !in gone ensures key in KeysFrom(t, i + 1) {
      var j :| i <= j < |t.slots| && t.slots[j].IsLive() && t.slots[j].mem.Some? && t.slots[j].mem.value.0 == key;
      assert j != i;
    }
  }

  /** The invariant of the pass, before slot `i` is visited. */
  ghost predicate PassInv<K, V>(m: map<K, V>, e: EnumState<K, V>, i: nat, plan: Plan<K, V>, hash: K -> HashNumber) {
    && Counted(e.table, hash)
    && i <= |e.table.slots|
    && 4 * e.table.entryCount <= 3 * Capacity(e.table)
    && (!e.rekeyed ==> WithinLoad(e.table))
    && Midway(m, View(e.table), KeysFrom(e.table, i), plan)
  }

  lemma VisitDropKeeps<K, V>(m: map<K, V>, e: EnumState<K, V>, i: nat, plan: Plan<K, V>, hash: K -> HashNumber)
    requires Sensible(m, plan) && PassInv(m, e, i, plan, hash) && i < |e.table.slots|
    requires var x := e.table.slots[i]; x.IsLive() && x.mem.Some? && Drops(plan, x)
    ensures e.table.entryCount > 0 && PassInv(m, RemoveFront(e, i), i + 1, plan, hash)
  {
    hide Sensible, Midway, View, KeysFrom, RemoveEntry, Bag, WellLaid;
    var t, x := e.table, e.table.slots[i].mem.value.0;
    RemoveEntryCounted(t, i, hash);
    RemoveEntryShape(t, i);
    RemoveEntryStays(t, i);
    LiveKey(t, i, hash);
    PendingNext(t, i, {x});
    PendingStays(t, RemoveEntry(t, i), i + 1, {x});
    DropMidway(m, View(t), KeysFrom(t, i), KeysFrom(RemoveEntry(t, i), i + 1), plan, x);
  }

  lemma VisitMoveKeeps<K, V>(m: map<K, V>, e: EnumState<K, V>, i: nat, plan: Plan<K, V>, hash: K -> HashNumber)
    requires Sensible(m, plan) && PassInv(m, e, i, plan, hash) && i < |e.table.slots|
    requires var x := e.table.slots[i];
      x.IsLive() && x.mem.Some? && !Drops(plan, x) && NewKey(plan, x) != x.mem.value.0
    ensures Sane(e.table) && e.table.entryCount > 0
    ensures PassInv(m, RekeyFront(e, i, NewKey(plan, e.table.slots[i]), hash), i + 1, plan, hash)
  {
    hide Sensible, Midway, View, KeysFrom, RekeyWithoutRehash, Bag, WellLaid, Stays;
    var t, x := e.table, e.table.slots[i].mem.value.0;
    CountedSized(t, hash);
    LiveKey(t, i, hash);
    var z := NewKey(plan, t.slots[i]);
    RekeyStays(t, i, z, hash);
    var t' := RekeyWithoutRehash(t, i, z, hash);
    PendingNext(t, i, {x});
    PendingStays(t, t', i + 1, {x});
    MoveMidway(m, View(t), KeysFrom(t, i), KeysFrom(t', i + 1), plan, x);
    RekeyWithoutRehashCorrect(t, i, z, hash);
    CountedSized(t', hash);
  }

  lemma LiveKey<K, V>(t: Table<K, V>, i: nat, hash: K -> HashNumber)
    requires Counted(t, hash) && i < |t.slots| && t.slots[i].IsLive()
    ensures t.slots[i].WellFormed() && t.entryCount > 0
    ensures t.slots[i].mem.value.0 in View(t) && View(t)[t.slots[i].mem.value.0] == t.slots[i].mem.value.1
  {
    hide Probe, Rank, Bag;
    RemoveEntryCounted(t, i, hash);
    LiveInContents(t.slots, t.log2, i, hash);
  }

  lemma VisitKeeps<K, V>(m: map<K, V>, e: EnumState<K, V>, i: nat, plan: Plan<K, V>, hash: K -> HashNumber)
    requires Sensible(m, plan) && PassInv(m, e, i, plan, hash) && i < |e.table.slots|
    ensures Sane(e.table) && PassInv(m, Visit(e, i, plan, hash), i + 1, plan, hash)
  {
    hide Sensible, Midway, View, KeysFrom, RemoveFront, RekeyFront, Bag, WellLaid;
    var t, x := e.table, e.table.slots[i];
    CountedSized(t, hash);
    if x.IsLive() {
      LiveKey(t, i, hash);
      var key := x.mem.value.0;
      if Drops(plan, x) {
        VisitDropKeeps(m, e, i, plan, hash);
      } else if NewKey(plan, x) != key {
        VisitMoveKeeps(m, e, i, plan, hash);
      } else {
        PendingNext(t, i, {key});
        SkipMidway(m, View(t), KeysFrom(t, i), KeysFrom(t, i + 1), plan, key);
      }
    } else {
      PendingNext(t, i, {});
      NothingMidway(m, View(t), KeysFrom(t, i), KeysFrom(t, i + 1), plan);
    }
  }

  lemma {:induction false} PassKeeps<K, V>(m: map<K, V>, e: EnumState<K, V>, i: nat, plan: Plan<K, V>,
                                           hash: K -> HashNumber)
    requires Sensible(m, plan) && PassInv(m, e, i, plan, hash)
    ensures Sane(e.table)
    ensures var e' := Pass(e, i, plan, hash); PassInv(m, e', |e'.table.slots|, plan, hash)
    decreases |e.table.slots| - i
  {
    hide Sensible, Midway, View, KeysFrom, Visit, WellLaid;
    CountedSized(e.table, hash);
    if i < |e.table.slots| {
      VisitShape(e, i, plan, hash);
      VisitKeeps(m, e, i, plan, hash);
      PassKeeps(m, Visit(e, i, plan, hash), i + 1, plan, hash);
    }
  }

  // ---------------------------------------------------------------- which entries a pass drops and moves

  /** The keys still to be visited from slot `i` on whose entries satisfy `q`. */
  ghost function Ahead<K, V>(t: Table<K, V>, i: nat, q: (K, V) -> bool): set<K> {
    set k | k in KeysFrom(t, i) && k in View(t) && q(k, View(t)[k])
  }

  /** The entries that a plan would move to another key. */
  ghost function Moving<K, V>(plan: Plan<K, V>): (K, V) -> bool {
    (k, v) => !plan.drop(k, v) && plan.move(k, v) != k
  }

  /** Entries that have been moved do not satisfy `q`. */
  ghost predicate Settles<K, V>(m: map<K, V>, plan: Plan<K, V>, q: (K, V) -> bool) {
    forall k :: k in m && Kept(m, plan, k) && MovedTo(m, plan, k) != k ==> !q(MovedTo(m, plan, k), m[k])
  }

  lemma PlanSettles<K, V>(m: map<K, V>, plan: Plan<K, V>)
    requires Sensible(m, plan)
    ensures Settles(m, plan, plan.drop) && Settles(m, plan, Moving(plan))
  {
  }

  lemma KeyBehind<K, V>(t: Table<K, V>, i: nat, hash: K -> HashNumber)
    requires Counted(t, hash) && i < |t.slots| && t.slots[i].IsLive()
    ensures t.slots[i].mem.Some? && t.slots[i].mem.value.0 in KeysFrom(t, i)
    ensures t.slots[i].mem.value.0 !in KeysFrom(t, i + 1)
  {
    hide Bag, Tombs, PathsOk, DistinctKeys, View;
    LiveKey(t, i, hash);
    var x := t.slots[i].mem.value.0;
    if x in KeysFrom(t, i + 1) {
      var j :| i + 1 <= j < |t.slots| && t.slots[j].IsLive() && t.slots[j].mem.Some? && t.slots[j].mem.value.0 == x;
      SameKeySameSlot(t.slots, t.log2, i, j, hash);
    }
  }

  lemma AheadNext<K, V>(t: Table<K, V>, i: nat, q: (K, V) -> bool, hash: K -> HashNumber)
    requires Counted(t, hash) && i < |t.slots|
    ensures t.slots[i].IsLive() ==> t.slots[i].mem.Some?
    ensures Ahead(t, i + 1, q)
         == if t.slots[i].IsLive() then Ahead(t, i, q) - {t.slots[i].mem.value.0} else Ahead(t, i, q)
  {
    hide Counted, View, KeysFrom;
    KeysShrink(t, i);
    if t.slots[i].IsLive() {
      KeyBehind(t, i, hash);
      PendingNext(t, i, {t.slots[i].mem.value.0});
    } else {
      PendingNext(t, i, {});
    }
  }

  lemma KeysShrink<K, V>(t: Table<K, V>, i: nat)
    ensures KeysFrom(t, i + 1) <= KeysFrom(t, i)
  {
  }

  /** A key that stays in the map, in a table where entries stay, is ahead only if it was. */
  lemma NotNewAhead<K, V>(t: Table<K, V>, t': Table<K, V>, i: nat, gone: set<K>, k: K, hash: K -> HashNumber)
    requires Counted(t, hash) && Counted(t', hash) && Stays(t, t', gone, {})
    requires k in View(t) && k !in gone && k in KeysFrom(t', i)
    ensures k in KeysFrom(t, i)
  {
    hide Bag, Tombs, PathsOk, DistinctKeys, DropBit;
    var j :| i <= j < |t'.slots| && t'.slots[j].IsLive() && t'.slots[j].mem.Some? && t'.slots[j].mem.value.0 == k;
    var l := KeyHasSlot(t.slots, t.log2, k, hash);
    assert StillHolds(t.slots[l], t'.slots[l], {});
    SameKeySameSlot(t'.slots, t'.log2, j, l, hash);
  }

  /** An edit of the entry `x` changes what lies ahead only by entries that do not satisfy `q`. */
  lemma AheadStays<K, V>(t: Table<K, V>, t': Table<K, V>, i: nat, x: K, q: (K, V) -> bool, hash: K -> HashNumber)
    requires Counted(t, hash) && Counted(t', hash) && Stays(t, t', {x}, {}) && x !in KeysFrom(t, i)
    requires forall k :: k in View(t) && k != x ==> k in View(t') && View(t')[k] == View(t)[k]
    requires forall k :: k in View(t') && q(k, View(t')[k]) ==> k in View(t) && k != x
    ensures Ahead(t', i, q) == Ahead(t, i, q)
  {
    hide Counted, View, KeysFrom, Stays;
    PendingStays(t, t', i, {x});
    forall k | k in Ahead(t', i, q) ensures k in Ahead(t, i, q) {
      NotNewAhead(t, t', i, {x}, k, hash);
    }
  }

  lemma VisitAhead<K, V>(m: map<K, V>, e: EnumState<K, V>, i: nat, plan: Plan<K, V>, q: (K, V) -> bool,
                         hash: K -> HashNumber)
    requires Sensible(m, plan) && Settles(m, plan, q) && PassInv(m, e, i, plan, hash) && i < |e.table.slots|
    ensures Sane(e.table)
    ensures Ahead(Visit(e, i, plan, hash).table, i + 1, q) == Ahead(e.table, i + 1, q)
  {
    hide Sensible, Settles, Midway, View, KeysFrom, RemoveEntry, RekeyWithoutRehash, Bag, WellLaid, Stays, Ahead;
    var t, x := e.table, e.table.slots[i];
    CountedSized(t, hash);
    if x.IsLive() {
      LiveKey(t, i, hash);
      KeyBehind(t, i, hash);
      var key, z := x.mem.value.0, NewKey(plan, x);
      if Drops(plan, x) {
        RemoveEntryCounted(t, i, hash);
        RemoveEntryStays(t, i);
        AheadStays(t, RemoveEntry(t, i), i + 1, key, q, hash);
      } else if z != key {
        MoveMidway(m, View(t), KeysFrom(t, i), KeysFrom(t, i), plan, key);
        MovedSettles(m, View(t), KeysFrom(t, i), plan, key, q);
        RekeyStays(t, i, z, hash);
        RekeyWithoutRehashCorrect(t, i, z, hash);
        AheadStays(t, RekeyWithoutRehash(t, i, z, hash), i + 1, key, q, hash);
      }
    }
  }

  lemma MovedSettles<K, V>(m: map<K, V>, c: map<K, V>, pending: set<K>, plan: Plan<K, V>, x: K, q: (K, V) -> bool)
    requires Sensible(m, plan) && Midway(m, c, pending, plan) && Settles(m, plan, q)
    requires x in c && !plan.drop(x, c[x]) && plan.move(x, c[x]) != x
    ensures !q(plan.move(x, c[x]), c[x])
  {
    assert Source(m, c, pending, plan, x);
  }

  /** The entries that a pass moves from slot `i` on. */
  ghost function Moves<K, V>(e: EnumState<K, V>, i: nat, plan: Plan<K, V>, hash: K -> HashNumber): nat
    requires Sane(e.table) && i <= |e.table.slots|
    decreases |e.table.slots| - i
  {
    if i == |e.table.slots| then 0
    else
      VisitShape(e, i, plan, hash);
      (if MovesAt(e, i, plan) then 1 else 0) + Moves(Visit(e, i, plan, hash), i + 1, plan, hash)
  }

  /** The visit of slot `i` moves its entry to another key. */
  ghost predicate MovesAt<K, V>(e: EnumState<K, V>, i: nat, plan: Plan<K, V>)
    requires i < |e.table.slots|
  {
    var x := e.table.slots[i];
    x.IsLive() && x.mem.Some? && !Drops(plan, x) && NewKey(plan, x) != x.mem.value.0
  }

  lemma VisitFlags<K, V>(m: map<K, V>, e: EnumState<K, V>, i: nat, plan: Plan<K, V>, hash: K -> HashNumber)
    requires PassInv(m, e, i, plan, hash) && i < |e.table.slots|
    ensures Sane(e.table)
    ensures var e' := Visit(e, i, plan, hash); var x := e.table.slots[i];
      && (x.IsLive() ==> x.mem.Some? && x.mem.value.0 in KeysFrom(e.table, i))
      && (e'.removed <==> e.removed || (x.IsLive() && x.mem.value.0 in Ahead(e.table, i, plan.drop)))
      && (e'.rekeyed <==> e.rekeyed || (x.IsLive() && x.mem.value.0 in Ahead(e.table, i, Moving(plan))))
      && (MovesAt(e, i, plan) <==> x.IsLive() && x.mem.value.0 in Ahead(e.table, i, Moving(plan)))
  {
    hide Midway, View, KeysFrom, RemoveEntry, RekeyWithoutRehash, Bag, WellLaid;
    CountedSized(e.table, hash);
    if e.table.slots[i].IsLive() {
      LiveKey(e.table, i, hash);
      KeyBehind(e.table, i, hash);
    }
  }

  /** A pass drops something exactly when there is an entry to drop, and moves each entry to be moved exactly once. */
  lemma {:induction false} PassFlags<K, V>(m: map<K, V>, e: EnumState<K, V>, i: nat, plan: Plan<K, V>,
                                           hash: K -> HashNumber)
    requires Sensible(m, plan) && PassInv(m, e, i, plan, hash)
    ensures Sane(e.table)
    ensures var e' := Pass(e, i, plan, hash);
      && (e'.removed <==> e.removed || Ahead(e.table, i, plan.drop) != {})
      && (e'.rekeyed <==> e.rekeyed || Ahead(e.table, i, Moving(plan)) != {})
    ensures Moves(e, i, plan, hash) == |Ahead(e.table, i, Moving(plan))|
    decreases |e.table.slots| - i
  {
    hide Sensible, Settles, Midway, View, KeysFrom, Visit, Counted, Ahead, Moving, MovesAt;
    CountedSized(e.table, hash);
    if i == |e.table.slots| {
      NothingAhead(e.table, plan.drop);
      NothingAhead(e.table, Moving(plan));
    } else {
      VisitShape(e, i, plan, hash);
      VisitKeeps(m, e, i, plan, hash);
      VisitFlags(m, e, i, plan, hash);
      PlanSettles(m, plan);
      VisitAhead(m, e, i, plan, plan.drop, hash);
      VisitAhead(m, e, i, plan, Moving(plan), hash);
      AheadNext(e.table, i, plan.drop, hash);
      AheadNext(e.table, i, Moving(plan), hash);
      PassFlags(m, Visit(e, i, plan, hash), i + 1, plan, hash);
    }
  }

  lemma NothingAhead<K, V>(t: Table<K, V>, q: (K, V) -> bool)
    ensures Ahead(t, |t.slots|, q) == {}
  {
  }

  /** At the start, everything is ahead. */
  lemma AllAhead<K, V>(t: Table<K, V>, plan: Plan<K, V>, hash: K -> HashNumber)
    requires Counted(t, hash)
    ensures Ahead(t, 0, plan.drop) == Dropped(View(t), plan)
    ensures Ahead(t, 0, Moving(plan)) == Moved(View(t), plan)
  {
    hide Counted, View, KeysFrom;
    AllPending(t, hash);
  }

  /** What the destructor's compaction does to `t`, if it is called. */
  ghost predicate MayCompact<K, V>(t: Table<K, V>, t': Table<K, V>, removed: bool, alloc: bool) {
    if removed && alloc && Underloaded(t) then Compacts(t, t') else t' == t
  }

  /**
   * Closing keeps the entries and restores the load bound. It compacts exactly when entries were removed, the
   * table is underloaded and there is memory; only rekeying starts a new generation otherwise.
   */
  lemma CloseCorrect<K, V>(e: EnumState<K, V>, alloc1: bool, alloc2: bool, hash: K -> HashNumber)
    requires Counted(e.table, hash)
    requires 4 * e.table.entryCount <= 3 * Capacity(e.table)
    requires !e.rekeyed ==> WithinLoad(e.table)
    ensures Sane(e.table)
    ensures Inv(Close(e, alloc1, alloc2), hash) && View(Close(e, alloc1, alloc2)) == View(e.table)
    ensures var t := e.table.(gen := e.table.gen + 1);
      MayCompact(if e.rekeyed then CheckOverRemoved(t, alloc1) else e.table, Close(e, alloc1, alloc2),
                 e.removed, alloc2)
    ensures e.removed && alloc2 ==> !Underloaded(Close(e, alloc1, alloc2))
    ensures !e.removed || !alloc2 ==> Capacity(Close(e, alloc1, alloc2)) >= Capacity(e.table)
    ensures e.rekeyed ==> Close(e, alloc1, alloc2).gen > e.table.gen
    ensures !e.rekeyed && !e.removed ==> Close(e, alloc1, alloc2) == e.table
  {
    hide Bag, Tombs, WellLaid, CheckOverRemoved, CompactIfUnderloaded, Contents, Underloaded, Overloaded, MustFail,
         Powers.Pow2;
    CountedSized(e.table, hash);
    var t0 := e.table.(gen := e.table.gen + 1);
    CheckOverRemovedCorrect(t0, alloc1, hash);
    var t := if e.rekeyed then CheckOverRemoved(t0, alloc1) else e.table;
    CompactCorrect(t, alloc2, hash);
  }

  lemma GenCounted<K, V>(t: Table<K, V>, hash: K -> HashNumber)
    requires Counted(t, hash)
    ensures Counted(t.(gen := t.gen + 1), hash) && View(t.(gen := t.gen + 1)) == View(t)
  {
  }

  /**
   * A whole mutating enumeration ends with exactly the image of the kept entries, findable and
   * within the load bound, although entries moved ahead of the cursor are visited again. If it drops an
   * entry and there is memory, the table does not stay underloaded; otherwise its capacity is not reduced.
   */
  lemma EnumerationCorrect<K, V>(t: Table<K, V>, plan: Plan<K, V>, alloc1: bool, alloc2: bool, hash: K -> HashNumber)
    requires Inv(t, hash) && Sensible(View(t), plan)
    ensures Sane(t)
    ensures var t' := Swept(t, plan, alloc1, alloc2, hash);
      && Inv(t', hash) && IsImage(View(t), View(t'), plan) && View(t') == Image(View(t), plan)
      && (Dropped(View(t), plan) != {} && alloc2 ==> !Underloaded(t'))
      && (Dropped(View(t), plan) == {} || !alloc2 ==> Capacity(t') >= Capacity(t))
      && (Moved(View(t), plan) != {} ==> t'.gen > t.gen)
      && (Moved(View(t), plan) == {} && Dropped(View(t), plan) == {} ==> SameStorage(t, t'))
  {
    hide Sensible, Midway, Counted, Pass, Close, IsImage, View, Image, Dropped, Moved, Ahead, Underloaded, Powers.Pow2,
         MayCompact;
    CountedSized(t, hash);
    var e := EnumState(t, false, false);
    StartMidway(View(t), plan);
    AllPending(t, hash);
    PassKeeps(View(t), e, 0, plan, hash);
    var e' := Pass(e, 0, plan, hash);
    assert KeysFrom(e'.table, |e'.table.slots|) == {};
    FinishMidway(View(t), View(e'.table), plan);
    PassFlags(View(t), e, 0, plan, hash);
    PassGen(e, 0, plan, hash);
    AllAhead(t, plan, hash);
    CloseCorrect(e', alloc1, alloc2, hash);
    ImageUnique(View(t), View(e'.table), plan);
  }

  lemma AllPending<K, V>(t: Table<K, V>, hash: K -> HashNumber)
    requires Counted(t, hash)
    ensures KeysFrom(t, 0) == View(t).Keys
  {
    hide Probe, Rank, Bag;
    forall key | key in View(t) ensures key in KeysFrom(t, 0) {
      var j := KeyHasSlot(t.slots, t.log2, key, hash);
    }
    forall j | 0 <= j < |t.slots| && t.slots[j].IsLive() && t.slots[j].mem.Some?
      ensures t.slots[j].mem.value.0 in View(t)
    {
      LiveKey(t, j, hash);
    }
  }

  lemma PassStart<K, V>(t: Table<K, V>, plan: Plan<K, V>, hash: K -> HashNumber)
    requires Inv(t, hash) && Sensible(View(t), plan)
    ensures PassInv(View(t), EnumState(t, false, false), 0, plan, hash)
  {
    hide Sensible, Midway, Counted, View;
    CountedSized(t, hash);
    StartMidway(View(t), plan);
    AllPending(t, hash);
  }
}
