/** Adding one zone's string statistics to another's: a loop over one hash map that updates the other. */
module ZoneStrings {
  import opened Slots
  import opened Bags
  import opened Layout
  import opened TableState
  import opened Operations
  import opened HashTables
  import opened HashMaps
  import opened Enumeration
  import opened Enums
  import opened StringMerge

  /** Slots that are not live add nothing. */
  lemma {:induction false} AddFromSkips<Str>(t: Table<Str, StringInfo>, s: seq<Slot<Str, StringInfo>>, i: nat, j: nat,
                                             alloc: nat -> bool, hash: Str -> HashNumber)
    requires Sane(t) && i <= j <= |s| && AllDead(s, i, j)
    ensures AddFrom(t, s, i, alloc, hash) == AddFrom(t, s, j, alloc, hash)
    decreases j - i
  {
    hide AddString;
    if i < j {
      AddFromSkips(t, s, i + 1, j, alloc, hash);
    }
  }

  lemma AddFromNext<Str>(t: Table<Str, StringInfo>, s: seq<Slot<Str, StringInfo>>, i: nat, alloc: nat -> bool,
                         hash: Str -> HashNumber)
    requires Sane(t) && i < |s| && s[i].IsLive() && s[i].mem.Some?
    ensures var r := AddString(t, s[i].mem.value.0, s[i].mem.value.1, alloc(i), hash);
      var rest := AddFrom(r.table, s, i + 1, alloc, hash);
      AddFrom(t, s, i, alloc, hash) == rest.(lost := rest.lost + if r.ok then {} else {s[i].mem.value.0})
  {
    hide AddString;
  }

  /** The loop has reached table `now` and lost `lost`, and what remains from slot `i` on gives `all`. */
  ghost predicate Remaining<Str>(all: Sum<Str>, now: Table<Str, StringInfo>, s: seq<Slot<Str, StringInfo>>, i: nat,
                                 lost: set<Str>, alloc: nat -> bool, hash: Str -> HashNumber) {
    && i <= |s|
    && all == Sum(AddFrom(now, s, i, alloc, hash).table, lost + AddFrom(now, s, i, alloc, hash).lost)
  }

  lemma RemainingStart<Str>(t: Table<Str, StringInfo>, s: seq<Slot<Str, StringInfo>>, j: nat, alloc: nat -> bool,
                            hash: Str -> HashNumber)
    requires Sane(t) && j <= |s| && AllDead(s, 0, j)
    ensures Remaining(AddFrom(t, s, 0, alloc, hash), t, s, j, {}, alloc, hash)
  {
    hide AddFrom;
    AddFromSkips(t, s, 0, j, alloc, hash);
  }

  lemma RemainingStep<Str>(all: Sum<Str>, t: Table<Str, StringInfo>, s: seq<Slot<Str, StringInfo>>, i: nat, j: nat,
                           lost: set<Str>, alloc: nat -> bool, hash: Str -> HashNumber)
    requires Sane(t) && Remaining(all, t, s, i, lost, alloc, hash) && i < j <= |s| && AllDead(s, i + 1, j)
    requires s[i].IsLive() && s[i].mem.Some?
    ensures var r := AddString(t, s[i].mem.value.0, s[i].mem.value.1, alloc(i), hash);
      Sane(r.table) ==>
        Remaining(all, r.table, s, j, if r.ok then lost else lost + {s[i].mem.value.0}, alloc, hash)
  {
    hide AddFrom, AddString;
    var r := AddString(t, s[i].mem.value.0, s[i].mem.value.1, alloc(i), hash);
    AddFromNext(t, s, i, alloc, hash);
    if Sane(r.table) {
      AddFromSkips(r.table, s, i + 1, j, alloc, hash);
    }
  }

  lemma RemainingEnd<Str>(all: Sum<Str>, t: Table<Str, StringInfo>, s: seq<Slot<Str, StringInfo>>, lost: set<Str>,
                          alloc: nat -> bool, hash: Str -> HashNumber)
    requires Remaining(all, t, s, |s|, lost, alloc, hash)
    ensures all == Sum(t, lost)
  {
  }

  class ZoneStats<Str(==)> {
    const strings: HashMap<Str, StringInfo>

    constructor (strings: HashMap<Str, StringInfo>)
      ensures this.strings == strings
    {
      this.strings := strings;
    }

    ghost predicate Ready()
      reads this, strings, strings.impl, strings.impl.table
    {
      strings.Ready()
    }

    ghost function Strings(): Infos<Str>
      requires Ready()
      reads this, strings, strings.impl, strings.impl.table
    {
      strings.Contents()
    }

    /**
     * `addStrings`. The source ignores the result of `add`, so a string whose insertion fails is dropped:
     * `lost` holds those, all of them new here. `alloc` is the allocator's answer at each slot of `other`.
     */
    method AddStrings(other: ZoneStats<Str>, alloc: nat -> bool) returns (ghost lost: set<Str>)
      requires Ready() && other.Ready()
      requires strings.impl != other.strings.impl && strings.impl.table != other.strings.impl.table
      requires forall k :: k in Strings() && k in other.Strings() ==> Strings()[k].isShort == other.Strings()[k].isShort
      modifies strings.impl, strings.impl.table
      ensures Ready() && other.Ready() && other.strings.impl.State() == old(other.strings.impl.State())
      ensures Sum(strings.impl.State(), lost)
           == AddAll(old(strings.impl.State()), other.strings.impl.State(), alloc, strings.impl.hash)
      ensures lost <= other.Strings().Keys - old(Strings()).Keys
      ensures Strings() == Merge(old(Strings()), other.Strings() - lost)
      ensures Together(old(Strings()), other.Strings(), lost, Strings())
      ensures Addable(old(Strings()), other.Strings()) ==> forall c ::
                Total(Strings(), c) == Total(old(Strings()), c) + Total(other.Strings() - lost, c)
      ensures forall a :: Clean(old(strings.impl.State()), a) && (forall i :: alloc(i) == a) ==>
                (lost == {} <==> 4 * |old(Strings()).Keys + other.Strings().Keys|
                                   <= 3 * Limit(old(strings.impl.State()), a))
      ensures forall a :: (forall i :: alloc(i) == a) ==>
                Bounded(old(strings.impl.State()), |old(Strings()).Keys + other.Strings().Keys|, lost, a)
      ensures (forall i :: alloc(i)) && 2 * |old(Strings()).Keys + other.Strings().Keys| <= MAX_CAPACITY ==> lost == {}
    {
      hide Powers.Pow2, Inv, View, Merge, AddAll, Addable, Limit, Total, Clean, Bounded,
           Together;
      AddAllFacts(strings.impl.State(), other.strings.impl.State(), alloc, strings.impl.hash, other.strings.impl.hash);
      lost := MergeAll(other.strings.impl, alloc);
    }

    /** The loop of `addStrings`. */
    method MergeAll(src: HashTable<Str, StringInfo>, alloc: nat -> bool) returns (ghost lost: set<Str>)
      requires Ready() && src.Ready() && src != strings.impl && src.table != strings.impl.table
      modifies strings.impl, strings.impl.table
      ensures Ready() && src.Ready() && src.State() == old(src.State())
      ensures Sum(strings.impl.State(), lost)
           == AddAll(old(strings.impl.State()), src.State(), alloc, strings.impl.hash)
    {
      hide Powers.Pow2, Inv, View, Remaining, AllDead, AddFrom;
      ghost var t, o, hash := strings.impl.State(), src.State(), strings.impl.hash;
      lost := {};
      var r := new Range(src.table);
      RemainingStart(t, o.slots, r.cur, alloc, hash);
      while !r.Empty()
        invariant fresh(r) && Linked(r, src)
        invariant Ready() && (strings.impl.table == old(strings.impl.table) || fresh(strings.impl.table))
        invariant src.Ready() && src.State() == o && strings.impl.table != src.table
        invariant Remaining(AddAll(t, o, alloc, hash), strings.impl.State(), o.slots, r.cur, lost, alloc, hash)
        decreases src.table.Length - r.cur
      {
        lost := MergeFront(src, r, alloc, AddAll(t, o, alloc, hash), lost);
      }
      RemainingEnd(AddAll(t, o, alloc, hash), strings.impl.State(), o.slots, lost, alloc, hash);
    }

    /** The range `r` walks the storage of `src`, and stands at a live slot unless at the end. */
    ghost predicate Linked(r: Range<Str, StringInfo>, src: HashTable<Str, StringInfo>)
      reads r, src, src.table
    {
      && src.Valid() && r.storage == src.table && r.cur <= src.table.Length
      && (!r.Empty() ==> src.table[r.cur].IsLive())
    }

    /** One turn of the loop: merge the front string of the other table, and move on. */
    method MergeFront(src: HashTable<Str, StringInfo>, r: Range<Str, StringInfo>, alloc: nat -> bool,
                      ghost all: Sum<Str>, ghost lost: set<Str>) returns (ghost lost': set<Str>)
      requires Ready() && src.Ready() && src != strings.impl && src.table != strings.impl.table
      requires Linked(r, src) && !r.Empty()
      requires Remaining(all, strings.impl.State(), src.State().slots, r.cur, lost, alloc, strings.impl.hash)
      modifies strings.impl, strings.impl.table, r
      ensures Ready() && (strings.impl.table == old(strings.impl.table) || fresh(strings.impl.table))
      ensures Linked(r, src) && r.cur > old(r.cur)
      ensures Remaining(all, strings.impl.State(), src.State().slots, r.cur, lost', alloc, strings.impl.hash)
    {
      hide Powers.Pow2, Inv, View, Remaining, AllDead, StringMerge.AddString, Refused;
      ghost var t, o, i := strings.impl.State(), src.State(), r.cur;
      EntryAt(o, src.hash, i);
      var (key, info) := r.Front();
      ghost var ok := AddString(key, info, alloc(r.cur));
      lost' := if ok then lost else lost + {key};
      r.PopFront();
      RemainingStep(all, t, o.slots, i, r.cur, lost, alloc, strings.impl.hash);
    }

    /** The loop body: add to the tally of a known string, or enter a new one; false if it is dropped. */
    method AddString(key: Str, info: StringInfo, alloc: bool) returns (ok: bool)
      requires Ready()
      modifies strings.impl, strings.impl.table
      ensures Ready() && (strings.impl.table == old(strings.impl.table) || fresh(strings.impl.table))
      ensures strings.impl.State() ==
              StringMerge.AddString(old(strings.impl.State()), key, info, alloc, strings.impl.hash).table
      ensures ok == StringMerge.AddString(old(strings.impl.State()), key, info, alloc, strings.impl.hash).ok
      ensures !ok <==> Refused(old(strings.impl.State()), key, alloc, strings.impl.hash)
      ensures if ok then OneMore(old(Strings()), key, info, Strings()) else Strings() == old(Strings())
    {
      hide Powers.Pow2, Inv, View, AddReady, TableState.Add, TableState.LookupForAdd, TableState.SetValue, MustFail,
           Refused, OneMore, Tallied;
      ghost var t := strings.impl.State();
      AddStringCorrect(t, key, info, alloc, strings.impl.hash);
      var p := strings.impl.LookupForAdd(key);
      if strings.impl.table[p.entry].IsLive() {
        strings.impl.SetValue(p.entry, strings.impl.table[p.entry].mem.value.1.Add(info));
        return true;
      }
      ok, p := strings.impl.Add(p, key, info, alloc);
    }
  }

  lemma EntryAt<K, V>(t: Table<K, V>, hash: K -> HashNumber, i: nat)
    requires Inv(t, hash) && i < |t.slots| && t.slots[i].IsLive()
    ensures t.slots[i].mem.Some?
  {
    hide Bag, PathMarked;
    LiveKey(t, i, hash);
  }

  /** What `AddStrings` promises, about the function that it computes. */
  lemma AddAllFacts<Str>(t: Table<Str, StringInfo>, o: Table<Str, StringInfo>, alloc: nat -> bool,
                         hash: Str -> HashNumber, ohash: Str -> HashNumber)
    requires Inv(t, hash) && Inv(o, ohash)
    ensures var r := AddAll(t, o, alloc, hash);
      && r.lost <= View(o).Keys - View(t).Keys
      && View(r.table) == Merge(View(t), View(o) - r.lost)
      && Together(View(t), View(o), r.lost, View(r.table))
      && (Addable(View(t), View(o)) ==> forall c ::
            Total(View(r.table), c) == Total(View(t), c) + Total(View(o) - r.lost, c))
    ensures forall a :: Clean(t, a) && (forall j :: alloc(j) == a) ==>
              (AddAll(t, o, alloc, hash).lost == {} <==> 4 * |View(t).Keys + View(o).Keys| <= 3 * Limit(t, a))
    ensures forall a :: (forall j :: alloc(j) == a) ==>
              Bounded(t, |View(t).Keys + View(o).Keys|, AddAll(t, o, alloc, hash).lost, a)
    ensures (forall j :: alloc(j)) && 2 * |View(t).Keys + View(o).Keys| <= MAX_CAPACITY ==>
              AddAll(t, o, alloc, hash).lost == {}
  {
    hide Counted, WithinLoad, View, Merge, AddAll, Addable, Limit, Total, Clean, Together;
    AddAllMerges(t, o, alloc, hash, ohash);
    forall a | forall j :: alloc(j) == a
      ensures Bounded(t, |View(t).Keys + View(o).Keys|, AddAll(t, o, alloc, hash).lost, a)
    {
      LossBounds(t, o, a, alloc, hash, ohash);
    }
    forall a | Clean(t, a) && forall j :: alloc(j) == a
      ensures AddAll(t, o, alloc, hash).lost == {} <==> 4 * |View(t).Keys + View(o).Keys| <= 3 * Limit(t, a)
    {
      NothingLost(t, o, a, alloc, hash, ohash);
    }
    if (forall j :: alloc(j)) && 2 * |View(t).Keys + View(o).Keys| <= MAX_CAPACITY {
      NothingLostBelowHalf(t, o, alloc, hash, ohash);
    }
  }
}
