/** What adding one zone's string statistics to another's computes, and which strings it loses. */
module StringMerge {
  import opened Slots
  import opened Bags
  import opened Layout
  import opened TableState
  import opened Operations
  import opened Enumeration
  import opened Initial

  const COPIES := 0x8000_0000
  const SIZES := 0x1_0000_0000_0000_0000

  /** A 31-bit bit-field and two 64-bit `size_t` totals. */
  datatype StringInfo = StringInfo(numCopies: nat, isShort: bool, gcHeap: nat, mallocHeap: nat) {
    predicate InRange() {
      numCopies < COPIES && gcHeap < SIZES && mallocHeap < SIZES
    }

    /** `add(const StringInfo&)`, with the wrap-around of the three counters. */
    function Add(info: StringInfo): StringInfo {
      StringInfo((numCopies + info.numCopies) % COPIES, isShort,
                 (gcHeap + info.gcHeap) % SIZES, (mallocHeap + info.mallocHeap) % SIZES)
    }
  }

  type Infos<!Str> = map<Str, StringInfo>

  /** Pointwise sum of the statistics of two zones. */
  function Merge<Str>(m: Infos<Str>, o: Infos<Str>): (r: Infos<Str>)
    ensures r.Keys == m.Keys + o.Keys
  {
    map k | k in m.Keys + o.Keys :: if k in m && k in o then m[k].Add(o[k]) else if k in m then m[k] else o[k]
  }

  /** No counter of a string present on both sides overflows, and its two `isShort` flags agree. */
  ghost predicate Addable<Str>(m: Infos<Str>, o: Infos<Str>) {
    && (forall k :: k in m ==> m[k].InRange())
    && (forall k :: k in o ==> o[k].InRange())
    && forall k :: k in m && k in o ==>
         && m[k].isShort == o[k].isShort
         && m[k].numCopies + o[k].numCopies < COPIES
         && m[k].gcHeap + o[k].gcHeap < SIZES
         && m[k].mallocHeap + o[k].mallocHeap < SIZES
  }

  /** One of the three counters. */
  datatype Counter = Copies | GcHeap | MallocHeap

  function Read(info: StringInfo, c: Counter): nat {
    match c
    case Copies => info.numCopies
    case GcHeap => info.gcHeap
    case MallocHeap => info.mallocHeap
  }

  /** A counter summed over all the strings. */
  ghost function Total<Str>(m: Infos<Str>, c: Counter): nat
    decreases |m|
  {
    if m == map[] then 0
    else
      var k :| k in m;
      Read(m[k], c) + Total(m - {k}, c)
  }

  lemma {:induction false} TotalWithout<Str>(m: Infos<Str>, k: Str, c: Counter)
    requires k in m
    ensures Total(m, c) == Read(m[k], c) + Total(m - {k}, c)
    decreases |m|
  {
    var l :| l in m && Total(m, c) == Read(m[l], c) + Total(m - {l}, c);
    if l != k {
      TotalWithout(m - {l}, k, c);
      TotalWithout(m - {k}, l, c);
      assert m - {l} - {k} == m - {k} - {l};
    }
  }

  lemma TotalSet<Str>(m: Infos<Str>, k: Str, info: StringInfo, c: Counter)
    ensures Total(m[k := info], c) + (if k in m then Read(m[k], c) else 0) == Total(m, c) + Read(info, c)
  {
    hide Total, Read;
    TotalWithout(m[k := info], k, c);
    assert m[k := info] - {k} == m - {k};
    if k in m {
      TotalWithout(m, k, c);
    } else {
      assert m - {k} == m;
    }
  }

  /** Totals are conserved by a merge without overflow. */
  lemma {:induction false} MergeConserves<Str>(m: Infos<Str>, o: Infos<Str>, c: Counter)
    requires Addable(m, o)
    ensures Total(Merge(m, o), c) == Total(m, c) + Total(o, c)
    decreases |o|
  {
    hide Read, Merge;
    if o == map[] {
      MergeEmpty(m);
    } else {
      var k :| k in o;
      var o' := o - {k};
      assert o == o'[k := o[k]];
      MergeConserves(m, o', c);
      MergeOne(m, o', k, o[k]);
      TotalWithout(o, k, c);
      TotalSet(Merge(m, o'), k, if k in m then m[k].Add(o[k]) else o[k], c);
      if k in m {
        NoWrap(m[k], o[k], c);
      }
    }
  }

  lemma MergeEmpty<Str>(m: Infos<Str>)
    ensures Merge(m, map[]) == m
  {
  }

  lemma NoWrap(a: StringInfo, b: StringInfo, c: Counter)
    requires a.numCopies + b.numCopies < COPIES
    requires a.gcHeap + b.gcHeap < SIZES && a.mallocHeap + b.mallocHeap < SIZES
    ensures Read(a.Add(b), c) == Read(a, c) + Read(b, c)
  {
  }

  /** Adding one more entry of `o` to the merge of a part of it. */
  lemma MergeOne<Str>(m: Infos<Str>, o: Infos<Str>, k: Str, info: StringInfo)
    requires k !in o
    ensures Merge(m, o[k := info]) == Merge(m, o)[k := if k in m then m[k].Add(info) else info]
    ensures k in Merge(m, o) <==> k in m
    ensures k in m ==> Merge(m, o)[k] == m[k]
  {
  }

  // ---------------------------------------------------------------- records in full

  /** The record `r` of a string known as `a` and met again as `b`: counters wrap around at their widths. */
  ghost predicate Summed(r: StringInfo, a: StringInfo, b: StringInfo) {
    && r.isShort == a.isShort
    && r.numCopies == (a.numCopies + b.numCopies) % 0x8000_0000
    && r.gcHeap == (a.gcHeap + b.gcHeap) % 0x1_0000_0000_0000_0000
    && r.mallocHeap == (a.mallocHeap + b.mallocHeap) % 0x1_0000_0000_0000_0000
  }

  /** The same where no counter overflows. */
  ghost predicate SummedExactly(r: StringInfo, a: StringInfo, b: StringInfo) {
    && r.isShort == a.isShort == b.isShort
    && r.numCopies == a.numCopies + b.numCopies
    && r.gcHeap == a.gcHeap + b.gcHeap
    && r.mallocHeap == a.mallocHeap + b.mallocHeap
  }

  /** Of legal records, exactly the addable ones are summed without wrap-around. */
  lemma AddableExactly<Str>(m: Infos<Str>, o: Infos<Str>)
    requires forall k :: k in m ==>
      m[k].numCopies < 0x8000_0000 && m[k].gcHeap < 0x1_0000_0000_0000_0000 && m[k].mallocHeap < 0x1_0000_0000_0000_0000
    requires forall k :: k in o ==>
      o[k].numCopies < 0x8000_0000 && o[k].gcHeap < 0x1_0000_0000_0000_0000 && o[k].mallocHeap < 0x1_0000_0000_0000_0000
    ensures Addable(m, o) <==> forall k :: k in m && k in o ==> SummedExactly(m[k].Add(o[k]), m[k], o[k])
  {
    if forall k :: k in m && k in o ==> SummedExactly(m[k].Add(o[k]), m[k], o[k]) {
      forall k | k in m && k in o
        ensures m[k].isShort == o[k].isShort && m[k].numCopies + o[k].numCopies < COPIES
        ensures m[k].gcHeap + o[k].gcHeap < SIZES && m[k].mallocHeap + o[k].mallocHeap < SIZES
      {
        assert SummedExactly(m[k].Add(o[k]), m[k], o[k]);
      }
    }
  }

  /** `now` is `m` with one more string: known strings are summed, a new one has its whole record. */
  ghost predicate OneMore<Str>(m: Infos<Str>, key: Str, info: StringInfo, now: Infos<Str>) {
    && now.Keys == m.Keys + {key}
    && (forall k :: k in m && k != key ==> now[k] == m[k])
    && if key in m then Summed(now[key], m[key], info) else now[key] == info
  }

  /** `now` is the union of `m` and `o` but for `lost`: strings of one zone have its whole record. */
  ghost predicate Together<Str>(m: Infos<Str>, o: Infos<Str>, lost: set<Str>, now: Infos<Str>) {
    && now.Keys == m.Keys + (o.Keys - lost)
    && (forall k :: k in m && k !in o ==> now[k] == m[k])
    && (forall k :: k in o && k !in m && k !in lost ==> now[k] == o[k])
    && (forall k :: k in m && k in o ==> Summed(now[k], m[k], o[k]))
    && (Addable(m, o) ==> forall k :: k in m && k in o ==> SummedExactly(now[k], m[k], o[k]))
  }

  lemma MergeTogether<Str>(m: Infos<Str>, o: Infos<Str>, lost: set<Str>)
    requires lost <= o.Keys - m.Keys
    ensures Together(m, o, lost, Merge(m, o - lost))
  {
    var now := Merge(m, o - lost);
    assert (o - lost).Keys == o.Keys - lost;
    forall k | k in m && k in o
      ensures Summed(now[k], m[k], o[k]) && (Addable(m, o) ==> SummedExactly(now[k], m[k], o[k]))
    {
      assert now[k] == m[k].Add(o[k]);
    }
  }

  /** The map with one more string tallied. */
  function Tallied<Str>(m: Infos<Str>, key: Str, info: StringInfo): Infos<Str> {
    m[key := if key in m then m[key].Add(info) else info]
  }

  lemma TalliedOneMore<Str>(m: Infos<Str>, key: Str, info: StringInfo)
    ensures OneMore(m, key, info, Tallied(m, key, info))
  {
  }

  /** What the three totals are: nothing for no string, and with every further string its own counters more. */
  lemma TotalsAdd<Str>(m: Infos<Str>, k: Str, info: StringInfo)
    requires k !in m
    ensures forall c :: Total<Str>(map[], c) == 0
    ensures Total(m[k := info], Copies) == Total(m, Copies) + info.numCopies
    ensures Total(m[k := info], GcHeap) == Total(m, GcHeap) + info.gcHeap
    ensures Total(m[k := info], MallocHeap) == Total(m, MallocHeap) + info.mallocHeap
  {
    TotalSet(m, k, info, Copies);
    TotalSet(m, k, info, GcHeap);
    TotalSet(m, k, info, MallocHeap);
  }

  // ---------------------------------------------------------------- one string

  /** The loop body: add to the tally of a known string, or enter a new one. */
  ghost function AddString<Str>(t: Table<Str, StringInfo>, key: Str, info: StringInfo, alloc: bool,
                                hash: Str -> HashNumber): Added<Str, StringInfo>
    requires Sane(t)
  {
    var (t', p) := LookupForAdd(t, key, hash);
    var x := t'.slots[p.entry];
    if x.IsLive() && x.mem.Some? then Added(SetValue(t', p.entry, x.mem.value.1.Add(info)), p, true)
    else Add(t', p, key, info, alloc)
  }

  lemma AddStringCorrect<Str>(t: Table<Str, StringInfo>, key: Str, info: StringInfo, alloc: bool,
                              hash: Str -> HashNumber)
    requires Inv(t, hash)
    ensures Sane(t)
    ensures var r := AddString(t, key, info, alloc, hash);
      && Inv(r.table, hash)
      && (!r.ok <==> Refused(t, key, alloc, hash))
      && View(r.table) == (if r.ok then Tallied(View(t), key, info) else View(t))
      && (r.ok ==> OneMore(View(t), key, info, View(r.table)))
  {
    hide Counted, Add, SetValue, AddReady, Bag, MustFail, View, LookupForAdd, OneMore;
    TalliedOneMore(View(t), key, info);
    CountedSized(t, hash);
    QuarterFree(t, hash);
    LookupForAddCorrect(t, key, hash);
    LookupForAddCounters(t, key, hash);
    MarkKeepsTombs(t, key, hash);
    LookupIs(t, key, hash);
    var (t', p) := LookupForAdd(t, key, hash);
    MustFailSame(t, t', alloc);
    if key in View(t) {
      SetValueCorrect(t', p.entry, View(t)[key].Add(info), hash);
    } else {
      AddCorrect(t', p, key, info, alloc, hash);
    }
  }

  lemma AddCounts<K, V>(t: Table<K, V>, p: AddPtr, key: K, value: V, alloc: bool)
    requires Sane(t) && p.entry < |t.slots|
    ensures var t' := Add(t, p, key, value, alloc).table;
      && t'.removedCount <= t.removedCount
      && (!alloc ==> t'.log2 == t.log2)
      && (t'.log2 == t.log2 || t'.removedCount == 0)
  {
    hide Fill, Rebuild.Copied, MarkTo, Seek, FreeEntry, Overloaded, Powers.Pow2;
  }

  /** Adding a string makes no tombstone; without memory the capacity stays, and a new one leaves no tombstone. */
  lemma AddStringCounts<Str>(t: Table<Str, StringInfo>, key: Str, info: StringInfo, alloc: bool,
                             hash: Str -> HashNumber)
    requires Sane(t)
    ensures var t' := AddString(t, key, info, alloc, hash).table;
      && t'.removedCount <= t.removedCount
      && (!alloc ==> t'.log2 == t.log2)
      && (t'.log2 == t.log2 || t'.removedCount == 0)
  {
    hide LookupForAdd, Add;
    LookupForAddCounters(t, key, hash);
    var (t', p) := LookupForAdd(t, key, hash);
    AddCounts(t', p, key, info, alloc);
  }

  // ---------------------------------------------------------------- the whole loop

  /** A table of strings and the strings that could not be entered. */
  datatype Sum<Str> = Sum(table: Table<Str, StringInfo>, lost: set<Str>)

  /** The loop over the slots of the other table, from slot `i` on; `alloc` is the allocator's answer at each slot. */
  ghost function AddFrom<Str>(t: Table<Str, StringInfo>, s: seq<Slot<Str, StringInfo>>, i: nat, alloc: nat -> bool,
                              hash: Str -> HashNumber): Sum<Str>
    requires i <= |s|
    decreases |s| - i
  {
    if i == |s| || !Sane(t) then Sum(t, {})
    else if !s[i].IsLive() || s[i].mem.None? then AddFrom(t, s, i + 1, alloc, hash)
    else
      var key := s[i].mem.value.0;
      var r := AddString(t, key, s[i].mem.value.1, alloc(i), hash);
      var rest := AddFrom(r.table, s, i + 1, alloc, hash);
      rest.(lost := rest.lost + if r.ok then {} else {key})
  }

  /** The strings of the slots from `i` on. */
  ghost function Rest<Str>(o: Table<Str, StringInfo>, i: nat): (r: Infos<Str>)
    requires KeysFrom(o, i) <= View(o).Keys
    ensures r.Keys == KeysFrom(o, i)
  {
    map k | k in KeysFrom(o, i) :: View(o)[k]
  }

  lemma RestInside<Str>(o: Table<Str, StringInfo>, i: nat, ohash: Str -> HashNumber)
    requires Counted(o, ohash)
    ensures KeysFrom(o, i) <= View(o).Keys
  {
    hide Counted, View;
    AllPending(o, ohash);
    assert KeysFrom(o, i) <= KeysFrom(o, 0);
  }

  /** The entry at slot `i` is in the map, and not among the later ones. */
  lemma RestNext<Str>(o: Table<Str, StringInfo>, i: nat, ohash: Str -> HashNumber)
    requires Counted(o, ohash) && i < |o.slots|
    ensures KeysFrom(o, i) <= View(o).Keys && KeysFrom(o, i + 1) <= View(o).Keys
    ensures if o.slots[i].IsLive()
            then o.slots[i].mem.Some? && o.slots[i].mem.value.0 !in KeysFrom(o, i + 1)
              && Rest(o, i) == Rest(o, i + 1)[o.slots[i].mem.value.0 := o.slots[i].mem.value.1]
            else Rest(o, i) == Rest(o, i + 1)
  {
    hide Bag, Tombs, PathsOk, View, DistinctKeys;
    RestInside(o, i, ohash);
    RestInside(o, i + 1, ohash);
    if o.slots[i].IsLive() {
      LiveKey(o, i, ohash);
      var k := o.slots[i].mem.value.0;
      if k in KeysFrom(o, i + 1) {
        var j :| i + 1 <= j < |o.slots| && o.slots[j].IsLive() && o.slots[j].mem.Some? && o.slots[j].mem.value.0 == k;
        SameKeySameSlot(o.slots, o.log2, i, j, ohash);
      }
      assert KeysFrom(o, i) == KeysFrom(o, i + 1) + {k};
    } else {
      assert KeysFrom(o, i) == KeysFrom(o, i + 1);
    }
  }

  lemma MergeTallied<Str>(m: Infos<Str>, o: Infos<Str>, k: Str, info: StringInfo, lost: set<Str>)
    requires k !in o && k !in lost
    ensures Merge(Tallied(m, k, info), o - lost) == Merge(m, o[k := info] - lost)
  {
  }

  lemma MergeDropped<Str>(o: Infos<Str>, k: Str, info: StringInfo, lost: set<Str>)
    requires k !in o
    ensures o[k := info] - (lost + {k}) == o - lost
  {
  }

  /** The result is the pointwise sum of the two maps, except for the strings lost, all of them new. */
  lemma {:induction false} AddFromMerges<Str>(t: Table<Str, StringInfo>, o: Table<Str, StringInfo>, i: nat,
                                              alloc: nat -> bool, hash: Str -> HashNumber, ohash: Str -> HashNumber)
    requires Inv(t, hash) && Counted(o, ohash) && i <= |o.slots|
    ensures KeysFrom(o, i) <= View(o).Keys
    ensures var r := AddFrom(t, o.slots, i, alloc, hash);
      && Inv(r.table, hash)
      && r.lost <= KeysFrom(o, i) - View(t).Keys
      && View(r.table) == Merge(View(t), Rest(o, i) - r.lost)
    decreases |o.slots| - i
  {
    hide Inv, View, Counted, KeysFrom, Rest, Merge, Tallied, AddString, Refused;
    InvSized(t, hash);
    RestInside(o, i, ohash);
    if i == |o.slots| {
      assert KeysFrom(o, i) == {} by { NoneFrom(o); }
      assert Rest(o, i) - {} == map[];
      MergeEmpty(View(t));
    } else {
      RestNext(o, i, ohash);
      var x := o.slots[i];
      if x.IsLive() {
        var k, info := x.mem.value.0, x.mem.value.1;
        AddStringCorrect(t, k, info, alloc(i), hash);
        var r := AddString(t, k, info, alloc(i), hash);
        AddFromMerges(r.table, o, i + 1, alloc, hash, ohash);
        var rest := AddFrom(r.table, o.slots, i + 1, alloc, hash);
        if r.ok {
          TalliedKeys(View(t), k, info);
          assert rest.lost + {} == rest.lost;
          MergeTallied(View(t), Rest(o, i + 1), k, info, rest.lost);
        } else {
          RefusedNew(t, k, alloc(i), hash);
          MergeDropped(Rest(o, i + 1), k, info, rest.lost);
        }
      } else {
        AddFromMerges(t, o, i + 1, alloc, hash, ohash);
      }
    }
  }

  lemma NoneFrom<K, V>(t: Table<K, V>)
    ensures KeysFrom(t, |t.slots|) == {}
  {
  }

  lemma TalliedKeys<Str>(m: Infos<Str>, k: Str, info: StringInfo)
    ensures Tallied(m, k, info).Keys == m.Keys + {k}
  {
  }

  lemma RefusedNew<Str>(t: Table<Str, StringInfo>, key: Str, alloc: bool, hash: Str -> HashNumber)
    requires Sane(t) && Refused(t, key, alloc, hash)
    ensures key !in View(t)
  {
  }

  // ---------------------------------------------------------------- what is lost

  /** The largest capacity to be had. */
  function Limit<K, V>(t: Table<K, V>, alloc: bool): nat {
    if alloc then MAX_CAPACITY else Capacity(t)
  }

  /** No insertion will fail over tombstones: there are none, or a rebuild that drops them comes first. */
  predicate Clean<K, V>(t: Table<K, V>, alloc: bool) {
    t.removedCount == 0 || (alloc && t.log2 < 24)
  }

  lemma SubsetSize<T>(a: set<T>, b: set<T>)
    requires a <= b
    ensures |a| <= |b|
    ensures a != b ==> |a| < |b|
  {
    assert b == a + (b - a);
  }

  lemma FailureIsFull<K, V>(t: Table<K, V>, alloc: bool, hash: K -> HashNumber)
    requires Inv(t, hash) && MustFail(t, alloc)
    ensures alloc ==> 2 * t.entryCount > MAX_CAPACITY
    ensures 4 * (t.entryCount + t.removedCount) >= 3 * Limit(t, alloc)
    ensures Clean(t, alloc) ==> 4 * t.entryCount >= 3 * Limit(t, alloc)
  {
    hide Powers.Pow2, Counted;
    CapacityFacts(t);
    TopCapacity(t.log2);
  }

  /** One string: entries are not lost, and one is refused only by a full table. */
  lemma AddStringGrows<Str>(t: Table<Str, StringInfo>, key: Str, info: StringInfo, alloc: bool,
                            hash: Str -> HashNumber)
    requires Inv(t, hash)
    ensures Sane(t)
    ensures var r := AddString(t, key, info, alloc, hash);
      && r.table.entryCount >= t.entryCount
      && (!r.ok && alloc ==> 2 * t.entryCount > MAX_CAPACITY)
      && (!r.ok ==> 4 * (t.entryCount + t.removedCount) >= 3 * Limit(t, alloc))
      && (!r.ok && Clean(t, alloc) ==> 4 * t.entryCount >= 3 * Limit(t, alloc))
  {
    hide Powers.Pow2, Counted, View, AddString, MustFail, Limit, Clean;
    AddStringCorrect(t, key, info, alloc, hash);
    var r := AddString(t, key, info, alloc, hash);
    CountIsSize(t, hash);
    CountIsSize(r.table, hash);
    SubsetSize(View(t).Keys, View(r.table).Keys);
    assert |View(t).Keys| == |View(t)| && |View(r.table).Keys| == |View(r.table)|;
    if !r.ok {
      FailureIsFull(t, alloc, hash);
    }
  }

  /** With an allocator that always answers `a`, strings are lost only to a table that is full in the end. */
  lemma {:induction false} AddFromLoses<Str>(t: Table<Str, StringInfo>, s: seq<Slot<Str, StringInfo>>, i: nat, a: bool,
                                             alloc: nat -> bool, hash: Str -> HashNumber)
    requires Inv(t, hash) && i <= |s| && forall j :: alloc(j) == a
    ensures var r := AddFrom(t, s, i, alloc, hash);
      && r.table.entryCount >= t.entryCount
      && (a && r.lost != {} ==> 2 * r.table.entryCount > MAX_CAPACITY)
      && (r.lost != {} ==> 4 * (r.table.entryCount + t.removedCount) >= 3 * Limit(t, a))
      && (Clean(t, a) && r.lost != {} ==> 4 * r.table.entryCount >= 3 * Limit(t, a))
      && (!a ==> r.table.log2 == t.log2)
    decreases |s| - i
  {
    hide Powers.Pow2, Inv, View, AddString, Refused, Tallied;
    InvSized(t, hash);
    if i < |s| && s[i].IsLive() && s[i].mem.Some? {
      var key, info := s[i].mem.value.0, s[i].mem.value.1;
      AddStringCorrect(t, key, info, a, hash);
      AddStringCounts(t, key, info, a, hash);
      AddStringGrows(t, key, info, a, hash);
      AddFromLoses(AddString(t, key, info, a, hash).table, s, i + 1, a, alloc, hash);
    } else if i < |s| {
      AddFromLoses(t, s, i + 1, a, alloc, hash);
    }
  }

  // ---------------------------------------------------------------- `addStrings`

  ghost function AddAll<Str>(t: Table<Str, StringInfo>, o: Table<Str, StringInfo>, alloc: nat -> bool,
                             hash: Str -> HashNumber): Sum<Str> {
    AddFrom(t, o.slots, 0, alloc, hash)
  }

  lemma AllStrings<Str>(o: Table<Str, StringInfo>, ohash: Str -> HashNumber)
    requires Counted(o, ohash)
    ensures KeysFrom(o, 0) == View(o).Keys && Rest(o, 0) == View(o)
  {
    hide Counted, View;
    AllPending(o, ohash);
  }

  /** The sum of the two zones' maps, but for the strings lost; each counter's total is conserved on the rest. */
  lemma AddAllMerges<Str>(t: Table<Str, StringInfo>, o: Table<Str, StringInfo>, alloc: nat -> bool,
                          hash: Str -> HashNumber, ohash: Str -> HashNumber)
    requires Inv(t, hash) && Counted(o, ohash)
    ensures var r := AddAll(t, o, alloc, hash);
      && Inv(r.table, hash)
      && r.lost <= View(o).Keys - View(t).Keys
      && View(r.table) == Merge(View(t), View(o) - r.lost)
      && Together(View(t), View(o), r.lost, View(r.table))
      && (Addable(View(t), View(o)) ==> forall c ::
            Total(View(r.table), c) == Total(View(t), c) + Total(View(o) - r.lost, c))
  {
    hide Inv, Counted, View, Merge, AddFrom, Total, Addable, Together;
    AllStrings(o, ohash);
    AddFromMerges(t, o, 0, alloc, hash, ohash);
    MergeTogether(View(t), View(o), AddAll(t, o, alloc, hash).lost);
    var m, kept := View(t), View(o) - AddAll(t, o, alloc, hash).lost;
    if Addable(m, View(o)) {
      AddableLess(m, View(o), kept);
      forall c ensures Total(Merge(m, kept), c) == Total(m, c) + Total(kept, c) {
        MergeConserves(m, kept, c);
      }
    }
  }

  lemma AddableLess<Str>(m: Infos<Str>, o: Infos<Str>, o': Infos<Str>)
    requires Addable(m, o) && forall k :: k in o' ==> k in o && o'[k] == o[k]
    ensures Addable(m, o')
  {
  }

  lemma LostOutside<Str>(m: Infos<Str>, o: Infos<Str>, now: Infos<Str>, lost: set<Str>)
    requires now == Merge(m, o - lost) && lost <= o.Keys - m.Keys
    ensures lost == {} ==> |now| == |m.Keys + o.Keys|
    ensures lost != {} ==> |now| < |m.Keys + o.Keys|
  {
    hide Merge;
    assert (o - lost).Keys == o.Keys - lost;
    assert |now| == |now.Keys|;
    SubsetSize(now.Keys, m.Keys + o.Keys);
    if lost == {} {
      assert now.Keys == m.Keys + o.Keys;
    } else {
      var k :| k in lost;
      assert k in m.Keys + o.Keys && k !in now.Keys;
    }
  }

  /** Bounds on whether strings are lost, for `all` different strings in both zones. */
  ghost predicate Bounded<Str>(t: Table<Str, StringInfo>, all: nat, lost: set<Str>, alloc: bool) {
    && (lost == {} ==> 4 * all <= 3 * Limit(t, alloc))
    && (4 * (all + t.removedCount) <= 3 * Limit(t, alloc) ==> lost == {})
  }

  /**
   * With an allocator that always gives the same answer, nothing is lost only if the strings of both zones
   * together fit in three quarters of the largest capacity to be had, and always if they do so with the tombstones.
   */
  lemma LossBounds<Str>(t: Table<Str, StringInfo>, o: Table<Str, StringInfo>, a: bool, alloc: nat -> bool,
                        hash: Str -> HashNumber, ohash: Str -> HashNumber)
    requires Inv(t, hash) && Counted(o, ohash) && forall j :: alloc(j) == a
    ensures var all, lost := |View(t).Keys + View(o).Keys|, AddAll(t, o, alloc, hash).lost;
      && Bounded(t, all, lost, a)
      && (Clean(t, a) && 4 * all <= 3 * Limit(t, a) ==> lost == {})
  {
    hide Powers.Pow2, Counted, View, Merge, AddFrom, Clean;
    AddAllMerges(t, o, alloc, hash, ohash);
    AddFromLoses(t, o.slots, 0, a, alloc, hash);
    var r := AddAll(t, o, alloc, hash);
    CountIsSize(r.table, hash);
    LostOutside(View(t), View(o), View(r.table), r.lost);
    CapacityFacts(r.table);
  }

  /**
   * The two bounds meet in a zone without tombstones, and when memory is granted below the maximal capacity:
   * then nothing is lost if and only if all the strings fit in three quarters of the largest capacity to be had.
   */
  lemma NothingLost<Str>(t: Table<Str, StringInfo>, o: Table<Str, StringInfo>, a: bool, alloc: nat -> bool,
                         hash: Str -> HashNumber, ohash: Str -> HashNumber)
    requires Inv(t, hash) && Counted(o, ohash) && Clean(t, a) && forall j :: alloc(j) == a
    ensures AddAll(t, o, alloc, hash).lost == {} <==> 4 * |View(t).Keys + View(o).Keys| <= 3 * Limit(t, a)
  {
    hide Counted, View, AddAll, Limit, Clean;
    LossBounds(t, o, a, alloc, hash, ohash);
  }

  /** With memory granted, tombstones or not, nothing is lost if the strings fit in half of the maximal capacity. */
  lemma NothingLostBelowHalf<Str>(t: Table<Str, StringInfo>, o: Table<Str, StringInfo>, alloc: nat -> bool,
                                  hash: Str -> HashNumber, ohash: Str -> HashNumber)
    requires Inv(t, hash) && Counted(o, ohash) && forall j :: alloc(j)
    requires 2 * |View(t).Keys + View(o).Keys| <= MAX_CAPACITY
    ensures AddAll(t, o, alloc, hash).lost == {}
  {
    hide Powers.Pow2, Counted, View, Merge, AddFrom;
    AddAllMerges(t, o, alloc, hash, ohash);
    AddFromLoses(t, o.slots, 0, true, alloc, hash);
    var r := AddAll(t, o, alloc, hash);
    CountIsSize(r.table, hash);
    LostOutside(View(t), View(o), View(r.table), r.lost);
  }

  // ---------------------------------------------------------------- a string that is lost

  /**
   * Strings are lost in practice: after `init(3)` and three insertions a zone has no room for a fourth
   * string, so without memory `addStrings` drops the other zone's string and leaves this zone as it was.
   */
  lemma FourthStringIsLost<Str>(mine: seq<Item<Str, StringInfo>>, theirs: Item<Str, StringInfo>,
                                hash: Str -> HashNumber)
    requires |mine| == 3 && FreshKeys(mine + [theirs], map[], hash)
    ensures Init<Str, StringInfo>(3, 0, true).Some? && Init<Str, StringInfo>(1, 0, true).Some?
    ensures var t := PutNewAll(Init<Str, StringInfo>(3, 0, true).value, mine, true);
      var o := PutNewAll(Init<Str, StringInfo>(1, 0, true).value, [theirs], true);
      && t.1 && o.1 && Inv(t.0, hash) && Inv(o.0, hash)
      && View(t.0).Keys == ItemKeys(mine) && View(o.0).Keys == {theirs.key}
      && var r := AddAll(t.0, o.0, _ => false, hash);
      && r.lost == {theirs.key} && View(r.table) == View(t.0)
  {
    hide Inv, View, Init, PutNewAll, FreshKeys, AddAll;
    FreshParts(mine, theirs, hash);
    Filled(3, mine, hash);
    Filled(1, [theirs], hash);
    assert ItemKeys([theirs]) == {theirs.key};
    FullZoneLoses(PutNewAll(Init<Str, StringInfo>(3, 0, true).value, mine, true).0,
                  PutNewAll(Init<Str, StringInfo>(1, 0, true).value, [theirs], true).0, theirs.key, hash);
  }

  lemma FullZoneLoses<Str>(t: Table<Str, StringInfo>, o: Table<Str, StringInfo>, key: Str, hash: Str -> HashNumber)
    requires Inv(t, hash) && t.removedCount == 0 && Capacity(t) == 4 && t.entryCount == 3
    requires Inv(o, hash) && View(o).Keys == {key} && key !in View(t)
    ensures var r := AddAll(t, o, _ => false, hash); r.lost == {key} && View(r.table) == View(t)
  {
    hide Inv, View, AddAll, Merge, Addable, Powers.Pow2;
    InvCounted(o, hash);
    NothingLost(t, o, false, _ => false, hash, hash);
    AddAllMerges(t, o, _ => false, hash, hash);
    CountIsSizeOf(t, hash);
    assert |View(t).Keys + View(o).Keys| == 4;
    MergeLeaves(View(t), View(o), {key});
  }

  lemma InvCounted<K, V>(t: Table<K, V>, hash: K -> HashNumber)
    requires Inv(t, hash)
    ensures Counted(t, hash)
  {
  }

  lemma CountIsSizeOf<K, V>(t: Table<K, V>, hash: K -> HashNumber)
    requires Inv(t, hash)
    ensures |View(t).Keys| == t.entryCount
  {
    hide Counted, View;
    CountIsSize(t, hash);
    assert |View(t)| == |View(t).Keys|;
  }

  lemma MergeLeaves<Str>(m: Infos<Str>, o: Infos<Str>, lost: set<Str>)
    requires o.Keys <= lost
    ensures Merge(m, o - lost) == m
  {
  }

  lemma FreshParts<Str>(mine: seq<Item<Str, StringInfo>>, theirs: Item<Str, StringInfo>, hash: Str -> HashNumber)
    requires FreshKeys(mine + [theirs], map[], hash)
    ensures FreshKeys(mine, map[], hash) && FreshKeys([theirs], map[], hash)
    ensures theirs.key !in ItemKeys(mine)
  {
    hide ItemOk;
    var all := mine + [theirs];
    assert forall i :: 0 <= i < |mine| ==> all[i] == mine[i];
    assert all[|mine|] == theirs;
  }

  /** After `init(n)` for `n` of at most three and `n` insertions: capacity four and `n` strings. */
  lemma Filled<Str>(n: nat, items: seq<Item<Str, StringInfo>>, hash: Str -> HashNumber)
    requires n <= 3 && |items| == n && FreshKeys(items, map[], hash)
    ensures Init<Str, StringInfo>(n, 0, true).Some?
    ensures var (t, ok) := PutNewAll(Init<Str, StringInfo>(n, 0, true).value, items, true);
      ok && Inv(t, hash) && View(t).Keys == ItemKeys(items) && t.removedCount == 0 && Capacity(t) == 4
      && t.entryCount == n
  {
    hide Inv, View, Init, PutNewAll, FreshKeys;
    InitSmallest<Str, StringInfo>(n, 0, hash);
    InitIsEnough(n, 0, items, true, hash);
    var t0 := Init<Str, StringInfo>(n, 0, true).value;
    PutNewAllCorrect(t0, items, true, hash);
    SmallInit<Str, StringInfo>(n);
    var t := PutNewAll(t0, items, true).0;
    CountIsSizeOf(t, hash);
    ItemKeysSize(items, hash);
  }

  lemma SmallInit<K, V>(n: nat)
    requires n <= 3
    ensures Init<K, V>(n, 0, true).Some? && Capacity(Init<K, V>(n, 0, true).value) == 4
  {
    assert WantedCapacity(n) == 4;
    assert Powers.Pow2(2) == 4;
  }

  lemma {:induction false} ItemKeysSize<K, V>(items: seq<Item<K, V>>, hash: K -> HashNumber)
    requires FreshKeys(items, map[], hash)
    ensures |ItemKeys(items)| == |items|
    decreases |items|
  {
    hide ItemOk;
    if items != [] {
      var n := |items| - 1;
      ItemKeysSize(items[..n], hash);
      assert items == items[..n] + [items[n]];
      assert ItemKeys(items) == ItemKeys(items[..n]) + {items[n].key};
      assert items[n].key !in ItemKeys(items[..n]);
    }
  }
}
