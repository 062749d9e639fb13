/** The work done by resizing, paid for by the operations that caused it. */
module Amortised {
  import opened Slots
  import opened Layout
  import opened TableState
  import opened Operations
  import opened MapOperations
  import opened Plans
  import opened Enumeration
  import opened Rekeying
  import opened Runs

  const CREDIT := 12

  function Positive(x: int): nat {
    if x > 0 then x else 0
  }

  /** Credit stored by entries and tombstones beyond half of the table, and by the capacity itself. */
  function Potential(capacity: nat, entryCount: nat, removedCount: nat): nat {
    CREDIT * Positive(entryCount + removedCount - capacity / 2) + 2 * capacity
  }

  function Stored<K, V>(t: Table<K, V>): nat {
    Potential(Capacity(t), t.entryCount, t.removedCount)
  }

  /** At most one resize, and its walk is paid for by `credit` and the credit stored. */
  ghost predicate Pays<K, V>(t: Table<K, V>, t': Table<K, V>, credit: nat) {
    t.gen <= t'.gen <= t.gen + 1 && Stored(t') + Walked(t, t') <= Stored(t) + credit
  }

  lemma GrowPays(cap: nat, e: nat, r: nat)
    requires cap % 4 == 0 && 4 * (e + r) >= 3 * cap && 4 * e <= 3 * cap && r < cap / 4
    ensures Potential(2 * cap, e, 0) + cap <= Potential(cap, e, r)
  {
  }

  lemma CompressPays(cap: nat, e: nat, r: nat)
    requires cap % 4 == 0 && 4 * (e + r) >= 3 * cap && r >= cap / 4
    ensures Potential(cap, e, 0) + cap <= Potential(cap, e, r)
  {
  }

  lemma ShrinkPays(cap: nat, e: nat, r: nat)
    requires cap % 2 == 0 && 4 * e <= 2 * cap
    ensures Potential(cap, e, 0) + 2 * cap <= Potential(2 * cap, e, r)
  {
  }

  lemma OverloadPays(cap: nat, e: nat, r: nat)
    requires cap % 4 == 0 && 4 * (e + r) >= 3 * cap && 4 * e <= 3 * cap
    ensures Potential(if r >= cap / 4 then cap else 2 * cap, e, 0) + cap <= Potential(cap, e, r)
  {
    hide Potential;
    if r >= cap / 4 {
      CompressPays(cap, e, r);
    } else {
      GrowPays(cap, e, r);
    }
  }

  lemma CheckOverloadedPays<K, V>(t: Table<K, V>, alloc: bool, hash: K -> HashNumber)
    requires Counted(t, hash) && 4 * t.entryCount <= 3 * Capacity(t)
    ensures var t' := CheckOverloaded(t, alloc).table;
      Pays(t, t', 0)
  {
    hide Potential, Powers.Pow2, Rebuild.Copied, Counted;
    CapacityFacts(t);
    Doubling(t.log2);
    if Overloaded(t) {
      OverloadPays(Capacity(t), t.entryCount, t.removedCount);
    }
  }

  lemma CheckUnderloadedShape<K, V>(t: Table<K, V>, alloc: bool)
    ensures var t' := CheckUnderloaded(t, alloc);
      if Underloaded(t) && alloc
      then t'.log2 + 1 == t.log2 && t'.gen == t.gen + 1 && t'.entryCount == t.entryCount && t'.removedCount == 0
      else t' == t
  {
    hide Powers.Pow2, Rebuild.Copied;
    if Underloaded(t) {
      UnderloadedCanShrink(t.log2, t.entryCount);
    }
  }

  lemma CheckUnderloadedPays<K, V>(t: Table<K, V>, alloc: bool)
    ensures var t' := CheckUnderloaded(t, alloc);
      Pays(t, t', 0)
  {
    hide Potential, Powers.Pow2, CheckUnderloaded, Underloaded;
    CheckUnderloadedShape(t, alloc);
    CapacityFacts(t);
    if Underloaded(t) && alloc {
      var t' := CheckUnderloaded(t, alloc);
      Doubling(t'.log2);
      CapacityFacts(t');
      ShrinkPays(Capacity(t'), t.entryCount, t.removedCount);
    }
  }

  lemma InsertCosts(cap: nat, e: nat, r: nat, r': nat)
    requires r' <= r
    ensures Potential(cap, e + 1, r') <= Potential(cap, e, r) + CREDIT
  {
  }

  lemma RemoveCosts(cap: nat, e: nat, r: nat, r': nat)
    requires r' <= r + 1 && e > 0
    ensures Potential(cap, e - 1, r') <= Potential(cap, e, r)
  {
  }

  lemma RekeyCosts(cap: nat, e: nat, r: nat, r': nat)
    requires r' <= r + 1
    ensures Potential(cap, e, r') <= Potential(cap, e, r) + CREDIT
  {
  }

  lemma FewerTombs(cap: nat, e: nat, r: nat, r': nat)
    requires r' <= r
    ensures Potential(cap, e, r') <= Potential(cap, e, r)
  {
  }

  lemma FillShape<K, V>(t: Table<K, V>, it: Item<K, V>)
    requires Sane(t)
    ensures var t' := PutNewInfallible(t, it);
      && t'.log2 == t.log2 && t'.gen == t.gen && t'.entryCount == t.entryCount + 1
      && t'.removedCount <= t.removedCount
  {
  }

  lemma PutNewPays<K, V>(t: Table<K, V>, it: Item<K, V>, alloc: bool, hash: K -> HashNumber)
    requires Inv(t, hash)
    ensures var r := PutNew(t, it, alloc);
      Pays(t, r.table, if r.status == RehashFailed then 0 else CREDIT)
  {
    hide Potential, Powers.Pow2, CheckOverloaded, PutNewInfallible, Counted;
    CheckOverloadedPays(t, alloc, hash);
    CheckOverloadedCorrect(t, alloc, hash);
    CountedSized(t, hash);
    var r := CheckOverloaded(t, alloc);
    CountedSized(r.table, hash);
    FillShape(r.table, it);
    InsertCosts(Capacity(r.table), r.table.entryCount, r.table.removedCount,
                PutNewInfallible(r.table, it).removedCount);
  }

  lemma AddPays<K, V>(t: Table<K, V>, p: AddPtr, key: K, value: V, alloc: bool, hash: K -> HashNumber)
    requires Inv(t, hash) && p.entry < |t.slots|
    ensures Sane(t)
    ensures var r := Add(t, p, key, value, alloc);
      Pays(t, r.table, if r.ok then CREDIT else 0)
  {
    hide Potential, Powers.Pow2, CheckOverloaded, PutNewInfallible, Counted, Fill;
    CheckOverloadedPays(t, alloc, hash);
    CheckOverloadedCorrect(t, alloc, hash);
    CountedSized(t, hash);
    var r := CheckOverloaded(t, alloc);
    CountedSized(r.table, hash);
    var it := Item(p.keyHash, key, value);
    FillShape(r.table, it);
    InsertCosts(Capacity(r.table), r.table.entryCount, r.table.removedCount,
                PutNewInfallible(r.table, it).removedCount);
    InsertCosts(Capacity(t), t.entryCount, t.removedCount, FillEntry(t, p.entry, it).removedCount);
  }

  lemma RemovePays<K, V>(t: Table<K, V>, i: nat, alloc: bool)
    requires i < |t.slots| && t.entryCount > 0
    ensures var t' := RemovePtr(t, i, alloc);
      Pays(t, t', 0)
  {
    hide Potential, Powers.Pow2, CheckUnderloaded, RemoveAt;
    var t1 := RemoveEntry(t, i);
    RemoveCosts(Capacity(t), t.entryCount, t.removedCount, t1.removedCount);
    CheckUnderloadedPays(t1, alloc);
  }

  lemma InPlacePays(cap: nat, e: nat, r: nat)
    ensures Potential(cap, e, 0) <= Potential(cap, e, r)
  {
  }

  lemma RekeyPays<K, V>(t: Table<K, V>, i: nat, key: K, alloc: bool, hash: K -> HashNumber)
    requires Inv(t, hash) && i < |t.slots| && t.slots[i].IsLive() && t.slots[i].WellFormed()
    requires key in View(t) ==> key == t.slots[i].Get().key
    ensures Sane(t) && t.entryCount > 0
    ensures var t' := RekeyAndMaybeRehash(t, i, key, alloc, hash);
      Pays(t, t', if key in View(t) then 0 else CREDIT)
  {
    hide Potential, Powers.Pow2, CheckOverloaded, Rebuild.RehashedInPlace, RekeyWithoutRehash, Counted, View;
    CountedSized(t, hash);
    RekeySameKey(t, i, hash);
    RekeyWithoutRehashCorrect(t, i, key, hash);
    RekeyShape(t, i, key, hash);
    var t1 := RekeyWithoutRehash(t, i, key, hash);
    RekeyCosts(Capacity(t), t.entryCount, t.removedCount, t1.removedCount);
    if key in View(t) {
      FewerTombs(Capacity(t), t.entryCount, t.removedCount, t1.removedCount);
    }
    CheckOverloadedPays(t1, alloc, hash);
    CountedSized(t1, hash);
    InPlacePays(Capacity(t1), t1.entryCount, t1.removedCount);
  }

  lemma RekeyShape<K, V>(t: Table<K, V>, i: nat, key: K, hash: K -> HashNumber)
    requires Sane(t) && i < |t.slots| && t.entryCount > 0 && t.slots[i].mem.Some?
    ensures var t' := RekeyWithoutRehash(t, i, key, hash);
      && t'.log2 == t.log2 && t'.gen == t.gen && t'.entryCount == t.entryCount
      && t'.removedCount <= t.removedCount + 1
  {
    hide PutNewInfallible;
    RemoveEntryShape(t, i);
    FillShape(RemoveEntry(t, i), Item(Stem(hash, key), key, t.slots[i].mem.value.1));
  }

  lemma ClearPays<K, V>(t: Table<K, V>)
    ensures Pays(t, Clear(t), 0)
  {
    hide Powers.Pow2;
  }

  /** What an insertion pays: nothing for a key that is present, and nothing when it is refused. */
  ghost function InsertCredit<K, V>(t: Table<K, V>, key: K, ok: bool): nat {
    if key in View(t) || !ok then 0 else CREDIT
  }

  /** Searching and then adding. */
  lemma SearchAddPays<K, V>(t: Table<K, V>, key: K, value: V, alloc: bool, hash: K -> HashNumber)
    requires Inv(t, hash)
    ensures Sane(t)
    ensures var r := RelookupOrAdd(t, key, value, alloc, hash);
      Pays(t, r.table, InsertCredit(t, key, r.ok))
    ensures var r := Put(t, key, value, alloc, hash);
      Pays(t, r.table, InsertCredit(t, key, r.ok))
  {
    hide Potential, Powers.Pow2, Counted, View, Add, AddReady, LookupForAdd;
    CountedSized(t, hash);
    QuarterFree(t, hash);
    LookupForAddCorrect(t, key, hash);
    LookupForAddCounters(t, key, hash);
    var (t', p) := LookupForAdd(t, key, hash);
    AddPays(t', p, key, value, alloc, hash);
  }

  // ---------------------------------------------------------------- mutating enumerations

  lemma VisitPays<K, V>(e: EnumState<K, V>, i: nat, plan: Plan<K, V>, hash: K -> HashNumber)
    requires Sane(e.table) && i < |e.table.slots|
    ensures Stored(Visit(e, i, plan, hash).table) <= Stored(e.table) + if MovesAt(e, i, plan) then CREDIT else 0
  {
    hide Potential, Powers.Pow2, RemoveAt, RekeyWithoutRehash;
    var t, x := e.table, e.table.slots[i];
    if x.IsLive() && x.mem.Some? && t.entryCount > 0 {
      if Drops(plan, x) {
        RemoveCosts(Capacity(t), t.entryCount, t.removedCount, RemoveEntry(t, i).removedCount);
      } else if NewKey(plan, x) != x.mem.value.0 {
        RekeyShape(t, i, NewKey(plan, x), hash);
        RekeyCosts(Capacity(t), t.entryCount, t.removedCount,
                   RekeyWithoutRehash(t, i, NewKey(plan, x), hash).removedCount);
      }
    }
  }

  lemma {:induction false} PassPays<K, V>(e: EnumState<K, V>, i: nat, plan: Plan<K, V>, hash: K -> HashNumber)
    requires Sane(e.table) && i <= |e.table.slots|
    ensures Stored(Pass(e, i, plan, hash).table) <= Stored(e.table) + CREDIT * Moves(e, i, plan, hash)
    decreases |e.table.slots| - i
  {
    hide Stored, Visit, MovesAt;
    if i < |e.table.slots| {
      VisitShape(e, i, plan, hash);
      VisitPays(e, i, plan, hash);
      PassPays(Visit(e, i, plan, hash), i + 1, plan, hash);
    }
  }

  lemma HalvingsPay(cap: nat, cap': nat, e: nat, r: nat)
    requires 2 * cap' <= cap && 2 * e <= cap'
    ensures Potential(cap', e, 0) + cap <= Potential(cap, e, r)
  {
  }

  lemma CompactPays<K, V>(t: Table<K, V>, alloc: bool)
    ensures var t' := CompactIfUnderloaded(t, alloc);
      Stored(t') + Walked(t, t') <= Stored(t)
  {
    hide Potential, Powers.Pow2, Rebuild.Copied, BestLog2, WouldBeUnderloaded;
    var b := BestLog2(t.log2, t.entryCount);
    BestLog2Largest(t.log2, t.entryCount);
    if b != t.log2 && alloc {
      Doubling(b);
      Powers.Pow2Monotone(b + 1, t.log2);
      HalvingsPay(Capacity(t), Powers.Pow2(b), t.entryCount, t.removedCount);
    }
  }

  lemma CheckOverRemovedPays<K, V>(t: Table<K, V>, alloc: bool, hash: K -> HashNumber)
    requires Counted(t, hash) && 4 * t.entryCount <= 3 * Capacity(t)
    ensures Sane(t)
    ensures Pays(t, CheckOverRemoved(t, alloc), 0)
  {
    hide Potential, Powers.Pow2, CheckOverloaded, Rebuild.RehashedInPlace, Counted;
    CountedSized(t, hash);
    CheckOverloadedPays(t, alloc, hash);
    InPlacePays(Capacity(t), t.entryCount, t.removedCount);
  }

  lemma ClosePays<K, V>(e: EnumState<K, V>, alloc1: bool, alloc2: bool, hash: K -> HashNumber)
    requires Counted(e.table, hash) && 4 * e.table.entryCount <= 3 * Capacity(e.table)
    ensures Sane(e.table)
    ensures Stored(Close(e, alloc1, alloc2)) + CloseWalked(e, alloc1, alloc2) <= Stored(e.table)
  {
    hide Potential, Powers.Pow2, Counted, CheckOverRemoved, CompactIfUnderloaded;
    CountedSized(e.table, hash);
    var t1 := e.table.(gen := e.table.gen + 1);
    GenCounted(e.table, hash);
    CheckOverRemovedPays(t1, alloc1, hash);
    CompactPays(if e.rekeyed then CheckOverRemoved(t1, alloc1) else e.table, alloc2);
  }

  /** A mutating enumeration is paid for by the entries it moves; those it drops pay for themselves. */
  lemma SweepPays<K, V>(t: Table<K, V>, plan: Plan<K, V>, alloc1: bool, alloc2: bool, hash: K -> HashNumber)
    requires Inv(t, hash) && Sensible(View(t), plan)
    ensures Sane(t)
    ensures Stored(Swept(t, plan, alloc1, alloc2, hash)) + SweptWalked(t, plan, alloc1, alloc2, hash)
         <= Stored(t) + CREDIT * |Moved(View(t), plan)|
  {
    hide Stored, View, Sensible, Midway, Counted, Pass, Close, CloseWalked, Moves, Ahead, Moved, Dropped;
    InvSized(t, hash);
    var e := EnumState(t, false, false);
    PassStart(t, plan, hash);
    PassKeeps(View(t), e, 0, plan, hash);
    PassPays(e, 0, plan, hash);
    PassFlags(View(t), e, 0, plan, hash);
    AllAhead(t, plan, hash);
    ClosePays(Pass(e, 0, plan, hash), alloc1, alloc2, hash);
  }

  // ---------------------------------------------------------------- runs

  /** The slots walked by the resizes of one call. */
  ghost function StepWalked<K, V>(t: Table<K, V>, op: Op<K, V>, hash: K -> HashNumber): nat
    requires Sane(t)
  {
    if op.OpSweep? then SweptWalked(t, op.plan, op.alloc1, op.alloc2, hash)
    else Walked(t, Step(t, op, hash).0)
  }

  /** The number of keys that a call brings into the map. */
  ghost function Entered<K, V>(t: Table<K, V>, op: Op<K, V>, hash: K -> HashNumber): nat
    requires Sane(t)
  {
    |View(Step(t, op, hash).0).Keys - View(t).Keys|
  }

  /** The keys of `s'` that are not in `s`, when `s'` is `s` without some keys and with one other. */
  lemma SetNewKeys<K>(s: set<K>, s': set<K>, gone: set<K>, key: K)
    requires s' == s - gone + {key}
    ensures |s' - s| == if key in s then 0 else 1
  {
    assert s' - s == if key in s then {} else {key};
  }

  lemma PutNewKeys<K, V>(m: map<K, V>, key: K, value: V)
    ensures |m[key := value].Keys - m.Keys| == if key in m then 0 else 1
  {
    assert m[key := value].Keys == m.Keys - {} + {key};
    SetNewKeys(m.Keys, m[key := value].Keys, {}, key);
  }

  lemma RekeyNewKeys<K, V>(m: map<K, V>, key: K, newKey: K, value: V)
    ensures |(m - {key})[newKey := value].Keys - m.Keys| == if newKey in m then 0 else 1
  {
    assert (m - {key})[newKey := value].Keys == m.Keys - {key} + {newKey};
    SetNewKeys(m.Keys, (m - {key})[newKey := value].Keys, {key}, newKey);
  }

  lemma NoNewKeys<K>(s: set<K>, s': set<K>)
    requires s' <= s
    ensures |s' - s| == 0
  {
    assert s' - s == {};
  }

  /** The number of keys that a call brings into a map: none if it fails. */
  ghost function NewKeys<K, V>(m: map<K, V>, op: Op<K, V>, failed: bool): nat {
    match op
    case OpFindOrAdd(key, _, _) => if key in m || failed then 0 else 1
    case OpPut(key, _, _) => if key in m || failed then 0 else 1
    case OpPutNew(_, _, _) => if failed then 0 else 1
    case OpRekeyAs(key, newKey, _) => if key in m && newKey !in m then 1 else 0
    case OpSweep(plan, _, _) => |Moved(m, plan)|
    case _ => 0
  }

  lemma InsertionNewKeys<K, V>(m: map<K, V>, op: Op<K, V>, answer: Answer<V>)
    requires Legal(m, op) && (op.OpFindOrAdd? || op.OpPut? || op.OpPutNew?)
    ensures |MapStep(m, op, answer).Keys - m.Keys| == NewKeys(m, op, answer.Failed?)
  {
    NoNewKeys(m.Keys, m.Keys);
    PutNewKeys(m, op.key, op.value);
  }

  lemma RemovalNewKeys<K, V>(m: map<K, V>, key: K)
    ensures |(m - {key}).Keys - m.Keys| == 0
  {
    assert (m - {key}).Keys == m.Keys - {key};
    NoNewKeys(m.Keys, (m - {key}).Keys);
  }

  lemma RekeyingNewKeys<K, V>(m: map<K, V>, op: Op<K, V>, answer: Answer<V>)
    requires Legal(m, op) && op.OpRekeyAs?
    ensures |MapStep(m, op, answer).Keys - m.Keys| == NewKeys(m, op, answer.Failed?)
  {
    var m' := MapStep(m, op, answer);
    if op.key in m {
      assert m' == (m - {op.key})[op.newKey := m[op.key]];
      RekeyNewKeys(m, op.key, op.newKey, m[op.key]);
    } else {
      assert m' == m;
      NoNewKeys(m.Keys, m.Keys);
    }
  }

  lemma MapStepNewKeys<K, V>(m: map<K, V>, op: Op<K, V>, answer: Answer<V>)
    requires Legal(m, op)
    ensures |MapStep(m, op, answer).Keys - m.Keys| == NewKeys(m, op, answer.Failed?)
  {
    if op.OpFindOrAdd? || op.OpPut? || op.OpPutNew? {
      InsertionNewKeys(m, op, answer);
    } else if op.OpRekeyAs? {
      RekeyingNewKeys(m, op, answer);
    } else if op.OpRemove? {
      RemovalNewKeys(m, op.key);
    } else if op.OpSweep? {
      hide Sensible, Moved, Image;
      ImageNewKeys(m, op.plan);
    } else {
      NoNewKeys(m.Keys, MapStep(m, op, answer).Keys);
    }
  }

  /** Insertions and rekeys bring at most one key, enumerations those of the entries they move, other calls none. */
  lemma EnteredIs<K, V>(t: Table<K, V>, op: Op<K, V>, hash: K -> HashNumber)
    requires Inv(t, hash) && Legal(View(t), op)
    ensures Sane(t)
    ensures Entered(t, op, hash) == NewKeys(View(t), op, Fails(t, op, hash))
  {
    hide Inv, View, Step, Legal, Expected, MapStep, Fails, NewKeys;
    StepRefines(t, op, hash);
    MapStepNewKeys(View(t), op, Step(t, op, hash).1);
  }

  /** An insertion resizes at most once, and twelve credits pay for the walk if it inserts. */
  lemma InsertionPays<K, V>(t: Table<K, V>, op: Op<K, V>, hash: K -> HashNumber)
    requires Inv(t, hash) && Legal(View(t), op) && (op.OpFindOrAdd? || op.OpPut? || op.OpPutNew?)
    ensures Sane(t)
    ensures Pays(t, Step(t, op, hash).0, CREDIT * Entered(t, op, hash))
  {
    hide Pays, Inv, View, Put, PutNew, RelookupOrAdd, Lookup, Refused, MustFail, Entered;
    EnteredIs(t, op, hash);
    match op {
      case OpFindOrAdd(key, value, alloc) =>
        SearchAddPays(t, key, value, alloc, hash);
        RelookupOrAddCorrect(t, key, value, alloc, hash);
      case OpPut(key, value, alloc) =>
        SearchAddPays(t, key, value, alloc, hash);
        PutCorrect(t, key, value, alloc, hash);
      case OpPutNew(key, value, alloc) =>
        var it := Item(Stem(hash, key), key, value);
        PutNewPays(t, it, alloc, hash);
        PutNewCorrect(t, it, alloc, hash);
    }
  }

  /** Any call but an enumeration resizes at most once, and twelve credits for a key entered pay for the walk. */
  lemma CallPays<K, V>(t: Table<K, V>, op: Op<K, V>, hash: K -> HashNumber)
    requires Inv(t, hash) && Legal(View(t), op) && !op.OpSweep?
    ensures Sane(t)
    ensures Pays(t, Step(t, op, hash).0, CREDIT * Entered(t, op, hash))
  {
    hide Potential, Powers.Pow2, Inv, View, Put, PutNew, RelookupOrAdd, RemovePtr, RekeyAndMaybeRehash, Lookup,
         LookupForAdd, Clear, Fails, Entered;
    EnteredIs(t, op, hash);
    match op {
      case OpLookup(_) =>
      case OpLookupForAdd(key) => LookupForAddCounters(t, key, hash);
      case OpRemove(key, alloc) =>
        var i := Lookup(t, key, hash);
        if t.slots[i].IsLive() && t.entryCount > 0 {
          RemovePays(t, i, alloc);
        }
      case OpRekeyAs(key, newKey, alloc) =>
        InvLookup(t, key, hash);
        if key in View(t) {
          RekeyPays(t, Lookup(t, key, hash), newKey, alloc, hash);
        }
      case OpClear => ClearPays(t);
      case _ => InsertionPays(t, op, hash);
    }
  }

  /** The slots a call walks while resizing are covered by twelve credits per key entered and the potential stored. */
  lemma StepPays<K, V>(t: Table<K, V>, op: Op<K, V>, hash: K -> HashNumber)
    requires Inv(t, hash) && Legal(View(t), op)
    ensures Sane(t)
    ensures Stored(Step(t, op, hash).0) + StepWalked(t, op, hash) <= Stored(t) + CREDIT * Entered(t, op, hash)
    ensures !op.OpSweep? ==> t.gen <= Step(t, op, hash).0.gen <= t.gen + 1 && Entered(t, op, hash) <= 1
  {
    hide Stored, Inv, View, Swept, Sensible, SweptWalked, Moved, Walked, Fails, Entered;
    EnteredIs(t, op, hash);
    if op.OpSweep? {
      SweepPays(t, op.plan, op.alloc1, op.alloc2, hash);
    } else {
      CallPays(t, op, hash);
    }
  }

  /** The slots walked by every resize of a run. */
  ghost function RunWalked<K, V>(t: Table<K, V>, ops: seq<Op<K, V>>, hash: K -> HashNumber): nat
    requires LegalRun(t, ops, hash)
    decreases |ops|
  {
    if ops == [] then 0
    else StepWalked(t, ops[0], hash) + RunWalked(Step(t, ops[0], hash).0, ops[1..], hash)
  }

  /** The keys that the calls of a run bring into the map. */
  ghost function RunEntered<K, V>(t: Table<K, V>, ops: seq<Op<K, V>>, hash: K -> HashNumber): nat
    requires LegalRun(t, ops, hash)
    decreases |ops|
  {
    if ops == [] then 0
    else Entered(t, ops[0], hash) + RunEntered(Step(t, ops[0], hash).0, ops[1..], hash)
  }

  lemma {:induction false} RunPays<K, V>(t: Table<K, V>, ops: seq<Op<K, V>>, hash: K -> HashNumber)
    requires Inv(t, hash) && LegalRun(t, ops, hash)
    ensures RunWalked(t, ops, hash) <= CREDIT * RunEntered(t, ops, hash) + Stored(t)
    ensures (forall op :: op in ops ==> !op.OpSweep?) ==> RunEntered(t, ops, hash) <= |ops|
    decreases |ops|
  {
    hide Inv, View, Step, Legal, Expected, MapStep, MustFail, StepWalked, Entered, Stored;
    if ops != [] {
      assert ops[0] in ops;
      StepRefines(t, ops[0], hash);
      StepPays(t, ops[0], hash);
      RunPays(Step(t, ops[0], hash).0, ops[1..], hash);
    }
  }

  /**
   * Resizing is amortised constant: after `init`, any run walks at most twelve slots for each key
   * brought into the map and twice the initial capacity, whatever the allocator answers. Searching,
   * removing, clearing, dropping entries and failing are free; an ordinary call brings at most one key.
   */
  lemma ResizingIsAmortised<K, V>(t: Table<K, V>, ops: seq<Op<K, V>>, hash: K -> HashNumber)
    requires Inv(t, hash) && LegalRun(t, ops, hash)
    requires t.entryCount == 0 && t.removedCount == 0
    ensures RunWalked(t, ops, hash) <= 12 * RunEntered(t, ops, hash) + 2 * Capacity(t)
    ensures (forall op :: op in ops ==> !op.OpSweep?) ==> RunEntered(t, ops, hash) <= |ops|
  {
    RunPays(t, ops, hash);
  }
}
