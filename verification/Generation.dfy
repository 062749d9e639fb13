/** An unchanged `generation()` means that no entry has moved, so pointers to entries may be kept. */
module Generation {
  import opened Slots
  import opened Bags
  import opened Layout
  import opened Rebuild
  import opened TableState
  import opened Operations
  import opened MapOperations
  import opened Staying
  import opened Plans
  import opened Enumeration
  import opened Rekeying
  import opened Runs

  /** The keys that leave the map with a call, and the key that it rekeys. */
  ghost function Gone<K, V>(t: Table<K, V>, op: Op<K, V>, hash: K -> HashNumber): set<K>
    requires Sane(t)
  {
    (View(t).Keys - View(Step(t, op, hash).0).Keys) + if op.OpRekeyAs? then {op.key} else {}
  }

  /** The keys whose values differ. */
  ghost function Changed<K, V>(m: map<K, V>, m': map<K, V>): set<K> {
    set k | k in m && k in m' && m[k] != m'[k]
  }

  /** The keys that a call names to take them out of the map. */
  ghost function TakenOut<K, V>(m: map<K, V>, op: Op<K, V>): set<K> {
    match op
    case OpRemove(key, _) => {key}
    case OpRekeyAs(key, _, _) => {key}
    case OpClear => m.Keys
    case OpSweep(plan, _, _) => Dropped(m, plan)
    case _ => {}
  }

  /** If the call rekeys, then without moving other entries in an unchanged generation. */
  ghost predicate QuietCall<K, V>(t: Table<K, V>, op: Op<K, V>, hash: K -> HashNumber)
    requires Sane(t)
  {
    op.OpRekeyAs? ==> QuietRekey(t, op.key, op.newKey, op.alloc, hash)
  }

  ghost predicate QuietRun<K, V>(t: Table<K, V>, ops: seq<Op<K, V>>, hash: K -> HashNumber)
    requires LegalRun(t, ops, hash)
    decreases |ops|
  {
    ops != [] ==> QuietCall(t, ops[0], hash) && QuietRun(Step(t, ops[0], hash).0, ops[1..], hash)
  }

  /** The key that a call names to overwrite its value. */
  ghost function Overwritten<K, V>(op: Op<K, V>): set<K> {
    if op.OpPut? then {op.key} else {}
  }

  // ---------------------------------------------------------------- enumerations without rekeying

  lemma VisitStays<K, V>(m: map<K, V>, e: EnumState<K, V>, i: nat, plan: Plan<K, V>, hash: K -> HashNumber)
    requires Sensible(m, plan) && PassInv(m, e, i, plan, hash) && i < |e.table.slots|
    ensures Sane(e.table)
    ensures !Visit(e, i, plan, hash).rekeyed ==> Stays(e.table, Visit(e, i, plan, hash).table, Dropped(m, plan), {})
  {
    hide Sensible, Midway, View, KeysFrom, RemoveEntry, RekeyWithoutRehash, Bag, WellLaid, Stays;
    var t, x := e.table, e.table.slots[i];
    CountedSized(t, hash);
    StaysGone(t, Dropped(m, plan));
    if x.IsLive() {
      LiveKey(t, i, hash);
      if Drops(plan, x) {
        var key := x.mem.value.0;
        DropMidway(m, View(t), KeysFrom(t, i), KeysFrom(t, i), plan, key);
        RemoveEntryStays(t, i);
        StaysMoreGone(t, RemoveEntry(t, i), {key}, Dropped(m, plan));
      }
    }
  }

  lemma StaysMoreGone<K, V>(t: Table<K, V>, t': Table<K, V>, gone: set<K>, gone': set<K>)
    requires Stays(t, t', gone, {}) && gone <= gone'
    ensures Stays(t, t', gone', {})
  {
    hide DropBit;
  }

  /** A pass that has rekeyed nothing leaves every entry it does not drop in its slot. */
  lemma {:induction false} PassStays<K, V>(m: map<K, V>, e: EnumState<K, V>, i: nat, plan: Plan<K, V>,
                                           hash: K -> HashNumber)
    requires Sensible(m, plan) && PassInv(m, e, i, plan, hash)
    ensures Sane(e.table)
    ensures var e' := Pass(e, i, plan, hash);
      !e'.rekeyed ==> Stays(e.table, e'.table, Dropped(m, plan), {})
    decreases |e.table.slots| - i
  {
    hide Sensible, Midway, View, KeysFrom, Visit, Counted, Stays, Dropped;
    CountedSized(e.table, hash);
    var gone, none: set<K> := Dropped(m, plan), {};
    if i == |e.table.slots| {
      StaysGone(e.table, gone);
    } else {
      VisitShape(e, i, plan, hash);
      VisitKeeps(m, e, i, plan, hash);
      VisitStays(m, e, i, plan, hash);
      var e1 := Visit(e, i, plan, hash);
      PassGen(e1, i + 1, plan, hash);
      PassStays(m, e1, i + 1, plan, hash);
      var e' := Pass(e1, i + 1, plan, hash);
      if !e'.rekeyed {
        StaysTogether(e.table, e1.table, e'.table, gone, none, gone, none);
        assert gone + gone == gone && none + none == none;
      }
    }
  }

  /** An enumeration that ends in the generation it began with has only dropped entries. */
  lemma SweepStays<K, V>(t: Table<K, V>, plan: Plan<K, V>, alloc1: bool, alloc2: bool, hash: K -> HashNumber)
    requires Inv(t, hash) && Sensible(View(t), plan)
    ensures Sane(t)
    ensures var t' := Swept(t, plan, alloc1, alloc2, hash);
      t'.gen >= t.gen && (t'.gen == t.gen ==> Stays(t, t', Dropped(View(t), plan), {}))
  {
    hide Sensible, Midway, View, Counted, Stays, Dropped, Pass, RehashTableInPlace, Copied, Overloaded, BestLog2;
    InvSized(t, hash);
    var e := EnumState(t, false, false);
    PassStart(t, plan, hash);
    PassGen(e, 0, plan, hash);
    PassStays(View(t), e, 0, plan, hash);
    var e' := Pass(e, 0, plan, hash);
    CheckOverRemovedGrows(e'.table.(gen := e'.table.gen + 1), alloc1);
    CompactGrows(e'.table, alloc2);
    CompactGrows(CheckOverRemoved(e'.table.(gen := e'.table.gen + 1), alloc1), alloc2);
  }

  lemma CheckOverRemovedGrows<K, V>(t: Table<K, V>, alloc: bool)
    requires Sane(t)
    ensures CheckOverRemoved(t, alloc).gen >= t.gen
  {
    hide Overloaded, OverloadDelta, Copied, RehashedInPlace;
  }

  lemma CompactGrows<K, V>(t: Table<K, V>, alloc: bool)
    ensures CompactIfUnderloaded(t, alloc).gen >= t.gen
    ensures CompactIfUnderloaded(t, alloc).gen == t.gen ==> CompactIfUnderloaded(t, alloc) == t
  {
    hide BestLog2, Copied;
  }

  // ---------------------------------------------------------------- calls and runs

  lemma ClearStays<K, V>(t: Table<K, V>, hash: K -> HashNumber)
    requires Counted(t, hash)
    ensures Stays(t, Clear(t), View(t).Keys, {})
  {
    hide Bag, View;
    forall i | 0 <= i < |t.slots| && t.slots[i].IsLive()
      ensures t.slots[i].mem.Some? && t.slots[i].mem.value.0 in View(t)
    {
      LiveKey(t, i, hash);
    }
  }

  lemma NamedStays<K, V>(t: Table<K, V>, op: Op<K, V>, hash: K -> HashNumber)
    requires Inv(t, hash) && Legal(View(t), op)
    ensures Sane(t)
    ensures Step(t, op, hash).0.gen >= t.gen
    ensures Step(t, op, hash).0.gen == t.gen ==>
              (Stays(t, Step(t, op, hash).0, TakenOut(View(t), op), Overwritten(op)) <==> QuietCall(t, op, hash))
  {
    hide Inv, View, Put, PutNew, RelookupOrAdd, RemoveKey, LookupForAdd, Stays, Swept, Sensible,
         Dropped, RekeyAs, Clear, QuietRekey;
    InvSized(t, hash);
    StaysSelf(t);
    match op {
      case OpLookup(_) =>
      case OpLookupForAdd(key) =>
        LookupForAddCounters(t, key, hash);
        InvFree(t, hash);
        LookupForAddStays(t, key, hash);
      case OpFindOrAdd(key, value, alloc) => SearchAddStays(t, key, value, alloc, hash);
      case OpPut(key, value, alloc) => PutStays(t, key, value, alloc, hash);
      case OpPutNew(key, value, alloc) => PutNewStays(t, Item(Stem(hash, key), key, value), alloc, hash);
      case OpRemove(key, alloc) => RemoveKeyStays(t, key, alloc, hash);
      case OpRekeyAs(key, newKey, alloc) => RekeyAsKeepsOthers(t, key, newKey, alloc, hash);
      case OpClear =>
        InvFree(t, hash);
        ClearStays(t, hash);
        ClearGen(t);
      case OpSweep(plan, alloc1, alloc2) => SweepStays(t, plan, alloc1, alloc2, hash);
    }
  }

  lemma ClearGen<K, V>(t: Table<K, V>)
    ensures Clear(t).gen == t.gen
  {
  }

  lemma InvFree<K, V>(t: Table<K, V>, hash: K -> HashNumber)
    requires Inv(t, hash)
    ensures Counted(t, hash) && HasFree(t)
  {
    QuarterFree(t, hash);
  }

  /** Only keys of the map, and only values that differ, need to be exempted. */
  lemma StaysSharply<K, V>(t: Table<K, V>, t': Table<K, V>, gone: set<K>, put: set<K>, gone': set<K>,
                           hash: K -> HashNumber)
    requires Counted(t, hash) && Counted(t', hash) && Stays(t, t', gone, put)
    requires gone * View(t).Keys <= gone'
    ensures Stays(t, t', gone', Changed(View(t), View(t')))
  {
    hide Bag, View, DropBit;
    forall i | 0 <= i < |t.slots| && t.slots[i].IsLive() && t.slots[i].mem.Some?
      ensures t.slots[i].mem.value.0 in gone' || StillHolds(t.slots[i], t'.slots[i], Changed(View(t), View(t')))
    {
      LiveKey(t, i, hash);
      if t.slots[i].mem.value.0 !in gone' {
        assert StillHolds(t.slots[i], t'.slots[i], put);
        LiveKey(t', i, hash);
      }
    }
  }

  lemma InvCounted<K, V>(t: Table<K, V>, hash: K -> HashNumber)
    requires Inv(t, hash)
    ensures Counted(t, hash)
  {
  }

  /** The keys a call names to take out, as far as they are in the map, leave it or are rekeyed. */
  lemma TakenOutIsGone<K, V>(t: Table<K, V>, op: Op<K, V>, hash: K -> HashNumber)
    requires Inv(t, hash) && Legal(View(t), op)
    ensures Sane(t)
    ensures Step(t, op, hash).0.gen == t.gen ==> TakenOut(View(t), op) * View(t).Keys <= Gone(t, op, hash)
    ensures op.OpRekeyAs? ==> Gone(t, op, hash) == {op.key} && Changed(View(t), View(Step(t, op, hash).0)) == {}
  {
    hide Inv, View, Step, Sensible, Fails;
    StepRefines(t, op, hash);
    if op.OpSweep? {
      SweepGone(t, op.plan, op.alloc1, op.alloc2, hash);
    }
  }

  lemma SweepGone<K, V>(t: Table<K, V>, plan: Plan<K, V>, alloc1: bool, alloc2: bool, hash: K -> HashNumber)
    requires Inv(t, hash) && Sensible(View(t), plan)
    ensures Sane(t)
    ensures Step(t, OpSweep(plan, alloc1, alloc2), hash).0.gen == t.gen ==>
              Dropped(View(t), plan) !! Image(View(t), plan).Keys
  {
    hide Inv, View, Swept, Sensible, Image, IsImage;
    EnumerationCorrect(t, plan, alloc1, alloc2, hash);
    if Moved(View(t), plan) == {} {
      UnmovedImage(View(t), plan);
    }
  }

  lemma UnmovedImage<K, V>(m: map<K, V>, plan: Plan<K, V>)
    requires Moved(m, plan) == {}
    ensures Dropped(m, plan) !! Image(m, plan).Keys
  {
    forall k | k in m && k in Image(m, plan) ensures k !in Dropped(m, plan) {
      var l := Origin(m, plan, k);
      assert l !in Moved(m, plan);
    }
  }

  /** A call that leaves the generation alone moves no entry, unless it is a rekey that is not quiet. */
  lemma StepStays<K, V>(t: Table<K, V>, op: Op<K, V>, hash: K -> HashNumber)
    requires Inv(t, hash) && Legal(View(t), op)
    ensures Sane(t)
    ensures var t' := Step(t, op, hash).0;
      && t'.gen >= t.gen
      && (t'.gen == t.gen ==>
            (Stays(t, t', Gone(t, op, hash), Changed(View(t), View(t'))) <==> QuietCall(t, op, hash)))
  {
    hide Inv, View, Step, Stays, TakenOut, Gone, Changed, QuietRekey, Expected, MapStep, Legal;
    NamedStays(t, op, hash);
    StepRefines(t, op, hash);
    TakenOutIsGone(t, op, hash);
    var t' := Step(t, op, hash).0;
    if t'.gen == t.gen {
      if op.OpRekeyAs? {
        RekeyNames(t, op);
      } else {
        InvCounted(t, hash);
        InvCounted(t', hash);
        StaysSharply(t, t', TakenOut(View(t), op), Overwritten(op), Gone(t, op, hash), hash);
      }
    }
  }

  lemma RekeyNames<K, V>(t: Table<K, V>, op: Op<K, V>)
    requires op.OpRekeyAs?
    ensures TakenOut(View(t), op) == {op.key} && Overwritten(op) == {}
  {
  }

  /** The keys that leave the map, or are rekeyed, with some call of the run. */
  ghost function AllGone<K, V>(t: Table<K, V>, ops: seq<Op<K, V>>, hash: K -> HashNumber): set<K>
    requires LegalRun(t, ops, hash)
    decreases |ops|
  {
    if ops == [] then {} else Gone(t, ops[0], hash) + AllGone(Step(t, ops[0], hash).0, ops[1..], hash)
  }

  /** The keys whose values some call of the run changes. */
  ghost function AllChanged<K, V>(t: Table<K, V>, ops: seq<Op<K, V>>, hash: K -> HashNumber): set<K>
    requires LegalRun(t, ops, hash)
    decreases |ops|
  {
    if ops == [] then {}
    else
      var t1 := Step(t, ops[0], hash).0;
      Changed(View(t), View(t1)) + AllChanged(t1, ops[1..], hash)
  }

  /**
   * Over any run that ends in the generation it began with, every entry whose key never leaves the
   * map is still in its slot, provided that every rekey of the run is quiet; a run without rekeys is.
   */
  lemma {:induction false} SameGenerationSameSlots<K, V>(t: Table<K, V>, ops: seq<Op<K, V>>, hash: K -> HashNumber)
    requires Inv(t, hash) && LegalRun(t, ops, hash)
    ensures Run(t, ops, hash).0.gen >= t.gen
    ensures Run(t, ops, hash).0.gen == t.gen && QuietRun(t, ops, hash) ==>
              Stays(t, Run(t, ops, hash).0, AllGone(t, ops, hash), AllChanged(t, ops, hash))
    ensures (forall op :: op in ops ==> !op.OpRekeyAs?) ==> QuietRun(t, ops, hash)
    ensures |ops| == 1 ==> (QuietRun(t, ops, hash) <==> QuietCall(t, ops[0], hash))
    decreases |ops|
  {
    hide Inv, View, Step, Legal, Expected, MapStep, MustFail, Stays, Gone, Changed, QuietRekey;
    if ops == [] {
      StaysSelf(t);
    } else {
      assert ops[0] in ops;
      StepRefines(t, ops[0], hash);
      StepStays(t, ops[0], hash);
      var t1 := Step(t, ops[0], hash).0;
      SameGenerationSameSlots(t1, ops[1..], hash);
      var t' := Run(t1, ops[1..], hash).0;
      if t'.gen == t.gen && QuietRun(t, ops, hash) {
        StaysTogether(t, t1, t', Gone(t, ops[0], hash), Changed(View(t), View(t1)), AllGone(t1, ops[1..], hash),
                      AllChanged(t1, ops[1..], hash));
      }
    }
  }
}
