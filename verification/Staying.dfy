/** Entries keeping their slots: what each operation leaves where it was. */
module Staying {
  import opened Slots
  import opened Probing
  import opened Bags
  import opened Layout
  import opened Rebuild
  import opened TableState
  import opened Operations
  import opened MapOperations

  /** Slot `y` still holds the entry of `x`; the value too, unless the key is in `put`. */
  ghost predicate StillHolds<K, V>(x: Slot<K, V>, y: Slot<K, V>, put: set<K>)
    requires x.mem.Some?
  {
    && y.IsLive() && y.mem.Some?
    && y.KeyHash() == x.KeyHash() && y.mem.value.0 == x.mem.value.0
    && (x.mem.value.0 !in put ==> y.mem.value.1 == x.mem.value.1)
  }

  /** Every entry whose key is not in `gone` is still in its slot. */
  ghost predicate Stays<K, V>(t: Table<K, V>, t': Table<K, V>, gone: set<K>, put: set<K>) {
    && |t'.slots| == |t.slots|
    && forall i :: 0 <= i < |t.slots| && t.slots[i].IsLive() && t.slots[i].mem.Some? ==>
         t.slots[i].mem.value.0 in gone || StillHolds(t.slots[i], t'.slots[i], put)
  }

  lemma StaysTogether<K, V>(t: Table<K, V>, t1: Table<K, V>, t2: Table<K, V>,
                            gone1: set<K>, put1: set<K>, gone2: set<K>, put2: set<K>)
    requires Stays(t, t1, gone1, put1) && Stays(t1, t2, gone2, put2)
    ensures Stays(t, t2, gone1 + gone2, put1 + put2)
  {
    hide DropBit;
    forall i | 0 <= i < |t.slots| && t.slots[i].IsLive() && t.slots[i].mem.Some?
      ensures t.slots[i].mem.value.0 in gone1 + gone2 || StillHolds(t.slots[i], t2.slots[i], put1 + put2)
    {
      if t.slots[i].mem.value.0 !in gone1 {
        assert StillHolds(t.slots[i], t1.slots[i], put1);
      }
    }
  }

  lemma StaysThen<K, V>(t: Table<K, V>, t1: Table<K, V>, t2: Table<K, V>, put: set<K>)
    requires Stays(t, t1, {}, {}) && Stays(t1, t2, {}, put)
    ensures Stays(t, t2, {}, put)
  {
    hide Stays;
    StaysTogether(t, t1, t2, {}, {}, {}, put);
    var none: set<K> := {};
    assert none + none == none && none + put == put;
  }

  lemma LookupForAddStays<K, V>(t: Table<K, V>, key: K, hash: K -> HashNumber)
    requires Counted(t, hash) && HasFree(t)
    ensures Stays(t, LookupForAdd(t, key, hash).0, {}, {})
  {
    hide DropBit, WithBit, Lookup, Counted, HasFree, MarkFor;
    CountedSized(t, hash);
    LookupForAddCounters(t, key, hash);
    MarkForKeeps(t, key, hash);
    var t' := MarkFor(t, key, hash);
    forall i | 0 <= i < |t.slots| && t.slots[i].IsLive() && t.slots[i].mem.Some?
      ensures StillHolds(t.slots[i], t'.slots[i], {})
    {
    }
  }

  lemma FillStays<K, V>(t: Table<K, V>, i: nat, it: Item<K, V>)
    requires i < |t.slots| && !t.slots[i].IsLive()
    ensures Stays(t, FillEntry(t, i, it), {}, {})
  {
    hide DropBit, Fill;
  }

  lemma PutNewInfallibleStays<K, V>(t: Table<K, V>, it: Item<K, V>, hash: K -> HashNumber)
    requires Counted(t, hash) && t.entryCount < |t.slots|
    ensures Stays(t, PutNewInfallible(t, it), {}, {})
  {
    hide DropBit, WithBit, Fill, Bag, Tombs, Seek, FreeEntry, MarkTo, Probe, Rank, PathMarked;
    var h := it.stem;
    FreeEntryReady(t.slots, t.log2, h, hash);
    var m := t.(slots := MarkTo(t.slots, t.log2, h, Seek(t.slots, t.log2, h, 0)));
    MarkStays(t, h, Seek(t.slots, t.log2, h, 0));
    FillStays(m, FreeEntry(t.slots, t.log2, h), it);
    StaysThen(t, m, PutNewInfallible(t, it), {});
  }

  lemma MarkStays<K, V>(t: Table<K, V>, h: HashNumber, d: nat)
    requires Sane(t)
    ensures Stays(t, t.(slots := MarkTo(t.slots, t.log2, h, d)), {}, {})
  {
    hide DropBit, WithBit, Probe, Rank;
  }

  lemma CheckOverloadedGen<K, V>(t: Table<K, V>, alloc: bool)
    ensures CheckOverloaded(t, alloc).table.gen == t.gen + if CheckOverloaded(t, alloc).status == Rehashed then 1 else 0
    ensures CheckOverloaded(t, alloc).status != Rehashed ==> CheckOverloaded(t, alloc).table == t
  {
  }

  lemma AddStays<K, V>(t: Table<K, V>, p: AddPtr, key: K, value: V, alloc: bool, hash: K -> HashNumber)
    requires Inv(t, hash) && AddReady(t, p, key, hash)
    ensures Add(t, p, key, value, alloc).table.gen >= t.gen
    ensures Add(t, p, key, value, alloc).table.gen == t.gen ==> Stays(t, Add(t, p, key, value, alloc).table, {}, {})
  {
    hide CheckOverloaded, FillEntry, PutNewInfallible, Inv, Stays;
    var it := Item(p.keyHash, key, value);
    CheckOverloadedGen(t, alloc);
    FillStays(t, p.entry, it);
    FillEntryLog2(t, p.entry, it);
    StaysSelf(t);
    if CheckOverloaded(t, alloc).status == Rehashed {
      InvAfterCheck(t, alloc, hash);
      FillKeepsLog2(CheckOverloaded(t, alloc).table, it);
    }
  }

  lemma InvAfterCheck<K, V>(t: Table<K, V>, alloc: bool, hash: K -> HashNumber)
    requires Inv(t, hash)
    ensures Inv(CheckOverloaded(t, alloc).table, hash) && Sane(CheckOverloaded(t, alloc).table)
  {
    hide Inv, Overloaded;
    CheckOverloadedCorrect(t, alloc, hash);
    InvSized(CheckOverloaded(t, alloc).table, hash);
  }

  lemma StaysSelf<K, V>(t: Table<K, V>)
    ensures Stays(t, t, {}, {})
  {
  }

  lemma PutNewStays<K, V>(t: Table<K, V>, it: Item<K, V>, alloc: bool, hash: K -> HashNumber)
    requires Inv(t, hash)
    ensures Sane(t)
    ensures PutNew(t, it, alloc).table.gen >= t.gen
    ensures PutNew(t, it, alloc).table.gen == t.gen ==> Stays(t, PutNew(t, it, alloc).table, {}, {})
  {
    hide CheckOverloaded, PutNewInfallible, Stays, Counted;
    CountedSized(t, hash);
    CheckOverloadedGen(t, alloc);
    StaysSelf(t);
    var r := CheckOverloaded(t, alloc);
    InvAfterCheck(t, alloc, hash);
    FillKeepsLog2(r.table, it);
    CheckOverloadedCorrect(t, alloc, hash);
    if r.status == NotOverloaded {
      CapacityFacts(t);
      PutNewInfallibleStays(t, it, hash);
    }
  }

  lemma RemovePtrStays<K, V>(t: Table<K, V>, i: nat, alloc: bool)
    requires i < |t.slots| && t.entryCount > 0 && t.slots[i].IsLive() && t.slots[i].mem.Some?
    ensures RemovePtr(t, i, alloc).gen >= t.gen
    ensures RemovePtr(t, i, alloc).gen == t.gen ==> Stays(t, RemovePtr(t, i, alloc), {t.slots[i].mem.value.0}, {})
  {
    hide DropBit, WouldBeUnderloaded, Copied;
    var t1 := RemoveEntry(t, i);
    assert Stays(t, t1, {t.slots[i].mem.value.0}, {});
    assert CheckUnderloaded(t1, alloc) == t1 || CheckUnderloaded(t1, alloc).gen == t1.gen + 1;
  }

  lemma SearchAddStays<K, V>(t: Table<K, V>, key: K, value: V, alloc: bool, hash: K -> HashNumber)
    requires Inv(t, hash)
    ensures Sane(t)
    ensures var t' := RelookupOrAdd(t, key, value, alloc, hash).table;
      t'.gen >= t.gen && (t'.gen == t.gen ==> Stays(t, t', {}, {}))
  {
    hide Counted, LookupForAdd, Add, Stays, AddReady, Bag;
    CountedSized(t, hash);
    QuarterFree(t, hash);
    LookupForAddCorrect(t, key, hash);
    LookupForAddCounters(t, key, hash);
    LookupForAddStays(t, key, hash);
    var (t', p) := LookupForAdd(t, key, hash);
    if key !in View(t) {
      AddStays(t', p, key, value, alloc, hash);
      var t2 := Add(t', p, key, value, alloc).table;
      if t2.gen == t.gen {
        StaysThen(t, t', t2, {});
      }
    }
  }

  lemma SetValueStays<K, V>(t: Table<K, V>, i: nat, value: V)
    requires i < |t.slots| && t.slots[i].mem.Some?
    ensures Stays(t, SetValue(t, i, value), {}, {t.slots[i].mem.value.0})
  {
    hide DropBit;
  }

  lemma StaysWeaken<K, V>(t: Table<K, V>, t': Table<K, V>, put: set<K>)
    requires Stays(t, t', {}, {})
    ensures Stays(t, t', {}, put)
  {
    hide DropBit;
  }

  lemma PutStays<K, V>(t: Table<K, V>, key: K, value: V, alloc: bool, hash: K -> HashNumber)
    requires Inv(t, hash)
    ensures Sane(t)
    ensures var t' := Put(t, key, value, alloc, hash).table;
      t'.gen >= t.gen && (t'.gen == t.gen ==> Stays(t, t', {}, {key}))
  {
    hide Counted, LookupForAdd, Add, Stays, AddReady, Bag;
    CountedSized(t, hash);
    QuarterFree(t, hash);
    LookupForAddCorrect(t, key, hash);
    LookupForAddCounters(t, key, hash);
    LookupForAddStays(t, key, hash);
    var (t', p) := LookupForAdd(t, key, hash);
    if key in View(t) {
      SetValueStays(t', p.entry, value);
      StaysThen(t, t', SetValue(t', p.entry, value), {key});
    } else {
      AddStays(t', p, key, value, alloc, hash);
      var t2 := Add(t', p, key, value, alloc).table;
      if t2.gen == t.gen {
        StaysThen(t, t', t2, {});
        StaysWeaken(t, t2, {key});
      }
    }
  }

  lemma StaysGone<K, V>(t: Table<K, V>, gone: set<K>)
    ensures Stays(t, t, gone, {})
  {
  }

  lemma RemoveEntryStays<K, V>(t: Table<K, V>, i: nat)
    requires i < |t.slots| && t.entryCount > 0 && t.slots[i].IsLive() && t.slots[i].mem.Some?
    ensures Stays(t, RemoveEntry(t, i), {t.slots[i].mem.value.0}, {})
  {
    hide DropBit;
  }

  /** After a rekey the other entries are where they were. */
  lemma RekeyStays<K, V>(t: Table<K, V>, i: nat, key: K, hash: K -> HashNumber)
    requires Counted(t, hash) && i < |t.slots| && t.slots[i].IsLive()
    ensures Sane(t) && t.slots[i].mem.Some? && t.entryCount > 0
    ensures Stays(t, RekeyWithoutRehash(t, i, key, hash), {t.slots[i].mem.value.0}, {})
  {
    hide RemoveEntry, PutNewInfallible, Stays, Bag, WellLaid;
    RemoveEntryCounted(t, i, hash);
    RemoveEntryShape(t, i);
    RemoveEntryStays(t, i);
    var t1 := RemoveEntry(t, i);
    var it := Item(Stem(hash, key), key, t.slots[i].mem.value.1);
    CountedSized(t, hash);
    CountsFit(t.slots);
    PutNewInfallibleStays(t1, it, hash);
    var gone, none: set<K> := {t.slots[i].mem.value.0}, {};
    StaysTogether(t, t1, PutNewInfallible(t1, it), gone, none, none, none);
    assert gone + none == gone && none + none == none;
  }

  lemma RemoveKeyStays<K, V>(t: Table<K, V>, key: K, alloc: bool, hash: K -> HashNumber)
    requires Inv(t, hash)
    ensures Sane(t)
    ensures var t' := RemoveKey(t, key, alloc, hash);
      t'.gen >= t.gen && (t'.gen == t.gen ==> Stays(t, t', {key}, {}))
  {
    hide Inv, View, RemovePtr, Lookup, Stays;
    InvLookup(t, key, hash);
    if t.slots[Lookup(t, key, hash)].IsLive() && t.entryCount > 0 {
      RemovePtrStays(t, Lookup(t, key, hash), alloc);
    } else {
      StaysGone(t, {key});
    }
  }
}
