/** The operations of HashMap, each a composition of table operations. */
module MapOperations {
  import opened Slots
  import opened Bags
  import opened TableState
  import opened Operations

  /** `put`: overwrite the value of a present key, else add. */
  ghost function Put<K, V>(t: Table<K, V>, key: K, value: V, alloc: bool, hash: K -> HashNumber): Added<K, V>
    requires Sane(t)
  {
    var (t', p) := LookupForAdd(t, key, hash);
    var x := t'.slots[p.entry];
    if x.IsLive() && x.mem.Some? then Added(SetValue(t', p.entry, value), p, true)
    else Add(t', p, key, value, alloc)
  }

  /** `remove(l)`: remove if present. */
  ghost function RemoveKey<K, V>(t: Table<K, V>, key: K, alloc: bool, hash: K -> HashNumber): Table<K, V>
    requires Sane(t)
  {
    var i := Lookup(t, key, hash);
    if t.slots[i].IsLive() && t.entryCount > 0 then RemovePtr(t, i, alloc) else t
  }

  /** `rekeyAs(old, new, new)`: the entry of a key that is in the map gets another key. */
  ghost function RekeyAs<K, V>(t: Table<K, V>, oldKey: K, newKey: K, alloc: bool, hash: K -> HashNumber)
    : Table<K, V>
    requires Sane(t)
  {
    var i := Lookup(t, oldKey, hash);
    if t.slots[i].IsLive() && t.slots[i].mem.Some? && t.entryCount > 0 then
      RekeyAndMaybeRehash(t, i, newKey, alloc, hash)
    else t
  }

  lemma InvLookup<K, V>(t: Table<K, V>, key: K, hash: K -> HashNumber)
    requires Inv(t, hash)
    ensures Sane(t)
    ensures t.slots[Lookup(t, key, hash)].IsLive() <==> key in View(t)
    ensures key in View(t) ==> Holds(t, Lookup(t, key, hash), Item(Stem(hash, key), key, View(t)[key]))
  {
    hide Counted, View, Lookup;
    CountedSized(t, hash);
    QuarterFree(t, hash);
    LookupCorrect(t, key, hash);
  }

  lemma PutCorrect<K, V>(t: Table<K, V>, key: K, value: V, alloc: bool, hash: K -> HashNumber)
    requires Inv(t, hash)
    ensures Sane(t)
    ensures var r := Put(t, key, value, alloc, hash);
      && Inv(r.table, hash)
      && (!r.ok <==> Refused(t, key, alloc, hash))
      && View(r.table) == if r.ok then View(t)[key := value] else View(t)
  {
    hide Counted, Add, SetValue, AddReady, Bag, MustFail, View, LookupForAdd;
    CountedSized(t, hash);
    QuarterFree(t, hash);
    LookupForAddCorrect(t, key, hash);
    LookupForAddCounters(t, key, hash);
    MarkKeepsTombs(t, key, hash);
    LookupIs(t, key, hash);
    var (t', p) := LookupForAdd(t, key, hash);
    MustFailSame(t, t', alloc);
    if key in View(t) {
      SetValueCorrect(t', p.entry, value, hash);
    } else {
      AddCorrect(t', p, key, value, alloc, hash);
    }
  }

  lemma RemoveKeyCorrect<K, V>(t: Table<K, V>, key: K, alloc: bool, hash: K -> HashNumber)
    requires Inv(t, hash)
    ensures Inv(RemoveKey(t, key, alloc, hash), hash)
    ensures View(RemoveKey(t, key, alloc, hash)) == View(t) - {key}
    ensures if key in View(t) then Removes(t, RemoveKey(t, key, alloc, hash), alloc)
            else RemoveKey(t, key, alloc, hash) == t
  {
    hide Counted, RemovePtr, Bag, Lookup, Removes;
    CountedSized(t, hash);
    QuarterFree(t, hash);
    LookupCorrect(t, key, hash);
    if key in View(t) {
      RemovePtrCorrect(t, Lookup(t, key, hash), alloc, hash);
    } else {
      assert View(t) - {key} == View(t);
    }
  }

  lemma RekeyAsCorrect<K, V>(t: Table<K, V>, oldKey: K, newKey: K, alloc: bool, hash: K -> HashNumber)
    requires Inv(t, hash)
    requires oldKey in View(t) && newKey in View(t) ==> newKey == oldKey
    ensures Inv(RekeyAs(t, oldKey, newKey, alloc, hash), hash)
    ensures View(RekeyAs(t, oldKey, newKey, alloc, hash))
         == if oldKey in View(t) then (View(t) - {oldKey})[newKey := View(t)[oldKey]] else View(t)
  {
    hide Counted, RekeyAndMaybeRehash, Bag, Lookup;
    CountedSized(t, hash);
    QuarterFree(t, hash);
    LookupCorrect(t, oldKey, hash);
    if oldKey in View(t) {
      RekeyAndMaybeRehashCorrect(t, Lookup(t, oldKey, hash), newKey, alloc, hash);
    }
  }
}
