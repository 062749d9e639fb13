/** HashMap: the table's operations as its clients see them. */
module HashMaps {
  import opened Powers
  import opened Slots
  import opened Bags
  import opened Layout
  import opened TableState
  import opened Operations
  import opened MapOperations
  import opened Staying
  import opened Rekeying
  import opened HashTables

  class HashMap<K(==), V> {
    const impl: HashTable<K, V>

    constructor (hash: K -> HashNumber)
      ensures fresh(impl) && impl.hash == hash && impl.Unused() && impl.gen == 0 && impl.walked == 0
    {
      impl := new HashTable(hash);
    }

    ghost predicate Ready()
      reads this, impl, impl.table
    {
      impl.Ready()
    }

    ghost function Contents(): map<K, V>
      requires Ready()
      reads this, impl, impl.table
    {
      impl.Contents()
    }

    method Has(key: K) returns (found: bool)
      requires Ready()
      modifies impl.table
      ensures Ready() && Contents() == old(Contents()) && (found <==> key in Contents())
    {
      hide Powers.Pow2, Inv, View;
      var p := impl.Lookup(key);
      found := impl.table[p].IsLive();
    }

    /** Overwrite an existing value, else add; false when out of memory. */
    method Put(key: K, value: V, alloc: bool) returns (ok: bool)
      requires Ready()
      modifies impl, impl.table
      ensures Ready()
      ensures impl.State() == MapOperations.Put(old(impl.State()), key, value, alloc, impl.hash).table
      ensures Contents() == if ok then old(Contents())[key := value] else old(Contents())
      ensures !ok <==> Refused(old(impl.State()), key, alloc, impl.hash)
      ensures impl.table == old(impl.table) || fresh(impl.table)
      ensures impl.gen >= old(impl.gen) && (impl.gen == old(impl.gen) ==> impl.table == old(impl.table))
      ensures impl.walked == old(impl.walked) + Walked(old(impl.State()), impl.State())
      ensures impl.gen == old(impl.gen) ==> Stays(old(impl.State()), impl.State(), {}, {key})
    {
      hide Powers.Pow2, Inv, View, AddReady, TableState.Add, TableState.LookupForAdd, TableState.SetValue, MustFail,
           Stays;
      PutCorrect(impl.State(), key, value, alloc, impl.hash);
      PutStays(impl.State(), key, value, alloc, impl.hash);
      var p := impl.LookupForAdd(key);
      if impl.table[p.entry].IsLive() {
        impl.SetValue(p.entry, value);
        return true;
      }
      ok, p := impl.Add(p, key, value, alloc);
    }

    /** Add the default if the key is absent; the pointer is left not live when out of memory. */
    method LookupWithDefault(key: K, value: V, alloc: bool) returns (p: AddPtr)
      requires Ready()
      modifies impl, impl.table
      ensures Ready() && p.entry < impl.table.Length
      ensures impl.table[p.entry].IsLive() <==> key in Contents()
      ensures key in Contents() ==>
                Holds(impl.State(), p.entry, Item(Stem(impl.hash, key), key, Contents()[key]))
      ensures Contents() == if old(key in Contents()) || key !in Contents() then old(Contents())
                            else old(Contents())[key := value]
      ensures key !in Contents() <==> Refused(old(impl.State()), key, alloc, impl.hash)
      ensures impl.table == old(impl.table) || fresh(impl.table)
      ensures impl.gen >= old(impl.gen) && (impl.gen == old(impl.gen) ==> impl.table == old(impl.table))
      ensures impl.walked == old(impl.walked) + Walked(old(impl.State()), impl.State())
      ensures impl.State() == RelookupOrAdd(old(impl.State()), key, value, alloc, impl.hash).table
      ensures impl.gen == old(impl.gen) ==> Stays(old(impl.State()), impl.State(), {}, {})
    {
      hide Powers.Pow2, Inv, View, AddReady, TableState.Add, TableState.LookupForAdd, MustFail, Stays;
      SearchAddStays(impl.State(), key, value, alloc, impl.hash);
      RelookupOrAddCorrect(impl.State(), key, value, alloc, impl.hash);
      p := impl.LookupForAdd(key);
      if impl.table[p.entry].IsLive() {
        return;
      }
      assert !impl.table[p.entry].IsLive();
      ghost var q := p;
      ghost var before := impl.State();
      var ok;
      ok, p := impl.Add(p, key, value, alloc);
      if !ok {
        FailedAdd(before, q, key, value, alloc);
      }
    }

    /** Take the key and its value out of the map, if they are in it. */
    method Remove(key: K, alloc: bool)
      requires Ready()
      modifies impl, impl.table
      ensures Ready() && Contents() == old(Contents()) - {key}
      ensures impl.State() == RemoveKey(old(impl.State()), key, alloc, impl.hash)
      ensures if old(key in Contents()) then Removes(old(impl.State()), impl.State(), alloc)
              else impl.State() == old(impl.State())
      ensures impl.table == old(impl.table) || fresh(impl.table)
      ensures impl.gen >= old(impl.gen) && (impl.gen == old(impl.gen) ==> impl.table == old(impl.table))
      ensures impl.walked == old(impl.walked) + Walked(old(impl.State()), impl.State())
      ensures impl.gen == old(impl.gen) ==> Stays(old(impl.State()), impl.State(), {key}, {})
    {
      hide Powers.Pow2, Inv, View, TableState.RemovePtr, TableState.Lookup, Stays, Removes;
      RemoveKeyCorrect(impl.State(), key, alloc, impl.hash);
      RemoveKeyStays(impl.State(), key, alloc, impl.hash);
      ghost var t := impl.State();
      var p := impl.Lookup(key);
      if impl.table[p].IsLive() {
        LiveCounted(t, p, impl.hash);
        impl.Remove(p, alloc);
      }
    }

    /** Move the value of a key that is in the map to another key; never fails. */
    method RekeyAs(oldKey: K, newKey: K, alloc: bool)
      requires Ready() && (oldKey in Contents() && newKey in Contents() ==> newKey == oldKey)
      modifies impl, impl.table
      ensures Ready()
      ensures impl.State() == MapOperations.RekeyAs(old(impl.State()), oldKey, newKey, alloc, impl.hash)
      ensures Contents() == if old(oldKey in Contents())
                            then (old(Contents()) - {oldKey})[newKey := old(Contents())[oldKey]]
                            else old(Contents())
      ensures impl.table == old(impl.table) || fresh(impl.table)
      ensures impl.gen >= old(impl.gen) && (impl.gen == old(impl.gen) ==> impl.table == old(impl.table))
      ensures impl.walked == old(impl.walked) + Walked(old(impl.State()), impl.State())
      ensures impl.gen == old(impl.gen) ==>
                (Stays(old(impl.State()), impl.State(), {oldKey}, {})
                 <==> old(QuietRekey(impl.State(), oldKey, newKey, alloc, impl.hash)))
    {
      hide Powers.Pow2, Inv, View, TableState.RekeyAndMaybeRehash, TableState.Lookup, Stays, QuietRekey;
      RekeyAsCorrect(impl.State(), oldKey, newKey, alloc, impl.hash);
      RekeyAsKeepsOthers(impl.State(), oldKey, newKey, alloc, impl.hash);
      ghost var t := impl.State();
      var p := impl.Lookup(oldKey);
      if impl.table[p].IsLive() {
        LiveCounted(t, p, impl.hash);
        impl.RekeyAndMaybeRehash(p, newKey, alloc);
      }
    }

    method RekeyIfMoved(oldKey: K, newKey: K, alloc: bool)
      requires Ready() && (oldKey in Contents() && newKey in Contents() ==> newKey == oldKey)
      modifies impl, impl.table
      ensures Ready()
      ensures Contents() == if old(oldKey in Contents())
                            then (old(Contents()) - {oldKey})[newKey := old(Contents())[oldKey]]
                            else old(Contents())
      ensures impl.table == old(impl.table) || fresh(impl.table)
      ensures impl.gen >= old(impl.gen) && (impl.gen == old(impl.gen) ==> impl.table == old(impl.table))
      ensures impl.walked == old(impl.walked) + Walked(old(impl.State()), impl.State())
      ensures oldKey == newKey ==> impl.State() == old(impl.State())
      ensures oldKey != newKey && impl.gen == old(impl.gen) ==>
                (Stays(old(impl.State()), impl.State(), {oldKey}, {})
                 <==> old(QuietRekey(impl.State(), oldKey, newKey, alloc, impl.hash)))
    {
      hide Powers.Pow2, Inv, View, MapOperations.RekeyAs, Stays, QuietRekey;
      if oldKey != newKey {
        RekeyAs(oldKey, newKey, alloc);
      } else {
        assert oldKey in Contents() ==> (Contents() - {oldKey})[newKey := Contents()[oldKey]] == Contents();
      }
    }
  }

  lemma FailedAdd<K, V>(t: Table<K, V>, p: AddPtr, key: K, value: V, alloc: bool)
    requires Sane(t) && p.entry < |t.slots| && !TableState.Add(t, p, key, value, alloc).ok
    ensures TableState.Add(t, p, key, value, alloc) == Added(t, p, false)
  {
  }

  lemma LiveCounted<K, V>(t: Table<K, V>, i: nat, hash: K -> HashNumber)
    requires Inv(t, hash) && i < |t.slots| && t.slots[i].IsLive()
    ensures t.slots[i].WellFormed() && t.entryCount > 0
  {
    hide PathMarked, Bag;
    RemoveEntryCounted(t, i, hash);
  }
}
