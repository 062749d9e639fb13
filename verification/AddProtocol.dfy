/** A missed `lookupForAdd` followed, any number of searches later, by `add`. */
module AddProtocol {
  import opened Slots
  import opened Bags
  import opened Layout
  import opened TableState
  import opened Operations

  /** A search between `lookupForAdd` and `add`. */
  datatype Search<K> = Plain(key: K) | ForAdd(key: K)

  /** Plain lookups change nothing; lookups for add set collision bits. */
  ghost function AfterSearches<K, V>(t: Table<K, V>, searches: seq<Search<K>>, hash: K -> HashNumber): (t': Table<K, V>)
    requires Sane(t)
    ensures Sane(t')
    decreases |searches|
  {
    if searches == [] then t
    else if searches[0].Plain? then AfterSearches(t, searches[1..], hash)
    else AfterSearches(LookupForAdd(t, searches[0].key, hash).0, searches[1..], hash)
  }

  lemma SearchKeeps<K, V>(t: Table<K, V>, p: AddPtr, key: K, other: K, hash: K -> HashNumber)
    requires Inv(t, hash) && AddReady(t, p, key, hash)
    ensures var t' := LookupForAdd(t, other, hash).0;
      Inv(t', hash) && AddReady(t', p, key, hash) && View(t') == View(t)
  {
    hide Counted, LookupForAdd, AddReady, Bag;
    CountedSized(t, hash);
    QuarterFree(t, hash);
    LookupForAddCorrect(t, other, hash);
    LookupForAddCounters(t, other, hash);
    AddReadyStays(t, p, key, other, hash);
  }

  lemma {:induction false} SearchesKeepReady<K, V>(t: Table<K, V>, p: AddPtr, key: K, searches: seq<Search<K>>,
                                                   hash: K -> HashNumber)
    requires Inv(t, hash) && AddReady(t, p, key, hash)
    ensures var t' := AfterSearches(t, searches, hash);
      Inv(t', hash) && AddReady(t', p, key, hash) && View(t') == View(t)
    decreases |searches|
  {
    hide Inv, LookupForAdd, AddReady, View;
    if searches != [] {
      InvSized(t, hash);
      if searches[0].Plain? {
        SearchesKeepReady(t, p, key, searches[1..], hash);
      } else {
        SearchKeeps(t, p, key, searches[0].key, hash);
        SearchesKeepReady(LookupForAdd(t, searches[0].key, hash).0, p, key, searches[1..], hash);
      }
    }
  }

  /** Searches leave the counters, the capacity and the tombstones alone. */
  lemma {:induction false} SearchesKeepCounters<K, V>(t: Table<K, V>, searches: seq<Search<K>>, hash: K -> HashNumber)
    requires Inv(t, hash)
    ensures Sane(t)
    ensures var t' := AfterSearches(t, searches, hash);
      && t'.entryCount == t.entryCount && t'.removedCount == t.removedCount && t'.log2 == t.log2
      && SameTombs(t, t')
    decreases |searches|
  {
    hide Counted, LookupForAdd, View, Slots.IsLiveHash, Bag;
    CountedSized(t, hash);
    if searches != [] {
      if searches[0].Plain? {
        SearchesKeepCounters(t, searches[1..], hash);
      } else {
        QuarterFree(t, hash);
        LookupForAddCorrect(t, searches[0].key, hash);
        LookupForAddCounters(t, searches[0].key, hash);
        MarkKeepsTombs(t, searches[0].key, hash);
        SearchesKeepCounters(LookupForAdd(t, searches[0].key, hash).0, searches[1..], hash);
      }
    }
  }

  lemma TombsThen<K, V>(t: Table<K, V>, t1: Table<K, V>, t2: Table<K, V>)
    requires SameTombs(t, t1) && SameTombs(t1, t2)
    ensures SameTombs(t, t2)
  {
  }

  /**
   * After a missed `lookupForAdd(key)` and any searches, `add` puts the key in the map and its
   * pointer denotes the new entry, rehash or recycled tombstone notwithstanding; or it fails, exactly
   * when it would have without the searches, and the map is as before.
   */
  lemma AddAfterSearches<K, V>(t: Table<K, V>, key: K, value: V, searches: seq<Search<K>>, alloc: bool,
                               hash: K -> HashNumber)
    requires Inv(t, hash) && key !in View(t)
    ensures Sane(t)
    ensures var (t1, p) := LookupForAdd(t, key, hash);
      && Sane(t1)
      && var t2 := AfterSearches(t1, searches, hash);
      && p.entry < |t2.slots|
      && var r := Add(t2, p, key, value, alloc);
      && Inv(r.table, hash)
      && View(r.table) == (if r.ok then View(t)[key := value] else View(t))
      && (r.ok ==> Holds(r.table, r.ptr.entry, Item(Stem(hash, key), key, value)))
      && (!r.ok <==> Refused(t, key, alloc, hash))
  {
    hide Counted, LookupForAdd, Add, Bag, Layout.PathMarked, MustFail;
    CountedSized(t, hash);
    QuarterFree(t, hash);
    LookupForAddCorrect(t, key, hash);
    LookupForAddCounters(t, key, hash);
    var (t1, p) := LookupForAdd(t, key, hash);
    MarkKeepsTombs(t, key, hash);
    LookupIs(t, key, hash);
    SearchesKeepReady(t1, p, key, searches, hash);
    SearchesKeepCounters(t1, searches, hash);
    var t2 := AfterSearches(t1, searches, hash);
    TombsThen(t, t1, t2);
    MustFailSame(t, t2, alloc);
    AddCorrect(t2, p, key, value, alloc, hash);
  }
}
