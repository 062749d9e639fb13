/** Histories performed on a real map: what the loops leave, answer and cost over any run of calls. */
module Performing {
  import opened Slots
  import opened TableState
  import opened Operations
  import opened MapOperations
  import opened Staying
  import opened Rekeying
  import opened Plans
  import opened Enumeration
  import opened Runs
  import opened Amortised
  import opened Initial
  import opened AddProtocol
  import opened Histories
  import opened HashMaps
  import opened Enums

  /** What a pointer into the table shows: the value of a live entry. */
  method Answered<K(==), V>(m: HashMap<K, V>, i: nat, missing: Answer<V>) returns (answer: Answer<V>)
    requires m.Ready() && i < m.impl.table.Length
    ensures answer == EntryAnswer(m.impl.State(), i, missing)
  {
    hide Powers.Pow2, Counted;
    if m.impl.table[i].IsLive() {
      LiveCounted(m.impl.State(), i, m.impl.hash);
      return Found(m.impl.table[i].mem.value.1);
    }
    answer := missing;
  }

  method Search<K(==), V>(m: HashMap<K, V>, key: K) returns (answer: Answer<V>)
    requires m.Ready()
    modifies m.impl.table
    ensures m.Ready() && (m.impl.State(), answer) == Step(old(m.impl.State()), OpLookup(key), m.impl.hash)
  {
    hide Powers.Pow2, Inv, View, TableState.Lookup, EntryAnswer;
    var i := m.impl.Lookup(key);
    answer := Answered(m, i, Missing);
  }

  method SearchForAdd<K(==), V>(m: HashMap<K, V>, key: K) returns (answer: Answer<V>)
    requires m.Ready()
    modifies m.impl.table
    ensures m.Ready() && (m.impl.State(), answer) == Step(old(m.impl.State()), OpLookupForAdd(key), m.impl.hash)
  {
    hide Powers.Pow2, Inv, View, TableState.LookupForAdd, AddReady, EntryAnswer;
    var p := m.impl.LookupForAdd(key);
    answer := Answered(m, p.entry, Missing);
  }

  /** `lookupForAdd`, and `add` on a miss. */
  method FindOrAdd<K(==), V>(m: HashMap<K, V>, key: K, value: V, alloc: bool) returns (answer: Answer<V>)
    requires m.Ready()
    modifies m.impl, m.impl.table
    ensures m.Ready() && (m.impl.table == old(m.impl.table) || fresh(m.impl.table))
    ensures (m.impl.State(), answer) == Step(old(m.impl.State()), OpFindOrAdd(key, value, alloc), m.impl.hash)
    ensures m.impl.walked == old(m.impl.walked) + Walked(old(m.impl.State()), m.impl.State())
  {
    hide Powers.Pow2, Inv, View, TableState.LookupForAdd, TableState.Lookup, TableState.Add, AddReady;
    ghost var t := m.impl.State();
    InvLookup(t, key, m.impl.hash);
    var p := m.impl.LookupForAdd(key);
    LookupForAddCounters(t, key, m.impl.hash);
    if m.impl.table[p.entry].IsLive() {
      return Found(m.impl.table[p.entry].mem.value.1);
    }
    var ok;
    ok, p := m.impl.Add(p, key, value, alloc);
    answer := if ok then Done else Failed;
  }

  method Insert<K(==), V>(m: HashMap<K, V>, key: K, value: V, alloc: bool) returns (answer: Answer<V>)
    requires m.Ready() && key !in m.Contents()
    modifies m.impl, m.impl.table
    ensures m.Ready() && (m.impl.table == old(m.impl.table) || fresh(m.impl.table))
    ensures (m.impl.State(), answer) == Step(old(m.impl.State()), OpPutNew(key, value, alloc), m.impl.hash)
    ensures m.impl.walked == old(m.impl.walked) + Walked(old(m.impl.State()), m.impl.State())
  {
    hide Powers.Pow2, Inv, View, TableState.PutNew, MustFail;
    PutNewCorrect(m.impl.State(), Item(Stem(m.impl.hash, key), key, value), alloc, m.impl.hash);
    var ok := m.impl.PutNew(key, value, alloc);
    answer := if ok then Done else Failed;
  }

  method Overwrite<K(==), V>(m: HashMap<K, V>, key: K, value: V, alloc: bool) returns (answer: Answer<V>)
    requires m.Ready()
    modifies m.impl, m.impl.table
    ensures m.Ready() && (m.impl.table == old(m.impl.table) || fresh(m.impl.table))
    ensures (m.impl.State(), answer) == Step(old(m.impl.State()), OpPut(key, value, alloc), m.impl.hash)
    ensures m.impl.walked == old(m.impl.walked) + Walked(old(m.impl.State()), m.impl.State())
  {
    hide Powers.Pow2, Inv, View, MapOperations.Put, Refused;
    PutCorrect(m.impl.State(), key, value, alloc, m.impl.hash);
    var ok := m.Put(key, value, alloc);
    answer := if ok then Done else Failed;
  }

  /** One call on a map: state and answer are those of the step, and the copying loops walk what it says. */
  method Perform<K(==), V>(m: HashMap<K, V>, op: Op<K, V>) returns (answer: Answer<V>)
    requires m.Ready() && Legal(m.Contents(), op)
    modifies m.impl, m.impl.table
    ensures m.Ready() && (m.impl.table == old(m.impl.table) || fresh(m.impl.table))
    ensures (m.impl.State(), answer) == Step(old(m.impl.State()), op, m.impl.hash)
    ensures m.impl.walked == old(m.impl.walked) + StepWalked(old(m.impl.State()), op, m.impl.hash)
  {
    hide Powers.Pow2, Inv, View, MapOperations.RekeyAs, MapOperations.RemoveKey, MapOperations.Put, TableState.PutNew,
         TableState.RelookupOrAdd, TableState.LookupForAdd, TableState.Lookup, EntryAnswer, Swept, SweptWalked,
         Sensible, Stays, Removes, QuietRekey, Image, IsImage, Refused;
    match op {
      case OpLookup(key) =>
        answer := Search(m, key);
      case OpLookupForAdd(key) =>
        LookupForAddCounters(m.impl.State(), key, m.impl.hash);
        answer := SearchForAdd(m, key);
      case OpFindOrAdd(key, value, alloc) =>
        answer := FindOrAdd(m, key, value, alloc);
      case OpPut(key, value, alloc) =>
        answer := Overwrite(m, key, value, alloc);
      case OpPutNew(key, value, alloc) =>
        answer := Insert(m, key, value, alloc);
      case OpRemove(key, alloc) =>
        m.Remove(key, alloc);
        answer := Done;
      case OpRekeyAs(key, newKey, alloc) =>
        m.RekeyAs(key, newKey, alloc);
        answer := Done;
      case OpClear =>
        m.impl.Clear();
        answer := Done;
      case OpSweep(plan, alloc1, alloc2) =>
        Sweep(m.impl, plan, alloc1, alloc2);
        answer := Done;
    }
  }

  /** A run of calls on a map. */
  method PerformAll<K(==), V>(m: HashMap<K, V>, ops: seq<Op<K, V>>) returns (answers: seq<Answer<V>>)
    requires m.Ready() && LegalRun(m.impl.State(), ops, m.impl.hash)
    modifies m.impl, m.impl.table
    ensures m.Ready() && (m.impl.State(), answers) == Run(old(m.impl.State()), ops, m.impl.hash)
    ensures m.impl.walked == old(m.impl.walked) + RunWalked(old(m.impl.State()), ops, m.impl.hash)
    decreases |ops|
  {
    hide Powers.Pow2, Inv, View, Step, StepWalked, Legal;
    if ops == [] {
      return [];
    }
    var answer := Perform(m, ops[0]);
    var rest := PerformAll(m, ops[1..]);
    answers := [answer] + rest;
  }

  /**
   * A whole history of a real map, from construction and `init` on: it answers as an initially empty
   * map would, and its copying loops walk at most twelve slots for each key brought into the map and
   * twice the initial capacity.
   */
  method PerformHistory<K(==), V>(hash: K -> HashNumber, length: nat, ops: seq<Op<K, V>>)
    returns (m: HashMap<K, V>, answers: seq<Answer<V>>)
    requires length <= MAX_INIT && LegalRun(Init<K, V>(length, 0, true).value, ops, hash)
    ensures m.Ready() && MapRun(map[], ops, answers, m.Contents())
    ensures var t := Init<K, V>(length, 0, true).value;
      m.impl.walked <= 12 * RunEntered(t, ops, hash) + 2 * Capacity(t)
  {
    hide Powers.Pow2, Inv, View, LegalRun, Run, MapRun, RunWalked, RunEntered, Init;
    m := new HashMap(hash);
    var _ := m.impl.Initialize(length, true);
    HistoryRefines(length, 0, ops, hash);
    HistoryIsAmortised(length, 0, ops, hash);
    answers := PerformAll(m, ops);
  }

  /**
   * A missed `lookupForAdd`, searches of both kinds, and then `add`: the key is in the map and the
   * pointer denotes it, or the map is as before, exactly when an insertion was refused from the start.
   */
  method AddAfter<K(==), V>(m: HashMap<K, V>, key: K, value: V, searches: seq<Search<K>>, alloc: bool)
    returns (ok: bool, p: AddPtr)
    requires m.Ready() && key !in m.Contents()
    modifies m.impl, m.impl.table
    ensures m.Ready() && m.Contents() == if ok then old(m.Contents())[key := value] else old(m.Contents())
    ensures ok ==> Holds(m.impl.State(), p.entry, Item(Stem(m.impl.hash, key), key, value))
    ensures !ok <==> Refused(old(m.impl.State()), key, alloc, m.impl.hash)
  {
    hide Powers.Pow2, Inv, View, TableState.LookupForAdd, TableState.Lookup, TableState.Add, AddReady, AfterSearches,
         Refused, MustFail;
    ghost var t, hash := m.impl.State(), m.impl.hash;
    AddAfterSearches(t, key, value, searches, alloc, hash);
    p := m.impl.LookupForAdd(key);
    ghost var t1, q := m.impl.State(), p;
    SearchesKeepReady(t1, p, key, searches, hash);
    var i := 0;
    while i < |searches|
      invariant i <= |searches| && m.Ready() && m.impl.table == old(m.impl.table)
      invariant AfterSearches(m.impl.State(), searches[i..], hash) == AfterSearches(t1, searches, hash)
    {
      NextSearch(m.impl.State(), searches[i..], hash);
      assert searches[i..][1..] == searches[i + 1..];
      if searches[i].Plain? {
        var _ := m.impl.Lookup(searches[i].key);
      } else {
        var _ := m.impl.LookupForAdd(searches[i].key);
      }
      i := i + 1;
    }
    assert searches[i..] == [];
    NoSearch(m.impl.State(), hash);
    ok, p := m.impl.Add(p, key, value, alloc);
  }

  lemma NextSearch<K, V>(t: Table<K, V>, searches: seq<Search<K>>, hash: K -> HashNumber)
    requires Sane(t) && searches != []
    ensures Sane(LookupForAdd(t, searches[0].key, hash).0)
    ensures AfterSearches(t, searches, hash)
         == AfterSearches(if searches[0].Plain? then t else LookupForAdd(t, searches[0].key, hash).0,
                          searches[1..], hash)
  {
    LookupForAddCounters(t, searches[0].key, hash);
  }

  lemma NoSearch<K, V>(t: Table<K, V>, hash: K -> HashNumber)
    requires Sane(t)
    ensures AfterSearches(t, [], hash) == t
  {
  }
}
