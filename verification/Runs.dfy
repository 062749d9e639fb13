/** Whole runs of map operations: refinement of a mathematical map, with allocations failing arbitrarily. */
module Runs {
  import opened Slots
  import opened Bags
  import opened TableState
  import opened Operations
  import opened MapOperations
  import opened Plans
  import opened Enumeration

  /**
   * One call; `alloc` says whether the allocator would satisfy a request made during it.
   * `OpFindOrAdd` is `lookupForAdd` with an `add` on a miss, and so also `lookupWithDefault` and
   * `relookupOrAdd`; `OpSweep` is a mutating enumeration that carries out a plan.
   */
  datatype Op<!K, !V> =
    | OpLookup(key: K)
    | OpLookupForAdd(key: K)
    | OpFindOrAdd(key: K, value: V, alloc: bool)
    | OpPut(key: K, value: V, alloc: bool)
    | OpPutNew(key: K, value: V, alloc: bool)
    | OpRemove(key: K, alloc: bool)
    | OpRekeyAs(key: K, newKey: K, alloc: bool)
    | OpClear
    | OpSweep(plan: Plan<K, V>, alloc1: bool, alloc2: bool)

  datatype Answer<V> = Found(value: V) | Missing | Done | Failed

  ghost function EntryAnswer<K, V>(t: Table<K, V>, i: nat, missing: Answer<V>): Answer<V>
    requires i < |t.slots|
  {
    if t.slots[i].IsLive() && t.slots[i].mem.Some? then Found(t.slots[i].mem.value.1) else missing
  }

  /** What one call does to the table, and what it answers. */
  ghost function Step<K, V>(t: Table<K, V>, op: Op<K, V>, hash: K -> HashNumber): (Table<K, V>, Answer<V>)
    requires Sane(t)
  {
    match op
    case OpLookup(key) => (t, EntryAnswer(t, Lookup(t, key, hash), Missing))
    case OpLookupForAdd(key) =>
      var (t', p) := LookupForAdd(t, key, hash);
      (t', EntryAnswer(t', p.entry, Missing))
    case OpFindOrAdd(key, value, alloc) =>
      var r := RelookupOrAdd(t, key, value, alloc, hash);
      (r.table, EntryAnswer(t, Lookup(t, key, hash), if r.ok then Done else Failed))
    case OpPut(key, value, alloc) =>
      var r := Put(t, key, value, alloc, hash);
      (r.table, if r.ok then Done else Failed)
    case OpPutNew(key, value, alloc) =>
      var r := PutNew(t, Item(Stem(hash, key), key, value), alloc);
      (r.table, if r.status == RehashFailed then Failed else Done)
    case OpRemove(key, alloc) => (RemoveKey(t, key, alloc, hash), Done)
    case OpRekeyAs(key, newKey, alloc) => (RekeyAs(t, key, newKey, alloc, hash), Done)
    case OpClear => (Clear(t), Done)
    case OpSweep(plan, alloc1, alloc2) => (Swept(t, plan, alloc1, alloc2, hash), Done)
  }

  /** What callers owe: `putNew` an absent key, rekey to a key that is not another entry's, sweep by a sensible plan. */
  ghost predicate Legal<K, V>(m: map<K, V>, op: Op<K, V>) {
    match op
    case OpPutNew(key, _, _) => key !in m
    case OpRekeyAs(key, newKey, _) => key in m && newKey in m ==> newKey == key
    case OpSweep(plan, _, _) => Sensible(m, plan)
    case _ => true
  }

  /** The same call on a mathematical map; the answer only says whether it was carried out. */
  ghost function MapStep<K, V>(m: map<K, V>, op: Op<K, V>, answer: Answer<V>): map<K, V> {
    match op
    case OpLookup(_) => m
    case OpLookupForAdd(_) => m
    case OpFindOrAdd(key, value, _) => if key in m || answer.Failed? then m else m[key := value]
    case OpPut(key, value, _) => if answer.Failed? then m else m[key := value]
    case OpPutNew(key, value, _) => if answer.Failed? then m else m[key := value]
    case OpRemove(key, _) => m - {key}
    case OpRekeyAs(key, newKey, _) => if key in m then (m - {key})[newKey := m[key]] else m
    case OpClear => map[]
    case OpSweep(plan, _, _) => Image(m, plan)
  }

  /** The answers a map would give; only an insertion of an absent key may fail. */
  ghost predicate Expected<K, V>(m: map<K, V>, op: Op<K, V>, answer: Answer<V>) {
    match op
    case OpLookup(key) => answer == if key in m then Found(m[key]) else Missing
    case OpLookupForAdd(key) => answer == if key in m then Found(m[key]) else Missing
    case OpFindOrAdd(key, _, _) => if key in m then answer == Found(m[key]) else answer in {Done, Failed}
    case OpPut(key, _, _) => if key in m then answer == Done else answer in {Done, Failed}
    case OpPutNew(_, _, _) => answer in {Done, Failed}
    case _ => answer == Done
  }

  /** The call cannot be carried out: it would have to make room for a new key, and none can be made. */
  ghost predicate Fails<K, V>(t: Table<K, V>, op: Op<K, V>, hash: K -> HashNumber)
    requires Sane(t)
  {
    match op
    case OpFindOrAdd(key, _, alloc) => Refused(t, key, alloc, hash)
    case OpPut(key, _, alloc) => Refused(t, key, alloc, hash)
    case OpPutNew(_, _, alloc) => MustFail(t, alloc)
    case _ => false
  }

  lemma StepAdds<K, V>(t: Table<K, V>, op: Op<K, V>, hash: K -> HashNumber)
    requires Inv(t, hash) && Legal(View(t), op)
    requires op.OpFindOrAdd? || op.OpPut? || op.OpPutNew?
    ensures Sane(t)
    ensures var (t', answer) := Step(t, op, hash);
      && Inv(t', hash)
      && Expected(View(t), op, answer)
      && View(t') == MapStep(View(t), op, answer)
      && (answer.Failed? <==> Fails(t, op, hash))
  {
    hide Inv, View, Put, PutNew, RelookupOrAdd, Lookup, MustFail;
    InvSized(t, hash);
    match op {
      case OpFindOrAdd(key, value, alloc) =>
        RelookupOrAddCorrect(t, key, value, alloc, hash);
        InvLookup(t, key, hash);
      case OpPut(key, value, alloc) =>
        PutCorrect(t, key, value, alloc, hash);
      case OpPutNew(key, value, alloc) =>
        PutNewCorrect(t, Item(Stem(hash, key), key, value), alloc, hash);
    }
  }

  lemma StepLookups<K, V>(t: Table<K, V>, op: Op<K, V>, hash: K -> HashNumber)
    requires Inv(t, hash) && (op.OpLookup? || op.OpLookupForAdd?)
    ensures Sane(t)
    ensures var (t', answer) := Step(t, op, hash);
      && Inv(t', hash) && Expected(View(t), op, answer) && View(t') == View(t)
  {
    hide Counted, Lookup, LookupForAdd, AddReady, Bag;
    CountedSized(t, hash);
    InvLookup(t, op.key, hash);
    if op.OpLookupForAdd? {
      QuarterFree(t, hash);
      LookupForAddCorrect(t, op.key, hash);
      LookupForAddCounters(t, op.key, hash);
    }
  }

  /** One call keeps the invariant, answers as a map would, and changes the map as its name says. */
  lemma StepRefines<K, V>(t: Table<K, V>, op: Op<K, V>, hash: K -> HashNumber)
    requires Inv(t, hash) && Legal(View(t), op)
    ensures Sane(t)
    ensures var (t', answer) := Step(t, op, hash);
      && Inv(t', hash)
      && Expected(View(t), op, answer)
      && View(t') == MapStep(View(t), op, answer)
      && (answer.Failed? <==> Fails(t, op, hash))
  {
    hide Inv, View, Put, PutNew, RelookupOrAdd, Lookup, LookupForAdd, RemoveKey, RekeyAs, Clear, MustFail,
         Swept, Sensible, Image, Refused;
    InvSized(t, hash);
    match op {
      case OpLookup(_) => StepLookups(t, op, hash);
      case OpLookupForAdd(_) => StepLookups(t, op, hash);
      case OpRemove(key, alloc) => RemoveKeyCorrect(t, key, alloc, hash);
      case OpRekeyAs(key, newKey, alloc) => RekeyAsCorrect(t, key, newKey, alloc, hash);
      case OpClear => ClearCorrect(t, hash);
      case OpSweep(plan, alloc1, alloc2) => EnumerationCorrect(t, plan, alloc1, alloc2, hash);
      case _ => StepAdds(t, op, hash);
    }
  }

  /** Every call of the run is legal for the map at that point. */
  ghost predicate LegalRun<K, V>(t: Table<K, V>, ops: seq<Op<K, V>>, hash: K -> HashNumber)
    decreases |ops|
  {
    ops == [] || (Sane(t) && Legal(View(t), ops[0]) && LegalRun(Step(t, ops[0], hash).0, ops[1..], hash))
  }

  ghost function Run<K, V>(t: Table<K, V>, ops: seq<Op<K, V>>, hash: K -> HashNumber): (Table<K, V>, seq<Answer<V>>)
    requires LegalRun(t, ops, hash)
    decreases |ops|
  {
    if ops == [] then (t, [])
    else
      var (t1, answer) := Step(t, ops[0], hash);
      var (t', answers) := Run(t1, ops[1..], hash);
      (t', [answer] + answers)
  }

  /** A map going from `m` to `m'` by the same calls can give those answers. */
  ghost predicate MapRun<K, V>(m: map<K, V>, ops: seq<Op<K, V>>, answers: seq<Answer<V>>, m': map<K, V>)
    decreases |ops|
  {
    if ops == [] then answers == [] && m' == m
    else
      && answers != []
      && Legal(m, ops[0])
      && Expected(m, ops[0], answers[0])
      && MapRun(MapStep(m, ops[0], answers[0]), ops[1..], answers[1..], m')
  }

  /** Any legal run on the table is a run on the map that the table stands for. */
  lemma {:induction false} RunRefines<K, V>(t: Table<K, V>, ops: seq<Op<K, V>>, hash: K -> HashNumber)
    requires Inv(t, hash) && LegalRun(t, ops, hash)
    ensures var (t', answers) := Run(t, ops, hash);
      Inv(t', hash) && MapRun(View(t), ops, answers, View(t'))
    decreases |ops|
  {
    hide Inv, View, Step, Legal, Expected, MapStep, MustFail;
    if ops != [] {
      StepRefines(t, ops[0], hash);
      var (t1, answer) := Step(t, ops[0], hash);
      RunRefines(t1, ops[1..], hash);
      var (t', answers) := Run(t1, ops[1..], hash);
      assert ([answer] + answers)[1..] == answers;
    }
  }
}
