/** What each table operation computes: storage, capacity, counters and generation. */
module TableState {
  import opened Powers
  import opened Slots
  import opened Probing
  import opened Bags
  import opened Layout
  import opened Rebuild

  const MIN_CAPACITY := 4
  const MAX_INIT := 0x80_0000
  const MAX_CAPACITY := 0x100_0000

  /** The storage with `capacity == 2^log2`, the two counters and the storage generation. */
  datatype Table<+K, +V> =
    Table(slots: seq<Slot<K, V>>, log2: Log2, entryCount: nat, removedCount: nat, gen: nat)

  /** A pointer remembered by `lookupForAdd`: a slot and the hash word that led to it. */
  datatype AddPtr = AddPtr(entry: nat, keyHash: HashNumber)

  datatype RebuildStatus = NotOverloaded | Rehashed | RehashFailed

  datatype Rebuilt<+K, +V> = Rebuilt(table: Table<K, V>, status: RebuildStatus)

  datatype Added<+K, +V> = Added(table: Table<K, V>, ptr: AddPtr, ok: bool)

  function Capacity<K, V>(t: Table<K, V>): nat {
    Pow2(t.log2)
  }

  /** The maximal alpha is 3/4. */
  predicate Overloaded<K, V>(t: Table<K, V>) {
    t.entryCount + t.removedCount >= Capacity(t) * 3 / 4
  }

  /** The minimal alpha is 1/4. */
  predicate WouldBeUnderloaded(capacity: nat, entryCount: nat) {
    capacity > MIN_CAPACITY && entryCount <= capacity * 1 / 4
  }

  /** The counters are the true numbers of live and removed slots. */
  ghost predicate Counted<K, V>(t: Table<K, V>, hash: K -> HashNumber) {
    && WellLaid(t.slots, t.log2, hash)
    && t.entryCount == |Bag(t.slots)|
    && t.removedCount == Tombs(t.slots)
  }

  /** Live and removed slots together fill at most three quarters of the table. */
  ghost predicate WithinLoad<K, V>(t: Table<K, V>) {
    4 * (t.entryCount + t.removedCount) <= 3 * Capacity(t)
  }

  /** The invariant between operations. */
  ghost predicate Inv<K, V>(t: Table<K, V>, hash: K -> HashNumber) {
    Counted(t, hash) && WithinLoad(t)
  }

  ghost function View<K, V>(t: Table<K, V>): map<K, V> {
    ContentsOf(t.slots)
  }

  ghost function Stem<K>(hash: K -> HashNumber, key: K): (h: HashNumber)
    ensures IsStem(h)
  {
    PrepareHash(hash(key))
  }

  /** Slot `i` holds the live entry `it`. */
  ghost predicate Holds<K, V>(t: Table<K, V>, i: nat, it: Item<K, V>) {
    i < |t.slots| && t.slots[i].IsLive() && t.slots[i].WellFormed() && t.slots[i].Get() == it
  }

  ghost predicate HasFree<K, V>(t: Table<K, V>) {
    exists f :: 0 <= f < |t.slots| && t.slots[f].IsFree()
  }

  ghost predicate Sane<K, V>(t: Table<K, V>) {
    Sized(t.slots, t.log2)
  }

  // ---------------------------------------------------------------- resizing

  ghost function ChangeTableSize<K, V>(t: Table<K, V>, deltaLog2: int, alloc: bool): Rebuilt<K, V>
    requires 2 <= t.log2 + deltaLog2
  {
    var newLog2 := t.log2 + deltaLog2;
    if newLog2 > 24 || !alloc then Rebuilt(t, RehashFailed)
    else Rebuilt(Table(Copied(t.slots, newLog2), newLog2, t.entryCount, 0, t.gen + 1), Rehashed)
  }

  /** Slots walked by a resize from `t` to `t'`: the whole old table when there is a new storage generation. */
  function Walked<K, V>(t: Table<K, V>, t': Table<K, V>): nat {
    if t'.gen == t.gen then 0 else Capacity(t)
  }

  /** Keep the capacity when tombstones take up at least a quarter of the slots, else double it. */
  function OverloadDelta<K, V>(t: Table<K, V>): int {
    if t.removedCount >= Capacity(t) / 4 then 0 else 1
  }

  ghost function CheckOverloaded<K, V>(t: Table<K, V>, alloc: bool): Rebuilt<K, V> {
    if !Overloaded(t) then Rebuilt(t, NotOverloaded) else ChangeTableSize(t, OverloadDelta(t), alloc)
  }

  ghost function RehashTableInPlace<K, V>(t: Table<K, V>): Table<K, V>
    requires Sane(t)
  {
    t.(slots := RehashedInPlace(t.slots, t.log2), removedCount := 0)
  }

  ghost function CheckOverRemoved<K, V>(t: Table<K, V>, alloc: bool): Table<K, V>
    requires Sane(t)
  {
    if !Overloaded(t) then t
    else
      var r := CheckOverloaded(t, alloc);
      if r.status == RehashFailed then RehashTableInPlace(t) else r.table
  }

  predicate Underloaded<K, V>(t: Table<K, V>) {
    WouldBeUnderloaded(Capacity(t), t.entryCount)
  }

  lemma UnderloadedCanShrink(k: Log2, entryCount: nat)
    requires WouldBeUnderloaded(Pow2(k), entryCount)
    ensures k > 2
  {
    Pow2Values();
  }

  ghost function CheckUnderloaded<K, V>(t: Table<K, V>, alloc: bool): Table<K, V> {
    if Underloaded(t) then
      UnderloadedCanShrink(t.log2, t.entryCount);
      ChangeTableSize(t, -1, alloc).table
    else t
  }

  /** Halve the capacity for as long as it would be underloaded. */
  ghost function BestLog2(k: Log2, entryCount: nat): (b: Log2)
    ensures b <= k
  {
    if WouldBeUnderloaded(Pow2(k), entryCount) then
      UnderloadedCanShrink(k, entryCount);
      BestLog2(k - 1, entryCount)
    else k
  }

  ghost function CompactIfUnderloaded<K, V>(t: Table<K, V>, alloc: bool): Table<K, V> {
    var b := BestLog2(t.log2, t.entryCount);
    if b != t.log2 then ChangeTableSize(t, b - t.log2, alloc).table else t
  }

  // ---------------------------------------------------------------- removing

  /** `remove(Entry&)` */
  ghost function RemoveEntry<K, V>(t: Table<K, V>, i: nat): Table<K, V>
    requires i < |t.slots| && t.entryCount > 0
  {
    t.(slots := RemoveAt(t.slots, i),
       entryCount := t.entryCount - 1,
       removedCount := t.removedCount + if t.slots[i].HasCollision() then 1 else 0)
  }

  /** `remove(Ptr)` */
  ghost function RemovePtr<K, V>(t: Table<K, V>, i: nat, alloc: bool): Table<K, V>
    requires i < |t.slots| && t.entryCount > 0
  {
    CheckUnderloaded(RemoveEntry(t, i), alloc)
  }

  // ---------------------------------------------------------------- adding

  /** The slot `lookup` returns for a key. */
  ghost function Lookup<K, V>(t: Table<K, V>, key: K, hash: K -> HashNumber): (i: nat)
    requires Sane(t)
    ensures i < |t.slots|
  {
    Target(t.slots, t.log2, Stem(hash, key), key)
  }

  /** The marks `lookupForAdd` leaves on its way. */
  ghost function MarkFor<K, V>(t: Table<K, V>, key: K, hash: K -> HashNumber): Table<K, V>
    requires Sane(t)
  {
    var h := Stem(hash, key);
    t.(slots := MarkTo(t.slots, t.log2, h, Stop(t.slots, t.log2, h, key, 0)))
  }

  ghost function LookupForAdd<K, V>(t: Table<K, V>, key: K, hash: K -> HashNumber): (Table<K, V>, AddPtr)
    requires Sane(t)
  {
    (MarkFor(t, key, hash), AddPtr(Lookup(t, key, hash), Stem(hash, key)))
  }

  /** `setLive` at slot `i`, recycling its tombstone if it has one. */
  ghost function FillEntry<K, V>(t: Table<K, V>, i: nat, it: Item<K, V>): Table<K, V>
    requires i < |t.slots|
  {
    t.(slots := t.slots[i := Fill(t.slots[i], it)],
       entryCount := t.entryCount + 1,
       removedCount := if t.slots[i].IsRemoved() && t.removedCount > 0 then t.removedCount - 1 else t.removedCount)
  }

  /** `putNewInfallible` */
  ghost function PutNewInfallible<K, V>(t: Table<K, V>, it: Item<K, V>): Table<K, V>
    requires Sane(t)
  {
    var i := FreeEntry(t.slots, t.log2, it.stem);
    var m := MarkTo(t.slots, t.log2, it.stem, Seek(t.slots, t.log2, it.stem, 0));
    FillEntry(t.(slots := m), i, it)
  }

  ghost function PutNew<K, V>(t: Table<K, V>, it: Item<K, V>, alloc: bool): Rebuilt<K, V>
    requires Sane(t)
  {
    var r := CheckOverloaded(t, alloc);
    if r.status == RehashFailed then r
    else Rebuilt(PutNewInfallible(r.table, it), r.status)
  }

  /** `add(AddPtr&, u)` after a missed `lookupForAdd`. */
  ghost function Add<K, V>(t: Table<K, V>, p: AddPtr, key: K, value: V, alloc: bool): Added<K, V>
    requires Sane(t) && p.entry < |t.slots|
  {
    var it := Item(p.keyHash, key, value);
    if t.slots[p.entry].IsRemoved() then
      Added(FillEntry(t, p.entry, it), p.(keyHash := WithBit(p.keyHash)), true)
    else
      var r := CheckOverloaded(t, alloc);
      match r.status
      case RehashFailed => Added(t, p, false)
      case NotOverloaded => Added(FillEntry(t, p.entry, it), p, true)
      case Rehashed =>
        Added(PutNewInfallible(r.table, it), p.(entry := FreeEntry(r.table.slots, r.table.log2, p.keyHash)), true)
  }

  /** `relookupOrAdd`: search again with the remembered hash, and add on a miss. */
  ghost function RelookupOrAdd<K, V>(t: Table<K, V>, key: K, value: V, alloc: bool, hash: K -> HashNumber): Added<K, V>
    requires Sane(t)
  {
    var (t', p) := LookupForAdd(t, key, hash);
    if t'.slots[p.entry].IsLive() then Added(t', p, true) else Add(t', p, key, value, alloc)
  }

  // ---------------------------------------------------------------- rekeying and clearing

  ghost function RekeyWithoutRehash<K, V>(t: Table<K, V>, i: nat, key: K, hash: K -> HashNumber): Table<K, V>
    requires Sane(t) && i < |t.slots| && t.entryCount > 0 && t.slots[i].mem.Some?
  {
    PutNewInfallible(RemoveEntry(t, i), Item(Stem(hash, key), key, t.slots[i].mem.value.1))
  }

  ghost function RekeyAndMaybeRehash<K, V>(t: Table<K, V>, i: nat, key: K, alloc: bool, hash: K -> HashNumber)
    : Table<K, V>
    requires Sane(t) && i < |t.slots| && t.entryCount > 0 && t.slots[i].mem.Some?
  {
    CheckOverRemoved(RekeyWithoutRehash(t, i, key, hash), alloc)
  }

  ghost function Clear<K, V>(t: Table<K, V>): Table<K, V> {
    t.(slots := Empty(t.log2), entryCount := 0, removedCount := 0)
  }

  /** Assignment through a found pointer: `p->value() = v`. */
  ghost function SetValue<K, V>(t: Table<K, V>, i: nat, value: V): Table<K, V>
    requires i < |t.slots| && t.slots[i].mem.Some?
  {
    var x := t.slots[i];
    t.(slots := t.slots[i := x.(mem := Some((x.mem.value.0, value)))])
  }
}
