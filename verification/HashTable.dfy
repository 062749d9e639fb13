/** The open-addressed, double-hashed table: probing, copying and swapping loops over one array of slots. */
module HashTables {
  import opened Powers
  import opened Slots
  import opened Probing
  import opened Bags
  import opened Layout
  import opened Rebuild
  import opened TableState
  import opened Operations
  import opened Initial
  import opened LoopSteps

  /** The allocator's zeroed storage, or null when it has none to give. */
  method CreateTable<K, V>(capacity: nat, alloc: bool) returns (t: array?<Slot<K, V>>)
    ensures t != null <==> alloc
    ensures t != null ==> fresh(t) && t.Length == capacity && forall i :: 0 <= i < capacity ==> t[i] == FreeSlot()
  {
    if alloc {
      t := new Slot<K, V>[capacity](_ => FreeSlot());
    } else {
      t := null;
    }
  }

  predicate Matches<K(==), V>(x: Slot<K, V>, h: HashNumber, key: K)
    requires x.WellFormed() && IsStem(h)
    ensures Matches(x, h, key) == Hits(x, h, key)
  {
    x.MatchHash(h) && x.mem.value.0 == key
  }

  class HashTable<K(==), V> {
    const hash: K -> HashNumber
    var hashShift: nat
    var entryCount: nat
    var gen: nat
    var removedCount: nat
    var table: array?<Slot<K, V>>
    /** The old slots that all resizes have walked so far. */
    ghost var walked: nat

    constructor (hash: K -> HashNumber)
      ensures this.hash == hash && table == null && gen == 0 && walked == 0 && Unused()
    {
      this.hash := hash;
      hashShift := 32;
      entryCount := 0;
      gen := 0;
      removedCount := 0;
      table := null;
      walked := 0;
    }

    /** As constructed or finished: no storage and nothing counted. */
    ghost predicate Unused()
      reads this
    {
      table == null && entryCount == 0 && removedCount == 0
    }

    /** Storage of the size that the hash shift says. */
    ghost predicate Valid()
      reads this
    {
      table != null && 8 <= hashShift <= 30 && table.Length == Pow2(32 - hashShift)
    }

    function SizeLog2(): (k: Log2)
      requires Valid()
      reads this
    {
      32 - hashShift
    }

    ghost function State(): (t: Table<K, V>)
      requires Valid()
      reads this, table
      ensures Sane(t)
    {
      Table(table[..], SizeLog2(), entryCount, removedCount, gen)
    }

    /** The invariant between operations. */
    ghost predicate Ready()
      reads this, table
    {
      Valid() && Inv(State(), hash)
    }

    /** The map this table stands for. */
    ghost function Contents(): map<K, V>
      requires Valid()
      reads this, table
    {
      View(State())
    }

    ghost predicate HasHole()
      requires Valid()
      reads this, table
    {
      exists f :: 0 <= f < table.Length && !table[f].IsLive()
    }

    // -------------------------------------------------------------- init

    /** The capacity for `length` entries, rounded up to a power of two. */
    static method InitialCapacity(length: nat) returns (roundUp: nat, roundUpLog2: Log2)
      requires length <= MAX_INIT
      ensures roundUpLog2 == RoundUpLog2(2, WantedCapacity(length)) && roundUp == Pow2(roundUpLog2)
    {
      hide Pow2;
      var newCapacity := (length * 4 + 3 - 1) / 3;
      if newCapacity < MIN_CAPACITY {
        newCapacity := MIN_CAPACITY;
      }
      WantedFits(length);
      Pow2Values();
      roundUp, roundUpLog2 := MIN_CAPACITY, 2;
      while roundUp < newCapacity
        invariant roundUp == Pow2(roundUpLog2)
        invariant RoundUpLog2(roundUpLog2, newCapacity) == RoundUpLog2(2, newCapacity)
        decreases 24 - roundUpLog2
      {
        Doubling(roundUpLog2);
        roundUp := roundUp * 2;
        roundUpLog2 := roundUpLog2 + 1;
      }
    }

    method Initialize(length: nat, alloc: bool) returns (ok: bool)
      requires Unused()
      modifies this
      ensures gen == old(gen) && walked == old(walked)
      ensures ok <==> length <= 0x80_0000 && alloc
      ensures !ok ==> Unused()
      ensures ok ==> Ready() && fresh(table) && Init(length, gen, alloc) == Option.Some(State()) && Contents() == map[]
    {
      hide Pow2, Inv, View, RoundUpLog2, WantedCapacity;
      if length > MAX_INIT {
        return false;
      }
      InitSmallest<K, V>(length, gen, hash);
      var newCapacity, roundUpLog2 := InitialCapacity(length);
      var t: array?<Slot<K, V>> := CreateTable(newCapacity, alloc);
      if t == null {
        return false;
      }
      table := t;
      hashShift := 32 - (roundUpLog2 as int);
      assert table[..] == Empty(roundUpLog2);
      return true;
    }

    // -------------------------------------------------------------- probing

    /** `lookup`: walk the key's path, marking it when `collisionBit` is set. */
    method LookupEntry(key: K, keyHash: HashNumber, collisionBit: nat) returns (entry: nat)
      requires Valid() && IsStem(keyHash) && collisionBit <= 1
      requires forall i :: 0 <= i < table.Length ==> table[i].WellFormed()
      requires HasFree(State())
      modifies table
      ensures entry == Target(old(table[..]), SizeLog2(), keyHash, key)
      ensures table[..] == MarkIf(old(table[..]), SizeLog2(), keyHash,
                                  Stop(old(table[..]), SizeLog2(), keyHash, key, 0), collisionBit)
    {
      hide Pow2, Probe, Rank, Hash1, Hash2, ApplyDoubleHash, Searching, Target, Stop, MarkIf, Hits;
      ghost var s, k := table[..], SizeLog2();
      var h1 := Hash1(SizeLog2(), keyHash);
      ProbeFirst(k, keyHash);
      SearchStart(s, k, keyHash, key, collisionBit);
      entry := h1;
      if table[entry].IsFree() {
        return;
      }
      if Matches(table[entry], keyHash, key) {
        return;
      }
      var dh := Hash2(SizeLog2(), keyHash);
      var firstRemoved: Option<nat> := None;
      ghost var j := 0;
      while true
        invariant j < |s| == Pow2(k) && h1 == entry == Probe(k, keyHash, j) && entry < table.Length
        invariant Searching(s, k, keyHash, key, collisionBit, j, entry, firstRemoved, table[..])
        decreases |s| - j
      {
        SearchStep(s, k, keyHash, key, collisionBit, j, entry, firstRemoved, table[..]);
        ghost var t := table[..];
        assert t[entry] == table[entry];
        if table[entry].IsRemoved() {
          if firstRemoved.None? {
            firstRemoved := Some(entry);
          }
        } else {
          table[entry] := table[entry].OrCollision(collisionBit);
          assert table[..] == t[entry := t[entry].OrCollision(collisionBit)];
        }
        ProbeAdvances(k, keyHash, j);
        h1 := ApplyDoubleHash(h1, dh);
        j := j + 1;
        entry := h1;
        assert table[entry] == table[..][entry] == s[entry];
        if table[entry].IsFree() {
          if firstRemoved.Some? {
            entry := firstRemoved.value;
          }
          return;
        }
        if Matches(table[entry], keyHash, key) {
          return;
        }
      }
    }

    /** `findFreeEntry`: walk to the first slot that is not live, marking the live ones passed. */
    method FindFreeEntry(keyHash: HashNumber) returns (entry: nat)
      requires Valid() && HasHole()
      modifies table
      ensures entry == FreeEntry(old(table[..]), SizeLog2(), keyHash)
      ensures table[..] == MarkTo(old(table[..]), SizeLog2(), keyHash, Seek(old(table[..]), SizeLog2(), keyHash, 0))
    {
      hide Pow2, Probe, Rank, Hash1, Hash2, ApplyDoubleHash, Seeking, FreeEntry, MarkTo, Seek;
      ghost var s, k := table[..], SizeLog2();
      var h1 := Hash1(SizeLog2(), keyHash);
      ProbeFirst(k, keyHash);
      SeekStart(s, k, keyHash);
      entry := h1;
      assert table[entry] == table[..][entry];
      if !table[entry].IsLive() {
        SeekDone(s, k, keyHash, 0, entry, table[..]);
        return;
      }
      var dh := Hash2(SizeLog2(), keyHash);
      ghost var j := 0;
      while true
        invariant j < |s| == Pow2(k) && h1 == entry == Probe(k, keyHash, j) && entry < table.Length
        invariant Seeking(s, k, keyHash, j, entry, table[..]) && table[entry].IsLive()
        decreases |s| - j
      {
        SeekStep(s, k, keyHash, j, entry, table[..]);
        ghost var t := table[..];
        assert t[entry] == table[entry];
        table[entry] := table[entry].SetCollision();
        assert table[..] == t[entry := t[entry].SetCollision()];
        ProbeAdvances(k, keyHash, j);
        h1 := ApplyDoubleHash(h1, dh);
        j := j + 1;
        entry := h1;
        assert table[entry] == table[..][entry];
        if !table[entry].IsLive() {
          SeekDone(s, k, keyHash, j, entry, table[..]);
          return;
        }
      }
    }

    /** `findFreeEntry(hn).setLive(hn, ...)` */
    method SetLiveAtFree(hn: HashNumber, key: K, value: V)
      requires Valid() && HasHole()
      modifies table
      ensures table[..] == SetAtFree(old(table[..]), SizeLog2(), hn, key, value)
    {
      hide Pow2, MarkTo, Seek, FreeEntry;
      var e := FindFreeEntry(hn);
      ghost var t := table[..];
      table[e] := LiveSlot(hn, key, value);
      assert table[..] == t[e := LiveSlot(hn, key, value)];
    }

    // -------------------------------------------------------------- resizing

    /** `changeTableSize`: copy the live entries to a new table, `deltaLog2` doublings larger. */
    method ChangeTableSize(deltaLog2: int, alloc: bool) returns (status: RebuildStatus)
      requires Valid() && SlotsOk(table[..], hash)
      requires 2 <= SizeLog2() + deltaLog2
      requires SizeLog2() + deltaLog2 <= 24 ==> |Bag(table[..])| <= Pow2(SizeLog2() + deltaLog2)
      modifies this
      ensures Valid()
      ensures Rebuilt(State(), status) == TableState.ChangeTableSize(old(State()), deltaLog2, alloc)
      ensures table == old(table) || fresh(table)
      ensures gen >= old(gen) && (gen == old(gen) ==> table == old(table))
      ensures walked == old(walked) + Walked(old(State()), State())
    {
      hide Pow2, CopiedTo, Copied, SlotsOk, SetAtFree, Bag, DropBit;
      ghost var s := table[..];
      var oldTable, oldCap := table, table.Length;
      var newLog2: nat := SizeLog2() + deltaLog2;
      var newCapacity := Pow2(newLog2);
      CapacityLimit(newLog2);
      if newCapacity > MAX_CAPACITY {
        return RehashFailed;
      }
      var newTable: array?<Slot<K, V>> := CreateTable(newCapacity, alloc);
      if newTable == null {
        return RehashFailed;
      }
      ghost var k: Log2 := newLog2;
      hashShift := 32 - newLog2;
      removedCount := 0;
      gen := gen + 1;
      table := newTable;
      assert newTable[..] == Empty(k);
      CopyNone(s, k);
      var src := 0;
      while src < oldCap
        invariant 0 <= src <= oldCap == |s| && oldTable[..] == s
        invariant table == newTable && fresh(table) && table != oldTable && table.Length == newCapacity
        invariant Valid() && SizeLog2() == k && removedCount == 0
        invariant gen == old(gen) + 1 && entryCount == old(entryCount) && walked == old(walked) + src
        invariant table[..] == CopiedTo(s, k, src)
      {
        assert oldTable[src] == s[src];
        if oldTable[src].IsLive() {
          CopyStep(s, k, src, hash);
          HoleIn(CopiedTo(s, k, src), table);
          assert HasHole();
          SetLiveAtFree(oldTable[src].KeyHash(), oldTable[src].mem.value.0, oldTable[src].mem.value.1);
          assert table[..] == CopiedTo(s, k, src + 1);
        } else {
          CopySkip(s, k, src);
        }
        walked := walked + 1;
        src := src + 1;
      }
      CopyAll(s, k);
      return Rehashed;
    }

    /** The inner loop of the in-place rehash: swap the entry at `i` to its place and mark it there. */
    method PlaceEntry(i: nat)
      requires Valid() && i < table.Length && !table[i].HasCollision()
      modifies table
      ensures table[..] == Place(old(table[..]), SizeLog2(), i)
    {
      hide Pow2, Probe, Rank, Hash1, Hash2, ApplyDoubleHash, PlaceTarget, DropBit, WithBit;
      ghost var s, k := table[..], SizeLog2();
      var keyHash := table[i].KeyHash();
      var h1 := Hash1(SizeLog2(), keyHash);
      var dh := Hash2(SizeLog2(), keyHash);
      ProbeFirst(k, keyHash);
      var tgt := h1;
      ghost var j := 0;
      while true
        invariant j < |s| == Pow2(k) && h1 == tgt == Probe(k, keyHash, j) && tgt < table.Length
        invariant table[..] == s && Clearing(s, k, i, j, tgt)
        decreases |s| - j
      {
        ClearStep(s, k, i, j, tgt);
        assert table[tgt] == s[tgt] && table[i] == s[i];
        if !table[tgt].HasCollision() {
          table[i], table[tgt] := table[tgt], table[i];
          table[tgt] := table[tgt].SetCollision();
          assert table[..] == s[i := s[tgt]][tgt := s[i].SetCollision()];
          return;
        }
        ProbeAdvances(k, keyHash, j);
        h1 := ApplyDoubleHash(h1, dh);
        j := j + 1;
        tgt := h1;
      }
    }

    /** `rehashTableInPlace`: the collision bits serve as marks of the entries already placed. */
    method RehashTableInPlace()
      requires Valid()
      modifies this`removedCount, table
      ensures Valid() && State() == TableState.RehashTableInPlace(old(State()))
    {
      hide Pow2, RehashFrom, Place, ClearCount, DropBit;
      ghost var s, k := table[..], SizeLog2();
      removedCount := 0;
      var i := 0;
      while i < table.Length
        invariant i <= table.Length && UnmarkedTo(s, table[..], i)
        invariant removedCount == 0
      {
        ghost var t := table[..];
        assert table[i] == t[i] == s[i];
        table[i] := table[i].UnsetCollision();
        assert table[..] == t[i := s[i].UnsetCollision()];
        i := i + 1;
      }
      UnmarkedAll(s, table[..]);
      i := 0;
      while i < table.Length
        invariant i <= table.Length && removedCount == 0
        invariant RehashFrom(table[..], k, i) == RehashedInPlace(s, k)
        decreases ClearCount(table[..]), table.Length - i
      {
        RehashFromStep(table[..], k, i);
        assert table[i] == table[..][i];
        if !table[i].IsLive() || table[i].HasCollision() {
          i := i + 1;
          continue;
        }
        PlaceEntry(i);
      }
      RehashDone(table[..], k);
    }

    /** `checkOverloaded` */
    method CheckOverloaded(alloc: bool) returns (status: RebuildStatus)
      requires Valid() && Counted(State(), hash)
      modifies this
      ensures Valid() && Rebuilt(State(), status) == TableState.CheckOverloaded(old(State()), alloc)
      ensures table == old(table) || fresh(table)
      ensures gen >= old(gen) && (gen == old(gen) ==> table == old(table))
      ensures walked == old(walked) + Walked(old(State()), State())
    {
      hide Pow2, Bag, Tombs, PathsOk, DistinctKeys;
      if !TooFull() {
        return NotOverloaded;
      }
      var deltaLog2: int;
      if removedCount >= table.Length / 4 {
        deltaLog2 := 0;
      } else {
        deltaLog2 := 1;
      }
      CountsFit(table[..]);
      Doubling(SizeLog2());
      status := ChangeTableSize(deltaLog2, alloc);
    }

    /** `overloaded` */
    predicate TooFull()
      requires Valid()
      reads this, table
      ensures TooFull() == Overloaded(State())
    {
      entryCount + removedCount >= table.Length * 3 / 4
    }

    /** `checkOverRemoved`: infallible. */
    method CheckOverRemoved(alloc: bool)
      requires Valid() && Counted(State(), hash)
      modifies this, table
      ensures Valid() && State() == TableState.CheckOverRemoved(old(State()), alloc)
      ensures table == old(table) || fresh(table)
      ensures gen >= old(gen) && (gen == old(gen) ==> table == old(table))
      ensures walked == old(walked) + Walked(old(State()), State())
    {
      hide Pow2, Counted, TableState.CheckOverloaded, TableState.RehashTableInPlace;
      if TooFull() {
        ghost var t := State();
        var status := CheckOverloaded(alloc);
        if status == RehashFailed {
          FailedCheck(t, alloc);
          RehashTableInPlace();
        }
      }
    }

    // -------------------------------------------------------------- removing

    /** `remove(Entry&)` */
    method RemoveEntry(i: nat)
      requires Valid() && i < table.Length && table[i].IsLive() && entryCount > 0
      modifies this`entryCount, this`removedCount, table
      ensures Valid() && State() == TableState.RemoveEntry(old(State()), i)
    {
      hide Pow2;
      ghost var s := table[..];
      if table[i].HasCollision() {
        table[i] := Tombstone();
        removedCount := removedCount + 1;
      } else {
        table[i] := FreeSlot();
      }
      entryCount := entryCount - 1;
      assert table[..] == RemoveAt(s, i);
    }

    method CheckUnderloaded(alloc: bool)
      requires Valid() && Counted(State(), hash)
      modifies this
      ensures Valid() && State() == TableState.CheckUnderloaded(old(State()), alloc)
      ensures table == old(table) || fresh(table)
      ensures gen >= old(gen) && (gen == old(gen) ==> table == old(table))
      ensures walked == old(walked) + Walked(old(State()), State())
    {
      hide Pow2, Bag, Tombs, PathsOk, DistinctKeys, TableState.ChangeTableSize;
      if WouldBeUnderloaded(table.Length, entryCount) {
        UnderloadedCanShrink(SizeLog2(), entryCount);
        Doubling(SizeLog2() - 1);
        CapacityFacts(State());
        var _ := ChangeTableSize(-1, alloc);
      }
    }

    /** `compactIfUnderloaded` */
    method CompactIfUnderloaded(alloc: bool)
      requires Valid() && Counted(State(), hash)
      modifies this
      ensures Valid() && State() == TableState.CompactIfUnderloaded(old(State()), alloc)
      ensures table == old(table) || fresh(table)
      ensures gen >= old(gen) && (gen == old(gen) ==> table == old(table))
      ensures walked == old(walked) + Walked(old(State()), State())
    {
      hide Pow2, Bag, Tombs, PathsOk, DistinctKeys, TableState.ChangeTableSize, BestLog2, WouldBeUnderloaded;
      var resizeLog2 := 0;
      var newCapacity := table.Length;
      ghost var b: Log2 := SizeLog2();
      while WouldBeUnderloaded(newCapacity, entryCount)
        invariant unchanged(this) && Valid()
        invariant b == SizeLog2() + resizeLog2 && resizeLog2 <= 0 && newCapacity == Pow2(b)
        invariant BestLog2(b, entryCount) == BestLog2(SizeLog2(), entryCount)
        decreases b
      {
        BestStep(b, entryCount);
        newCapacity := newCapacity / 2;
        resizeLog2 := resizeLog2 - 1;
        b := b - 1;
      }
      BestStep(b, entryCount);
      if resizeLog2 != 0 {
        BestLog2Largest(SizeLog2(), entryCount);
        var _ := ChangeTableSize(resizeLog2, alloc);
      }
    }

    /** `remove(Ptr)` */
    method Remove(i: nat, alloc: bool)
      requires Ready() && i < table.Length && table[i].IsLive()
      modifies this, table
      ensures Ready() && old(table[i].WellFormed()) && old(entryCount) > 0
      ensures State() == TableState.RemovePtr(old(State()), i, alloc)
      ensures Removes(old(State()), State(), alloc)
      ensures Contents() == old(Contents()) - {old(table[i].Get().key)}
      ensures table == old(table) || fresh(table)
      ensures gen >= old(gen) && (gen == old(gen) ==> table == old(table))
      ensures walked == old(walked) + Walked(old(State()), State())
    {
      hide Pow2, WellLaid, Bag, Tombs, View, RemoveAt, TableState.CheckUnderloaded, Removes;
      RemoveEntryCounted(State(), i, hash);
      RemovePtrCorrect(State(), i, alloc, hash);
      RemoveEntry(i);
      CheckUnderloaded(alloc);
    }

    // -------------------------------------------------------------- searching and adding

    method Lookup(key: K) returns (entry: nat)
      requires Ready()
      modifies table
      ensures table[..] == old(table[..]) && State() == old(State()) && Ready()
      ensures entry == TableState.Lookup(State(), key, hash)
      ensures table[entry].IsLive() <==> key in Contents()
      ensures key in Contents() ==> Holds(State(), entry, Item(Stem(hash, key), key, Contents()[key]))
    {
      hide Pow2, WellLaid, Bag, Tombs, Target, View;
      ReadySlots(State(), hash);
      LookupCorrect(State(), key, hash);
      ghost var s := table[..];
      entry := LookupEntry(key, PrepareHash(hash(key)), 0);
      assert table[..] == s;
    }

    method LookupForAdd(key: K) returns (p: AddPtr)
      requires Ready()
      modifies table
      ensures (State(), p) == TableState.LookupForAdd(old(State()), key, hash)
      ensures Ready() && Contents() == old(Contents()) && p.entry < table.Length
      ensures table[p.entry].IsLive() <==> key in Contents()
      ensures key in Contents() ==> Holds(State(), p.entry, Item(Stem(hash, key), key, Contents()[key]))
      ensures key !in Contents() ==> AddReady(State(), p, key, hash)
    {
      hide Pow2, WellLaid, Bag, Tombs, Target, View, Stop, MarkTo, AddReady;
      ReadySlots(State(), hash);
      LookupForAddCorrect(State(), key, hash);
      var keyHash := PrepareHash(hash(key));
      ghost var t := State();
      var entry := LookupEntry(key, keyHash, 1);
      assert State() == TableState.LookupForAdd(t, key, hash).0;
      p := AddPtr(entry, keyHash);
    }

    /** `setLive` with the counters, recycling a tombstone when there is one. */
    method FillEntry(i: nat, keyHash: HashNumber, key: K, value: V)
      requires Valid() && i < table.Length && !table[i].IsLive()
      requires table[i].IsRemoved() ==> removedCount > 0
      modifies this`entryCount, this`removedCount, table
      ensures Valid() && State() == TableState.FillEntry(old(State()), i, Item(keyHash, key, value))
    {
      hide Pow2, DropBit, WithBit;
      ghost var s := table[..];
      var word := keyHash;
      if table[i].IsRemoved() {
        removedCount := removedCount - 1;
        word := WithBit(keyHash);
      }
      table[i] := LiveSlot(word, key, value);
      entryCount := entryCount + 1;
      assert table[..] == s[i := Fill(s[i], Item(keyHash, key, value))];
    }

    /** `putNewInfallible`; also returns the slot it filled. */
    method PutNewInfallible(keyHash: HashNumber, key: K, value: V) returns (e: nat)
      requires Valid() && Counted(State(), hash) && entryCount < table.Length
      modifies this`entryCount, this`removedCount, table
      ensures e == FreeEntry(old(table[..]), SizeLog2(), keyHash)
      ensures Valid() && State() == TableState.PutNewInfallible(old(State()), Item(keyHash, key, value))
    {
      hide Pow2, MarkTo, Seek, FreeEntry, Fill, Bag, Tombs, PathMarked, WellLaid;
      ghost var s, k := table[..], SizeLog2();
      RoomFor(State(), keyHash, hash);
      e := FindFreeEntry(keyHash);
      assert table[e] == table[..][e] == s[e];
      FillEntry(e, keyHash, key, value);
    }

    /** `putNew` */
    method PutNew(key: K, value: V, alloc: bool) returns (ok: bool)
      requires Ready() && key !in Contents()
      modifies this, table
      ensures Ready()
      ensures State() == TableState.PutNew(old(State()), Item(Stem(hash, key), key, value), alloc).table
      ensures !ok <==> MustFail(old(State()), alloc)
      ensures Contents() == if ok then old(Contents())[key := value] else old(Contents())
      ensures table == old(table) || fresh(table)
      ensures gen >= old(gen) && (gen == old(gen) ==> table == old(table))
      ensures walked == old(walked) + Walked(old(State()), State())
    {
      hide Pow2, Counted, View, MustFail, TableState.CheckOverloaded, TableState.PutNewInfallible;
      ghost var t := State();
      PutNewCorrect(t, Item(Stem(hash, key), key, value), alloc, hash);
      CheckOverloadedCorrect(t, alloc, hash);
      var status := CheckOverloaded(alloc);
      if status == RehashFailed {
        return false;
      }
      var _ := PutNewInfallible(PrepareHash(hash(key)), key, value);
      return true;
    }

    /** `add` through the pointer of a missed `lookupForAdd`. */
    method Add(p: AddPtr, key: K, value: V, alloc: bool) returns (ok: bool, p': AddPtr)
      requires Ready() && AddReady(State(), p, key, hash)
      modifies this, table
      ensures Ready()
      ensures Added(State(), p', ok) == TableState.Add(old(State()), p, key, value, alloc)
      ensures Contents() == if ok then old(Contents())[key := value] else old(Contents())
      ensures ok ==> Holds(State(), p'.entry, Item(Stem(hash, key), key, value))
      ensures !ok <==> !old(table[p.entry].IsRemoved()) && MustFail(old(State()), alloc)
      ensures table == old(table) || fresh(table)
      ensures gen >= old(gen) && (gen == old(gen) ==> table == old(table))
      ensures walked == old(walked) + Walked(old(State()), State())
    {
      hide Pow2, WellLaid, Bag, Tombs, View, PathMarked, MustFail, Fill, TableState.CheckOverloaded,
           TableState.PutNewInfallible, WithBit;
      ghost var t := State();
      AddCorrect(t, p, key, value, alloc, hash);
      CheckOverloadedCorrect(t, alloc, hash);
      p' := p;
      if table[p.entry].IsRemoved() {
        TombCounted(t, p.entry, hash);
        FillEntry(p.entry, p.keyHash, key, value);
        p' := p.(keyHash := WithBit(p.keyHash));
      } else {
        var status := CheckOverloaded(alloc);
        if status == RehashFailed {
          return false, p;
        }
        if status == Rehashed {
          var e := PutNewInfallible(p.keyHash, key, value);
          p' := p.(entry := e);
        } else {
          FillEntry(p.entry, p.keyHash, key, value);
        }
      }
      ok := true;
    }

    /** `relookupOrAdd`: search again with the remembered hash word, and add on a miss. */
    method RelookupOrAdd(p: AddPtr, key: K, value: V, alloc: bool) returns (ok: bool, p': AddPtr)
      requires Ready() && p.keyHash == PrepareHash(hash(key))
      modifies this, table
      ensures Ready()
      ensures Added(State(), p', ok) == TableState.RelookupOrAdd(old(State()), key, value, alloc, hash)
      ensures !ok <==> Refused(old(State()), key, alloc, hash)
      ensures old(key in Contents()) ==> Contents() == old(Contents())
      ensures old(key !in Contents()) ==> Contents() == if ok then old(Contents())[key := value] else old(Contents())
      ensures ok ==> Holds(State(), p'.entry, Item(Stem(hash, key), key, Contents()[key]))
      ensures table == old(table) || fresh(table)
      ensures gen >= old(gen) && (gen == old(gen) ==> table == old(table))
      ensures walked == old(walked) + Walked(old(State()), State())
    {
      hide Pow2, WellLaid, Bag, Tombs, View, MarkTo, Stop, Target, AddReady, TableState.Add, TableState.LookupForAdd;
      RelookupOrAddCorrect(State(), key, value, alloc, hash);
      p' := LookupForAdd(key);
      if table[p'.entry].IsLive() {
        return true, p';
      }
      ok, p' := Add(p', key, value, alloc);
    }

    // -------------------------------------------------------------- rekeying, clearing, overwriting

    /** `rekeyWithoutRehash`: take the entry out and put it back under another key. */
    method RekeyWithoutRehash(i: nat, key: K)
      requires Valid() && Counted(State(), hash) && i < table.Length && table[i].IsLive() && table[i].WellFormed()
      requires key in Contents() ==> key == table[i].Get().key
      modifies this`entryCount, this`removedCount, table
      ensures Valid() && Counted(State(), hash) && old(entryCount) > 0
      ensures State() == TableState.RekeyWithoutRehash(old(State()), i, key, hash)
      ensures Contents() == (old(Contents()) - {old(table[i].Get().key)})[key := old(table[i].Get().value)]
    {
      hide Pow2, WellLaid, Bag, Tombs, View, TableState.RemoveEntry, TableState.PutNewInfallible;
      ghost var t := State();
      RemoveEntryCounted(t, i, hash);
      RemoveEntryShape(t, i);
      RekeyWithoutRehashCorrect(t, i, key, hash);
      CountsFit(t.slots);
      var value := table[i].mem.value.1;
      RemoveEntry(i);
      var _ := PutNewInfallible(PrepareHash(hash(key)), key, value);
    }

    /** `rekeyAndMaybeRehash` */
    method RekeyAndMaybeRehash(i: nat, key: K, alloc: bool)
      requires Ready() && i < table.Length && table[i].IsLive() && table[i].WellFormed()
      requires key in Contents() ==> key == table[i].Get().key
      modifies this, table
      ensures Ready() && old(entryCount) > 0
      ensures State() == TableState.RekeyAndMaybeRehash(old(State()), i, key, alloc, hash)
      ensures Contents() == (old(Contents()) - {old(table[i].Get().key)})[key := old(table[i].Get().value)]
      ensures table == old(table) || fresh(table)
      ensures gen >= old(gen) && (gen == old(gen) ==> table == old(table))
      ensures walked == old(walked) + Walked(old(State()), State())
    {
      hide Pow2, WellLaid, Bag, Tombs, View, TableState.RekeyWithoutRehash, TableState.CheckOverRemoved;
      ghost var t := State();
      RekeyAndMaybeRehashCorrect(t, i, key, alloc, hash);
      RekeyWithoutRehash(i, key);
      CheckOverRemoved(alloc);
    }

    /** `clear`: every slot becomes free; the capacity stays. */
    method Clear()
      requires Valid()
      modifies this`entryCount, this`removedCount, table
      ensures Ready() && State() == TableState.Clear(old(State())) && Contents() == map[]
    {
      hide Pow2, Inv, View;
      ghost var t := State();
      ClearCorrect(t, hash);
      var e := 0;
      while e < table.Length
        invariant e <= table.Length && forall i :: 0 <= i < e ==> table[i] == FreeSlot()
      {
        table[e] := FreeSlot();
        e := e + 1;
      }
      removedCount := 0;
      entryCount := 0;
      assert table[..] == Empty(SizeLog2());
    }

    /** `finish`: give the storage back; only another `init` makes the table usable. */
    method Finish()
      requires Valid() || Unused()
      modifies this
      ensures Unused() && gen == (if old(table) == null then old(gen) else old(gen) + 1) && walked == old(walked)
    {
      if table == null {
        return;
      }
      table := null;
      gen := gen + 1;
      entryCount := 0;
      removedCount := 0;
    }

    /** `p->value() = v` through a found pointer. */
    method SetValue(i: nat, value: V)
      requires Ready() && i < table.Length && table[i].IsLive() && table[i].WellFormed()
      modifies table
      ensures Ready() && State() == TableState.SetValue(old(State()), i, value)
      ensures Contents() == old(Contents())[old(table[i].Get().key) := value]
    {
      hide Pow2, WellLaid, Bag, Tombs, View;
      ghost var t := State();
      SetValueCorrect(t, i, value, hash);
      table[i] := table[i].(mem := Some((table[i].mem.value.0, value)));
      assert table[..] == TableState.SetValue(t, i, value).slots;
    }
  }

  lemma RehashDone<K, V>(s: seq<Slot<K, V>>, k: Log2)
    requires Sized(s, k)
    ensures RehashFrom(s, k, |s|) == s
  {
  }

  lemma FailedCheck<K, V>(t: Table<K, V>, alloc: bool)
    requires TableState.CheckOverloaded(t, alloc).status == RehashFailed
    ensures TableState.CheckOverloaded(t, alloc).table == t && Overloaded(t)
  {
  }

  lemma BestStep(k: Log2, entryCount: nat)
    ensures if WouldBeUnderloaded(Pow2(k), entryCount)
            then k > 2 && Pow2(k) == 2 * Pow2(k - 1) && BestLog2(k, entryCount) == BestLog2(k - 1, entryCount)
            else BestLog2(k, entryCount) == k
  {
    if WouldBeUnderloaded(Pow2(k), entryCount) {
      UnderloadedCanShrink(k, entryCount);
    }
  }

  /** What the probing loops need of a table between operations. */
  lemma ReadySlots<K, V>(t: Table<K, V>, hash: K -> HashNumber)
    requires Inv(t, hash)
    ensures HasFree(t) && Counted(t, hash)
    ensures forall i :: 0 <= i < |t.slots| ==> t.slots[i].WellFormed()
  {
    hide Probe, Rank, PathMarked;
    QuarterFree(t, hash);
    forall i | 0 <= i < |t.slots| ensures t.slots[i].WellFormed() {
      assert SlotOk(t.slots[i], hash);
    }
  }

  /** A table whose counter is below its capacity has a slot that is not live, and counts its tombstones. */
  lemma RoomFor<K, V>(t: Table<K, V>, h: HashNumber, hash: K -> HashNumber)
    requires Counted(t, hash) && t.entryCount < |t.slots|
    ensures exists f :: 0 <= f < |t.slots| && !t.slots[f].IsLive()
    ensures var i := FreeEntry(t.slots, t.log2, h); var m := MarkTo(t.slots, t.log2, h, Seek(t.slots, t.log2, h, 0));
      !t.slots[i].IsLive() && m[i] == t.slots[i] && (t.slots[i].IsRemoved() ==> t.removedCount > 0)
  {
    hide Probe, Rank, MarkTo, Seek, FreeEntry, PathMarked;
    FreeEntryReady(t.slots, t.log2, h, hash);
    NoTombs(t.slots);
  }

  lemma TombCounted<K, V>(t: Table<K, V>, i: nat, hash: K -> HashNumber)
    requires Counted(t, hash) && i < |t.slots| && t.slots[i].IsRemoved()
    ensures t.removedCount > 0
  {
    NoTombs(t.slots);
  }

  lemma CapacityLimit(n: nat)
    ensures Pow2(n) > MAX_CAPACITY <==> n > 24
  {
    hide Pow2;
    Pow2Values();
    if n > 24 {
      Pow2Monotone(25, n);
      Doubling(24);
    } else {
      Pow2Monotone(n, 24);
    }
  }

  lemma HoleIn<K, V>(s: seq<Slot<K, V>>, table: array<Slot<K, V>>)
    requires table[..] == s && exists f :: 0 <= f < |s| && !s[f].IsLive()
    ensures exists f :: 0 <= f < table.Length && !table[f].IsLive()
  {
    var f :| 0 <= f < |s| && !s[f].IsLive();
    assert table[f] == s[f];
  }
}
