/** A history that ends in a rekey under which another entry moves although the generation stays. */
module RekeySample {
  import opened Powers
  import opened Slots
  import opened Probing
  import opened Layout
  import opened Rebuild
  import opened InPlace
  import opened TableState
  import opened Operations
  import opened MapOperations
  import opened Staying
  import opened Rekeying
  import opened Runs
  import opened Initial

  /** Of four slots, keys 3 and 0 start at slot 0, from where key 0 steps to slot 1; keys 1 and 2 start at slot 2. */
  function SampleHash(key: int): HashNumber {
    if key == 3 then 2415919104 else if key == 0 then 2952790016 else if key == 1 then 2147483648 else 2828630290
  }

  /** The prepared hash of a key from the quotient of its scrambling product. */
  lemma StemFrom(h: HashNumber, q: nat, stem: HashNumber)
    requires IsStem(stem) && h * 0x9E37_79B9 == q * 0x1_0000_0000 + stem
    ensures PrepareHash(h) == stem
  {
    QuotientUnique(h * 0x9E37_79B9, 0x1_0000_0000, q, stem);
  }

  lemma SampleStems()
    ensures Stem(SampleHash, 3) == 0x1000_0000
    ensures Stem(SampleHash, 0) == 0x3000_0000
    ensures Stem(SampleHash, 1) == 0x8000_0000
    ensures Stem(SampleHash, 2) == 0x8000_0002
  {
    hide PrepareHash;
    StemFrom(2415919104, 1493120120, 0x1000_0000);
    StemFrom(2952790016, 1824924591, 0x3000_0000);
    StemFrom(2147483648, 1327217884, 0x8000_0000);
    StemFrom(2828630290, 1748189660, 0x8000_0002);
  }

  lemma SampleShift()
    ensures Pow2(2) == 4 && Pow2(30) == 0x4000_0000
  {
    Pow2Values();
    assert Pow2(32) == 2 * Pow2(31);
    assert Pow2(31) == 2 * Pow2(30);
  }

  /** The first slot of a path, from the two leading bits of the hash word. */
  lemma FirstProbe(h: HashNumber, q: nat)
    requires q < 4 && q * 0x4000_0000 <= h < (q + 1) * 0x4000_0000
    ensures Pow2(2) == 4 && Probe(2, h, 0) == q
  {
    hide Pow2, ShiftRight, Probe;
    SampleShift();
    ProbeFirst(2, h);
    ShiftRightIs(h, 30, q);
  }

  lemma SampleStride()
    ensures Stride(2, 0x3000_0000) == 3
  {
    hide Pow2, ShiftRight;
    SampleShift();
    assert ShiftLeft(0xC000_0000, 0) == 0xC000_0000;
    assert ShiftLeft(0x6000_0000, 1) == ShiftLeft(0xC000_0000, 0);
    assert ShiftLeft(0x3000_0000, 2) == ShiftLeft(0x6000_0000, 1);
    ShiftRightIs(0xC000_0000, 30, 3);
  }

  lemma SecondProbe()
    ensures Pow2(2) == 4 && Probe(2, 0x3000_0000, 1) == 1
  {
    hide Pow2, Probe, Stride, SlotAfter;
    SampleShift();
    FirstProbe(0x3000_0000, 0);
    ProbeIsSlotAfter(2, 0x3000_0000, 0);
    ProbeIsSlotAfter(2, 0x3000_0000, 1);
    SlotAfterNext(2, 0x3000_0000, 0);
    SampleStride();
  }

  // ---------------------------------------------------------------- the history

  ghost function Row(a: Slot<int, int>, b: Slot<int, int>, c: Slot<int, int>): (s: seq<Slot<int, int>>)
    ensures |s| == 4
  {
    [a, b, c, FreeSlot()]
  }

  ghost function RowTable(a: Slot<int, int>, b: Slot<int, int>, c: Slot<int, int>, entryCount: nat, removedCount: nat)
    : Table<int, int>
  {
    Table(Row(a, b, c), 2, entryCount, removedCount, 0)
  }

  function SampleRun(): seq<Op<int, int>> {
    [OpPutNew(3, 30, true), OpPutNew(0, 10, true), OpPutNew(1, 20, true), OpRemove(3, true)]
  }

  const FIRST: Slot<int, int> := Slot(0x1000_0000, Some((3, 30)))
  const PASSED: Slot<int, int> := Slot(0x1000_0001, Some((3, 30)))
  const ZERO: Slot<int, int> := Slot(0x3000_0000, Some((0, 10)))
  const ONE: Slot<int, int> := Slot(0x8000_0000, Some((1, 20)))

  lemma SampleInit()
    ensures Init<int, int>(3, 0, true) == Option.Some(RowTable(FreeSlot(), FreeSlot(), FreeSlot(), 0, 0))
  {
    SampleShift();
    assert WantedCapacity(3) == 4;
    assert RoundUpLog2(2, 4) == 2;
    assert Empty<int, int>(2) == Row(FreeSlot(), FreeSlot(), FreeSlot());
  }

  /** A new key whose first slot is not live goes there. */
  lemma PutFirst(t: Table<int, int>, it: Item<int, int>, i: nat)
    requires t.log2 == 2 && |t.slots| == 4 && t.removedCount == 0 && t.entryCount < 3
    requires i < 4 && Pow2(2) == 4 && Probe(2, it.stem, 0) == i && t.slots[i].IsFree()
    ensures Sane(t)
    ensures PutNew(t, it, true) == Rebuilt(t.(slots := t.slots[i := LiveSlot(it.stem, it.key, it.value)],
                                              entryCount := t.entryCount + 1), NotOverloaded)
  {
    hide Pow2, Probe, Rank;
    assert Seek(t.slots, 2, it.stem, 0) == 0;
    MarkNone(t.slots, 2, it.stem);
  }

  lemma PutThree()
    ensures Pow2(2) == 4
    ensures PutNew(RowTable(FreeSlot(), FreeSlot(), FreeSlot(), 0, 0), Item(0x1000_0000, 3, 30), true)
         == Rebuilt(RowTable(FIRST, FreeSlot(), FreeSlot(), 1, 0), NotOverloaded)
  {
    hide Pow2, Probe, Rank, PutNew;
    FirstProbe(0x1000_0000, 0);
    PutFirst(RowTable(FreeSlot(), FreeSlot(), FreeSlot(), 0, 0), Item(0x1000_0000, 3, 30), 0);
  }

  lemma FirstMarked()
    ensures FIRST.SetCollision() == PASSED
  {
  }

  /** The path of key 0 passes the entry of key 3. */
  lemma ZeroMarks()
    ensures Pow2(2) == 4
    ensures MarkTo(Row(FIRST, FreeSlot(), FreeSlot()), 2, 0x3000_0000, 1) == Row(PASSED, FreeSlot(), FreeSlot())
  {
    hide Pow2, Probe, Rank, MarkTo, DropBit, WithBit;
    FirstProbe(0x3000_0000, 0);
    FirstMarked();
    var s := Row(FIRST, FreeSlot(), FreeSlot());
    MarkNone(s, 2, 0x3000_0000);
    MarkStep(s, 2, 0x3000_0000, 0);
    assert s[0 := PASSED] == Row(PASSED, FreeSlot(), FreeSlot());
  }

  /** It ends next to it. */
  lemma ZeroPath()
    ensures Pow2(2) == 4
    ensures var s := Row(FIRST, FreeSlot(), FreeSlot());
      Seek(s, 2, 0x3000_0000, 0) == 1 && FreeEntry(s, 2, 0x3000_0000) == 1
  {
    hide Pow2, Probe, Rank, DropBit, WithBit;
    FirstProbe(0x3000_0000, 0);
    SecondProbe();
    var s := Row(FIRST, FreeSlot(), FreeSlot());
    assert s[0].IsLive() && !s[1].IsLive();
    assert Seek(s, 2, 0x3000_0000, 1) == 1;
  }

  lemma PutZero()
    ensures Pow2(2) == 4
    ensures PutNew(RowTable(FIRST, FreeSlot(), FreeSlot(), 1, 0), Item(0x3000_0000, 0, 10), true)
         == Rebuilt(RowTable(PASSED, ZERO, FreeSlot(), 2, 0), NotOverloaded)
  {
    hide Pow2, Probe, Rank, MarkTo, Seek, FreeEntry, DropBit, WithBit;
    ZeroPath();
    ZeroMarks();
    assert Row(PASSED, FreeSlot(), FreeSlot())[1 := ZERO] == Row(PASSED, ZERO, FreeSlot());
  }

  lemma PutOne()
    ensures Pow2(2) == 4
    ensures PutNew(RowTable(PASSED, ZERO, FreeSlot(), 2, 0), Item(0x8000_0000, 1, 20), true)
         == Rebuilt(RowTable(PASSED, ZERO, ONE, 3, 0), NotOverloaded)
  {
    hide Pow2, Probe, Rank, PutNew;
    FirstProbe(0x8000_0000, 2);
    PutFirst(RowTable(PASSED, ZERO, FreeSlot(), 2, 0), Item(0x8000_0000, 1, 20), 2);
  }

  /** A key in the first slot of its path is found there. */
  lemma FoundFirst(t: Table<int, int>, key: int, i: nat)
    requires t.log2 == 2 && |t.slots| == 4 && i < 4 && Pow2(2) == 4
    requires Probe(2, Stem(SampleHash, key), 0) == i && Hits(t.slots[i], Stem(SampleHash, key), key)
    ensures Sane(t) && Lookup(t, key, SampleHash) == i
  {
    hide Pow2, Probe, Rank, PrepareHash, Hits;
    assert Stop(t.slots, 2, Stem(SampleHash, key), key, 0) == 0;
  }

  lemma RemoveThree()
    ensures Pow2(2) == 4
    ensures RemoveKey(RowTable(PASSED, ZERO, ONE, 3, 0), 3, true, SampleHash) == RowTable(Tombstone(), ZERO, ONE, 2, 1)
  {
    hide Pow2, Probe, Rank, PrepareHash, Lookup;
    SampleStems();
    FirstProbe(0x1000_0000, 0);
    var t := RowTable(PASSED, ZERO, ONE, 3, 0);
    FoundFirst(t, 3, 0);
    assert RemoveAt(t.slots, 0) == Row(Tombstone(), ZERO, ONE);
  }

  lemma RunOne(t: Table<int, int>, op: Op<int, int>, ops: seq<Op<int, int>>)
    requires Inv(t, SampleHash) && Legal(View(t), op)
    ensures Sane(t) && Inv(Step(t, op, SampleHash).0, SampleHash)
    ensures View(Step(t, op, SampleHash).0) == MapStep(View(t), op, Step(t, op, SampleHash).1)
    ensures LegalRun(Step(t, op, SampleHash).0, ops, SampleHash) ==>
      && LegalRun(t, [op] + ops, SampleHash)
      && Run(t, [op] + ops, SampleHash).0 == Run(Step(t, op, SampleHash).0, ops, SampleHash).0
  {
    hide Inv, View, Step, Legal, Expected, MapStep, MustFail;
    StepRefines(t, op, SampleHash);
    assert ([op] + ops)[1..] == ops;
  }

  lemma SampleReached()
    ensures Init<int, int>(3, 0, true) == Option.Some(RowTable(FreeSlot(), FreeSlot(), FreeSlot(), 0, 0))
    ensures var t0 := RowTable(FreeSlot(), FreeSlot(), FreeSlot(), 0, 0);
      && LegalRun(t0, SampleRun(), SampleHash)
      && Run(t0, SampleRun(), SampleHash).0 == RowTable(Tombstone(), ZERO, ONE, 2, 1)
    ensures Inv(RowTable(Tombstone(), ZERO, ONE, 2, 1), SampleHash)
    ensures View(RowTable(Tombstone(), ZERO, ONE, 2, 1)) == map[0 := 10, 1 := 20]
  {
    hide Inv, View, PutNew, RemoveKey, LegalRun, Run, PrepareHash, Pow2, MustFail, Init;
    SampleInit();
    InitSmallest<int, int>(3, 0, SampleHash);
    SampleStems();
    PutThree();
    PutZero();
    PutOne();
    RemoveThree();
    var t0 := RowTable(FreeSlot(), FreeSlot(), FreeSlot(), 0, 0);
    var t1 := RowTable(FIRST, FreeSlot(), FreeSlot(), 1, 0);
    var t2 := RowTable(PASSED, ZERO, FreeSlot(), 2, 0);
    var t3 := RowTable(PASSED, ZERO, ONE, 3, 0);
    var t4 := RowTable(Tombstone(), ZERO, ONE, 2, 1);
    var o1, o2, o3, o4 := OpPutNew(3, 30, true), OpPutNew(0, 10, true), OpPutNew(1, 20, true), OpRemove(3, true);
    RunOne(t0, o1, [o2, o3, o4]);
    RunOne(t1, o2, [o3, o4]);
    RunOne(t2, o3, [o4]);
    RunOne(t3, o4, []);
    RunNone(t4);
    assert [o1] + [o2, o3, o4] == SampleRun() && [o2] + [o3, o4] == [o2, o3, o4];
    assert [o3] + [o4] == [o3, o4] && [o4] + [] == [o4];
  }

  lemma RunNone(t: Table<int, int>)
    ensures LegalRun(t, [], SampleHash) && Run(t, [], SampleHash).0 == t
  {
  }

  // ---------------------------------------------------------------- the rekey

  /** Key 1 can be rekeyed where it is, but key 0 has a tombstone before it on its path. */
  lemma SampleUnsettled()
    ensures var t := RowTable(Tombstone(), ZERO, ONE, 2, 1);
      && Sane(t) && RehashesInPlace(t, 2, 2, false, SampleHash) && !SettledAfter(t, 2, 2, SampleHash)
  {
    hide Pow2, Probe, Rank, PrepareHash;
    SampleShift();
    SampleStems();
    FirstProbe(0x8000_0002, 2);
    FirstProbe(0x3000_0000, 0);
    SecondProbe();
    RankOfProbe(2, 0x3000_0000, 0);
    RankOfProbe(2, 0x3000_0000, 1);
    var t := RowTable(Tombstone(), ZERO, ONE, 2, 1);
    var s := t.slots[2 := FreeSlot()];
    assert Seek(s, 2, 0x8000_0002, 0) == 0;
    assert NewHome(t, 2, 0x8000_0002) == 2;
    var u := s[2 := LiveSlot(0x8000_0002, 2, 20)];
    assert u[1] == ZERO && !u[0].IsLive();
    assert !SettledAt(u, 2, 1);
  }

  /**
   * The claim fails for `rekeyAs`: after this history from `init`, and with no memory for a second
   * table, rekeying key 1 keeps the generation, and yet key 0 is no longer in its slot.
   */
  lemma RekeyMovesOthers()
    ensures Init<int, int>(3, 0, true).Some?
    ensures var t0 := Init<int, int>(3, 0, true).value;
      && LegalRun(t0, SampleRun(), SampleHash)
      && var t := Run(t0, SampleRun(), SampleHash).0;
      && Sane(t) && View(t) == map[0 := 10, 1 := 20]
      && Legal(View(t), OpRekeyAs(1, 2, false))
      && var t' := Step(t, OpRekeyAs(1, 2, false), SampleHash).0;
      && t'.gen == t.gen && View(t') == map[0 := 10, 2 := 20]
      && !Stays(t, t', {1}, {})
  {
    hide Inv, View, Probe, Rank, PrepareHash, RekeyAndMaybeRehash, Lookup, LegalRun, Run, Stays, RehashesInPlace,
         SettledAfter, FullAfter, Pow2, Init;
    SampleReached();
    SampleUnsettled();
    SampleStems();
    FirstProbe(0x8000_0000, 2);
    var t := RowTable(Tombstone(), ZERO, ONE, 2, 1);
    FoundFirst(t, 1, 2);
    RekeyKeepsOthers(t, 2, 2, false, SampleHash);
    RekeyAsCorrect(t, 1, 2, false, SampleHash);
  }
}
