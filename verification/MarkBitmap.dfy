/** Where a GC thing's mark bits live inside its chunk, on 64-bit words. */
module MarkBitmap {

  type Word = bv64

  /** The two colours are black, which is 0, and gray. */
  const GRAY: Word := 1

  // ---------------------------------------------------------------- addresses

  /** `addr & ~ChunkMask`; a chunk has 2^20 bytes. */
  function ChunkOf(addr: Word): Word {
    addr & !0xF_FFFF
  }

  /** `addr & ChunkMask` */
  function OffsetIn(addr: Word): Word {
    addr & 0xF_FFFF
  }

  /** `(addr & ChunkMask) / CellSize` */
  function CellIndex(addr: Word): Word {
    OffsetIn(addr) / 8
  }

  /** `addr |= ChunkMarkBitmapOffset` on a chunk address. */
  function BitmapOf(chunk: Word): Word {
    chunk | 1032368
  }

  function GetGCThingMarkBitmap(thing: Word): Word {
    BitmapOf(ChunkOf(thing))
  }

  /** Where the runtime pointer of a thing's chunk is stored. */
  function RuntimeWord(thing: Word): Word {
    ChunkOf(thing) | 0xF_FFF8
  }

  /** `&bitmap[n]` */
  function WordAt(bitmap: Word, n: Word): Word {
    bitmap + n * 8
  }

  /** `bit / nbits` and `bit % nbits` */
  function WordNumber(bit: Word): Word {
    bit / 64
  }

  function BitNumber(bit: Word): Word {
    bit % 64
  }

  function Mask(n: Word): Word {
    if n < 64 then 1 << n as bv7 else 0
  }

  function Plus(index: Word, color: Word): Word {
    index + color
  }

  /** Cell index plus colour. */
  function MarkBit(thing: Word, color: Word): Word {
    Plus(CellIndex(thing), color)
  }

  /** A colour, and the asserted bound `bit < ChunkMarkBitmapBits`. */
  predicate InBitmap(thing: Word, color: Word) {
    IsColor(color) && BitInBitmap(MarkBit(thing, color))
  }

  predicate IsColor(color: Word) {
    color <= 1
  }

  predicate BitInBitmap(bit: Word) {
    bit < 129024
  }

  function MarkWord(thing: Word, color: Word): Word {
    WordAt(GetGCThingMarkBitmap(thing), WordNumber(MarkBit(thing, color)))
  }

  function MarkMask(thing: Word, color: Word): Word {
    Mask(BitNumber(MarkBit(thing, color)))
  }

  function GetGCThingMarkWordAndMask(thing: Word, color: Word): (Word, Word)
    requires InBitmap(thing, color)
  {
    (MarkWord(thing, color), MarkMask(thing, color))
  }

  // ---------------------------------------------------------------- the mark word

  lemma BitmapWord(a: Word, w: Word)
    requires a & 0xF_FFFF == 0 && w < 2016
    ensures (((a | 1032368) + w * 8) & 0xF_FFFF) & 7 == 0
    ensures ((a | 1032368) + w * 8) & !0xF_FFFF == a
    ensures 1032192 <= ((a | 1032368) + w * 8) & 0xF_FFFF <= 0xF_FFF0
  {
  }

  predicate WordAligned(offset: Word) {
    offset & 7 == 0
  }

  /** Every word of a chunk's bitmap is past the 129024 cells it covers and before the runtime word. */
  lemma BitmapLayout(chunk: Word, n: Word)
    requires OffsetIn(chunk) == 0 && n < 2016
    ensures WordAligned(OffsetIn(WordAt(BitmapOf(chunk), n)))
    ensures ChunkOf(WordAt(BitmapOf(chunk), n)) == chunk
    ensures 129024 * 8 <= OffsetIn(WordAt(BitmapOf(chunk), n)) <= 0xF_FFF0
  {
    BitmapWord(chunk, n);
  }

  lemma ChunkAligned(addr: Word)
    ensures OffsetIn(ChunkOf(addr)) == 0
  {
  }

  lemma WordCount(bit: Word)
    requires BitInBitmap(bit)
    ensures WordNumber(bit) < 2016
  {
  }

  lemma RuntimeWordLast(thing: Word)
    ensures ChunkOf(RuntimeWord(thing)) == ChunkOf(thing) && OffsetIn(RuntimeWord(thing)) == 0xF_FFF8
  {
  }

  /**
   * For every cell and colour within the bound, the mark word is aligned and lies in the cell's own
   * chunk, past everything the bitmap has bits for and wholly before the chunk's runtime word.
   */
  lemma WordInChunk(thing: Word, color: Word)
    requires InBitmap(thing, color)
    ensures var word := GetGCThingMarkWordAndMask(thing, color).0;
      && ChunkOf(word) == ChunkOf(thing) == ChunkOf(RuntimeWord(thing))
      && WordAligned(OffsetIn(word))
      && 129024 * 8 <= OffsetIn(word)
      && OffsetIn(word) <= 0xF_FFF0 && OffsetIn(RuntimeWord(thing)) == 0xF_FFF8
  {
    hide MarkBit, ChunkOf, OffsetIn, WordAt, BitmapOf, WordNumber, BitInBitmap, RuntimeWord, WordAligned;
    ChunkAligned(thing);
    RuntimeWordLast(thing);
    WordCount(MarkBit(thing, color));
    BitmapLayout(ChunkOf(thing), WordNumber(MarkBit(thing, color)));
  }

  // ---------------------------------------------------------------- sharing

  lemma SumCancels(base: Word, x: Word, y: Word)
    requires base + x == base + y
    ensures x == y
  {
  }

  lemma WordsOfOneBitmap(bitmap: Word, p: Word, q: Word)
    requires WordAt(bitmap, p) == WordAt(bitmap, q) && p < 2016 && q < 2016
    ensures p == q
  {
    SumCancels(bitmap, p * 8, q * 8);
  }

  lemma SameWord(t: Word, c: Word, u: Word, d: Word)
    requires InBitmap(t, c) && InBitmap(u, d)
    ensures MarkWord(t, c) == MarkWord(u, d)
       <==> ChunkOf(t) == ChunkOf(u) && WordNumber(MarkBit(t, c)) == WordNumber(MarkBit(u, d))
  {
    hide MarkBit, ChunkOf, OffsetIn, WordAt, BitmapOf, WordNumber, BitInBitmap, RuntimeWord, WordAligned;
    WordInChunk(t, c);
    WordInChunk(u, d);
    WordCount(MarkBit(t, c));
    WordCount(MarkBit(u, d));
    if MarkWord(t, c) == MarkWord(u, d) {
      WordsOfOneBitmap(GetGCThingMarkBitmap(t), WordNumber(MarkBit(t, c)), WordNumber(MarkBit(u, d)));
    }
  }

  function Common(a: Word, b: Word): Word {
    a & b
  }

  predicate Overlap(a: Word, b: Word) {
    Common(a, b) != 0
  }

  lemma MasksOverlap(m: Word, n: Word)
    requires m < 64 && n < 64
    ensures Overlap(Mask(m), Mask(n)) <==> m == n
    ensures Mask(m) == Mask(n) <==> m == n
  {
  }

  lemma BitParts(x: Word, y: Word)
    ensures WordNumber(x) == WordNumber(y) && BitNumber(x) == BitNumber(y) <==> x == y
    ensures BitNumber(x) < 64
  {
  }

  /** Two cells and colours share a mark bit exactly when they are in one chunk with equal index plus colour. */
  lemma SharedBit(t: Word, c: Word, u: Word, d: Word)
    requires InBitmap(t, c) && InBitmap(u, d)
    ensures GetGCThingMarkWordAndMask(t, c) == GetGCThingMarkWordAndMask(u, d)
       <==> ChunkOf(t) == ChunkOf(u) && MarkBit(t, c) == MarkBit(u, d)
    ensures MarkWord(t, c) == MarkWord(u, d) && Overlap(MarkMask(t, c), MarkMask(u, d))
       <==> ChunkOf(t) == ChunkOf(u) && MarkBit(t, c) == MarkBit(u, d)
  {
    hide MarkBit, MarkWord, CellIndex, ChunkOf, OffsetIn, WordNumber, BitNumber, Mask, Overlap, InBitmap;
    SameWord(t, c, u, d);
    BitParts(MarkBit(t, c), MarkBit(u, d));
    BitParts(MarkBit(u, d), MarkBit(t, c));
    MasksOverlap(BitNumber(MarkBit(t, c)), BitNumber(MarkBit(u, d)));
  }

  // ---------------------------------------------------------------- marking and gray answers

  function SetBits(x: Word, m: Word): Word {
    x | m
  }

  /** Memory by word address. */
  type Memory = Word -> Word

  /** Setting the mark bits of one cell and colour. */
  function Mark(mem: Memory, thing: Word, color: Word): Memory {
    (a: Word) => if a == MarkWord(thing, color) then SetBits(mem(a), MarkMask(thing, color)) else mem(a)
  }

  /** `IsInsideNursery` */
  datatype Nursery = Nursery(start: Word, end: Word)

  predicate IsInsideNursery(n: Nursery, thing: Word) {
    n.start <= thing < n.end
  }

  /** `GCThingIsMarkedGray`: things in the nursery are never gray; `None`-like builds have an empty nursery. */
  predicate IsMarkedGray(mem: Memory, n: Nursery, thing: Word)
    requires InBitmap(thing, GRAY)
  {
    !IsInsideNursery(n, thing) && Overlap(mem(MarkWord(thing, GRAY)), MarkMask(thing, GRAY))
  }

  lemma CommonOutside(x: Word, m: Word, w: Word)
    requires Common(m, w) == 0
    ensures Common(SetBits(x, m), w) == Common(x, w)
  {
  }

  lemma OrKeeps(x: Word, m: Word, w: Word)
    requires !Overlap(m, w)
    ensures Overlap(SetBits(x, m), w) == Overlap(x, w)
  {
    hide Common, SetBits;
    CommonOutside(x, m, w);
  }

  lemma OrSets(x: Word, m: Word)
    ensures Overlap(SetBits(x, m), m) == (m != 0)
  {
  }

  lemma MaskNonzero(n: Word)
    requires n < 64
    ensures Mask(n) != 0
  {
  }

  lemma EqualMasks(t: Word, c: Word, u: Word, d: Word)
    requires MarkBit(t, c) == MarkBit(u, d)
    ensures MarkMask(t, c) == MarkMask(u, d) && MarkMask(u, d) != 0
  {
    hide MarkBit, Mask, BitNumber;
    BitParts(MarkBit(u, d), MarkBit(u, d));
    MaskNonzero(BitNumber(MarkBit(u, d)));
  }

  /** After marking one cell, a cell is gray exactly when it was, or when the mark was its own gray bit. */
  lemma GrayAfterMark(mem: Memory, n: Nursery, t: Word, color: Word, u: Word)
    requires InBitmap(t, color) && InBitmap(u, GRAY)
    ensures IsMarkedGray(Mark(mem, t, color), n, u)
       <==> IsMarkedGray(mem, n, u)
            || (!IsInsideNursery(n, u) && ChunkOf(t) == ChunkOf(u) && MarkBit(t, color) == MarkBit(u, GRAY))
  {
    hide MarkWord, MarkMask, MarkBit, ChunkOf, Overlap, SetBits, IsInsideNursery, InBitmap;
    SharedBit(t, color, u, GRAY);
    if MarkWord(t, color) == MarkWord(u, GRAY) {
      if MarkBit(t, color) == MarkBit(u, GRAY) {
        EqualMasks(t, color, u, GRAY);
        OrSets(mem(MarkWord(u, GRAY)), MarkMask(u, GRAY));
      } else {
        OrKeeps(mem(MarkWord(u, GRAY)), MarkMask(t, color), MarkMask(u, GRAY));
      }
    }
  }

  predicate TwoLess(i: Word, j: Word) {
    i + 2 <= j
  }

  predicate TwoBelow(t: Word, u: Word) {
    TwoLess(CellIndex(t), CellIndex(u))
  }

  /** Cells in different chunks, or whose indices differ by at least two. */
  predicate Apart(t: Word, u: Word) {
    ChunkOf(t) != ChunkOf(u) || TwoBelow(t, u) || TwoBelow(u, t)
  }

  predicate Less(a: Word, b: Word) {
    a < b
  }

  predicate SmallIndex(i: Word) {
    i < 0x2_0000
  }

  lemma OneOrNoneBelow(i: Word, j: Word, c: Word)
    requires c <= 1 && i < 0x2_0000 && j < 0x2_0000 && i + 2 <= j
    ensures i + c < j
  {
  }

  lemma SumBelow(i: Word, j: Word, c: Word)
    requires IsColor(c) && SmallIndex(i) && SmallIndex(j) && TwoLess(i, j)
    ensures i + c < j
  {
    OneOrNoneBelow(i, j, c);
  }

  lemma LessIs(a: Word, b: Word)
    requires a < b
    ensures Less(a, b)
  {
  }

  lemma PlusBelow(i: Word, j: Word, c: Word)
    requires IsColor(c) && SmallIndex(i) && SmallIndex(j) && TwoLess(i, j)
    ensures Less(Plus(i, c), j)
  {
    hide IsColor, SmallIndex, TwoLess, Less;
    SumBelow(i, j, c);
    LessIs(i + c, j);
  }

  lemma PlusNotBelow(j: Word, d: Word)
    requires IsColor(d) && SmallIndex(j)
    ensures !Less(Plus(j, d), j)
  {
  }

  lemma IndexSmall(t: Word)
    ensures SmallIndex(CellIndex(t))
  {
  }

  lemma ApartBits(t: Word, c: Word, u: Word, d: Word)
    requires IsColor(c) && IsColor(d) && TwoBelow(t, u)
    ensures MarkBit(t, c) != MarkBit(u, d)
  {
    hide CellIndex, Plus, TwoLess, Less, SmallIndex, IsColor;
    IndexSmall(t);
    IndexSmall(u);
    PlusBelow(CellIndex(t), CellIndex(u), c);
    PlusNotBelow(CellIndex(u), d);
  }

  lemma ApartShareNothing(t: Word, c: Word, u: Word, d: Word)
    requires InBitmap(t, c) && InBitmap(u, d) && Apart(t, u)
    ensures ChunkOf(t) != ChunkOf(u) || MarkBit(t, c) != MarkBit(u, d)
  {
    hide ChunkOf, MarkBit, TwoBelow, BitInBitmap, IsColor;
    if TwoBelow(t, u) {
      ApartBits(t, c, u, d);
    } else if TwoBelow(u, t) {
      ApartBits(u, d, t, c);
    }
  }

  /** Marking a cell, in either colour, never changes the gray answer of a cell apart from it. */
  lemma MarkingIsLocal(mem: Memory, n: Nursery, t: Word, color: Word, u: Word)
    requires InBitmap(t, color) && InBitmap(u, GRAY) && Apart(t, u)
    ensures IsMarkedGray(Mark(mem, t, color), n, u) == IsMarkedGray(mem, n, u)
  {
    hide IsMarkedGray, MarkBit, ChunkOf, Mark, Apart, IsInsideNursery, InBitmap;
    ApartShareNothing(t, color, u, GRAY);
    GrayAfterMark(mem, n, t, color, u);
  }

  // ---------------------------------------------------------------- in numbers

  lemma BitmapIs(chunk: Word)
    requires OffsetIn(chunk) == 0
    ensures BitmapOf(chunk) == chunk + 1032368
  {
  }

  lemma WordAtIs(bitmap: Word, n: Word)
    ensures WordAt(bitmap, n) == bitmap + 8 * n
  {
  }

  /** A chunk's bitmap is 1032368 bytes into it. */
  lemma MarkBitmapIs(t: Word)
    ensures GetGCThingMarkBitmap(t) == (t & !0xF_FFFF) + 1032368
  {
    ChunkAligned(t);
    BitmapIs(ChunkOf(t));
  }

  /** A cell has 8 bytes, a word 64 bits. */
  lemma CellIndexIs(t: Word)
    ensures CellIndex(t) == (t & 0xF_FFFF) >> 3
  {
  }

  lemma NumbersAre(bit: Word)
    ensures WordNumber(bit) == bit >> 6 && BitNumber(bit) == bit & 63
  {
  }

  lemma MaskIs(n: Word)
    requires n < 64
    ensures Mask(n) == 1 << n as bv7
  {
  }

  /** Every colour and bit that the source asserts is covered. */
  lemma LegalBit(t: Word, c: Word)
    requires c <= 1 && MarkBit(t, c) < 129024
    ensures InBitmap(t, c)
  {
    hide MarkBit;
  }

  /** Black has the bit of the cell's index, gray the next one. */
  lemma MarkBitsAre(t: Word)
    ensures MarkBit(t, 0) == CellIndex(t) && MarkBit(t, 1) == CellIndex(t) + 1
  {
    hide CellIndex;
  }

  /** The bits fill the words from the lowest one up. */
  lemma WordAndMaskAre(t: Word, c: Word)
    requires InBitmap(t, c)
    ensures GetGCThingMarkWordAndMask(t, c)
         == (GetGCThingMarkBitmap(t) + 8 * WordNumber(MarkBit(t, c)), Mask(BitNumber(MarkBit(t, c))))
  {
    hide WordAt, GetGCThingMarkBitmap, MarkBit, WordNumber, BitNumber, Mask, InBitmap;
    WordAtIs(GetGCThingMarkBitmap(t), WordNumber(MarkBit(t, c)));
  }

  lemma NextBit(i: Word)
    ensures Plus(i, 0) != Plus(i, 1)
  {
  }

  /** The nursery is the half-open range from its start to its end. */
  lemma NurseryBounds(n: Nursery, thing: Word)
    requires IsInsideNursery(n, thing)
    ensures n.start <= thing
    ensures thing < n.end
  {
  }

  lemma NurseryRange(n: Nursery, thing: Word)
    requires n.start <= thing && thing < n.end
    ensures IsInsideNursery(n, thing)
  {
  }

  /** Marking a cell black leaves its gray answer alone; marking it gray makes it gray, unless it is in the nursery. */
  lemma BlackIsNotGray(mem: Memory, n: Nursery, t: Word)
    requires InBitmap(t, 0) && InBitmap(t, 1)
    ensures IsMarkedGray(Mark(mem, t, 0), n, t) == IsMarkedGray(mem, n, t)
    ensures IsMarkedGray(Mark(mem, t, 1), n, t) <==> !IsInsideNursery(n, t)
  {
    hide IsMarkedGray, IsInsideNursery, CellIndex, ChunkOf, Mark, InBitmap, Plus;
    GrayAfterMark(mem, n, t, 0, t);
    GrayAfterMark(mem, n, t, 1, t);
    NextBit(CellIndex(t));
    OutsideNursery(mem, n, t);
  }

  lemma OutsideNursery(mem: Memory, n: Nursery, t: Word)
    requires InBitmap(t, 1)
    ensures IsMarkedGray(mem, n, t) ==> !IsInsideNursery(n, t)
  {
    hide IsInsideNursery, Overlap, MarkWord, MarkMask, InBitmap;
  }
}
