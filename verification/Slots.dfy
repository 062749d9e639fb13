/** Table slots and the encoding of their 32-bit hash word. */
module Slots {
  import opened Powers

  /** A 32-bit unsigned hash word. */
  type HashNumber = h: int | 0 <= h < 0x1_0000_0000

  const FREE_KEY: HashNumber := 0
  const REMOVED_KEY: HashNumber := 1

  datatype Option<+T> = None | Some(value: T)

  /** A live table entry: its hash word without the collision bit, its key and its value. */
  datatype Item<+K, +V> = Item(stem: HashNumber, key: K, value: V)

  predicate IsLiveHash(h: HashNumber) {
    h > REMOVED_KEY
  }

  /** `h & ~sCollisionBit` */
  function DropBit(h: HashNumber): (r: HashNumber)
    ensures r % 2 == 0 && r <= h <= r + 1
  {
    h - h % 2
  }

  /** `h | sCollisionBit` */
  function WithBit(h: HashNumber): (r: HashNumber)
    ensures r % 2 == 1 && h <= r <= h + 1
    ensures DropBit(r) == DropBit(h)
  {
    DropBit(h) + 1
  }

  function ScrambleHashCode(h: HashNumber): HashNumber {
    (h * 0x9E37_79B9) % 0x1_0000_0000
  }

  /** A hash word usable as a stored word: even, and neither of the two reserved words. */
  predicate IsStem(h: int) {
    2 <= h < 0x1_0000_0000 && h % 2 == 0
  }

  /** `keyHash -= (sRemovedKey + 1)` on the two reserved words, wrapping around. */
  function AvoidReserved(keyHash: HashNumber): (r: HashNumber)
    ensures IsLiveHash(r)
  {
    if IsLiveHash(keyHash) then keyHash else 0x1_0000_0000 + keyHash - (REMOVED_KEY + 1)
  }

  function PrepareHash(h: HashNumber): (stem: HashNumber)
    ensures IsStem(stem)
  {
    DropBit(AvoidReserved(ScrambleHashCode(h)))
  }

  /** Scrambling loses nothing: the golden ratio is odd. */
  lemma ScrambleInjective(a: HashNumber, b: HashNumber)
    requires ScrambleHashCode(a) == ScrambleHashCode(b)
    ensures a == b
  {
    hide Pow2;
    Pow2Values();
    if b <= a {
      OddFactorInjective(0x9E37_79B9, a, b, 32, 0x1_0000_0000);
    } else {
      OddFactorInjective(0x9E37_79B9, b, a, 32, 0x1_0000_0000);
    }
  }

  /** A prepared hash is the scrambled code without its last bit; for a reserved word, the largest even word. */
  lemma PreparedWord(h: HashNumber)
    ensures var s := (h * 0x9E37_79B9) % 0x1_0000_0000;
      PrepareHash(h) == if s < 2 then 0xFFFF_FFFE else s - s % 2
  {
  }

  /** Apart from the word that stands in for the reserved ones, two codes prepared alike scramble to neighbours. */
  lemma PreparedAlike(a: HashNumber, b: HashNumber)
    requires PrepareHash(a) == PrepareHash(b) != 0xFFFF_FFFE
    ensures a == b || ScrambleHashCode(a) / 2 == ScrambleHashCode(b) / 2
    ensures ScrambleHashCode(a) % 2 == ScrambleHashCode(b) % 2 ==> a == b
  {
    hide ScrambleHashCode;
    if ScrambleHashCode(a) == ScrambleHashCode(b) {
      ScrambleInjective(a, b);
    }
  }

  /** One slot: the stored word, and the memory holding key and value while the slot is live. */
  datatype Slot<+K, +V> = Slot(keyHash: HashNumber, mem: Option<(K, V)>) {

    predicate IsFree() { keyHash == FREE_KEY }

    predicate IsRemoved() { keyHash == REMOVED_KEY }

    predicate IsLive() { IsLiveHash(keyHash) }

    predicate HasCollision() { keyHash % 2 == 1 }

    function KeyHash(): HashNumber { DropBit(keyHash) }

    predicate MatchHash(h: HashNumber) { DropBit(keyHash) == h }

    function SetCollision(): Slot<K, V> { this.(keyHash := WithBit(keyHash)) }

    /** `keyHash |= bit`, for a bit that is 0 or the collision bit. */
    function OrCollision(bit: nat): Slot<K, V> { if bit == 0 then this else SetCollision() }

    function UnsetCollision(): Slot<K, V> { this.(keyHash := DropBit(keyHash)) }

    /** The word says exactly whether the memory is in use. */
    predicate WellFormed() { IsLive() <==> mem.Some? }

    function Get(): Item<K, V>
      requires IsLive() && WellFormed()
    {
      Item(KeyHash(), mem.value.0, mem.value.1)
    }
  }

  /** A slot of freshly zeroed storage; also what `clearLive` leaves. */
  function FreeSlot<K, V>(): Slot<K, V> {
    Slot(FREE_KEY, None)
  }

  /** What `removeLive` leaves. */
  function Tombstone<K, V>(): Slot<K, V> {
    Slot(REMOVED_KEY, None)
  }

  /** What `setLive` writes. */
  function LiveSlot<K, V>(word: HashNumber, key: K, value: V): Slot<K, V> {
    Slot(word, Some((key, value)))
  }
}
