/** Double hashing: the order in which a hash word visits the slots of a table. */
module Probing {
  import opened Powers
  import opened Slots

  /** Logarithm of a table capacity: `sMinCapacity` is 4 and `sMaxCapacity` is 2^24. */
  type Log2 = k: nat | 2 <= k <= 24 witness 2

  datatype DoubleHash = DoubleHash(h2: HashNumber, sizeMask: HashNumber)

  // ---------------------------------------------------------------- 32-bit operations

  /** `x >> n` */
  function ShiftRight(x: HashNumber, n: nat): HashNumber {
    if n == 0 then x else ShiftRight(x / 2, n - 1)
  }

  /** `x << n` on a 32-bit word */
  function ShiftLeft(x: HashNumber, n: nat): HashNumber
    decreases n
  {
    if n == 0 then x else ShiftLeft((2 * x) % 0x1_0000_0000, n - 1)
  }

  /** `x | 1` */
  function OrOne(x: HashNumber): HashNumber {
    if x % 2 == 0 then x + 1 else x
  }

  /** `x & mask` */
  function And(x: nat, mask: nat): (r: nat)
    ensures r <= mask
  {
    if x == 0 || mask == 0 then 0
    else (if x % 2 == 1 && mask % 2 == 1 then 1 else 0) + 2 * And(x / 2, mask / 2)
  }

  lemma {:induction false} ShiftRightBound(x: HashNumber, n: nat, m: nat)
    requires x < Pow2(n + m)
    ensures ShiftRight(x, n) < Pow2(m)
    decreases n
  {
    if n > 0 {
      assert Pow2(n + m) == 2 * Pow2(n - 1 + m);
      ShiftRightBound(x / 2, n - 1, m);
    }
  }

  /** A right shift is the integer quotient by the power of two. */
  lemma {:induction false} ShiftRightIs(x: HashNumber, n: nat, q: nat)
    requires q * Pow2(n) <= x < (q + 1) * Pow2(n)
    ensures ShiftRight(x, n) == q
    decreases n
  {
    if n > 0 {
      var p := Pow2(n - 1);
      assert q * Pow2(n) == 2 * (q * p);
      assert (q + 1) * Pow2(n) == 2 * ((q + 1) * p);
      ShiftRightIs(x / 2, n - 1, q);
    }
  }

  lemma HalvesRemainder(x: nat, p: nat)
    requires p > 0
    ensures x % (2 * p) == x % 2 + 2 * ((x / 2) % p)
  {
    var q, r := (x / 2) / p, (x / 2) % p;
    assert x / 2 == p * q + r;
    assert x == 2 * (x / 2) + x % 2;
    assert x == (2 * p) * q + (2 * r + x % 2);
    QuotientUnique(x, 2 * p, q, 2 * r + x % 2);
  }

  /** Masking with `k` ones is the remainder modulo 2^k. */
  lemma {:induction false} AndMask(x: nat, k: nat)
    ensures And(x, Pow2(k) - 1) == x % Pow2(k)
    decreases k
  {
    if k == 0 {
    } else {
      var p := Pow2(k - 1);
      AndMask(x / 2, k - 1);
      HalvesRemainder(x, p);
      assert Pow2(k) - 1 == 2 * (p - 1) + 1;
      assert (Pow2(k) - 1) / 2 == p - 1;
    }
  }

  // ---------------------------------------------------------------- the two hashes

  /** `hash0 >> hashShift`; a table of capacity 2^k has `hashShift == 32 - k`. */
  function Hash1(k: Log2, hash0: HashNumber): HashNumber {
    ShiftRight(hash0, 32 - k)
  }

  /** `((h << sizeLog2) >> hashShift) | 1` */
  function Stride(k: Log2, keyHash: HashNumber): HashNumber {
    OrOne(ShiftRight(ShiftLeft(keyHash, k), 32 - k))
  }

  lemma Quarter(k: nat)
    requires k >= 2
    ensures Pow2(k) == 4 * Pow2(k - 2)
  {
    assert Pow2(k) == 2 * Pow2(k - 1);
  }

  lemma SplitWord(k: Log2)
    ensures Pow2(k) * Pow2(32 - k) == 0x1_0000_0000
    ensures 4 <= Pow2(k) <= 0x100_0000
    ensures Pow2(k) % 4 == 0
  {
    hide Pow2;
    Pow2Values();
    Pow2Add(k, 32 - k);
    Pow2Monotone(2, k);
    Pow2Monotone(k, 24);
    Quarter(k);
  }

  lemma OrOneBelow(x: HashNumber, n: int)
    requires x < n && n % 4 == 0
    ensures OrOne(x) < n && OrOne(x) % 2 == 1
  {
  }

  lemma HashBounds(k: Log2, h: HashNumber)
    ensures Hash1(k, h) < Pow2(k)
    ensures Stride(k, h) < Pow2(k) && Stride(k, h) % 2 == 1
  {
    hide Pow2, ShiftLeft, ShiftRight, OrOne;
    SplitWord(k);
    Pow2Values();
    assert (32 - k) + k == 32;
    ShiftRightBound(h, 32 - k, k);
    ShiftRightBound(ShiftLeft(h, k), 32 - k, k);
    OrOneBelow(ShiftRight(ShiftLeft(h, k), 32 - k), Pow2(k));
  }

  function Hash2(k: Log2, curKeyHash: HashNumber): (dh: DoubleHash)
    ensures dh.h2 == Stride(k, curKeyHash) && dh.sizeMask == Pow2(k) - 1
  {
    SplitWord(k);
    DoubleHash(Stride(k, curKeyHash), Pow2(k) - 1)
  }

  /** `x - y` on 32-bit words */
  function Minus(x: HashNumber, y: HashNumber): (d: HashNumber)
    ensures d == (x - y) % 0x1_0000_0000
  {
    if x >= y then x - y else x - y + 0x1_0000_0000
  }

  /** `(h1 - h2) & sizeMask` */
  function ApplyDoubleHash(h1: HashNumber, dh: DoubleHash): HashNumber {
    And(Minus(h1, dh.h2), dh.sizeMask)
  }

  lemma ReduceFactor(a: int, b: int, n: int)
    requires n > 0
    ensures ((a % n) * b) % n == (a * b) % n
  {
    var q, r := a / n, a % n;
    assert a == n * q + r;
    assert a * b == r * b + n * (q * b);
    ModPlusMultiple(r * b, n, q * b);
  }

  lemma TwiceTimes(x: int, p: int, n: int)
    requires n > 0
    ensures (((2 * x) % n) * p) % n == (x * (2 * p)) % n
  {
    ReduceFactor(2 * x, p, n);
    assert (2 * x) * p == x * (2 * p);
  }

  /** A left shift is the product with the power of two, on 32-bit words. */
  lemma {:induction false} ShiftLeftIs(x: HashNumber, n: nat)
    ensures ShiftLeft(x, n) == (x * Pow2(n)) % 0x1_0000_0000
    decreases n
  {
    if n > 0 {
      var p := Pow2(n - 1);
      ShiftLeftIs((2 * x) % 0x1_0000_0000, n - 1);
      TwiceTimes(x, p, 0x1_0000_0000);
    }
  }

  lemma ShiftRightQuotient(x: HashNumber, n: nat)
    ensures ShiftRight(x, n) == x / Pow2(n)
  {
    hide Pow2, ShiftRight;
    var p, q := Pow2(n), x / Pow2(n);
    assert x == p * q + x % p;
    assert (q + 1) * p == q * p + p;
    ShiftRightIs(x, n, q);
  }

  /** The first slot is the `k` leading bits of the word; the stride is the `k` bits after them, made odd. */
  lemma HashesClosed(k: Log2, h: HashNumber)
    ensures Hash1(k, h) == h / Pow2(32 - k)
    ensures var next := ((h * Pow2(k)) % 0x1_0000_0000) / Pow2(32 - k);
      Stride(k, h) == next + 1 - next % 2
  {
    hide Pow2, ShiftLeft, ShiftRight;
    ShiftRightQuotient(h, 32 - k);
    ShiftLeftIs(h, k);
    ShiftRightQuotient(ShiftLeft(h, k), 32 - k);
  }

  /** The slot visited after `j` applications of the double hash. */
  function SlotAfter(k: Log2, h: HashNumber, j: nat): (i: nat)
    ensures i < Pow2(k)
  {
    HashBounds(k, h);
    SplitWord(k);
    if j == 0 then Hash1(k, h) else ApplyDoubleHash(SlotAfter(k, h, j - 1), Hash2(k, h))
  }

  lemma ShiftRemainder(x: int, p: int, d: int, n: int)
    requires n > 0 && p == x % n
    ensures (p - d) % n == (x - d) % n
  {
    var q := x / n;
    assert x == n * q + p;
    assert x - d == (p - d) + n * q;
    ModPlusMultiple(p - d, n, q);
  }

  /** One step back by `d` from a point congruent to `x`, on 32-bit words and under the mask. */
  lemma StepBack(k: Log2, x: int, p: int, d: int)
    requires p == x % Pow2(k)
    ensures ((p - d) % 0x1_0000_0000) % Pow2(k) == (x - d) % Pow2(k)
  {
    hide Pow2;
    SplitWord(k);
    ShiftRemainder(x, p, d, Pow2(k));
    ModOfMod(p - d, Pow2(k), Pow2(32 - k));
  }

  lemma SlotAfterNext(k: Log2, h: HashNumber, j: nat)
    ensures SlotAfter(k, h, j + 1) == ((SlotAfter(k, h, j) - Stride(k, h)) % 0x1_0000_0000) % Pow2(k)
  {
    hide Pow2, Stride, And;
    AndMask((SlotAfter(k, h, j) - Stride(k, h)) % 0x1_0000_0000, k);
  }

  lemma SlotAfterAdvances(k: Log2, h: HashNumber, j: nat)
    ensures SlotAfter(k, h, j + 1) == ApplyDoubleHash(SlotAfter(k, h, j), Hash2(k, h))
  {
    hide Pow2, Stride, ApplyDoubleHash, Hash2;
  }

  lemma SlotAfterFirst(k: Log2, h: HashNumber)
    ensures SlotAfter(k, h, 0) == Hash1(k, h) == Hash1(k, h) % Pow2(k)
  {
    hide Pow2, Hash1;
    HashBounds(k, h);
    QuotientUnique(Hash1(k, h), Pow2(k), 0, Hash1(k, h));
  }

  lemma OneMoreStep(a: int, j: int, d: int)
    ensures a - (j - 1) * d - d == a - j * d
  {
  }

  lemma {:induction false} SlotAfterClosed(k: Log2, h: HashNumber, j: nat)
    ensures SlotAfter(k, h, j) == (Hash1(k, h) - j * Stride(k, h)) % Pow2(k)
    decreases j
  {
    hide Pow2, Stride, Hash1, SlotAfter;
    SlotAfterFirst(k, h);
    if j > 0 {
      SlotAfterClosed(k, h, j - 1);
      SlotAfterNext(k, h, j - 1);
      var a, d := Hash1(k, h), Stride(k, h);
      StepBack(k, a - (j - 1) * d, SlotAfter(k, h, j - 1), d);
      OneMoreStep(a, j, d);
    }
  }

  lemma OddStepInjective(k: nat, a: int, d: int, i: nat, j: nat)
    requires d % 2 == 1 && i <= j < Pow2(k)
    requires (a - i * d) % Pow2(k) == (a - j * d) % Pow2(k)
    ensures i == j
  {
    hide Pow2;
    EqualRemainders(a - i * d, a - j * d, Pow2(k));
    assert (a - i * d) - (a - j * d) == d * (j - i);
    OddCancels(d, j - i, k);
    SmallMultipleIsZero(j - i, Pow2(k));
  }

  /** The slots visited by the first `n` steps, in order. */
  function PathTo(k: Log2, h: HashNumber, n: nat): (p: seq<nat>)
    ensures |p| == n && forall j :: 0 <= j < n ==> p[j] < Pow2(k)
  {
    if n == 0 then [] else PathTo(k, h, n - 1) + [SlotAfter(k, h, n - 1)]
  }

  /** The slot visited after `j` applications, for the `capacity` first of them. */
  function Probe(k: Log2, h: HashNumber, j: nat): (i: nat)
    requires j < Pow2(k)
    ensures i < Pow2(k)
  {
    PathTo(k, h, Pow2(k))[j]
  }

  lemma {:induction false} PathToIs(k: Log2, h: HashNumber, n: nat, j: nat)
    requires j < n
    ensures PathTo(k, h, n)[j] == SlotAfter(k, h, j)
    decreases n
  {
    hide Pow2, SlotAfter;
    if j < n - 1 {
      PathToIs(k, h, n - 1, j);
    }
  }

  lemma ProbeIsSlotAfter(k: Log2, h: HashNumber, j: nat)
    requires j < Pow2(k)
    ensures Probe(k, h, j) == SlotAfter(k, h, j)
  {
    hide Pow2, SlotAfter, PathTo;
    PathToIs(k, h, Pow2(k), j);
  }

  lemma ProbeFirst(k: Log2, h: HashNumber)
    ensures Probe(k, h, 0) == Hash1(k, h)
  {
    hide Pow2, SlotAfter, PathTo, Probe;
    SlotAfterFirst(k, h);
    ProbeIsSlotAfter(k, h, 0);
  }

  lemma ProbeAdvances(k: Log2, h: HashNumber, j: nat)
    requires j + 1 < Pow2(k)
    ensures Probe(k, h, j + 1) == ApplyDoubleHash(Probe(k, h, j), Hash2(k, h))
  {
    hide Pow2, SlotAfter, PathTo, Probe, ApplyDoubleHash, Hash2;
    SlotAfterAdvances(k, h, j);
    ProbeIsSlotAfter(k, h, j);
    ProbeIsSlotAfter(k, h, j + 1);
  }

  /** Two different steps among the first `capacity` never meet. */
  lemma ProbeInjective(k: Log2, h: HashNumber, i: nat, j: nat)
    requires i <= j < Pow2(k)
    requires Probe(k, h, i) == Probe(k, h, j)
    ensures i == j
  {
    hide Pow2, Hash1, Stride, Probe, SlotAfter;
    ProbeIsSlotAfter(k, h, i);
    ProbeIsSlotAfter(k, h, j);
    SlotAfterClosed(k, h, i);
    SlotAfterClosed(k, h, j);
    HashBounds(k, h);
    OddStepInjective(k, Hash1(k, h), Stride(k, h), i, j);
  }

  ghost function Visited(k: Log2, h: HashNumber, steps: nat): set<nat>
    requires steps <= Pow2(k)
  {
    set j | 0 <= j < steps :: Probe(k, h, j)
  }

  lemma {:induction false} VisitedCount(k: Log2, h: HashNumber, steps: nat)
    requires steps <= Pow2(k)
    ensures |Visited(k, h, steps)| == steps
    decreases steps
  {
    hide Pow2, Probe;
    if steps > 0 {
      VisitedCount(k, h, steps - 1);
      var p := Probe(k, h, steps - 1);
      if p in Visited(k, h, steps - 1) {
        var j :| 0 <= j < steps - 1 && Probe(k, h, j) == p;
        ProbeInjective(k, h, j, steps - 1);
      }
      assert Visited(k, h, steps) == Visited(k, h, steps - 1) + {p};
    }
  }

  ghost function Below(n: nat): (s: set<nat>)
    ensures |s| == n
    ensures forall i :: i in s <==> 0 <= i < n
  {
    if n == 0 then {} else Below(n - 1) + {n - 1}
  }

  lemma FullSubset(a: set<nat>, b: set<nat>)
    requires a <= b && |a| == |b|
    ensures a == b
  {
    assert b == a + (b - a);
    assert |b| == |a| + |b - a|;
  }

  /** Some one of the first `capacity` steps of the path of `h` is at slot `i`. */
  ghost predicate Visits(k: Log2, h: HashNumber, i: nat) {
    exists j :: 0 <= j < Pow2(k) && Probe(k, h, j) == i
  }

  /** Every slot is visited by one of the first `capacity` steps. */
  lemma ProbeSurjective(k: Log2, h: HashNumber, i: nat)
    requires i < Pow2(k)
    ensures Visits(k, h, i)
  {
    var n := Pow2(k);
    VisitedCount(k, h, n);
    assert Visited(k, h, n) <= Below(n);
    FullSubset(Visited(k, h, n), Below(n));
    assert i in Visited(k, h, n);
  }

  /** The step at which the probe path of `h` visits slot `i`. */
  ghost function Rank(k: Log2, h: HashNumber, i: nat): (j: nat)
    requires i < Pow2(k)
    ensures j < Pow2(k) && Probe(k, h, j) == i
  {
    ProbeSurjective(k, h, i);
    var j :| 0 <= j < Pow2(k) && Probe(k, h, j) == i;
    j
  }

  lemma RankOfProbe(k: Log2, h: HashNumber, j: nat)
    requires j < Pow2(k)
    ensures Rank(k, h, Probe(k, h, j)) == j
  {
    var i := Rank(k, h, Probe(k, h, j));
    if i <= j {
      ProbeInjective(k, h, i, j);
    } else {
      ProbeInjective(k, h, j, i);
    }
  }

  /** The probe path of every hash word visits every slot exactly once in `capacity` steps. */
  lemma ProbePermutes(k: Log2, h: HashNumber)
    ensures forall i :: 0 <= i < Pow2(k) ==> Visits(k, h, i)
    ensures forall i, j :: 0 <= i < j < Pow2(k) ==> Probe(k, h, i) != Probe(k, h, j)
  {
    forall i | 0 <= i < Pow2(k) ensures Visits(k, h, i) {
      ProbeSurjective(k, h, i);
    }
    forall i, j | 0 <= i < j < Pow2(k) ensures Probe(k, h, i) != Probe(k, h, j) {
      if Probe(k, h, i) == Probe(k, h, j) {
        ProbeInjective(k, h, i, j);
      }
    }
  }
}
