/** Powers of two and the little modular arithmetic that double hashing needs. */
module Powers {

  function Pow2(k: nat): (p: nat)
    ensures p >= 1
  {
    if k == 0 then 1 else 2 * Pow2(k - 1)
  }

  lemma {:induction false} Pow2Add(a: nat, b: nat)
    ensures Pow2(a + b) == Pow2(a) * Pow2(b)
  {
    if a == 0 {
    } else {
      Pow2Add(a - 1, b);
      assert Pow2(a + b) == 2 * Pow2(a - 1 + b);
    }
  }

  lemma {:induction false} Pow2Monotone(a: nat, b: nat)
    requires a <= b
    ensures Pow2(a) <= Pow2(b)
  {
    if a < b {
      Pow2Monotone(a, b - 1);
    }
  }

  lemma Pow2Values()
    ensures Pow2(2) == 4
    ensures Pow2(23) == 0x80_0000
    ensures Pow2(24) == 0x100_0000
    ensures Pow2(32) == 0x1_0000_0000
  {
    assert Pow2(4) == 16;
    assert Pow2(8) == 256;
    Pow2Add(8, 8);
    Pow2Add(16, 8);
    Pow2Add(16, 16);
    assert Pow2(24) == 2 * Pow2(23);
  }

  /** Adding a multiple of the modulus does not change a remainder. */
  lemma ModPlusMultiple(x: int, n: int, t: int)
    requires n > 0
    ensures (x + n * t) % n == x % n
  {
    var q, r := x / n, x % n;
    assert x + n * t == n * (q + t) + r by {
      assert x == n * q + r;
      assert n * (q + t) == n * q + n * t;
    }
    QuotientUnique(x + n * t, n, q + t, r);
  }

  lemma QuotientUnique(x: int, n: int, q: int, r: int)
    requires n > 0 && 0 <= r < n && x == n * q + r
    ensures x / n == q && x % n == r
  {
    var q', r' := x / n, x % n;
    assert x == n * q' + r';
    assert n * (q - q') == r' - r by {
      assert n * (q - q') == n * q - n * q';
    }
    if q != q' {
      MulAtLeast(n, q - q');
    }
  }

  lemma MulNonnegative(n: int, m: int)
    requires n >= 0 && m >= 0
    ensures n * m >= 0
  {
  }

  lemma MulAtLeastOnce(n: int, m: int)
    requires n > 0 && m >= 1
    ensures n * m >= n
  {
    MulNonnegative(n, m - 1);
    assert n * m == n * (m - 1) + n;
  }

  lemma MulAtLeast(n: int, m: int)
    requires n > 0 && m != 0
    ensures m > 0 ==> n * m >= n
    ensures m < 0 ==> n * m <= -n
  {
    if m > 0 {
      MulAtLeastOnce(n, m);
    } else {
      MulAtLeastOnce(n, -m);
      assert n * -m == -(n * m);
    }
  }

  /** Reducing modulo a multiple first is harmless. */
  lemma ModOfMod(x: int, n: int, q: int)
    requires n > 0 && q > 0
    ensures n * q > 0
    ensures (x % (n * q)) % n == x % n
  {
    MulAtLeast(n, q);
    var m := n * q;
    var t := x / m;
    assert x == m * t + x % m;
    assert m * t == n * (q * t);
    ModPlusMultiple(x % m, n, q * t);
  }

  /** An odd factor can be cancelled modulo a power of two. */
  lemma {:induction false} OddCancels(a: int, x: int, k: nat)
    requires a % 2 == 1
    requires (a * x) % Pow2(k) == 0
    ensures x % Pow2(k) == 0
    decreases k
  {
    if k == 0 {
    } else {
      var p := Pow2(k - 1);
      var t := (a * x) / Pow2(k);
      assert a * x == 2 * p * t;
      var u := p * t;
      assert a * x == 2 * u by {
        assert 2 * p * t == 2 * (p * t);
      }
      var b := a / 2;
      assert a == 2 * b + 1;
      assert a * x == 2 * (b * x) + x;
      var y := u - b * x;
      assert x == 2 * y;
      assert a * x == 2 * (a * y);
      assert a * y == p * t;
      QuotientUnique(a * y, p, t, 0);
      OddCancels(a, y, k - 1);
      var z := y / p;
      assert y == p * z;
      assert x == Pow2(k) * z;
      QuotientUnique(x, Pow2(k), z, 0);
    }
  }

  /** Two multiples differing by less than the modulus are equal when both remainders vanish. */
  lemma SmallMultipleIsZero(x: int, n: int)
    requires n > 0 && 0 <= x < n && x % n == 0
    ensures x == 0
  {
    QuotientUnique(x, n, 0, x);
  }

  /** Equal remainders differ by a multiple. */
  lemma EqualRemainders(x: int, y: int, n: int)
    requires n > 0 && x % n == y % n
    ensures (x - y) % n == 0
  {
    assert x - y == n * (x / n - y / n) by {
      assert x == n * (x / n) + x % n;
      assert y == n * (y / n) + y % n;
      assert n * (x / n - y / n) == n * (x / n) - n * (y / n);
    }
    QuotientUnique(x - y, n, x / n - y / n, 0);
  }

  /** Multiplying by an odd factor modulo a power of two is injective. */
  lemma OddFactorInjective(g: int, a: nat, b: nat, k: nat, n: nat)
    requires n == Pow2(k) && g % 2 == 1 && b <= a < n && (a * g) % n == (b * g) % n
    ensures a == b
  {
    hide Pow2;
    EqualRemainders(a * g, b * g, n);
    assert a * g - b * g == g * (a - b);
    OddCancels(g, a - b, k);
    SmallMultipleIsZero(a - b, n);
  }
}
