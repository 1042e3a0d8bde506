/** Machine words: 64-bit wrap-around, bitwise AND and powers of two, on naturals. */
module Words {

  const WORD: nat := 0x1_0000_0000_0000_0000

  /** The value a 64-bit unsigned variable holds after it is assigned the integer n. */
  function Wrap(n: int): (w: nat)
    ensures w < WORD
  {
    n % WORD
  }

  function Pow2(k: nat): (p: nat)
    ensures p > 0
  {
    if k == 0 then 1 else 2 * Pow2(k - 1)
  }

  /** Bitwise AND, one binary digit at a time. */
  function BitAnd(a: nat, b: nat): (r: nat)
    ensures r <= b
  {
    if a == 0 || b == 0 then 0
    else 2 * BitAnd(a / 2, b / 2) + if a % 2 == 1 && b % 2 == 1 then 1 else 0
  }

  /** Masking with 2^k - 1 is reduction modulo 2^k. */
  lemma {:induction false} MaskIsMod(a: nat, k: nat)
    ensures BitAnd(a, Pow2(k) - 1) == a % Pow2(k)
  {
    if k == 0 {
    } else if a == 0 {
    } else {
      var p := Pow2(k - 1);
      MaskIsMod(a / 2, k - 1);
      assert (2 * p - 1) / 2 == p - 1 && (2 * p - 1) % 2 == 1;
      DoubleResidue(a, p);
    }
  }

  lemma DoubleResidue(a: nat, p: nat)
    requires p > 0
    ensures a % (2 * p) == 2 * (a / 2 % p) + a % 2
  {
    var q, r := a / 2 / p, a / 2 % p;
    assert a / 2 == p * q + r;
    assert 2 * (p * q) == 2 * p * q;
    DivModUnique(a, 2 * p, q, 2 * r + a % 2);
  }

  lemma MulAtLeast(d: nat, x: int)
    requires x >= 1
    ensures d * x >= d
  {
  }

  lemma DivModUnique(a: int, d: nat, q: int, r: nat)
    requires r < d && a == d * q + r
    ensures a % d == r && a / d == q
  {
    var q', r' := a / d, a % d;
    Distribute(d, q, q');
    if q > q' {
      MulAtLeast(d, q - q');
    } else if q < q' {
      MulAtLeast(d, q' - q);
      Distribute(d, q', q);
    }
  }

  lemma Distribute(d: int, x: int, y: int)
    ensures d * (x - y) == d * x - d * y
  {
  }

  lemma Pow2Of64()
    ensures Pow2(64) == WORD
  {
    assert Pow2(8) == 256;
    Pow2Divides(8, 16);
    Pow2Divides(16, 32);
    Pow2Divides(32, 64);
  }

  ghost predicate IsPow2(c: nat) {
    exists k: nat :: c == Pow2(k)
  }

  lemma Pow2Doubles(d: nat)
    requires d > 0
    ensures IsPow2(2 * d) <==> IsPow2(d)
  {
    if IsPow2(d) {
      var k: nat :| d == Pow2(k);
      assert 2 * d == Pow2(k + 1);
    }
    if IsPow2(2 * d) {
      var k: nat :| 2 * d == Pow2(k);
      assert d == Pow2(k - 1);
    }
  }

  lemma OddPow2(c: nat)
    requires c % 2 == 1
    ensures IsPow2(c) <==> c == 1
  {
    assert Pow2(0) == 1;
  }

  /**
   * The compile-time test (c & (c - 1)) == 0 accepts a positive capacity
   * exactly when it is a power of two.
   */
  lemma {:induction false} StaticAssertIsPowerOfTwo(c: nat)
    requires c > 0
    ensures BitAnd(c, c - 1) == 0 <==> IsPow2(c)
  {
    var d := c / 2;
    if c % 2 == 1 {
      // c and c - 1 share every digit but the last
      OddPow2(c);
      AndSelf(d);
    } else {
      StaticAssertIsPowerOfTwo(d);
      Pow2Doubles(d);
      assert (c - 1) / 2 == d - 1;
    }
  }

  /** The same test on any 64-bit value, c - 1 wrapping: 0 passes too, and no other value. */
  lemma StaticAssertAccepts(c: nat)
    requires c < WORD
    ensures BitAnd(c, Wrap(c - 1)) == 0 <==> c == 0 || IsPow2(c)
  {
    hide IsPow2;
    if c > 0 {
      assert Wrap(c - 1) == c - 1;
      hide Wrap, BitAnd;
      StaticAssertIsPowerOfTwo(c);
    } else {
      assert BitAnd(0, Wrap(-1)) == 0;
    }
  }

  lemma {:induction false} AndSelf(a: nat)
    ensures BitAnd(a, a) == a
  {
    if a > 0 {
      AndSelf(a / 2);
    }
  }

  lemma Pow2Divides(k: nat, m: nat)
    requires k <= m
    ensures Pow2(m) == Pow2(k) * Pow2(m - k)
    ensures Pow2(k) <= Pow2(m)
    decreases m
  {
    if k < m {
      Pow2Divides(k, m - 1);
      assert Pow2(k) * (2 * Pow2(m - 1 - k)) == 2 * (Pow2(k) * Pow2(m - 1 - k));
    }
  }

  /** Reducing a counter modulo 2^64 first does not change it modulo a smaller power of two. */
  lemma WrapKeepsResidue(n: nat, k: nat)
    requires k <= 63
    ensures Wrap(n) % Pow2(k) == n % Pow2(k)
    ensures 2 * Pow2(k) <= WORD
  {
    Pow2Of64();
    Pow2Divides(k, 64);
    Pow2Divides(k + 1, 64);
    ResidueOfResidue(n, Pow2(k), Pow2(64 - k));
  }

  lemma ResidueOfResidue(n: nat, c: nat, m: nat)
    requires c > 0 && m > 0
    ensures c * m > 0
    ensures n % (c * m) % c == n % c
  {
    MulAtLeast(c, m);
    var q, w := n / (c * m), n % (c * m);
    calc {
      n;
      (c * m) * q + w;
      { assert (c * m) * q == c * (m * q); }
      c * (m * q) + w;
      c * (m * q) + (c * (w / c) + w % c);
      { Distribute(c, m * q, -(w / c)); }
      c * (m * q + w / c) + w % c;
    }
    DivModUnique(n, c, m * q + w / c, w % c);
  }

  /** The wrapped difference of two wrapped counters less than 2^64 apart is their true distance. */
  lemma WrappedDistance(h: nat, t: nat)
    requires t <= h < t + WORD
    ensures Wrap(Wrap(h) - Wrap(t)) == h - t
  {
  }

  /** Advancing the trailing index by one brings the wrapped distance down by one. */
  lemma WrappedDistanceDrops(head: nat, tail: nat)
    requires head < WORD && tail < WORD && head != tail
    ensures Wrap(head - Wrap(tail + 1)) == Wrap(head - tail) - 1
  {
  }

  /** Masked and wrapped, a counter still selects its residue modulo the capacity. */
  lemma SlotOfCounter(n: nat, k: nat)
    requires k <= 63
    ensures BitAnd(Wrap(n), Pow2(k) - 1) == n % Pow2(k)
  {
    MaskIsMod(Wrap(n), k);
    WrapKeepsResidue(n, k);
  }

  /** Two counters less than c apart with the same residue modulo c are equal. */
  lemma ResidueInjective(i: nat, j: nat, c: nat)
    requires c > 0 && i <= j < i + c && i % c == j % c
    ensures i == j
  {
    Distribute(c, j / c, i / c);
    if j / c > i / c {
      MulAtLeast(c, j / c - i / c);
    } else if j / c < i / c {
      MulAtLeast(c, i / c - j / c);
      Distribute(c, i / c, j / c);
    }
  }

  lemma ResidueShift(i: nat, c: nat)
    requires c > 0
    ensures (i + c) % c == i % c
  {
    assert i == c * (i / c) + i % c;
    assert i + c == c * (i / c + 1) + i % c;
    DivModUnique(i + c, c, i / c + 1, i % c);
  }
}
