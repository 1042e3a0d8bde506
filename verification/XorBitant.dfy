/**
 * The 64-bit xorshift generator on words of bits, least significant bit first: its
 * state step is a linear permutation, every orbit is a cycle, and the 32-bit output is
 * a bijection of the low half of the new state.
 */
module XorBitant {
  import opened Words

  const BITS: nat := 64

  type Bits = seq<bool>

  function Xor(x: Bits, y: Bits): (r: Bits)
    requires |x| == |y|
    ensures |r| == |x|
    ensures forall i :: 0 <= i < |r| ==> r[i] == (x[i] != y[i])
  {
    seq(|x|, i requires 0 <= i < |x| => x[i] != y[i])
  }

  /** x << k: bits move up, zeros come in, the top bits are lost. */
  function Left(x: Bits, k: nat): (r: Bits)
    ensures |r| == |x|
    ensures forall i :: 0 <= i < |r| ==> r[i] == (i >= k && x[i - k])
  {
    seq(|x|, i requires 0 <= i < |x| => i >= k && x[i - k])
  }

  /** x >> k, unsigned. */
  function Right(x: Bits, k: nat): (r: Bits)
    ensures |r| == |x|
    ensures forall i :: 0 <= i < |r| ==> r[i] == (i + k < |x| && x[i + k])
  {
    seq(|x|, i requires 0 <= i < |x| => i + k < |x| && x[i + k])
  }

  datatype Shift = ShiftLeft(k: nat) | ShiftRight(k: nat) {
    function By(x: Bits): (r: Bits)
      ensures |r| == |x|
    {
      if ShiftLeft? then Left(x, k) else Right(x, k)
    }

    function Twice(): Shift {
      if ShiftLeft? then ShiftLeft(2 * k) else ShiftRight(2 * k)
    }
  }

  /** x ^= x << k, or x ^= x >> k. */
  function Fold(x: Bits, s: Shift): (r: Bits)
    ensures |r| == |x|
  {
    Xor(x, s.By(x))
  }

  /** The inverse of Fold: fold again with the shift doubled, until it shifts everything out. */
  function Undo(y: Bits, s: Shift): (r: Bits)
    requires s.k > 0
    ensures |r| == |y|
    decreases if s.k < |y| then |y| - s.k else 0
  {
    if s.k >= |y| then y else Undo(Fold(y, s), s.Twice())
  }

  /** The bit that lands on position i. */
  predicate Incoming(x: Bits, s: Shift, i: nat)
    requires i < |x|
  {
    if s.ShiftLeft? then i >= s.k && x[i - s.k] else i + s.k < |x| && x[i + s.k]
  }

  lemma FoldAt(x: Bits, s: Shift, i: nat)
    requires i < |x|
    ensures Fold(x, s)[i] == (x[i] != Incoming(x, s, i))
  {
  }

  lemma FoldTwice(x: Bits, s: Shift)
    ensures Fold(Fold(x, s), s) == Fold(x, s.Twice())
  {
    hide Fold;
    var y := Fold(x, s);
    forall i | 0 <= i < |x| ensures Fold(y, s)[i] == Fold(x, s.Twice())[i] {
      FoldAt(y, s, i);
      FoldAt(x, s, i);
      FoldAt(x, s.Twice(), i);
      var j := if s.ShiftLeft? then i - s.k else i + s.k;
      if 0 <= j < |x| {
        FoldAt(x, s, j);
      }
    }
  }

  /** Bit i of two folds in the same direction: symmetric in the two shifts. */
  lemma FoldsAt(x: Bits, s: Shift, t: Shift, i: nat)
    requires s.ShiftLeft? == t.ShiftLeft? && i < |x|
    ensures Fold(Fold(x, s), t)[i] ==
            (((x[i] != Incoming(x, s, i)) != Incoming(x, t, i)) != Incoming(x, Both(s, t), i))
  {
    hide Fold;
    var y := Fold(x, s);
    FoldAt(y, t, i);
    FoldAt(x, s, i);
    var j := if t.ShiftLeft? then i - t.k else i + t.k;
    if 0 <= j < |x| {
      FoldAt(x, s, j);
    }
  }

  function Both(s: Shift, t: Shift): Shift {
    s.(k := s.k + t.k)
  }

  lemma FoldsCommute(x: Bits, s: Shift, t: Shift)
    requires s.ShiftLeft? == t.ShiftLeft?
    ensures Fold(Fold(x, s), t) == Fold(Fold(x, t), s)
  {
    hide Fold;
    assert Both(s, t) == Both(t, s);
    forall i | 0 <= i < |x| ensures Fold(Fold(x, s), t)[i] == Fold(Fold(x, t), s)[i] {
      hide Incoming, Both;
      FoldsAt(x, s, t, i);
      FoldsAt(x, t, s, i);
    }
  }

  lemma FoldOut(x: Bits, s: Shift)
    requires s.k >= |x|
    ensures Fold(x, s) == x
  {
  }

  lemma {:induction false} UndoFold(x: Bits, s: Shift)
    requires s.k > 0
    ensures Undo(Fold(x, s), s) == x
    decreases if s.k < |x| then |x| - s.k else 0
  {
    if s.k >= |x| {
      FoldOut(x, s);
    } else {
      FoldTwice(x, s);
      UndoFold(x, s.Twice());
    }
  }

  lemma {:induction false} FoldUndoCommute(x: Bits, s: Shift, t: Shift)
    requires s.k > 0 && s.ShiftLeft? == t.ShiftLeft?
    ensures Fold(Undo(x, s), t) == Undo(Fold(x, t), s)
    decreases if s.k < |x| then |x| - s.k else 0
  {
    if s.k < |x| {
      FoldsCommute(x, s, t);
      FoldUndoCommute(Fold(x, s), s.Twice(), t);
    }
  }

  /** Every xor-shift assignment is a permutation of the words of its width, undone by Undo. */
  lemma FoldIsPermutation(x: Bits, s: Shift)
    requires s.k > 0
    ensures Undo(Fold(x, s), s) == x && Fold(Undo(x, s), s) == x
  {
    UndoFold(x, s);
    FoldUndoCommute(x, s, s);
  }

  // ------------------------------------------------------------------- the generator

  /** One call's effect on the state, and its explicit inverse. */
  function Next(x: Bits): (r: Bits)
    ensures |r| == |x|
  {
    Fold(Fold(Fold(x, ShiftLeft(13)), ShiftRight(7)), ShiftLeft(5))
  }

  function Previous(y: Bits): (r: Bits)
    ensures |r| == |y|
  {
    Undo(Undo(Undo(y, ShiftLeft(5)), ShiftRight(7)), ShiftLeft(13))
  }

  /** Bit k of x, 0 beyond its ends. */
  predicate Bit(x: Bits, k: int) {
    0 <= k < |x| && x[k]
  }

  /** Bit k of x ^= x << 13, and of that ^= itself >> 7, by bits of x. */
  predicate First(x: Bits, k: int) {
    Bit(x, k) != Bit(x, k - 13)
  }

  predicate Second(x: Bits, k: int) {
    First(x, k) != (k + 7 < |x| && Bit(x, k + 7) != Bit(x, k - 6))
  }

  /** Every bit of the next state, as a sum of at most eight bits of the state. */
  lemma NextBit(x: Bits, i: nat)
    requires i < |x|
    ensures Next(x)[i] == (Second(x, i) != (i >= 5 && Second(x, i - 5)))
  {
    hide Fold;
    var y := Fold(x, ShiftLeft(13));
    var z := Fold(y, ShiftRight(7));
    forall k | 0 <= k < |x| ensures y[k] == First(x, k) {
      FoldAt(x, ShiftLeft(13), k);
    }
    forall k | 0 <= k < |x| ensures z[k] == Second(x, k) {
      FoldAt(y, ShiftRight(7), k);
      assert k + 7 < |x| ==> y[k + 7] == First(x, k + 7);
    }
    FoldAt(z, ShiftLeft(5), i);
    assert i >= 5 ==> z[i - 5] == Second(x, i - 5);
  }

  lemma StepIsPermutation(x: Bits)
    ensures Previous(Next(x)) == x && Next(Previous(x)) == x
  {
    hide Fold, Undo;
    var a := Fold(x, ShiftLeft(13));
    FoldIsPermutation(x, ShiftLeft(13));
    FoldIsPermutation(a, ShiftRight(7));
    FoldIsPermutation(Fold(a, ShiftRight(7)), ShiftLeft(5));
    var b := Undo(x, ShiftLeft(5));
    FoldIsPermutation(x, ShiftLeft(5));
    FoldIsPermutation(b, ShiftRight(7));
    FoldIsPermutation(Undo(b, ShiftRight(7)), ShiftLeft(13));
  }

  lemma FoldIsLinear(x: Bits, y: Bits, s: Shift)
    requires |x| == |y|
    ensures Fold(Xor(x, y), s) == Xor(Fold(x, s), Fold(y, s))
  {
  }

  /** The step is linear over GF(2). */
  lemma StepIsLinear(x: Bits, y: Bits)
    requires |x| == |y|
    ensures Next(Xor(x, y)) == Xor(Next(x), Next(y))
  {
    hide Fold, Xor;
    FoldIsLinear(x, y, ShiftLeft(13));
    var a, b := Fold(x, ShiftLeft(13)), Fold(y, ShiftLeft(13));
    FoldIsLinear(a, b, ShiftRight(7));
    FoldIsLinear(Fold(a, ShiftRight(7)), Fold(b, ShiftRight(7)), ShiftLeft(5));
  }

  // ---------------------------------------------------------------------------- runs

  /** The state after n calls. */
  function Iterate(x: Bits, n: nat): (r: Bits)
    ensures |r| == |x|
  {
    if n == 0 then x else Next(Iterate(x, n - 1))
  }

  /** Distinct seeds stay distinct forever. */
  lemma {:induction false} SeedsStayDistinct(x: Bits, y: Bits, n: nat)
    ensures Iterate(x, n) == Iterate(y, n) <==> x == y
  {
    hide Next, Previous;
    if n > 0 {
      SeedsStayDistinct(x, y, n - 1);
      StepIsPermutation(Iterate(x, n - 1));
      StepIsPermutation(Iterate(y, n - 1));
    }
  }

  function Zero(n: nat): (z: Bits)
    ensures |z| == n && forall i :: 0 <= i < n ==> !z[i]
  {
    seq(n, _ => false)
  }

  lemma NextOfZero(w: nat)
    ensures Next(Zero(w)) == Zero(w)
  {
  }

  lemma {:induction false} ZeroIsFixed(w: nat, n: nat)
    ensures Iterate(Zero(w), n) == Zero(w)
  {
    hide Next, Zero;
    if n > 0 {
      ZeroIsFixed(w, n - 1);
      NextOfZero(w);
    }
  }

  /** A run reaches zero exactly when it starts there. */
  lemma OnlyZeroReachesZero(x: Bits, n: nat)
    ensures Iterate(x, n) == Zero(|x|) <==> x == Zero(|x|)
  {
    ZeroIsFixed(|x|, n);
    SeedsStayDistinct(x, Zero(|x|), n);
  }

  lemma {:induction false} IterateAdds(x: Bits, m: nat, n: nat)
    ensures Iterate(x, m + n) == Iterate(Iterate(x, m), n)
    decreases n
  {
    hide Next;
    if n > 0 {
      IterateAdds(x, m, n - 1);
      assert m + n - 1 == m + (n - 1);
    }
  }

  /** The unsigned number a word stands for. */
  function Value(x: Bits): (v: nat)
    ensures v < Pow2(|x|)
  {
    if x == [] then 0 else (if x[0] then 1 else 0) + 2 * Value(x[1..])
  }

  lemma {:induction false} ValueIsInjective(x: Bits, y: Bits)
    requires |x| == |y| && Value(x) == Value(y)
    ensures x == y
    decreases |x|
  {
    if x != [] {
      ValueIsInjective(x[1..], y[1..]);
      assert x == [x[0]] + x[1..] && y == [y[0]] + y[1..];
    }
  }

  /** More than n numbers below n cannot all be different. */
  lemma {:induction false} Pigeonhole(s: seq<nat>, n: nat) returns (i: nat, j: nat)
    requires |s| > n && forall k :: 0 <= k < |s| ==> s[k] < n
    ensures i < j < |s| && s[i] == s[j]
    decreases n
  {
    var last := |s| - 1;
    if k :| 0 <= k < last && s[k] == s[last] {
      i, j := k, last;
    } else {
      // Give the largest number the last element's place, then drop the last.
      assert s[last] < n;
      var t: seq<nat> := seq(last, k requires 0 <= k < last => if s[k] == n - 1 then s[last] else s[k]);
      i, j := Pigeonhole(t, n - 1);
    }
  }

  /** Every orbit is purely periodic: the run from any seed comes back to that very seed. */
  lemma {:induction false} OrbitIsCycle(x: Bits) returns (p: nat)
    ensures 0 < p <= Pow2(|x|)
    ensures forall n: nat :: Iterate(x, n + p) == Iterate(x, n)
  {
    hide Next, Value, Pow2, Iterate;
    var m := Pow2(|x|);
    var s: seq<nat> := seq(m + 1, k requires 0 <= k < m + 1 => Value(Iterate(x, k)));
    var i, j := Pigeonhole(s, m);
    ValueIsInjective(Iterate(x, i), Iterate(x, j));
    p := j - i;
    IterateAdds(x, p, i);
    assert Iterate(x, p + i) == Iterate(x, j);
    SeedsStayDistinct(Iterate(x, p), x, i);
    forall n: nat ensures Iterate(x, n + p) == Iterate(x, n) {
      IterateAdds(x, p, n);
    }
  }

  // -------------------------------------------------------------------------- output

  const MAGIC_MULTIPLIER: nat := 0x9E37_79B9_7F4A_7C15
  const HALF: nat := 0x1_0000_0000

  /** static_cast<uint32_t>(x * MAGIC_MULTIPLIER), the product taken in 64 bits. */
  function Output(x: Bits): (r: nat)
    ensures r < HALF
  {
    Wrap(Value(x) * MAGIC_MULTIPLIER) % HALF
  }

  /** The multiplier's inverse modulo 2^32. */
  const INVERSE: nat := 0x9937_733D

  lemma {:induction false} ValueSplits(x: Bits, k: nat)
    requires k <= |x|
    ensures Value(x) == Value(x[..k]) + Pow2(k) * Value(x[k..])
    decreases |x|
  {
    if k == 0 {
      assert x[0..] == x;
    } else {
      hide Value;
      ValueSplits(x[1..], k - 1);
      ValueCons(x);
      ValueCons(x[..k]);
      assert x[1..][..k - 1] == x[..k][1..] && x[1..][k - 1..] == x[k..];
      var p := Pow2(k - 1);
      assert Pow2(k) == 2 * p;
      hide Pow2;
      DoubleProduct(p, Value(x[k..]));
    }
  }

  lemma ValueCons(x: Bits)
    requires x != []
    ensures Value(x) == (if x[0] then 1 else 0) + 2 * Value(x[1..])
  {
  }

  lemma DoubleProduct(p: nat, v: nat)
    ensures 2 * (p * v) == (2 * p) * v
  {
  }

  lemma {:induction false} ValueOfZeros(z: Bits)
    requires forall i :: 0 <= i < |z| ==> !z[i]
    ensures Value(z) == 0
    decreases |z|
  {
    if z != [] {
      ValueOfZeros(z[1..]);
    }
  }

  /** The shifts on bits are the shifts on numbers: a wrapping product and a quotient. */
  lemma LeftIsProduct(x: Bits, k: nat)
    requires k <= |x|
    ensures Value(Left(x, k)) == Value(x) * Pow2(k) % Pow2(|x|)
  {
    hide Value, Pow2;
    var y, cut := Left(x, k), |x| - k;
    ValueSplits(y, k);
    ValueOfZeros(y[..k]);
    assert y[k..] == x[..cut];
    ValueSplits(x, cut);
    Pow2Divides(k, |x|);
    ProductSplits(Pow2(k), Value(x[..cut]), Pow2(cut), Value(x[cut..]));
    DivModUnique(Value(x) * Pow2(k), Pow2(|x|), Value(x[cut..]), Value(y));
  }

  lemma ProductSplits(p: nat, low: nat, q: nat, high: nat)
    ensures (low + q * high) * p == (p * q) * high + p * low
  {
  }

  lemma RightIsQuotient(x: Bits, k: nat)
    requires k <= |x|
    ensures Value(Right(x, k)) == Value(x) / Pow2(k)
  {
    hide Value, Pow2;
    var y, cut := Right(x, k), |x| - k;
    ValueSplits(y, cut);
    ValueOfZeros(y[cut..]);
    assert y[..cut] == x[k..];
    ValueSplits(x, k);
    DivModUnique(Value(x), Pow2(k), Value(x[k..]), Value(x[..k]));
  }

  lemma Pow2Of32()
    ensures Pow2(32) == HALF
  {
    assert Pow2(8) == 256;
    Pow2Divides(8, 16);
    Pow2Divides(16, 32);
  }

  /** Multiplying modulo 2^32 needs only the factors modulo 2^32. */
  lemma ModuloProduct(a: nat, b: nat)
    ensures (a * b) % HALF == (a % HALF * b) % HALF
  {
    var q, r := a / HALF, a % HALF;
    assert a * b == HALF * (q * b) + r * b by {
      assert a == HALF * q + r;
      assert (HALF * q) * b == HALF * (q * b);
    }
    var t := r * b;
    assert a * b == HALF * (q * b + t / HALF) + t % HALF;
  }

  /** The low half of the state, as a number. */
  function LowHalf(x: Bits): nat
    requires |x| == BITS
  {
    Value(x[..32])
  }

  lemma LowHalfIsResidue(x: Bits)
    requires |x| == BITS
    ensures LowHalf(x) == Value(x) % HALF
  {
    Pow2Of32();
    ValueSplits(x, 32);
    DivModUnique(Value(x), HALF, Value(x[32..]), LowHalf(x));
  }

  /**
   * The output is a bijection of the low half of the state: each determines the other,
   * by multiplication modulo 2^32 with the multiplier and with its inverse.
   */
  lemma OutputIsBijection(x: Bits)
    requires |x| == BITS
    ensures Output(x) == LowHalf(x) * MAGIC_MULTIPLIER % HALF
    ensures LowHalf(x) == Output(x) * INVERSE % HALF
  {
    LowHalfIsResidue(x);
    ScrambleUndone(Value(x));
  }

  lemma ScrambleUndone(v: nat)
    ensures Wrap(v * MAGIC_MULTIPLIER) % HALF == v % HALF * MAGIC_MULTIPLIER % HALF
    ensures v % HALF == Wrap(v * MAGIC_MULTIPLIER) % HALF * INVERSE % HALF
  {
    var m, w := MAGIC_MULTIPLIER, v * MAGIC_MULTIPLIER;
    ResidueOfResidue(w, HALF, HALF);
    ModuloProduct(v, m);
    ModuloProduct(w, INVERSE);
    Unscramble(v);
  }

  lemma Unscramble(v: nat)
    ensures (v * MAGIC_MULTIPLIER) * INVERSE % HALF == v % HALF
  {
  }

  /** Every 32-bit number is the output of some low half. */
  lemma EveryOutputOccurs(r: nat)
    requires r < HALF
    ensures (r * INVERSE % HALF) * MAGIC_MULTIPLIER % HALF == r
  {
    ModuloProduct(r * INVERSE, MAGIC_MULTIPLIER);
    assert (r * INVERSE) * MAGIC_MULTIPLIER == (r * MAGIC_MULTIPLIER) * INVERSE;
    Unscramble(r);
  }

  class Generator {
    var state: Bits

    ghost predicate Valid()
      reads this
    {
      |state| == BITS
    }

    constructor (seed: Bits)
      requires |seed| == BITS
      ensures Valid() && state == seed
    {
      state := seed;
    }

    /** operator() */
    method Call() returns (out: nat)
      requires Valid()
      modifies this
      ensures Valid() && state == Next(old(state)) && out == Output(state)
    {
      var x := state;
      x := Xor(x, Left(x, 13));
      x := Xor(x, Right(x, 7));
      x := Xor(x, Left(x, 5));
      state := x;
      out := Wrap(Value(x) * MAGIC_MULTIPLIER) % HALF;
    }
  }
}
