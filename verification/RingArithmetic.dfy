/**
The index arithmetic of the ring: rounding a capacity up to a power of two, and the
masked unsigned operations on ring indices.

Indices are 64-bit words. `Wrap(i, n)` is the ring index of the `i`-th element ever
pushed; the lemmas say that the masked operations on indices compute the ordinary ones
on the unbounded counts behind them.
*/
module RingArithmetic {
  import opened Bits

  /** The number of values of `std::size_t`, and half of it: the largest ring size. */
  const WORD: nat := 0x1_0000_0000_0000_0000
  const HALF_WORD: nat := 0x8000_0000_0000_0000

  /** Unsigned addition on `std::size_t`, wrapping at 2^64. */
  function AddWord(x: nat, y: nat): nat
    requires x < WORD && y < WORD
  {
    if x + y < WORD then x + y else x + y - WORD
  }

  /** Unsigned subtraction on `std::size_t`, wrapping at 2^64. */
  function SubWord(x: nat, y: nat): nat
    requires x < WORD && y < WORD
  {
    if y <= x then x - y else x + WORD - y
  }

  lemma Pow2Plus8(k: nat)
    ensures Pow2(k + 8) == 0x100 * Pow2(k)
  {
    assert Pow2(k + 2) == 4 * Pow2(k);
    assert Pow2(k + 4) == 4 * Pow2(k + 2);
    assert Pow2(k + 6) == 4 * Pow2(k + 4);
  }

  lemma Pow2Plus32(k: nat)
    ensures Pow2(k + 32) == 0x1_0000_0000 * Pow2(k)
  {
    Pow2Plus8(k);
    Pow2Plus8(k + 8);
    Pow2Plus8(k + 16);
    Pow2Plus8(k + 24);
  }

  lemma WordIsPow2(w: nat)
    requires w == 64
    ensures Pow2(w) == WORD && Pow2(w - 1) == HALF_WORD
  {
    Pow2Plus32(w - 32);
    Pow2Plus32(w - 64);
  }

  /** A power of two below 2^64 is at most 2^63, and its exponent is below 64. */
  lemma Pow2BelowWord(k: nat)
    ensures k < 64 ==> Pow2(k) <= HALF_WORD
    ensures k == 64 ==> Pow2(k) == WORD
    ensures k > 64 ==> Pow2(k) > WORD
  {
    var w: nat :| w == 64;
    WordIsPow2(w);
    if k < 64 {
      Pow2Monotone(k, w - 1);
    } else {
      Pow2Monotone(w, k);
    }
  }

  // ---------------------------------------------------------------- rounding up

  function Smear(n: nat, k: nat): nat {
    BitOr(n, ShiftRight(n, k))
  }

  /** The source's rounding: smear the top bit of `n - 1` downwards, then add one. */
  function NextPowerOfTwo(n: nat): nat
    requires n < WORD
  {
    if n < 2 then 2
    else
      var n1 := Smear(n - 1, 1);
      var n2 := Smear(n1, 2);
      var n3 := Smear(n2, 4);
      var n4 := Smear(n3, 8);
      var n5 := Smear(n4, 16);
      var n6 := Smear(n5, 32);
      if n6 < WORD then AddWord(n6, 1) else 0
  }

  /** `n` has exactly `len` bits and its top `ones` bits are all set. */
  ghost predicate TopOnes(n: nat, len: nat, ones: nat) {
    ones <= len && Pow2(len) - Pow2(len - ones) <= n < Pow2(len)
  }

  function Min(x: nat, y: nat): nat {
    if x <= y then x else y
  }

  lemma {:induction false} BitLength(n: nat) returns (len: nat)
    requires n > 0
    ensures len >= 1 && TopOnes(n, len, 1)
  {
    if n == 1 {
      len := 1;
    } else {
      var l := BitLength(n / 2);
      len := l + 1;
    }
  }

  lemma {:induction false} ShiftHalf(n: nat, k: nat)
    ensures ShiftRight(n, k) / 2 == ShiftRight(n / 2, k)
    decreases k
  {
    if k > 0 {
      ShiftHalf(n / 2, k - 1);
    }
  }

  lemma {:induction false} ShiftTopOnes(n: nat, len: nat, ones: nat, k: nat)
    requires TopOnes(n, len, ones) && k <= len
    ensures TopOnes(ShiftRight(n, k), len - k, Min(ones, len - k))
    decreases k
  {
    if k > 0 {
      if ones == len {
        assert Pow2(0) == 1;
        ShiftTopOnes(n / 2, len - 1, len - 1, k - 1);
      } else {
        ShiftTopOnes(n / 2, len - 1, ones, k - 1);
      }
    }
  }

  /** One smearing step doubles the run of ones at the top. */
  lemma {:induction false} SmearDoubles(n: nat, len: nat, ones: nat)
    requires TopOnes(n, len, ones) && ones >= 1
    ensures TopOnes(Smear(n, ones), len, Min(2 * ones, len))
    decreases len
  {
    var shifted := ShiftRight(n, ones);
    ShiftTopOnes(n, len, ones, ones);
    Pow2Monotone(len - ones, len);
    OrBounds(n, shifted, len);
    assert Pow2(0) == 1;
    if ones < len {
      SmearDoubles(n / 2, len - 1, ones);
      ShiftHalf(n, ones);
      if 2 * ones >= len {
        assert shifted == Pow2(len - ones) - 1;
        assert Smear(n / 2, ones) == Pow2(len - 1) - 1;
        assert Smear(n, ones) == 2 * Smear(n / 2, ones) + 1;
      } else {
        assert Smear(n, ones) >= 2 * Smear(n / 2, ones);
      }
    }
  }

  /** Smearing by 1, 2, 4, 8, 16 and 32 fills every bit of a word below its top one. */
  lemma SmearFills(n: nat, len: nat)
    requires TopOnes(n, len, 1) && 1 <= len <= 64
    ensures Smear(Smear(Smear(Smear(Smear(Smear(n, 1), 2), 4), 8), 16), 32) == Pow2(len) - 1
  {
    var ones := 1;
    var cur := n;
    cur, ones := SmearNext(cur, len, ones, 1);
    cur, ones := SmearNext(cur, len, ones, 2);
    cur, ones := SmearNext(cur, len, ones, 4);
    cur, ones := SmearNext(cur, len, ones, 8);
    cur, ones := SmearNext(cur, len, ones, 16);
    cur, ones := SmearNext(cur, len, ones, 32);
    assert Pow2(0) == 1;
  }

  /** Once the run of ones spans the word, further steps change nothing. */
  lemma SmearNext(n: nat, len: nat, ones: nat, k: nat) returns (n': nat, ones': nat)
    requires TopOnes(n, len, ones) && 1 <= len && k >= 1 && ones == Min(k, len)
    ensures n' == Smear(n, k) && ones' == Min(2 * k, len)
    ensures TopOnes(n', len, ones')
  {
    n', ones' := Smear(n, k), Min(2 * k, len);
    assert Pow2(0) == 1;
    if k <= len {
      SmearDoubles(n, len, k);
    } else {
      ShiftTopOnes(n, len, len, len);
      ShiftPast(n, len, k);
    }
  }

  lemma {:induction false} ShiftPast(n: nat, len: nat, k: nat)
    requires n < Pow2(len) && len <= k
    ensures ShiftRight(n, k) == 0
    decreases k
  {
    if k > 0 {
      ShiftPast(n / 2, if len == 0 then 0 else len - 1, k - 1);
    }
  }

  /**
  For every request up to 2^63 the result is the least power of two that is at least
  `max(n, 2)`; beyond 2^63 the addition wraps and the result is zero.
  */
  lemma NextPowerOfTwoIsLeast(n: nat) returns (k: nat)
    requires n < WORD
    ensures n <= HALF_WORD ==>
              && 1 <= k < 64
              && NextPowerOfTwo(n) == Pow2(k)
              && n <= Pow2(k)
              && forall j: nat :: n <= Pow2(j) && 2 <= Pow2(j) ==> Pow2(k) <= Pow2(j)
    ensures n > HALF_WORD ==> NextPowerOfTwo(n) == 0
  {
    if n < 2 {
      k := 1;
    } else {
      k := BitLength(n - 1);
      Pow2BelowWord(k - 1);
      Pow2BelowWord(k);
      SmearFills(n - 1, k);
      forall j: nat | n <= Pow2(j) ensures Pow2(k) <= Pow2(j) {
        LeastAbove(n, k, j);
      }
    }
  }

  lemma LeastAbove(n: nat, k: nat, j: nat)
    requires k >= 1 && Pow2(k - 1) < n <= Pow2(j)
    ensures Pow2(k) <= Pow2(j)
  {
    if j < k {
      Pow2Monotone(j, k - 1);
    } else {
      Pow2Monotone(k, j);
    }
  }

  // ---------------------------------------------------------------- ring indices

  /** A ring size the constructor can produce. */
  ghost predicate RingSize(cap: nat) {
    exists k: nat :: 1 <= k < 64 && cap == Pow2(k)
  }

  /** The ring index of the `i`-th element, counting from zero: `i` modulo `n`. */
  function Wrap(i: nat, n: nat): (r: nat)
    requires n > 0
    ensures r < n
  {
    if i < n then i else Wrap(i - n, n)
  }

  /** The next index, `(i + 1) & mask`. */
  function MaskedNext(index: nat, cap: nat): nat
    requires 0 < cap <= HALF_WORD && index < cap
  {
    BitAnd(AddWord(index, 1), cap - 1)
  }

  /** The distance from one index to another, `(head - tail) & mask` in unsigned arithmetic. */
  function MaskedDistance(head: nat, tail: nat, cap: nat): nat
    requires 0 < cap <= HALF_WORD && head < cap && tail < cap
  {
    BitAnd(SubWord(head, tail), cap - 1)
  }

  lemma RingSizeBounds(cap: nat)
    requires RingSize(cap)
    ensures 2 <= cap <= HALF_WORD
  {
    var k: nat :| 1 <= k < 64 && cap == Pow2(k);
    Pow2BelowWord(k);
  }

  lemma {:induction false} WrapNext(i: nat, n: nat)
    requires n > 0
    ensures Wrap(i + 1, n) == if Wrap(i, n) + 1 == n then 0 else Wrap(i, n) + 1
  {
    if i >= n {
      WrapNext(i - n, n);
    }
  }

  /** Indices of two counts less than a lap apart differ by the counts' distance, up to one lap. */
  lemma {:induction false} WrapDistance(p: nat, c: nat, n: nat)
    requires n > 0 && c <= p < c + n
    ensures p - c == if Wrap(c, n) <= Wrap(p, n) then Wrap(p, n) - Wrap(c, n)
                     else Wrap(p, n) + n - Wrap(c, n)
    decreases p - c
  {
    if c < p {
      WrapDistance(p - 1, c, n);
      WrapNext(p - 1, n);
    }
  }

  /** Two counts less than a lap apart share a ring index only if they are equal. */
  lemma WrapInjective(p: nat, c: nat, n: nat)
    requires n > 0 && c <= p < c + n && Wrap(p, n) == Wrap(c, n)
    ensures p == c
  {
    WrapDistance(p, c, n);
  }

  lemma MaskedIncrement(index: nat, k: nat)
    requires k < 64 && index < Pow2(k)
    ensures Pow2(k) <= HALF_WORD
    ensures BitAnd(AddWord(index, 1), Pow2(k) - 1) == if index + 1 == Pow2(k) then 0 else index + 1
  {
    Pow2BelowWord(k);
    if index + 1 < Pow2(k) {
      MaskKeeps(index + 1, k);
    } else {
      MaskWraps(k);
    }
  }

  lemma MaskedSubtraction(h: nat, t: nat, k: nat)
    requires k < 64 && h < Pow2(k) && t < Pow2(k)
    ensures Pow2(k) <= HALF_WORD
    ensures BitAnd(SubWord(h, t), Pow2(k) - 1) == if t <= h then h - t else h + Pow2(k) - t
  {
    Pow2BelowWord(k);
    if t <= h {
      MaskKeeps(h - t, k);
    } else {
      var w := 64;
      Pow2BelowWord(w);
      MaskNarrows(w, k, t - h);
    }
  }

  lemma MaskedNextIsWrap(i: nat, cap: nat)
    requires RingSize(cap)
    ensures cap <= HALF_WORD
    ensures MaskedNext(Wrap(i, cap), cap) == Wrap(i + 1, cap)
  {
    RingSizeBounds(cap);
    var k: nat :| 1 <= k < 64 && cap == Pow2(k);
    WrapNext(i, cap);
    MaskedIncrement(Wrap(i, cap), k);
  }

  lemma MaskedDistanceOnRing(head: nat, tail: nat, cap: nat)
    requires RingSize(cap) && head < cap && tail < cap
    ensures cap <= HALF_WORD
    ensures MaskedDistance(head, tail, cap) == if tail <= head then head - tail else head + cap - tail
  {
    RingSizeBounds(cap);
    var k: nat :| 1 <= k < 64 && cap == Pow2(k);
    MaskedSubtraction(head, tail, k);
  }

  /** The masked unsigned difference of two indices is the true distance of the counts behind them. */
  lemma MaskedDistanceIsDifference(p: nat, c: nat, cap: nat)
    requires RingSize(cap) && c <= p < c + cap
    ensures cap <= HALF_WORD
    ensures MaskedDistance(Wrap(p, cap), Wrap(c, cap), cap) == p - c
  {
    RingSizeBounds(cap);
    MaskedDistanceOnRing(Wrap(p, cap), Wrap(c, cap), cap);
    WrapDistance(p, c, cap);
  }

  /** The index arithmetic of a pop: one past the tail, and the distance left to the head. */
  lemma AfterPop(p: nat, c: nat, cap: nat)
    requires RingSize(cap) && c < p < c + cap
    ensures cap <= HALF_WORD
    ensures MaskedNext(Wrap(c, cap), cap) == Wrap(c + 1, cap)
    ensures MaskedDistance(Wrap(p, cap), Wrap(c + 1, cap), cap) == p - c - 1
  {
    MaskedNextIsWrap(c, cap);
    MaskedDistanceIsDifference(p, c + 1, cap);
  }

  /** "Next write position equals read position" holds exactly when every usable slot is taken. */
  lemma FullTest(p: nat, c: nat, cap: nat)
    requires RingSize(cap) && c <= p < c + cap
    ensures cap <= HALF_WORD
    ensures MaskedNext(Wrap(p, cap), cap) == Wrap(c, cap) <==> p - c == cap - 1
  {
    MaskedNextIsWrap(p, cap);
    if p + 1 == c + cap {
      assert Wrap(c + cap, cap) == Wrap(c, cap);
    } else if Wrap(p + 1, cap) == Wrap(c, cap) {
      WrapInjective(p + 1, c, cap);
    }
  }
}
