/**
Bitwise operations on unsigned machine words, written over `nat`.

A word of width `w` is a natural number below `Pow2(w)`. The operators are the ones the
ring buffer and the address types use, each defined bit by bit; the lemmas turn them into
the additions, remainders and differences the rest of the project reasons with.
*/
module Bits {

  function Pow2(k: nat): (r: nat)
    ensures r >= 1
    ensures k > 0 ==> r >= 2
  {
    if k == 0 then 1 else 2 * Pow2(k - 1)
  }

  /** Bitwise or. */
  function BitOr(x: nat, y: nat): nat
    decreases x + y
  {
    if x == 0 then y
    else if y == 0 then x
    else 2 * BitOr(x / 2, y / 2) + (if x % 2 == 1 || y % 2 == 1 then 1 else 0)
  }

  /** Bitwise and. */
  function BitAnd(x: nat, y: nat): nat
    decreases x + y
  {
    if x == 0 || y == 0 then 0
    else 2 * BitAnd(x / 2, y / 2) + (if x % 2 == 1 && y % 2 == 1 then 1 else 0)
  }

  /** Logical shift right. */
  function ShiftRight(x: nat, k: nat): nat
    decreases k
  {
    if k == 0 then x else ShiftRight(x / 2, k - 1)
  }

  /** Shift left on an unbounded word. */
  function ShiftLeft(x: nat, k: nat): nat
    decreases k
  {
    if k == 0 then x else 2 * ShiftLeft(x, k - 1)
  }

  lemma {:induction false} Pow2Monotone(j: nat, k: nat)
    requires j <= k
    ensures Pow2(j) <= Pow2(k)
    ensures j < k ==> Pow2(j) < Pow2(k)
    decreases k
  {
    if j < k {
      Pow2Monotone(j, k - 1);
    }
  }

  /** A mask of `k` ones keeps what lies below bit `k`, whatever is above. */
  lemma {:induction false} MaskKeepsLow(q: nat, r: nat, k: nat)
    requires r < Pow2(k)
    ensures BitAnd(ShiftLeft(q, k) + r, Pow2(k) - 1) == r
    decreases k
  {
    if k > 0 {
      MaskKeepsLow(q, r / 2, k - 1);
      var x := ShiftLeft(q, k) + r;
      assert x / 2 == ShiftLeft(q, k - 1) + r / 2;
      assert (Pow2(k) - 1) / 2 == Pow2(k - 1) - 1;
    }
  }

  lemma {:induction false} ShiftOfPow2(j: nat, k: nat)
    ensures ShiftLeft(Pow2(j), k) == Pow2(j + k)
    decreases k
  {
    if k > 0 {
      ShiftOfPow2(j, k - 1);
    }
  }

  lemma {:induction false} ShiftOfPredecessor(x: nat, k: nat)
    requires x > 0
    ensures ShiftLeft(x, k) == ShiftLeft(x - 1, k) + Pow2(k)
    decreases k
  {
    if k > 0 {
      ShiftOfPredecessor(x, k - 1);
    }
  }

  lemma {:induction false} ShiftOfZero(k: nat)
    ensures ShiftLeft(0, k) == 0
  {
    if k > 0 {
      ShiftOfZero(k - 1);
    }
  }

  /** A word that fits under the mask is kept. */
  lemma MaskKeeps(x: nat, k: nat)
    requires x < Pow2(k)
    ensures BitAnd(x, Pow2(k) - 1) == x
  {
    ShiftOfZero(k);
    MaskKeepsLow(0, x, k);
  }

  /** One past the mask wraps to zero. */
  lemma MaskWraps(k: nat)
    ensures BitAnd(Pow2(k), Pow2(k) - 1) == 0
  {
    ShiftOfZero(k);
    ShiftOfPredecessor(1, k);
    MaskKeepsLow(1, 0, k);
  }

  /** The mask of a difference taken at a wider width is the difference at the mask's own width. */
  lemma MaskNarrows(w: nat, k: nat, d: nat)
    requires k <= w && 0 < d < Pow2(k)
    ensures Pow2(k) <= Pow2(w)
    ensures BitAnd(Pow2(w) - d, Pow2(k) - 1) == Pow2(k) - d
  {
    Pow2Monotone(k, w);
    ShiftOfPow2(w - k, k);
    ShiftOfPredecessor(Pow2(w - k), k);
    MaskKeepsLow(Pow2(w - k) - 1, Pow2(k) - d, k);
  }

  /** Or-ing a value into the zero low bits of another adds it. */
  lemma {:induction false} OrDisjointIsSum(hi: nat, lo: nat, k: nat)
    requires lo < Pow2(k)
    ensures BitOr(ShiftLeft(hi, k), lo) == ShiftLeft(hi, k) + lo
    decreases k
  {
    if k > 0 && lo > 0 {
      OrDisjointIsSum(hi, lo / 2, k - 1);
    }
  }

  /** The or of two words is at least either of them, and fits any width both fit. */
  lemma {:induction false} OrBounds(x: nat, y: nat, k: nat)
    requires x < Pow2(k) && y < Pow2(k)
    ensures x <= BitOr(x, y) < Pow2(k)
    ensures y <= BitOr(x, y)
    decreases k
  {
    if x > 0 && y > 0 {
      OrBounds(x / 2, y / 2, k - 1);
    }
  }

  /** A word is its high part shifted back up plus the low bits the mask keeps. */
  lemma {:induction false} SplitAt(x: nat, k: nat)
    ensures x == ShiftLeft(ShiftRight(x, k), k) + BitAnd(x, Pow2(k) - 1)
    ensures BitAnd(x, Pow2(k) - 1) < Pow2(k)
    decreases k
  {
    if k == 0 {
    } else {
      SplitAt(x / 2, k - 1);
      assert (Pow2(k) - 1) / 2 == Pow2(k - 1) - 1;
    }
  }

  /** The shifts of the 16-bit address layouts are scalings by powers of two. */
  lemma ShiftLeftScales(x: nat)
    ensures ShiftLeft(x, 3) == 8 * x && ShiftLeft(x, 4) == 16 * x && ShiftLeft(x, 8) == 256 * x
    ensures ShiftLeft(x, 11) == 2048 * x && ShiftLeft(x, 12) == 4096 * x
  {
    assert ShiftLeft(x, 2) == 4 * x;
    assert ShiftLeft(x, 4) == 16 * x;
    assert ShiftLeft(x, 6) == 64 * x;
    assert ShiftLeft(x, 8) == 256 * x;
    assert ShiftLeft(x, 10) == 1024 * x;
  }

  lemma SmallPowers()
    ensures Pow2(3) == 8 && Pow2(4) == 16 && Pow2(8) == 256 && Pow2(11) == 2048 && Pow2(12) == 4096
  {
    assert Pow2(8) == 256;
  }

  // Shifting right and masking are the quotient and the remainder, for the widths the address layouts use.

  lemma LowThree(x: nat)
    ensures BitAnd(x, 0x07) == x % 8
  {
    var high := ShiftRight(x, 3);
    assert Pow2(3) == 8;
    assert ShiftLeft(high, 3) == 8 * high;
    SplitAt(x, 3);
  }

  lemma LowFour(x: nat)
    ensures BitAnd(x, 0x0F) == x % 16
  {
    var high := ShiftRight(x, 4);
    assert Pow2(4) == 16;
    assert ShiftLeft(high, 4) == 16 * high;
    SplitAt(x, 4);
  }

  lemma SplitEight(x: nat)
    ensures ShiftRight(x, 8) == x / 256 && BitAnd(x, 0xFF) == x % 256
  {
    SmallPowers();
    SplitAt(x, 8);
    ShiftLeftScales(ShiftRight(x, 8));
  }

  lemma SplitEleven(x: nat)
    ensures ShiftRight(x, 11) == x / 2048 && BitAnd(x, 0x7FF) == x % 2048
  {
    SmallPowers();
    SplitAt(x, 11);
    ShiftLeftScales(ShiftRight(x, 11));
  }

  lemma HighTwelve(x: nat)
    ensures ShiftRight(x, 12) == x / 4096
  {
    SmallPowers();
    SplitAt(x, 12);
    ShiftLeftScales(ShiftRight(x, 12));
  }

  // Or-ing a field below a shifted one adds it.

  lemma OrBelowEight(x: nat, lo: nat)
    requires lo < 256
    ensures BitOr(256 * x, lo) == 256 * x + lo
  {
    SmallPowers();
    ShiftLeftScales(x);
    OrDisjointIsSum(x, lo, 8);
  }

  lemma OrBelowEleven(x: nat, lo: nat)
    requires lo < 2048
    ensures BitOr(2048 * x, lo) == 2048 * x + lo
  {
    SmallPowers();
    ShiftLeftScales(x);
    OrDisjointIsSum(x, lo, 11);
  }

  lemma OrBelowTwelve(x: nat, lo: nat)
    requires lo < 4096
    ensures BitOr(4096 * x, lo) == 4096 * x + lo
  {
    SmallPowers();
    ShiftLeftScales(x);
    OrDisjointIsSum(x, lo, 12);
  }
}
