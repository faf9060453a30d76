/** Octets as bit vectors, and their conversion to and from lengths. */
module Octets {

  type Octet = bv8
  type Word = bv16

  /** `static_cast<std::uint8_t>`: counting up and wrapping at 256. */
  function ToOctet(n: nat): Octet {
    if n == 0 then 0 else ToOctet(n - 1) + 1
  }

  /** The number an octet stands for. */
  function ToNat(b: Octet): nat {
    if b == 0 then 0 else ToNat(b - 1) + 1
  }

  lemma {:induction false} ToNatIsValue(b: Octet)
    ensures ToNat(b) == b as int
  {
    if b != 0 {
      ToNatIsValue(b - 1);
      assert (b - 1) as int + 1 == b as int;
    }
  }

  lemma NoOverflow(b: Octet)
    requires b as int < 255
    ensures b + 1 != 0
  {
  }

  /** A length of at most 255 survives its octet. */
  lemma {:induction false} LengthSurvives(n: nat)
    requires n <= 255
    ensures ToNat(ToOctet(n)) == n
  {
    if n > 0 {
      LengthSurvives(n - 1);
      ToNatIsValue(ToOctet(n - 1));
      NoOverflow(ToOctet(n - 1));
      assert ToOctet(n) - 1 == ToOctet(n - 1);
    }
  }

  lemma ValueBound(b: Octet)
    ensures b as int <= 255
  {
  }

  lemma {:induction false} OctetSurvives(b: Octet)
    ensures ToOctet(ToNat(b)) == b && ToNat(b) <= 255
  {
    if b != 0 {
      OctetSurvives(b - 1);
    }
    ToNatIsValue(b);
    ValueBound(b);
  }

  function High(x: Word): Octet { (x >> 8) as bv8 }

  function Low(x: Word): Octet { (x & 0xFF) as bv8 }

  /** Two octets read as a big-endian word. */
  function Join(high: Octet, low: Octet): Word { ((high as bv16) << 8) | (low as bv16) }

  lemma JoinSplits(x: Word)
    ensures Join(High(x), Low(x)) == x
  {
  }

  lemma SplitJoins(high: Octet, low: Octet)
    ensures High(Join(high, low)) == high && Low(Join(high, low)) == low
  {
  }

  /** Copies octets into a buffer at an offset, leaving the rest as it was. */
  method WriteOctets(dest: array<Octet>, offset: nat, octets: seq<Octet>)
    requires offset + |octets| <= dest.Length
    modifies dest
    ensures forall j :: 0 <= j < offset || offset + |octets| <= j < dest.Length ==> dest[j] == old(dest[j])
    ensures dest[offset..offset + |octets|] == octets
  {
    for i := 0 to |octets|
      invariant forall j :: 0 <= j < offset || offset + i <= j < dest.Length ==> dest[j] == old(dest[j])
      invariant dest[offset..offset + i] == octets[..i]
    {
      dest[offset + i] := octets[i];
    }
  }
}
