/** Decimal text: the digit writer and reader both KNX address types share. */
module AddressText {

  import opened Results

  datatype Error = InvalidAddress | InvalidLength

  const MAX_TEXT: nat := 9
  const MAX_DIGITS: nat := 5

  predicate IsDigit(c: char) {
    '0' <= c <= '9'
  }

  /** What a digit stands for; other characters are never asked about and count as zero. */
  function DigitValue(c: char): (v: nat)
    ensures v <= 9
  {
    if IsDigit(c) then c as int - '0' as int else 0
  }

  function DigitChar(v: nat): (c: char)
    requires v <= 9
    ensures IsDigit(c) && DigitValue(c) == v
  {
    (v + '0' as int) as char
  }

  predicate AllDigits(text: string) {
    forall i :: 0 <= i < |text| ==> IsDigit(text[i])
  }

  /** A non-empty run of digits. */
  predicate Numeral(text: string) {
    text != "" && AllDigits(text)
  }

  /** The number a run of digits stands for, leading zeros allowed. */
  function Value(digits: string): nat {
    if digits == "" then 0
    else 10 * Value(digits[..|digits| - 1]) + DigitValue(digits[|digits| - 1])
  }

  /** The decimal text of a number, without leading zeros. */
  function Decimal(n: nat): (text: string)
    ensures Numeral(text)
  {
    if n < 10 then [DigitChar(n)] else Decimal(n / 10) + [DigitChar(n % 10)]
  }

  lemma {:induction false} ValueOfDecimal(n: nat)
    ensures Value(Decimal(n)) == n
  {
    var text := Decimal(n);
    var k := |text| - 1;
    if n < 10 {
      assert text[..k] == "";
    } else {
      ValueOfDecimal(n / 10);
      assert text[..k] == Decimal(n / 10);
    }
  }

  /** Fewer digits than the power of ten above the number. */
  lemma DecimalLength(n: nat)
    ensures n < 10 ==> |Decimal(n)| == 1
    ensures n < 100 ==> |Decimal(n)| <= 2
    ensures n < 1000 ==> |Decimal(n)| <= 3
    ensures n < 10000 ==> |Decimal(n)| <= 4
    ensures n < 100000 ==> |Decimal(n)| <= 5
  {
    if n >= 10 {
      DecimalLength(n / 10);
    }
  }

  /** Dropping leading zeros, but never the last digit. */
  function StripZeros(digits: string): string {
    if |digits| > 1 && digits[0] == '0' then StripZeros(digits[1..]) else digits
  }

  lemma {:induction false} ValueSplitsFirst(digits: string)
    requires AllDigits(digits) && digits != "" && digits[0] == '0'
    ensures Value(digits[1..]) == Value(digits)
    decreases |digits|
  {
    var k := |digits| - 1;
    if k == 0 {
      assert digits[..0] == "";
    } else {
      ValueSplitsFirst(digits[..k]);
      assert digits[1..][..k - 1] == digits[..k][1..];
    }
  }

  lemma {:induction false} DecimalOfPlain(digits: string)
    requires Numeral(digits) && (|digits| > 1 ==> digits[0] != '0')
    ensures Decimal(Value(digits)) == digits
    ensures |digits| > 1 ==> Value(digits) >= 10
    decreases |digits|
  {
    var k := |digits| - 1;
    var last := DigitValue(digits[k]);
    assert digits == digits[..k] + [digits[k]];
    if k == 0 {
      assert Value(digits[..0]) == 0;
    } else {
      DecimalOfPlain(digits[..k]);
      assert Value(digits[..k]) >= 1 by {
        if k == 1 {
          assert digits[..1][..0] == "";
        }
      }
    }
  }

  /** Printing the number a numeral stands for gives the numeral without its leading zeros. */
  lemma {:induction false} DecimalOfValue(digits: string)
    requires Numeral(digits)
    ensures Decimal(Value(digits)) == StripZeros(digits)
    decreases |digits|
  {
    if |digits| > 1 && digits[0] == '0' {
      ValueSplitsFirst(digits);
      DecimalOfValue(digits[1..]);
    } else {
      DecimalOfPlain(digits);
    }
  }

  lemma DecimalOfField(n: nat, digits: string)
    requires Numeral(digits) && n == Value(digits)
    ensures Decimal(n) == StripZeros(digits)
  {
    DecimalOfValue(digits);
  }

  // ---------------------------------------------------------------- writing

  /** The digits as the writer produces them, the last one first. */
  function LastFirst(n: nat): string {
    [DigitChar(n % 10)] + if n < 10 then "" else LastFirst(n / 10)
  }

  /** Read from its end, the buffer of digits is the decimal text. */
  lemma {:induction false} LastFirstMirrors(n: nat, i: nat)
    requires i < |Decimal(n)|
    ensures |LastFirst(n)| == |Decimal(n)| && LastFirst(n)[|Decimal(n)| - 1 - i] == Decimal(n)[i]
  {
    if n >= 10 {
      LastFirstMirrors(n / 10, if i < |Decimal(n / 10)| then i else 0);
    }
  }

  /** The first loop of the writer: the digits of a number, last first, into a scratch buffer. */
  method ProduceDigits(digits: array<char>, value: nat) returns (count: nat)
    requires digits.Length == MAX_DIGITS && value < 0x1_0000
    modifies digits
    ensures count <= MAX_DIGITS && digits[..count] == LastFirst(value)
  {
    LastFirstFits(value);
    ghost var text := LastFirst(value);
    digits[0] := DigitChar(value % 10);
    count := 1;
    var rest: nat := value / 10;
    while rest != 0
      invariant 1 <= count <= |text| <= MAX_DIGITS && text[count..] == LastFirstOrNone(rest)
      invariant forall i :: 0 <= i < count ==> digits[i] == text[i]
    {
      NextDigit(rest);
      digits[count] := DigitChar(rest % 10);
      count := count + 1;
      assert text[count..] == text[count - 1..][1..];
      rest := rest / 10;
    }
  }

  function LastFirstOrNone(n: nat): string {
    if n == 0 then "" else LastFirst(n)
  }

  lemma NextDigit(n: nat)
    requires n != 0
    ensures LastFirstOrNone(n) == [DigitChar(n % 10)] + LastFirstOrNone(n / 10)
    ensures LastFirstOrNone(n)[1..] == LastFirstOrNone(n / 10)
  {
  }

  lemma LastFirstFits(n: nat)
    requires n < 100000
    ensures |LastFirst(n)| <= MAX_DIGITS
    ensures LastFirst(n) == [DigitChar(n % 10)] + LastFirstOrNone(n / 10)
  {
    DecimalLength(n);
    LastFirstMirrors(n, 0);
  }

  /** Appends the decimal text of a number at an offset, and nothing else. */
  method AppendDecimal(dest: array<char>, offset: nat, value: nat) returns (next: nat)
    requires value < 0x1_0000 && offset + |Decimal(value)| <= dest.Length
    modifies dest
    ensures next == offset + |Decimal(value)|
    ensures forall j :: offset <= j < next ==> dest[j] == Decimal(value)[j - offset]
    ensures forall j :: 0 <= j < offset || next <= j < dest.Length ==> dest[j] == old(dest[j])
  {
    var digits := new char[MAX_DIGITS];
    var count := ProduceDigits(digits, value);
    ghost var total := count;
    LastFirstMirrors(value, 0);
    next := offset;
    while count != 0
      invariant 0 <= count <= total <= MAX_DIGITS && next == offset + total - count && digits != dest
      invariant total == |Decimal(value)| && digits[..total] == LastFirst(value)
      invariant forall j :: offset <= j < next ==> dest[j] == Decimal(value)[j - offset]
      invariant forall j :: 0 <= j < offset || next <= j < dest.Length ==> dest[j] == old(dest[j])
    {
      count := count - 1;
      LastFirstMirrors(value, total - 1 - count);
      assert digits[..total][count] == digits[count];
      dest[next] := digits[count];
      next := next + 1;
    }
  }

  /** A separator followed by a number: every part of an address after the first. */
  method AppendPart(dest: array<char>, offset: nat, separator: char, value: nat) returns (next: nat)
    requires value < 0x1_0000 && offset + 1 + |Decimal(value)| <= dest.Length
    modifies dest
    ensures next == offset + 1 + |Decimal(value)| && dest[offset] == separator
    ensures forall j :: offset < j < next ==> dest[j] == Decimal(value)[j - offset - 1]
    ensures forall j :: 0 <= j < offset || next <= j < dest.Length ==> dest[j] == old(dest[j])
  {
    dest[offset] := separator;
    next := AppendDecimal(dest, offset + 1, value);
  }

  /** Two numbers joined by a separator, from the start of the buffer. */
  method WritePair(dest: array<char>, x: nat, y: nat, sep: char) returns (n: nat)
    requires x < 0x1_0000 && y < 0x1_0000 && |Decimal(x)| + 1 + |Decimal(y)| <= dest.Length
    modifies dest
    ensures n == |Decimal(x)| + 1 + |Decimal(y)|
    ensures dest[..n] == Decimal(x) + [sep] + Decimal(y)
    ensures dest[n..] == old(dest[n..])
  {
    n := AppendDecimal(dest, 0, x);
    n := AppendPart(dest, n, sep, y);
  }

  /** Three numbers joined by separators, from the start of the buffer. */
  method WriteTriple(dest: array<char>, x: nat, y: nat, z: nat, sep: char) returns (n: nat)
    requires x < 0x1_0000 && y < 0x1_0000 && z < 0x1_0000
    requires |Decimal(x)| + 1 + |Decimal(y)| + 1 + |Decimal(z)| <= dest.Length
    modifies dest
    ensures n == |Decimal(x)| + 1 + |Decimal(y)| + 1 + |Decimal(z)|
    ensures dest[..n] == Decimal(x) + [sep] + Decimal(y) + [sep] + Decimal(z)
    ensures dest[n..] == old(dest[n..])
  {
    n := WritePair(dest, x, y, sep);
    ghost var head := dest[..n];
    ghost var m := n;
    n := AppendPart(dest, n, sep, z);
    assert dest[..m] == head;
    assert dest[m + 1..n] == Decimal(z);
    assert dest[..n] == dest[..m] + [dest[m]] + dest[m + 1..n];
  }

  // ---------------------------------------------------------------- reading

  /** Where the run of digits starting at `offset` ends. */
  function RunEnd(text: string, offset: nat): (end: nat)
    requires offset <= |text|
    ensures offset <= end <= |text|
    decreases |text| - offset
  {
    if offset < |text| && IsDigit(text[offset]) then RunEnd(text, offset + 1) else offset
  }

  lemma {:induction false} RunIsMaximal(text: string, offset: nat)
    requires offset <= |text|
    ensures forall i :: offset <= i < RunEnd(text, offset) ==> IsDigit(text[i])
    ensures RunEnd(text, offset) < |text| ==> !IsDigit(text[RunEnd(text, offset)])
    decreases |text| - offset
  {
    if offset < |text| && IsDigit(text[offset]) {
      RunIsMaximal(text, offset + 1);
    }
  }

  /** The specification of the reader: the whole run of digits, if there is one and its value is within the limit. */
  function Read(text: string, offset: nat, limit: nat): Result<(nat, nat), Error>
    requires offset <= |text|
  {
    var end := RunEnd(text, offset);
    if end == offset || Value(text[offset..end]) > limit then Err(InvalidAddress)
    else Ok((Value(text[offset..end]), end))
  }

  lemma {:induction false} ValueMonotone(digits: string, k: nat)
    requires k <= |digits|
    ensures Value(digits[..k]) <= Value(digits)
    decreases |digits|
  {
    if k < |digits| {
      var n := |digits| - 1;
      ValueMonotone(digits[..n], k);
      assert digits[..n][..k] == digits[..k];
    } else {
      assert digits[..k] == digits;
    }
  }

  /** Reads digit by digit, giving up at the first prefix above the limit; the 32-bit accumulator never overflows. */
  method ReadDecimal(text: string, start: nat, limit: nat) returns (r: Result<nat, Error>, offset: nat)
    requires start <= |text| && limit < 0x1_0000
    ensures match Read(text, start, limit)
            case Ok((value, end)) => r == Ok(value) && offset == end
            case Err(e) => r == Err(e)
  {
    var value := 0;
    var digits := 0;
    offset := start;
    ghost var end := RunEnd(text, start);
    while offset < |text| && '0' <= text[offset] <= '9'
      invariant start <= offset <= end && digits == offset - start
      invariant RunEnd(text, offset) == end
      invariant value == Value(text[start..offset]) <= limit
    {
      assert text[start..offset + 1][..offset - start] == text[start..offset];
      assert value * 10 + 9 < 0x1_0000_0000;
      value := value * 10 + DigitValue(text[offset]);
      if value > limit {
        ValueMonotone(text[start..end], offset + 1 - start);
        assert text[start..end][..offset + 1 - start] == text[start..offset + 1];
        return Err(InvalidAddress), offset;
      }
      offset := offset + 1;
      digits := digits + 1;
    }
    if digits == 0 {
      return Err(InvalidAddress), offset;
    }
    return Ok(value), offset;
  }

  /** The character at `offset` is the separator. */
  predicate SeparatorAt(text: string, offset: nat, separator: char) {
    offset < |text| && text[offset] == separator
  }

  /** A non-empty run of digits between two positions, with no digit after it. */
  predicate RunAt(text: string, offset: nat, end: nat) {
    && offset < end <= |text|
    && (forall i :: offset <= i < end ==> IsDigit(text[i]))
    && (end < |text| ==> !IsDigit(text[end]))
  }

  /** The reader takes exactly the run in front of it. */
  lemma ReadRun(text: string, offset: nat, end: nat, limit: nat)
    requires RunAt(text, offset, end)
    ensures Read(text, offset, limit) ==
            if Value(text[offset..end]) > limit then Err(InvalidAddress) else Ok((Value(text[offset..end]), end))
  {
    RunOver(text, offset, end);
  }

  lemma {:induction false} RunOver(text: string, offset: nat, end: nat)
    requires offset <= end <= |text| && forall i :: offset <= i < end ==> IsDigit(text[i])
    requires end < |text| ==> !IsDigit(text[end])
    ensures RunEnd(text, offset) == end
    decreases end - offset
  {
    if offset < end {
      RunOver(text, offset + 1, end);
    }
  }

  /** A text joined by one separator, cut back at it. */
  lemma PairSlices(a: string, b: string, sep: char)
    requires Numeral(a) && Numeral(b) && !IsDigit(sep)
    ensures var text := a + [sep] + b;
            && |text| == |a| + 1 + |b| && text[0..|a|] == a && text[|a|] == sep && text[|a| + 1..|text|] == b
            && RunAt(text, 0, |a|) && RunAt(text, |a| + 1, |text|)
  {
  }

  /** A text joined by two separators, cut back at them. */
  lemma TripleSlices(a: string, b: string, c: string, sep: char)
    requires Numeral(a) && Numeral(b) && Numeral(c) && !IsDigit(sep)
    ensures var text := a + [sep] + b + [sep] + c;
            var (p, q) := (|a|, |a| + 1 + |b|);
            && |text| == q + 1 + |c| && text[0..p] == a && text[p] == sep
            && text[p + 1..q] == b && text[q] == sep && text[q + 1..|text|] == c
            && RunAt(text, 0, p) && RunAt(text, p + 1, q) && RunAt(text, q + 1, |text|)
  {
  }

  lemma PairRejoins(text: string, p: nat)
    requires p < |text|
    ensures text[0..p] + [text[p]] + text[p + 1..|text|] == text
  {
  }

  lemma TripleRejoins(text: string, p: nat, q: nat)
    requires p < q < |text|
    ensures text[0..p] + [text[p]] + text[p + 1..q] + [text[q]] + text[q + 1..|text|] == text
  {
    PairRejoins(text[0..q], p);
    assert text[0..q][0..p] == text[0..p] && text[0..q][p + 1..q] == text[p + 1..q];
    PairRejoins(text, q);
  }

  /** What the reader consumed is a numeral, and the text is what came before it, the numeral, and the rest. */
  lemma ReadTook(text: string, offset: nat, limit: nat)
    requires offset <= |text| && Read(text, offset, limit).Ok?
    ensures var (value, end) := Read(text, offset, limit).value;
            && offset < end <= |text| && Numeral(text[offset..end])
            && value == Value(text[offset..end]) <= limit
  {
    RunIsMaximal(text, offset);
  }
}
