/**
KNX group addresses: sixteen bits read as `main/middle/sub`, `main/sub` or one free number.

A `Spelling` is the grammar of the text, written without any cursor: the digit strings between the
separators. The parser is shown to accept exactly the spellings whose numbers fit their fields.
*/
module GroupAddress {

  import opened AddressText
  import opened Bits
  import opened Results

  type Address = n: nat | n < 0x1_0000

  datatype Style = TwoLevel | ThreeLevel | FreeStyle

  const MAX_MAIN := 0x1F
  const MAX_MIDDLE := 0x07
  const MAX_SUB_THREE := 0xFF
  const MAX_SUB_TWO := 0x7FF

  // The shifts, masks and ors of the source are written as the quotients, remainders and sums they are
  // on these fields; FieldsAreBits and MakeIsBits say so.

  function Make3(main: nat, middle: nat, sub: nat): Result<nat, Error> {
    if main > MAX_MAIN || middle > MAX_MIDDLE || sub > MAX_SUB_THREE then Err(InvalidAddress)
    else Ok(2048 * main + 256 * middle + sub)
  }

  function Make2(main: nat, sub: nat): Result<nat, Error> {
    if main > MAX_MAIN || sub > MAX_SUB_TWO then Err(InvalidAddress)
    else Ok(2048 * main + sub)
  }

  function MainGroup(a: Address): (n: nat)
    ensures n <= MAX_MAIN
  {
    a / 2048
  }

  function MiddleGroup(a: Address): (n: nat)
    ensures n <= MAX_MIDDLE
  {
    a / 256 % 8
  }

  function SubGroup(a: Address): (n: nat)
    ensures n <= MAX_SUB_THREE
  {
    a % 256
  }

  function SubGroupTwoLevel(a: Address): (n: nat)
    ensures n <= MAX_SUB_TWO
  {
    a % 2048
  }

  lemma FieldsAreBits(a: Address)
    ensures MainGroup(a) == ShiftRight(a, 11)
    ensures MiddleGroup(a) == BitAnd(ShiftRight(a, 8), 0x07)
    ensures SubGroup(a) == BitAnd(a, 0xFF) && SubGroupTwoLevel(a) == BitAnd(a, 0x7FF)
  {
    SplitEleven(a);
    SplitEight(a);
    LowThree(a / 256);
  }

  lemma MakeIsBits(main: nat, middle: nat, sub: nat)
    requires main <= MAX_MAIN && middle <= MAX_MIDDLE && sub <= MAX_SUB_THREE
    ensures Make3(main, middle, sub) == Ok(BitOr(BitOr(ShiftLeft(main, 11), ShiftLeft(middle, 8)), sub))
  {
    JoinedIsSum(main, middle, sub);
  }

  lemma JoinedIsSum(main: nat, middle: nat, sub: nat)
    requires middle < 8 && sub < 256
    ensures BitOr(BitOr(ShiftLeft(main, 11), ShiftLeft(middle, 8)), sub) == 2048 * main + 256 * middle + sub
  {
    assert ShiftLeft(main, 11) == 2048 * main by { ShiftLeftScales(main); }
    assert ShiftLeft(middle, 8) == 256 * middle by { ShiftLeftScales(middle); }
    OrBelowEleven(main, 256 * middle);
    OrBelowEight(8 * main + middle, sub);
  }

  lemma MakeTwoIsBits(main: nat, sub: nat)
    requires main <= MAX_MAIN && sub <= MAX_SUB_TWO
    ensures Make2(main, sub) == Ok(BitOr(ShiftLeft(main, 11), sub))
  {
    ShiftLeftScales(main);
    OrBelowEleven(main, sub);
  }

  lemma FieldsRecombine(a: nat)
    ensures a == 2048 * (a / 2048) + 256 * (a / 256 % 8) + a % 256
  {
    assert a / 256 / 8 == a / 2048;
  }

  /** Building an address from its own fields gives it back. */
  lemma MakeOfFields(a: Address)
    ensures Make3(MainGroup(a), MiddleGroup(a), SubGroup(a)) == Ok(a)
    ensures Make2(MainGroup(a), SubGroupTwoLevel(a)) == Ok(a)
  {
    FieldsRecombine(a);
  }

  /** The fields of an address built from three components are those components. */
  lemma FieldsOfMake3(main: nat, middle: nat, sub: nat)
    requires Make3(main, middle, sub).Ok?
    ensures var b := Make3(main, middle, sub).value;
            b < 0x1_0000 && MainGroup(b) == main && MiddleGroup(b) == middle && SubGroup(b) == sub
  {
    var b := 2048 * main + 256 * middle + sub;
    assert b / 2048 == main;
    assert b / 256 == 8 * main + middle;
  }

  /** The fields of an address built from two components are those components. */
  lemma FieldsOfMake2(main: nat, sub: nat)
    requires Make2(main, sub).Ok?
    ensures var b := Make2(main, sub).value; b < 0x1_0000 && MainGroup(b) == main && SubGroupTwoLevel(b) == sub
  {
  }

  // ---------------------------------------------------------------- the grammar

  datatype Spelling =
    | FreeText(number: string)
    | TwoText(main: string, sub: string)
    | ThreeText(main: string, middle: string, sub: string)
  {
    function Text(): string {
      match this
      case FreeText(number) => number
      case TwoText(main, sub) => main + "/" + sub
      case ThreeText(main, middle, sub) => main + "/" + middle + "/" + sub
    }

    predicate Numerals() {
      match this
      case FreeText(number) => Numeral(number)
      case TwoText(main, sub) => Numeral(main) && Numeral(sub)
      case ThreeText(main, middle, sub) => Numeral(main) && Numeral(middle) && Numeral(sub)
    }

    predicate Fits() {
      match this
      case FreeText(number) => Value(number) <= 65535
      case TwoText(main, sub) => Value(main) <= 31 && Value(sub) <= 2047
      case ThreeText(main, middle, sub) => Value(main) <= 31 && Value(middle) <= 7 && Value(sub) <= 255
    }

    /** The address a fitting spelling denotes. */
    function Denotes(): (a: Address)
      requires Fits()
    {
      match this
      case FreeText(number) => Value(number)
      case TwoText(main, sub) => 2048 * Value(main) + Value(sub)
      case ThreeText(main, middle, sub) => 2048 * Value(main) + 256 * Value(middle) + Value(sub)
    }

    function Style(): Style {
      match this
      case FreeText(_) => FreeStyle
      case TwoText(_, _) => TwoLevel
      case ThreeText(_, _, _) => ThreeLevel
    }

    /** The spelling without leading zeros. */
    function Stripped(): Spelling {
      match this
      case FreeText(number) => FreeText(StripZeros(number))
      case TwoText(main, sub) => TwoText(StripZeros(main), StripZeros(sub))
      case ThreeText(main, middle, sub) => ThreeText(StripZeros(main), StripZeros(middle), StripZeros(sub))
    }
  }

  // ---------------------------------------------------------------- parsing

  /** The parser over an explicit cursor. */
  function Parsed(text: string): Result<nat, Error> {
    match Read(text, 0, 0xFFFF)
    case Err(e) => Err(e)
    case Ok((first, offset)) =>
      if offset == |text| then Ok(first)
      else if !SeparatorAt(text, offset, '/') then Err(InvalidAddress)
      else AfterMain(text, first, offset + 1)
  }

  function AfterMain(text: string, first: nat, start: nat): Result<nat, Error>
    requires start <= |text|
  {
    match Read(text, start, MAX_SUB_TWO)
    case Err(e) => Err(e)
    case Ok((second, offset)) =>
      if offset == |text| then Make2(first, second)
      else if !SeparatorAt(text, offset, '/') then Err(InvalidAddress)
      else AfterMiddle(text, first, second, offset + 1)
  }

  function AfterMiddle(text: string, first: nat, second: nat, start: nat): Result<nat, Error>
    requires start <= |text|
  {
    match Read(text, start, MAX_SUB_THREE)
    case Err(e) => Err(e)
    case Ok((third, offset)) =>
      if offset != |text| then Err(InvalidAddress) else Make3(first, second, third)
  }

  method Parse(text: string) returns (r: Result<nat, Error>)
    ensures r == Parsed(text)
  {
    var offset := 0;
    var first, second, third;
    first, offset := ReadDecimal(text, offset, 0xFFFF);
    if first.Err? {
      return Err(first.error);
    }
    if offset == |text| {
      return Ok(first.value);
    }
    if !SeparatorAt(text, offset, '/') {
      return Err(InvalidAddress);
    }
    second, offset := ReadDecimal(text, offset + 1, MAX_SUB_TWO);
    if second.Err? {
      return Err(second.error);
    }
    if offset == |text| {
      return Make2(first.value, second.value);
    }
    if !SeparatorAt(text, offset, '/') {
      return Err(InvalidAddress);
    }
    third, offset := ReadDecimal(text, offset + 1, MAX_SUB_THREE);
    if third.Err? {
      return Err(third.error);
    }
    if offset != |text| {
      return Err(InvalidAddress);
    }
    return Make3(first.value, second.value, third.value);
  }

  /** Every spelling is accepted exactly when its numbers fit, with the address it denotes. */
  lemma ParseSpelling(s: Spelling)
    requires s.Numerals()
    ensures Parsed(s.Text()) == Verdict(s)
  {
    TextIsLaidOut(s);
    ParseLaidOut(s, s.Text());
  }

  function Verdict(s: Spelling): Result<nat, Error> {
    if s.Fits() then Ok(s.Denotes()) else Err(InvalidAddress)
  }

  /** Where the parts of a spelling lie in its text. */
  predicate LaidOut(s: Spelling, text: string) {
    match s
    case FreeText(number) => RunAt(text, 0, |text|) && text[0..|text|] == number
    case TwoText(main, sub) =>
      var p := |main|;
      && p < |text| && text[p] == '/' && RunAt(text, 0, p) && RunAt(text, p + 1, |text|)
      && text[0..p] == main && text[p + 1..|text|] == sub
    case ThreeText(main, middle, sub) =>
      var p := |main|;
      var q := p + 1 + |middle|;
      && q < |text| && text[p] == '/' && text[q] == '/'
      && RunAt(text, 0, p) && RunAt(text, p + 1, q) && RunAt(text, q + 1, |text|)
      && text[0..p] == main && text[p + 1..q] == middle && text[q + 1..|text|] == sub
  }

  lemma TextIsLaidOut(s: Spelling)
    requires s.Numerals()
    ensures LaidOut(s, s.Text())
  {
    match s
    case FreeText(number) =>
    case TwoText(main, sub) => PairSlices(main, sub, '/');
    case ThreeText(main, middle, sub) => TripleSlices(main, middle, sub, '/');
  }

  lemma ParseLaidOut(s: Spelling, text: string)
    requires LaidOut(s, text)
    ensures Parsed(text) == Verdict(s)
  {
    match s
    case FreeText(number) =>
      ReadRun(text, 0, |text|, 0xFFFF);
    case TwoText(main, sub) =>
      ParseTwo(text, |main|);
    case ThreeText(main, middle, sub) =>
      ParseThree(text, |main|, |main| + 1 + |middle|);
  }

  lemma ParseTwo(text: string, p: nat)
    requires RunAt(text, 0, p) && p < |text| && text[p] == '/' && RunAt(text, p + 1, |text|)
    ensures Parsed(text) == Verdict(TwoText(text[0..p], text[p + 1..|text|]))
  {
    ReadRun(text, 0, p, 0xFFFF);
    ReadRun(text, p + 1, |text|, MAX_SUB_TWO);
  }

  lemma ParseThree(text: string, p: nat, q: nat)
    requires RunAt(text, 0, p) && p < |text| && text[p] == '/'
    requires RunAt(text, p + 1, q) && q < |text| && text[q] == '/' && RunAt(text, q + 1, |text|)
    ensures Parsed(text) == Verdict(ThreeText(text[0..p], text[p + 1..q], text[q + 1..|text|]))
  {
    ReadRun(text, 0, p, 0xFFFF);
    ParseMiddle(text, Value(text[0..p]), p + 1, q);
  }

  lemma ParseMiddle(text: string, first: nat, p: nat, q: nat)
    requires RunAt(text, p, q) && q < |text| && text[q] == '/' && RunAt(text, q + 1, |text|)
    ensures var second, third := Value(text[p..q]), Value(text[q + 1..|text|]);
            AfterMain(text, first, p) ==
            if second > 0x7FF || third > 255 then Err(InvalidAddress) else Make3(first, second, third)
  {
    ReadRun(text, p, q, MAX_SUB_TWO);
    ParseLast(text, first, Value(text[p..q]), q + 1);
  }

  lemma ParseLast(text: string, first: nat, second: nat, start: nat)
    requires RunAt(text, start, |text|)
    ensures var third := Value(text[start..|text|]);
            AfterMiddle(text, first, second, start) ==
            if third > 255 then Err(InvalidAddress) else Make3(first, second, third)
  {
    ReadRun(text, start, |text|, MAX_SUB_THREE);
  }

  /** And nothing else is accepted: whatever parses is the text of a fitting spelling. */
  lemma ParsedIsSpelled(text: string) returns (s: Spelling)
    requires Parsed(text).Ok?
    ensures s.Numerals() && s.Fits() && s.Text() == text
    ensures Parsed(text) == Ok(s.Denotes())
  {
    s := Cut(text);
    ParseSpelling(s);
  }

  /** Where the parser found its separators. */
  lemma Cut(text: string) returns (s: Spelling)
    requires Parsed(text).Ok?
    ensures s.Numerals() && s.Text() == text
  {
    ReadTook(text, 0, 0xFFFF);
    var p := Read(text, 0, 0xFFFF).value.1;
    if p == |text| {
      return FreeText(text[0..p]);
    }
    s := CutMain(text, Read(text, 0, 0xFFFF).value.0, p);
  }

  lemma CutMain(text: string, first: nat, p: nat) returns (s: Spelling)
    requires p < |text| && text[p] == '/' && Numeral(text[0..p]) && AfterMain(text, first, p + 1).Ok?
    ensures s.Numerals() && s.Text() == text
  {
    ReadTook(text, p + 1, MAX_SUB_TWO);
    var q := Read(text, p + 1, MAX_SUB_TWO).value.1;
    if q == |text| {
      PairRejoins(text, p);
      return TwoText(text[0..p], text[p + 1..q]);
    }
    ReadTook(text, q + 1, MAX_SUB_THREE);
    TripleRejoins(text, p, q);
    return ThreeText(text[0..p], text[p + 1..q], text[q + 1..|text|]);
  }

  // ---------------------------------------------------------------- formatting

  /** The canonical spelling of an address in a style. */
  function Canonical(a: Address, style: Style): (s: Spelling)
    ensures s.Numerals() && s.Style() == style
  {
    match style
    case FreeStyle => FreeText(Decimal(a))
    case TwoLevel => TwoText(Decimal(MainGroup(a)), Decimal(SubGroupTwoLevel(a)))
    case ThreeLevel => ThreeText(Decimal(MainGroup(a)), Decimal(MiddleGroup(a)), Decimal(SubGroup(a)))
  }

  function Formatted(a: Address, style: Style): string {
    Canonical(a, style).Text()
  }

  lemma FormattedFits(a: Address, style: Style)
    ensures |Formatted(a, style)| <= MAX_TEXT
  {
    DecimalLength(a);
    DecimalLength(MainGroup(a));
    DecimalLength(MiddleGroup(a));
    DecimalLength(SubGroup(a));
    DecimalLength(SubGroupTwoLevel(a));
  }

  method Format(dest: array<char>, a: Address, style: Style) returns (r: Result<nat, Error>)
    modifies dest
    ensures dest.Length < MAX_TEXT ==> r == Err(InvalidLength) && dest[..] == old(dest[..])
    ensures dest.Length >= MAX_TEXT ==> r == Ok(|Formatted(a, style)|) && r.value <= MAX_TEXT
    ensures r.Ok? ==> dest[..r.value] == Formatted(a, style) && dest[r.value..] == old(dest[r.value..])
  {
    if dest.Length < MAX_TEXT {
      return Err(InvalidLength);
    }
    FormattedFits(a, style);
    var offset;
    if style == FreeStyle {
      offset := AppendDecimal(dest, 0, a);
      return Ok(offset);
    }
    if style == TwoLevel {
      offset := WritePair(dest, MainGroup(a), SubGroupTwoLevel(a), '/');
      return Ok(offset);
    }
    offset := WriteTriple(dest, MainGroup(a), MiddleGroup(a), SubGroup(a), '/');
    return Ok(offset);
  }

  /** Formatting in any style and parsing the text gives the address back, for all of them. */
  lemma ParseFormatted(a: Address, style: Style)
    ensures Parsed(Formatted(a, style)) == Ok(a)
  {
    var s := Canonical(a, style);
    ParseSpelling(s);
    CanonicalDenotes(a, style);
  }

  lemma CanonicalDenotes(a: Address, style: Style)
    ensures Canonical(a, style).Fits() && Canonical(a, style).Denotes() == a
  {
    match style
    case FreeStyle =>
      ValueOfDecimal(a);
    case TwoLevel =>
      ValueOfDecimal(MainGroup(a));
      ValueOfDecimal(SubGroupTwoLevel(a));
      DenotesTwo(a, Decimal(MainGroup(a)), Decimal(SubGroupTwoLevel(a)));
    case ThreeLevel =>
      ValueOfDecimal(MainGroup(a));
      ValueOfDecimal(MiddleGroup(a));
      ValueOfDecimal(SubGroup(a));
      DenotesThree(a, Decimal(MainGroup(a)), Decimal(MiddleGroup(a)), Decimal(SubGroup(a)));
  }

  lemma DenotesTwo(a: Address, main: string, sub: string)
    requires Numeral(main) && Numeral(sub) && Value(main) == MainGroup(a) && Value(sub) == SubGroupTwoLevel(a)
    ensures TwoText(main, sub).Fits() && TwoText(main, sub).Denotes() == a
  {
  }

  lemma DenotesThree(a: Address, main: string, middle: string, sub: string)
    requires Numeral(main) && Numeral(middle) && Numeral(sub)
    requires Value(main) == MainGroup(a) && Value(middle) == MiddleGroup(a) && Value(sub) == SubGroup(a)
    ensures ThreeText(main, middle, sub).Fits() && ThreeText(main, middle, sub).Denotes() == a
  {
    FieldsRecombine(a);
  }

  /** Parsing and formatting in the style of the text only drops leading zeros. */
  lemma FormatParsed(text: string) returns (s: Spelling)
    requires Parsed(text).Ok?
    ensures s.Numerals() && s.Fits() && s.Text() == text && Parsed(text).value == s.Denotes()
    ensures Formatted(s.Denotes(), s.Style()) == s.Stripped().Text()
  {
    s := ParsedIsSpelled(text);
    CanonicalIsStripped(s);
  }

  lemma CanonicalIsStripped(s: Spelling)
    requires s.Numerals() && s.Fits()
    ensures Canonical(s.Denotes(), s.Style()) == s.Stripped()
  {
    match s
    case FreeText(number) =>
      DecimalOfValue(number);
    case TwoText(main, sub) =>
      FieldsOfMake2(Value(main), Value(sub));
      CanonicalTwo(s.Denotes(), main, sub);
    case ThreeText(main, middle, sub) =>
      FieldsOfMake3(Value(main), Value(middle), Value(sub));
      CanonicalThree(s.Denotes(), main, middle, sub);
  }

  lemma CanonicalTwo(a: Address, main: string, sub: string)
    requires Numeral(main) && Numeral(sub) && MainGroup(a) == Value(main) && SubGroupTwoLevel(a) == Value(sub)
    ensures Canonical(a, TwoLevel) == TwoText(main, sub).Stripped()
  {
    DecimalOfField(MainGroup(a), main);
    DecimalOfField(SubGroupTwoLevel(a), sub);
  }

  lemma CanonicalThree(a: Address, main: string, middle: string, sub: string)
    requires Numeral(main) && Numeral(middle) && Numeral(sub)
    requires MainGroup(a) == Value(main) && MiddleGroup(a) == Value(middle) && SubGroup(a) == Value(sub)
    ensures Canonical(a, ThreeLevel) == ThreeText(main, middle, sub).Stripped()
  {
    DecimalOfField(MainGroup(a), main);
    DecimalOfField(MiddleGroup(a), middle);
    DecimalOfField(SubGroup(a), sub);
  }
}
