/**
KNX individual addresses, `area.line.device`: four, four and eight bits.

As for group addresses, a `Spelling` is the grammar of the text without a cursor, and the parser is
shown to accept exactly the spellings whose numbers fit.
*/
module IndividualAddress {

  import opened AddressText
  import opened Bits
  import opened Results

  type Address = n: nat | n < 0x1_0000

  const MAX_AREA := 0x0F
  const MAX_LINE := 0x0F
  const MAX_DEVICE := 0xFF

  /** The unchecked constructor drops the high bits of the area and the line. */
  function FromParts(area: nat, line: nat, device: nat): (a: Address)
    requires device < 256
  {
    4096 * (area % 16) + 256 * (line % 16) + device
  }

  function Make(area: nat, line: nat, device: nat): Result<Address, Error> {
    if area > MAX_AREA || line > MAX_LINE || device > MAX_DEVICE then Err(InvalidAddress)
    else Ok(FromParts(area, line, device))
  }

  function Area(a: Address): (n: nat)
    ensures n <= MAX_AREA
  {
    a / 4096
  }

  function Line(a: Address): (n: nat)
    ensures n <= MAX_LINE
  {
    a / 256 % 16
  }

  function Device(a: Address): (n: nat)
    ensures n <= MAX_DEVICE
  {
    a % 256
  }

  lemma FieldsAreBits(a: Address)
    ensures Area(a) == ShiftRight(a, 12)
    ensures Line(a) == BitAnd(ShiftRight(a, 8), 0x0F) && Device(a) == BitAnd(a, 0xFF)
  {
    HighTwelve(a);
    SplitEight(a);
    LowFour(a / 256);
  }

  lemma FromPartsIsBits(area: nat, line: nat, device: nat)
    requires device < 256
    ensures FromParts(area, line, device) ==
            BitOr(BitOr(ShiftLeft(BitAnd(area, 0x0F), 12), ShiftLeft(BitAnd(line, 0x0F), 8)), device)
  {
    LowFour(area);
    LowFour(line);
    JoinedIsSum(area % 16, line % 16, device);
  }

  lemma JoinedIsSum(area: nat, line: nat, device: nat)
    requires line < 16 && device < 256
    ensures BitOr(BitOr(ShiftLeft(area, 12), ShiftLeft(line, 8)), device) == 4096 * area + 256 * line + device
  {
    assert ShiftLeft(area, 12) == 4096 * area && ShiftLeft(line, 8) == 256 * line by {
      ShiftLeftScales(area);
      ShiftLeftScales(line);
    }
    OrBelowTwelve(area, 256 * line);
    OrBelowEight(16 * area + line, device);
  }

  /** The fields of a built address: the components, less the bits the constructor discards. */
  lemma FieldsOfParts(area: nat, line: nat, device: nat)
    requires device < 256
    ensures var a := FromParts(area, line, device);
            Area(a) == area % 16 && Line(a) == line % 16 && Device(a) == device
  {
    var a := FromParts(area, line, device);
    assert a / 256 == 16 * (area % 16) + line % 16;
  }

  /** In range nothing is discarded. */
  lemma InRangeParts(area: nat, line: nat, device: nat)
    requires area <= MAX_AREA && line <= MAX_LINE && device <= MAX_DEVICE
    ensures FromParts(area, line, device) == 4096 * area + 256 * line + device
  {
  }

  lemma FieldsOfSum(a: Address, area: nat, line: nat, device: nat)
    requires area <= MAX_AREA && line <= MAX_LINE && device <= MAX_DEVICE
    requires a == 4096 * area + 256 * line + device
    ensures Area(a) == area && Line(a) == line && Device(a) == device
  {
    assert a / 256 == 16 * area + line;
  }

  lemma PartsOfFields(a: Address)
    ensures Make(Area(a), Line(a), Device(a)) == Ok(a)
  {
  }

  // ---------------------------------------------------------------- the grammar

  datatype Spelling = Spelling(area: string, line: string, device: string) {

    function Text(): string {
      area + "." + line + "." + device
    }

    predicate Numerals() {
      Numeral(area) && Numeral(line) && Numeral(device)
    }

    predicate Fits() {
      Value(area) <= 15 && Value(line) <= 15 && Value(device) <= 255
    }

    function Denotes(): (a: Address)
      requires Fits()
    {
      4096 * Value(area) + 256 * Value(line) + Value(device)
    }

    function Stripped(): Spelling {
      Spelling(StripZeros(area), StripZeros(line), StripZeros(device))
    }
  }

  function Verdict(s: Spelling): Result<Address, Error> {
    if s.Fits() then Ok(s.Denotes()) else Err(InvalidAddress)
  }

  // ---------------------------------------------------------------- parsing

  /** The parser over an explicit cursor. */
  function Parsed(text: string): Result<Address, Error> {
    match Read(text, 0, MAX_AREA)
    case Err(e) => Err(e)
    case Ok((area, offset)) =>
      if !SeparatorAt(text, offset, '.') then Err(InvalidAddress) else AfterArea(text, area, offset + 1)
  }

  function AfterArea(text: string, area: nat, start: nat): Result<Address, Error>
    requires start <= |text|
  {
    match Read(text, start, MAX_LINE)
    case Err(e) => Err(e)
    case Ok((line, offset)) =>
      if !SeparatorAt(text, offset, '.') then Err(InvalidAddress) else AfterLine(text, area, line, offset + 1)
  }

  function AfterLine(text: string, area: nat, line: nat, start: nat): Result<Address, Error>
    requires start <= |text|
  {
    match Read(text, start, MAX_DEVICE)
    case Err(e) => Err(e)
    case Ok((device, offset)) =>
      if offset != |text| then Err(InvalidAddress) else Ok(FromParts(area, line, device))
  }

  method Parse(text: string) returns (r: Result<Address, Error>)
    ensures r == Parsed(text)
  {
    var offset := 0;
    var area, line, device;
    area, offset := ReadDecimal(text, offset, MAX_AREA);
    if area.Err? {
      return Err(area.error);
    }
    if !SeparatorAt(text, offset, '.') {
      return Err(InvalidAddress);
    }
    line, offset := ReadDecimal(text, offset + 1, MAX_LINE);
    if line.Err? {
      return Err(line.error);
    }
    if !SeparatorAt(text, offset, '.') {
      return Err(InvalidAddress);
    }
    device, offset := ReadDecimal(text, offset + 1, MAX_DEVICE);
    if device.Err? {
      return Err(device.error);
    }
    if offset != |text| {
      return Err(InvalidAddress);
    }
    return Ok(FromParts(area.value, line.value, device.value));
  }

  /** Every spelling is accepted exactly when its numbers fit, with the address it denotes. */
  lemma ParseSpelling(s: Spelling)
    requires s.Numerals()
    ensures Parsed(s.Text()) == Verdict(s)
  {
    TripleSlices(s.area, s.line, s.device, '.');
    ParseLaidOut(s, s.Text(), |s.area|, |s.area| + 1 + |s.line|);
  }

  lemma ParseLaidOut(s: Spelling, text: string, p: nat, q: nat)
    requires p < q < |text| && RunAt(text, 0, p) && RunAt(text, p + 1, q) && RunAt(text, q + 1, |text|)
    requires text[p] == '.' && text[q] == '.'
    requires text[0..p] == s.area && text[p + 1..q] == s.line && text[q + 1..|text|] == s.device
    ensures Parsed(text) == Verdict(s)
  {
    ParseRuns(text, p, q);
  }

  lemma ParseRuns(text: string, p: nat, q: nat)
    requires p < q < |text| && RunAt(text, 0, p) && RunAt(text, p + 1, q) && RunAt(text, q + 1, |text|)
    requires text[p] == '.' && text[q] == '.'
    ensures Parsed(text) == Verdict(Spelling(text[0..p], text[p + 1..q], text[q + 1..|text|]))
  {
    var s := Spelling(text[0..p], text[p + 1..q], text[q + 1..|text|]);
    ReadRun(text, 0, p, MAX_AREA);
    ParseMiddle(text, Value(s.area), p + 1, q);
    if s.Fits() {
      InRangeParts(Value(s.area), Value(s.line), Value(s.device));
    }
  }

  lemma ParseMiddle(text: string, area: nat, p: nat, q: nat)
    requires RunAt(text, p, q) && q < |text| && text[q] == '.' && RunAt(text, q + 1, |text|)
    ensures var line, device := Value(text[p..q]), Value(text[q + 1..|text|]);
            AfterArea(text, area, p) ==
            if line > 15 || device > 255 then Err(InvalidAddress) else Ok(FromParts(area, line, device))
  {
    ReadRun(text, p, q, MAX_LINE);
    ParseLast(text, area, Value(text[p..q]), q + 1);
  }

  lemma ParseLast(text: string, area: nat, line: nat, start: nat)
    requires RunAt(text, start, |text|)
    ensures var device := Value(text[start..|text|]);
            AfterLine(text, area, line, start) ==
            if device > 255 then Err(InvalidAddress) else Ok(FromParts(area, line, device))
  {
    ReadRun(text, start, |text|, MAX_DEVICE);
  }

  /** And nothing else is accepted: whatever parses is the text of a fitting spelling. */
  lemma ParsedIsSpelled(text: string) returns (s: Spelling)
    requires Parsed(text).Ok?
    ensures s.Numerals() && s.Fits() && s.Text() == text
    ensures Parsed(text) == Ok(s.Denotes())
  {
    s := Cut(text);
    ParseSpelling(s);
  }

  lemma Cut(text: string) returns (s: Spelling)
    requires Parsed(text).Ok?
    ensures s.Numerals() && s.Text() == text
  {
    ReadTook(text, 0, MAX_AREA);
    var (area, p) := Read(text, 0, MAX_AREA).value;
    s := CutArea(text, area, p);
  }

  lemma CutArea(text: string, area: nat, p: nat) returns (s: Spelling)
    requires p < |text| && text[p] == '.' && Numeral(text[0..p]) && AfterArea(text, area, p + 1).Ok?
    ensures s.Numerals() && s.Text() == text
  {
    ReadTook(text, p + 1, MAX_LINE);
    var q := Read(text, p + 1, MAX_LINE).value.1;
    ReadTook(text, q + 1, MAX_DEVICE);
    TripleRejoins(text, p, q);
    s := Spelling(text[0..p], text[p + 1..q], text[q + 1..|text|]);
  }

  // ---------------------------------------------------------------- formatting

  function Canonical(a: Address): (s: Spelling)
    ensures s.Numerals()
  {
    Spelling(Decimal(Area(a)), Decimal(Line(a)), Decimal(Device(a)))
  }

  function Formatted(a: Address): string {
    Canonical(a).Text()
  }

  method Format(dest: array<char>, a: Address) returns (r: Result<nat, Error>)
    modifies dest
    ensures dest.Length < MAX_TEXT ==> r == Err(InvalidLength) && dest[..] == old(dest[..])
    ensures dest.Length >= MAX_TEXT ==> r == Ok(|Formatted(a)|) && r.value <= MAX_TEXT
    ensures r.Ok? ==> dest[..r.value] == Formatted(a) && dest[r.value..] == old(dest[r.value..])
  {
    if dest.Length < MAX_TEXT {
      return Err(InvalidLength);
    }
    DecimalLength(Area(a));
    DecimalLength(Line(a));
    DecimalLength(Device(a));
    var offset := WriteTriple(dest, Area(a), Line(a), Device(a), '.');
    return Ok(offset);
  }

  /** Formatting and parsing gives the address back, for all of them. */
  lemma ParseFormatted(a: Address)
    ensures Parsed(Formatted(a)) == Ok(a)
  {
    var s := Canonical(a);
    ParseSpelling(s);
    ValueOfDecimal(Area(a));
    ValueOfDecimal(Line(a));
    ValueOfDecimal(Device(a));
    DenotesFields(a, s);
  }

  lemma DenotesFields(a: Address, s: Spelling)
    requires Value(s.area) == Area(a) && Value(s.line) == Line(a) && Value(s.device) == Device(a)
    ensures s.Fits() && s.Denotes() == a
  {
  }

  /** Parsing and formatting only drops leading zeros. */
  lemma FormatParsed(text: string) returns (s: Spelling)
    requires Parsed(text).Ok?
    ensures s.Numerals() && s.Text() == text
    ensures Formatted(Parsed(text).value) == s.Stripped().Text()
  {
    s := ParsedIsSpelled(text);
    CanonicalIsStripped(s);
  }

  lemma CanonicalIsStripped(s: Spelling)
    requires s.Numerals() && s.Fits()
    ensures Canonical(s.Denotes()) == s.Stripped()
  {
    FieldsOfSum(s.Denotes(), Value(s.area), Value(s.line), Value(s.device));
    CanonicalOfFields(s.Denotes(), s);
  }

  lemma CanonicalOfFields(a: Address, s: Spelling)
    requires s.Numerals()
    requires Area(a) == Value(s.area) && Line(a) == Value(s.line) && Device(a) == Value(s.device)
    ensures Canonical(a) == s.Stripped()
  {
    DecimalOfField(Area(a), s.area);
    DecimalOfField(Line(a), s.line);
    DecimalOfField(Device(a), s.device);
  }
}
