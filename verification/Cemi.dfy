/**
The cEMI L_Data codec: message to octets and back, bit for bit.

The wire layout is that of the KNX System Specifications, Volume 3/6/3 "EMI/IMI"; the
application service codes are those of Volume 3/3/7 "Application Layer".
*/
module Cemi {
  import opened Octets
  import opened Results

  datatype Error =
    | UnsupportedMessageCode
    | PayloadTooLarge
    | InvalidConfiguration
    | InvalidLength
    | MalformedFrame
    | UnsupportedService

  const L_DATA_REQ: Octet := 0x11
  const L_DATA_CON: Octet := 0x2E
  const L_DATA_IND: Octet := 0x29

  const PROLOGUE_SIZE: nat := 2
  const LINK_HEADER_SIZE: nat := 7
  const APCI_SIZE: nat := 2
  const MIN_L_DATA_SIZE: nat := 11
  const MAX_OCTETS: nat := 254
  const MAX_MESSAGE_SIZE: nat := 520
  const MAX_STANDARD_DATA_LENGTH: nat := 15

  predicate IsLData(code: Octet) {
    code == L_DATA_REQ || code == L_DATA_CON || code == L_DATA_IND
  }

  function EncodedSize(additionalInfo: nat, dataLength: nat): nat {
    PROLOGUE_SIZE + additionalInfo + LINK_HEADER_SIZE + 1 + dataLength
  }

  // ---------------------------------------------------------------- messages

  /** An APDU value: six bits inside the APCI octet, or whole octets after it. */
  datatype RawPayload = Compact(bits: Octet) | Extended(octets: seq<Octet>)

  /** What the factories can build: a compact value has six bits, an octet payload is not empty. */
  type Payload = p: RawPayload |
    match p
    case Compact(bits) => bits & 0x3F == bits
    case Extended(octets) => octets != []
    witness Compact(0)

  function MakeCompact(value: Octet): Payload {
    Compact(value & 0x3F)
  }

  function MakeExtended(octets: seq<Octet>): Result<Payload, Error> {
    if |octets| > MAX_OCTETS then Err(PayloadTooLarge)
    else if octets == [] then Ok(Compact(0))
    else Ok(Extended(octets))
  }

  function PayloadOctets(p: Payload): seq<Octet> {
    if p.Compact? then [] else p.octets
  }

  /** The compact bits of a payload; an octet payload has none. */
  function PayloadBits(p: Payload): (bits: Octet)
    ensures bits & 0x3F == bits
  {
    if p.Compact? then p.bits else 0
  }

  /** The wire data length: APDU octets minus one. */
  function DataLength(p: Payload): nat {
    if p.Compact? then 1 else |p.octets| + 1
  }

  type Priority = b: Octet | b <= 3

  datatype Options = Options(
    priority: Priority,
    hopCount: Octet,
    acknowledge: bool,
    repetition: bool,
    broadcast: bool)

  /** `service` is the full 16-bit value of the enumeration; only its low ten bits reach the wire. */
  datatype Message = Message(
    code: Octet,
    source: Word,
    destination: Word,
    group: bool,
    service: Word,
    payload: Payload,
    options: Options)

  function ControlField1(o: Options, dataLength: nat): Octet {
    (if dataLength <= MAX_STANDARD_DATA_LENGTH then 0x80 else 0)
    | (if o.repetition then 0x20 else 0)
    | (if o.broadcast then 0x10 else 0)
    | ((o.priority << 2) & 0x0C)
    | (if o.acknowledge then 0x02 else 0)
  }

  function ControlField2(group: bool, hopCount: Octet): Octet {
    (if group then 0x80 else 0) | ((hopCount << 4) & 0x70)
  }

  predicate Encodable(m: Message) {
    IsLData(m.code) && |PayloadOctets(m.payload)| <= MAX_OCTETS && m.options.hopCount <= 7
  }

  /** The octets of an encodable message. */
  function Wire(m: Message): (bytes: seq<Octet>)
    requires Encodable(m)
    ensures |bytes| == EncodedSize(0, DataLength(m.payload))
  {
    [ m.code, 0,
      ControlField1(m.options, DataLength(m.payload)), ControlField2(m.group, m.options.hopCount),
      High(m.source), Low(m.source), High(m.destination), Low(m.destination),
      ToOctet(DataLength(m.payload)),
      High(m.service) & 0x03, Low(m.service) | PayloadBits(m.payload)
    ] + PayloadOctets(m.payload)
  }

  /** The wire layout, octet by octet. */
  ghost predicate Carries(bytes: seq<Octet>, m: Message) {
    && |bytes| == EncodedSize(0, DataLength(m.payload))
    && bytes[0] == m.code && bytes[1] == 0
    && bytes[2] == ControlField1(m.options, DataLength(m.payload))
    && bytes[3] == ControlField2(m.group, m.options.hopCount)
    && bytes[4] == High(m.source) && bytes[5] == Low(m.source)
    && bytes[6] == High(m.destination) && bytes[7] == Low(m.destination)
    && bytes[8] == ToOctet(DataLength(m.payload))
    && bytes[9] == High(m.service) & 0x03 && bytes[10] == Low(m.service) | PayloadBits(m.payload)
    && bytes[MIN_L_DATA_SIZE..] == PayloadOctets(m.payload)
  }

  lemma WireCarries(m: Message)
    requires Encodable(m)
    ensures Carries(Wire(m), m)
  {
  }

  lemma CarriesIsWire(bytes: seq<Octet>, m: Message)
    requires Encodable(m) && Carries(bytes, m)
    ensures bytes == Wire(m)
  {
    WireCarries(m);
    forall i | 0 <= i < |bytes| ensures bytes[i] == Wire(m)[i] {
      if i >= MIN_L_DATA_SIZE {
        assert bytes[i] == bytes[MIN_L_DATA_SIZE..][i - MIN_L_DATA_SIZE];
        assert Wire(m)[i] == Wire(m)[MIN_L_DATA_SIZE..][i - MIN_L_DATA_SIZE];
      }
    }
  }

  function EncodeError(m: Message, room: nat): Error
    requires !Encodable(m) || room < EncodedSize(0, DataLength(m.payload))
  {
    if !IsLData(m.code) then UnsupportedMessageCode
    else if |PayloadOctets(m.payload)| > MAX_OCTETS then PayloadTooLarge
    else if m.options.hopCount > 7 then InvalidConfiguration
    else InvalidLength
  }

  /** Writes the octets in place, the header first and the payload in a loop; nothing past them, and nothing on failure. */
  method Encode(dest: array<Octet>, m: Message) returns (r: Result<nat, Error>)
    modifies dest
    ensures r.Ok? <==> Encodable(m) && dest.Length >= EncodedSize(0, DataLength(m.payload))
    ensures r.Ok? ==> r.value == |Wire(m)| <= dest.Length && dest[..r.value] == Wire(m) && dest[r.value..] == old(dest[r.value..])
    ensures r.Err? ==> r.error == EncodeError(m, dest.Length) && dest[..] == old(dest[..])
  {
    if !IsLData(m.code) {
      return Err(UnsupportedMessageCode);
    }
    if |PayloadOctets(m.payload)| > MAX_OCTETS {
      return Err(PayloadTooLarge);
    }
    if m.options.hopCount > 7 {
      return Err(InvalidConfiguration);
    }
    var dataLength := DataLength(m.payload);
    var size := EncodedSize(0, dataLength);
    if dest.Length < size {
      return Err(InvalidLength);
    }
    WriteLData(dest, m, dataLength);
    CarriesIsWire(dest[..size], m);
    return Ok(size);
  }

  method WriteLData(dest: array<Octet>, m: Message, dataLength: nat)
    requires Encodable(m) && dataLength == DataLength(m.payload) && dest.Length >= EncodedSize(0, dataLength)
    modifies dest
    ensures Carries(dest[..EncodedSize(0, dataLength)], m)
    ensures dest[EncodedSize(0, dataLength)..] == old(dest[EncodedSize(0, dataLength)..])
  {
    WriteLinkHeader(dest, m, ControlField1(m.options, dataLength), ControlField2(m.group, m.options.hopCount),
                    ToOctet(dataLength));
    WriteApdu(dest, High(m.service) & 0x03, Low(m.service), m.payload);
    assert forall i :: 0 <= i < MIN_L_DATA_SIZE ==> dest[..EncodedSize(0, dataLength)][i] == dest[i];
  }

  /** The octets up to and including the data length. */
  method WriteLinkHeader(dest: array<Octet>, m: Message, control1: Octet, control2: Octet, length: Octet)
    requires dest.Length >= MIN_L_DATA_SIZE
    modifies dest
    ensures dest[0] == m.code && dest[1] == 0 && dest[2] == control1 && dest[3] == control2
    ensures dest[4] == High(m.source) && dest[5] == Low(m.source)
    ensures dest[6] == High(m.destination) && dest[7] == Low(m.destination) && dest[8] == length
    ensures forall j :: 9 <= j < dest.Length ==> dest[j] == old(dest[j])
  {
    dest[0] := m.code;
    dest[1] := 0;
    dest[2] := control1;
    dest[3] := control2;
    dest[4] := High(m.source);
    dest[5] := Low(m.source);
    dest[6] := High(m.destination);
    dest[7] := Low(m.destination);
    dest[8] := length;
  }

  /** The APCI octets and the payload: a compact value rides in the low six bits of the second, anything longer follows. */
  method WriteApdu(dest: array<Octet>, apci1: Octet, apci2: Octet, p: Payload)
    requires dest.Length >= EncodedSize(0, DataLength(p))
    modifies dest
    ensures forall j :: 0 <= j < 9 || EncodedSize(0, DataLength(p)) <= j < dest.Length ==> dest[j] == old(dest[j])
    ensures dest[9] == apci1 && dest[10] == apci2 | PayloadBits(p)
    ensures dest[MIN_L_DATA_SIZE..EncodedSize(0, DataLength(p))] == PayloadOctets(p)
  {
    dest[9] := apci1;
    dest[10] := apci2;
    if p.Compact? {
      dest[10] := dest[10] | p.bits;
    } else {
      OrZero(apci2);
      WriteOctets(dest, MIN_L_DATA_SIZE, p.octets);
    }
  }

  lemma OrZero(b: Octet)
    ensures b | 0 == b
  {
  }

  // ---------------------------------------------------------------- frames

  /** A decoded message; the payload is named by offset and size into the decoded buffer. */
  datatype Frame = Frame(
    code: Octet,
    additionalInfoLength: nat,
    control1: Octet,
    control2: Octet,
    source: Word,
    destination: Word,
    dataLength: nat,
    transportControl: Octet,
    service: Word,
    compactValue: Octet,
    payloadOffset: nat,
    payloadSize: nat)
  {
    predicate StandardFrame() { control1 & 0x80 != 0 }
    predicate RepeatFlag() { control1 & 0x20 != 0 }
    predicate Broadcast() { control1 & 0x10 != 0 }
    function TelegramPriority(): Priority { (control1 & 0x0C) >> 2 }
    predicate AcknowledgeRequested() { control1 & 0x02 != 0 }
    predicate GroupAddressed() { control2 & 0x80 != 0 }
    function HopCount(): Octet { (control2 & 0x70) >> 4 }
    predicate IsCompact() { payloadSize == 0 }

    function PayloadView(bytes: seq<Octet>): seq<Octet> {
      if payloadSize == 0 || payloadOffset + payloadSize > |bytes| then []
      else bytes[payloadOffset..payloadOffset + payloadSize]
    }

    function AdditionalInfo(bytes: seq<Octet>): seq<Octet> {
      if additionalInfoLength == 0 || PROLOGUE_SIZE + additionalInfoLength > |bytes| then []
      else bytes[PROLOGUE_SIZE..PROLOGUE_SIZE + additionalInfoLength]
    }
  }

  /** Under the two escape codes all ten bits name the service. */
  predicate Escaped(raw: Word) {
    raw & 0x03C0 == 0x02C0 || raw & 0x03C0 == 0x03C0
  }

  function ServiceOf(raw: Word): Word {
    if Escaped(raw) then raw else raw & 0x03C0
  }

  function Decode(bytes: seq<Octet>): Result<Frame, Error> {
    if |bytes| < PROLOGUE_SIZE then Err(MalformedFrame)
    else if !IsLData(bytes[0]) then Err(UnsupportedMessageCode)
    else
      var info := ToNat(bytes[1]);
      var link := PROLOGUE_SIZE + info;
      if link + LINK_HEADER_SIZE + APCI_SIZE > |bytes| then Err(MalformedFrame)
      else
        var dataLength := ToNat(bytes[link + 6]);
        if dataLength == 0 then Err(UnsupportedService)
        else if EncodedSize(info, dataLength) != |bytes| then Err(InvalidLength)
        else
          var raw := Join(bytes[link + 7] & 0x03, bytes[link + 8]);
          Ok(Frame(
            bytes[0], info, bytes[link], bytes[link + 1],
            Join(bytes[link + 2], bytes[link + 3]), Join(bytes[link + 4], bytes[link + 5]),
            dataLength, bytes[link + 7] & 0xFC,
            ServiceOf(raw),
            if dataLength == 1 then (raw & 0x3F) as bv8 else 0,
            if dataLength == 1 then 0 else link + LINK_HEADER_SIZE + APCI_SIZE,
            if dataLength == 1 then 0 else dataLength - 1))
  }

  // ---------------------------------------------------------------- what decoding accepts

  /**
  Whatever decodes has exactly the length its own fields encode to, never more than the
  largest message; both views are in bounds and an octet payload runs to the end of the buffer.
  */
  lemma DecodedLengthIsExact(bytes: seq<Octet>)
    requires Decode(bytes).Ok?
    ensures var f := Decode(bytes).value;
            && |bytes| == EncodedSize(f.additionalInfoLength, f.dataLength) <= MAX_MESSAGE_SIZE
            && |f.AdditionalInfo(bytes)| == f.additionalInfoLength
            && bytes[PROLOGUE_SIZE..PROLOGUE_SIZE + f.additionalInfoLength] == f.AdditionalInfo(bytes)
            && (f.IsCompact() <==> f.dataLength == 1)
            && (!f.IsCompact() ==> f.payloadOffset + f.payloadSize == |bytes| && f.PayloadView(bytes) == bytes[f.payloadOffset..])
            && |f.PayloadView(bytes)| == f.payloadSize == f.dataLength - 1
  {
    OctetSurvives(bytes[1]);
    OctetSurvives(bytes[PROLOGUE_SIZE + ToNat(bytes[1]) + 6]);
  }

  /**
  A transport control frame has no application octet, so its length is what an empty APDU
  encodes to. The source's comment says such a frame is reported as an unsupported service;
  it is too short for that check and is always malformed. The report is reserved for frames
  that declare a zero length and yet bring at least one APDU octet pair.
  */
  lemma ControlFrameIsMalformed(bytes: seq<Octet>)
    requires |bytes| >= PROLOGUE_SIZE && IsLData(bytes[0])
    ensures |bytes| == EncodedSize(ToNat(bytes[1]), 0) ==> Decode(bytes) == Err(MalformedFrame)
    ensures Decode(bytes) == Err(UnsupportedService) <==>
              |bytes| >= EncodedSize(ToNat(bytes[1]), 1) && bytes[PROLOGUE_SIZE + ToNat(bytes[1]) + 6] == 0
  {
  }

  // ---------------------------------------------------------------- round trip

  /** The ten APCI bits a message puts on the wire. */
  function RawService(m: Message): Word {
    (m.service & 0x03FF) | (PayloadBits(m.payload) as bv16)
  }

  lemma Control1Fields(o: Options, dataLength: nat)
    ensures var c := ControlField1(o, dataLength);
            && (c & 0x80 != 0) == (dataLength <= MAX_STANDARD_DATA_LENGTH)
            && (c & 0x20 != 0) == o.repetition
            && (c & 0x10 != 0) == o.broadcast
            && (c & 0x0C) >> 2 == o.priority
            && (c & 0x02 != 0) == o.acknowledge
            && c & 0x41 == 0
  {
  }

  lemma Control2Fields(group: bool, hopCount: Octet)
    requires hopCount <= 7
    ensures var c := ControlField2(group, hopCount);
            && (c & 0x80 != 0) == group
            && (c & 0x70) >> 4 == hopCount
            && c & 0x0F == 0
  {
  }

  /** The APCI octets carry the low ten bits of the service, with the compact value or-ed in, under a zero TPCI. */
  lemma ServiceBits(service: Word, bits: Octet)
    requires bits & 0x3F == bits
    ensures Join((High(service) & 0x03) & 0x03, Low(service) | bits) == (service & 0x03FF) | (bits as bv16)
    ensures (High(service) & 0x03) & 0xFC == 0
  {
  }

  /** The frame decoded from a message without additional information. */
  function PlainFrame(bytes: seq<Octet>): Frame
    requires |bytes| >= MIN_L_DATA_SIZE
  {
    var raw := Join(bytes[9] & 0x03, bytes[10]);
    var compact := |bytes| == MIN_L_DATA_SIZE;
    Frame(bytes[0], 0, bytes[2], bytes[3], Join(bytes[4], bytes[5]), Join(bytes[6], bytes[7]),
          |bytes| - MIN_L_DATA_SIZE + 1, bytes[9] & 0xFC, ServiceOf(raw),
          if compact then (raw & 0x3F) as bv8 else 0,
          if compact then 0 else MIN_L_DATA_SIZE,
          |bytes| - MIN_L_DATA_SIZE)
  }

  lemma DecodePlain(bytes: seq<Octet>)
    requires |bytes| >= MIN_L_DATA_SIZE && IsLData(bytes[0]) && bytes[1] == 0
    requires ToNat(bytes[8]) == |bytes| - MIN_L_DATA_SIZE + 1
    ensures Decode(bytes) == Ok(PlainFrame(bytes))
    ensures PlainFrame(bytes).PayloadView(bytes) == bytes[MIN_L_DATA_SIZE..]
  {
    assert ToNat(bytes[1]) == 0;
  }

  /** The frame an encoded message decodes to. */
  function FrameOf(m: Message): Frame {
    var compact, raw := m.payload.Compact?, RawService(m);
    Frame(m.code, 0, ControlField1(m.options, DataLength(m.payload)), ControlField2(m.group, m.options.hopCount),
          m.source, m.destination, DataLength(m.payload), 0, ServiceOf(raw),
          if compact then (raw & 0x3F) as bv8 else 0,
          if compact then 0 else MIN_L_DATA_SIZE,
          DataLength(m.payload) - 1)
  }

  lemma AddressesRead(bytes: seq<Octet>, m: Message)
    requires Carries(bytes, m)
    ensures Join(bytes[4], bytes[5]) == m.source && Join(bytes[6], bytes[7]) == m.destination
  {
    JoinSplits(m.source);
    JoinSplits(m.destination);
  }

  lemma ServiceRead(bytes: seq<Octet>, m: Message)
    requires Carries(bytes, m)
    ensures Join(bytes[9] & 0x03, bytes[10]) == RawService(m) && bytes[9] & 0xFC == 0
  {
    ServiceBits(m.service, PayloadBits(m.payload));
  }

  lemma FrameRead(bytes: seq<Octet>, m: Message)
    requires Carries(bytes, m)
    ensures PlainFrame(bytes) == FrameOf(m)
  {
    AddressesRead(bytes, m);
    ServiceRead(bytes, m);
  }

  /** Decoding inverts encoding: every encodable message comes back, its service and compact value as the or-ed APCI bits say. */
  lemma DecodeEncoded(m: Message)
    requires Encodable(m)
    ensures Decode(Wire(m)) == Ok(FrameOf(m))
    ensures FrameOf(m).PayloadView(Wire(m)) == PayloadOctets(m.payload)
  {
    WireCarries(m);
    LengthSurvives(DataLength(m.payload));
    DecodePlain(Wire(m));
    FrameRead(Wire(m), m);
  }

  /** The accessors of that frame report the message's own link layer fields. */
  lemma FrameReports(m: Message)
    requires Encodable(m)
    ensures var f := FrameOf(m);
            && f.GroupAddressed() == m.group
            && f.HopCount() == m.options.hopCount
            && f.TelegramPriority() == m.options.priority
            && f.AcknowledgeRequested() == m.options.acknowledge
            && f.RepeatFlag() == m.options.repetition
            && f.Broadcast() == m.options.broadcast
            && f.StandardFrame() == (DataLength(m.payload) <= MAX_STANDARD_DATA_LENGTH)
            && f.IsCompact() == m.payload.Compact?
  {
    Control1Fields(m.options, DataLength(m.payload));
    Control2Fields(m.group, m.options.hopCount);
  }
}
