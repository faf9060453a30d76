/**
Exactly what the L_Data codec can produce, and exactly what it preserves.

The compact value is or-ed into the APCI octet, the escape services use all ten APCI bits and
decoding drops the low six of the others, so neither direction is lossless outright. Each
result here is an if-and-only-if.
*/
module CemiImage {
  import opened Octets
  import opened Cemi
  import opened Results

  // ---------------------------------------------------------------- the service

  /**
  When a service survives having `bits` or-ed in: it has ten bits, and an escape service survives exactly
  when the bits lie within its own low bits, any other exactly when its low six bits are zero.
  */
  predicate KeepsService(service: Word, bits: Octet) {
    service <= 0x03FF && if Escaped(service) then service | (bits as bv16) == service else service & 0x3F == 0
  }

  /** The service's own low bits lie within the compact value. */
  predicate KeepsValue(service: Word, bits: Octet) {
    Low(service & 0x3F) | bits == bits
  }

  /** What a receiver makes of a service and the compact bits or-ed into it. */
  function SeenService(service: Word, bits: Octet): Word {
    ServiceOf((service & 0x03FF) | (bits as bv16))
  }

  function SeenValue(service: Word, bits: Octet): Octet {
    (((service & 0x03FF) | (bits as bv16)) & 0x3F) as bv8
  }

  lemma SeenExactly(service: Word, bits: Octet)
    requires bits & 0x3F == bits
    ensures SeenService(service, bits) == service <==> KeepsService(service, bits)
    ensures SeenValue(service, bits) == bits <==> KeepsValue(service, bits)
  {
  }

  lemma FrameSees(m: Message)
    ensures FrameOf(m).service == SeenService(m.service, PayloadBits(m.payload))
    ensures m.payload.Compact? ==> FrameOf(m).compactValue == SeenValue(m.service, PayloadBits(m.payload))
  {
  }

  /** Over the whole trip, the service and the compact value come back exactly under those conditions. */
  lemma ServiceSurvives(m: Message)
    requires Encodable(m)
    ensures Decode(Wire(m)) == Ok(FrameOf(m))
    ensures FrameOf(m).service == m.service <==> KeepsService(m.service, PayloadBits(m.payload))
    ensures m.payload.Compact? ==>
              (FrameOf(m).compactValue == PayloadBits(m.payload) <==> KeepsValue(m.service, PayloadBits(m.payload)))
  {
    SeenExactly(m.service, PayloadBits(m.payload));
    FrameSees(m);
    DecodeEncoded(m);
  }

  /** A service the group telegrams use: ten bits, the low six of them zero, and not an escape. */
  predicate Plain(service: Word) {
    service <= 0x03FF && service & 0x3F == 0 && !Escaped(service)
  }

  lemma PlainKeepsBoth(service: Word, bits: Octet)
    requires Plain(service)
    ensures KeepsService(service, bits) && KeepsValue(service, bits)
  {
  }

  /** A value a group telegram carries in the APCI octet comes back with its service, less the bits beyond six. */
  lemma CompactValueSurvives(m: Message, value: Octet)
    requires Encodable(m) && Plain(m.service) && m.payload == MakeCompact(value)
    ensures Decode(Wire(m)) == Ok(FrameOf(m)) && FrameOf(m).service == m.service
    ensures FrameOf(m).IsCompact() && FrameOf(m).compactValue == value & 0x3F
  {
    PlainKeepsBoth(m.service, PayloadBits(m.payload));
    ServiceSurvives(m);
  }

  /** Whatever octets a payload can be made of come back, with the service of a group telegram; none come back as none. */
  lemma OctetsSurvive(m: Message, octets: seq<Octet>)
    requires Encodable(m) && Plain(m.service) && MakeExtended(octets) == Ok(m.payload)
    ensures |octets| <= MAX_OCTETS
    ensures Decode(Wire(m)) == Ok(FrameOf(m)) && FrameOf(m).service == m.service
    ensures FrameOf(m).PayloadView(Wire(m)) == octets
    ensures FrameOf(m).IsCompact() <==> octets == []
  {
    PlainKeepsBoth(m.service, PayloadBits(m.payload));
    ServiceSurvives(m);
    DecodeEncoded(m);
  }

  // ---------------------------------------------------------------- the image

  /**
  No additional information, a zero TPCI, the reserved, confirm and extended-format bits zero,
  and a frame type that follows the length.
  */
  predicate Canonical(bytes: seq<Octet>) {
    && Decode(bytes).Ok?
    && var f := Decode(bytes).value;
       && f.additionalInfoLength == 0
       && f.transportControl == 0
       && f.control1 & 0x41 == 0
       && f.control2 & 0x0F == 0
       && f.StandardFrame() == (f.dataLength <= MAX_STANDARD_DATA_LENGTH)
  }

  lemma EncodedIsCanonical(m: Message)
    requires Encodable(m)
    ensures Canonical(Wire(m))
  {
    DecodeEncoded(m);
    FrameReports(m);
    Control1Fields(m.options, DataLength(m.payload));
    Control2Fields(m.group, m.options.hopCount);
  }

  function OptionsOf(control1: Octet, control2: Octet): Options {
    Options((control1 & 0x0C) >> 2, (control2 & 0x70) >> 4, control1 & 0x02 != 0, control1 & 0x20 != 0, control1 & 0x10 != 0)
  }

  lemma ControlsRebuild(control1: Octet, control2: Octet, dataLength: nat)
    requires control1 & 0x41 == 0 && control2 & 0x0F == 0
    requires (control1 & 0x80 != 0) == (dataLength <= MAX_STANDARD_DATA_LENGTH)
    ensures ControlField1(OptionsOf(control1, control2), dataLength) == control1
    ensures ControlField2(control2 & 0x80 != 0, OptionsOf(control1, control2).hopCount) == control2
    ensures OptionsOf(control1, control2).hopCount <= 7
  {
  }

  /** A message decoded back into the fields it was built from, with the service and payload given. */
  function MessageFrom(f: Frame, service: Word, payload: Payload): Message {
    Message(f.code, f.source, f.destination, f.GroupAddressed(), service, payload, OptionsOf(f.control1, f.control2))
  }

  /** What a canonical string says octet by octet. */
  lemma CanonicalLayout(bytes: seq<Octet>)
    requires Canonical(bytes)
    ensures |bytes| >= MIN_L_DATA_SIZE && Decode(bytes).value == PlainFrame(bytes)
    ensures IsLData(bytes[0]) && bytes[1] == 0
    ensures ToNat(bytes[8]) == |bytes| - MIN_L_DATA_SIZE + 1 <= 255
    ensures bytes[8] == ToOctet(|bytes| - MIN_L_DATA_SIZE + 1)
    ensures bytes[9] & 0xFC == 0
  {
    OctetSurvives(bytes[1]);
    assert ToNat(bytes[1]) == 0;
    OctetSurvives(bytes[8]);
    DecodePlain(bytes);
  }

  /**
  A message built from a canonical string's own frame carries that string as soon as its
  payload has the right octets and its APCI octets come out right.
  */
  lemma MessageCarries(bytes: seq<Octet>, service: Word, payload: Payload)
    requires Canonical(bytes)
    requires PayloadOctets(payload) == bytes[MIN_L_DATA_SIZE..]
    requires High(service) & 0x03 == bytes[9] && Low(service) | PayloadBits(payload) == bytes[10]
    ensures var m := MessageFrom(Decode(bytes).value, service, payload);
            Encodable(m) && Wire(m) == bytes
  {
    CanonicalLayout(bytes);
    var m := MessageFrom(Decode(bytes).value, service, payload);
    assert DataLength(payload) == |bytes| - MIN_L_DATA_SIZE + 1;
    ControlsRebuild(bytes[2], bytes[3], DataLength(payload));
    SplitJoins(bytes[4], bytes[5]);
    SplitJoins(bytes[6], bytes[7]);
    CarriesIsWire(bytes, m);
  }

  lemma RawApciRebuilds(b9: Octet, b10: Octet)
    requires b9 & 0xFC == 0
    ensures var raw := Join(b9 & 0x03, b10);
            High(raw) & 0x03 == b9 && Low(raw) | 0 == b10
  {
  }

  lemma CanonicalHasPreimage(bytes: seq<Octet>) returns (m: Message)
    requires Canonical(bytes)
    ensures Encodable(m) && Wire(m) == bytes
  {
    CanonicalLayout(bytes);
    RawApciRebuilds(bytes[9], bytes[10]);
    var payload: Payload := if |bytes| == MIN_L_DATA_SIZE then Compact(0) else Extended(bytes[MIN_L_DATA_SIZE..]);
    MessageCarries(bytes, Join(bytes[9] & 0x03, bytes[10]), payload);
    m := MessageFrom(Decode(bytes).value, Join(bytes[9] & 0x03, bytes[10]), payload);
  }

  /** The byte strings the encoder can produce are exactly the canonical ones. */
  lemma ImageIsCanonical(bytes: seq<Octet>)
    ensures (exists m: Message :: Encodable(m) && Wire(m) == bytes) <==> Canonical(bytes)
  {
    if m: Message :| Encodable(m) && Wire(m) == bytes {
      EncodedIsCanonical(m);
    }
    if Canonical(bytes) {
      var m := CanonicalHasPreimage(bytes);
    }
  }

  // ---------------------------------------------------------------- losslessness

  /** The message a decoded frame describes, as a gateway would re-encode it. */
  function Rebuilt(bytes: seq<Octet>): Message
    requires Decode(bytes).Ok?
  {
    DecodedLengthIsExact(bytes);
    CompactIsSixBits(bytes);
    var f := Decode(bytes).value;
    MessageFrom(f, f.service, if f.IsCompact() then Compact(f.compactValue) else Extended(f.PayloadView(bytes)))
  }

  lemma CompactIsSixBits(bytes: seq<Octet>)
    requires Decode(bytes).Ok?
    ensures Decode(bytes).value.compactValue & 0x3F == Decode(bytes).value.compactValue
  {
  }

  /** The one thing decoding forgets: low APCI bits of a service that is not an escape, in front of octet payload. */
  predicate Forgets(bytes: seq<Octet>)
    requires |bytes| >= MIN_L_DATA_SIZE
  {
    var raw := Join(bytes[9] & 0x03, bytes[10]);
    |bytes| > MIN_L_DATA_SIZE && !Escaped(raw) && raw & 0x3F != 0
  }

  lemma DecodedApciRebuilds(b9: Octet, b10: Octet)
    requires b9 & 0xFC == 0
    ensures var raw := Join(b9 & 0x03, b10);
            && High(ServiceOf(raw)) & 0x03 == b9
            && Low(ServiceOf(raw)) | ((raw & 0x3F) as bv8) == b10
            && (Low(ServiceOf(raw)) | 0 == b10 <==> Escaped(raw) || raw & 0x3F == 0)
  {
  }

  lemma PlainService(bytes: seq<Octet>)
    requires Canonical(bytes)
    ensures |bytes| >= MIN_L_DATA_SIZE
    ensures var raw, m := Join(bytes[9] & 0x03, bytes[10]), Rebuilt(bytes);
            && m.service == ServiceOf(raw)
            && PayloadOctets(m.payload) == bytes[MIN_L_DATA_SIZE..]
            && PayloadBits(m.payload) == if |bytes| == MIN_L_DATA_SIZE then (raw & 0x3F) as bv8 else 0
  {
    CanonicalLayout(bytes);
    DecodePlain(bytes);
  }

  lemma LosslessOnlyIf(bytes: seq<Octet>)
    requires Decode(bytes).Ok? && Encodable(Rebuilt(bytes)) && Wire(Rebuilt(bytes)) == bytes
    ensures Canonical(bytes) && |bytes| >= MIN_L_DATA_SIZE && !Forgets(bytes)
  {
    EncodedIsCanonical(Rebuilt(bytes));
    ApciOf(Rebuilt(bytes), bytes);
    PlainService(bytes);
    DecodedApciRebuilds(bytes[9], bytes[10]) by {
      CanonicalLayout(bytes);
    }
  }

  lemma ApciOf(m: Message, bytes: seq<Octet>)
    requires Encodable(m) && Wire(m) == bytes
    ensures |bytes| >= MIN_L_DATA_SIZE && bytes[10] == Low(m.service) | PayloadBits(m.payload)
  {
  }

  lemma LosslessIf(bytes: seq<Octet>)
    requires Canonical(bytes) && |bytes| >= MIN_L_DATA_SIZE && !Forgets(bytes)
    ensures Encodable(Rebuilt(bytes)) && Wire(Rebuilt(bytes)) == bytes
  {
    CanonicalLayout(bytes);
    PlainService(bytes);
    DecodedApciRebuilds(bytes[9], bytes[10]);
    MessageCarries(bytes, Rebuilt(bytes).service, Rebuilt(bytes).payload);
  }

  /** Decoding and re-encoding gives the same octets exactly for the canonical strings that lose nothing. */
  lemma ReencodingIsLossless(bytes: seq<Octet>)
    requires Decode(bytes).Ok?
    ensures |bytes| >= MIN_L_DATA_SIZE
    ensures Encodable(Rebuilt(bytes)) && Wire(Rebuilt(bytes)) == bytes <==> Canonical(bytes) && !Forgets(bytes)
  {
    DecodedLengthIsExact(bytes);
    if Encodable(Rebuilt(bytes)) && Wire(Rebuilt(bytes)) == bytes {
      LosslessOnlyIf(bytes);
    }
    if Canonical(bytes) && !Forgets(bytes) {
      LosslessIf(bytes);
    }
  }
}
