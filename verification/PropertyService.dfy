/**
The cEMI device management property services: a packed seven-octet header and a run of data.

The layout is that of the KNX System Specifications, Volume 3/6/3 "EMI/IMI", device management.
*/
module PropertyService {
  import opened Octets
  import opened Results
  import opened Cemi

  const HEADER_SIZE: nat := 7
  const MAX_ELEMENTS: Octet := 0x0F
  const MAX_START_INDEX: Word := 0x0FFF

  /** `dataOffset` and `dataSize` name the data within the decoded buffer; encoding ignores them. */
  datatype PropertyFrame = PropertyFrame(
    code: Octet,
    objectType: Word,
    objectInstance: Octet,
    propertyId: Octet,
    elementCount: Octet,
    startIndex: Word,
    dataOffset: nat,
    dataSize: nat)
  {
    function Data(bytes: seq<Octet>): seq<Octet> {
      if dataSize == 0 || dataOffset + dataSize > |bytes| then []
      else bytes[dataOffset..dataOffset + dataSize]
    }
  }

  predicate IsPropertyService(code: Octet) {
    code == 0xFC || code == 0xFB || code == 0xF6 || code == 0xF5 || code == 0xF7
  }

  predicate InRange(v: PropertyFrame) {
    IsPropertyService(v.code) && v.elementCount <= MAX_ELEMENTS && v.startIndex <= MAX_START_INDEX
  }

  /** Element count in the high four bits, the top of the start index in the low four. */
  function Pack(count: Octet, start: Word): Octet {
    (count << 4) | (High(start) & 0x0F)
  }

  function Wire(v: PropertyFrame, data: seq<Octet>): seq<Octet> {
    [ v.code, High(v.objectType), Low(v.objectType), v.objectInstance, v.propertyId,
      Pack(v.elementCount, v.startIndex), Low(v.startIndex) ] + data
  }

  /** Writes the service in place, or reports the first reason it cannot and writes nothing. */
  method Encode(dest: array<Octet>, v: PropertyFrame, data: seq<Octet>) returns (r: Result<nat, Error>)
    modifies dest
    ensures r.Ok? <==> InRange(v) && |data| <= MAX_OCTETS && dest.Length >= HEADER_SIZE + |data|
    ensures r.Ok? ==> r.value == HEADER_SIZE + |data| && dest[..r.value] == Wire(v, data) && dest[r.value..] == old(dest[r.value..])
    ensures r.Err? ==> dest[..] == old(dest[..])
    ensures r.Err? ==> r.error == if !IsPropertyService(v.code) then UnsupportedMessageCode
                                  else if !InRange(v) then InvalidConfiguration
                                  else if |data| > MAX_OCTETS then PayloadTooLarge
                                  else InvalidLength
  {
    if !IsPropertyService(v.code) {
      return Err(UnsupportedMessageCode);
    }
    if v.elementCount > MAX_ELEMENTS || v.startIndex > MAX_START_INDEX {
      return Err(InvalidConfiguration);
    }
    if |data| > MAX_OCTETS {
      return Err(PayloadTooLarge);
    }
    var size := HEADER_SIZE + |data|;
    if dest.Length < size {
      return Err(InvalidLength);
    }
    WriteHeader(dest, [v.code, High(v.objectType), Low(v.objectType), v.objectInstance, v.propertyId,
                       Pack(v.elementCount, v.startIndex), Low(v.startIndex)]);
    WriteOctets(dest, HEADER_SIZE, data);
    assert dest[..size] == dest[..HEADER_SIZE] + dest[HEADER_SIZE..size];
    return Ok(size);
  }

  method WriteHeader(dest: array<Octet>, header: seq<Octet>)
    requires |header| == HEADER_SIZE <= dest.Length
    modifies dest
    ensures dest[..HEADER_SIZE] == header
    ensures forall j :: HEADER_SIZE <= j < dest.Length ==> dest[j] == old(dest[j])
  {
    dest[0] := header[0];
    dest[1] := header[1];
    dest[2] := header[2];
    dest[3] := header[3];
    dest[4] := header[4];
    dest[5] := header[5];
    dest[6] := header[6];
  }

  function HeaderFrame(bytes: seq<Octet>): PropertyFrame
    requires |bytes| >= HEADER_SIZE
  {
    // the data size is stored in sixteen bits
    var dataSize := |bytes| - HEADER_SIZE;
    PropertyFrame(bytes[0], Join(bytes[1], bytes[2]), bytes[3], bytes[4],
                  (bytes[5] >> 4) & 0x0F, Join(bytes[5] & 0x0F, bytes[6]),
                  if dataSize == 0 then 0 else HEADER_SIZE, dataSize % 0x1_0000)
  }

  function Decode(bytes: seq<Octet>): Result<PropertyFrame, Error> {
    if bytes == [] then Err(MalformedFrame)
    else if !IsPropertyService(bytes[0]) then Err(UnsupportedMessageCode)
    else if |bytes| < HEADER_SIZE then Err(MalformedFrame)
    else Ok(HeaderFrame(bytes))
  }

  lemma Unpacks(count: Octet, start: Word)
    requires count <= MAX_ELEMENTS && start <= MAX_START_INDEX
    ensures (Pack(count, start) >> 4) & 0x0F == count
    ensures Join(Pack(count, start) & 0x0F, Low(start)) == start
  {
  }

  lemma Repacks(b5: Octet, b6: Octet)
    ensures var count, start := (b5 >> 4) & 0x0F, Join(b5 & 0x0F, b6);
            count <= MAX_ELEMENTS && start <= MAX_START_INDEX && Pack(count, start) == b5 && Low(start) == b6
  {
  }

  /** Decoding inverts encoding for every in-range header and every run of data the encoder accepts. */
  lemma DecodeEncoded(v: PropertyFrame, data: seq<Octet>)
    requires InRange(v) && |data| <= MAX_OCTETS
    ensures Decode(Wire(v, data)) ==
            Ok(v.(dataOffset := if data == [] then 0 else HEADER_SIZE, dataSize := |data|))
    ensures Decode(Wire(v, data)).value.Data(Wire(v, data)) == data
  {
    Unpacks(v.elementCount, v.startIndex);
    JoinSplits(v.objectType);
  }

  lemma HeaderRebuilds(bytes: seq<Octet>, data: seq<Octet>)
    requires |bytes| >= HEADER_SIZE
    ensures Wire(HeaderFrame(bytes), data) == bytes[..HEADER_SIZE] + data
    ensures IsPropertyService(bytes[0]) ==> InRange(HeaderFrame(bytes))
  {
    Repacks(bytes[5], bytes[6]);
    SplitJoins(bytes[1], bytes[2]);
  }

  /**
  Encoding inverts decoding exactly for messages of at most 254 data octets. Anything longer
  is accepted by the decoder, yet re-encoding it is refused or, past 65535 octets where the
  stored size wraps, yields a shorter message.
  */
  lemma EncodeDecoded(bytes: seq<Octet>)
    requires Decode(bytes).Ok?
    ensures var v := Decode(bytes).value;
            InRange(v) && |v.Data(bytes)| <= MAX_OCTETS && Wire(v, v.Data(bytes)) == bytes
            <==> |bytes| - HEADER_SIZE <= MAX_OCTETS
  {
    var v := Decode(bytes).value;
    HeaderRebuilds(bytes, v.Data(bytes));
    if |bytes| - HEADER_SIZE <= MAX_OCTETS {
      assert v.Data(bytes) == bytes[HEADER_SIZE..];
    }
  }
}
