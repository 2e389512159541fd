/** The fixed header of MQTT 3.1.1 section 2.2 and MQTT 5.0 section 2.1. A header is a plain
    value in the source, copied into each packet. */
module Header {
  import opened Bits
  import opened Wire
  import opened Varint
  import opened Streams

  const CONNECT: byte := 1
  const CONNACK: byte := 2
  const PUBLISH: byte := 3
  const PUBACK: byte := 4
  const PUBREC: byte := 5
  const PUBREL: byte := 6
  const PUBCOMP: byte := 7
  const SUBSCRIBE: byte := 8
  const SUBACK: byte := 9
  const UNSUBSCRIBE: byte := 10
  const UNSUBACK: byte := 11
  const PINGREQ: byte := 12
  const PINGRESP: byte := 13
  const DISCONNECT: byte := 14

  const MQTT_3_1_1: byte := 4
  const MQTT_5: byte := 5

  datatype FixedHeader = FixedHeader(
    messageType: byte,
    dup: bool,
    qos: byte,
    retain: bool,
    remainingLength: int)
  {
    predicate Validate() {
      0 <= remainingLength <= MAX_REMAINING_LENGTH
    }

    /** The flags and type fit the first byte. */
    predicate Packable() {
      messageType < 16 && qos < 4
    }

    /** `getFixedHeaderByte1`: oversized fields overlap or drop out, as in the source. */
    function FirstByte(): byte {
      FirstBits(messageType as bv8, dup, qos as bv8, retain) as int
    }

    function Packed(): (s: bytes) {
      [FirstByte()] + Uvarint(remainingLength % 0x1_0000_0000)
    }

    method Pack() returns (header: Buffer)
      ensures fresh(header) && header.contents == Packed()
    {
      header := new Buffer();
      header.WriteByte(FirstByte());
      var _ := WriteUvarint(header, remainingLength % 0x1_0000_0000);
    }
  }

  function FirstBits(messageType: bv8, dup: bool, qos: bv8, retain: bool): bv8 {
    (messageType << 4) | (if dup then 0x08 else 0) | (qos << 1) | (if retain then 0x01 else 0)
  }

  function NewHeader(messageType: byte): FixedHeader {
    FixedHeader(messageType, false, 0, false, 0)
  }

  function FromFirstBits(b: bv8, remainingLength: int): FixedHeader {
    FixedHeader((b >> 4) as int, b & 0x08 == 0x08, ((b & 0x06) >> 1) as int, b & 0x01 != 0, remainingLength)
  }

  /** The fields `Unpack` takes from the first byte. */
  function FromFirstByte(first: byte, remainingLength: int): FixedHeader {
    FromFirstBits(first as bv8, remainingLength)
  }

  function ParseUnpack(first: byte, s: bytes): (r: Parsed<FixedHeader>)
    ensures r.Err? ==> !r.error.Refused?
  {
    var (n, rest) :- ParseUvarint(s);
    Ok(FromFirstByte(first, n), rest)
  }

  /** First byte, remaining length and validation: how every packet reader starts. */
  function ParseHeader(s: bytes): (r: Parsed<FixedHeader>)
    ensures r.Ok? ==> IsSuffix(r.rest, s) && 2 <= |s| - |r.rest| <= 5
    ensures r.Ok? ==> r.value.Validate()
    ensures r.Err? ==> !r.error.Refused?
  {
    var (first, s1) :- ParseFull(s, 1);
    var (h, s2) :- ParseUnpack(first[0], s1);
    if h.Validate() then Ok(h, s2) else Err(InvalidLength)
  }

  method UnpackHeader(first: byte, r: Reader) returns (res: Result<FixedHeader>)
    modifies r
    ensures r.Advanced()
    ensures res == ParseUnpack(first, old(r.Rest())).Outcome()
    ensures res.Success? ==> r.Rest() == ParseUnpack(first, old(r.Rest())).rest
  {
    var b := first as bv8;
    var n :- DecodeUvarint(r);
    res := Success(FixedHeader((b >> 4) as int, b & 0x08 == 0x08, ((b & 0x06) >> 1) as int, b & 0x01 != 0, n));
  }

  method ReadHeader(r: Reader) returns (res: Result<FixedHeader>)
    modifies r
    ensures r.Advanced()
    ensures res == ParseHeader(old(r.Rest())).Outcome()
    ensures res.Success? ==> r.Rest() == ParseHeader(old(r.Rest())).rest
  {
    var b1 :- r.ReadFull(1);
    var fh :- UnpackHeader(b1[0], r);
    if !fh.Validate() {
      return Failure(InvalidLength);
    }
    res := Success(fh);
  }

  /** Header, then body, in one write. */
  method WriteFrame(w: Buffer, header: FixedHeader, body: bytes)
    modifies w
    ensures w.contents == old(w.contents) + (header.Packed() + body)
  {
    var packet := header.Pack();
    packet.Write(body);
    w.Write(packet.contents);
  }

  /** The first byte of MQTT 3.1.1 section 2.2 as a number: four bits of type, then the duplicate flag,
      two bits of QoS and the retain flag. */
  function FirstByteNumber(messageType: int, dup: bool, qos: int, retain: bool): int {
    16 * messageType + (if dup then 8 else 0) + 2 * qos + (if retain then 1 else 0)
  }

  lemma FirstBitsNumber(t: bv8, dup: bool, q: bv8, retain: bool)
    requires t < 16 && q < 4
    ensures FirstBits(t, dup, q, retain) as int == FirstByteNumber(t as int, dup, q as int, retain)
  {
    var d: bv8, r: bv8 := if dup then 0x08 else 0, if retain then 0x01 else 0;
    Shifts(t);
    Shifts(q);
    DisjointSum(t << 4, d);
    DisjointSum((t << 4) | d, q << 1);
    DisjointSum((t << 4) | d | (q << 1), r);
  }

  lemma FirstByteLayout(h: FixedHeader)
    requires h.Packable()
    ensures h.FirstByte() == FirstByteNumber(h.messageType, h.dup, h.qos, h.retain)
  {
    ByteBits(h.messageType);
    ByteBits(h.qos);
    FirstBitsNumber(h.messageType as bv8, h.dup, h.qos as bv8, h.retain);
  }

  lemma SameBits(b: bv8)
    ensures FirstBits(b >> 4, b & 0x08 == 0x08, (b & 0x06) >> 1, b & 0x01 != 0) == b
    ensures b >> 4 < 16 && (b & 0x06) >> 1 < 4
  {
  }

  lemma FirstByteSum(first: byte, n: int)
    ensures
      var h := FromFirstByte(first, n);
      first == FirstByteNumber(h.messageType, h.dup, h.qos, h.retain) && h.qos < 4 && h.remainingLength == n
  {
    hide FirstBits, FirstByteNumber;
    var b, h := first as bv8, FromFirstByte(first, n);
    ByteBits(first);
    SameBits(b);
    DecodedPackable(first, n);
    FirstBitsNumber(b >> 4, h.dup, (b & 0x06) >> 1, h.retain);
  }

  lemma Digits(x: int, t: int, d: int, q: int, r: int)
    requires x == 16 * t + 8 * d + 2 * q + r && 0 <= d <= 1 && 0 <= q <= 3 && 0 <= r <= 1
    ensures x / 16 == t && x / 8 % 2 == d && x / 2 % 4 == q && x % 2 == r
  {
    Quotient(x, 16, t, 8 * d + 2 * q + r);
    Quotient(x, 8, 2 * t + d, 2 * q + r);
    Quotient(2 * t + d, 2, t, d);
    Quotient(x, 2, 8 * t + 4 * d + q, r);
    Quotient(8 * t + 4 * d + q, 4, 2 * t + d, q);
  }
  /** The fields are read from those places. */
  lemma FirstByteRead(first: byte, n: int)
    ensures
      var h := FromFirstByte(first, n);
      && h.messageType == first / 16 && h.dup == (first / 8 % 2 == 1)
      && h.qos == first / 2 % 4 && h.retain == (first % 2 == 1) && h.remainingLength == n
  {
    hide FromFirstByte;
    var h := FromFirstByte(first, n);
    FirstByteSum(first, n);
    Digits(first, h.messageType, if h.dup then 1 else 0, h.qos, if h.retain then 1 else 0);
  }

  /** The check after `Unpack` is redundant: a length that was decoded is in range. */
  lemma ValidateNeverFails(first: byte, s: bytes)
    requires ParseUnpack(first, s).Ok?
    ensures ParseUnpack(first, s).value.Validate()
  {
    UvarintAccepted(s);
  }

  lemma DisjointFields(messageType: bv8, dup: bool, qos: bv8, retain: bool)
    requires messageType < 16 && qos < 4
    ensures var b := FirstBits(messageType, dup, qos, retain);
      b >> 4 == messageType && (b & 0x08 == 0x08) == dup && (b & 0x06) >> 1 == qos && (b & 0x01 != 0) == retain
  {
  }

  /** Decoded headers always fit. */
  lemma DecodedPackable(first: byte, n: int)
    ensures FromFirstByte(first, n).Packable()
  {
    var b := first as bv8;
    assert b >> 4 < 16 && (b & 0x06) >> 1 < 4;
  }

  lemma PackableRoundTrip(h: FixedHeader)
    requires h.Packable()
    ensures FromFirstByte(h.FirstByte(), h.remainingLength) == h
  {
    var t, q := h.messageType as bv8, h.qos as bv8;
    var b := FirstBits(t, h.dup, q, h.retain);
    ByteBits(h.messageType);
    ByteBits(h.qos);
    DisjointFields(t, h.dup, q, h.retain);
    assert h.FirstByte() as bv8 == b;
  }

  /** The first byte gives back all flags exactly when type and QoS fit their bits. */
  lemma FirstByteRoundTrip(h: FixedHeader)
    ensures FromFirstByte(h.FirstByte(), h.remainingLength) == h <==> h.Packable()
  {
    if h.Packable() {
      PackableRoundTrip(h);
    } else {
      DecodedPackable(h.FirstByte(), h.remainingLength);
    }
  }

  /** A header survives the wire exactly when its fields fit and its length is in range. */
  lemma HeaderRoundTrip(h: FixedHeader, t: bytes)
    ensures ParseHeader(h.Packed() + t) == Ok(h, t) <==> h.Packable() && h.Validate()
  {
    hide FirstBits, FromFirstByte, Uvarint, ParseUvarint;
    var n := h.remainingLength % 0x1_0000_0000;
    var s := h.Packed() + t;
    assert s[..1] == [h.FirstByte()] && s[1..] == Uvarint(n) + t;
    UvarintRoundTrip(n, t);
    FirstByteRoundTrip(h);
  }

  /** More input behind an accepted header changes nothing. */
  lemma HeaderExtend(s: bytes, t: bytes)
    requires ParseHeader(s).Ok?
    ensures ParseHeader(s + t) == Ok(ParseHeader(s).value, ParseHeader(s).rest + t)
  {
    hide FromFirstByte, ParseUvarint;
    FullExtend(s, 1, t);
    UvarintExtend(s[1..], t);
  }

  lemma HeaderType(s: bytes)
    requires ParseHeader(s).Ok?
    ensures s != [] && ParseHeader(s).value.messageType == s[0] / 16
  {
    hide FromFirstByte, ParseUvarint;
    assert s[..1][0] == s[0];
    FirstByteRead(s[0], ParseUvarint(s[1..]).value);
  }

  lemma PingHeader()
    ensures FixedHeader(PINGREQ, false, 0, false, 2).Packed() == [0xC0, 2]
  {
    assert FirstBits(12, false, 0, false) == 0xC0;
  }

  /** Re-encoding an accepted header takes no more bytes than were read. */
  lemma HeaderNoLonger(s: bytes)
    requires ParseHeader(s).Ok?
    ensures var Ok(h, rest) := ParseHeader(s);
      h.Packable() && |h.Packed()| <= |s| - |rest|
  {
    hide FirstBits, Uvarint, ParseUvarint;
    UvarintAccepted(s[1..]);
    DecodedPackable(s[0], ParseHeader(s).value.remainingLength);
  }
}
