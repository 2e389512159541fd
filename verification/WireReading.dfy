/** What the readers make of frames that are cut off, longer than their packet, or of a type they do
    not know. */
module WireReading {
  import opened Wire
  import opened Varint
  import opened Header
  import opened Connect
  import opened Codec
  import opened WireLayout
  import V311
  import V5

  // ----- cut off -----

  /** What is missing behind `n` bytes: nothing has come of the next field, or a part of it. */
  function Missing(atBoundary: bool): Error {
    if atBoundary then EOF else UnexpectedEOF
  }

  lemma CutUvarint(x: nat, n: nat)
    requires x <= MAX_REMAINING_LENGTH && n < |Uvarint(x)|
    ensures ParseUvarint(Uvarint(x)[..n]) == Err(Missing(n == 0))
  {
    UvarintDigits(x);
    PowValues();
    UvarintLength(x, |Uvarint(x)|);
    if |Uvarint(x)| > 4 {
      PowMonotone(4, |Uvarint(x)| - 1);
    }
    ContinuationsAre(Uvarint(x)[..n], n);
  }

  lemma CutHeader(h: FixedHeader, n: nat)
    requires h.Packable() && h.Validate() && n < |h.Packed()|
    ensures ParseHeader(h.Packed()[..n]) == Err(Missing(n <= 1))
  {
    hide FixedHeader.FirstByte, Uvarint, ParseUvarint, FromFirstByte;
    var u, s := Uvarint(h.remainingLength), h.Packed()[..n];
    if n > 0 {
      assert s[..1] == [h.FirstByte()] && s[1..] == u[..n - 1];
      CutUvarint(h.remainingLength, n - 1);
    }
  }

  lemma CutBody(h: FixedHeader, body: bytes, n: nat)
    requires h.Packable() && h.Validate() && h.remainingLength == |body| && n < |body|
    ensures V311.NewWithHeader(h).Success? ==> V311.ParsePacket(h.Packed() + body[..n]) == Err(Missing(n == 0))
    ensures V5.NewWithHeader(h).Success? ==> V5.ParsePacket(h.Packed() + body[..n]) == Err(Missing(n == 0))
  {
    hide FixedHeader.Packed, ParseHeader;
    HeaderRoundTrip(h, body[..n]);
  }

  lemma CutFrame(h: FixedHeader, body: bytes, n: nat)
    requires h.Packable() && h.Validate() && h.remainingLength == |body| && n < |h.Packed() + body|
    ensures
      var cut := Missing(n in {0, 1, |h.Packed()|});
      && (V311.NewWithHeader(h).Success? ==> V311.ParsePacket((h.Packed() + body)[..n]) == Err(cut))
      && (V5.NewWithHeader(h).Success? ==> V5.ParsePacket((h.Packed() + body)[..n]) == Err(cut))
  {
    hide FixedHeader.Packed, ParseHeader, V311.ParseBody, V5.ParseBody;
    var k := |h.Packed()|;
    HeaderAtLeast(h);
    if n < k {
      assert (h.Packed() + body)[..n] == h.Packed()[..n];
      CutHeader(h, n);
    } else {
      assert (h.Packed() + body)[..n] == h.Packed() + body[..n - k];
      CutBody(h, body, n - k);
    }
  }

  lemma HeaderAtLeast(h: FixedHeader)
    ensures |h.Packed()| >= 2
  {
  }

  /** A frame that is cut off is never taken for a packet. The end of the input counts as a clean one
      only in front of a field of the frame: before its first byte, behind it, or behind the header. */
  lemma CutOff(p: ControlPacket, n: nat)
    requires p.WellFormed() && n < |p.Frame()|
    ensures ParseAs(p.Version(), p.Frame()[..n])
      == Err(if n in {0, 1, |p.Written().Header().Packed()|} then EOF else UnexpectedEOF)
  {
    hide V311.ParsePacket, V5.ParsePacket, V311.Packet.Body, V5.Packet.Body, FixedHeader.Packed;
    match p
    case P311(q) => CutFrame(q.Written().header, q.Body(), n);
    case P5(q) => CutFrame(q.Written().header, q.Body(), n);
  }

  // ----- longer than the packet -----

  lemma VariableExtend(s: bytes, t: bytes)
    requires ParseVariableHeader(s).Ok?
    ensures ParseVariableHeader(s + t) == Ok(ParseVariableHeader(s).value, ParseVariableHeader(s).rest + t)
  {
    hide ParseBytes, DecodeFlags;
    BytesExtend(s, t);
    var s1 := ParseBytes(s).rest;
    var s2 := ParseByte(s1).rest;
    var s3 := ParseByte(s2).rest;
    ByteExtend(s1, t);
    ByteExtend(s2, t);
    FullExtend(s3, 2, t);
  }

  lemma ByteExtend(s: bytes, t: bytes)
    requires s != []
    ensures ParseByte(s + t) == Ok(s[0], s[1..] + t)
  {
    assert (s + t)[1..] == s[1..] + t;
  }

  lemma OptionalExtend(present: bool, before: bytes, s: bytes, t: bytes)
    requires ParseOptional(present, before, s).Ok?
    ensures var r := ParseOptional(present, before, s);
      ParseOptional(present, before, s + t) == Ok(r.value, r.rest + t)
  {
    if present {
      BytesExtend(s, t);
    }
  }

  lemma Payload311Extend(f: Flags, s: bytes, t: bytes)
    requires V311.ParsePayload(f, V311.NO_PAYLOAD, s).Ok?
    ensures var r := V311.ParsePayload(f, V311.NO_PAYLOAD, s);
      V311.ParsePayload(f, V311.NO_PAYLOAD, s + t) == Ok(r.value, r.rest + t)
  {
    hide ParseBytes, ParseOptional;
    BytesExtend(s, t);
    var s1 := ParseBytes(s).rest;
    var s2 := ParseOptional(f.willFlag, [], s1).rest;
    var s3 := ParseOptional(f.willFlag, [], s2).rest;
    var s4 := ParseOptional(f.hasUsername, [], s3).rest;
    OptionalExtend(f.willFlag, [], s1, t);
    OptionalExtend(f.willFlag, [], s2, t);
    OptionalExtend(f.hasUsername, [], s3, t);
    OptionalExtend(f.hasPassword, [], s4, t);
  }

  lemma PropertiesExtend(s: bytes, t: bytes)
    requires V5.ParseProperties(s).Ok?
    ensures V5.ParseProperties(s + t) == Ok(V5.ParseProperties(s).value, V5.ParseProperties(s).rest + t)
  {
    hide ParseUvarint;
    UvarintExtend(s, t);
    FullExtend(ParseUvarint(s).rest, ParseUvarint(s).value, t);
  }

  lemma OptionalPropertiesExtend(present: bool, s: bytes, t: bytes)
    requires V5.ParseOptionalProperties(present, [], s).Ok?
    ensures var r := V5.ParseOptionalProperties(present, [], s);
      V5.ParseOptionalProperties(present, [], s + t) == Ok(r.value, r.rest + t)
  {
    if present {
      PropertiesExtend(s, t);
    }
  }

  lemma Payload5Extend(f: Flags, s: bytes, t: bytes)
    requires V5.ParsePayload(f, V5.NO_PAYLOAD, s).Ok?
    ensures var r := V5.ParsePayload(f, V5.NO_PAYLOAD, s);
      V5.ParsePayload(f, V5.NO_PAYLOAD, s + t) == Ok(r.value, r.rest + t)
  {
    hide ParseBytes, ParseOptional, V5.ParseOptionalProperties;
    BytesExtend(s, t);
    var s1 := ParseBytes(s).rest;
    var s2 := V5.ParseOptionalProperties(f.willFlag, [], s1).rest;
    var s3 := ParseOptional(f.willFlag, [], s2).rest;
    var s4 := ParseOptional(f.willFlag, [], s3).rest;
    var s5 := ParseOptional(f.hasUsername, [], s4).rest;
    OptionalPropertiesExtend(f.willFlag, s1, t);
    OptionalExtend(f.willFlag, [], s2, t);
    OptionalExtend(f.willFlag, [], s3, t);
    OptionalExtend(f.hasUsername, [], s4, t);
    OptionalExtend(f.hasPassword, [], s5, t);
  }

  /** The packets whose body ends before their frame does if more is announced than they need. */
  predicate Delimited(p: ControlPacket) {
    match p
    case P311(q) => q.Connect? || q.Connack? || q.Ack? || q.Empty?
    case P5(q) => q.Connect? || q.Connack? || q.Empty? || Reasoned(q)
  }

  /** Written with its reason code and properties. */
  predicate Reasoned(q: V5.Packet) {
    (q.Ack? || q.Disconnect?) && (q.reasonCode != 0 || q.properties != [])
  }

  /** The same packet in a frame of `n` bytes behind the header. */
  function Announcing(p: ControlPacket, n: int): ControlPacket {
    match p
    case P311(q) => P311(Announcing311(q, n))
    case P5(q) => P5(Announcing5(q, n))
  }

  function Announcing311(q: V311.Packet, n: int): (r: V311.Packet)
    ensures r.header == q.header.(remainingLength := n)
  {
    q.(header := q.header.(remainingLength := n))
  }

  function Announcing5(q: V5.Packet, n: int): (r: V5.Packet)
    ensures r.header == q.header.(remainingLength := n)
  {
    q.(header := q.header.(remainingLength := n))
  }

  function BodyOf(p: ControlPacket): bytes {
    match p
    case P311(q) => q.Body()
    case P5(q) => q.Body()
  }

  /** `q` is read from its body with `more` behind it, in a frame that long, and `more` is left over. */
  predicate Skips311(q: V311.Packet, more: bytes) {
    var r := Announcing311(q, |q.Body()| + |more|);
    && V311.NewWithHeader(r.header).Success?
    && V311.ParseBody(V311.NewWithHeader(r.header).value, q.Body() + more) == Ok(r, more)
  }

  predicate Skips5(q: V5.Packet, more: bytes) {
    var r := Announcing5(q, |q.Body()| + |more|);
    && V5.NewWithHeader(r.header).Success?
    && V5.ParseBody(V5.NewWithHeader(r.header).value, q.Body() + more) == Ok(r, more)
  }

  lemma Connect311Skips(q: V311.Packet, more: bytes)
    requires q.WellFormed() && q.Connect?
    ensures Skips311(q, more)
  {
    hide V311.ParsePayload, ParseVariableHeader, V311.Payload.Encode, VariableHeader.Encode, V311.Payload.Fits;
    var v, t := q.variable, q.payload.Encode(q.variable.flags);
    assert q.Body() + more == v.Encode() + (t + more);
    VariableHeaderRoundTrip(v, t + more);
    V311.PayloadRoundTrip(q.payload, v.flags);
    Payload311Extend(v.flags, t, more);
    assert [] + more == more;
  }

  lemma Connack311Skips(q: V311.Packet, more: bytes)
    requires q.WellFormed() && q.Connack?
    ensures Skips311(q, more)
  {
    ByteExtend(q.Body(), more);
    ByteExtend(q.Body()[1..], more);
    assert q.Body()[1..][1..] + more == more;
  }

  lemma Ack311Skips(q: V311.Packet, more: bytes)
    requires q.WellFormed() && q.Ack?
    ensures Skips311(q, more)
  {
    hide ParseUint16, EncodeUint16;
    Uint16RoundTrip(q.messageID, more);
  }

  lemma Empty311Skips(q: V311.Packet, more: bytes)
    requires q.WellFormed() && q.Empty?
    ensures Skips311(q, more)
  {
    assert [] + more == more;
  }

  lemma Connect5Skips(q: V5.Packet, more: bytes)
    requires q.WellFormed() && q.Connect?
    ensures Skips5(q, more)
  {
    hide V5.ParsePayload, ParseVariableHeader, V5.Payload.Encode, VariableHeader.Encode, V5.Payload.Fits;
    hide V5.ParseProperties, V5.EncodeProperties;
    var v, properties, t := q.variable, q.properties, q.payload.Encode(q.variable.flags);
    assert q.Body() + more == v.Encode() + (V5.EncodeProperties(properties) + (t + more));
    VariableHeaderRoundTrip(v, V5.EncodeProperties(properties) + (t + more));
    V5.PropertiesRoundTrip(properties, t + more);
    V5.PayloadRoundTrip(q.payload, v.flags);
    Payload5Extend(v.flags, t, more);
    assert [] + more == more;
  }

  lemma Connack5Skips(q: V5.Packet, more: bytes)
    requires q.WellFormed() && q.Connack?
    ensures Skips5(q, more)
  {
    hide V5.ParseProperties, V5.EncodeProperties;
    var t, present: byte := V5.EncodeProperties(q.properties) + more, if q.sessionPresent then 1 else 0;
    assert q.Body() + more == [present] + ([q.returnCode] + t);
    assert ([present] + ([q.returnCode] + t))[1..] == [q.returnCode] + t;
    assert ([q.returnCode] + t)[1..] == t;
    V5.PropertiesRoundTrip(q.properties, more);
  }

  lemma Ack5Skips(q: V5.Packet, more: bytes)
    requires q.WellFormed() && q.Ack? && Reasoned(q)
    ensures Skips5(q, more)
  {
    hide V5.ParseProperties, V5.EncodeProperties, ParseUint16, EncodeUint16;
    var t := V5.EncodeProperties(q.properties) + more;
    assert q.Body() + more == EncodeUint16(q.messageID) + ([q.reasonCode] + t);
    Uint16RoundTrip(q.messageID, [q.reasonCode] + t);
    assert ([q.reasonCode] + t)[1..] == t;
    V5.PropertiesRoundTrip(q.properties, more);
  }

  lemma Disconnect5Skips(q: V5.Packet, more: bytes)
    requires q.WellFormed() && q.Disconnect? && Reasoned(q)
    ensures Skips5(q, more)
  {
    hide V5.ParseProperties, V5.EncodeProperties;
    var t := V5.EncodeProperties(q.properties) + more;
    assert q.Body() + more == [q.reasonCode] + t;
    assert ([q.reasonCode] + t)[1..] == t;
    V5.PropertiesRoundTrip(q.properties, more);
  }

  lemma Empty5Skips(q: V5.Packet, more: bytes)
    requires q.WellFormed() && q.Empty?
    ensures Skips5(q, more)
  {
    assert [] + more == more;
  }

  lemma MoreThanNeeded311(q: V311.Packet, more: bytes, t: bytes)
    requires q.WellFormed() && Delimited(P311(q)) && |q.Body()| + |more| <= MAX_REMAINING_LENGTH
    ensures
      var r := Announcing311(q, |q.Body()| + |more|);
      V311.ParsePacket(r.header.Packed() + (q.Body() + more + t)) == Ok(r, t)
  {
    hide FixedHeader.Packed, V311.ParsePacket, V311.ParseBody, V311.Packet.Body;
    match q {
      case Connect(_, _, _) => Connect311Skips(q, more);
      case Connack(_, _, _) => Connack311Skips(q, more);
      case Ack(_, _) => Ack311Skips(q, more);
      case Empty(_) => Empty311Skips(q, more);
    }
    V311.Unframe(Announcing311(q, |q.Body()| + |more|).header, q.Body() + more, t);
  }

  lemma MoreThanNeeded5(q: V5.Packet, more: bytes, t: bytes)
    requires q.WellFormed() && Delimited(P5(q)) && |q.Body()| + |more| <= MAX_REMAINING_LENGTH
    ensures
      var r := Announcing5(q, |q.Body()| + |more|);
      V5.ParsePacket(r.header.Packed() + (q.Body() + more + t)) == Ok(r, t)
  {
    hide FixedHeader.Packed, V5.ParsePacket, V5.ParseBody, V5.Packet.Body;
    match q {
      case Connect(_, _, _, _) => Connect5Skips(q, more);
      case Connack(_, _, _, _) => Connack5Skips(q, more);
      case Ack(_, _, _, _) => Ack5Skips(q, more);
      case Disconnect(_, _, _) => Disconnect5Skips(q, more);
      case Empty(_) => Empty5Skips(q, more);
    }
    V5.Unframe(Announcing5(q, |q.Body()| + |more|).header, q.Body() + more, t);
  }

  /** A frame may be longer than its packet: whatever stands behind the last field is skipped, and the
      next packet begins behind the announced length. */
  lemma MoreThanNeeded(p: ControlPacket, more: bytes, t: bytes)
    requires p.WellFormed() && Delimited(p) && |BodyOf(p)| + |more| <= 268435455
    ensures
      var q := Announcing(p, |BodyOf(p)| + |more|);
      ParseAs(p.Version(), q.Header().Packed() + (BodyOf(p) + more + t)) == Ok(q, t)
  {
    hide FixedHeader.Packed, V311.ParsePacket, V5.ParsePacket, V311.Packet.Body, V5.Packet.Body;
    match p
    case P311(q) => MoreThanNeeded311(q, more, t);
    case P5(q) => MoreThanNeeded5(q, more, t);
  }

  // ----- types and flags -----

  lemma UnknownType(h: FixedHeader)
    ensures V311.NewWithHeader(h) == Failure(UnsupportedType) <==> h.messageType == 0 || h.messageType > 14
    ensures V5.NewWithHeader(h) == Failure(UnsupportedType)
      <==> h.messageType == 0 || 8 <= h.messageType <= 11 || h.messageType > 14
  {
  }

  /** Version 3.1.1 knows the types 1 to 14, version 5 as it is implemented neither SUBSCRIBE nor
      UNSUBSCRIBE nor their answers. AUTH is not known to either. */
  lemma UnknownTypes(s: bytes)
    requires ParseHeader(s).Ok? && s != []
    ensures s[0] / 16 in {0, 15} ==> V311.ParsePacket(s) == Err(UnsupportedType)
    ensures s[0] / 16 in {0, 8, 9, 10, 11, 15} ==> V5.ParsePacket(s) == Err(UnsupportedType)
  {
    hide ParseHeader, V311.NewWithHeader, V5.NewWithHeader, V311.ParseBody, V5.ParseBody, ParseFull;
    HeaderType(s);
    UnknownType(ParseHeader(s).value);
  }

  /** Only the lowest bit of CONNACK's first byte tells of a session. */
  lemma ConnackFlags(flags: byte, code: byte)
    ensures V311.ParsePacket([0x20, 2, flags, code])
      == Ok(V311.Connack(FixedHeader(2, false, 0, false, 2), flags % 2 == 1, code), [])
    ensures V5.ParsePacket([0x20, 3, flags, code, 0])
      == Ok(V5.Connack(FixedHeader(2, false, 0, false, 3), flags % 2 == 1, code, []), [])
  {
    hide FixedHeader.Packed, V311.ParsePacket, V5.ParsePacket, ParseUvarint;
    var h, k := FixedHeader(2, false, 0, false, 2), FixedHeader(2, false, 0, false, 3);
    HeaderLayout(h);
    HeaderLayout(k);
    UvarintRoundTrip(0, []);
    var body, body5: bytes := [flags, code], [flags, code, 0];
    V311.Unframe(h, body, []);
    V5.Unframe(k, body5, []);
    assert body[1..][1..] == [];
    assert body5[1..][1..] == [0] == Uvarint(0) + [];
    assert h.Packed() + (body + []) == [0x20, 2, flags, code];
    assert k.Packed() + (body5 + []) == [0x20, 3, flags, code, 0];
  }
}
