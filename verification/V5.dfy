/** The packets of MQTT 5.0 as values: how each is laid out, how each is parsed, and which of them
    survive the wire. The classes that build and read them are in `V5Packets.dfy`. */
module V5 {
  import opened Wire
  import opened Varint
  import opened Header
  import opened Connect

  // ----- property blocks -----

  /** A property block is kept as the raw bytes behind its length. */
  function EncodeProperties(rawData: bytes): bytes {
    Uvarint(|rawData| % 0x1_0000_0000) + rawData
  }

  function ParseProperties(s: bytes): (r: Parsed<bytes>)
    ensures r.Ok? ==> |r.value| <= MAX_REMAINING_LENGTH && |EncodeProperties(r.value)| + |r.rest| <= |s|
    ensures r.Err? ==> !r.error.Refused?
  {
    var (totalLength, s1) :- ParseUvarint(s);
    UvarintAccepted(s);
    ParseFull(s1, totalLength)
  }

  lemma PropertiesRoundTrip(rawData: bytes, t: bytes)
    requires |rawData| <= MAX_REMAINING_LENGTH
    ensures ParseProperties(EncodeProperties(rawData) + t) == Ok(rawData, t)
  {
    hide Uvarint, ParseUvarint, ParseFull;
    UvarintRoundTrip(|rawData|, rawData + t);
    assert EncodeProperties(rawData) + t == Uvarint(|rawData|) + (rawData + t);
    FullRoundTrip(rawData, t);
  }

  function OptionalProperties(present: bool, rawData: bytes): bytes {
    if present then EncodeProperties(rawData) else []
  }

  predicate OptionalPropertiesFit(present: bool, rawData: bytes) {
    if present then |rawData| <= MAX_REMAINING_LENGTH else rawData == []
  }

  function ParseOptionalProperties(present: bool, before: bytes, s: bytes): (r: Parsed<bytes>)
    ensures r.Ok? && before == [] ==>
      OptionalPropertiesFit(present, r.value) && |OptionalProperties(present, r.value)| + |r.rest| <= |s|
    ensures r.Err? ==> !r.error.Refused?
  {
    if present then ParseProperties(s) else Ok(before, s)
  }

  lemma OptionalPropertiesRoundTrip(present: bool, rawData: bytes, t: bytes)
    requires OptionalPropertiesFit(present, rawData)
    ensures ParseOptionalProperties(present, [], OptionalProperties(present, rawData) + t) == Ok(rawData, t)
  {
    if present {
      PropertiesRoundTrip(rawData, t);
    } else {
      assert OptionalProperties(present, rawData) + t == t;
    }
  }

  // ----- packets -----

  /** The payload of CONNECT: which fields follow the client identifier is up to the flags. */
  datatype Payload = Payload(
    clientIdentifier: bytes,
    willProperties: bytes,
    willTopic: bytes,
    willPayload: bytes,
    username: bytes,
    password: bytes)
  {
    function Encode(flags: Flags): bytes {
      EncodeBytes(clientIdentifier)
      + (OptionalProperties(flags.willFlag, willProperties)
         + (Optional(flags.willFlag, willTopic)
            + (Optional(flags.willFlag, willPayload)
               + (Optional(flags.hasUsername, username) + Optional(flags.hasPassword, password)))))
    }

    predicate Fits(flags: Flags) {
      && |clientIdentifier| <= MAX_STRING
      && OptionalPropertiesFit(flags.willFlag, willProperties)
      && OptionalFits(flags.willFlag, willTopic) && OptionalFits(flags.willFlag, willPayload)
      && OptionalFits(flags.hasUsername, username) && OptionalFits(flags.hasPassword, password)
    }
  }

  const NO_PAYLOAD := Payload([], [], [], [], [], [])

  /** `Ack` stands for PUBACK, PUBREC, PUBREL and PUBCOMP, `Empty` for PINGREQ and PINGRESP; the
      header tells which. */
  datatype Packet =
    | Connect(header: FixedHeader, variable: VariableHeader, properties: bytes, payload: Payload)
    | Connack(header: FixedHeader, sessionPresent: bool, returnCode: byte, properties: bytes)
    | Publish(header: FixedHeader, topicName: bytes, messageID: uint16, properties: bytes, message: bytes)
    | Ack(header: FixedHeader, messageID: uint16, reasonCode: byte, properties: bytes)
    | Disconnect(header: FixedHeader, reasonCode: byte, properties: bytes)
    | Empty(header: FixedHeader)
  {
    /** Everything behind the fixed header. Acknowledgements and DISCONNECT leave out a zero
        reason code when no properties follow. */
    function Body(): (b: bytes)
      ensures KeepsLength() ==> b == []
    {
      match this
      case Connect(_, variable, properties, payload) =>
        variable.Encode() + (EncodeProperties(properties) + payload.Encode(variable.flags))
      case Connack(_, sessionPresent, returnCode, properties) =>
        [if sessionPresent then 1 else 0, returnCode] + EncodeProperties(properties)
      case Publish(h, topicName, messageID, properties, message) =>
        EncodeBytes(topicName)
        + ((if h.qos > 0 then EncodeUint16(messageID) else []) + (EncodeProperties(properties) + message))
      case Ack(_, messageID, reasonCode, properties) =>
        EncodeUint16(messageID)
        + if reasonCode == 0 && properties == [] then [] else [reasonCode] + EncodeProperties(properties)
      case Disconnect(_, reasonCode, properties) =>
        if reasonCode == 0 && properties == [] then [] else [reasonCode] + EncodeProperties(properties)
      case Empty(_) => []
    }

    /** `Write` leaves the stored length of these as it is. */
    predicate KeepsLength() {
      Empty? || (Disconnect? && reasonCode == 0 && properties == [])
    }

    /** The packet after `Write`. */
    function Written(): Packet {
      if KeepsLength() then this else this.(header := header.(remainingLength := |Body()|))
    }

    /** The bytes `Write` produces. */
    function Frame(): bytes {
      Written().header.Packed() + Body()
    }

    function WithoutReserved(): Packet {
      if Connect? then this.(variable := variable.WithoutReserved()) else this
    }

    /** What `Write` keeps of a packet: its header carries the written length and the reserved
        bit of CONNECT is gone. */
    function Normal(): Packet {
      WithoutReserved().Written()
    }

    /** What every decoded packet satisfies. */
    predicate Shape() {
      && header.Packable()
      && match this
         case Connect(h, variable, properties, payload) =>
           && h.messageType == CONNECT && variable.Fits() && payload.Fits(variable.flags)
           && |properties| <= MAX_REMAINING_LENGTH
         case Connack(h, _, _, properties) => h.messageType == CONNACK && |properties| <= MAX_REMAINING_LENGTH
         case Publish(h, topicName, messageID, properties, _) =>
           && h.messageType == PUBLISH && |topicName| <= MAX_STRING && (h.qos == 0 ==> messageID == 0)
           && |properties| <= MAX_REMAINING_LENGTH
         case Ack(h, _, _, properties) =>
           h.messageType in {PUBACK, PUBREC, PUBREL, PUBCOMP} && |properties| <= MAX_REMAINING_LENGTH
         case Disconnect(h, _, properties) => h.messageType == DISCONNECT && |properties| <= MAX_REMAINING_LENGTH
         case Empty(h) => h.messageType in {PINGREQ, PINGRESP}
    }

    /** A packet announcing a body that `Write` does not produce. */
    predicate Stale() {
      KeepsLength() && header.remainingLength != 0
    }

    /** The packets that survive the wire, by `FrameRoundTrip`. */
    predicate WellFormed() {
      && Shape()
      && |Body()| <= MAX_REMAINING_LENGTH
      && (Connect? ==> !variable.flags.reserved)
      && !Stale()
    }
  }

  /** `NewControlPacketWithHeader`: a packet of the header's type with all other fields zero. */
  function NewWithHeader(h: FixedHeader): Result<Packet> {
    match h.messageType
    case 1 => Success(Connect(h, NO_VARIABLE_HEADER, [], NO_PAYLOAD))
    case 2 => Success(Connack(h, false, 0, []))
    case 3 => Success(Publish(h, [], 0, [], []))
    case 4 | 5 | 6 | 7 => Success(Ack(h, 0, 0, []))
    case 12 | 13 => Success(Empty(h))
    case 14 => Success(Disconnect(h, 0, []))
    case _ => Failure(UnsupportedType)
  }

  function ParsePayload(flags: Flags, before: Payload, s: bytes): (r: Parsed<Payload>)
    ensures r.Ok? && before == NO_PAYLOAD ==>
      r.value.Fits(flags) && |r.value.Encode(flags)| + |r.rest| <= |s|
    ensures r.Err? ==> !r.error.Refused?
  {
    var (id, s1) :- ParseBytes(s);
    var (willProperties, s2) :- ParseOptionalProperties(flags.willFlag, before.willProperties, s1);
    var (willTopic, s3) :- ParseOptional(flags.willFlag, before.willTopic, s2);
    var (willPayload, s4) :- ParseOptional(flags.willFlag, before.willPayload, s3);
    var (username, s5) :- ParseOptional(flags.hasUsername, before.username, s4);
    var (password, s6) :- ParseOptional(flags.hasPassword, before.password, s5);
    Ok(Payload(id, willProperties, willTopic, willPayload, username, password), s6)
  }

  function ParseConnect(p: Packet, s: bytes): (r: Parsed<Packet>)
    requires p.Connect?
    ensures r.Err? ==> !r.error.Refused?
  {
    var (variable, s1) :- ParseVariableHeader(s);
    var (properties, s2) :- ParseProperties(s1);
    var (payload, s3) :- ParsePayload(variable.flags, p.payload, s2);
    Ok(Connect(p.header, variable, properties, payload), s3)
  }

  function ParseConnack(p: Packet, s: bytes): (r: Parsed<Packet>)
    requires p.Connack?
    ensures r.Err? ==> !r.error.Refused?
  {
    var (flags, s1) :- ParseByte(s);
    var (code, s2) :- ParseByte(s1);
    var (properties, s3) :- ParseProperties(s2);
    Ok(Connack(p.header, flags % 2 == 1, code, properties), s3)
  }

  /** The message is whatever the header's length leaves after the bytes read so far. */
  function ParsePublish(p: Packet, s: bytes): (r: Parsed<Packet>)
    requires p.Publish?
    ensures r.Err? ==> !r.error.Refused?
  {
    var (topicName, s1) :- ParseBytes(s);
    var (messageID, s2) :- if p.header.qos > 0 then ParseUint16(s1) else Ok(p.messageID, s1);
    var (properties, s3) :- ParseProperties(s2);
    var (message, s4) :- ParseMessage(s3, p.header.remainingLength - (|s| - |s3|));
    Ok(Publish(p.header, topicName, messageID, properties, message), s4)
  }

  function ParseAck(p: Packet, s: bytes): (r: Parsed<Packet>)
    requires p.Ack?
    ensures r.Err? ==> !r.error.Refused?
  {
    var (messageID, s1) :- ParseUint16(s);
    if p.header.remainingLength == 2 then Ok(Ack(p.header, messageID, 0, []), s1) else
    var (reasonCode, s2) :- ParseByte(s1);
    var (properties, s3) :- ParseProperties(s2);
    Ok(Ack(p.header, messageID, reasonCode, properties), s3)
  }

  function ParseDisconnect(p: Packet, s: bytes): (r: Parsed<Packet>)
    requires p.Disconnect?
    ensures r.Err? ==> !r.error.Refused?
  {
    if p.header.remainingLength == 0 then Ok(Disconnect(p.header, 0, []), s) else
    var (reasonCode, s1) :- ParseByte(s);
    var (properties, s2) :- ParseProperties(s1);
    Ok(Disconnect(p.header, reasonCode, properties), s2)
  }

  /** `Unpack` of the packet `p`. */
  function ParseBody(p: Packet, s: bytes): (r: Parsed<Packet>)
    ensures r.Err? ==> !r.error.Refused?
  {
    match p
    case Connect(_, _, _, _) => ParseConnect(p, s)
    case Connack(_, _, _, _) => ParseConnack(p, s)
    case Publish(_, _, _, _, _) => ParsePublish(p, s)
    case Ack(_, _, _, _) => ParseAck(p, s)
    case Disconnect(_, _, _) => ParseDisconnect(p, s)
    case Empty(_) => Ok(p, s)
  }

  /** `ReadPacket`: header, then exactly the announced number of bytes, of which the body parser
      may leave some unused. */
  function ParsePacket(s: bytes): (r: Parsed<Packet>)
    ensures r.Err? ==> !r.error.Refused?
  {
    var (h, s1) :- ParseHeader(s);
    match NewWithHeader(h)
    case Failure(e) => Err(e)
    case Success(cp) =>
      var (frame, rest) :- ParseFull(s1, h.remainingLength);
      var (p, _) :- ParseBody(cp, frame);
      Ok(p, rest)
  }

  // ----- round trips -----

  /** The packet `ReadPacket` allocates for `p`, once its length is the written one. */
  function Blank(p: Packet): Packet
    requires p.Shape()
  {
    NewWithHeader(p.Written().header).value
  }

  lemma PayloadRoundTrip(p: Payload, f: Flags)
    requires p.Fits(f)
    ensures ParsePayload(f, NO_PAYLOAD, p.Encode(f)) == Ok(p, [])
  {
    hide ParseBytes, EncodeBytes, ParseOptional, Optional, ParseOptionalProperties, OptionalProperties;
    var t5 := Optional(f.hasPassword, p.password);
    var t4 := Optional(f.hasUsername, p.username) + t5;
    var t3 := Optional(f.willFlag, p.willPayload) + t4;
    var t2 := Optional(f.willFlag, p.willTopic) + t3;
    var t1 := OptionalProperties(f.willFlag, p.willProperties) + t2;
    BytesRoundTrip(p.clientIdentifier, t1);
    OptionalPropertiesRoundTrip(f.willFlag, p.willProperties, t2);
    OptionalRoundTrip(f.willFlag, p.willTopic, t3);
    OptionalRoundTrip(f.willFlag, p.willPayload, t4);
    OptionalRoundTrip(f.hasUsername, p.username, t5);
    OptionalRoundTrip(f.hasPassword, p.password, []);
    assert t5 + [] == t5;
  }

  /** CONNECT round trip: every flag combination, all fields and both property blocks, the
      reserved bit cleared. */
  lemma ConnectRoundTrip(p: Packet)
    requires p.Connect? && p.Shape()
    ensures ParseConnect(Blank(p), p.Body()) == Ok(p.Normal(), [])
  {
    hide ParseProperties, EncodeProperties, ParseVariableHeader;
    var flags := p.variable.flags;
    var t := p.payload.Encode(flags);
    VariableHeaderRoundTrip(p.variable, EncodeProperties(p.properties) + t);
    PropertiesRoundTrip(p.properties, t);
    var clear := p.variable.WithoutReserved().flags;
    assert p.payload.Encode(clear) == t;
    PayloadRoundTrip(p.payload, clear);
    SameBody(p);
  }

  /** The reserved bit does not reach the wire. */
  lemma SameBody(p: Packet)
    ensures p.WithoutReserved().Body() == p.Body()
    ensures p.WithoutReserved().Frame() == p.Frame()
  {
    if p.Connect? {
      var clear := p.variable.WithoutReserved();
      assert clear.flags.Encode() == p.variable.flags.Encode();
      assert clear.Encode() == p.variable.Encode();
      assert p.payload.Encode(clear.flags) == p.payload.Encode(p.variable.flags);
    }
  }

  lemma ConnackRoundTrip(p: Packet)
    requires p.Connack? && p.Shape()
    ensures ParseConnack(Blank(p), p.Body()) == Ok(p.Written(), [])
  {
    hide ParseProperties, EncodeProperties;
    var t := EncodeProperties(p.properties);
    assert ParseByte(p.Body()).rest == [p.returnCode] + t;
    assert ParseByte([p.returnCode] + t) == Ok(p.returnCode, t);
    PropertiesRoundTrip(p.properties, []);
    assert t + [] == t;
  }

  lemma PublishRoundTrip(p: Packet)
    requires p.Publish? && p.Shape()
    ensures ParsePublish(Blank(p), p.Body()) == Ok(p.Written(), [])
  {
    hide ParseBytes, EncodeBytes, ParseUint16, EncodeUint16, ParseProperties, EncodeProperties;
    var id := if p.header.qos > 0 then EncodeUint16(p.messageID) else [];
    var t := EncodeProperties(p.properties) + p.message;
    BytesRoundTrip(p.topicName, id + t);
    if p.header.qos > 0 {
      Uint16RoundTrip(p.messageID, t);
    } else {
      assert id + t == t;
    }
    PropertiesRoundTrip(p.properties, p.message);
    assert p.message[..|p.message|] == p.message && p.message[|p.message|..] == [];
  }

  /** The short form is two bytes and the long one at least four, so the reader tells them apart
      by the length alone. */
  lemma AckRoundTrip(p: Packet)
    requires p.Ack? && p.Shape()
    ensures ParseAck(Blank(p), p.Body()) == Ok(p.Written(), [])
  {
    hide ParseBytes, EncodeBytes, ParseUint16, EncodeUint16, ParseProperties, EncodeProperties;
    var t := EncodeProperties(p.properties);
    if p.reasonCode == 0 && p.properties == [] {
      Uint16RoundTrip(p.messageID, []);
    } else {
      Uint16RoundTrip(p.messageID, [p.reasonCode] + t);
      assert ParseByte([p.reasonCode] + t) == Ok(p.reasonCode, t);
      PropertiesRoundTrip(p.properties, []);
      assert t + [] == t;
    }
  }

  lemma DisconnectRoundTrip(p: Packet)
    requires p.Disconnect? && p.Shape() && !p.Stale()
    ensures ParseDisconnect(Blank(p), p.Body()) == Ok(p.Written(), [])
  {
    hide ParseProperties, EncodeProperties;
    var t := EncodeProperties(p.properties);
    if !p.KeepsLength() {
      assert ParseByte([p.reasonCode] + t) == Ok(p.reasonCode, t);
      PropertiesRoundTrip(p.properties, []);
      assert t + [] == t;
    }
  }

  lemma BodyRoundTrip(p: Packet)
    requires p.WellFormed()
    ensures ParseBody(Blank(p), p.Body()) == Ok(p.Written(), [])
  {
    hide ParseConnect, ParseConnack, ParsePublish, ParseAck, ParseDisconnect;
    match p
    case Connect(_, _, _, _) => ConnectRoundTrip(p);
    case Connack(_, _, _, _) => ConnackRoundTrip(p);
    case Publish(_, _, _, _, _) => PublishRoundTrip(p);
    case Ack(_, _, _, _) => AckRoundTrip(p);
    case Disconnect(_, _, _) => DisconnectRoundTrip(p);
    case Empty(_) =>
  }

  /** `p` is a packet with the header `h`, as decoding produces them, whose encoding takes at most
      `n` bytes. */
  predicate Decoded(h: FixedHeader, p: Packet, n: nat) {
    p.header == h && p.Shape() && |p.Body()| <= n
  }

  lemma ConnectAccepted(p: Packet, s: bytes)
    requires p.Connect? && p.header.Packable() && p.header.messageType == CONNECT && p.payload == NO_PAYLOAD
    requires ParseConnect(p, s).Ok?
    ensures Decoded(p.header, ParseConnect(p, s).value, |s|)
  {
  }

  lemma PublishAccepted(p: Packet, s: bytes)
    requires p.Publish? && p.Shape() && p.messageID == 0 && |s| == p.header.remainingLength
    requires ParsePublish(p, s).Ok?
    ensures Decoded(p.header, ParsePublish(p, s).value, |s|)
    ensures ParsePublish(p, s).rest == []
  {
  }

  lemma AckAccepted(p: Packet, s: bytes)
    requires p.Ack? && p.Shape()
    requires ParseAck(p, s).Ok?
    ensures Decoded(p.header, ParseAck(p, s).value, |s|)
  {
  }

  lemma ConnackAccepted(p: Packet, s: bytes)
    requires p.Connack? && p.Shape()
    requires ParseConnack(p, s).Ok?
    ensures Decoded(p.header, ParseConnack(p, s).value, |s|)
  {
  }

  lemma DisconnectAccepted(p: Packet, s: bytes)
    requires p.Disconnect? && p.Shape()
    requires ParseDisconnect(p, s).Ok?
    ensures Decoded(p.header, ParseDisconnect(p, s).value, |s|)
  {
  }

  /** Everything a body parser accepts has the shape of a decoded packet, and its encoding is no
      longer than the frame. */
  lemma BodyAccepted(h: FixedHeader, s: bytes)
    requires h.Packable() && NewWithHeader(h).Success? && |s| == h.remainingLength
    requires ParseBody(NewWithHeader(h).value, s).Ok?
    ensures Decoded(h, ParseBody(NewWithHeader(h).value, s).value, |s|)
  {
    hide ParseConnect, ParseConnack, ParsePublish, ParseAck, ParseDisconnect;
    var p := NewWithHeader(h).value;
    match p
    case Connect(_, _, _, _) => ConnectAccepted(p, s);
    case Connack(_, _, _, _) => ConnackAccepted(p, s);
    case Publish(_, _, _, _, _) => PublishAccepted(p, s);
    case Ack(_, _, _, _) => AckAccepted(p, s);
    case Disconnect(_, _, _) => DisconnectAccepted(p, s);
    case Empty(_) =>
  }

  /** What `ReadPacket` returns is always a packet of the decoded shape, no longer than its frame. */
  lemma PacketAccepted(s: bytes)
    requires ParsePacket(s).Ok?
    ensures var Ok(p, rest) := ParsePacket(s);
      && ParseHeader(s).Ok? && p.Shape() && p.header.Validate() && |p.Body()| <= p.header.remainingLength
      && IsSuffix(rest, s) && p.header == ParseHeader(s).value
      && |s| - |rest| == |s| - |ParseHeader(s).rest| + p.header.remainingLength
      && |p.header.Packed()| <= |s| - |ParseHeader(s).rest|
  {
    hide Header.FirstBits, ParseHeader, ParseBody, Packet.Body;
    var Ok(h, s1) := ParseHeader(s);
    HeaderNoLonger(s);
    BodyAccepted(h, s1[..h.remainingLength]);
  }

  /** More input behind an accepted packet changes nothing. */
  lemma PacketExtend(s: bytes, t: bytes)
    requires ParsePacket(s).Ok?
    ensures ParsePacket(s + t) == Ok(ParsePacket(s).value, ParsePacket(s).rest + t)
  {
    hide ParseHeader, ParseBody;
    HeaderExtend(s, t);
    FullExtend(ParseHeader(s).rest, ParseHeader(s).value.remainingLength, t);
  }

  /** Reading a frame is parsing its body, whatever follows. */
  lemma Unframe(h: FixedHeader, body: bytes, t: bytes)
    requires h.Packable() && h.Validate() && h.remainingLength == |body| && NewWithHeader(h).Success?
    ensures var r := ParseBody(NewWithHeader(h).value, body);
      ParsePacket(h.Packed() + (body + t)) == if r.Ok? then Ok(r.value, t) else Err(r.error)
  {
    HeaderRoundTrip(h, body + t);
    FullRoundTrip(body, t);
  }

  /** A packet written and read back, with any bytes behind it, comes back as written and leaves
      exactly those bytes: if and only if it is well formed. */
  lemma FrameRoundTrip(p: Packet, t: bytes)
    ensures ParsePacket(p.Frame() + t) == Ok(p.Written(), t) <==> p.WellFormed()
    decreases p.Connect? && p.variable.flags.reserved, 1
  {
    hide Header.FirstBits, ParseHeader, ParsePacket, ParseBody, Packet.Body;
    if p.WellFormed() {
      BodyRoundTrip(p);
      FrameParts(p, t);
      Unframe(p.Written().header, p.Body(), t);
    } else if ParsePacket(p.Frame() + t) == Ok(p.Written(), t) {
      OnlyWellFormed(p, t);
    }
  }

  lemma FrameParts(p: Packet, t: bytes)
    requires p.WellFormed()
    ensures var h := p.Written().header;
      && p.Frame() + t == h.Packed() + (p.Body() + t)
      && h.Packable() && h.Validate() && h.remainingLength == |p.Body()| && NewWithHeader(h).Success?
  {
    hide Header.FirstBits, Packet.Body, Uvarint;
  }

  lemma OnlyWellFormed(p: Packet, t: bytes)
    requires ParsePacket(p.Frame() + t) == Ok(p.Written(), t)
    ensures p.WellFormed()
    decreases p.Connect? && p.variable.flags.reserved, 0
  {
    hide Header.FirstBits, ParseHeader, ParsePacket, ParseBody, Packet.Body;
    var s := p.Frame() + t;
    PacketAccepted(s);
    ReadBackFits(p, s, t);
    if p.Connect? && p.variable.flags.reserved {
      SameBody(p);
      FrameRoundTrip(p.WithoutReserved(), t);
    }
  }

  lemma ReadBackFits(p: Packet, s: bytes, t: bytes)
    requires s == p.Frame() + t
    requires p.Written().Shape() && p.Written().header.Validate()
    requires ParseHeader(s).Ok? && p.Written().header == ParseHeader(s).value
    requires |s| - |t| == |s| - |ParseHeader(s).rest| + p.Written().header.remainingLength
    ensures p.Shape() && |p.Body()| <= MAX_REMAINING_LENGTH && !p.Stale()
  {
    hide Header.FirstBits, ParseHeader, Packet.Body, Uvarint;
    var h := p.Written().header;
    assert s == h.Packed() + (p.Body() + t);
    HeaderRoundTrip(h, p.Body() + t);
  }

  /** Normalisation: writing an accepted packet takes no more bytes than were read, and reading
      that back gives the same packet but for the length and CONNECT's reserved bit. The one
      exception are packets that arrived with a body and are written without it, under the stored
      length: PINGREQ, PINGRESP, and DISCONNECT with a zero reason code and no properties. */
  lemma Normalisation(s: bytes, t: bytes)
    requires ParsePacket(s).Ok?
    ensures var Ok(p, rest) := ParsePacket(s);
      && |p.Frame()| <= |s| - |rest|
      && (ParsePacket(p.Frame() + t) == Ok(p.Normal(), t) <==> !p.Stale())
  {
    hide Header.FirstBits, ParsePacket;
    PacketAccepted(s);
    var p := ParsePacket(s).value;
    SameBody(p);
    WrittenNoLonger(p);
    FrameRoundTrip(p.WithoutReserved(), t);
    NormalWellFormed(p);
  }

  lemma WrittenNoLonger(p: Packet)
    requires p.header.Validate() && |p.Body()| <= p.header.remainingLength
    ensures |p.Frame()| <= |p.header.Packed()| + p.header.remainingLength
  {
    hide Header.FirstBits, Packet.Body, Uvarint;
    UvarintMonotone(|p.Body()|, p.header.remainingLength);
  }

  lemma NormalWellFormed(p: Packet)
    requires p.Shape() && |p.Body()| <= MAX_REMAINING_LENGTH
    ensures p.WithoutReserved().WellFormed() <==> !p.Stale()
  {
    SameBody(p);
  }

  // ----- accepted frames, byte by byte -----

  /** The bytes of the packet at the front of `s`, behind its fixed header. */
  function FrameOf(s: bytes): bytes
    requires ParsePacket(s).Ok?
  {
    var Ok(h, rest) := ParseHeader(s);
    rest[..h.remainingLength]
  }

  /** v5 PUBLISH length accounting: a frame is the topic with its prefix, the optional identifier,
      the property length in as many bytes as it actually took, the properties and the message, in
      this order and without a gap, so the message is exactly the unread rest of the frame. */
  lemma PublishAccounting(s: bytes) returns (lengthBytes: bytes)
    requires ParsePacket(s).Ok? && ParsePacket(s).value.Publish?
    ensures var p := ParsePacket(s).value;
      && Accounted(p, FrameOf(s), lengthBytes)
      && p.header.remainingLength == 2 + |p.topicName| + (if p.header.qos > 0 then 2 else 0)
                                     + |lengthBytes| + |p.properties| + |p.message|
  {
    hide Header.FirstBits, ParseHeader, ParseVariableHeader, ParseProperties, ParsePayload;
    var h := ParseHeader(s).value;
    var p := NewWithHeader(h).value;
    lengthBytes := PublishFrame(p, FrameOf(s));
    PublishLength(ParsePacket(s).value, FrameOf(s), lengthBytes);
  }

  predicate Accounted(p: Packet, frame: bytes, lengthBytes: bytes)
    requires p.Publish?
  {
    var id := if p.header.qos > 0 then EncodeUint16(p.messageID) else [];
    && frame == EncodeBytes(p.topicName) + (id + (lengthBytes + (p.properties + p.message)))
    && |lengthBytes| <= 4 && ParseUvarint(lengthBytes) == Ok(|p.properties|, [])
  }

  lemma PublishLength(p: Packet, frame: bytes, lengthBytes: bytes)
    requires p.Publish? && Accounted(p, frame, lengthBytes)
    ensures |frame| == 2 + |p.topicName| + (if p.header.qos > 0 then 2 else 0)
                       + |lengthBytes| + |p.properties| + |p.message|
  {
  }

  lemma PropertiesSplit(s: bytes) returns (lengthBytes: bytes)
    requires ParseProperties(s).Ok?
    ensures s == lengthBytes + (ParseProperties(s).value + ParseProperties(s).rest)
    ensures |lengthBytes| <= 4 && ParseUvarint(lengthBytes) == Ok(|ParseProperties(s).value|, [])
  {
    var Ok(n, s1) := ParseUvarint(s);
    var k := |s| - |s1|;
    lengthBytes := s[..k];
    UvarintPrefix(s);
    assert s == lengthBytes + s1 && s1 == s1[..n] + s1[n..];
  }

  lemma Uint16Split(s: bytes)
    requires ParseUint16(s).Ok?
    ensures s == EncodeUint16(ParseUint16(s).value) + ParseUint16(s).rest
  {
    assert s == s[..2] + s[2..];
  }

  lemma PublishFrame(p: Packet, s: bytes) returns (lengthBytes: bytes)
    requires p.Publish? && |s| == p.header.remainingLength
    requires ParsePublish(p, s).Ok?
    ensures Accounted(ParsePublish(p, s).value, s, lengthBytes)
  {
    hide ParseUvarint, EncodeBytes, ParseBytes, EncodeUint16, ParseUint16, ParseProperties;
    var s1 := ParseBytes(s).rest;
    BytesSplit(s);
    var s2 := if p.header.qos > 0 then ParseUint16(s1).rest else s1;
    if p.header.qos > 0 {
      Uint16Split(s1);
    } else {
      assert s1 == [] + s2;
    }
    lengthBytes := PropertiesSplit(s2);
    var s3 := ParseProperties(s2).rest;
    assert s3[..|s3|] == s3;
  }

  /** The payload subtraction never goes negative on a frame of the announced length. */
  lemma PayloadNeverNegative(p: Packet, s: bytes)
    requires p.Publish? && |s| == p.header.remainingLength
    ensures ParsePublish(p, s) != Err(NegativePayload)
  {
  }

  lemma ShortAckRejected(p: Packet, frame: bytes)
    requires p.Ack? && |frame| == 3 && p.header.remainingLength == 3
    ensures ParseAck(p, frame).Err?
  {
    assert ParseByte(ParseUint16(frame).rest).rest == [];
  }

  lemma ShortDisconnectRejected(p: Packet, frame: bytes)
    requires p.Disconnect? && |frame| == 1 && p.header.remainingLength == 1
    ensures ParseDisconnect(p, frame).Err?
  {
    assert ParseByte(frame).rest == [];
  }

  /** There is no form of an acknowledgement with three bytes, nor of DISCONNECT with one. */
  lemma ShortFormsRejected(s: bytes)
    requires ParseHeader(s).Ok?
    requires var h := ParseHeader(s).value;
      || (h.messageType in {PUBACK, PUBREC, PUBREL, PUBCOMP} && h.remainingLength == 3)
      || (h.messageType == DISCONNECT && h.remainingLength == 1)
    ensures ParsePacket(s).Err?
  {
    hide Header.FirstBits, ParseHeader, ParseAck, ParseDisconnect;
    var Ok(h, rest) := ParseHeader(s);
    if |rest| >= h.remainingLength {
      var p := NewWithHeader(h).value;
      if p.Disconnect? {
        ShortDisconnectRejected(p, rest[..h.remainingLength]);
      } else {
        ShortAckRejected(p, rest[..h.remainingLength]);
      }
    }
  }

  /** A PINGREQ that arrives with a body is read and is stale; it is then written as a header
      announcing two bytes that do not follow. */
  lemma StalePing(b: byte, c: byte)
    ensures
      var s := [0xC0, 2, b, c];
      && ParsePacket(s) == Ok(Empty(FixedHeader(PINGREQ, false, 0, false, 2)), [])
      && ParsePacket(s).value.Stale() && ParsePacket(s).value.Frame() == [0xC0, 2]
  {
    var s, h := [0xC0, 2, b, c], FixedHeader(PINGREQ, false, 0, false, 2);
    hide Header.FirstBits, FixedHeader.Packed, ParseHeader;
    PingHeader();
    assert s == h.Packed() + ([b, c] + []);
    Unframe(h, [b, c], []);
  }
}
