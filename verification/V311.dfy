/** The packets of MQTT 3.1.1 as values: how each is laid out, how each is parsed, and which of
    them survive the wire. The classes that build and read them are in `V311Packets.dfy`. */
module V311 {
  import opened Wire
  import opened Varint
  import opened Header
  import opened Connect

  datatype TopicSubscription = TopicSubscription(topicFilter: bytes, qos: byte)

  /** The payload of CONNECT: which fields follow the client identifier is up to the flags. */
  datatype Payload = Payload(
    clientIdentifier: bytes,
    willTopic: bytes,
    willMessage: bytes,
    username: bytes,
    password: bytes)
  {
    function Encode(flags: Flags): bytes {
      EncodeBytes(clientIdentifier)
      + (Optional(flags.willFlag, willTopic)
         + (Optional(flags.willFlag, willMessage)
            + (Optional(flags.hasUsername, username) + Optional(flags.hasPassword, password))))
    }

    predicate Fits(flags: Flags) {
      && |clientIdentifier| <= MAX_STRING
      && OptionalFits(flags.willFlag, willTopic) && OptionalFits(flags.willFlag, willMessage)
      && OptionalFits(flags.hasUsername, username) && OptionalFits(flags.hasPassword, password)
    }
  }

  const NO_PAYLOAD := Payload([], [], [], [], [])

  /** `Ack` stands for PUBACK, PUBREC, PUBREL, PUBCOMP and UNSUBACK, `Empty` for PINGREQ,
      PINGRESP and DISCONNECT; the header tells which. */
  datatype Packet =
    | Connect(header: FixedHeader, variable: VariableHeader, payload: Payload)
    | Connack(header: FixedHeader, sessionPresent: bool, returnCode: byte)
    | Publish(header: FixedHeader, topicName: bytes, messageID: uint16, message: bytes)
    | Ack(header: FixedHeader, messageID: uint16)
    | Subscribe(header: FixedHeader, messageID: uint16, topicSubscriptions: seq<TopicSubscription>)
    | Suback(header: FixedHeader, messageID: uint16, returnCodes: bytes)
    | Unsubscribe(header: FixedHeader, messageID: uint16, topicFilters: seq<bytes>)
    | Empty(header: FixedHeader)
  {
    /** Everything behind the fixed header. */
    function Body(): (b: bytes)
      ensures Empty? ==> b == []
    {
      match this
      case Connect(_, variable, payload) => variable.Encode() + payload.Encode(variable.flags)
      case Connack(_, sessionPresent, returnCode) =>
        [if sessionPresent then 1 else 0, returnCode]
      case Publish(h, topicName, messageID, message) =>
        EncodeBytes(topicName) + ((if h.qos > 0 then EncodeUint16(messageID) else []) + message)
      case Ack(_, messageID) => EncodeUint16(messageID)
      case Subscribe(_, messageID, subs) => EncodeUint16(messageID) + EncodeSubscriptions(subs)
      case Suback(_, messageID, codes) => EncodeUint16(messageID) + codes
      case Unsubscribe(_, messageID, filters) => EncodeUint16(messageID) + EncodeFilters(filters)
      case Empty(_) => []
    }

    /** The packet after `Write`, which stores the length it wrote, except in empty packets. */
    function Written(): Packet {
      if Empty? then this else this.(header := header.(remainingLength := |Body()|))
    }

    /** The bytes `Write` produces. */
    function Frame(): bytes {
      Written().header.Packed() + Body()
    }

    function WithoutReserved(): Packet {
      if Connect? then this.(variable := variable.WithoutReserved()) else this
    }

    /** What `Write` keeps of a packet: its header carries the written length and the reserved
        bit of CONNECT is gone. */
    function Normal(): Packet {
      WithoutReserved().Written()
    }

    /** What every decoded packet satisfies. */
    predicate Shape() {
      && header.Packable()
      && match this
         case Connect(h, variable, payload) =>
           h.messageType == CONNECT && variable.Fits() && payload.Fits(variable.flags)
         case Connack(h, _, _) => h.messageType == CONNACK
         case Publish(h, topicName, messageID, _) =>
           h.messageType == PUBLISH && |topicName| <= MAX_STRING && (h.qos == 0 ==> messageID == 0)
         case Ack(h, _) => h.messageType in {PUBACK, PUBREC, PUBREL, PUBCOMP, UNSUBACK}
         case Subscribe(h, _, subs) => h.messageType == SUBSCRIBE && SubscriptionsFit(subs)
         case Suback(h, _, _) => h.messageType == SUBACK
         case Unsubscribe(h, _, filters) => h.messageType == UNSUBSCRIBE && FiltersFit(filters)
         case Empty(h) => h.messageType in {PINGREQ, PINGRESP, DISCONNECT}
    }

    /** An empty packet announcing a body it does not carry. */
    predicate Stale() {
      Empty? && header.remainingLength != 0
    }

    /** The packets that survive the wire, by `FrameRoundTrip`. */
    predicate WellFormed() {
      && Shape()
      && |Body()| <= MAX_REMAINING_LENGTH
      && (Connect? ==> !variable.flags.reserved)
      && !Stale()
    }
  }

  function EncodeSubscriptions(subs: seq<TopicSubscription>): bytes {
    if subs == [] then []
    else EncodeBytes(subs[0].topicFilter) + ([subs[0].qos] + EncodeSubscriptions(subs[1..]))
  }

  function EncodeFilters(filters: seq<bytes>): bytes {
    if filters == [] then [] else EncodeBytes(filters[0]) + EncodeFilters(filters[1..])
  }

  /** `NewControlPacketWithHeader`: a packet of the header's type with all other fields zero. */
  function NewWithHeader(h: FixedHeader): Result<Packet> {
    match h.messageType
    case 1 => Success(Connect(h, NO_VARIABLE_HEADER, NO_PAYLOAD))
    case 2 => Success(Connack(h, false, 0))
    case 3 => Success(Publish(h, [], 0, []))
    case 4 | 5 | 6 | 7 | 11 => Success(Ack(h, 0))
    case 8 => Success(Subscribe(h, 0, []))
    case 9 => Success(Suback(h, 0, []))
    case 10 => Success(Unsubscribe(h, 0, []))
    case 12 | 13 | 14 => Success(Empty(h))
    case _ => Failure(UnsupportedType)
  }

  function ParsePayload(flags: Flags, before: Payload, s: bytes): (r: Parsed<Payload>)
    ensures r.Ok? && before == NO_PAYLOAD ==>
      r.value.Fits(flags) && |s| == |r.value.Encode(flags)| + |r.rest|
    ensures r.Err? ==> !r.error.Refused?
  {
    var (id, s1) :- ParseBytes(s);
    var (willTopic, s2) :- ParseOptional(flags.willFlag, before.willTopic, s1);
    var (willMessage, s3) :- ParseOptional(flags.willFlag, before.willMessage, s2);
    var (username, s4) :- ParseOptional(flags.hasUsername, before.username, s3);
    var (password, s5) :- ParseOptional(flags.hasPassword, before.password, s4);
    Ok(Payload(id, willTopic, willMessage, username, password), s5)
  }

  function ParseConnect(p: Packet, s: bytes): (r: Parsed<Packet>)
    requires p.Connect?
    ensures r.Err? ==> !r.error.Refused?
  {
    var (variable, s1) :- ParseVariableHeader(s);
    var (payload, s2) :- ParsePayload(variable.flags, p.payload, s1);
    Ok(Connect(p.header, variable, payload), s2)
  }

  function ParseConnack(p: Packet, s: bytes): (r: Parsed<Packet>)
    requires p.Connack?
    ensures r.Err? ==> !r.error.Refused?
  {
    var (flags, s1) :- ParseByte(s);
    var (code, s2) :- ParseByte(s1);
    Ok(p.(sessionPresent := flags % 2 == 1, returnCode := code), s2)
  }

  /** The message is whatever the header's length leaves after the bytes read so far. */
  function ParsePublish(p: Packet, s: bytes): (r: Parsed<Packet>)
    requires p.Publish?
    ensures r.Err? ==> !r.error.Refused?
  {
    var (topicName, s1) :- ParseBytes(s);
    var (messageID, s2) :- if p.header.qos > 0 then ParseUint16(s1) else Ok(p.messageID, s1);
    var (message, s3) :- ParseMessage(s2, p.header.remainingLength - (|s| - |s2|));
    Ok(Publish(p.header, topicName, messageID, message), s3)
  }

  function ParseAck(p: Packet, s: bytes): (r: Parsed<Packet>)
    requires p.Ack?
    ensures r.Err? ==> !r.error.Refused?
  {
    var (messageID, s1) :- ParseUint16(s);
    Ok(Ack(p.header, messageID), s1)
  }

  /** One filter and QoS after the other for as long as `payloadLength` is positive. */
  function ParseSubscriptions(s: bytes, payloadLength: int): (r: Parsed<seq<TopicSubscription>>)
    ensures r.Err? ==> !r.error.Refused?
    decreases if payloadLength > 0 then payloadLength else 0
  {
    if payloadLength <= 0 then Ok([], s) else
    var (topicFilter, s1) :- ParseBytes(s);
    var (qos, s2) :- ParseByte(s1);
    var (more, s3) :- ParseSubscriptions(s2, payloadLength - (3 + |topicFilter|));
    Ok([TopicSubscription(topicFilter, qos)] + more, s3)
  }

  function ParseSubscribe(p: Packet, s: bytes): (r: Parsed<Packet>)
    requires p.Subscribe?
    ensures r.Err? ==> !r.error.Refused?
  {
    var (messageID, s1) :- ParseUint16(s);
    var (subs, s2) :- ParseSubscriptions(s1, p.header.remainingLength - 2);
    Ok(Subscribe(p.header, messageID, p.topicSubscriptions + subs), s2)
  }

  function ParseSuback(p: Packet, s: bytes): (r: Parsed<Packet>)
    requires p.Suback?
    ensures r.Err? ==> !r.error.Refused?
  {
    var (messageID, s1) :- ParseUint16(s);
    var payloadLength := p.header.remainingLength - 2;
    if payloadLength <= 0 then Ok(Suback(p.header, messageID, p.returnCodes), s1) else
    var (codes, s2) :- ParseFull(s1, payloadLength);
    Ok(Suback(p.header, messageID, codes), s2)
  }

  function ParseFilters(s: bytes, payloadLength: int): (r: Parsed<seq<bytes>>)
    ensures r.Err? ==> !r.error.Refused?
    decreases if payloadLength > 0 then payloadLength else 0
  {
    if payloadLength <= 0 then Ok([], s) else
    var (topicFilter, s1) :- ParseBytes(s);
    var (more, s2) :- ParseFilters(s1, payloadLength - (2 + |topicFilter|));
    Ok([topicFilter] + more, s2)
  }

  function ParseUnsubscribe(p: Packet, s: bytes): (r: Parsed<Packet>)
    requires p.Unsubscribe?
    ensures r.Err? ==> !r.error.Refused?
  {
    var (messageID, s1) :- ParseUint16(s);
    var (filters, s2) :- ParseFilters(s1, p.header.remainingLength - 2);
    Ok(Unsubscribe(p.header, messageID, p.topicFilters + filters), s2)
  }

  /** `Unpack` of the packet `p`. */
  function ParseBody(p: Packet, s: bytes): (r: Parsed<Packet>)
    ensures r.Err? ==> !r.error.Refused?
  {
    match p
    case Connect(_, _, _) => ParseConnect(p, s)
    case Connack(_, _, _) => ParseConnack(p, s)
    case Publish(_, _, _, _) => ParsePublish(p, s)
    case Ack(_, _) => ParseAck(p, s)
    case Subscribe(_, _, _) => ParseSubscribe(p, s)
    case Suback(_, _, _) => ParseSuback(p, s)
    case Unsubscribe(_, _, _) => ParseUnsubscribe(p, s)
    case Empty(_) => Ok(p, s)
  }

  /** `ReadPacket`: header, then exactly the announced number of bytes, of which the body parser
      may leave some unused. */
  function ParsePacket(s: bytes): (r: Parsed<Packet>)
    ensures r.Err? ==> !r.error.Refused?
  {
    var (h, s1) :- ParseHeader(s);
    match NewWithHeader(h)
    case Failure(e) => Err(e)
    case Success(cp) =>
      var (frame, rest) :- ParseFull(s1, h.remainingLength);
      var (p, _) :- ParseBody(cp, frame);
      Ok(p, rest)
  }

  // ----- list payloads -----

  predicate FiltersFit(filters: seq<bytes>) {
    forall i :: 0 <= i < |filters| ==> |filters[i]| <= MAX_STRING
  }

  predicate SubscriptionsFit(subs: seq<TopicSubscription>) {
    forall i :: 0 <= i < |subs| ==> |subs[i].topicFilter| <= MAX_STRING
  }

  lemma {:induction false} FiltersRoundTrip(filters: seq<bytes>, t: bytes)
    requires FiltersFit(filters)
    ensures ParseFilters(EncodeFilters(filters) + t, |EncodeFilters(filters)|) == Ok(filters, t)
  {
    hide ParseBytes, EncodeBytes, ParseUint16, EncodeUint16;
    if filters == [] {
      assert EncodeFilters(filters) + t == t;
    } else {
      var tail := EncodeFilters(filters[1..]);
      assert EncodeFilters(filters) + t == EncodeBytes(filters[0]) + (tail + t);
      BytesRoundTrip(filters[0], tail + t);
      FiltersRoundTrip(filters[1..], t);
      assert filters == [filters[0]] + filters[1..];
    }
  }

  /** A loop that starts with as many bytes as its counter says either fails or consumes them all,
      and the counter equals the unread bytes all the way. */
  lemma {:induction false} FiltersConsumed(s: bytes)
    requires ParseFilters(s, |s|).Ok?
    ensures var Ok(filters, rest) := ParseFilters(s, |s|);
      rest == [] && s == EncodeFilters(filters) && FiltersFit(filters)
    decreases |s|
  {
    if s != [] {
      var Ok(first, s1) := ParseBytes(s);
      BytesSplit(s);
      FiltersConsumed(s1);
      var more := ParseFilters(s1, |s1|).value;
      var all := [first] + more;
      assert ParseFilters(s, |s|).value == all;
      assert all[0] == first && all[1..] == more;
    }
  }

  /** The filter list and its bytes determine each other. */
  lemma FiltersExact(s: bytes, filters: seq<bytes>)
    ensures ParseFilters(s, |s|) == Ok(filters, []) <==> s == EncodeFilters(filters) && FiltersFit(filters)
  {
    if ParseFilters(s, |s|).Ok? {
      FiltersConsumed(s);
    }
    if s == EncodeFilters(filters) && FiltersFit(filters) {
      FiltersRoundTrip(filters, []);
      assert s + [] == s;
    }
  }

  lemma {:induction false} SubscriptionsRoundTrip(subs: seq<TopicSubscription>, t: bytes)
    requires SubscriptionsFit(subs)
    ensures ParseSubscriptions(EncodeSubscriptions(subs) + t, |EncodeSubscriptions(subs)|) == Ok(subs, t)
  {
    hide ParseBytes, EncodeBytes, ParseUint16, EncodeUint16;
    if subs == [] {
      assert EncodeSubscriptions(subs) + t == t;
    } else {
      var filter, qos, tail := subs[0].topicFilter, subs[0].qos, EncodeSubscriptions(subs[1..]);
      var rest := tail + t;
      var s := EncodeSubscriptions(subs) + t;
      assert s == EncodeBytes(filter) + ([qos] + rest);
      assert ParseBytes(s) == Ok(filter, [qos] + rest) by {
        BytesRoundTrip(filter, [qos] + rest);
      }
      assert ParseByte([qos] + rest) == Ok(qos, rest);
      assert ParseSubscriptions(rest, |tail|) == Ok(subs[1..], t) by {
        SubscriptionsRoundTrip(subs[1..], t);
      }
      assert subs == [TopicSubscription(filter, qos)] + subs[1..];
    }
  }

  lemma {:induction false} SubscriptionsConsumed(s: bytes)
    requires ParseSubscriptions(s, |s|).Ok?
    ensures var Ok(subs, rest) := ParseSubscriptions(s, |s|);
      rest == [] && s == EncodeSubscriptions(subs) && SubscriptionsFit(subs)
    decreases |s|
  {
    hide ParseBytes, EncodeBytes, ParseUint16, EncodeUint16;
    if s != [] {
      var Ok(first, s1) := ParseBytes(s);
      BytesSplit(s);
      var Ok(qos, s2) := ParseByte(s1);
      SubscriptionsConsumed(s2);
      var more := ParseSubscriptions(s2, |s2|).value;
      var all := [TopicSubscription(first, qos)] + more;
      assert ParseSubscriptions(s, |s|).value == all;
      assert all[0] == TopicSubscription(first, qos) && all[1..] == more;
    }
  }

  /** The subscription list and its bytes determine each other. */
  lemma SubscriptionsExact(s: bytes, subs: seq<TopicSubscription>)
    ensures ParseSubscriptions(s, |s|) == Ok(subs, []) <==>
      s == EncodeSubscriptions(subs) && SubscriptionsFit(subs)
  {
    if ParseSubscriptions(s, |s|).Ok? {
      SubscriptionsConsumed(s);
    }
    if s == EncodeSubscriptions(subs) && SubscriptionsFit(subs) {
      SubscriptionsRoundTrip(subs, []);
      assert s + [] == s;
    }
  }

  // ----- packets -----

  /** The packet `ReadPacket` allocates for `p`, once its length is the written one. */
  function Blank(p: Packet): Packet
    requires p.Shape()
  {
    NewWithHeader(p.Written().header).value
  }

  lemma PayloadRoundTrip(p: Payload, f: Flags)
    requires p.Fits(f)
    ensures ParsePayload(f, NO_PAYLOAD, p.Encode(f)) == Ok(p, [])
  {
    hide ParseBytes, EncodeBytes, ParseOptional, Optional;
    var t4 := Optional(f.hasPassword, p.password);
    var t3 := Optional(f.hasUsername, p.username) + t4;
    var t2 := Optional(f.willFlag, p.willMessage) + t3;
    var t1 := Optional(f.willFlag, p.willTopic) + t2;
    BytesRoundTrip(p.clientIdentifier, t1);
    OptionalRoundTrip(f.willFlag, p.willTopic, t2);
    OptionalRoundTrip(f.willFlag, p.willMessage, t3);
    OptionalRoundTrip(f.hasUsername, p.username, t4);
    OptionalRoundTrip(f.hasPassword, p.password, []);
    assert t4 + [] == t4;
  }

  /** CONNECT round trip: every flag combination, all fields, the reserved bit cleared. */
  lemma ConnectRoundTrip(p: Packet)
    requires p.Connect? && p.Shape()
    ensures ParseConnect(Blank(p), p.Body()) == Ok(p.Normal(), [])
  {
    var flags := p.variable.flags;
    VariableHeaderRoundTrip(p.variable, p.payload.Encode(flags));
    var clear := p.variable.WithoutReserved().flags;
    assert p.payload.Encode(clear) == p.payload.Encode(flags);
    PayloadRoundTrip(p.payload, clear);
    SameBody(p);
  }

  /** The reserved bit does not reach the wire. */
  lemma SameBody(p: Packet)
    ensures p.WithoutReserved().Body() == p.Body()
    ensures p.WithoutReserved().Frame() == p.Frame()
  {
    if p.Connect? {
      var clear := p.variable.WithoutReserved();
      assert clear.flags.Encode() == p.variable.flags.Encode();
      assert clear.Encode() == p.variable.Encode();
      assert p.payload.Encode(clear.flags) == p.payload.Encode(p.variable.flags);
    }
  }

  lemma PublishRoundTrip(p: Packet)
    requires p.Publish? && p.Shape()
    ensures ParsePublish(Blank(p), p.Body()) == Ok(p.Written(), [])
  {
    hide ParseBytes, EncodeBytes, ParseUint16, EncodeUint16;
    var id := if p.header.qos > 0 then EncodeUint16(p.messageID) else [];
    BytesRoundTrip(p.topicName, id + p.message);
    if p.header.qos > 0 {
      Uint16RoundTrip(p.messageID, p.message);
    } else {
      assert id + p.message == p.message;
    }
    assert p.message[..|p.message|] == p.message && p.message[|p.message|..] == [];
  }

  lemma SubscribeRoundTrip(p: Packet)
    requires p.Subscribe? && p.Shape()
    ensures ParseSubscribe(Blank(p), p.Body()) == Ok(p.Written(), [])
  {
    hide ParseBytes, EncodeBytes, ParseUint16, EncodeUint16, EncodeSubscriptions, ParseSubscriptions;
    var s, subs := EncodeSubscriptions(p.topicSubscriptions), p.topicSubscriptions;
    Uint16RoundTrip(p.messageID, s);
    SubscriptionsExact(s, subs);
    assert [] + subs == subs;
  }

  lemma UnsubscribeRoundTrip(p: Packet)
    requires p.Unsubscribe? && p.Shape()
    ensures ParseUnsubscribe(Blank(p), p.Body()) == Ok(p.Written(), [])
  {
    hide ParseBytes, EncodeBytes, ParseUint16, EncodeUint16, EncodeFilters, ParseFilters;
    var s, filters := EncodeFilters(p.topicFilters), p.topicFilters;
    Uint16RoundTrip(p.messageID, s);
    FiltersExact(s, filters);
    assert [] + filters == filters;
  }

  lemma SubackRoundTrip(p: Packet)
    requires p.Suback? && p.Shape()
    ensures ParseSuback(Blank(p), p.Body()) == Ok(p.Written(), [])
  {
    hide ParseUint16, EncodeUint16, FixedHeader.Packable;
    var codes := p.returnCodes;
    assert Blank(p) == Suback(p.Written().header, 0, []);
    Uint16RoundTrip(p.messageID, codes);
    assert ParseUint16(p.Body()) == Ok(p.messageID, codes);
    assert p.Written().header.remainingLength == 2 + |codes|;
    if codes != [] {
      FullRoundTrip(codes, []);
      assert codes + [] == codes;
    }
  }

  lemma BodyRoundTrip(p: Packet)
    requires p.WellFormed()
    ensures ParseBody(Blank(p), p.Body()) == Ok(p.Written(), [])
  {
    hide ParseConnect, ParsePublish, ParseSubscribe, ParseSuback, ParseUnsubscribe;
    match p
    case Connect(_, _, _) => ConnectRoundTrip(p);
    case Publish(_, _, _, _) => PublishRoundTrip(p);
    case Ack(_, id) => Uint16RoundTrip(id, []);
      assert EncodeUint16(id) + [] == p.Body();
    case Subscribe(_, _, _) => SubscribeRoundTrip(p);
    case Suback(_, _, _) => SubackRoundTrip(p);
    case Unsubscribe(_, _, _) => UnsubscribeRoundTrip(p);
    case Connack(_, present, code) =>
      assert ParseByte(p.Body()).rest == [code];
    case Empty(_) =>
      assert p.Body() == [];
  }

  /** `p` is a packet with the header `h`, as decoding produces them, whose encoding takes at most
      `n` bytes. */
  predicate Decoded(h: FixedHeader, p: Packet, n: nat) {
    p.header == h && p.Shape() && |p.Body()| <= n
  }

  lemma SubscribeAccepted(p: Packet, s: bytes)
    requires p.Subscribe? && p.Shape() && p.topicSubscriptions == [] && |s| == p.header.remainingLength
    requires ParseSubscribe(p, s).Ok?
    ensures Decoded(p.header, ParseSubscribe(p, s).value, |s|)
    ensures ParseSubscribe(p, s).rest == []
  {
    var s1 := ParseUint16(s).rest;
    SubscriptionsConsumed(s1);
    var subs := ParseSubscriptions(s1, |s1|).value;
    assert [] + subs == subs;
  }

  lemma UnsubscribeAccepted(p: Packet, s: bytes)
    requires p.Unsubscribe? && p.Shape() && p.topicFilters == [] && |s| == p.header.remainingLength
    requires ParseUnsubscribe(p, s).Ok?
    ensures Decoded(p.header, ParseUnsubscribe(p, s).value, |s|)
    ensures ParseUnsubscribe(p, s).rest == []
  {
    var s1 := ParseUint16(s).rest;
    FiltersConsumed(s1);
    var filters := ParseFilters(s1, |s1|).value;
    assert [] + filters == filters;
  }

  lemma ConnectAccepted(p: Packet, s: bytes)
    requires p.Connect? && p.header.Packable() && p.header.messageType == CONNECT && p.payload == NO_PAYLOAD
    requires ParseConnect(p, s).Ok?
    ensures Decoded(p.header, ParseConnect(p, s).value, |s|)
  {
  }

  lemma PublishAccepted(p: Packet, s: bytes)
    requires p.Publish? && p.Shape() && p.messageID == 0 && |s| == p.header.remainingLength
    requires ParsePublish(p, s).Ok?
    ensures Decoded(p.header, ParsePublish(p, s).value, |s|)
    ensures ParsePublish(p, s).rest == []
  {
  }

  lemma ConnackAccepted(p: Packet, s: bytes)
    requires p.Connack? && p.Shape()
    requires ParseConnack(p, s).Ok?
    ensures Decoded(p.header, ParseConnack(p, s).value, |s|)
  {
  }

  lemma AckAccepted(p: Packet, s: bytes)
    requires p.Ack? && p.Shape()
    requires ParseAck(p, s).Ok?
    ensures Decoded(p.header, ParseAck(p, s).value, |s|)
  {
  }

  lemma SubackAccepted(p: Packet, s: bytes)
    requires p.Suback? && p.Shape() && p.returnCodes == []
    requires ParseSuback(p, s).Ok?
    ensures Decoded(p.header, ParseSuback(p, s).value, |s|)
  {
  }

  /** Everything a body parser accepts has the shape of a decoded packet, and its encoding is no
      longer than the frame. */
  lemma BodyAccepted(h: FixedHeader, s: bytes)
    requires h.Packable() && NewWithHeader(h).Success? && |s| == h.remainingLength
    requires ParseBody(NewWithHeader(h).value, s).Ok?
    ensures Decoded(h, ParseBody(NewWithHeader(h).value, s).value, |s|)
  {
    hide ParseConnect, ParseConnack, ParsePublish, ParseAck, ParseSubscribe, ParseSuback, ParseUnsubscribe;
    var p := NewWithHeader(h).value;
    match p
    case Connect(_, _, _) => ConnectAccepted(p, s);
    case Connack(_, _, _) => ConnackAccepted(p, s);
    case Publish(_, _, _, _) => PublishAccepted(p, s);
    case Ack(_, _) => AckAccepted(p, s);
    case Subscribe(_, _, _) => SubscribeAccepted(p, s);
    case Suback(_, _, _) => SubackAccepted(p, s);
    case Unsubscribe(_, _, _) => UnsubscribeAccepted(p, s);
    case Empty(_) =>
  }

  /** What `ReadPacket` returns is always a packet of the decoded shape, no longer than its frame. */
  lemma PacketAccepted(s: bytes)
    requires ParsePacket(s).Ok?
    ensures var Ok(p, rest) := ParsePacket(s);
      && ParseHeader(s).Ok? && p.Shape() && p.header.Validate() && |p.Body()| <= p.header.remainingLength
      && IsSuffix(rest, s) && p.header == ParseHeader(s).value
      && |s| - |rest| == |s| - |ParseHeader(s).rest| + p.header.remainingLength
      && |p.header.Packed()| <= |s| - |ParseHeader(s).rest|
  {
    hide Header.FirstBits, ParseHeader, ParseBody, Packet.Body;
    var Ok(h, s1) := ParseHeader(s);
    HeaderNoLonger(s);
    BodyAccepted(h, s1[..h.remainingLength]);
  }

  /** More input behind an accepted packet changes nothing. */
  lemma PacketExtend(s: bytes, t: bytes)
    requires ParsePacket(s).Ok?
    ensures ParsePacket(s + t) == Ok(ParsePacket(s).value, ParsePacket(s).rest + t)
  {
    hide ParseHeader, ParseBody;
    HeaderExtend(s, t);
    FullExtend(ParseHeader(s).rest, ParseHeader(s).value.remainingLength, t);
  }

  /** Reading a frame is parsing its body, whatever follows. */
  lemma Unframe(h: FixedHeader, body: bytes, t: bytes)
    requires h.Packable() && h.Validate() && h.remainingLength == |body| && NewWithHeader(h).Success?
    ensures var r := ParseBody(NewWithHeader(h).value, body);
      ParsePacket(h.Packed() + (body + t)) == if r.Ok? then Ok(r.value, t) else Err(r.error)
  {
    HeaderRoundTrip(h, body + t);
    FullRoundTrip(body, t);
  }

  /** A packet written and read back, with any bytes behind it, comes back as written and leaves
      exactly those bytes: if and only if it is well formed. */
  lemma FrameRoundTrip(p: Packet, t: bytes)
    ensures ParsePacket(p.Frame() + t) == Ok(p.Written(), t) <==> p.WellFormed()
    decreases p.Connect? && p.variable.flags.reserved, 1
  {
    hide Header.FirstBits, ParseHeader, ParsePacket, ParseBody, Packet.Body;
    if p.WellFormed() {
      BodyRoundTrip(p);
      FrameParts(p, t);
      Unframe(p.Written().header, p.Body(), t);
    } else if ParsePacket(p.Frame() + t) == Ok(p.Written(), t) {
      OnlyWellFormed(p, t);
    }
  }

  lemma FrameParts(p: Packet, t: bytes)
    requires p.WellFormed()
    ensures var h := p.Written().header;
      && p.Frame() + t == h.Packed() + (p.Body() + t)
      && h.Packable() && h.Validate() && h.remainingLength == |p.Body()| && NewWithHeader(h).Success?
  {
    hide Header.FirstBits, Packet.Body, Uvarint;
  }

  lemma OnlyWellFormed(p: Packet, t: bytes)
    requires ParsePacket(p.Frame() + t) == Ok(p.Written(), t)
    ensures p.WellFormed()
    decreases p.Connect? && p.variable.flags.reserved, 0
  {
    hide Header.FirstBits, ParseHeader, ParsePacket, ParseBody, Packet.Body;
    var s := p.Frame() + t;
    PacketAccepted(s);
    ReadBackFits(p, s, t);
    if p.Connect? && p.variable.flags.reserved {
      SameBody(p);
      FrameRoundTrip(p.WithoutReserved(), t);
    }
  }

  lemma ReadBackFits(p: Packet, s: bytes, t: bytes)
    requires s == p.Frame() + t
    requires p.Written().Shape() && p.Written().header.Validate()
    requires ParseHeader(s).Ok? && p.Written().header == ParseHeader(s).value
    requires |s| - |t| == |s| - |ParseHeader(s).rest| + p.Written().header.remainingLength
    ensures p.Shape() && |p.Body()| <= MAX_REMAINING_LENGTH && !p.Stale()
  {
    hide Header.FirstBits, ParseHeader, Packet.Body, Uvarint;
    var h := p.Written().header;
    assert s == h.Packed() + (p.Body() + t);
    HeaderRoundTrip(h, p.Body() + t);
  }

  /** Normalisation: writing an accepted packet takes no more bytes than were read, and reading
      that back gives the same packet but for the length and CONNECT's reserved bit. The one
      exception are PINGREQ, PINGRESP and DISCONNECT that arrived with a body: they are written
      with the stored length and no body. */
  lemma Normalisation(s: bytes, t: bytes)
    requires ParsePacket(s).Ok?
    ensures var Ok(p, rest) := ParsePacket(s);
      && |p.Frame()| <= |s| - |rest|
      && (ParsePacket(p.Frame() + t) == Ok(p.Normal(), t) <==> !p.Stale())
  {
    hide Header.FirstBits, ParsePacket;
    PacketAccepted(s);
    var p := ParsePacket(s).value;
    SameBody(p);
    WrittenNoLonger(p);
    FrameRoundTrip(p.WithoutReserved(), t);
    NormalWellFormed(p);
  }

  lemma WrittenNoLonger(p: Packet)
    requires p.header.Validate() && |p.Body()| <= p.header.remainingLength
    ensures |p.Frame()| <= |p.header.Packed()| + p.header.remainingLength
  {
    hide Header.FirstBits, Packet.Body, Uvarint;
    UvarintMonotone(|p.Body()|, p.header.remainingLength);
  }

  lemma NormalWellFormed(p: Packet)
    requires p.Shape() && |p.Body()| <= MAX_REMAINING_LENGTH
    ensures p.WithoutReserved().WellFormed() <==> !p.Stale()
  {
    SameBody(p);
  }

  /** A PINGREQ that arrives with a body is read and is stale; it is then written as a header
      announcing two bytes that do not follow. */
  lemma StalePing(b: byte, c: byte)
    ensures
      var s := [0xC0, 2, b, c];
      && ParsePacket(s) == Ok(Empty(FixedHeader(PINGREQ, false, 0, false, 2)), [])
      && ParsePacket(s).value.Stale() && ParsePacket(s).value.Frame() == [0xC0, 2]
  {
    var s, h := [0xC0, 2, b, c], FixedHeader(PINGREQ, false, 0, false, 2);
    hide Header.FirstBits, FixedHeader.Packed, ParseHeader;
    PingHeader();
    assert s == h.Packed() + ([b, c] + []);
    Unframe(h, [b, c], []);
  }
}
