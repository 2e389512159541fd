/** The MQTT 3.1.1 packet structs: each reads itself from the bytes of a frame and writes itself,
    storing the length it wrote. What they compute is stated with the values of `V311`. */
module V311Packets {
  import opened Wire
  import opened Varint
  import opened Streams
  import opened Header
  import opened Connect
  import opened ConnectStreams
  import opened V311

  class ConnectPacket {
    var header: FixedHeader
    var variable: VariableHeader
    var payload: Payload

    constructor (h: FixedHeader)
      ensures Value() == Packet.Connect(h, NO_VARIABLE_HEADER, NO_PAYLOAD)
    {
      header, variable, payload := h, NO_VARIABLE_HEADER, NO_PAYLOAD;
    }

    function Value(): Packet
      reads this
    {
      Packet.Connect(header, variable, payload)
    }

    method WritePayload(body: Buffer)
      modifies body
      ensures body.contents == old(body.contents) + payload.Encode(variable.flags)
    {
      hide EncodeBytes, Optional;
      var flags := variable.flags;
      body.Write(EncodeBytes(payload.clientIdentifier));
      WriteOptional(body, flags.willFlag, payload.willTopic);
      WriteOptional(body, flags.willFlag, payload.willMessage);
      WriteOptional(body, flags.hasUsername, payload.username);
      WriteOptional(body, flags.hasPassword, payload.password);
      Reassociate(
        old(body.contents), EncodeBytes(payload.clientIdentifier),
        Optional(flags.willFlag, payload.willTopic), Optional(flags.willFlag, payload.willMessage),
        Optional(flags.hasUsername, payload.username), Optional(flags.hasPassword, payload.password));
    }

    method Write(w: Buffer)
      modifies this`header, w
      ensures Value() == old(Value()).Written()
      ensures w.contents == old(w.contents) + old(Value()).Frame()
    {
      hide FixedHeader.Packed, VariableHeader.Encode, Payload.Encode;
      var body := new Buffer();
      WriteVariableHeader(body, variable);
      WritePayload(body);
      assert body.contents == Value().Body();
      header := header.(remainingLength := |body.contents|);
      WriteFrame(w, header, body.contents);
    }

    method Unpack(r: Reader) returns (res: Result<()>)
      modifies this, r
      ensures Unpacked(res, r, ParseConnect(old(Value()), old(r.Rest())), Value())
    {
      hide ParseVariableHeader, ParseBytes, ParseOptional;
      variable :- UnpackVariableHeader(r);
      ghost var s1 := r.Rest();
      var id :- DecodeBytes(r);
      var willTopic :- UnpackOptional(r, variable.flags.willFlag, payload.willTopic);
      var willMessage :- UnpackOptional(r, variable.flags.willFlag, payload.willMessage);
      var username :- UnpackOptional(r, variable.flags.hasUsername, payload.username);
      var password :- UnpackOptional(r, variable.flags.hasPassword, payload.password);
      payload := Payload(id, willTopic, willMessage, username, password);
      return Success(());
    }
  }

  class ConnackPacket {
    var header: FixedHeader
    var sessionPresent: bool
    var returnCode: byte

    constructor (h: FixedHeader)
      ensures Value() == Packet.Connack(h, false, 0)
    {
      header, sessionPresent, returnCode := h, false, 0;
    }

    function Value(): Packet
      reads this
    {
      Packet.Connack(header, sessionPresent, returnCode)
    }

    method Write(w: Buffer)
      modifies this`header, w
      ensures Value() == old(Value()).Written()
      ensures w.contents == old(w.contents) + old(Value()).Frame()
    {
      hide FixedHeader.Packed;
      header := header.(remainingLength := 2);
      WriteFrame(w, header, [if sessionPresent then 1 else 0, returnCode]);
    }

    method Unpack(r: Reader) returns (res: Result<()>)
      modifies this, r
      ensures Unpacked(res, r, ParseConnack(old(Value()), old(r.Rest())), Value())
    {
      var flags :- DecodeByte(r);
      sessionPresent := flags % 2 == 1;
      returnCode :- DecodeByte(r);
      return Success(());
    }
  }

  class PublishPacket {
    var header: FixedHeader
    var topicName: bytes
    var messageID: uint16
    var message: bytes

    constructor (h: FixedHeader)
      ensures Value() == Packet.Publish(h, [], 0, [])
    {
      header, topicName, messageID, message := h, [], 0, [];
    }

    function Value(): Packet
      reads this
    {
      Packet.Publish(header, topicName, messageID, message)
    }

    method Write(w: Buffer)
      modifies this`header, w
      ensures Value() == old(Value()).Written()
      ensures w.contents == old(w.contents) + old(Value()).Frame()
    {
      hide FixedHeader.Packed, EncodeBytes, EncodeUint16;
      var body := new Buffer();
      body.Write(EncodeBytes(topicName));
      if header.qos > 0 {
        body.Write(EncodeUint16(messageID));
      }
      assert body.contents + message == Value().Body();
      header := header.(remainingLength := |body.contents| + |message|);
      WriteFrame(w, header, body.contents + message);
    }

    /** The counting reader's count is what `r` has handed out since the start. */
    method Unpack(r: Reader) returns (res: Result<()>)
      modifies this, r
      ensures Unpacked(res, r, ParsePublish(old(Value()), old(r.Rest())), Value())
    {
      hide ParseBytes, ParseUint16, ParseMessage;
      var start := |r.consumed|;
      var payloadLength := header.remainingLength;
      topicName :- DecodeBytes(r);
      if header.qos > 0 {
        messageID :- DecodeUint16(r);
      }
      assert |r.consumed| + |r.Rest()| == start + |old(r.Rest())|;
      payloadLength := payloadLength - (|r.consumed| - start);
      message :- DecodeMessage(r, payloadLength);
      return Success(());
    }
  }

  /** PUBACK, PUBREC, PUBREL, PUBCOMP and UNSUBACK. */
  class AckPacket {
    var header: FixedHeader
    var messageID: uint16

    constructor (h: FixedHeader)
      ensures Value() == Packet.Ack(h, 0)
    {
      header, messageID := h, 0;
    }

    function Value(): Packet
      reads this
    {
      Packet.Ack(header, messageID)
    }

    method Write(w: Buffer)
      modifies this`header, w
      ensures Value() == old(Value()).Written()
      ensures w.contents == old(w.contents) + old(Value()).Frame()
    {
      hide FixedHeader.Packed, EncodeUint16;
      header := header.(remainingLength := 2);
      WriteFrame(w, header, EncodeUint16(messageID));
    }

    method Unpack(r: Reader) returns (res: Result<()>)
      modifies this, r
      ensures Unpacked(res, r, ParseAck(old(Value()), old(r.Rest())), Value())
    {
      messageID :- DecodeUint16(r);
      return Success(());
    }
  }

  class SubscribePacket {
    var header: FixedHeader
    var messageID: uint16
    var topicSubscriptions: seq<TopicSubscription>

    constructor (h: FixedHeader)
      ensures Value() == Packet.Subscribe(h, 0, [])
    {
      header, messageID, topicSubscriptions := h, 0, [];
    }

    function Value(): Packet
      reads this
    {
      Packet.Subscribe(header, messageID, topicSubscriptions)
    }

    method Write(w: Buffer)
      modifies this`header, w
      ensures Value() == old(Value()).Written()
      ensures w.contents == old(w.contents) + old(Value()).Frame()
    {
      hide FixedHeader.Packed, EncodeBytes, EncodeUint16;
      var body := new Buffer();
      body.Write(EncodeUint16(messageID));
      for i := 0 to |topicSubscriptions|
        invariant body.contents + EncodeSubscriptions(topicSubscriptions[i..]) == old(Value()).Body()
        invariant Value() == old(Value()) && w.contents == old(w.contents)
      {
        ghost var before := body.contents;
        var ts := topicSubscriptions[i];
        body.Write(EncodeBytes(ts.topicFilter));
        body.WriteByte(ts.qos);
        assert topicSubscriptions[i..][1..] == topicSubscriptions[i + 1..];
        assert before + EncodeSubscriptions(topicSubscriptions[i..])
            == body.contents + EncodeSubscriptions(topicSubscriptions[i + 1..]);
      }
      header := header.(remainingLength := |body.contents|);
      WriteFrame(w, header, body.contents);
    }

    method Unpack(r: Reader) returns (res: Result<()>)
      modifies this, r
      ensures Unpacked(res, r, ParseSubscribe(old(Value()), old(r.Rest())), Value())
      ensures res.Success? && |old(r.Rest())| == old(header).remainingLength ==> r.Rest() == []
    {
      hide ParseBytes, ParseUint16, ParseSubscriptions;
      messageID :- DecodeUint16(r);
      var payloadLength := header.remainingLength - 2;
      ghost var expected := ParseSubscriptions(r.Rest(), payloadLength);
      ghost var subs: seq<TopicSubscription> := [];
      PrependNothing(expected);
      while payloadLength > 0
        invariant header == old(header) && messageID == ParseUint16(old(r.Rest())).value
        invariant topicSubscriptions == old(topicSubscriptions) + subs
        invariant expected == Prepend(subs, ParseSubscriptions(r.Rest(), payloadLength))
        invariant |old(r.Rest())| == header.remainingLength ==> payloadLength == |r.Rest()|
      {
        SubscriptionsStep(r.Rest(), payloadLength);
        var topicFilter :- DecodeBytes(r);
        var qos :- DecodeByte(r);
        topicSubscriptions := topicSubscriptions + [TopicSubscription(topicFilter, qos)];
        subs := subs + [TopicSubscription(topicFilter, qos)];
        payloadLength := payloadLength - (3 + |topicFilter|);
        PrependAssociates(subs, TopicSubscription(topicFilter, qos), ParseSubscriptions(r.Rest(), payloadLength));
      }
      SubscriptionsStep(r.Rest(), payloadLength);
      assert subs + [] == subs;
      return Success(());
    }
  }

  /** One round of the loop. */
  lemma SubscriptionsStep(s: bytes, n: int)
    ensures n <= 0 ==> ParseSubscriptions(s, n) == Ok([], s)
    ensures n > 0 && ParseBytes(s).Err? ==> ParseSubscriptions(s, n) == Err(ParseBytes(s).error)
    ensures n > 0 && ParseBytes(s).Ok? ==>
      var Ok(topicFilter, s1) := ParseBytes(s);
      ParseSubscriptions(s, n) ==
        if s1 == [] then Err(EOF)
        else Prepend([TopicSubscription(topicFilter, s1[0])],
                     ParseSubscriptions(s1[1..], n - (3 + |topicFilter|)))
  {
    hide ParseBytes;
  }

  lemma FiltersStep(s: bytes, n: int)
    ensures n <= 0 ==> ParseFilters(s, n) == Ok([], s)
    ensures n > 0 && ParseBytes(s).Err? ==> ParseFilters(s, n) == Err(ParseBytes(s).error)
    ensures n > 0 && ParseBytes(s).Ok? ==>
      var Ok(topicFilter, s1) := ParseBytes(s);
      ParseFilters(s, n) == Prepend([topicFilter], ParseFilters(s1, n - (2 + |topicFilter|)))
  {
    hide ParseBytes;
  }

  /** The result of a list parser that had already parsed `front`. */
  function Prepend<T>(front: seq<T>, r: Parsed<seq<T>>): Parsed<seq<T>> {
    if r.Ok? then Ok(front + r.value, r.rest) else r
  }

  lemma PrependNothing<T>(r: Parsed<seq<T>>)
    ensures Prepend([], r) == r
  {
    if r.Ok? {
      assert [] + r.value == r.value;
    }
  }

  lemma PrependAssociates<T>(front: seq<T>, x: T, r: Parsed<seq<T>>)
    requires front != [] && front[|front| - 1] == x
    ensures Prepend(front, r) == Prepend(front[..|front| - 1], Prepend([x], r))
  {
    if r.Ok? {
      assert front + r.value == front[..|front| - 1] + ([x] + r.value);
    }
  }

  class SubackPacket {
    var header: FixedHeader
    var messageID: uint16
    var returnCodes: bytes

    constructor (h: FixedHeader)
      ensures Value() == Packet.Suback(h, 0, [])
    {
      header, messageID, returnCodes := h, 0, [];
    }

    function Value(): Packet
      reads this
    {
      Packet.Suback(header, messageID, returnCodes)
    }

    method Write(w: Buffer)
      modifies this`header, w
      ensures Value() == old(Value()).Written()
      ensures w.contents == old(w.contents) + old(Value()).Frame()
    {
      hide FixedHeader.Packed, EncodeUint16;
      var body := new Buffer();
      body.Write(EncodeUint16(messageID));
      body.Write(returnCodes);
      assert body.contents == Value().Body();
      header := header.(remainingLength := |body.contents|);
      WriteFrame(w, header, body.contents);
    }

    method Unpack(r: Reader) returns (res: Result<()>)
      modifies this, r
      ensures Unpacked(res, r, ParseSuback(old(Value()), old(r.Rest())), Value())
    {
      messageID :- DecodeUint16(r);
      var payloadLength := header.remainingLength - 2;
      if payloadLength > 0 {
        returnCodes :- r.ReadFull(payloadLength);
      }
      return Success(());
    }
  }

  class UnsubscribePacket {
    var header: FixedHeader
    var messageID: uint16
    var topicFilters: seq<bytes>

    constructor (h: FixedHeader)
      ensures Value() == Packet.Unsubscribe(h, 0, [])
    {
      header, messageID, topicFilters := h, 0, [];
    }

    function Value(): Packet
      reads this
    {
      Packet.Unsubscribe(header, messageID, topicFilters)
    }

    method Write(w: Buffer)
      modifies this`header, w
      ensures Value() == old(Value()).Written()
      ensures w.contents == old(w.contents) + old(Value()).Frame()
    {
      hide FixedHeader.Packed, EncodeBytes, EncodeUint16;
      var body := new Buffer();
      body.Write(EncodeUint16(messageID));
      for i := 0 to |topicFilters|
        invariant body.contents + EncodeFilters(topicFilters[i..]) == old(Value()).Body()
        invariant Value() == old(Value()) && w.contents == old(w.contents)
      {
        ghost var before := body.contents;
        body.Write(EncodeBytes(topicFilters[i]));
        assert topicFilters[i..][1..] == topicFilters[i + 1..];
        assert before + EncodeFilters(topicFilters[i..])
            == body.contents + EncodeFilters(topicFilters[i + 1..]);
      }
      header := header.(remainingLength := |body.contents|);
      WriteFrame(w, header, body.contents);
    }

    method Unpack(r: Reader) returns (res: Result<()>)
      modifies this, r
      ensures Unpacked(res, r, ParseUnsubscribe(old(Value()), old(r.Rest())), Value())
      ensures res.Success? && |old(r.Rest())| == old(header).remainingLength ==> r.Rest() == []
    {
      hide ParseBytes, ParseUint16, ParseFilters;
      messageID :- DecodeUint16(r);
      var payloadLength := header.remainingLength - 2;
      ghost var expected := ParseFilters(r.Rest(), payloadLength);
      ghost var filters: seq<bytes> := [];
      PrependNothing(expected);
      while payloadLength > 0
        invariant header == old(header) && messageID == ParseUint16(old(r.Rest())).value
        invariant topicFilters == old(topicFilters) + filters
        invariant expected == Prepend(filters, ParseFilters(r.Rest(), payloadLength))
        invariant |old(r.Rest())| == header.remainingLength ==> payloadLength == |r.Rest()|
      {
        FiltersStep(r.Rest(), payloadLength);
        var topicFilter :- DecodeBytes(r);
        topicFilters := topicFilters + [topicFilter];
        filters := filters + [topicFilter];
        payloadLength := payloadLength - (2 + |topicFilter|);
        PrependAssociates(filters, topicFilter, ParseFilters(r.Rest(), payloadLength));
      }
      FiltersStep(r.Rest(), payloadLength);
      assert filters + [] == filters;
      return Success(());
    }
  }

  /** PINGREQ, PINGRESP and DISCONNECT: the stored length is written as it is. */
  class EmptyPacket {
    var header: FixedHeader

    constructor (h: FixedHeader)
      ensures Value() == Packet.Empty(h)
    {
      header := h;
    }

    function Value(): Packet
      reads this
    {
      Packet.Empty(header)
    }

    method Write(w: Buffer)
      modifies w
      ensures w.contents == old(w.contents) + Value().Frame()
    {
      WriteFrame(w, header, []);
    }

    method Unpack(r: Reader) returns (res: Result<()>)
      ensures Unpacked(res, r, Ok(Value(), r.Rest()), Value())
    {
      return Success(());
    }
  }

  /** `ReadPacket`: allocates the packet the header asks for and unpacks exactly its frame. */
  method ReadPacket(r: Reader) returns (res: Result<Packet>)
    modifies r
    ensures r.Advanced()
    ensures res == ParsePacket(old(r.Rest())).Outcome()
    ensures res.Success? ==> r.Rest() == ParsePacket(old(r.Rest())).rest
  {
    hide ParseHeader, ParseConnect, ParseConnack, ParsePublish, ParseSubscribe, ParseSuback, ParseUnsubscribe;
    var fh :- ReadHeader(r);
    if NewWithHeader(fh).Failure? {
      return Failure(UnsupportedType);
    }
    var packetBytes :- r.ReadFull(fh.remainingLength);
    res := UnpackFrame(fh, packetBytes);
  }

  method UnpackFrame(fh: FixedHeader, packetBytes: bytes) returns (res: Result<Packet>)
    requires NewWithHeader(fh).Success?
    ensures res == ParseBody(NewWithHeader(fh).value, packetBytes).Outcome()
  {
    hide ParseConnect, ParseConnack, ParsePublish, ParseAck, ParseSubscribe, ParseSuback, ParseUnsubscribe;
    var b := new Reader(packetBytes);
    assert b.Rest() == packetBytes;
    if fh.messageType == CONNECT {
      var cp := new ConnectPacket(fh);
      var _ :- cp.Unpack(b);
      res := Success(cp.Value());
    } else if fh.messageType == CONNACK {
      var cp := new ConnackPacket(fh);
      var _ :- cp.Unpack(b);
      res := Success(cp.Value());
    } else if fh.messageType == PUBLISH {
      var cp := new PublishPacket(fh);
      var _ :- cp.Unpack(b);
      res := Success(cp.Value());
    } else if fh.messageType == SUBSCRIBE {
      var cp := new SubscribePacket(fh);
      var _ :- cp.Unpack(b);
      res := Success(cp.Value());
    } else if fh.messageType == SUBACK {
      var cp := new SubackPacket(fh);
      var _ :- cp.Unpack(b);
      res := Success(cp.Value());
    } else if fh.messageType == UNSUBSCRIBE {
      var cp := new UnsubscribePacket(fh);
      var _ :- cp.Unpack(b);
      res := Success(cp.Value());
    } else if fh.messageType == PINGREQ || fh.messageType == PINGRESP || fh.messageType == DISCONNECT {
      var cp := new EmptyPacket(fh);
      var _ := cp.Unpack(b);
      res := Success(cp.Value());
    } else {
      var cp := new AckPacket(fh);
      var _ :- cp.Unpack(b);
      res := Success(cp.Value());
    }
  }
}
