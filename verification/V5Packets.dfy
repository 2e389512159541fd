/** The MQTT 5.0 packet structs: each reads itself from the bytes of a frame and writes itself.
    What they compute is stated with the values of `V5`. */
module V5Packets {
  import opened Wire
  import opened Varint
  import opened Streams
  import opened Header
  import opened Connect
  import opened ConnectStreams
  import opened V5

  method UnpackProperties(r: Reader) returns (res: Result<bytes>)
    modifies r
    ensures r.Advanced()
    ensures res == ParseProperties(old(r.Rest())).Outcome()
    ensures res.Success? ==> r.Rest() == ParseProperties(old(r.Rest())).rest
  {
    hide ParseUvarint;
    var totalLength :- DecodeUvarint(r);
    res := r.ReadFull(totalLength);
  }

  method UnpackOptionalProperties(r: Reader, present: bool, before: bytes) returns (res: Result<bytes>)
    modifies r
    ensures r.Advanced()
    ensures res == ParseOptionalProperties(present, before, old(r.Rest())).Outcome()
    ensures res.Success? ==> r.Rest() == ParseOptionalProperties(present, before, old(r.Rest())).rest
  {
    if !present {
      return Success(before);
    }
    res := UnpackProperties(r);
  }

  method WriteProperties(body: Buffer, rawData: bytes)
    modifies body
    ensures body.contents == old(body.contents) + EncodeProperties(rawData)
  {
    var _ := WriteUvarint(body, |rawData| % 0x1_0000_0000);
    body.Write(rawData);
  }

  method WriteOptionalProperties(body: Buffer, present: bool, rawData: bytes)
    modifies body
    ensures body.contents == old(body.contents) + OptionalProperties(present, rawData)
  {
    if present {
      WriteProperties(body, rawData);
    }
  }

  lemma Layout(s: bytes, a: bytes, b: bytes, c: bytes, d: bytes, e: bytes, f: bytes)
    ensures s + a + b + c + d + e + f == s + (a + (b + (c + (d + (e + f)))))
  {
    Reassociate(s + a, b, c, d, e, f);
    assert s + a + (b + (c + (d + (e + f)))) == s + (a + (b + (c + (d + (e + f)))));
  }

  class ConnectPacket {
    var header: FixedHeader
    var variable: VariableHeader
    var properties: bytes
    var payload: Payload

    constructor (h: FixedHeader)
      ensures Value() == Packet.Connect(h, NO_VARIABLE_HEADER, [], NO_PAYLOAD)
    {
      header, variable, properties, payload := h, NO_VARIABLE_HEADER, [], NO_PAYLOAD;
    }

    function Value(): Packet
      reads this
    {
      Packet.Connect(header, variable, properties, payload)
    }

    method WritePayload(body: Buffer)
      modifies body
      ensures body.contents == old(body.contents) + payload.Encode(variable.flags)
    {
      hide EncodeBytes, Optional, OptionalProperties;
      var flags := variable.flags;
      body.Write(EncodeBytes(payload.clientIdentifier));
      WriteOptionalProperties(body, flags.willFlag, payload.willProperties);
      WriteOptional(body, flags.willFlag, payload.willTopic);
      WriteOptional(body, flags.willFlag, payload.willPayload);
      WriteOptional(body, flags.hasUsername, payload.username);
      WriteOptional(body, flags.hasPassword, payload.password);
      Layout(
        old(body.contents), EncodeBytes(payload.clientIdentifier),
        OptionalProperties(flags.willFlag, payload.willProperties),
        Optional(flags.willFlag, payload.willTopic), Optional(flags.willFlag, payload.willPayload),
        Optional(flags.hasUsername, payload.username), Optional(flags.hasPassword, payload.password));
    }

    method Write(w: Buffer)
      modifies this`header, w
      ensures Value() == old(Value()).Written()
      ensures w.contents == old(w.contents) + old(Value()).Frame()
    {
      hide FixedHeader.Packed, VariableHeader.Encode, Payload.Encode, EncodeProperties;
      var body := new Buffer();
      WriteVariableHeader(body, variable);
      WriteProperties(body, properties);
      WritePayload(body);
      assert body.contents == Value().Body();
      header := header.(remainingLength := |body.contents|);
      WriteFrame(w, header, body.contents);
    }

    method Unpack(r: Reader) returns (res: Result<()>)
      modifies this, r
      ensures Unpacked(res, r, ParseConnect(old(Value()), old(r.Rest())), Value())
    {
      hide ParseVariableHeader, ParseProperties, ParsePayload;
      variable :- UnpackVariableHeader(r);
      properties :- UnpackProperties(r);
      payload :- UnpackPayload(r, variable.flags, payload);
      return Success(());
    }
  }

  method UnpackPayload(r: Reader, flags: Flags, before: Payload) returns (res: Result<Payload>)
    modifies r
    ensures r.Advanced()
    ensures res == ParsePayload(flags, before, old(r.Rest())).Outcome()
    ensures res.Success? ==> r.Rest() == ParsePayload(flags, before, old(r.Rest())).rest
  {
    hide ParseBytes, ParseOptional, ParseOptionalProperties;
    var id :- DecodeBytes(r);
    var willProperties :- UnpackOptionalProperties(r, flags.willFlag, before.willProperties);
    var willTopic :- UnpackOptional(r, flags.willFlag, before.willTopic);
    var willPayload :- UnpackOptional(r, flags.willFlag, before.willPayload);
    var username :- UnpackOptional(r, flags.hasUsername, before.username);
    var password :- UnpackOptional(r, flags.hasPassword, before.password);
    res := Success(Payload(id, willProperties, willTopic, willPayload, username, password));
  }

  class ConnackPacket {
    var header: FixedHeader
    var sessionPresent: bool
    var returnCode: byte
    var properties: bytes

    constructor (h: FixedHeader)
      ensures Value() == Packet.Connack(h, false, 0, [])
    {
      header, sessionPresent, returnCode, properties := h, false, 0, [];
    }

    function Value(): Packet
      reads this
    {
      Packet.Connack(header, sessionPresent, returnCode, properties)
    }

    method Write(w: Buffer)
      modifies this`header, w
      ensures Value() == old(Value()).Written()
      ensures w.contents == old(w.contents) + old(Value()).Frame()
    {
      hide FixedHeader.Packed, EncodeProperties;
      var body := new Buffer();
      body.WriteByte(if sessionPresent then 1 else 0);
      body.WriteByte(returnCode);
      WriteProperties(body, properties);
      assert body.contents == Value().Body();
      header := header.(remainingLength := |body.contents|);
      WriteFrame(w, header, body.contents);
    }

    method Unpack(r: Reader) returns (res: Result<()>)
      modifies this, r
      ensures Unpacked(res, r, ParseConnack(old(Value()), old(r.Rest())), Value())
    {
      hide ParseProperties;
      var flags :- DecodeByte(r);
      sessionPresent := flags % 2 == 1;
      returnCode :- DecodeByte(r);
      properties :- UnpackProperties(r);
      return Success(());
    }
  }

  class PublishPacket {
    var header: FixedHeader
    var topicName: bytes
    var messageID: uint16
    var properties: bytes
    var message: bytes

    constructor (h: FixedHeader)
      ensures Value() == Packet.Publish(h, [], 0, [], [])
    {
      header, topicName, messageID, properties, message := h, [], 0, [], [];
    }

    function Value(): Packet
      reads this
    {
      Packet.Publish(header, topicName, messageID, properties, message)
    }

    method Write(w: Buffer)
      modifies this`header, w
      ensures Value() == old(Value()).Written()
      ensures w.contents == old(w.contents) + old(Value()).Frame()
    {
      hide FixedHeader.Packed, EncodeBytes, EncodeUint16, EncodeProperties;
      var body := new Buffer();
      body.Write(EncodeBytes(topicName));
      if header.qos > 0 {
        body.Write(EncodeUint16(messageID));
      }
      WriteProperties(body, properties);
      assert body.contents + message == Value().Body();
      header := header.(remainingLength := |body.contents| + |message|);
      WriteFrame(w, header, body.contents + message);
    }

    /** The counting reader's count is what `r` has handed out since the start. */
    method Unpack(r: Reader) returns (res: Result<()>)
      modifies this, r
      ensures Unpacked(res, r, ParsePublish(old(Value()), old(r.Rest())), Value())
    {
      hide ParseBytes, ParseUint16, ParseProperties, ParseMessage, EncodeProperties, EncodeBytes;
      var start := |r.consumed|;
      var payloadLength := header.remainingLength;
      topicName :- DecodeBytes(r);
      if header.qos > 0 {
        messageID :- DecodeUint16(r);
      }
      properties :- UnpackProperties(r);
      assert |r.consumed| + |r.Rest()| == start + |old(r.Rest())|;
      payloadLength := payloadLength - (|r.consumed| - start);
      message :- DecodeMessage(r, payloadLength);
      return Success(());
    }
  }

  /** PUBACK, PUBREC, PUBREL and PUBCOMP. */
  class AckPacket {
    var header: FixedHeader
    var messageID: uint16
    var reasonCode: byte
    var properties: bytes

    constructor (h: FixedHeader)
      ensures Value() == Packet.Ack(h, 0, 0, [])
    {
      header, messageID, reasonCode, properties := h, 0, 0, [];
    }

    function Value(): Packet
      reads this
    {
      Packet.Ack(header, messageID, reasonCode, properties)
    }

    method Write(w: Buffer)
      modifies this`header, w
      ensures Value() == old(Value()).Written()
      ensures w.contents == old(w.contents) + old(Value()).Frame()
    {
      hide FixedHeader.Packed, EncodeUint16, EncodeProperties;
      var body := new Buffer();
      body.Write(EncodeUint16(messageID));
      if reasonCode != 0 || |properties| != 0 {
        body.WriteByte(reasonCode);
        WriteProperties(body, properties);
      }
      assert body.contents == Value().Body();
      header := header.(remainingLength := |body.contents|);
      WriteFrame(w, header, body.contents);
    }

    method Unpack(r: Reader) returns (res: Result<()>)
      modifies this, r
      ensures Unpacked(res, r, ParseAck(old(Value()), old(r.Rest())), Value())
    {
      hide ParseUint16, ParseProperties;
      messageID :- DecodeUint16(r);
      if header.remainingLength == 2 {
        reasonCode := 0;
        properties := [];
      } else {
        reasonCode :- DecodeByte(r);
        properties :- UnpackProperties(r);
      }
      return Success(());
    }
  }

  class DisconnectPacket {
    var header: FixedHeader
    var reasonCode: byte
    var properties: bytes

    constructor (h: FixedHeader)
      ensures Value() == Packet.Disconnect(h, 0, [])
    {
      header, reasonCode, properties := h, 0, [];
    }

    function Value(): Packet
      reads this
    {
      Packet.Disconnect(header, reasonCode, properties)
    }

    /** The short form is written under the stored length. */
    method Write(w: Buffer)
      modifies this`header, w
      ensures Value() == old(Value()).Written()
      ensures w.contents == old(w.contents) + old(Value()).Frame()
    {
      hide FixedHeader.Packed, EncodeProperties;
      if reasonCode == 0 && |properties| == 0 {
        WriteFrame(w, header, []);
      } else {
        var body := new Buffer();
        body.WriteByte(reasonCode);
        WriteProperties(body, properties);
        header := header.(remainingLength := |body.contents|);
        WriteFrame(w, header, body.contents);
      }
    }

    method Unpack(r: Reader) returns (res: Result<()>)
      modifies this, r
      ensures Unpacked(res, r, ParseDisconnect(old(Value()), old(r.Rest())), Value())
    {
      hide ParseProperties;
      if header.remainingLength == 0 {
        reasonCode := 0;
        properties := [];
      } else {
        reasonCode :- DecodeByte(r);
        properties :- UnpackProperties(r);
      }
      return Success(());
    }
  }

  /** PINGREQ and PINGRESP: the stored length is written as it is. */
  class EmptyPacket {
    var header: FixedHeader

    constructor (h: FixedHeader)
      ensures Value() == Packet.Empty(h)
    {
      header := h;
    }

    function Value(): Packet
      reads this
    {
      Packet.Empty(header)
    }

    method Write(w: Buffer)
      modifies w
      ensures w.contents == old(w.contents) + Value().Frame()
    {
      WriteFrame(w, header, []);
    }

    method Unpack(r: Reader) returns (res: Result<()>)
      ensures Unpacked(res, r, Ok(Value(), r.Rest()), Value())
    {
      return Success(());
    }
  }

  /** `ReadPacket`: allocates the packet the header asks for and unpacks exactly its frame. */
  method ReadPacket(r: Reader) returns (res: Result<Packet>)
    modifies r
    ensures r.Advanced()
    ensures res == ParsePacket(old(r.Rest())).Outcome()
    ensures res.Success? ==> r.Rest() == ParsePacket(old(r.Rest())).rest
  {
    hide ParseHeader, ParseConnect, ParseConnack, ParsePublish, ParseAck, ParseDisconnect;
    var fh :- ReadHeader(r);
    if NewWithHeader(fh).Failure? {
      return Failure(UnsupportedType);
    }
    var packetBytes :- r.ReadFull(fh.remainingLength);
    res := UnpackFrame(fh, packetBytes);
  }

  method UnpackFrame(fh: FixedHeader, packetBytes: bytes) returns (res: Result<Packet>)
    requires NewWithHeader(fh).Success?
    ensures res == ParseBody(NewWithHeader(fh).value, packetBytes).Outcome()
  {
    hide ParseConnect, ParseConnack, ParsePublish, ParseAck, ParseDisconnect;
    var b := new Reader(packetBytes);
    assert b.Rest() == packetBytes;
    if fh.messageType == CONNECT {
      var cp := new ConnectPacket(fh);
      var _ :- cp.Unpack(b);
      res := Success(cp.Value());
    } else if fh.messageType == CONNACK {
      var cp := new ConnackPacket(fh);
      var _ :- cp.Unpack(b);
      res := Success(cp.Value());
    } else if fh.messageType == PUBLISH {
      var cp := new PublishPacket(fh);
      var _ :- cp.Unpack(b);
      res := Success(cp.Value());
    } else if fh.messageType == DISCONNECT {
      var cp := new DisconnectPacket(fh);
      var _ :- cp.Unpack(b);
      res := Success(cp.Value());
    } else if fh.messageType == PINGREQ || fh.messageType == PINGRESP {
      var cp := new EmptyPacket(fh);
      var _ := cp.Unpack(b);
      res := Success(cp.Value());
    } else {
      var cp := new AckPacket(fh);
      var _ :- cp.Unpack(b);
      res := Success(cp.Value());
    }
  }
}
