/** Frames byte by byte, like those in the source's tests: what they are read as, and what the proxy's
    own replies look like on the wire. */
module WireExamples {
  import opened Wire
  import opened Varint
  import opened Header
  import opened Connect
  import opened Codec
  import opened WireLayout
  import Session
  import V311
  import V5

  /** The two bytes in front of a body of less than 128 bytes. */
  function Front(h: FixedHeader, n: int): bytes
    requires h.Packable() && 0 <= n < 128
  {
    [16 * h.messageType + (if h.dup then 8 else 0) + 2 * h.qos + (if h.retain then 1 else 0), n]
  }

  lemma Read311(p: V311.Packet, body: bytes, t: bytes)
    requires p.Shape() && !p.Stale() && |body| < 128 && p.header.remainingLength == |body|
    requires p.Connect? ==> !p.variable.flags.reserved
    requires Body311(p) == body
    ensures V311.ParsePacket(Front(p.header, |body|) + body + t) == Ok(p, t)
    ensures p.Frame() == Front(p.header, |body|) + body
  {
    hide Body311, V311.ParsePacket, V311.Packet.Body;
    Frame311(p, t);
    Body311Layout(p);
    assert Framed(p.header, body) == Front(p.header, |body|) + body;
  }

  lemma Read5(p: V5.Packet, body: bytes, t: bytes)
    requires p.Shape() && !p.Stale() && |body| < 128 && p.header.remainingLength == |body|
    requires p.Connect? ==> !p.variable.flags.reserved
    requires Body5(p) == body
    ensures V5.ParsePacket(Front(p.header, |body|) + body + t) == Ok(p, t)
    ensures p.Frame() == Front(p.header, |body|) + body
  {
    hide Body5, V5.ParsePacket, V5.Packet.Body;
    Frame5(p, t);
    Body5Layout(p);
    assert Framed(p.header, body) == Front(p.header, |body|) + body;
  }

  lemma FirstRead(s: bytes, p: ControlPacket, t: bytes)
    requires p.IsConnect() && p.ProtocolLevel() == p.Version() && ParseAs(p.Version(), s + t) == Ok(p, t)
    ensures ParsePacket(s + t, 0) == Ok(p, t)
  {
    hide ParsePacket, ParseAs;
    PeekTransparent(s + t, p, t);
  }

  // ----- fields -----

  const MQTT: bytes := [0x4D, 0x51, 0x54, 0x54]

  lemma Name()
    ensures Text(MQTT) == [0, 4, 0x4D, 0x51, 0x54, 0x54]
  {
  }

  lemma Two(n: int)
    requires 0 <= n < 65536
    ensures Number(n) == [n / 256, n % 256]
  {
  }

  lemma NoLetter()
    ensures Text([]) == [0, 0]
  {
  }

  lemma Letter(b: byte)
    ensures Text([b]) == [0, 1, b]
  {
  }

  lemma FewProperties(b: bytes)
    requires |b| < 128
    ensures Properties(b) == [|b|] + b
  {
  }

  // ----- CONNECT -----

  /** Version 3.1.1: clean session, a keep-alive of sixty seconds and nothing else. */
  lemma PlainConnect311(t: bytes)
    ensures
      var body: bytes := [0, 4, 0x4D, 0x51, 0x54, 0x54] + [4, 2] + [0, 60] + [0, 0];
      var p := V311.Connect(FixedHeader(1, false, 0, false, 12),
        VariableHeader(MQTT, 4, Flags(false, false, false, 0, false, true, false), 60),
        V311.NO_PAYLOAD);
      ParsePacket([0x10, 12] + body + t, 0) == Ok(P311(p), t)
  {
    hide V311.ParsePacket, ParsePacket, Text, Number, Properties, Body311;
    var body: bytes := [0, 4, 0x4D, 0x51, 0x54, 0x54] + [4, 2] + [0, 60] + [0, 0];
    var p := V311.Connect(FixedHeader(1, false, 0, false, 12),
      VariableHeader(MQTT, 4, Flags(false, false, false, 0, false, true, false), 60),
      V311.NO_PAYLOAD);
    assert p.Shape() && Body311(p) == body by {
      PlainConnect311Body(p, body);
    }
    Read311(p, body, t);
    FirstRead([0x10, 12] + body, P311(p), t);
  }

  lemma PlainConnect311Body(p: V311.Packet, body: bytes)
    requires p == V311.Connect(FixedHeader(1, false, 0, false, 12),
      VariableHeader(MQTT, 4, Flags(false, false, false, 0, false, true, false), 60),
      V311.NO_PAYLOAD)
    requires body == [0, 4, 0x4D, 0x51, 0x54, 0x54] + [4, 2] + [0, 60] + [0, 0]
    ensures p.Shape() && Body311(p) == body
  {
    hide Text, Number;
    Name();
    Two(60);
    NoLetter();
  }

  /** A will of QoS 2 that is retained, and a keep-alive of 258 seconds. */
  lemma WillConnect311(t: bytes)
    ensures
      var body: bytes := [0, 4, 0x4D, 0x51, 0x54, 0x54] + [4, 0x34] + [1, 2] + [0, 1, 0x63] + [0, 1, 0x74]
        + [0, 1, 0x6D];
      var p := V311.Connect(FixedHeader(1, false, 0, false, 19),
        VariableHeader(MQTT, 4, Flags(false, false, true, 2, true, false, false), 258),
        V311.Payload([0x63], [0x74], [0x6D], [], []));
      ParsePacket([0x10, 19] + body + t, 0) == Ok(P311(p), t)
  {
    hide V311.ParsePacket, ParsePacket, Text, Number, Properties, Body311;
    var body: bytes := [0, 4, 0x4D, 0x51, 0x54, 0x54] + [4, 0x34] + [1, 2] + [0, 1, 0x63] + [0, 1, 0x74] + [0, 1, 0x6D];
    var p := V311.Connect(FixedHeader(1, false, 0, false, 19),
      VariableHeader(MQTT, 4, Flags(false, false, true, 2, true, false, false), 258),
      V311.Payload([0x63], [0x74], [0x6D], [], []));
    assert p.Shape() && Body311(p) == body by {
      WillConnect311Body(p, body);
    }
    Read311(p, body, t);
    FirstRead([0x10, 19] + body, P311(p), t);
  }

  lemma WillConnect311Body(p: V311.Packet, body: bytes)
    requires p == V311.Connect(FixedHeader(1, false, 0, false, 19),
      VariableHeader(MQTT, 4, Flags(false, false, true, 2, true, false, false), 258),
      V311.Payload([0x63], [0x74], [0x6D], [], []))
    requires body == [0, 4, 0x4D, 0x51, 0x54, 0x54] + [4, 0x34] + [1, 2] + [0, 1, 0x63] + [0, 1, 0x74] + [0, 1, 0x6D]
    ensures p.Shape() && Body311(p) == body
  {
    hide Text, Number;
    Name();
    Two(258);
    Letter(0x63);
    Letter(0x74);
    Letter(0x6D);
  }

  /** User name and password. */
  lemma LoginConnect311(t: bytes)
    ensures
      var body: bytes := [0, 4, 0x4D, 0x51, 0x54, 0x54] + [4, 0xC2] + [0, 60] + [0, 1, 0x63] + [0, 1, 0x75]
        + [0, 1, 0x70];
      var p := V311.Connect(FixedHeader(1, false, 0, false, 19),
        VariableHeader(MQTT, 4, Flags(true, true, false, 0, false, true, false), 60),
        V311.Payload([0x63], [], [], [0x75], [0x70]));
      ParsePacket([0x10, 19] + body + t, 0) == Ok(P311(p), t)
  {
    hide V311.ParsePacket, ParsePacket, Text, Number, Properties, Body311;
    var body: bytes := [0, 4, 0x4D, 0x51, 0x54, 0x54] + [4, 0xC2] + [0, 60] + [0, 1, 0x63] + [0, 1, 0x75]
      + [0, 1, 0x70];
    var p := V311.Connect(FixedHeader(1, false, 0, false, 19),
      VariableHeader(MQTT, 4, Flags(true, true, false, 0, false, true, false), 60),
      V311.Payload([0x63], [], [], [0x75], [0x70]));
    assert p.Shape() && Body311(p) == body by {
      LoginConnect311Body(p, body);
    }
    Read311(p, body, t);
    FirstRead([0x10, 19] + body, P311(p), t);
  }

  lemma LoginConnect311Body(p: V311.Packet, body: bytes)
    requires p == V311.Connect(FixedHeader(1, false, 0, false, 19),
      VariableHeader(MQTT, 4, Flags(true, true, false, 0, false, true, false), 60),
      V311.Payload([0x63], [], [], [0x75], [0x70]))
    requires body == [0, 4, 0x4D, 0x51, 0x54, 0x54] + [4, 0xC2] + [0, 60] + [0, 1, 0x63] + [0, 1, 0x75] + [0, 1, 0x70]
    ensures p.Shape() && Body311(p) == body
  {
    hide Text, Number;
    Name();
    Two(60);
    Letter(0x63);
    Letter(0x75);
    Letter(0x70);
  }

  /** Version 5: clean start, a keep-alive of sixty seconds and nothing else. */
  lemma PlainConnect5(t: bytes)
    ensures
      var body: bytes := [0, 4, 0x4D, 0x51, 0x54, 0x54] + [5, 2] + [0, 60] + [0] + [0, 0];
      var p := V5.Connect(FixedHeader(1, false, 0, false, 13),
        VariableHeader(MQTT, 5, Flags(false, false, false, 0, false, true, false), 60),
        [], V5.NO_PAYLOAD);
      ParsePacket([0x10, 13] + body + t, 0) == Ok(P5(p), t)
  {
    hide V5.ParsePacket, ParsePacket, Text, Number, Properties, Body5;
    var body: bytes := [0, 4, 0x4D, 0x51, 0x54, 0x54] + [5, 2] + [0, 60] + [0] + [0, 0];
    var p := V5.Connect(FixedHeader(1, false, 0, false, 13),
      VariableHeader(MQTT, 5, Flags(false, false, false, 0, false, true, false), 60),
      [], V5.NO_PAYLOAD);
    assert p.Shape() && Body5(p) == body by {
      PlainConnect5Body(p, body);
    }
    Read5(p, body, t);
    FirstRead([0x10, 13] + body, P5(p), t);
  }

  lemma PlainConnect5Body(p: V5.Packet, body: bytes)
    requires p == V5.Connect(FixedHeader(1, false, 0, false, 13),
      VariableHeader(MQTT, 5, Flags(false, false, false, 0, false, true, false), 60),
      [], V5.NO_PAYLOAD)
    requires body == [0, 4, 0x4D, 0x51, 0x54, 0x54] + [5, 2] + [0, 60] + [0] + [0, 0]
    ensures p.Shape() && Body5(p) == body
  {
    hide Text, Number, Properties;
    Name();
    Two(60);
    FewProperties([]);
    NoLetter();
  }

  /** A will, with properties of the connection and then of the will. */
  lemma WillConnect5(t: bytes)
    ensures
      var body: bytes := [0, 4, 0x4D, 0x51, 0x54, 0x54] + [5, 6] + [0, 60] + [3, 0x21, 0, 0x14] + [0, 0]
        + [2, 1, 1] + [0, 1, 0x74] + [0, 1, 0x6D];
      var p := V5.Connect(FixedHeader(1, false, 0, false, 25),
        VariableHeader(MQTT, 5, Flags(false, false, false, 0, true, true, false), 60),
        [0x21, 0, 0x14], V5.Payload([], [1, 1], [0x74], [0x6D], [], []));
      ParsePacket([0x10, 25] + body + t, 0) == Ok(P5(p), t)
  {
    hide V5.ParsePacket, ParsePacket, Text, Number, Properties, Body5;
    var body: bytes := [0, 4, 0x4D, 0x51, 0x54, 0x54] + [5, 6] + [0, 60] + [3, 0x21, 0, 0x14] + [0, 0]
      + [2, 1, 1] + [0, 1, 0x74] + [0, 1, 0x6D];
    var p := V5.Connect(FixedHeader(1, false, 0, false, 25),
      VariableHeader(MQTT, 5, Flags(false, false, false, 0, true, true, false), 60),
      [0x21, 0, 0x14], V5.Payload([], [1, 1], [0x74], [0x6D], [], []));
    assert p.Shape() && Body5(p) == body by {
      WillConnect5Body(p, body);
    }
    Read5(p, body, t);
    FirstRead([0x10, 25] + body, P5(p), t);
  }

  lemma WillConnect5Body(p: V5.Packet, body: bytes)
    requires p == V5.Connect(FixedHeader(1, false, 0, false, 25),
      VariableHeader(MQTT, 5, Flags(false, false, false, 0, true, true, false), 60),
      [0x21, 0, 0x14], V5.Payload([], [1, 1], [0x74], [0x6D], [], []))
    requires body == [0, 4, 0x4D, 0x51, 0x54, 0x54] + [5, 6] + [0, 60] + [3, 0x21, 0, 0x14] + [0, 0] + [2, 1, 1]
      + [0, 1, 0x74] + [0, 1, 0x6D]
    ensures p.Shape() && Body5(p) == body
  {
    hide Text, Number, Properties;
    Name();
    Two(60);
    FewProperties([0x21, 0, 0x14]);
    FewProperties([1, 1]);
    NoLetter();
    Letter(0x74);
    Letter(0x6D);
  }

  // ----- the others -----

  /** PUBLISH of "on" to "d" with QoS 1 and identifier 1. */
  lemma Publish311(t: bytes)
    ensures
      var body: bytes := [0, 1, 0x64] + [0, 1] + [0x6F, 0x6E];
      var p := V311.Publish(FixedHeader(3, false, 1, false, 7), [0x64], 1, [0x6F, 0x6E]);
      V311.ParsePacket([0x32, 7] + body + t) == Ok(p, t)
  {
    hide V311.ParsePacket, ParsePacket, Text, Number, Properties, Body311;
    var body: bytes := [0, 1, 0x64] + [0, 1] + [0x6F, 0x6E];
    var p := V311.Publish(FixedHeader(3, false, 1, false, 7), [0x64], 1, [0x6F, 0x6E]);
    assert p.Shape() && Body311(p) == body by {
      Publish311Body(p, body);
    }
    Read311(p, body, t);
  }

  lemma Publish311Body(p: V311.Packet, body: bytes)
    requires p == V311.Publish(FixedHeader(3, false, 1, false, 7), [0x64], 1, [0x6F, 0x6E])
    requires body == [0, 1, 0x64] + [0, 1] + [0x6F, 0x6E]
    ensures p.Shape() && Body311(p) == body
  {
    hide Text, Number;
    Letter(0x64);
    Two(1);
  }

  /** The same in version 5, sent again, with a property. */
  lemma Publish5(t: bytes)
    ensures
      var body: bytes := [0, 1, 0x64] + [0, 1] + [2, 1, 1] + [0x6F, 0x6E];
      var p := V5.Publish(FixedHeader(3, true, 1, false, 10), [0x64], 1, [1, 1], [0x6F, 0x6E]);
      V5.ParsePacket([0x3A, 10] + body + t) == Ok(p, t)
  {
    hide V5.ParsePacket, ParsePacket, Text, Number, Properties, Body5;
    var body: bytes := [0, 1, 0x64] + [0, 1] + [2, 1, 1] + [0x6F, 0x6E];
    var p := V5.Publish(FixedHeader(3, true, 1, false, 10), [0x64], 1, [1, 1], [0x6F, 0x6E]);
    assert p.Shape() && Body5(p) == body by {
      Publish5Body(p, body);
    }
    Read5(p, body, t);
  }

  lemma Publish5Body(p: V5.Packet, body: bytes)
    requires p == V5.Publish(FixedHeader(3, true, 1, false, 10), [0x64], 1, [1, 1], [0x6F, 0x6E])
    requires body == [0, 1, 0x64] + [0, 1] + [2, 1, 1] + [0x6F, 0x6E]
    ensures p.Shape() && Body5(p) == body
  {
    hide Text, Number, Properties;
    Letter(0x64);
    Two(1);
    FewProperties([1, 1]);
  }

  /** SUBSCRIBE to "a" with QoS 1 and to "b" with QoS 2. */
  lemma Subscribe311(t: bytes)
    ensures
      var body: bytes := [0, 1] + ([0, 1, 0x61] + [1] + ([0, 1, 0x62] + [2]));
      var p := V311.Subscribe(FixedHeader(8, false, 1, false, 10), 1,
        [V311.TopicSubscription([0x61], 1), V311.TopicSubscription([0x62], 2)]);
      V311.ParsePacket([0x82, 10] + body + t) == Ok(p, t)
  {
    hide V311.ParsePacket, ParsePacket, Text, Number, Properties, Body311;
    var body: bytes := [0, 1] + ([0, 1, 0x61] + [1] + ([0, 1, 0x62] + [2]));
    var p := V311.Subscribe(FixedHeader(8, false, 1, false, 10), 1,
      [V311.TopicSubscription([0x61], 1), V311.TopicSubscription([0x62], 2)]);
    assert p.Shape() && Body311(p) == body by {
      Subscribe311Body(p, body);
    }
    Read311(p, body, t);
  }

  lemma Subscribe311Body(p: V311.Packet, body: bytes)
    requires p == V311.Subscribe(FixedHeader(8, false, 1, false, 10), 1,
      [V311.TopicSubscription([0x61], 1), V311.TopicSubscription([0x62], 2)])
    requires body == [0, 1] + ([0, 1, 0x61] + [1] + ([0, 1, 0x62] + [2]))
    ensures p.Shape() && Body311(p) == body
  {
    hide Text, Number;
    Two(1);
    Letter(0x61);
    Letter(0x62);
    assert p.topicSubscriptions[1..][1..] == [];
    assert [0, 1, 0x62] + [2] + [] == [0, 1, 0x62] + [2];
  }

  /** UNSUBSCRIBE from both. */
  lemma Unsubscribe311(t: bytes)
    ensures
      var body: bytes := [0, 2] + ([0, 1, 0x61] + [0, 1, 0x62]);
      var p := V311.Unsubscribe(FixedHeader(10, false, 1, false, 8), 2, [[0x61], [0x62]]);
      V311.ParsePacket([0xA2, 8] + body + t) == Ok(p, t)
  {
    hide V311.ParsePacket, ParsePacket, Text, Number, Properties, Body311;
    var body: bytes := [0, 2] + ([0, 1, 0x61] + [0, 1, 0x62]);
    var p := V311.Unsubscribe(FixedHeader(10, false, 1, false, 8), 2, [[0x61], [0x62]]);
    assert p.Shape() && Body311(p) == body by {
      Unsubscribe311Body(p, body);
    }
    Read311(p, body, t);
  }

  lemma Unsubscribe311Body(p: V311.Packet, body: bytes)
    requires p == V311.Unsubscribe(FixedHeader(10, false, 1, false, 8), 2, [[0x61], [0x62]])
    requires body == [0, 2] + ([0, 1, 0x61] + [0, 1, 0x62])
    ensures p.Shape() && Body311(p) == body
  {
    hide Text, Number;
    Two(2);
    Letter(0x61);
    Letter(0x62);
    assert p.topicFilters[1..][1..] == [];
    assert [0, 1, 0x62] + [] == [0, 1, 0x62];
  }

  /** PUBACK for identifier 1024 with a reason and a property. */
  lemma Puback5(t: bytes)
    ensures
      var body: bytes := [4, 0] + ([0x80] + [4, 0x1F, 0, 1, 0x78]);
      var p := V5.Ack(FixedHeader(4, false, 0, false, 8), 1024, 0x80, [0x1F, 0, 1, 0x78]);
      V5.ParsePacket([0x40, 8] + body + t) == Ok(p, t)
  {
    hide V5.ParsePacket, ParsePacket, Text, Number, Properties, Body5;
    var body: bytes := [4, 0] + ([0x80] + [4, 0x1F, 0, 1, 0x78]);
    var p := V5.Ack(FixedHeader(4, false, 0, false, 8), 1024, 0x80, [0x1F, 0, 1, 0x78]);
    assert p.Shape() && Body5(p) == body by {
      Puback5Body(p, body);
    }
    Read5(p, body, t);
  }

  lemma Puback5Body(p: V5.Packet, body: bytes)
    requires p == V5.Ack(FixedHeader(4, false, 0, false, 8), 1024, 0x80, [0x1F, 0, 1, 0x78])
    requires body == [4, 0] + ([0x80] + [4, 0x1F, 0, 1, 0x78])
    ensures p.Shape() && Body5(p) == body
  {
    hide Number, Properties;
    Two(1024);
    FewProperties([0x1F, 0, 1, 0x78]);
  }

  /** DISCONNECT with a reason. */
  lemma Disconnect5(t: bytes)
    ensures
      var body: bytes := [0x80] + [0];
      var p := V5.Disconnect(FixedHeader(14, false, 0, false, 2), 0x80, []);
      V5.ParsePacket([0xE0, 2] + body + t) == Ok(p, t)
  {
    hide V5.ParsePacket, ParsePacket, Text, Number, Properties, Body5;
    var body: bytes := [0x80] + [0];
    var p := V5.Disconnect(FixedHeader(14, false, 0, false, 2), 0x80, []);
    assert p.Shape() && Body5(p) == body by {
      Disconnect5Body(p, body);
    }
    Read5(p, body, t);
  }

  lemma Disconnect5Body(p: V5.Packet, body: bytes)
    requires p == V5.Disconnect(FixedHeader(14, false, 0, false, 2), 0x80, [])
    requires body == [0x80] + [0]
    ensures p.Shape() && Body5(p) == body
  {
    hide Properties;
    FewProperties([]);
  }

  // ----- the proxy's replies -----

  /** PUBACK, PUBREC and PUBCOMP are the same four bytes in both versions. */
  lemma AckBytes(version: byte, messageType: byte, id: uint16)
    requires version in {4, 5} && messageType in {4, 5, 7}
    ensures Session.Ack(version, messageType, id).Frame() == [16 * messageType, 2] + [id / 256, id % 256]
    ensures Session.Ack(version, messageType, id).Version() == version
  {
    hide V311.Packet.Frame, V5.Packet.Frame, V311.ParsePacket, V5.ParsePacket;
    var h := FixedHeader(messageType, false, 0, false, 2);
    if version == 4 {
      Read311(V311.Ack(h, id), [id / 256, id % 256], []);
      SameFrame311(V311.Ack(NewHeader(messageType), id), V311.Ack(h, id));
    } else {
      assert Body5(V5.Ack(h, id, 0, [])) == [id / 256, id % 256];
      Read5(V5.Ack(h, id, 0, []), [id / 256, id % 256], []);
      SameFrame5(V5.Ack(NewHeader(messageType), id, 0, []), V5.Ack(h, id, 0, []));
    }
  }

  /** CONNACK never announces a session; version 5 has properties, none, and its own code for bad
      credentials. */
  lemma ConnackBytes(version: byte, code: byte)
    requires version in {4, 5}
    ensures Session.Connack(version, code).Frame()
      == if version == 4 then [0x20, 2] + [0, code] else [0x20, 3] + [0, if code == 4 then 0x86 else code, 0]
    ensures Session.Connack(version, code).Version() == version
  {
    if version == 4 {
      ConnackBytes311(code);
    } else {
      ConnackBytes5(if code == 4 then 0x86 else code);
    }
  }

  lemma ConnackBytes311(code: byte)
    ensures V311.Connack(NewHeader(2), false, code).Frame() == [0x20, 2] + [0, code]
  {
    hide V311.Packet.Frame, V311.ParsePacket;
    var p := V311.Connack(FixedHeader(2, false, 0, false, 2), false, code);
    Read311(p, [0, code], []);
    SameFrame311(V311.Connack(NewHeader(2), false, code), p);
  }

  lemma ConnackBytes5(code: byte)
    ensures V5.Connack(NewHeader(2), false, code, []).Frame() == [0x20, 3] + [0, code, 0]
  {
    hide V5.Packet.Frame, V5.ParsePacket;
    var p := V5.Connack(FixedHeader(2, false, 0, false, 3), false, code, []);
    assert Body5(p) == [0, code, 0];
    Read5(p, [0, code, 0], []);
    SameFrame5(V5.Connack(NewHeader(2), false, code, []), p);
  }

  lemma PingrespBytes(version: byte)
    requires version in {4, 5}
    ensures Session.Pingresp(version).Frame() == [0xD0, 0] && Session.Pingresp(version).Version() == version
  {
    hide V311.Packet.Frame, V5.Packet.Frame, V311.ParsePacket, V5.ParsePacket;
    if version == 4 {
      Read311(V311.Empty(FixedHeader(13, false, 0, false, 0)), [], []);
    } else {
      Read5(V5.Empty(FixedHeader(13, false, 0, false, 0)), [], []);
    }
  }

  lemma SameFrame311(p: V311.Packet, q: V311.Packet)
    requires p.Written() == q.Written() && p.Body() == q.Body()
    ensures p.Frame() == q.Frame()
  {
  }

  lemma SameFrame5(p: V5.Packet, q: V5.Packet)
    requires p.Written() == q.Written() && p.Body() == q.Body()
    ensures p.Frame() == q.Frame()
  {
  }
}
