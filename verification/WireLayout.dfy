/** The packets as bytes. What is laid out here is written with numbers and the fields alone, so it
    fixes the order of fields and bytes and the place of every flag. */
module WireLayout {
  import opened Wire
  import opened Varint
  import opened Header
  import opened Connect
  import opened Codec
  import V311
  import V5

  // ----- fields -----

  /** Two bytes, the high one first. */
  function Number(n: int): bytes
    requires 0 <= n < 65536
  {
    [n / 256, n % 256]
  }

  /** A length in two bytes and the bytes themselves. */
  function Text(b: bytes): bytes
    requires |b| <= 65535
  {
    Number(|b|) + b
  }

  function TextIf(present: bool, b: bytes): bytes
    requires |b| <= 65535
  {
    if present then Text(b) else []
  }

  /** Seven bits to a byte, the lowest first. */
  function Length(n: int): bytes
    requires 0 <= n <= 268435455
  {
    if n < 128 then [n]
    else if n < 16384 then [n % 128 + 128, n / 128]
    else if n < 2097152 then [n % 128 + 128, n / 128 % 128 + 128, n / 16384]
    else [n % 128 + 128, n / 128 % 128 + 128, n / 16384 % 128 + 128, n / 2097152]
  }

  lemma NumberLayout(n: int)
    requires 0 <= n < 65536
    ensures EncodeUint16(n) == Number(n)
  {
  }

  lemma FieldLayout(b: bytes)
    requires |b| <= 65535
    ensures EncodeBytes(b) == Text(b)
  {
    hide EncodeUint16, Number;
    assert |b| % 0x1_0000 == |b|;
    NumberLayout(|b|);
  }

  lemma LengthLayout(n: int)
    requires 0 <= n <= 268435455
    ensures Uvarint(n) == Length(n)
  {
    if n >= 128 {
      assert Uvarint(n) == [n % 128 + 128] + Uvarint(n / 128);
      if n >= 16384 {
        assert Uvarint(n / 128) == [n / 128 % 128 + 128] + Uvarint(n / 128 / 128);
        assert n / 128 / 128 == n / 16384 && n / 16384 / 128 == n / 2097152;
        if n >= 2097152 {
          assert Uvarint(n / 16384) == [n / 16384 % 128 + 128] + Uvarint(n / 2097152);
        }
      }
    }
  }

  /** A frame: type and flags, length, body. */
  function Framed(h: FixedHeader, body: bytes): bytes
    requires h.Packable() && |body| <= 268435455
  {
    [16 * h.messageType + (if h.dup then 8 else 0) + 2 * h.qos + (if h.retain then 1 else 0)] + Length(|body|) + body
  }

  lemma HeaderLayout(h: FixedHeader)
    requires h.Packable() && 0 <= h.remainingLength <= 268435455
    ensures h.Packed()
      == [16 * h.messageType + (if h.dup then 8 else 0) + 2 * h.qos + (if h.retain then 1 else 0)]
         + Length(h.remainingLength)
  {
    hide FixedHeader.FirstByte, Uvarint, Length;
    FirstByteLayout(h);
    LengthLayout(h.remainingLength);
  }

  // ----- version 3.1.1 -----

  function FlagByte(f: Flags): byte
    requires f.willQos < 4
  {
    (if f.hasUsername then 128 else 0) + (if f.hasPassword then 64 else 0) + (if f.willRetain then 32 else 0)
    + 8 * f.willQos + (if f.willFlag then 4 else 0) + (if f.clean then 2 else 0)
  }

  function Subscriptions(subs: seq<V311.TopicSubscription>): bytes
    requires V311.SubscriptionsFit(subs)
  {
    if subs == [] then [] else Text(subs[0].topicFilter) + [subs[0].qos] + Subscriptions(subs[1..])
  }

  function Filters(filters: seq<bytes>): bytes
    requires V311.FiltersFit(filters)
  {
    if filters == [] then [] else Text(filters[0]) + Filters(filters[1..])
  }

  /** What follows the fixed header of a version 3.1.1 packet. */
  function Body311(p: V311.Packet): bytes
    requires p.Shape()
  {
    match p
    case Connect(_, v, q) =>
      Text(v.protocolName) + [v.protocolLevel, FlagByte(v.flags)] + Number(v.keepAlive)
      + Text(q.clientIdentifier)
      + TextIf(v.flags.willFlag, q.willTopic) + TextIf(v.flags.willFlag, q.willMessage)
      + TextIf(v.flags.hasUsername, q.username) + TextIf(v.flags.hasPassword, q.password)
    case Connack(_, present, code) => [if present then 1 else 0, code]
    case Publish(h, topic, id, message) => Text(topic) + (if h.qos > 0 then Number(id) else []) + message
    case Ack(_, id) => Number(id)
    case Subscribe(_, id, subs) => Number(id) + Subscriptions(subs)
    case Suback(_, id, codes) => Number(id) + codes
    case Unsubscribe(_, id, filters) => Number(id) + Filters(filters)
    case Empty(_) => []
  }

  lemma {:induction false} SubscriptionsLayout(subs: seq<V311.TopicSubscription>)
    requires V311.SubscriptionsFit(subs)
    ensures V311.EncodeSubscriptions(subs) == Subscriptions(subs)
  {
    hide Text, EncodeBytes;
    if subs != [] {
      FieldLayout(subs[0].topicFilter);
      SubscriptionsLayout(subs[1..]);
      assert Text(subs[0].topicFilter) + [subs[0].qos] + Subscriptions(subs[1..])
          == Text(subs[0].topicFilter) + ([subs[0].qos] + Subscriptions(subs[1..]));
    }
  }

  lemma {:induction false} FiltersLayout(filters: seq<bytes>)
    requires V311.FiltersFit(filters)
    ensures V311.EncodeFilters(filters) == Filters(filters)
  {
    hide Text, EncodeBytes;
    if filters != [] {
      FieldLayout(filters[0]);
      FiltersLayout(filters[1..]);
    }
  }

  lemma VariableLayout(v: VariableHeader)
    requires v.Fits()
    ensures v.Encode() == Text(v.protocolName) + [v.protocolLevel, FlagByte(v.flags)] + Number(v.keepAlive)
  {
    hide Text, EncodeBytes, Flags.Encode;
    FieldLayout(v.protocolName);
    FlagsLayout(v.flags);
  }

  lemma OptionalLayout(present: bool, b: bytes)
    requires OptionalFits(present, b)
    ensures Optional(present, b) == TextIf(present, b)
  {
    hide Text, EncodeBytes;
    if present {
      FieldLayout(b);
    }
  }

  lemma Connect311Layout(p: V311.Packet)
    requires p.Shape() && p.Connect?
    ensures p.Body() == Body311(p)
  {
    hide Text, TextIf, EncodeBytes, Optional, OptionalFits, VariableHeader.Encode, FlagByte, Number;
    var f, q := p.variable.flags, p.payload;
    VariableLayout(p.variable);
    FieldLayout(q.clientIdentifier);
    OptionalLayout(f.willFlag, q.willTopic);
    OptionalLayout(f.willFlag, q.willMessage);
    OptionalLayout(f.hasUsername, q.username);
    OptionalLayout(f.hasPassword, q.password);
  }

  lemma Body311Layout(p: V311.Packet)
    requires p.Shape()
    ensures p.Body() == Body311(p)
  {
    hide Text, TextIf, EncodeBytes, Subscriptions, Filters, V311.Payload.Encode, VariableHeader.Encode, FlagByte;
    match p
    case Connect(_, _, _) => Connect311Layout(p);
    case Publish(_, topic, _, _) => FieldLayout(topic);
    case Subscribe(_, _, subs) => SubscriptionsLayout(subs);
    case Unsubscribe(_, _, filters) => FiltersLayout(filters);
    case _ =>
  }

  /** Every well-formed version 3.1.1 packet is on the wire exactly as laid out, and is read back from
      there. */
  lemma Frame311(p: V311.Packet, t: bytes)
    requires p.Shape() && !p.Stale() && |Body311(p)| <= 268435455
    requires p.Connect? ==> !p.variable.flags.reserved
    ensures p.Frame() == Framed(p.header, Body311(p))
    ensures V311.ParsePacket(Framed(p.header, Body311(p)) + t) == Ok(p.Written(), t)
  {
    hide Length, FixedHeader.Packed, V311.ParsePacket, V311.Packet.Body, Body311;
    Body311Layout(p);
    HeaderLayout(p.Written().header);
    V311.FrameRoundTrip(p, t);
  }

  // ----- version 5 -----

  function Properties(rawData: bytes): bytes
    requires |rawData| <= 268435455
  {
    Length(|rawData|) + rawData
  }

  /** Reason code and properties, or neither. */
  function Reason(code: byte, properties: bytes): bytes
    requires |properties| <= 268435455
  {
    if code == 0 && properties == [] then [] else [code] + Properties(properties)
  }

  /** What follows the fixed header of a version 5 packet. */
  function Body5(p: V5.Packet): bytes
    requires p.Shape()
  {
    match p
    case Connect(_, v, properties, q) =>
      Text(v.protocolName) + [v.protocolLevel, FlagByte(v.flags)] + Number(v.keepAlive)
      + Properties(properties)
      + Text(q.clientIdentifier)
      + (if v.flags.willFlag then Properties(q.willProperties) else [])
      + TextIf(v.flags.willFlag, q.willTopic) + TextIf(v.flags.willFlag, q.willPayload)
      + TextIf(v.flags.hasUsername, q.username) + TextIf(v.flags.hasPassword, q.password)
    case Connack(_, present, code, properties) => [if present then 1 else 0, code] + Properties(properties)
    case Publish(h, topic, id, properties, message) =>
      Text(topic) + (if h.qos > 0 then Number(id) else []) + Properties(properties) + message
    case Ack(_, id, code, properties) => Number(id) + Reason(code, properties)
    case Disconnect(_, code, properties) => Reason(code, properties)
    case Empty(_) => []
  }

  lemma PropertiesLayout(rawData: bytes)
    requires |rawData| <= 268435455
    ensures V5.EncodeProperties(rawData) == Properties(rawData)
  {
    hide Uvarint, Length;
    LengthLayout(|rawData|);
  }

  lemma Connect5Layout(p: V5.Packet)
    requires p.Shape() && p.Connect?
    ensures p.Body() == Body5(p)
  {
    hide Text, TextIf, EncodeBytes, Optional, OptionalFits, VariableHeader.Encode, FlagByte, Number;
    hide V5.EncodeProperties, Properties;
    var f, q := p.variable.flags, p.payload;
    VariableLayout(p.variable);
    PropertiesLayout(p.properties);
    FieldLayout(q.clientIdentifier);
    if f.willFlag {
      PropertiesLayout(q.willProperties);
    }
    OptionalLayout(f.willFlag, q.willTopic);
    OptionalLayout(f.willFlag, q.willPayload);
    OptionalLayout(f.hasUsername, q.username);
    OptionalLayout(f.hasPassword, q.password);
  }

  lemma Body5Layout(p: V5.Packet)
    requires p.Shape()
    ensures p.Body() == Body5(p)
  {
    hide Text, TextIf, EncodeBytes, V5.Payload.Encode, VariableHeader.Encode, FlagByte, V5.EncodeProperties, Properties;
    match p
    case Connect(_, _, _, _) => Connect5Layout(p);
    case Connack(_, _, _, properties) => PropertiesLayout(properties);
    case Publish(_, topic, _, properties, _) =>
      FieldLayout(topic);
      PropertiesLayout(properties);
    case Ack(_, _, _, properties) => PropertiesLayout(properties);
    case Disconnect(_, _, properties) => PropertiesLayout(properties);
    case Empty(_) =>
  }

  /** Every well-formed version 5 packet is on the wire exactly as laid out, and is read back from
      there. */
  lemma Frame5(p: V5.Packet, t: bytes)
    requires p.Shape() && !p.Stale() && |Body5(p)| <= 268435455
    requires p.Connect? ==> !p.variable.flags.reserved
    ensures p.Frame() == Framed(p.header, Body5(p))
    ensures V5.ParsePacket(Framed(p.header, Body5(p)) + t) == Ok(p.Written(), t)
  {
    hide Length, FixedHeader.Packed, V5.ParsePacket, V5.Packet.Body, Body5;
    Body5Layout(p);
    HeaderLayout(p.Written().header);
    V5.FrameRoundTrip(p, t);
  }

  // ----- which version is read -----

  /** A new connection's first packet is read by the byte behind the protocol name of its CONNECT: 4 for
      version 3.1.1, 5 for version 5, and any other is refused with return code 1. */
  lemma LevelSelects(s: bytes)
    requires ParseHeader(s).Ok? && s != [] && s[0] / 16 == 1
    requires ParseBytes(ParseHeader(s).rest).Ok? && ParseBytes(ParseHeader(s).rest).rest != []
    ensures
      var level := ParseBytes(ParseHeader(s).rest).rest[0];
      ParsePacket(s, 0) ==
        if level == 4 then
          match V311.ParsePacket(s)
          case Ok(p, rest) => Ok(P311(p), rest)
          case Err(e) => Err(e)
        else if level == 5 then
          match V5.ParsePacket(s)
          case Ok(p, rest) => Ok(P5(p), rest)
          case Err(e) => Err(e)
        else Err(Refused(1))
  {
    hide ParseHeader, V311.ParsePacket, V5.ParsePacket, ParseBytes;
    HeaderType(s);
  }

  /** What is not a CONNECT is not read at all on a new connection. */
  lemma OnlyConnectFirst(s: bytes)
    requires ParseHeader(s).Ok? && s != [] && s[0] / 16 != 1
    ensures ParsePacket(s, 0) == Err(NotConnect)
  {
    hide ParseHeader, ParseBytes;
    HeaderType(s);
  }

  /** From then on the version that was stored decides, whatever the bytes say. */
  lemma StoredSelects(s: bytes, version: byte)
    requires version != 0
    ensures
      ParsePacket(s, version) ==
        if version == 4 then
          match V311.ParsePacket(s)
          case Ok(p, rest) => Ok(P311(p), rest)
          case Err(e) => Err(e)
        else if version == 5 then
          match V5.ParsePacket(s)
          case Ok(p, rest) => Ok(P5(p), rest)
          case Err(e) => Err(e)
        else Err(Refused(1))
  {
    hide V311.ParsePacket, V5.ParsePacket;
  }
}
