/** Reading a packet of either protocol version, with the version of a new connection sniffed from
    its CONNECT, and streams of packets. */
module Codec {
  import opened Wire
  import opened Streams
  import opened Header
  import opened Connect
  import V311
  import V5
  import V311Packets
  import V5Packets

  datatype ControlPacket = P311(p311: V311.Packet) | P5(p5: V5.Packet) {
    function Version(): byte {
      if P311? then MQTT_3_1_1 else MQTT_5
    }

    function Header(): FixedHeader {
      if P311? then p311.header else p5.header
    }

    function Type(): byte {
      Header().messageType
    }

    predicate IsConnect() {
      if P311? then p311.Connect? else p5.Connect?
    }

    function ProtocolLevel(): byte
      requires IsConnect()
    {
      if P311? then p311.variable.protocolLevel else p5.variable.protocolLevel
    }

    predicate WellFormed() {
      if P311? then p311.WellFormed() else p5.WellFormed()
    }

    function Written(): ControlPacket {
      if P311? then P311(p311.Written()) else P5(p5.Written())
    }

    function Frame(): bytes {
      if P311? then p311.Frame() else p5.Frame()
    }

    function Normal(): ControlPacket {
      if P311? then P311(p311.Normal()) else P5(p5.Normal())
    }

    predicate Stale() {
      if P311? then p311.Stale() else p5.Stale()
    }
  }

  const REFUSED_PROTOCOL_VERSION: byte := 1

  /** `readConnectVersion`: fixed header, protocol name, protocol level. */
  function Sniff(s: bytes): (r: Parsed<byte>)
    ensures r.Err? ==> !r.error.Refused?
  {
    var (h, s1) :- ParseHeader(s);
    if h.messageType != CONNECT then Err(NotConnect) else
    var (_, s2) :- ParseBytes(s1);
    ParseByte(s2)
  }

  /** Reading as one of the two versions. */
  function ParseAs(version: byte, s: bytes): Parsed<ControlPacket> {
    if version == MQTT_3_1_1 then
      var (p, rest) :- V311.ParsePacket(s); Ok(P311(p), rest)
    else if version == MQTT_5 then
      var (p, rest) :- V5.ParsePacket(s); Ok(P5(p), rest)
    else Err(Refused(REFUSED_PROTOCOL_VERSION))
  }

  /** `ReadPacket`: version 0 means that none has been negotiated yet. */
  function ParsePacket(s: bytes, version: byte): Parsed<ControlPacket> {
    if version == 0 then
      var (sniffed, _) :- Sniff(s); ParseAs(sniffed, s)
    else ParseAs(version, s)
  }

  method ReadConnectVersion(r: Reader) returns (res: Result<byte>)
    modifies r
    ensures r.Advanced()
    ensures res == Sniff(old(r.Rest())).Outcome()
    ensures res.Success? ==> r.Rest() == Sniff(old(r.Rest())).rest
  {
    hide ParseHeader, ParseBytes;
    var fh :- ReadHeader(r);
    if fh.messageType != CONNECT {
      return Failure(NotConnect);
    }
    var _ :- DecodeBytes(r);
    res := DecodeByte(r);
  }

  /** Peeks through a tee, replays what was peeked and reads by the version found. On success the
      connection itself, not only the replaying reader, stands at the first byte behind the frame:
      nothing stays behind in the replay buffer. */
  method ReadPacket(r: Reader, protocolVersion: byte) returns (res: Result<ControlPacket>)
    requires r.replay == []
    modifies r
    ensures res == ParsePacket(old(r.unread), protocolVersion).Outcome()
    ensures res.Success? ==> r.replay == [] && r.unread == ParsePacket(old(r.unread), protocolVersion).rest
  {
    hide Sniff, V311.ParsePacket, V5.ParsePacket;
    var version := protocolVersion;
    ghost var s := r.unread;
    assert r.Rest() == s;
    ghost var behindPeek := s;
    if version == 0 {
      r.Tee();
      version :- ReadConnectVersion(r);
      behindPeek := r.unread;
      r.Rewind();
    }
    assert r.Rest() == s;
    if version == MQTT_3_1_1 {
      var p :- V311Packets.ReadPacket(r);
      res := Success(P311(p));
    } else if version == MQTT_5 {
      var p :- V5Packets.ReadPacket(r);
      res := Success(P5(p));
    } else {
      return Failure(Refused(REFUSED_PROTOCOL_VERSION));
    }
    if protocolVersion == 0 {
      PeekInsideFrame(s);
    }
  }

  // ----- the peek is transparent -----

  /** The protocol name and level found in the frame are those found in the stream. */
  lemma SniffReadsConnect(frame: bytes, rest: bytes)
    requires ParseVariableHeader(frame).Ok?
    ensures ParseBytes(frame + rest).Ok?
    ensures var s2 := ParseBytes(frame + rest).rest;
      ParseByte(s2).Ok? && ParseByte(s2).value == ParseVariableHeader(frame).value.protocolLevel
      && |ParseByte(s2).rest| >= |rest|
  {
    BytesExtend(frame, rest);
  }

  /** A CONNECT read as either version is sniffed as its protocol level, from bytes inside its frame. */
  lemma ConnectSniffed(s: bytes, version: byte)
    requires ParseAs(version, s).Ok? && ParseAs(version, s).value.IsConnect()
    ensures var Ok(p, rest) := ParseAs(version, s);
      Sniff(s).Ok? && Sniff(s).value == p.ProtocolLevel() && |rest| <= |Sniff(s).rest|
  {
    hide Header.FirstBits, ParseHeader, ParseVariableHeader, ParseBytes, V311.ParsePayload, V5.ParsePayload;
    var h := ParseHeader(s).value;
    var s1 := ParseHeader(s).rest;
    var frame, rest := s1[..h.remainingLength], s1[h.remainingLength..];
    assert s1 == frame + rest;
    if version == MQTT_3_1_1 {
      OnlyConnect311(h, frame);
    } else {
      OnlyConnect5(h, frame);
    }
    SniffReadsConnect(frame, rest);
  }

  lemma OnlyConnect311(h: FixedHeader, frame: bytes)
    requires V311.NewWithHeader(h).Success?
    requires var r := V311.ParseBody(V311.NewWithHeader(h).value, frame); r.Ok? && r.value.Connect?
    ensures h.messageType == CONNECT && ParseVariableHeader(frame).Ok?
    ensures V311.ParseBody(V311.NewWithHeader(h).value, frame).value.variable == ParseVariableHeader(frame).value
  {
    hide ParseVariableHeader, ParseBytes, V311.ParsePayload;
  }

  lemma OnlyConnect5(h: FixedHeader, frame: bytes)
    requires V5.NewWithHeader(h).Success?
    requires var r := V5.ParseBody(V5.NewWithHeader(h).value, frame); r.Ok? && r.value.Connect?
    ensures h.messageType == CONNECT && ParseVariableHeader(frame).Ok?
    ensures V5.ParseBody(V5.NewWithHeader(h).value, frame).value.variable == ParseVariableHeader(frame).value
  {
    hide ParseVariableHeader, ParseBytes, V5.ParsePayload, V5.ParseProperties;
  }

  /** What the sniffed version reads at the front of the stream is a CONNECT. */
  lemma SniffedIsConnect(s: bytes)
    requires Sniff(s).Ok? && ParseAs(Sniff(s).value, s).Ok?
    ensures ParseAs(Sniff(s).value, s).value.IsConnect()
  {
    hide Header.FirstBits, ParseHeader, ParseVariableHeader, ParseBytes;
    hide V311.ParsePayload, V5.ParsePayload, V5.ParseProperties;
  }

  lemma PeekInsideFrame(s: bytes)
    requires ParsePacket(s, 0).Ok?
    ensures Sniff(s).Ok? && |ParsePacket(s, 0).rest| <= |Sniff(s).rest|
  {
    hide Sniff, ParseAs;
    SniffedIsConnect(s);
    ConnectSniffed(s, Sniff(s).value);
  }

  /** Peek transparency. Without a negotiated version a packet is read exactly when it is a CONNECT
      that the reader of its own protocol level reads from the very same bytes; that level is then
      the packet's version. */
  lemma PeekTransparent(s: bytes, p: ControlPacket, rest: bytes)
    ensures ParsePacket(s, 0) == Ok(p, rest) <==>
      ParseAs(p.Version(), s) == Ok(p, rest) && p.IsConnect() && p.ProtocolLevel() == p.Version()
  {
    hide Sniff, V311.ParsePacket, V5.ParsePacket;
    if ParsePacket(s, 0) == Ok(p, rest) {
      SniffedIsConnect(s);
      ConnectSniffed(s, Sniff(s).value);
    }
    if ParseAs(p.Version(), s) == Ok(p, rest) && p.IsConnect() {
      ConnectSniffed(s, p.Version());
    }
  }

  lemma SniffExtend(s: bytes, t: bytes)
    requires Sniff(s).Ok?
    ensures Sniff(s + t) == Ok(Sniff(s).value, Sniff(s).rest + t)
  {
    hide ParseHeader, ParseBytes;
    HeaderExtend(s, t);
    var s1 := ParseHeader(s).rest;
    BytesExtend(s1, t);
    assert ParseByte(ParseBytes(s1).rest + t).rest == ParseByte(ParseBytes(s1).rest).rest + t;
  }

  /** What a reader made of some bytes it makes of them whatever follows. */
  lemma PacketExtend(s: bytes, version: byte, t: bytes)
    requires ParsePacket(s, version).Ok?
    ensures ParsePacket(s + t, version) == Ok(ParsePacket(s, version).value, ParsePacket(s, version).rest + t)
  {
    hide Sniff, V311.ParsePacket, V5.ParsePacket;
    var v := version;
    if version == 0 {
      SniffExtend(s, t);
      v := Sniff(s).value;
    }
    if v == MQTT_3_1_1 {
      V311.PacketExtend(s, t);
    } else {
      V5.PacketExtend(s, t);
    }
  }

  // ----- streams -----

  /** A packet survives the wire exactly when it is well formed. */
  lemma FrameRoundTrip(p: ControlPacket, t: bytes)
    ensures ParseAs(p.Version(), p.Frame() + t) == Ok(p.Written(), t) <==> p.WellFormed()
  {
    hide V311.ParsePacket, V5.ParsePacket, V311.Packet.Body, V5.Packet.Body;
    match p
    case P311(q) => V311.FrameRoundTrip(q, t);
    case P5(q) => V5.FrameRoundTrip(q, t);
  }

  /** Writing what was read takes no more bytes than reading it did, and gives the same packet back
      but for its length and CONNECT's reserved bit, unless the packet is stale. */
  lemma Normalisation(s: bytes, version: byte, t: bytes)
    requires ParseAs(version, s).Ok?
    ensures var Ok(p, rest) := ParseAs(version, s);
      && |p.Frame()| <= |s| - |rest|
      && (ParseAs(version, p.Frame() + t) == Ok(p.Normal(), t) <==> !p.Stale())
  {
    hide V311.ParsePacket, V5.ParsePacket, V311.Packet.Body, V5.Packet.Body;
    if version == MQTT_3_1_1 {
      V311.Normalisation(s, t);
    } else {
      V5.Normalisation(s, t);
    }
  }

  function WriteAll(packets: seq<ControlPacket>): bytes {
    if packets == [] then [] else packets[0].Frame() + WriteAll(packets[1..])
  }

  function WrittenAll(packets: seq<ControlPacket>): (written: seq<ControlPacket>)
    ensures |written| == |packets|
  {
    if packets == [] then [] else [packets[0].Written()] + WrittenAll(packets[1..])
  }

  /** `n` requests in a row, the version of each read being that of the packet before. */
  function ReadRequests(n: nat, version: byte, s: bytes): Parsed<seq<ControlPacket>> {
    if n == 0 then Ok([], s) else
    var (p, s1) :- ParsePacket(s, version);
    var (more, s2) :- ReadRequests(n - 1, p.Version(), s1);
    Ok([p] + more, s2)
  }

  /** The packets all belong to one version, and a new connection opens with the matching CONNECT. */
  predicate Session(packets: seq<ControlPacket>, version: byte, negotiated: byte) {
    && (forall p <- packets :: p.WellFormed() && p.Version() == version)
    && (negotiated == version
        || (negotiated == 0 && packets != [] && packets[0].IsConnect() && packets[0].ProtocolLevel() == version))
  }

  /** Stream round trip: reading back what was written, with any bytes behind it, yields the same
      packets in order and leaves exactly those bytes, from a negotiated version or from scratch. */
  lemma {:induction false} StreamRoundTrip(packets: seq<ControlPacket>, version: byte, negotiated: byte, t: bytes)
    requires Session(packets, version, negotiated)
    ensures ReadRequests(|packets|, negotiated, WriteAll(packets) + t) == Ok(WrittenAll(packets), t)
  {
    hide ParsePacket, ControlPacket.WellFormed, ControlPacket.Frame, ControlPacket.Written;
    if packets == [] {
      assert WriteAll(packets) + t == t;
    } else {
      var p, more := packets[0], packets[1..];
      var s, s1 := WriteAll(packets) + t, WriteAll(more) + t;
      assert s == p.Frame() + s1;
      NextRead(p, version, negotiated, s1);
      StreamRoundTrip(more, version, version, t);
    }
  }

  lemma NextRead(p: ControlPacket, version: byte, negotiated: byte, t: bytes)
    requires Session([p], version, negotiated)
    ensures ParsePacket(p.Frame() + t, negotiated) == Ok(p.Written(), t) && p.Written().Version() == version
  {
    hide ParseAs, ControlPacket.WellFormed, ControlPacket.Frame;
    assert p in [p];
    FrameRoundTrip(p, t);
    if negotiated == 0 {
      PeekTransparent(p.Frame() + t, p.Written(), t);
    }
  }
}
