/** One connection as a state machine: the serve loop, the handlers it dispatches to, and the
    publish callbacks that may run at any later time. A run is a sequence of events; whatever the
    environment decides (logins, the publisher, failing writes, the network) is part of the event.
    `Connection.dfy` has the code that makes these steps. */
module Session {
  import opened Wire
  import opened Header
  import opened Codec
  import opened ConnStates
  import V311
  import V5

  /** Message names in the options are given as message types. */
  datatype Config = Config(
    ignoreUnsupported: set<byte>,
    allowUnauthenticated: set<byte>,
    asyncAtMostOnce: bool,
    asyncAtLeastOnce: bool,
    asyncExactlyOnce: bool)
  {
    function Synchronous(): Config {
      this.(asyncAtMostOnce := false, asyncAtLeastOnce := false, asyncExactlyOnce := false)
    }

    /** `isPublishAsync`. */
    predicate IsPublishAsync(qos: byte) {
      match qos
      case 0 => asyncAtMostOnce
      case 1 => asyncAtLeastOnce
      case 2 => asyncExactlyOnce
      case _ => false
    }
  }

  datatype Handler = OnConnect | OnPublish | OnDisconnect | OnPublishRelease | OnPing | OnIgnored | NoHandler

  /** The handler registered for a message type: those in the ignore list replace the others. */
  function HandlerFor(cfg: Config, messageType: byte): Handler {
    if messageType in cfg.ignoreUnsupported then OnIgnored
    else match messageType
      case 1 => OnConnect
      case 3 => OnPublish
      case 6 => OnPublishRelease
      case 12 => OnPing
      case 14 => OnDisconnect
      case _ => NoHandler
  }

  datatype PublishRequest = PublishRequest(
    dup: bool,
    qos: byte,
    retain: bool,
    topicName: bytes,
    messageID: uint16,
    message: bytes,
    clientID: bytes)

  /** A publish callback remembers the packet's version and the request. */
  datatype Callback = Callback(version: byte, request: PublishRequest)

  /** A call of the publisher, whether it took the request, and the authentication state then. */
  datatype Call = Call(callback: Callback, accepted: bool, authenticated: bool)

  datatype Completion = Completion(callback: Callback, ok: bool)

  /** The state of a connection with the traces of everything that happened on it. `input` is what
      the reader would still deliver; it is empty once the serve loop has ended. `idleTimeout` is in
      seconds, and 0 for as long as the server's default holds. */
  datatype State = State(
    input: bytes,
    version: byte,
    authenticated: bool,
    clientIdentifier: bytes,
    idleTimeout: nat,
    open: bool,
    serving: bool,
    inflight: seq<Callback>,
    lifecycle: seq<ConnState>,
    handled: seq<ControlPacket>,
    calls: seq<Call>,
    completed: seq<Completion>,
    replies: seq<ControlPacket>)

  function Init(input: bytes): State {
    State(input, 0, false, [], 0, true, true, [], [New], [], [], [], [])
  }

  // ----- replies -----

  function Connack(version: byte, returnCode: byte): ControlPacket {
    if version == MQTT_5 then
      P5(V5.Connack(NewHeader(CONNACK), false, if returnCode == 4 then 0x86 else returnCode, []))
    else P311(V311.Connack(NewHeader(CONNACK), false, returnCode))
  }

  /** PUBACK, PUBREC and PUBCOMP. */
  function Ack(version: byte, messageType: byte, messageID: uint16): ControlPacket {
    if version == MQTT_5 then P5(V5.Ack(NewHeader(messageType), messageID, 0, []))
    else P311(V311.Ack(NewHeader(messageType), messageID))
  }

  function Pingresp(version: byte): ControlPacket {
    if version == MQTT_5 then P5(V5.Empty(NewHeader(PINGRESP))) else P311(V311.Empty(NewHeader(PINGRESP)))
  }

  /** What no handler and no callback touches. A closed connection stays closed and silent. */
  predicate Framed(s: State, t: State) {
    && t.input == s.input && t.version == s.version && t.serving == s.serving
    && t.lifecycle == s.lifecycle && t.handled == s.handled
    && (!s.open ==> !t.open && t.replies == s.replies)
  }

  /** A write reaches the client unless the socket is closed or the write fails. */
  function Write(s: State, reply: ControlPacket, writeOk: bool): (t: State)
    ensures Framed(s, t)
  {
    if s.open && writeOk then s.(replies := s.replies + [reply]) else s
  }

  function Close(s: State): (t: State)
    ensures Framed(s, t)
  {
    s.(open := false)
  }

  // ----- handlers -----

  datatype Login = LoginError | LoginCode(returnCode: byte)

  /** Whether the publisher takes the request, and, if it answers at once, with what outcome. */
  datatype Publishing = Publishing(accepted: bool, ok: bool)

  function ClientIdentifier(p: ControlPacket): bytes
    requires p.IsConnect()
  {
    if p.P311? then p.p311.payload.clientIdentifier else p.p5.payload.clientIdentifier
  }

  function KeepAlive(p: ControlPacket): uint16
    requires p.IsConnect()
  {
    if p.P311? then p.p311.variable.keepAlive else p.p5.variable.keepAlive
  }

  /** Half as long again as the client's keep-alive, in whole seconds. */
  function IdleTimeout(s: State, p: ControlPacket): nat
    requires p.IsConnect()
  {
    if KeepAlive(p) > 0 then KeepAlive(p) * 3 / 2 else s.idleTimeout
  }

  function HandleConnect(s: State, p: ControlPacket, login: Login, writeOk: bool): (t: State)
    requires p.IsConnect()
    ensures Framed(s, t)
  {
    match login
    case LoginError => Close(s)
    case LoginCode(returnCode) =>
      var accepted := returnCode == 0;
      var s1 := s.(authenticated := accepted, clientIdentifier := ClientIdentifier(p),
                   idleTimeout := IdleTimeout(s, p));
      var s2 := Write(s1, Connack(p.Version(), returnCode), writeOk);
      if accepted then s2 else Close(s2)
  }

  predicate IsPublish(p: ControlPacket) {
    if p.P311? then p.p311.Publish? else p.p5.Publish?
  }

  function RequestOf(p: ControlPacket, clientID: bytes): PublishRequest
    requires IsPublish(p)
  {
    var h := p.Header();
    match p
    case P311(q) => PublishRequest(h.dup, h.qos, h.retain, q.topicName, q.messageID, q.message, clientID)
    case P5(q) => PublishRequest(h.dup, h.qos, h.retain, q.topicName, q.messageID, q.message, clientID)
  }

  predicate Unauthenticated(cfg: Config, s: State, messageType: byte) {
    !s.authenticated && messageType !in cfg.allowUnauthenticated
  }

  /** What a callback answers, if anything. */
  function AnswerTo(c: Callback): seq<ControlPacket> {
    match c.request.qos
    case 1 => [Ack(c.version, PUBACK, c.request.messageID)]
    case 2 => [Ack(c.version, PUBREC, c.request.messageID)]
    case _ => []
  }

  function RunCallback(s: State, c: Callback, ok: bool, writeOk: bool): (t: State)
    ensures Framed(s, t)
  {
    var s1 := s.(completed := s.completed + [Completion(c, ok)]);
    if ok && AnswerTo(c) != [] then Write(s1, AnswerTo(c)[0], writeOk) else s1
  }

  function HandlePublish(cfg: Config, s: State, p: ControlPacket, publish: Publishing, writeOk: bool): (t: State)
    requires IsPublish(p)
    ensures Framed(s, t)
  {
    var request := RequestOf(p, s.clientIdentifier);
    if Unauthenticated(cfg, s, PUBLISH) then Close(s)
    else if request.qos > 2 then s
    else
      var c := Callback(p.Version(), request);
      var s1 := s.(calls := s.calls + [Call(c, publish.accepted, s.authenticated)]);
      if !publish.accepted then (if request.qos == 0 then s1 else Close(s1))
      else if cfg.IsPublishAsync(request.qos) then s1.(inflight := s1.inflight + [c])
      else RunCallback(s1, c, publish.ok, writeOk)
  }

  predicate IsPubrel(p: ControlPacket) {
    p.Type() == PUBREL && if p.P311? then p.p311.Ack? else p.p5.Ack?
  }

  function MessageID(p: ControlPacket): uint16
    requires IsPubrel(p) || IsPublish(p)
  {
    if p.P311? then p.p311.messageID else p.p5.messageID
  }

  function HandlePublishRelease(cfg: Config, s: State, p: ControlPacket, writeOk: bool): (t: State)
    requires IsPubrel(p)
    ensures Framed(s, t)
  {
    if Unauthenticated(cfg, s, PUBREL) then Close(s)
    else Write(s, Ack(p.Version(), PUBCOMP, MessageID(p)), writeOk)
  }

  function HandlePing(cfg: Config, s: State, p: ControlPacket, writeOk: bool): (t: State)
    ensures Framed(s, t)
  {
    if Unauthenticated(cfg, s, PINGREQ) then Close(s) else Write(s, Pingresp(p.Version()), writeOk)
  }

  /** The variant of a packet fits its header's type; every packet that was read is like this. */
  predicate Typed(p: ControlPacket) {
    && (p.Type() == CONNECT <==> p.IsConnect())
    && (p.Type() == PUBLISH <==> IsPublish(p))
    && (p.Type() == PUBREL <==> IsPubrel(p))
  }

  function Handle(
    cfg: Config, s: State, p: ControlPacket, login: Login, publish: Publishing, writeOk: bool): (t: State)
    requires Typed(p)
    ensures Framed(s, t)
  {
    match HandlerFor(cfg, p.Type())
    case OnConnect => HandleConnect(s, p, login, writeOk)
    case OnPublish => HandlePublish(cfg, s, p, publish, writeOk)
    case OnPublishRelease => HandlePublishRelease(cfg, s, p, writeOk)
    case OnPing => HandlePing(cfg, s, p, writeOk)
    case OnDisconnect => Close(s)
    case OnIgnored => s
    case NoHandler => Close(s)
  }

  // ----- the serve loop -----

  /** The serve loop returns: its deferred close and the last state change. */
  function Finish(s: State): State {
    Close(s).(serving := false, input := [], lifecycle := s.lifecycle + [Closed])
  }

  function Enter(s: State, state: ConnState): State {
    s.(lifecycle := s.lifecycle + [state])
  }

  /** `readRequest` failed: a refused protocol version is still answered, then the loop breaks. */
  function ReadFailed(s: State, error: Error, writeOk: bool): State {
    var s1 := Enter(s, Active);
    Finish(if error.Refused? then Write(s1, Connack(MQTT_3_1_1, error.returnCode), writeOk) else s1)
  }

  function ReadOk(s: State, p: ControlPacket, rest: bytes): State {
    Enter(s.(input := rest, version := p.Version(), handled := s.handled + [p]), Active)
  }

  /** One round of the loop: read a packet by the version known so far, handle it. */
  function Receive(cfg: Config, s: State, login: Login, publish: Publishing, writeOk: bool): State {
    match ParsePacket(s.input, s.version)
    case Err(error) => ReadFailed(s, error, writeOk)
    case Ok(p, rest) =>
      ReadTyped(s.input, s.version);
      Enter(Handle(cfg, ReadOk(s, p, rest), p, login, publish, writeOk), Idle)
  }

  datatype Event =
    | Received(login: Login, publish: Publishing, writeOk: bool)
    | Completed(index: nat, ok: bool, writeOk: bool)  // the publisher calls back
    | Cut(available: nat)  // no more than this much of the input will ever arrive
    | SocketClosed         // by the server's idle sweep or shutdown
    | Returned             // handshake failed, shutting down, or idle for too long

  function Step(cfg: Config, s: State, e: Event): State {
    match e
    case Received(login, publish, writeOk) =>
      if s.serving then Receive(cfg, s, login, publish, writeOk) else s
    case Completed(i, ok, writeOk) =>
      if i < |s.inflight| then
        RunCallback(s.(inflight := s.inflight[..i] + s.inflight[i + 1..]), s.inflight[i], ok, writeOk)
      else s
    case Cut(n) => if n <= |s.input| then s.(input := s.input[..n]) else s
    case SocketClosed => Close(s)
    case Returned => if s.serving then Finish(s) else s
  }

  function Run(cfg: Config, s: State, events: seq<Event>): State {
    if events == [] then s
    else Step(cfg, Run(cfg, s, events[..|events| - 1]), events[|events| - 1])
  }

  lemma Typed311(s: bytes)
    requires V311.ParsePacket(s).Ok?
    ensures Typed(P311(V311.ParsePacket(s).value)) && P311(V311.ParsePacket(s).value).Version() == MQTT_3_1_1
  {
    hide V311.ParsePacket;
    V311.PacketAccepted(s);
  }

  lemma Typed5(s: bytes)
    requires V5.ParsePacket(s).Ok?
    ensures Typed(P5(V5.ParsePacket(s).value)) && P5(V5.ParsePacket(s).value).Version() == MQTT_5
  {
    hide V5.ParsePacket;
    V5.PacketAccepted(s);
  }

  /** What the codec returns is typed. */
  lemma ReadTyped(s: bytes, version: byte)
    requires ParsePacket(s, version).Ok?
    ensures Typed(ParsePacket(s, version).value)
    ensures ParsePacket(s, version).value.Version() in {MQTT_3_1_1, MQTT_5}
  {
    hide V311.ParsePacket, V5.ParsePacket, Sniff, Typed, ControlPacket.Version;
    var v := if version == 0 then Sniff(s).value else version;
    if v == MQTT_3_1_1 {
      Typed311(s);
    } else {
      Typed5(s);
    }
  }
}
