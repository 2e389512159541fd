/** What a run does, told by its history alone: the packets handled, each with what the authenticator
    and the publisher decided. Who is logged in, what is published, when the connection is closed and
    what is in flight follow from the history by the rules of the protocol, with the message types
    written as numbers. */
module SessionHistory {
  import opened Wire
  import opened Header
  import opened Codec
  import opened ConnStates
  import opened Session

  datatype Handling = Handling(packet: ControlPacket, login: Login, publish: Publishing)

  /** The event reads and handles a packet. */
  predicate Reads(s: State, e: Event) {
    e.Received? && s.serving && ParsePacket(s.input, s.version).Ok?
  }

  /** What it adds to the history. */
  function News(s: State, e: Event): seq<Handling> {
    if Reads(s, e) then [Handling(ParsePacket(s.input, s.version).value, e.login, e.publish)] else []
  }

  function History(cfg: Config, input: bytes, events: seq<Event>): seq<Handling> {
    if events == [] then []
    else
      var before := events[..|events| - 1];
      History(cfg, input, before) + News(Run(cfg, Init(input), before), events[|events| - 1])
  }

  /** The history and the trace of handled packets agree. */
  predicate SamePackets(s: State, h: seq<Handling>) {
    |s.handled| == |h| && forall k :: 0 <= k < |h| ==> s.handled[k] == h[k].packet
  }

  // ----- the rules -----

  /** A CONNECT that is not ignored and that the authenticator answered with a code. */
  predicate IsLogin(cfg: Config, x: Handling) {
    x.packet.IsConnect() && 1 !in cfg.ignoreUnsupported && x.login.LoginCode?
  }

  function LastLogin(cfg: Config, h: seq<Handling>): (last: Option<Handling>)
    ensures last.Some? ==> IsLogin(cfg, last.value)
  {
    if h == [] then None
    else if IsLogin(cfg, h[|h| - 1]) then Some(h[|h| - 1])
    else LastLogin(cfg, h[..|h| - 1])
  }

  predicate LoggedIn(cfg: Config, h: seq<Handling>) {
    LastLogin(cfg, h).Some? && LastLogin(cfg, h).value.login.returnCode == 0
  }

  function ClientID(cfg: Config, h: seq<Handling>): bytes {
    var last := LastLogin(cfg, h);
    if last.None? then []
    else match last.value.packet
      case P311(p) => p.payload.clientIdentifier
      case P5(p) => p.payload.clientIdentifier
  }

  function ClientKeepAlive(x: Handling): uint16
    requires x.packet.IsConnect()
  {
    match x.packet
    case P311(p) => p.variable.keepAlive
    case P5(p) => p.variable.keepAlive
  }

  /** The last keep-alive other than zero that came with a login. */
  function LastKeepAlive(cfg: Config, h: seq<Handling>): uint16 {
    if h == [] then 0
    else
      var x := h[|h| - 1];
      if IsLogin(cfg, x) && ClientKeepAlive(x) > 0 then ClientKeepAlive(x) else LastKeepAlive(cfg, h[..|h| - 1])
  }

  /** Whether a message of this type is let through behind this history. */
  predicate Allowed(cfg: Config, h: seq<Handling>, messageType: byte) {
    LoggedIn(cfg, h) || messageType in cfg.allowUnauthenticated
  }

  /** Whether handling `x` behind `h` leaves the connection open: CONNECT if the login is accepted,
      PUBLISH, PUBREL and PINGREQ if they are let through, a PUBLISH of QoS 1 or 2 only if the
      publisher takes it, ignored messages always and all others never. */
  predicate KeepsOpen(cfg: Config, h: seq<Handling>, x: Handling) {
    var t := x.packet.Header().messageType;
    || t in cfg.ignoreUnsupported
    || match t
       case 1 => x.login == LoginCode(0)
       case 3 => Allowed(cfg, h, 3) && (x.packet.Header().qos in {1, 2} ==> x.publish.accepted)
       case 6 => Allowed(cfg, h, 6)
       case 12 => Allowed(cfg, h, 12)
       case _ => false
  }

  predicate AllKeepOpen(cfg: Config, h: seq<Handling>) {
    h == [] || (AllKeepOpen(cfg, h[..|h| - 1]) && KeepsOpen(cfg, h[..|h| - 1], h[|h| - 1]))
  }

  /** The server closes the socket, the loop returns, or what was read is not a packet. */
  predicate Breaks(s: State, e: Event) {
    || e.SocketClosed?
    || (e.Returned? && s.serving)
    || (e.Received? && s.serving && ParsePacket(s.input, s.version).Err?)
  }

  predicate Unbroken(cfg: Config, input: bytes, events: seq<Event>) {
    events == [] ||
    (Unbroken(cfg, input, events[..|events| - 1])
     && !Breaks(Run(cfg, Init(input), events[..|events| - 1]), events[|events| - 1]))
  }

  /** A PUBLISH that is handed to the publisher: which packet of the history it is, and by whom. */
  datatype Publication = Publication(index: nat, packet: ControlPacket, clientID: bytes, publish: Publishing)

  predicate IsPublication(cfg: Config, h: seq<Handling>, x: Handling) {
    IsPublish(x.packet) && 3 !in cfg.ignoreUnsupported && Allowed(cfg, h, 3) && x.packet.Header().qos <= 2
  }

  function Published(cfg: Config, h: seq<Handling>): (ps: seq<Publication>)
    ensures forall p <- ps :: p.index < |h| && IsPublish(p.packet) && p.packet == h[p.index].packet
    ensures forall j, k :: 0 <= j < k < |ps| ==> ps[j].index < ps[k].index
  {
    if h == [] then []
    else
      var n := |h| - 1;
      Published(cfg, h[..n])
      + if IsPublication(cfg, h[..n], h[n])
        then [Publication(n, h[n].packet, ClientID(cfg, h[..n]), h[n].publish)] else []
  }

  /** The request carries the fields of the packet, one by one. */
  predicate Carries(r: PublishRequest, p: ControlPacket) {
    match p
    case P311(q) =>
      && q.Publish? && r.topicName == q.topicName && r.message == q.message && r.messageID == q.messageID
      && r.dup == q.header.dup && r.qos == q.header.qos && r.retain == q.header.retain
    case P5(q) =>
      && q.Publish? && r.topicName == q.topicName && r.message == q.message && r.messageID == q.messageID
      && r.dup == q.header.dup && r.qos == q.header.qos && r.retain == q.header.retain
  }

  predicate CallFor(c: Call, p: Publication) {
    && Carries(c.callback.request, p.packet) && c.callback.request.clientID == p.clientID
    && c.accepted == p.publish.accepted
  }

  /** Publishes of this quality of service are asynchronous. */
  predicate Async(cfg: Config, qos: byte) {
    (qos == 0 && cfg.asyncAtMostOnce) || (qos == 1 && cfg.asyncAtLeastOnce) || (qos == 2 && cfg.asyncExactlyOnce)
  }

  /** How many of the publications the publisher took, asynchronously or not. */
  function Taken(cfg: Config, ps: seq<Publication>, async: bool): nat {
    if ps == [] then 0
    else
      var p := ps[|ps| - 1];
      Taken(cfg, ps[..|ps| - 1], async)
      + if p.publish.accepted && Async(cfg, p.packet.Header().qos) == async then 1 else 0
  }

  /** How many callbacks ran. */
  function CallbacksRun(cfg: Config, input: bytes, events: seq<Event>): nat {
    if events == [] then 0
    else
      var before, e := events[..|events| - 1], events[|events| - 1];
      CallbacksRun(cfg, input, before)
      + if e.Completed? && e.index < |Run(cfg, Init(input), before).inflight| then 1 else 0
  }

  // ----- the state follows the rules -----

  predicate Follows(cfg: Config, s: State, h: seq<Handling>) {
    && SamePackets(s, h)
    && s.authenticated == LoggedIn(cfg, h)
    && s.clientIdentifier == ClientID(cfg, h)
    && s.idleTimeout == LastKeepAlive(cfg, h) * 3 / 2
  }

  predicate Calls(cfg: Config, s: State, h: seq<Handling>) {
    var ps := Published(cfg, h);
    |s.calls| == |ps| && forall k :: 0 <= k < |ps| ==> CallFor(s.calls[k], ps[k])
  }

  lemma LoginNext(cfg: Config, h: seq<Handling>, x: Handling)
    ensures LastLogin(cfg, h + [x]) == if IsLogin(cfg, x) then Some(x) else LastLogin(cfg, h)
    ensures LastKeepAlive(cfg, h + [x])
      == if IsLogin(cfg, x) && ClientKeepAlive(x) > 0 then ClientKeepAlive(x) else LastKeepAlive(cfg, h)
  {
    assert (h + [x])[..|h|] == h;
  }

  /** Only a login changes who is logged in. */
  predicate SameLogin(s: State, t: State) {
    && t.authenticated == s.authenticated && t.clientIdentifier == s.clientIdentifier
    && t.idleTimeout == s.idleTimeout && t.handled == s.handled
  }

  lemma LoginSets(s: State, x: Handling, writeOk: bool)
    requires x.packet.IsConnect()
    ensures
      var t := HandleConnect(s, x.packet, x.login, writeOk);
      if x.login.LoginError? then SameLogin(s, t)
      else
        && t.handled == s.handled && t.authenticated == (x.login.returnCode == 0)
        && t.idleTimeout == (if ClientKeepAlive(x) > 0 then ClientKeepAlive(x) * 3 / 2 else s.idleTimeout)
        && t.clientIdentifier == match x.packet
                                 case P311(p) => p.payload.clientIdentifier
                                 case P5(p) => p.payload.clientIdentifier
  {
    hide Connack;
  }

  lemma PublishKeepsLogin(cfg: Config, s: State, p: ControlPacket, publish: Publishing, writeOk: bool)
    requires IsPublish(p)
    ensures SameLogin(s, HandlePublish(cfg, s, p, publish, writeOk))
  {
    hide RequestOf, AnswerTo;
  }

  lemma OthersKeepLogin(cfg: Config, s: State, p: ControlPacket, writeOk: bool)
    ensures IsPubrel(p) ==> SameLogin(s, HandlePublishRelease(cfg, s, p, writeOk))
    ensures SameLogin(s, HandlePing(cfg, s, p, writeOk)) && SameLogin(s, Close(s))
  {
  }

  lemma HandleLogin(cfg: Config, s: State, x: Handling, writeOk: bool)
    requires Typed(x.packet) && !IsLogin(cfg, x)
    ensures SameLogin(s, Handle(cfg, s, x.packet, x.login, x.publish, writeOk))
  {
    hide HandleConnect, HandlePublish, HandlePublishRelease, HandlePing, Close, SameLogin;
    OthersKeepLogin(cfg, s, x.packet, writeOk);
    match HandlerFor(cfg, x.packet.Type())
    case OnConnect => LoginSets(s, x, writeOk);
    case OnPublish => PublishKeepsLogin(cfg, s, x.packet, x.publish, writeOk);
    case OnIgnored => Itself(s);
    case _ =>
  }

  lemma Itself(s: State)
    ensures SameLogin(s, s)
  {
  }

  lemma FollowsRead(cfg: Config, s: State, h: seq<Handling>, x: Handling, rest: bytes, writeOk: bool)
    requires Follows(cfg, s, h) && Typed(x.packet)
    ensures Follows(cfg, Handle(cfg, ReadOk(s, x.packet, rest), x.packet, x.login, x.publish, writeOk), h + [x])
  {
    hide HandleConnect, HandlePublish, HandlePublishRelease, HandlePing, LastLogin, LastKeepAlive;
    LoginNext(cfg, h, x);
    var s1 := ReadOk(s, x.packet, rest);
    if IsLogin(cfg, x) {
      LoginSets(s1, x, writeOk);
    } else {
      HandleLogin(cfg, s1, x, writeOk);
    }
  }

  lemma CallbackKeepsLogin(s: State, c: Callback, ok: bool, writeOk: bool)
    ensures SameLogin(s, RunCallback(s, c, ok, writeOk)) && RunCallback(s, c, ok, writeOk).calls == s.calls
  {
  }

  lemma FollowsStep(cfg: Config, s: State, h: seq<Handling>, e: Event)
    requires Follows(cfg, s, h)
    ensures Follows(cfg, Step(cfg, s, e), h + News(s, e))
  {
    hide ParsePacket, Handle, RunCallback, LastLogin, LastKeepAlive;
    assert h + [] == h;
    if Reads(s, e) {
      ReadTyped(s.input, s.version);
      FollowsRead(cfg, s, h, News(s, e)[0], ParsePacket(s.input, s.version).rest, e.writeOk);
    } else if e.Completed? && e.index < |s.inflight| {
      CallbackKeepsLogin(s.(inflight := s.inflight[..e.index] + s.inflight[e.index + 1..]), s.inflight[e.index],
                         e.ok, e.writeOk);
    }
  }

  lemma {:induction false} AlwaysFollows(cfg: Config, input: bytes, events: seq<Event>)
    ensures Follows(cfg, Run(cfg, Init(input), events), History(cfg, input, events))
  {
    hide Step, News;
    if events != [] {
      var before := events[..|events| - 1];
      AlwaysFollows(cfg, input, before);
      FollowsStep(cfg, Run(cfg, Init(input), before), History(cfg, input, before), events[|events| - 1]);
    }
  }

  /** Logins decide. In every reachable state the connection is authenticated if and only if the last
      CONNECT that was handled, not ignored and answered by the authenticator with a code was answered
      with 0; the client identifier is that CONNECT's; the idle timeout is half as long again as the
      last keep-alive that came with a login, in whole seconds. */
  lemma LoginsDecide(cfg: Config, input: bytes, events: seq<Event>)
    ensures
      var s, h := Run(cfg, Init(input), events), History(cfg, input, events);
      && SamePackets(s, h)
      && (s.authenticated <==> LastLogin(cfg, h).Some? && LastLogin(cfg, h).value.login == LoginCode(0))
      && s.clientIdentifier == ClientID(cfg, h)
      && 2 * s.idleTimeout <= 3 * LastKeepAlive(cfg, h) < 2 * s.idleTimeout + 2
  {
    hide Run, History;
    AlwaysFollows(cfg, input, events);
  }

  // ----- open and closed -----

  lemma OpenRead(cfg: Config, s: State, h: seq<Handling>, x: Handling, writeOk: bool)
    requires s.authenticated == LoggedIn(cfg, h) && Typed(x.packet)
    ensures Handle(cfg, s, x.packet, x.login, x.publish, writeOk).open <==> s.open && KeepsOpen(cfg, h, x)
  {
    hide HandleConnect, HandlePublish, LoggedIn;
    if HandlerFor(cfg, x.packet.Type()) == OnPublish {
      PublishOpen(cfg, s, x.packet, x.publish, writeOk);
    } else if HandlerFor(cfg, x.packet.Type()) == OnConnect {
      ConnectOpen(s, x.packet, x.login, writeOk);
    }
  }

  lemma PublishOpen(cfg: Config, s: State, p: ControlPacket, publish: Publishing, writeOk: bool)
    requires IsPublish(p)
    ensures HandlePublish(cfg, s, p, publish, writeOk).open <==>
      s.open && (s.authenticated || 3 in cfg.allowUnauthenticated) && (p.Header().qos in {1, 2} ==> publish.accepted)
  {
    hide AnswerTo;
  }

  lemma ConnectOpen(s: State, p: ControlPacket, login: Login, writeOk: bool)
    requires p.IsConnect()
    ensures HandleConnect(s, p, login, writeOk).open <==> s.open && login == LoginCode(0)
  {
    hide Connack;
  }

  lemma OpenStep(cfg: Config, s: State, h: seq<Handling>, e: Event)
    requires Follows(cfg, s, h)
    ensures Step(cfg, s, e).open <==> s.open && !Breaks(s, e) && (Reads(s, e) ==> KeepsOpen(cfg, h, News(s, e)[0]))
  {
    hide ParsePacket, Handle, KeepsOpen, LoggedIn;
    if Reads(s, e) {
      ReadTyped(s.input, s.version);
      var p := ParsePacket(s.input, s.version).value;
      OpenRead(cfg, ReadOk(s, p, ParsePacket(s.input, s.version).rest), h, News(s, e)[0], e.writeOk);
    }
  }

  /** Open and closed. In every reachable state the connection is open if and only if every packet
      handled so far left it open, by the rules of `KeepsOpen`, and nothing has broken it off: in
      particular a login that ends in an error or in a code other than 0 closes it. */
  lemma {:induction false} OpenExactly(cfg: Config, input: bytes, events: seq<Event>)
    ensures Run(cfg, Init(input), events).open
      <==> AllKeepOpen(cfg, History(cfg, input, events)) && Unbroken(cfg, input, events)
  {
    hide Step, News, Breaks, Follows;
    if events != [] {
      var before := events[..|events| - 1];
      var s, h, e := Run(cfg, Init(input), before), History(cfg, input, before), events[|events| - 1];
      OpenExactly(cfg, input, before);
      AlwaysFollows(cfg, input, before);
      OpenStep(cfg, s, h, e);
      KeepOpenNext(cfg, s, h, e);
    }
  }

  lemma KeepOpenNext(cfg: Config, s: State, h: seq<Handling>, e: Event)
    ensures AllKeepOpen(cfg, h + News(s, e))
      <==> AllKeepOpen(cfg, h) && (Reads(s, e) ==> KeepsOpen(cfg, h, News(s, e)[0]))
  {
    hide ParsePacket, KeepsOpen;
    assert h + [] == h;
    if Reads(s, e) {
      assert (h + News(s, e))[..|h|] == h;
    }
  }

  lemma {:induction false} OnlyAccepted(cfg: Config, h: seq<Handling>, k: nat)
    requires AllKeepOpen(cfg, h) && k < |h| && h[k].packet.Header().messageType == 1 && 1 !in cfg.ignoreUnsupported
    ensures h[k].login == LoginCode(0)
  {
    if k < |h| - 1 {
      OnlyAccepted(cfg, h[..|h| - 1], k);
    }
  }

  /** A CONNECT that is not ignored and not answered with 0 closes the connection for good. */
  lemma FailedLoginCloses(cfg: Config, input: bytes, events: seq<Event>, k: nat)
    requires var h := History(cfg, input, events);
      k < |h| && h[k].packet.Header().messageType == 1 && h[k].login != LoginCode(0)
    requires 1 !in cfg.ignoreUnsupported
    ensures !Run(cfg, Init(input), events).open
  {
    hide Run, History, AllKeepOpen;
    OpenExactly(cfg, input, events);
    if AllKeepOpen(cfg, History(cfg, input, events)) {
      OnlyAccepted(cfg, History(cfg, input, events), k);
    }
  }

  // ----- publishing -----

  lemma PublishedNext(cfg: Config, h: seq<Handling>, x: Handling)
    ensures Published(cfg, h + [x]) == Published(cfg, h)
      + if IsPublication(cfg, h, x) then [Publication(|h|, x.packet, ClientID(cfg, h), x.publish)] else []
  {
    hide ClientID, LoggedIn;
    assert (h + [x])[..|h|] == h;
  }

  lemma PublishCalls(cfg: Config, s: State, p: ControlPacket, publish: Publishing, writeOk: bool)
    requires IsPublish(p)
    ensures
      var t := HandlePublish(cfg, s, p, publish, writeOk);
      if (s.authenticated || 3 in cfg.allowUnauthenticated) && p.Header().qos <= 2 then
        && |t.calls| == |s.calls| + 1 && t.calls[..|s.calls|] == s.calls
        && Carries(t.calls[|s.calls|].callback.request, p)
        && t.calls[|s.calls|].callback.request.clientID == s.clientIdentifier
        && t.calls[|s.calls|].accepted == publish.accepted
      else t.calls == s.calls
  {
    hide RunCallback;
    var request := RequestOf(p, s.clientIdentifier);
    var c := Callback(p.Version(), request);
    CallbackKeepsLogin(s.(calls := s.calls + [Call(c, publish.accepted, s.authenticated)]), c, publish.ok, writeOk);
  }

  lemma OtherCalls(cfg: Config, s: State, x: Handling, writeOk: bool)
    requires Typed(x.packet) && HandlerFor(cfg, x.packet.Type()) != OnPublish
    ensures Handle(cfg, s, x.packet, x.login, x.publish, writeOk).calls == s.calls
  {
    hide Connack, Pingresp, Ack;
  }

  lemma CallsRead(cfg: Config, s: State, h: seq<Handling>, x: Handling, writeOk: bool)
    requires s.authenticated == LoggedIn(cfg, h) && s.clientIdentifier == ClientID(cfg, h) && Calls(cfg, s, h)
    requires Typed(x.packet)
    ensures Calls(cfg, Handle(cfg, s, x.packet, x.login, x.publish, writeOk), h + [x])
  {
    hide HandleConnect, HandlePublish, Published, Carries, LoggedIn, ClientID;
    PublishedNext(cfg, h, x);
    if HandlerFor(cfg, x.packet.Type()) == OnPublish {
      PublishCalls(cfg, s, x.packet, x.publish, writeOk);
    } else {
      OtherCalls(cfg, s, x, writeOk);
    }
  }

  lemma CallsStep(cfg: Config, s: State, h: seq<Handling>, e: Event)
    requires Follows(cfg, s, h) && Calls(cfg, s, h)
    ensures Calls(cfg, Step(cfg, s, e), h + News(s, e))
  {
    hide ParsePacket, Handle, RunCallback, Published, LoggedIn, ClientID, CallFor;
    assert h + [] == h;
    if Reads(s, e) {
      ReadTyped(s.input, s.version);
      var p := ParsePacket(s.input, s.version).value;
      CallsRead(cfg, ReadOk(s, p, ParsePacket(s.input, s.version).rest), h, News(s, e)[0], e.writeOk);
    } else if e.Completed? && e.index < |s.inflight| {
      CallbackKeepsLogin(s.(inflight := s.inflight[..e.index] + s.inflight[e.index + 1..]), s.inflight[e.index],
                         e.ok, e.writeOk);
    }
  }

  /** What is published. In every reachable state the publisher's calls are, one for one and in order,
      the PUBLISHes handled that were not ignored, of QoS at most 2 and let through, each with that
      packet's topic, message, identifier and flags and the client identifier of the login before it. */
  lemma {:induction false} PublishedExactly(cfg: Config, input: bytes, events: seq<Event>)
    ensures Calls(cfg, Run(cfg, Init(input), events), History(cfg, input, events))
  {
    hide Step, News, Follows, CallFor;
    if events != [] {
      var before := events[..|events| - 1];
      PublishedExactly(cfg, input, before);
      AlwaysFollows(cfg, input, before);
      CallsStep(cfg, Run(cfg, Init(input), before), History(cfg, input, before), events[|events| - 1]);
    }
  }

  // ----- in flight -----

  predicate Counts(cfg: Config, s: State, h: seq<Handling>, callbacks: nat) {
    && |s.inflight| + callbacks == Taken(cfg, Published(cfg, h), true)
    && |s.completed| == Taken(cfg, Published(cfg, h), false) + callbacks
  }

  lemma TakenNext(cfg: Config, ps: seq<Publication>, p: Publication, async: bool)
    ensures Taken(cfg, ps + [p], async)
      == Taken(cfg, ps, async) + if p.publish.accepted && Async(cfg, p.packet.Header().qos) == async then 1 else 0
  {
    assert (ps + [p])[..|ps|] == ps;
  }

  lemma PublishCounts(cfg: Config, s: State, p: ControlPacket, publish: Publishing, writeOk: bool)
    requires IsPublish(p)
    ensures
      var t, q := HandlePublish(cfg, s, p, publish, writeOk), p.Header().qos;
      var taken := (s.authenticated || 3 in cfg.allowUnauthenticated) && q <= 2 && publish.accepted;
      && |t.inflight| == |s.inflight| + (if taken && Async(cfg, q) then 1 else 0)
      && |t.completed| == |s.completed| + (if taken && !Async(cfg, q) then 1 else 0)
  {
    hide AnswerTo;
  }

  lemma OtherCounts(cfg: Config, s: State, x: Handling, writeOk: bool)
    requires Typed(x.packet) && HandlerFor(cfg, x.packet.Type()) != OnPublish
    ensures
      var t := Handle(cfg, s, x.packet, x.login, x.publish, writeOk);
      t.inflight == s.inflight && t.completed == s.completed
  {
    hide Connack, Pingresp, Ack;
  }

  lemma CountsRead(cfg: Config, s: State, h: seq<Handling>, x: Handling, writeOk: bool, callbacks: nat)
    requires s.authenticated == LoggedIn(cfg, h) && Typed(x.packet) && Counts(cfg, s, h, callbacks)
    ensures Counts(cfg, Handle(cfg, s, x.packet, x.login, x.publish, writeOk), h + [x], callbacks)
  {
    hide HandleConnect, HandlePublish, Published, LoggedIn, ClientID, Taken, Async;
    PublishedNext(cfg, h, x);
    var p := Publication(|h|, x.packet, ClientID(cfg, h), x.publish);
    TakenNext(cfg, Published(cfg, h), p, true);
    TakenNext(cfg, Published(cfg, h), p, false);
    assert Published(cfg, h) + [] == Published(cfg, h);
    if HandlerFor(cfg, x.packet.Type()) == OnPublish {
      PublishCounts(cfg, s, x.packet, x.publish, writeOk);
    } else {
      OtherCounts(cfg, s, x, writeOk);
    }
  }

  lemma CallbackCounts(s: State, c: Callback, ok: bool, writeOk: bool)
    ensures
      var t := RunCallback(s, c, ok, writeOk);
      t.inflight == s.inflight && |t.completed| == |s.completed| + 1
  {
  }

  lemma CountsStep(cfg: Config, s: State, h: seq<Handling>, e: Event, callbacks: nat)
    requires Follows(cfg, s, h) && Counts(cfg, s, h, callbacks)
    ensures Counts(cfg, Step(cfg, s, e), h + News(s, e),
                   callbacks + if e.Completed? && e.index < |s.inflight| then 1 else 0)
  {
    hide ParsePacket, Handle, RunCallback, Published, LoggedIn, ClientID, Taken;
    assert h + [] == h;
    if Reads(s, e) {
      ReadTyped(s.input, s.version);
      var p := ParsePacket(s.input, s.version).value;
      CountsRead(cfg, ReadOk(s, p, ParsePacket(s.input, s.version).rest), h, News(s, e)[0], e.writeOk, callbacks);
    } else if e.Completed? && e.index < |s.inflight| {
      CallbackCounts(s.(inflight := s.inflight[..e.index] + s.inflight[e.index + 1..]), s.inflight[e.index],
                     e.ok, e.writeOk);
    }
  }

  lemma NothingCounts(cfg: Config, input: bytes)
    ensures Counts(cfg, Init(input), [], 0)
  {
  }

  /** What is in flight. In every reachable state as many publishes are in flight as the publisher took
      whose QoS is set to be asynchronous, less the callbacks that ran; all others it took were
      completed at once. */
  lemma {:induction false} InFlightExactly(cfg: Config, input: bytes, events: seq<Event>)
    ensures Counts(cfg, Run(cfg, Init(input), events), History(cfg, input, events), CallbacksRun(cfg, input, events))
  {
    hide Step, News, Follows, Counts;
    if events == [] {
      NothingCounts(cfg, input);
    } else {
      var before := events[..|events| - 1];
      InFlightExactly(cfg, input, before);
      AlwaysFollows(cfg, input, before);
      CountsStep(cfg, Run(cfg, Init(input), before), History(cfg, input, before), events[|events| - 1],
                 CallbacksRun(cfg, input, before));
    }
  }
}
