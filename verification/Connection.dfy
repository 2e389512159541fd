/** The code behind the session machine: the request multiplexer, the handlers, the publish
    callbacks and the serve loop of one connection. Each method makes exactly the step that
    `Session` gives it; what the environment decides is passed in. */
module Connection {
  import opened Wire
  import opened Header
  import opened Streams
  import opened Codec
  import opened ConnStates
  import opened Session
  import V311
  import V5

  /** Message types with their handlers; a type without one closes the connection. */
  class ServeMux {
    var m: map<byte, Handler>

    ghost predicate Serves(cfg: Config)
      reads this
    {
      forall t: byte :: (if t in m then m[t] else NoHandler) == HandlerFor(cfg, t)
    }

    /** `New`: the five handlers, then the ignored types on top. */
    constructor (cfg: Config)
      ensures Serves(cfg)
    {
      m := map[];
      new;
      Handle(CONNECT, OnConnect);
      Handle(PUBLISH, OnPublish);
      Handle(DISCONNECT, OnDisconnect);
      Handle(PUBREL, OnPublishRelease);
      Handle(PINGREQ, OnPing);
      Ignore(cfg.ignoreUnsupported);
    }

    method Ignore(types: set<byte>)
      modifies this
      ensures m.Keys == old(m).Keys + types
      ensures forall t <- m :: m[t] == if t in types then OnIgnored else old(m)[t]
    {
      var names := types;
      while names != {}
        invariant names <= types && m.Keys == old(m).Keys + (types - names)
        invariant forall t <- m :: m[t] == if t in types - names then OnIgnored else old(m)[t]
        decreases names
      {
        var t :| t in names;
        Handle(t, OnIgnored);
        names := names - {t};
      }
    }

    method Handle(messageType: byte, handler: Handler)
      modifies this
      ensures m == old(m)[messageType := handler]
    {
      m := m[messageType := handler];
    }

    method Lookup(messageType: byte) returns (h: Handler)
      ensures h == if messageType in m then m[messageType] else NoHandler
    {
      h := if messageType in m then m[messageType] else NoHandler;
    }
  }

  /** What others do to a connection between two rounds of its loop: the publisher calls back, the
      server closes the socket, the client dies. */
  datatype Foreign = CallsBack(index: nat, ok: bool, writeOk: bool) | HangsUp | Dies(available: nat) {
    function Event(): Session.Event {
      match this
      case CallsBack(i, ok, writeOk) => Completed(i, ok, writeOk)
      case HangsUp => SocketClosed
      case Dies(n) => Cut(n)
    }
  }

  /** One round of the serve loop as the environment decides it: what others do before, the round, and
      `stop` when the server shuts down or the idle timeout strikes behind it. */
  datatype Round = Round(before: seq<Foreign>, login: Login, publish: Publishing, writeOk: bool, stop: bool)

  function ForeignEvents(foreign: seq<Foreign>): seq<Event> {
    if foreign == [] then []
    else ForeignEvents(foreign[..|foreign| - 1]) + [foreign[|foreign| - 1].Event()]
  }

  function EventsOf(rounds: seq<Round>): seq<Event> {
    if rounds == [] then []
    else
      var r := rounds[|rounds| - 1];
      EventsOf(rounds[..|rounds| - 1]) + ForeignEvents(r.before)
      + [Received(r.login, r.publish, r.writeOk)] + if r.stop then [Returned] else []
  }

  class Conn {
    const cfg: Config
    const mux: ServeMux
    const bufr: Reader
    var protocolVersion: byte
    var authenticated: bool
    var clientIdentifier: bytes
    var idleTimeout: nat
    var open: bool
    var serving: bool
    var inflight: seq<Callback>
    var curState: ConnState
    var replies: seq<ControlPacket>
    ghost var lifecycle: seq<ConnState>
    ghost var handled: seq<ControlPacket>
    ghost var calls: seq<Call>
    ghost var completed: seq<Completion>

    ghost predicate Valid()
      reads this, mux, bufr
    {
      && mux.Serves(cfg)
      && (serving ==> bufr.replay == [])
      && lifecycle != [] && lifecycle[|lifecycle| - 1] == curState
    }

    ghost function State(): Session.State
      reads this, bufr
    {
      Session.State(
        if serving then bufr.unread else [], protocolVersion, authenticated, clientIdentifier, idleTimeout, open,
        serving, inflight, lifecycle, handled, calls, completed, replies)
    }

    constructor (cfg: Config, mux: ServeMux, input: bytes)
      requires mux.Serves(cfg)
      ensures Valid() && fresh(bufr) && State() == Init(input)
      ensures this.cfg == cfg && this.mux == mux
    {
      this.cfg, this.mux := cfg, mux;
      bufr := new Reader(input);
      protocolVersion, authenticated, clientIdentifier, idleTimeout := 0, false, [], 0;
      open, serving, inflight := true, true, [];
      curState, replies := New, [];
      lifecycle, handled, calls, completed := [New], [], [], [];
    }

    method SetState(state: ConnState)
      modifies this`curState, this`lifecycle
      ensures curState == state && lifecycle == old(lifecycle) + [state]
    {
      curState := state;
      lifecycle := lifecycle + [state];
    }

    /** `response.Write`: fails on a closed socket. */
    method WriteReply(reply: ControlPacket, writeOk: bool)
      modifies this`replies
      ensures State() == Session.Write(old(State()), reply, writeOk)
    {
      if open && writeOk {
        replies := replies + [reply];
      }
    }

    method CloseSocket()
      modifies this`open
      ensures State() == Session.Close(old(State()))
    {
      open := false;
    }

    method DisconnectUnauthenticated(messageType: byte) returns (disconnected: bool)
      modifies this`open
      ensures disconnected == Unauthenticated(cfg, old(State()), messageType)
      ensures State() == if disconnected then Session.Close(old(State())) else old(State())
    {
      if authenticated || messageType in cfg.allowUnauthenticated {
        return false;
      }
      CloseSocket();
      return true;
    }

    method HandleConnect(packet: ControlPacket, login: Login, writeOk: bool)
      requires packet.IsConnect()
      modifies this
      ensures State() == Session.HandleConnect(old(State()), packet, login, writeOk)
    {
      if login.LoginError? {
        CloseSocket();
        return;
      }
      if KeepAlive(packet) > 0 {
        idleTimeout := KeepAlive(packet) * 3 / 2;
      }
      authenticated := login.returnCode == 0;
      clientIdentifier := Session.ClientIdentifier(packet);
      WriteReply(Connack(packet.Version(), login.returnCode), writeOk);
      if !authenticated {
        CloseSocket();
      }
    }

    /** The closure that `handlePublish` hands to the publisher. */
    method PublishCallback(c: Callback, ok: bool, writeOk: bool)
      modifies this`replies, this`completed
      ensures State() == Session.RunCallback(old(State()), c, ok, writeOk)
    {
      completed := completed + [Completion(c, ok)];
      if c.request.qos == 1 {
        if !ok {
          return;
        }
        WriteReply(Ack(c.version, PUBACK, c.request.messageID), writeOk);
      } else if c.request.qos == 2 {
        if !ok {
          return;
        }
        WriteReply(Ack(c.version, PUBREC, c.request.messageID), writeOk);
      }
    }

    method HandlePublish(packet: ControlPacket, publish: Publishing, writeOk: bool)
      requires IsPublish(packet)
      modifies this
      ensures State() == Session.HandlePublish(cfg, old(State()), packet, publish, writeOk)
    {
      hide Session.RunCallback;
      var request := RequestOf(packet, clientIdentifier);
      var disconnected := DisconnectUnauthenticated(PUBLISH);
      if disconnected {
        return;
      }
      if request.qos > 2 {
        return;
      }
      var c := Callback(packet.Version(), request);
      calls := calls + [Call(c, publish.accepted, authenticated)];
      if !publish.accepted {
        if request.qos != 0 {
          CloseSocket();
        }
      } else if cfg.IsPublishAsync(request.qos) {
        inflight := inflight + [c];
      } else {
        PublishCallback(c, publish.ok, writeOk);
      }
    }

    /** The publisher runs a callback it was given earlier, once. */
    method Complete(i: nat, ok: bool, writeOk: bool)
      requires i < |inflight|
      modifies this`inflight, this`replies, this`completed
      ensures State() == Step(cfg, old(State()), Completed(i, ok, writeOk))
    {
      hide Session.RunCallback;
      var c := inflight[i];
      inflight := inflight[..i] + inflight[i + 1..];
      PublishCallback(c, ok, writeOk);
    }

    method HandlePublishRelease(packet: ControlPacket, writeOk: bool)
      requires IsPubrel(packet)
      modifies this
      ensures State() == Session.HandlePublishRelease(cfg, old(State()), packet, writeOk)
    {
      var disconnected := DisconnectUnauthenticated(PUBREL);
      if disconnected {
        return;
      }
      WriteReply(Ack(packet.Version(), PUBCOMP, MessageID(packet)), writeOk);
    }

    method HandlePing(packet: ControlPacket, writeOk: bool)
      modifies this
      ensures State() == Session.HandlePing(cfg, old(State()), packet, writeOk)
    {
      var disconnected := DisconnectUnauthenticated(PINGREQ);
      if disconnected {
        return;
      }
      WriteReply(Pingresp(packet.Version()), writeOk);
    }

    /** `ServeMux.ServeMQTT`. */
    method ServeMQTT(packet: ControlPacket, login: Login, publish: Publishing, writeOk: bool)
      requires Typed(packet) && mux.Serves(cfg)
      modifies this
      ensures State() == Session.Handle(cfg, old(State()), packet, login, publish, writeOk)
    {
      hide Session.HandlePublish, Session.HandleConnect, Session.HandlePublishRelease, Session.HandlePing;
      var handler := mux.Lookup(packet.Type());
      assert handler == HandlerFor(cfg, packet.Type());
      match handler {
        case OnConnect => HandleConnect(packet, login, writeOk);
        case OnPublish => HandlePublish(packet, publish, writeOk);
        case OnPublishRelease => HandlePublishRelease(packet, writeOk);
        case OnPing => HandlePing(packet, writeOk);
        case OnIgnored =>
        case OnDisconnect => CloseSocket();
        case NoHandler => CloseSocket();
      }
    }

    /** The deferred function of `serve`. */
    method Finish()
      requires mux.Serves(cfg)
      modifies this
      ensures Valid() && State() == Session.Finish(old(State()))
    {
      CloseSocket();
      serving := false;
      SetState(Closed);
    }

    /** `readRequest`: the version of what was read is the version from then on. */
    method ReadRequest() returns (req: Result<ControlPacket>)
      requires bufr.replay == []
      modifies this`protocolVersion, bufr
      ensures req == ParsePacket(old(bufr.unread), old(protocolVersion)).Outcome()
      ensures req.Success? ==>
        && bufr.replay == [] && protocolVersion == req.value.Version()
        && bufr.unread == ParsePacket(old(bufr.unread), old(protocolVersion)).rest
      ensures req.Failure? ==> protocolVersion == old(protocolVersion)
    {
      hide ParsePacket;
      req := ReadPacket(bufr, protocolVersion);
      if req.Success? {
        protocolVersion := req.value.Version();
      }
    }

    /** The loop breaks: a refused protocol version is answered first. */
    method BreakOff(error: Error, writeOk: bool)
      requires serving && mux.Serves(cfg)
      modifies this
      ensures Valid() && State() == ReadFailed(old(State()), error, writeOk)
    {
      SetState(Active);
      if error.Refused? {
        WriteReply(Connack(MQTT_3_1_1, error.returnCode), writeOk);
      }
      CloseSocket();
      Finish();
    }

    /** Handles a request that has been read. */
    method HandleRequest(packet: ControlPacket, login: Login, publish: Publishing, writeOk: bool)
      requires Valid() && serving && Typed(packet)
      modifies this
      ensures Valid()
      ensures
        var read := old(State());
        State() == Enter(Session.Handle(cfg, Enter(read.(handled := read.handled + [packet]), Active),
                                        packet, login, publish, writeOk), Idle)
    {
      hide Session.Handle;
      SetState(Active);
      handled := handled + [packet];
      ServeMQTT(packet, login, publish, writeOk);
      SetState(Idle);
    }

    /** Reads one request and handles it, or answers a refusal and ends. */
    method ServeRequest(login: Login, publish: Publishing, writeOk: bool)
      requires Valid() && serving
      modifies this, bufr
      ensures Valid() && State() == Receive(cfg, old(State()), login, publish, writeOk)
    {
      hide ParsePacket, Session.Handle, ReadFailed;
      ghost var s := State();
      var req := ReadRequest();
      if req.Failure? {
        AsIfUnread(s, State(), req.error, writeOk);
        BreakOff(req.error, writeOk);
        return;
      }
      ReadTyped(s.input, s.version);
      HandleRequest(req.value, login, publish, writeOk);
    }

    /** Between two rounds, or after the last. */
    method Meanwhile(foreign: seq<Foreign>)
      requires Valid()
      modifies this, bufr
      ensures Valid() && State() == Run(cfg, old(State()), ForeignEvents(foreign))
    {
      hide Receive, Session.RunCallback;
      for i := 0 to |foreign|
        invariant Valid()
        invariant State() == Run(cfg, old(State()), ForeignEvents(foreign[..i]))
      {
        assert foreign[..i + 1][..i] == foreign[..i];
        RunOneMore(cfg, old(State()), ForeignEvents(foreign[..i]), foreign[i].Event());
        OneForeign(foreign[i]);
      }
      assert foreign[..|foreign|] == foreign;
    }

    method OneForeign(f: Foreign)
      requires Valid()
      modifies this, bufr
      ensures Valid() && State() == Step(cfg, old(State()), f.Event())
    {
      hide Receive, Session.RunCallback;
      match f {
        case CallsBack(i, ok, writeOk) =>
          if i < |inflight| {
            Complete(i, ok, writeOk);
          }
        case HangsUp =>
          CloseSocket();
        case Dies(n) =>
          if serving && n <= |bufr.unread| {
            bufr.unread := bufr.unread[..n];
          }
      }
    }

    /** A round that another goroutine may have run into, and the check behind it. */
    method ServeRound(r: Round)
      requires Valid()
      modifies this, bufr
      ensures Valid() && State() == Run(cfg, old(State()), EventsOf([r]))
    {
      hide Receive, ForeignEvents;
      ghost var events := ForeignEvents(r.before);
      Meanwhile(r.before);
      RunOneMore(cfg, old(State()), events, Received(r.login, r.publish, r.writeOk));
      if serving {
        ServeRequest(r.login, r.publish, r.writeOk);
      }
      events := events + [Received(r.login, r.publish, r.writeOk)];
      if r.stop {
        RunOneMore(cfg, old(State()), events, Returned);
        if serving {
          Finish();
        }
        events := events + [Returned];
      }
      OneRound(r, events);
    }

    /** The serve loop: as many rounds as the environment provides while it lasts, with whatever
        others do to the connection in between. */
    method Serve(rounds: seq<Round>)
      requires Valid()
      modifies this, bufr
      ensures Valid() && State() == Run(cfg, old(State()), EventsOf(rounds))
    {
      hide Run, ForeignEvents;
      assert State() == Run(cfg, State(), EventsOf([])) by { NoEvents(cfg, State()); }
      for i := 0 to |rounds|
        invariant Valid()
        invariant State() == Run(cfg, old(State()), EventsOf(rounds[..i]))
      {
        RunSplit(cfg, old(State()), EventsOf(rounds[..i]), EventsOf([rounds[i]]));
        RoundsAppend(rounds[..i], rounds[i]);
        assert rounds[..i + 1] == rounds[..i] + [rounds[i]];
        ServeRound(rounds[i]);
      }
      assert rounds[..|rounds|] == rounds;
    }
  }

  /** After a failed read it does not matter how much of the input is gone. */
  lemma AsIfUnread(s: Session.State, t: Session.State, error: Error, writeOk: bool)
    requires t == s.(input := t.input)
    ensures ReadFailed(t, error, writeOk) == ReadFailed(s, error, writeOk)
  {
  }

  lemma NoEvents(cfg: Config, s: Session.State)
    ensures Run(cfg, s, []) == s
  {
  }

  lemma OneRound(r: Round, events: seq<Event>)
    requires events == ForeignEvents(r.before) + [Received(r.login, r.publish, r.writeOk)]
                       + if r.stop then [Returned] else []
    ensures EventsOf([r]) == events
  {
    assert [r][..0] == [];
    assert [] + ForeignEvents(r.before) == ForeignEvents(r.before);
  }

  lemma RoundsAppend(rounds: seq<Round>, r: Round)
    ensures EventsOf(rounds + [r]) == EventsOf(rounds) + EventsOf([r])
  {
    hide ForeignEvents;
    assert (rounds + [r])[..|rounds|] == rounds;
    var mine := ForeignEvents(r.before) + [Received(r.login, r.publish, r.writeOk)]
                + if r.stop then [Returned] else [];
    OneRound(r, mine);
    assert EventsOf(rounds + [r]) == EventsOf(rounds) + mine;
  }

  lemma {:induction false} RunSplit(cfg: Config, s: Session.State, before: seq<Event>, after: seq<Event>)
    ensures Run(cfg, s, before + after) == Run(cfg, Run(cfg, s, before), after)
  {
    hide Step;
    if after == [] {
      assert before + after == before;
    } else {
      var n := |after| - 1;
      assert (before + after)[..|before + after| - 1] == before + after[..n];
      RunSplit(cfg, s, before, after[..n]);
    }
  }

  lemma RunOneMore(cfg: Config, s: Session.State, events: seq<Event>, e: Event)
    ensures Run(cfg, s, events + [e]) == Step(cfg, Run(cfg, s, events), e)
  {
    hide Step;
    assert (events + [e])[..|events|] == events;
  }
}
