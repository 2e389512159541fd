/** What a connection handles is what the client sent, and what the client reads is what the
    connection replied: the session machine on top of the wire format. */
module SessionStreams {
  import opened Wire
  import opened Varint
  import opened Header
  import opened Codec
  import opened ConnStates
  import opened Session
  import opened SessionProofs
  import opened SessionHistory
  import V311
  import V5

  // ----- requests -----

  /** One more request behind `n` others. */
  lemma {:induction false} ReadOneMore(n: nat, version: byte, s: bytes)
    requires ReadRequests(n, version, s).Ok?
    ensures var Ok(packets, rest) := ReadRequests(n, version, s);
      && |packets| == n
      && var next := ParsePacket(rest, if n == 0 then version else packets[n - 1].Version());
         next.Ok? ==> ReadRequests(n + 1, version, s) == Ok(packets + [next.value], next.rest)
  {
    hide ParsePacket;
    if n > 0 {
      var Ok(p, s1) := ParsePacket(s, version);
      ReadOneMore(n - 1, p.Version(), s1);
      var Ok(more, rest) := ReadRequests(n - 1, p.Version(), s1);
      assert [p] + more == ReadRequests(n, version, s).value;
      var next := ParsePacket(rest, if n == 1 then p.Version() else more[n - 2].Version());
      if next.Ok? {
        assert [p] + (more + [next.value]) == ([p] + more) + [next.value];
      }
    } else {
      var next := ParsePacket(s, version);
      if next.Ok? {
        assert ReadRequests(0, next.value.Version(), next.rest) == Ok([], next.rest);
        assert [next.value] + [] == [] + [next.value];
      }
    }
  }

  lemma {:induction false} ReadPrefix(n: nat, k: nat, version: byte, s: bytes)
    requires k <= n && ReadRequests(n, version, s).Ok?
    ensures ReadRequests(k, version, s).Ok?
    ensures |ReadRequests(n, version, s).value| == n
    ensures ReadRequests(k, version, s).value == ReadRequests(n, version, s).value[..k]
  {
    hide ParsePacket;
    if n > 0 {
      var Ok(p, s1) := ParsePacket(s, version);
      ReadPrefix(n - 1, if k == 0 then 0 else k - 1, p.Version(), s1);
    }
  }

  /** The handled packets are read off the front of the input, in order and without a gap; what the
      reader would still deliver is the input behind them, or as much of it as ever arrives. */
  predicate InOrder(s: State, input: bytes) {
    && ReadRequests(|s.handled|, 0, input).Ok?
    && ReadRequests(|s.handled|, 0, input).value == s.handled
    && (s.serving ==> s.input <= ReadRequests(|s.handled|, 0, input).rest)
  }

  lemma InOrderStep(cfg: Config, s: State, e: Event, input: bytes)
    requires TraceInv(s) && InOrder(s, input)
    ensures InOrder(Step(cfg, s, e), input)
  {
    hide ParsePacket, Handle, RunCallback;
    if e.Received? && s.serving && ParsePacket(s.input, s.version).Ok? {
      ReadTyped(s.input, s.version);
      ReadOneMore(|s.handled|, 0, input);
      var rest := ReadRequests(|s.handled|, 0, input).rest;
      PacketExtend(s.input, s.version, rest[|s.input|..]);
      assert rest == s.input + rest[|s.input|..];
    }
  }

  /** Whatever happens on the connection, and also when the client dies in the middle of a packet. */
  lemma {:induction false} HandledInOrder(cfg: Config, input: bytes, events: seq<Event>)
    ensures InOrder(Run(cfg, Init(input), events), input)
  {
    hide ParsePacket, Step, InOrder;
    if events == [] {
      InOrderFirst(input);
    } else {
      var before := events[..|events| - 1];
      HandledInOrder(cfg, input, before);
      SessionInvariant(cfg, input, before);
      InOrderStep(cfg, Run(cfg, Init(input), before), events[|events| - 1], input);
    }
  }

  lemma InOrderFirst(input: bytes)
    ensures InOrder(Init(input), input)
  {
  }

  /** From the client's packets to the handlers: whatever happens on the connection, what was handled
      and what the client wrote agree, in order, as far as both go. */
  lemma HandlersSeeWhatWasSent(
    cfg: Config, packets: seq<ControlPacket>, version: byte, t: bytes, events: seq<Event>)
    requires Codec.Session(packets, version, 0)
    ensures
      var handled := Run(cfg, Init(WriteAll(packets) + t), events).handled;
      var n := if |handled| <= |packets| then |handled| else |packets|;
      handled[..n] == WrittenAll(packets)[..n]
  {
    hide ParsePacket, Run, WriteAll, Codec.Session;
    var input := WriteAll(packets) + t;
    var handled := Run(cfg, Init(input), events).handled;
    HandledInOrder(cfg, input, events);
    StreamRoundTrip(packets, version, 0, t);
    if |handled| <= |packets| {
      ReadPrefix(|packets|, |handled|, 0, input);
    } else {
      ReadPrefix(|handled|, |packets|, 0, input);
    }
  }

  /** From the client's packets to the publisher. Each call of the publisher is for one of the packets
      that the client wrote, in the order in which it wrote them, with the fields it wrote: `index`
      says which, as far as what was handled is what the client wrote here. */
  lemma ClientToPublisher(
    cfg: Config, packets: seq<ControlPacket>, version: byte, t: bytes, events: seq<Event>, k: nat)
    requires Codec.Session(packets, version, 0)
    requires var input := WriteAll(packets) + t;
      k < |Published(cfg, History(cfg, input, events))|
    ensures
      var input := WriteAll(packets) + t;
      var calls, ps := Run(cfg, Init(input), events).calls, Published(cfg, History(cfg, input, events));
      && |calls| == |ps| && CallFor(calls[k], ps[k])
      && (k > 0 ==> ps[k - 1].index < ps[k].index)
      && (ps[k].index < |packets| ==> Carries(calls[k].callback.request, packets[ps[k].index]))
  {
    hide Run, WriteAll, History, Published, Codec.Session;
    var input := WriteAll(packets) + t;
    var s, h := Run(cfg, Init(input), events), History(cfg, input, events);
    var p := Published(cfg, h)[k];
    PublishedExactly(cfg, input, events);
    LoginsDecide(cfg, input, events);
    HandlersSeeWhatWasSent(cfg, packets, version, t, events);
    if p.index < |packets| {
      WrittenAt(packets, p.index);
      var n := if |s.handled| <= |packets| then |s.handled| else |packets|;
      assert s.handled[..n][p.index] == WrittenAll(packets)[..n][p.index];
      SameFields(s.calls[k].callback.request, packets[p.index]);
    }
  }

  lemma {:induction false} WrittenAt(packets: seq<ControlPacket>, k: nat)
    requires k < |packets|
    ensures WrittenAll(packets)[k] == packets[k].Written()
  {
    if k > 0 {
      WrittenAt(packets[1..], k - 1);
    }
  }

  /** Writing a packet changes nothing that is published. */
  lemma SameFields(r: PublishRequest, p: ControlPacket)
    requires Carries(r, p.Written())
    ensures Carries(r, p)
  {
  }

  // ----- replies -----

  /** Replies can be read back, and belong to the version of the connection. */
  predicate RepliesInv(s: State) {
    && (forall r <- s.replies :: r.WellFormed())
    && (forall c <- s.inflight :: c.version == s.version && s.version != 0)
    && (s.version != 0 ==> forall r <- s.replies :: r.Version() == s.version)
    && (s.version == 0 ==> forall r <- s.replies :: r.Version() == MQTT_3_1_1)
    && (s.version == 0 && s.serving ==> s.replies == [])
  }

  lemma RepliesWellFormed(version: byte, code: byte, id: uint16)
    requires version in {MQTT_3_1_1, MQTT_5}
    ensures Connack(version, code).WellFormed() && Connack(version, code).Version() == version
    ensures Pingresp(version).WellFormed() && Pingresp(version).Version() == version
    ensures forall t <- [PUBACK, PUBREC, PUBCOMP] ::
      Ack(version, t, id).WellFormed() && Ack(version, t, id).Version() == version
  {
  }

  lemma WriteReplies(s: State, reply: ControlPacket, writeOk: bool)
    requires RepliesInv(s) && reply.WellFormed() && reply.Version() == s.version
    ensures RepliesInv(Write(s, reply, writeOk))
  {
    hide ControlPacket.WellFormed;
  }

  lemma CallbackReplies(s: State, c: Callback, ok: bool, writeOk: bool)
    requires RepliesInv(s) && c.version == s.version && s.version in {MQTT_3_1_1, MQTT_5}
    ensures RepliesInv(RunCallback(s, c, ok, writeOk))
  {
    hide ControlPacket.WellFormed, Ack, Write;
    RepliesWellFormed(c.version, 0, c.request.messageID);
    var s1 := s.(completed := s.completed + [Completion(c, ok)]);
    if ok && AnswerTo(c) != [] {
      WriteReplies(s1, AnswerTo(c)[0], writeOk);
    }
  }

  lemma ConnectReplies(s: State, p: ControlPacket, login: Login, writeOk: bool)
    requires p.IsConnect() && RepliesInv(s) && s.version == p.Version()
    ensures RepliesInv(HandleConnect(s, p, login, writeOk))
  {
    hide ControlPacket.WellFormed, Connack, Write, ClientIdentifier;
    if login.LoginCode? {
      RepliesWellFormed(p.Version(), login.returnCode, 0);
      WriteReplies(s.(authenticated := login.returnCode == 0, clientIdentifier := ClientIdentifier(p),
                      idleTimeout := IdleTimeout(s, p)),
                   Connack(p.Version(), login.returnCode), writeOk);
    }
  }

  lemma PublishReplies(cfg: Config, s: State, p: ControlPacket, publish: Publishing, writeOk: bool)
    requires IsPublish(p) && RepliesInv(s) && s.version == p.Version()
    ensures RepliesInv(HandlePublish(cfg, s, p, publish, writeOk))
  {
    hide ControlPacket.WellFormed, RunCallback, RequestOf, Unauthenticated;
    var c := Callback(p.Version(), RequestOf(p, s.clientIdentifier));
    CallbackReplies(s.(calls := s.calls + [Call(c, true, s.authenticated)]), c, publish.ok, writeOk);
  }

  lemma HandleReplies(cfg: Config, s: State, p: ControlPacket, login: Login, publish: Publishing, writeOk: bool)
    requires Typed(p) && RepliesInv(s) && s.version == p.Version()
    ensures RepliesInv(Handle(cfg, s, p, login, publish, writeOk))
  {
    hide ControlPacket.WellFormed, HandleConnect, HandlePublish, Ack, Pingresp, Write, Unauthenticated;
    match HandlerFor(cfg, p.Type())
    case OnConnect => ConnectReplies(s, p, login, writeOk);
    case OnPublish => PublishReplies(cfg, s, p, publish, writeOk);
    case OnPublishRelease =>
      RepliesWellFormed(p.Version(), 0, MessageID(p));
      WriteReplies(s, Ack(p.Version(), PUBCOMP, MessageID(p)), writeOk);
    case OnPing =>
      RepliesWellFormed(p.Version(), 0, 0);
      WriteReplies(s, Pingresp(p.Version()), writeOk);
    case _ =>
  }

  /** A protocol version is refused only while none has been negotiated. */
  lemma RefusedOnlyFirst(s: bytes, version: byte)
    requires ParsePacket(s, version).Err? && ParsePacket(s, version).error.Refused?
    ensures version !in {MQTT_3_1_1, MQTT_5}
  {
    hide Sniff, V311.ParsePacket, V5.ParsePacket;
  }

  lemma ReceiveReplies(cfg: Config, s: State, login: Login, publish: Publishing, writeOk: bool)
    requires RepliesInv(s) && TraceInv(s) && s.serving
    ensures RepliesInv(Receive(cfg, s, login, publish, writeOk))
  {
    hide ControlPacket.WellFormed, ParsePacket, Handle, Connack;
    match ParsePacket(s.input, s.version)
    case Ok(p, rest) =>
      ReadTyped(s.input, s.version);
      ReadVersion(s.input, s.version);
      var s1 := ReadOk(s, p, rest);
      HandleReplies(cfg, s1, p, login, publish, writeOk);
      FramedReplies(Handle(cfg, s1, p, login, publish, writeOk));
    case Err(error) =>
      if error.Refused? {
        RefusedOnlyFirst(s.input, s.version);
        RepliesWellFormed(MQTT_3_1_1, error.returnCode, 0);
      }
  }

  lemma FramedReplies(s: State)
    requires RepliesInv(s)
    ensures RepliesInv(Enter(s, Idle))
  {
    hide ControlPacket.WellFormed;
  }

  lemma StepReplies(cfg: Config, s: State, e: Event)
    requires RepliesInv(s) && TraceInv(s)
    ensures RepliesInv(Step(cfg, s, e))
  {
    hide ControlPacket.WellFormed, Receive, RunCallback;
    match e
    case Received(login, publish, writeOk) =>
      if s.serving {
        ReceiveReplies(cfg, s, login, publish, writeOk);
      }
    case Completed(i, ok, writeOk) =>
      if i < |s.inflight| {
        assert s.inflight[i] in s.inflight;
        CallbackReplies(s.(inflight := s.inflight[..i] + s.inflight[i + 1..]), s.inflight[i], ok, writeOk);
      }
    case _ =>
  }

  lemma {:induction false} RepliesAlways(cfg: Config, input: bytes, events: seq<Event>)
    ensures RepliesInv(Run(cfg, Init(input), events))
  {
    if events != [] {
      var before := events[..|events| - 1];
      RepliesAlways(cfg, input, before);
      SessionInvariant(cfg, input, before);
      StepReplies(cfg, Run(cfg, Init(input), before), events[|events| - 1]);
    }
  }

  /** From the handlers to the client: in every reachable state the bytes written so far read back,
      under the connection's version, as exactly the replies, in order and with nothing left over.
      A client refused before any version was agreed on reads the refusal as version 3.1.1. */
  lemma ClientReadsReplies(cfg: Config, input: bytes, events: seq<Event>)
    ensures var s := Run(cfg, Init(input), events);
      var version := if s.version == 0 then MQTT_3_1_1 else s.version;
      ReadRequests(|s.replies|, version, WriteAll(s.replies)) == Ok(WrittenAll(s.replies), [])
  {
    hide Run, ReadRequests, ControlPacket.WellFormed;
    var s := Run(cfg, Init(input), events);
    var version := if s.version == 0 then MQTT_3_1_1 else s.version;
    RepliesAlways(cfg, input, events);
    SessionInvariant(cfg, input, events);
    StreamRoundTrip(s.replies, version, version, []);
    assert WriteAll(s.replies) + [] == WriteAll(s.replies);
  }
}
