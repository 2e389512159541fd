/** Every answer that is due is given: the replies written are exactly the acknowledgements of
    successful publishes and the answers to the packets handled, less those that were lost because the
    socket was closed or the write failed. Message types and codes are written as numbers. */
module SessionAnswers {
  import opened Wire
  import opened Header
  import opened Codec
  import opened ConnStates
  import opened Session
  import opened SessionHistory
  import V311
  import V5

  /** The type of a reply and its packet identifier or, for CONNACK, its return code. */
  datatype Answer = Answer(messageType: byte, number: int)

  type Answers = multiset<Answer>

  function Given(p: ControlPacket): Answers {
    match p
    case P311(q) =>
      if q.Ack? then multiset{Answer(q.header.messageType, q.messageID)}
      else if q.Connack? then multiset{Answer(2, q.returnCode)}
      else multiset{Answer(q.header.messageType, 0)}
    case P5(q) =>
      if q.Ack? then multiset{Answer(q.header.messageType, q.messageID)}
      else if q.Connack? then multiset{Answer(2, q.returnCode)}
      else multiset{Answer(q.header.messageType, 0)}
  }

  function AllGiven(replies: seq<ControlPacket>): Answers {
    if replies == [] then multiset{} else AllGiven(replies[..|replies| - 1]) + Given(replies[|replies| - 1])
  }

  // ----- what is due -----

  /** PUBACK to a successful publish of QoS 1, PUBREC to one of QoS 2. */
  function ForCompletion(c: Completion): Answers {
    if !c.ok then multiset{}
    else match c.callback.request.qos
      case 1 => multiset{Answer(4, c.callback.request.messageID)}
      case 2 => multiset{Answer(5, c.callback.request.messageID)}
      case _ => multiset{}
  }

  function ForCompletions(cs: seq<Completion>): Answers {
    if cs == [] then multiset{} else ForCompletions(cs[..|cs| - 1]) + ForCompletion(cs[|cs| - 1])
  }

  function Identifier(p: ControlPacket): int {
    match p
    case P311(q) => if q.Ack? then q.messageID else 0
    case P5(q) => if q.Ack? then q.messageID else 0
  }

  /** CONNACK with the code of the login, which for bad credentials is another one in version 5; PUBCOMP
      to a PUBREL and PINGRESP to a PINGREQ that are let through; nothing to what is ignored. */
  function ForHandling(cfg: Config, h: seq<Handling>, x: Handling): Answers {
    var t := x.packet.Header().messageType;
    if t in cfg.ignoreUnsupported then multiset{}
    else match t
      case 1 =>
        if x.login.LoginError? then multiset{}
        else if x.packet.P5? && x.login.returnCode == 4 then multiset{Answer(2, 0x86)}
        else multiset{Answer(2, x.login.returnCode)}
      case 6 => if Allowed(cfg, h, 6) then multiset{Answer(7, Identifier(x.packet))} else multiset{}
      case 12 => if Allowed(cfg, h, 12) then multiset{Answer(13, 0)} else multiset{}
      case _ => multiset{}
  }

  function ForHistory(cfg: Config, h: seq<Handling>): Answers {
    if h == [] then multiset{}
    else ForHistory(cfg, h[..|h| - 1]) + ForHandling(cfg, h[..|h| - 1], h[|h| - 1])
  }

  /** CONNACK with the code of the refusal to a CONNECT of a protocol version that is not supported. */
  function ForRefusal(s: State, e: Event): Answers {
    if e.Received? && s.serving && ParsePacket(s.input, s.version).Err?
       && ParsePacket(s.input, s.version).error.Refused?
    then multiset{Answer(2, ParsePacket(s.input, s.version).error.returnCode)}
    else multiset{}
  }

  function ForRefusals(cfg: Config, input: bytes, events: seq<Event>): Answers {
    if events == [] then multiset{}
    else
      var before := events[..|events| - 1];
      ForRefusals(cfg, input, before) + ForRefusal(Run(cfg, Init(input), before), events[|events| - 1])
  }

  /** All answers due in a run. */
  function Due(cfg: Config, input: bytes, events: seq<Event>): Answers {
    ForCompletions(Run(cfg, Init(input), events).completed)
    + ForHistory(cfg, History(cfg, input, events))
    + ForRefusals(cfg, input, events)
  }

  // ----- what is lost -----

  predicate WriteFails(e: Event) {
    (e.Received? || e.Completed?) && !e.writeOk
  }

  /** The answers that fell due while the socket was closed or when the write failed. */
  function Lost(cfg: Config, input: bytes, events: seq<Event>): Answers {
    if events == [] then multiset{}
    else
      var before, e := events[..|events| - 1], events[|events| - 1];
      Lost(cfg, input, before)
      + if Run(cfg, Init(input), before).open && !WriteFails(e) then multiset{}
        else Due(cfg, input, events) - Due(cfg, input, before)
  }

  // ----- one step -----

  lemma GivenNext(replies: seq<ControlPacket>, p: ControlPacket)
    ensures AllGiven(replies + [p]) == AllGiven(replies) + Given(p)
  {
    assert (replies + [p])[..|replies|] == replies;
  }

  lemma CompletionsNext(cs: seq<Completion>, c: Completion)
    ensures ForCompletions(cs + [c]) == ForCompletions(cs) + ForCompletion(c)
  {
    assert (cs + [c])[..|cs|] == cs;
  }

  lemma HistoryNext(cfg: Config, h: seq<Handling>, x: Handling)
    ensures ForHistory(cfg, h + [x]) == ForHistory(cfg, h) + ForHandling(cfg, h, x)
  {
    hide ForHandling;
    assert (h + [x])[..|h|] == h;
  }

  /** From `s` to `t` completions came in and `other` fell due, and all of it was answered if the socket
      was open and the write went through; otherwise nothing was. */
  predicate Answered(s: State, t: State, other: Answers, ok: bool) {
    var c, d := ForCompletions(s.completed), ForCompletions(t.completed);
    && c <= d
    && AllGiven(t.replies) == AllGiven(s.replies) + if s.open && ok then (d - c) + other else multiset{}
  }

  lemma WriteAnswers(s: State, reply: ControlPacket, ok: bool)
    ensures Answered(s, Write(s, reply, ok), Given(reply), ok)
  {
    hide Given, ForCompletions;
    GivenNext(s.replies, reply);
  }

  lemma SilentAnswers(s: State, t: State, ok: bool)
    requires t.replies == s.replies && t.completed == s.completed
    ensures Answered(s, t, multiset{}, ok)
  {
  }

  lemma CallbackAnswers(s: State, c: Callback, ok: bool, writeOk: bool)
    ensures Answered(s, RunCallback(s, c, ok, writeOk), multiset{}, writeOk)
  {
    hide AllGiven, ForCompletions;
    CompletionsNext(s.completed, Completion(c, ok));
    if ok && AnswerTo(c) != [] {
      GivenNext(s.replies, AnswerTo(c)[0]);
    }
  }

  lemma PublishAnswers(cfg: Config, s: State, p: ControlPacket, publish: Publishing, writeOk: bool)
    requires IsPublish(p)
    ensures Answered(s, HandlePublish(cfg, s, p, publish, writeOk), multiset{}, writeOk)
  {
    hide RunCallback, RequestOf, AllGiven, ForCompletions;
    var c := Callback(p.Version(), RequestOf(p, s.clientIdentifier));
    CallbackAnswers(s.(calls := s.calls + [Call(c, publish.accepted, s.authenticated)]), c, publish.ok, writeOk);
  }

  lemma ConnectAnswers(s: State, p: ControlPacket, login: Login, writeOk: bool)
    requires p.IsConnect()
    ensures
      var due := if login.LoginError? then multiset{}
                 else if p.P5? && login.returnCode == 4 then multiset{Answer(2, 0x86)}
                 else multiset{Answer(2, login.returnCode)};
      Answered(s, HandleConnect(s, p, login, writeOk), due, writeOk)
  {
    hide AllGiven, ForCompletions;
    if login.LoginCode? {
      GivenNext(s.replies, Connack(p.Version(), login.returnCode));
    }
  }

  lemma ReleaseAnswers(cfg: Config, s: State, h: seq<Handling>, p: ControlPacket, writeOk: bool)
    requires IsPubrel(p) && s.authenticated == LoggedIn(cfg, h)
    ensures Answered(s, HandlePublishRelease(cfg, s, p, writeOk),
                     if Allowed(cfg, h, 6) then multiset{Answer(7, Identifier(p))} else multiset{}, writeOk)
  {
    hide AllGiven, ForCompletions, LoggedIn;
    GivenNext(s.replies, Ack(p.Version(), PUBCOMP, MessageID(p)));
  }

  lemma PingAnswers(cfg: Config, s: State, h: seq<Handling>, p: ControlPacket, writeOk: bool)
    requires s.authenticated == LoggedIn(cfg, h)
    ensures Answered(s, HandlePing(cfg, s, p, writeOk),
                     if Allowed(cfg, h, 12) then multiset{Answer(13, 0)} else multiset{}, writeOk)
  {
    hide AllGiven, ForCompletions, LoggedIn;
    GivenNext(s.replies, Pingresp(p.Version()));
  }

  lemma HandleAnswers(cfg: Config, s: State, h: seq<Handling>, x: Handling, writeOk: bool)
    requires s.authenticated == LoggedIn(cfg, h) && Typed(x.packet)
    ensures Answered(s, Handle(cfg, s, x.packet, x.login, x.publish, writeOk), ForHandling(cfg, h, x), writeOk)
  {
    hide HandleConnect, HandlePublish, HandlePublishRelease, HandlePing, Answered, LoggedIn, Allowed;
    match HandlerFor(cfg, x.packet.Type())
    case OnConnect => ConnectAnswers(s, x.packet, x.login, writeOk);
    case OnPublish => PublishAnswers(cfg, s, x.packet, x.publish, writeOk);
    case OnPublishRelease => ReleaseAnswers(cfg, s, h, x.packet, writeOk);
    case OnPing => PingAnswers(cfg, s, h, x.packet, writeOk);
    case OnIgnored => SilentAnswers(s, s, writeOk);
    case _ => SilentAnswers(s, Close(s), writeOk);
  }

  /** What falls due in a step, the completions apart. */
  function DueNow(cfg: Config, s: State, h: seq<Handling>, e: Event): Answers {
    (if Reads(s, e) then ForHandling(cfg, h, News(s, e)[0]) else multiset{}) + ForRefusal(s, e)
  }

  lemma RefusalAnswers(s: State, error: Error, writeOk: bool)
    ensures Answered(s, ReadFailed(s, error, writeOk),
                     if error.Refused? then multiset{Answer(2, error.returnCode)} else multiset{}, writeOk)
  {
    hide AllGiven, ForCompletions;
    if error.Refused? {
      GivenNext(s.replies, Connack(MQTT_3_1_1, error.returnCode));
    }
  }

  lemma ReadAnswers(cfg: Config, s: State, h: seq<Handling>, x: Handling, rest: bytes, writeOk: bool)
    requires s.authenticated == LoggedIn(cfg, h) && Typed(x.packet)
    ensures
      var t := Enter(Handle(cfg, ReadOk(s, x.packet, rest), x.packet, x.login, x.publish, writeOk), Idle);
      Answered(s, t, ForHandling(cfg, h, x), writeOk)
  {
    hide Handle, LoggedIn, ForHandling, AllGiven, ForCompletions;
    HandleAnswers(cfg, ReadOk(s, x.packet, rest), h, x, writeOk);
  }

  lemma ReceiveAnswers(cfg: Config, s: State, h: seq<Handling>, e: Event)
    requires s.authenticated == LoggedIn(cfg, h) && e.Received? && s.serving
    ensures Answered(s, Receive(cfg, s, e.login, e.publish, e.writeOk), DueNow(cfg, s, h, e), e.writeOk)
  {
    hide ParsePacket, Handle, ReadFailed, LoggedIn, ForHandling, Answered;
    match ParsePacket(s.input, s.version)
    case Ok(p, rest) =>
      ReadTyped(s.input, s.version);
      assert DueNow(cfg, s, h, e) == ForHandling(cfg, h, Handling(p, e.login, e.publish));
      ReadAnswers(cfg, s, h, Handling(p, e.login, e.publish), rest, e.writeOk);
    case Err(error) =>
      assert DueNow(cfg, s, h, e) == if error.Refused? then multiset{Answer(2, error.returnCode)} else multiset{};
      RefusalAnswers(s, error, e.writeOk);
  }

  lemma StepAnswers(cfg: Config, s: State, h: seq<Handling>, e: Event)
    requires s.authenticated == LoggedIn(cfg, h)
    ensures Answered(s, Step(cfg, s, e), DueNow(cfg, s, h, e), !WriteFails(e))
  {
    hide ParsePacket, Receive, RunCallback, LoggedIn, ForHandling, AllGiven, ForCompletions;
    match e
    case Received(_, _, _) =>
      if s.serving {
        ReceiveAnswers(cfg, s, h, e);
      }
    case Completed(i, ok, writeOk) =>
      if i < |s.inflight| {
        CallbackAnswers(s.(inflight := s.inflight[..i] + s.inflight[i + 1..]), s.inflight[i], ok, writeOk);
      }
    case _ =>
  }

  // ----- all runs -----

  lemma DueNext(cfg: Config, input: bytes, before: seq<Event>, e: Event)
    ensures
      var s, t, h := Run(cfg, Init(input), before), Run(cfg, Init(input), before + [e]), History(cfg, input, before);
      Due(cfg, input, before + [e])
      == ForCompletions(t.completed) + ForHistory(cfg, h) + ForRefusals(cfg, input, before) + DueNow(cfg, s, h, e)
  {
    hide Run, ParsePacket, ForHandling, ForCompletions, ForHistory, ForRefusal;
    var s, h := Run(cfg, Init(input), before), History(cfg, input, before);
    assert (before + [e])[..|before|] == before;
    assert h + [] == h;
    if Reads(s, e) {
      HistoryNext(cfg, h, News(s, e)[0]);
    }
  }

  /** Every answer that falls due is given or lost, in all runs: PUBACK and PUBREC to successful
      publishes, PUBCOMP to PUBREL, PINGRESP to PINGREQ, CONNACK to CONNECT. */
  lemma {:induction false} AnswersBalance(cfg: Config, input: bytes, events: seq<Event>)
    ensures AllGiven(Run(cfg, Init(input), events).replies) + Lost(cfg, input, events) == Due(cfg, input, events)
  {
    hide Step, Due, News, WriteFails;
    if events == [] {
      NothingDue(cfg, input);
    } else {
      var before, e := events[..|events| - 1], events[|events| - 1];
      assert events == before + [e];
      AnswersBalance(cfg, input, before);
      LoginsDecide(cfg, input, before);
      BalanceStep(cfg, input, before, e);
    }
  }

  lemma NothingDue(cfg: Config, input: bytes)
    ensures Due(cfg, input, []) == multiset{} && AllGiven(Run(cfg, Init(input), []).replies) == multiset{}
  {
  }

  lemma BalanceStep(cfg: Config, input: bytes, before: seq<Event>, e: Event)
    requires
      var s := Run(cfg, Init(input), before);
      AllGiven(s.replies) + Lost(cfg, input, before) == Due(cfg, input, before)
    ensures
      var t := Run(cfg, Init(input), before + [e]);
      AllGiven(t.replies) + Lost(cfg, input, before + [e]) == Due(cfg, input, before + [e])
  {
    hide Step, News, WriteFails, AllGiven, ForCompletions, ForHistory, ForRefusals, DueNow, History;
    var s, h := Run(cfg, Init(input), before), History(cfg, input, before);
    assert (before + [e])[..|before|] == before;
    AlwaysFollows(cfg, input, before);
    StepAnswers(cfg, s, h, e);
    DueNext(cfg, input, before, e);
  }

  lemma {:induction false} NothingLost(cfg: Config, input: bytes, events: seq<Event>)
    requires Run(cfg, Init(input), events).open && forall e <- events :: !WriteFails(e)
    ensures Lost(cfg, input, events) == multiset{}
  {
    hide Step, Due, WriteFails;
    if events != [] {
      var before := events[..|events| - 1];
      assert events[|events| - 1] in events;
      StaysClosed(cfg, Run(cfg, Init(input), before), events[|events| - 1]);
      NothingLost(cfg, input, before);
    }
  }

  lemma StaysClosed(cfg: Config, s: State, e: Event)
    ensures Step(cfg, s, e).open ==> s.open
  {
    hide ParsePacket, Handle, RunCallback;
  }

  /** On an open connection whose writes have all gone through nothing is owed: the replies are exactly
      the answers due. */
  lemma AllAnswered(cfg: Config, input: bytes, events: seq<Event>)
    requires Run(cfg, Init(input), events).open && forall e <- events :: !WriteFails(e)
    ensures AllGiven(Run(cfg, Init(input), events).replies) == Due(cfg, input, events)
  {
    hide Run, Due, Lost, AllGiven, WriteFails;
    AnswersBalance(cfg, input, events);
    NothingLost(cfg, input, events);
  }
}
