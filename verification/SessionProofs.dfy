/** What holds in every run of a connection, whatever the environment does. */
module SessionProofs {
  import opened Wire
  import opened Header
  import opened Codec
  import opened ConnStates
  import opened Session
  import opened Connect
  import V311

  // ----- closed connections are silent -----

  /** Once closed, a connection stays closed and nothing more is written to it, although packets
      that were already buffered are still handled. */
  lemma {:induction false} ClosedStaysSilent(cfg: Config, s: State, events: seq<Event>)
    requires !s.open
    ensures var t := Run(cfg, s, events); !t.open && t.replies == s.replies
  {
    hide Step;
    if events != [] {
      var before := events[..|events| - 1];
      ClosedStaysSilent(cfg, s, before);
      ClosedStep(cfg, Run(cfg, s, before), events[|events| - 1]);
    }
  }

  lemma ClosedStep(cfg: Config, s: State, e: Event)
    requires !s.open
    ensures !Step(cfg, s, e).open && Step(cfg, s, e).replies == s.replies
  {
    hide ParsePacket, Handle, RunCallback;
  }

  // ----- the session -----

  /** The handled packets start with a CONNECT and all have its version, which is the connection's. */
  predicate TraceInv(s: State) {
    if s.handled == [] then s.version == 0
    else
      && s.version in {MQTT_3_1_1, MQTT_5}
      && s.handled[0].IsConnect() && s.handled[0].ProtocolLevel() == s.version
      && forall p <- s.handled :: p.Version() == s.version
  }

  /** From the first packet on, an open connection is an authenticated one. */
  predicate AuthInv(s: State) {
    s.handled != [] && s.open ==> s.authenticated
  }

  predicate CallInv(cfg: Config, s: State) {
    forall c <- s.calls :: c.authenticated || PUBLISH in cfg.allowUnauthenticated
  }

  lemma ReadVersion(s: bytes, version: byte)
    requires ParsePacket(s, version).Ok?
    ensures version != 0 ==> ParsePacket(s, version).value.Version() == version
    ensures version == 0 ==>
      var p := ParsePacket(s, 0).value; p.IsConnect() && p.ProtocolLevel() == p.Version()
  {
    hide Sniff;
    if version == 0 {
      var Ok(p, rest) := ParsePacket(s, 0);
      PeekTransparent(s, p, rest);
    }
  }

  lemma TraceStep(cfg: Config, s: State, e: Event)
    requires TraceInv(s)
    ensures TraceInv(Step(cfg, s, e))
  {
    hide ParsePacket, Handle, RunCallback;
    if e.Received? && s.serving && ParsePacket(s.input, s.version).Ok? {
      ReadVersion(s.input, s.version);
      ReadTyped(s.input, s.version);
    }
  }

  lemma CallStep(cfg: Config, s: State, e: Event)
    requires CallInv(cfg, s)
    ensures CallInv(cfg, Step(cfg, s, e))
  {
    hide ParsePacket, Handle;
    if e.Received? && s.serving && ParsePacket(s.input, s.version).Ok? {
      var Ok(p, rest) := ParsePacket(s.input, s.version);
      ReadTyped(s.input, s.version);
      HandleCalls(cfg, ReadOk(s, p, rest), p, e.login, e.publish, e.writeOk);
    }
  }

  lemma HandleCalls(cfg: Config, s: State, p: ControlPacket, login: Login, publish: Publishing, writeOk: bool)
    requires Typed(p) && CallInv(cfg, s)
    ensures CallInv(cfg, Handle(cfg, s, p, login, publish, writeOk))
  {
    hide HandlePublish, HandleConnect, Unauthenticated, Ack, Pingresp;
    if HandlerFor(cfg, p.Type()) == OnPublish {
      PublishCalls(cfg, s, p, publish, writeOk);
    } else if HandlerFor(cfg, p.Type()) == OnConnect {
      ConnectCalls(s, p, login, writeOk);
    }
  }

  lemma PublishCalls(cfg: Config, s: State, p: ControlPacket, publish: Publishing, writeOk: bool)
    requires IsPublish(p) && CallInv(cfg, s)
    ensures CallInv(cfg, HandlePublish(cfg, s, p, publish, writeOk))
  {
    hide RequestOf, AnswerTo;
  }

  lemma ConnectCalls(s: State, p: ControlPacket, login: Login, writeOk: bool)
    requires p.IsConnect()
    ensures HandleConnect(s, p, login, writeOk).calls == s.calls
  {
    hide Connack;
  }

  lemma AuthStep(cfg: Config, s: State, e: Event)
    requires CONNECT !in cfg.ignoreUnsupported
    requires TraceInv(s) && AuthInv(s)
    ensures AuthInv(Step(cfg, s, e))
  {
    hide ParsePacket, Handle;
    if e.Received? && s.serving && ParsePacket(s.input, s.version).Ok? {
      var Ok(p, rest) := ParsePacket(s.input, s.version);
      ReadVersion(s.input, s.version);
      ReadTyped(s.input, s.version);
      HandleAuth(cfg, ReadOk(s, p, rest), p, e.login, e.publish, e.writeOk);
    }
  }

  lemma HandleAuth(cfg: Config, s: State, p: ControlPacket, login: Login, publish: Publishing, writeOk: bool)
    requires CONNECT !in cfg.ignoreUnsupported
    requires Typed(p) && (s.open ==> s.authenticated || p.IsConnect())
    ensures var t := Handle(cfg, s, p, login, publish, writeOk); t.open ==> t.authenticated
  {
    hide RequestOf, Connack, Ack, Pingresp;
  }

  /** Session invariant: in every reachable state the handled trace is empty or starts with CONNECT,
      every packet in it has the version of that first one, the connection is closed or
      authenticated from then on, and every publisher call was made while authenticated or with
      PUBLISH in the allow list. CONNECT must not be among the ignored messages. */
  lemma {:induction false} SessionInvariant(cfg: Config, input: bytes, events: seq<Event>)
    ensures var s := Run(cfg, Init(input), events);
      TraceInv(s) && CallInv(cfg, s) && (CONNECT !in cfg.ignoreUnsupported ==> AuthInv(s))
  {
    if events != [] {
      var before := events[..|events| - 1];
      SessionInvariant(cfg, input, before);
      var s, e := Run(cfg, Init(input), before), events[|events| - 1];
      TraceStep(cfg, s, e);
      CallStep(cfg, s, e);
      if CONNECT !in cfg.ignoreUnsupported {
        AuthStep(cfg, s, e);
      }
    }
  }

  // ----- lifecycle -----

  /** (Active Idle)* */
  predicate Cycles(states: seq<ConnState>) {
    states == []
    || (|states| >= 2 && states[|states| - 2] == Active && states[|states| - 1] == Idle
        && Cycles(states[..|states| - 2]))
  }

  /** New (Active Idle)* */
  predicate Alive(l: seq<ConnState>) {
    l != [] && l[0] == New && Cycles(l[1..])
  }

  /** New (Active Idle)* Active? Closed */
  predicate Ended(l: seq<ConnState>) {
    var n := |l|;
    && n > 1 && l[n - 1] == Closed
    && (Alive(l[..n - 1]) || (n > 2 && l[n - 2] == Active && Alive(l[..n - 2])))
  }

  predicate LifecycleInv(s: State) {
    if s.serving then Alive(s.lifecycle) else Ended(s.lifecycle)
  }

  lemma AliveThen(l: seq<ConnState>)
    requires Alive(l)
    ensures Alive(l + [Active] + [Idle]) && Ended(l + [Active] + [Closed]) && Ended(l + [Closed])
  {
    var m := l + [Active] + [Idle];
    assert m[1..][..|m| - 3] == l[1..];
    var f := l + [Active] + [Closed];
    assert f[..|f| - 2] == l;
    var g := l + [Closed];
    assert g[..|g| - 1] == l;
  }

  lemma LifecycleStep(cfg: Config, s: State, e: Event)
    requires LifecycleInv(s)
    ensures LifecycleInv(Step(cfg, s, e))
  {
    hide ParsePacket, Handle, RunCallback, Alive, Ended;
    if s.serving {
      AliveThen(s.lifecycle);
      if e.Received? && ParsePacket(s.input, s.version).Ok? {
        ReadTyped(s.input, s.version);
      }
    }
  }

  /** Every run goes through the states New (Active Idle)* Active? Closed. */
  lemma {:induction false} Lifecycle(cfg: Config, input: bytes, events: seq<Event>)
    ensures LifecycleInv(Run(cfg, Init(input), events))
  {
    if events != [] {
      var before := events[..|events| - 1];
      Lifecycle(cfg, input, before);
      LifecycleStep(cfg, Run(cfg, Init(input), before), events[|events| - 1]);
    }
  }

  /** The states of so many rounds. */
  function Rounds(n: nat): seq<ConnState> {
    if n == 0 then [] else Rounds(n - 1) + [Active, Idle]
  }

  /** The loop tried to read what is not a packet. */
  predicate FailedRead(s: State, e: Event) {
    e.Received? && s.serving && ParsePacket(s.input, s.version).Err?
  }

  predicate ReadFailedIn(cfg: Config, input: bytes, events: seq<Event>) {
    events != [] &&
    (ReadFailedIn(cfg, input, events[..|events| - 1])
     || FailedRead(Run(cfg, Init(input), events[..|events| - 1]), events[|events| - 1]))
  }

  /** What the states say of a connection that has handled `n` packets. */
  function States(n: nat, serving: bool, failed: bool): seq<ConnState> {
    [New] + Rounds(n) + if serving then [] else if failed then [Active, Closed] else [Closed]
  }

  lemma StatesStep(cfg: Config, s: State, e: Event, failed: bool)
    requires s.lifecycle == States(|s.handled|, s.serving, failed) && (failed ==> !s.serving)
    ensures var t, f := Step(cfg, s, e), failed || FailedRead(s, e);
      t.lifecycle == States(|t.handled|, t.serving, f) && (f ==> !t.serving)
  {
    hide ParsePacket, Handle, RunCallback;
    if e.Received? && s.serving && ParsePacket(s.input, s.version).Ok? {
      ReadTyped(s.input, s.version);
    }
  }

  /** The states exactly: one round of Active and Idle for each packet handled, one more Active if the
      loop has ended in a failed read, and Closed if it has ended at all. */
  lemma {:induction false} LifecycleExactly(cfg: Config, input: bytes, events: seq<Event>)
    ensures
      var s, failed := Run(cfg, Init(input), events), ReadFailedIn(cfg, input, events);
      s.lifecycle == States(|s.handled|, s.serving, failed) && (failed ==> !s.serving)
  {
    hide Step, FailedRead, States;
    if events == [] {
      NoStates();
    } else {
      var before := events[..|events| - 1];
      LifecycleExactly(cfg, input, before);
      StatesStep(cfg, Run(cfg, Init(input), before), events[|events| - 1], ReadFailedIn(cfg, input, before));
    }
  }

  lemma NoStates()
    ensures States(0, true, false) == [New]
  {
  }

  // ----- ignoring CONNECT -----

  const ANONYMOUS := P311(V311.Connect(
    NewHeader(CONNECT), VariableHeader([], MQTT_3_1_1, NO_FLAGS, 0), V311.NO_PAYLOAD))

  lemma AnonymousRead()
    ensures ParsePacket(ANONYMOUS.Frame(), 0) == Ok(ANONYMOUS.Written(), [])
    ensures ANONYMOUS.Written().Type() == CONNECT
  {
    assert ANONYMOUS.WellFormed();
    FrameRoundTrip(ANONYMOUS, []);
    assert ANONYMOUS.Frame() + [] == ANONYMOUS.Frame();
    PeekTransparent(ANONYMOUS.Frame(), ANONYMOUS.Written(), []);
  }

  lemma IgnoredConnectStaysOpen(cfg: Config)
    requires CONNECT in cfg.ignoreUnsupported
    ensures exists input, events :: !AuthInv(Run(cfg, Init(input), events))
  {
    hide ParsePacket, ControlPacket.Frame, ControlPacket.Written;
    AnonymousRead();
    var input, e := ANONYMOUS.Frame(), Received(LoginError, Publishing(true, true), true);
    var t := Step(cfg, Init(input), e);
    assert t.handled == [ANONYMOUS.Written()] && t.open && !t.authenticated;
    assert [e][..0] == [];
    assert Run(cfg, Init(input), [e]) == t;
  }

  /** Authentication from the first packet on holds in all runs exactly when CONNECT is not ignored:
      a handler told to ignore it leaves the connection open and unauthenticated. */
  lemma AuthenticatedIffConnectHandled(cfg: Config)
    ensures (forall input, events :: AuthInv(Run(cfg, Init(input), events))) <==> CONNECT !in cfg.ignoreUnsupported
  {
    hide Run, AuthInv;
    if CONNECT !in cfg.ignoreUnsupported {
      forall input, events
        ensures AuthInv(Run(cfg, Init(input), events))
      {
        SessionInvariant(cfg, input, events);
      }
    } else {
      IgnoredConnectStaysOpen(cfg);
    }
  }
}
