/** Asynchronous publishing refines synchronous publishing: the flags change when replies are
    written, not which. */
module SessionAsync {
  import opened Wire
  import opened Header
  import opened Codec
  import opened Session

  /** Every publish is taken and succeeds and every write goes through; logins are free. */
  predicate AllSucceed(events: seq<Event>) {
    forall e <- events ::
      || (e.Received? && e.publish == Publishing(true, true) && e.writeOk)
      || (e.Completed? && e.ok && e.writeOk)
  }

  /** The events of the run without its callbacks. */
  function Receives(events: seq<Event>): seq<Event> {
    if events == [] then []
    else Receives(events[..|events| - 1])
         + if events[|events| - 1].Received? then [events[|events| - 1]] else []
  }

  /** The replies still owed by callbacks in flight. */
  function Pending(inflight: seq<Callback>): multiset<ControlPacket> {
    if inflight == [] then multiset{}
    else Pending(inflight[..|inflight| - 1]) + multiset(AnswerTo(inflight[|inflight| - 1]))
  }

  lemma PendingAppend(inflight: seq<Callback>, c: Callback)
    ensures Pending(inflight + [c]) == Pending(inflight) + multiset(AnswerTo(c))
  {
    assert (inflight + [c])[..|inflight|] == inflight;
  }

  lemma WithoutOne<T>(xs: seq<T>, i: nat)
    requires i < |xs| - 1
    ensures var front := xs[..|xs| - 1];
      front[i] == xs[i] && xs[..i] + xs[i + 1..] == front[..i] + front[i + 1..] + [xs[|xs| - 1]]
  {
  }

  lemma {:induction false} PendingRemove(inflight: seq<Callback>, i: nat)
    requires i < |inflight|
    ensures Pending(inflight[..i] + inflight[i + 1..]) + multiset(AnswerTo(inflight[i])) == Pending(inflight)
  {
    hide AnswerTo;
    var n := |inflight| - 1;
    var front := inflight[..n];
    var without := inflight[..i] + inflight[i + 1..];
    if i == n {
      assert without == front;
    } else {
      PendingRemove(front, i);
      var shorter := front[..i] + front[i + 1..];
      WithoutOne(inflight, i);
      PendingAppend(shorter, inflight[n]);
    }
  }

  /** The states agree on everything but the callbacks, and what one has replied and still owes the
      other has replied. */
  predicate Refines(a: State, b: State) {
    && b.inflight == []
    && a.(inflight := [], completed := b.completed, replies := b.replies) == b
    && multiset(a.replies) + Pending(a.inflight) == multiset(b.replies)
  }

  lemma WriteRefines(a: State, b: State, reply: ControlPacket)
    requires Refines(a, b)
    ensures Refines(Write(a, reply, true), Write(b, reply, true))
  {
  }

  /** A successful callback moves its answer from the owed to the written ones. */
  lemma CallbackRefines(a: State, b: State, i: nat)
    requires Refines(a, b) && a.open && i < |a.inflight|
    ensures Refines(RunCallback(a.(inflight := a.inflight[..i] + a.inflight[i + 1..]), a.inflight[i], true, true), b)
  {
    hide Pending, AnswerTo;
    PendingRemove(a.inflight, i);
    AtMostOne(a.inflight[i]);
  }

  lemma AtMostOne(c: Callback)
    ensures AnswerTo(c) == [] || AnswerTo(c) == [AnswerTo(c)[0]]
  {
  }

  /** Queueing a callback and running it at once come to the same. */
  lemma PublishedRefines(a: State, b: State, c: Callback, async: bool)
    requires Refines(a, b) && a.open
    ensures Refines(if async then a.(inflight := a.inflight + [c]) else RunCallback(a, c, true, true),
                    RunCallback(b, c, true, true))
  {
    hide Pending;
    PendingAppend(a.inflight, c);
  }

  lemma PublishRefines(cfg: Config, a: State, b: State, p: ControlPacket)
    requires IsPublish(p) && Refines(a, b)
    requires HandlePublish(cfg.Synchronous(), b, p, Publishing(true, true), true).open
    ensures Refines(HandlePublish(cfg, a, p, Publishing(true, true), true),
                    HandlePublish(cfg.Synchronous(), b, p, Publishing(true, true), true))
  {
    hide RunCallback, RequestOf;
    var request := RequestOf(p, a.clientIdentifier);
    var c := Callback(p.Version(), request);
    var call := Call(c, true, a.authenticated);
    PublishedRefines(a.(calls := a.calls + [call]), b.(calls := b.calls + [call]), c,
                     cfg.IsPublishAsync(request.qos));
  }

  lemma ConnectRefines(a: State, b: State, p: ControlPacket, login: Login)
    requires p.IsConnect() && Refines(a, b)
    requires HandleConnect(b, p, login, true).open
    ensures Refines(HandleConnect(a, p, login, true), HandleConnect(b, p, login, true))
  {
    hide Write, ClientIdentifier, Connack;
    if login.LoginCode? {
      var id := ClientIdentifier(p);
      WriteRefines(a.(authenticated := true, clientIdentifier := id, idleTimeout := IdleTimeout(a, p)),
                   b.(authenticated := true, clientIdentifier := id, idleTimeout := IdleTimeout(b, p)),
                   Connack(p.Version(), login.returnCode));
    }
  }

  lemma HandleRefines(cfg: Config, a: State, b: State, p: ControlPacket, login: Login)
    requires Typed(p) && Refines(a, b)
    requires Handle(cfg.Synchronous(), b, p, login, Publishing(true, true), true).open
    ensures Refines(Handle(cfg, a, p, login, Publishing(true, true), true),
                    Handle(cfg.Synchronous(), b, p, login, Publishing(true, true), true))
  {
    hide HandlePublish, HandleConnect, Write, Refines;
    assert HandlerFor(cfg, p.Type()) == HandlerFor(cfg.Synchronous(), p.Type());
    SameRules(cfg, a, b);
    match HandlerFor(cfg, p.Type())
    case OnPublish => PublishRefines(cfg, a, b, p);
    case OnConnect => ConnectRefines(a, b, p, login);
    case OnPublishRelease => WriteRefines(a, b, Ack(p.Version(), PUBCOMP, MessageID(p)));
    case OnPing => WriteRefines(a, b, Pingresp(p.Version()));
    case OnIgnored =>
    case OnDisconnect =>
    case NoHandler =>
  }

  lemma SameRules(cfg: Config, a: State, b: State)
    requires Refines(a, b)
    ensures forall t :: Unauthenticated(cfg, a, t) == Unauthenticated(cfg.Synchronous(), b, t)
  {
  }

  lemma ReceiveRefines(cfg: Config, a: State, b: State, login: Login)
    requires Refines(a, b)
    requires Receive(cfg.Synchronous(), b, login, Publishing(true, true), true).open
    ensures Refines(Receive(cfg, a, login, Publishing(true, true), true),
                    Receive(cfg.Synchronous(), b, login, Publishing(true, true), true))
  {
    hide ParsePacket, Handle;
    var Ok(p, rest) := ParsePacket(b.input, b.version);
    ReadTyped(b.input, b.version);
    HandleRefines(cfg, ReadOk(a, p, rest), ReadOk(b, p, rest), p, login);
  }

  lemma OpenBefore(cfg: Config, s: State, e: Event)
    ensures Step(cfg, s, e).open ==> s.open
  {
    hide ParsePacket, Handle, RunCallback;
  }

  /** A received packet is a step of both runs, a callback one of the asynchronous run alone. */
  lemma StepRefines(cfg: Config, a: State, b: State, e: Event)
    requires Refines(a, b) && b.open && AllSucceed([e])
    requires e.Received? ==> Step(cfg.Synchronous(), b, e).open
    ensures Refines(Step(cfg, a, e), if e.Received? then Step(cfg.Synchronous(), b, e) else b)
  {
    hide Receive, RunCallback;
    assert e in [e];
    if e.Received? && b.serving {
      ReceiveRefines(cfg, a, b, e.login);
    } else if e.Completed? && e.index < |a.inflight| {
      CallbackRefines(a, b, e.index);
    }
  }

  lemma {:induction false} RunRefines(cfg: Config, s: State, events: seq<Event>)
    requires s.inflight == [] && AllSucceed(events)
    requires Run(cfg.Synchronous(), s, Receives(events)).open
    ensures Refines(Run(cfg, s, events), Run(cfg.Synchronous(), s, Receives(events)))
  {
    hide Step, Refines;
    if events == [] {
      assert Refines(s, s) by { OneRefines(s); }
    } else {
      var n := |events| - 1;
      var before, e := events[..n], events[n];
      var received := Receives(before);
      var b := Run(cfg.Synchronous(), s, received);
      assert e in events;
      if e.Received? {
        assert (received + [e])[..|received|] == received;
        OpenBefore(cfg.Synchronous(), b, e);
      } else {
        assert received + [] == received;
      }
      RunRefines(cfg, s, before);
      StepRefines(cfg, Run(cfg, s, before), b, e);
    }
  }

  lemma OneRefines(s: State)
    requires s.inflight == []
    ensures Refines(s, s)
  {
  }

  /** Async replies refine sync replies. Take any input, any logins and any asynchronous flags, and
      let the callbacks run at any time and in any order. If the same packets, published
      synchronously, keep the connection open, then so do they here, the same packets are handled
      and published in the same order, and once all callbacks have run the replies are a
      permutation of the synchronous run's replies. */
  lemma AsyncRefinesSync(cfg: Config, input: bytes, events: seq<Event>)
    requires AllSucceed(events)
    requires Run(cfg.Synchronous(), Init(input), Receives(events)).open
    ensures var a, b := Run(cfg, Init(input), events), Run(cfg.Synchronous(), Init(input), Receives(events));
      && a.open && a.handled == b.handled && a.calls == b.calls
      && (a.inflight == [] ==> multiset(a.replies) == multiset(b.replies))
  {
    hide Run;
    RunRefines(cfg, Init(input), events);
  }
}
