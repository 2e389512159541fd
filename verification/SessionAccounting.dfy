/** Acknowledgements are conserved: per packet identifier, no more are written than publishes
    completed, and no more publishes complete than were accepted, whatever the interleaving. */
module SessionAccounting {
  import opened Wire
  import opened Header
  import opened Codec
  import opened ConnStates
  import opened Session

  /** An acknowledgement of the given type for the given packet identifier. */
  datatype Key = Key(messageType: byte, id: uint16)

  /** The keys of all elements, with their multiplicities. */
  function Tally<T>(xs: seq<T>, keys: T -> multiset<Key>): multiset<Key> {
    if xs == [] then multiset{} else Tally(xs[..|xs| - 1], keys) + keys(xs[|xs| - 1])
  }

  lemma TallyAppend<T>(xs: seq<T>, x: T, keys: T -> multiset<Key>)
    ensures Tally(xs + [x], keys) == Tally(xs, keys) + keys(x)
  {
    assert (xs + [x])[..|xs|] == xs;
  }

  lemma {:induction false} TallyRemove<T>(xs: seq<T>, i: nat, keys: T -> multiset<Key>)
    requires i < |xs|
    ensures Tally(xs[..i] + xs[i + 1..], keys) + keys(xs[i]) == Tally(xs, keys)
  {
    var n := |xs| - 1;
    if i == n {
      assert xs[..i] + xs[i + 1..] == xs[..n];
    } else {
      TallyRemove(xs[..n], i, keys);
      assert xs[..i] + xs[i + 1..] == (xs[..n][..i] + xs[..n][i + 1..]) + [xs[n]];
      TallyAppend(xs[..n][..i] + xs[..n][i + 1..], xs[n], keys);
    }
  }

  lemma {:induction false} TallyAtMost<T>(xs: seq<T>, small: T -> multiset<Key>, large: T -> multiset<Key>)
    requires forall x <- xs :: small(x) <= large(x)
    ensures Tally(xs, small) <= Tally(xs, large)
  {
    if xs != [] {
      TallyAtMost(xs[..|xs| - 1], small, large);
      assert xs[|xs| - 1] in xs;
    }
  }

  /** The acknowledgement a publish asks for. */
  function Owed(qos: byte, id: uint16): multiset<Key> {
    if qos == 1 then multiset{Key(PUBACK, id)}
    else if qos == 2 then multiset{Key(PUBREC, id)}
    else multiset{}
  }

  function CallbackKeys(c: Callback): multiset<Key> {
    Owed(c.request.qos, c.request.messageID)
  }

  function AcceptedKeys(c: Call): multiset<Key> {
    if c.accepted then CallbackKeys(c.callback) else multiset{}
  }

  function CompletedKeys(c: Completion): multiset<Key> {
    CallbackKeys(c.callback)
  }

  function SuccessKeys(c: Completion): multiset<Key> {
    if c.ok then CallbackKeys(c.callback) else multiset{}
  }

  /** What a handled packet may be acknowledged with: a PUBLISH by its QoS, a PUBREL by PUBCOMP. */
  function PublishKeys(p: ControlPacket): multiset<Key> {
    if IsPublish(p) then Owed(p.Header().qos, MessageID(p)) else multiset{}
  }

  function ReleaseKeys(p: ControlPacket): multiset<Key> {
    if IsPubrel(p) then multiset{Key(PUBCOMP, MessageID(p))} else multiset{}
  }

  /** The acknowledgement a reply is. */
  function ReplyKeys(p: ControlPacket): multiset<Key> {
    match p
    case P311(q) => if q.Ack? then multiset{Key(p.Type(), q.messageID)} else multiset{}
    case P5(q) => if q.Ack? then multiset{Key(p.Type(), q.messageID)} else multiset{}
  }

  /** The tallies of a state. */
  datatype Books = Books(
    replies: multiset<Key>,
    successes: multiset<Key>,
    completed: multiset<Key>,
    inflight: multiset<Key>,
    accepted: multiset<Key>)
  {
    /** Accepted publishes are completed or in flight and were asked for; replies are covered by
        successes and releases. */
    predicate Balanced(publishes: multiset<Key>, releases: multiset<Key>) {
      && accepted <= publishes
      && accepted == completed + inflight
      && replies <= successes + releases
    }
  }

  function BooksOf(s: State): Books {
    Books(Tally(s.replies, ReplyKeys), Tally(s.completed, SuccessKeys), Tally(s.completed, CompletedKeys),
          Tally(s.inflight, CallbackKeys), Tally(s.calls, AcceptedKeys))
  }

  predicate Conserved(s: State) {
    BooksOf(s).Balanced(Tally(s.handled, PublishKeys), Tally(s.handled, ReleaseKeys))
  }

  /** Nothing that is counted differs. */
  lemma SameBooks(s: State, t: State)
    requires t.replies == s.replies && t.completed == s.completed && t.inflight == s.inflight && t.calls == s.calls
    ensures BooksOf(t) == BooksOf(s)
  {
  }

  lemma WriteBooks(s: State, reply: ControlPacket, writeOk: bool)
    ensures var b, d := BooksOf(s), BooksOf(Write(s, reply, writeOk));
      d == b.(replies := d.replies) && d.replies <= b.replies + ReplyKeys(reply)
  {
    TallyAppend(s.replies, reply, ReplyKeys);
  }

  lemma CallBooks(s: State, call: Call)
    ensures var b := BooksOf(s);
      BooksOf(s.(calls := s.calls + [call])) == b.(accepted := b.accepted + AcceptedKeys(call))
  {
    TallyAppend(s.calls, call, AcceptedKeys);
  }

  lemma QueueBooks(s: State, c: Callback)
    ensures var b := BooksOf(s);
      BooksOf(s.(inflight := s.inflight + [c])) == b.(inflight := b.inflight + CallbackKeys(c))
  {
    TallyAppend(s.inflight, c, CallbackKeys);
  }

  lemma DequeueBooks(s: State, i: nat)
    requires i < |s.inflight|
    ensures var b, d := BooksOf(s), BooksOf(s.(inflight := s.inflight[..i] + s.inflight[i + 1..]));
      d == b.(inflight := d.inflight) && b.inflight == d.inflight + CallbackKeys(s.inflight[i])
  {
    TallyRemove(s.inflight, i, CallbackKeys);
  }

  lemma CompletionBooks(s: State, c: Completion)
    ensures var b := BooksOf(s);
      BooksOf(s.(completed := s.completed + [c])) ==
        b.(completed := b.completed + CompletedKeys(c), successes := b.successes + SuccessKeys(c))
  {
    TallyAppend(s.completed, c, SuccessKeys);
    TallyAppend(s.completed, c, CompletedKeys);
  }

  /** A callback completes its publish and replies only to a success, with what the publish asked for. */
  lemma CallbackBooks(s: State, c: Callback, ok: bool, writeOk: bool)
    ensures var b, d := BooksOf(s), BooksOf(RunCallback(s, c, ok, writeOk));
      var success := if ok then CallbackKeys(c) else multiset{};
      && d == Books(d.replies, b.successes + success, b.completed + CallbackKeys(c), b.inflight, b.accepted)
      && d.replies <= b.replies + success
  {
    hide BooksOf, Write;
    var s1 := s.(completed := s.completed + [Completion(c, ok)]);
    CompletionBooks(s, Completion(c, ok));
    if ok && AnswerTo(c) != [] {
      WriteBooks(s1, AnswerTo(c)[0], writeOk);
    }
  }

  lemma PublishBooks(cfg: Config, s: State, p: ControlPacket, publish: Publishing, writeOk: bool,
                     publishes: multiset<Key>, releases: multiset<Key>)
    requires IsPublish(p) && BooksOf(s).Balanced(publishes, releases)
    ensures BooksOf(HandlePublish(cfg, s, p, publish, writeOk)).Balanced(publishes + PublishKeys(p), releases)
  {
    hide RunCallback, BooksOf, Close, RequestOf, CallbackKeys, PublishKeys, Unauthenticated;
    var request := RequestOf(p, s.clientIdentifier);
    var c := Callback(p.Version(), request);
    AskedFor(p, s.clientIdentifier);
    var call := Call(c, publish.accepted, s.authenticated);
    var s1 := s.(calls := s.calls + [call]);
    CallBooks(s, call);
    QueueBooks(s1, c);
    CallbackBooks(s1, c, publish.ok, writeOk);
    CloseBooks(s);
    CloseBooks(s1);
  }

  lemma AskedFor(p: ControlPacket, clientID: bytes)
    requires IsPublish(p)
    ensures CallbackKeys(Callback(p.Version(), RequestOf(p, clientID))) == PublishKeys(p)
  {
  }

  lemma CloseBooks(s: State)
    ensures BooksOf(Close(s)) == BooksOf(s)
  {
  }

  /** All other handlers write at most one reply that is an acknowledgement: PUBCOMP for PUBREL. */
  lemma OtherBooks(cfg: Config, s: State, p: ControlPacket, login: Login, publish: Publishing, writeOk: bool)
    requires Typed(p) && HandlerFor(cfg, p.Type()) != OnPublish
    ensures var b, d := BooksOf(s), BooksOf(Handle(cfg, s, p, login, publish, writeOk));
      d == b.(replies := d.replies) && d.replies <= b.replies + ReleaseKeys(p)
  {
    hide BooksOf, HandleConnect, HandlePublishRelease, HandlePing, Close;
    CloseBooks(s);
    match HandlerFor(cfg, p.Type())
    case OnPublishRelease => ReleaseBooks(cfg, s, p, writeOk);
    case OnPing => PingBooks(cfg, s, p, writeOk);
    case OnConnect => ConnectBooks(s, p, login, writeOk);
    case _ =>
  }

  lemma ReleaseBooks(cfg: Config, s: State, p: ControlPacket, writeOk: bool)
    requires IsPubrel(p)
    ensures var b, d := BooksOf(s), BooksOf(HandlePublishRelease(cfg, s, p, writeOk));
      d == b.(replies := d.replies) && d.replies <= b.replies + ReleaseKeys(p)
  {
    hide BooksOf, Write, Close, Unauthenticated;
    CloseBooks(s);
    WriteBooks(s, Ack(p.Version(), PUBCOMP, MessageID(p)), writeOk);
  }

  lemma PingBooks(cfg: Config, s: State, p: ControlPacket, writeOk: bool)
    ensures BooksOf(HandlePing(cfg, s, p, writeOk)) == BooksOf(s)
  {
    TallyAppend(s.replies, Pingresp(p.Version()), ReplyKeys);
  }

  lemma ConnackBooks(s: State, version: byte, returnCode: byte, writeOk: bool)
    ensures BooksOf(Write(s, Connack(version, returnCode), writeOk)) == BooksOf(s)
  {
    TallyAppend(s.replies, Connack(version, returnCode), ReplyKeys);
  }

  lemma ConnectBooks(s: State, p: ControlPacket, login: Login, writeOk: bool)
    requires p.IsConnect()
    ensures BooksOf(HandleConnect(s, p, login, writeOk)) == BooksOf(s)
  {
    hide BooksOf, Write, Close, Connack, ClientIdentifier, IdleTimeout;
    CloseBooks(s);
    if login.LoginCode? {
      var s1 := s.(authenticated := login.returnCode == 0, clientIdentifier := ClientIdentifier(p),
                   idleTimeout := IdleTimeout(s, p));
      SameBooks(s, s1);
      ConnackBooks(s1, p.Version(), login.returnCode, writeOk);
      CloseBooks(Write(s1, Connack(p.Version(), login.returnCode), writeOk));
    }
  }

  lemma HandleBooks(cfg: Config, s: State, p: ControlPacket, login: Login, publish: Publishing, writeOk: bool,
                    publishes: multiset<Key>, releases: multiset<Key>)
    requires Typed(p) && BooksOf(s).Balanced(publishes, releases)
    ensures BooksOf(Handle(cfg, s, p, login, publish, writeOk))
            .Balanced(publishes + PublishKeys(p), releases + ReleaseKeys(p))
  {
    hide HandlePublish, HandleConnect, HandlePublishRelease, HandlePing, BooksOf;
    if HandlerFor(cfg, p.Type()) == OnPublish {
      PublishBooks(cfg, s, p, publish, writeOk, publishes, releases);
    } else {
      OtherBooks(cfg, s, p, login, publish, writeOk);
    }
  }

  lemma StepConserved(cfg: Config, s: State, e: Event)
    requires Conserved(s)
    ensures Conserved(Step(cfg, s, e))
  {
    hide Receive, RunCallback, Conserved;
    match e
    case Received(login, publish, writeOk) =>
      if s.serving {
        ReceiveConserved(cfg, s, login, publish, writeOk);
      }
    case Completed(i, ok, writeOk) =>
      if i < |s.inflight| {
        CompleteConserved(s, i, ok, writeOk);
      }
    case _ => QuietConserved(cfg, s, e);
  }

  lemma QuietConserved(cfg: Config, s: State, e: Event)
    requires Conserved(s) && !e.Received? && !e.Completed?
    ensures Conserved(Step(cfg, s, e))
  {
    hide BooksOf, Receive, RunCallback;
    SameBooks(s, Step(cfg, s, e));
  }

  lemma ReceiveConserved(cfg: Config, s: State, login: Login, publish: Publishing, writeOk: bool)
    requires Conserved(s)
    ensures Conserved(Receive(cfg, s, login, publish, writeOk))
  {
    hide ParsePacket, Handle, BooksOf, Write;
    var t := Receive(cfg, s, login, publish, writeOk);
    match ParsePacket(s.input, s.version)
    case Ok(p, rest) =>
      ReadTyped(s.input, s.version);
      var s1 := ReadOk(s, p, rest);
      TallyAppend(s.handled, p, PublishKeys);
      TallyAppend(s.handled, p, ReleaseKeys);
      SameBooks(s, s1);
      HandleBooks(cfg, s1, p, login, publish, writeOk, Tally(s.handled, PublishKeys), Tally(s.handled, ReleaseKeys));
      SameBooks(Handle(cfg, s1, p, login, publish, writeOk), t);
    case Err(error) =>
      var s1 := Enter(s, Active);
      SameBooks(s, s1);
      if error.Refused? {
        var reply := Connack(MQTT_3_1_1, error.returnCode);
        WriteBooks(s1, reply, writeOk);
        SameBooks(Write(s1, reply, writeOk), t);
      } else {
        SameBooks(s1, t);
      }
  }

  lemma CompleteConserved(s: State, i: nat, ok: bool, writeOk: bool)
    requires Conserved(s) && i < |s.inflight|
    ensures Conserved(RunCallback(s.(inflight := s.inflight[..i] + s.inflight[i + 1..]), s.inflight[i], ok, writeOk))
  {
    hide BooksOf, RunCallback;
    DequeueBooks(s, i);
    CallbackBooks(s.(inflight := s.inflight[..i] + s.inflight[i + 1..]), s.inflight[i], ok, writeOk);
  }

  lemma {:induction false} AlwaysConserved(cfg: Config, input: bytes, events: seq<Event>)
    ensures Conserved(Run(cfg, Init(input), events))
  {
    if events != [] {
      var before := events[..|events| - 1];
      AlwaysConserved(cfg, input, before);
      StepConserved(cfg, Run(cfg, Init(input), before), events[|events| - 1]);
    }
  }

  /** Only PUBREL asks for PUBCOMP, and only PUBREL. */
  lemma {:induction false} KeyTypes(handled: seq<ControlPacket>, completed: seq<Completion>, id: uint16)
    ensures Tally(handled, ReleaseKeys)[Key(PUBACK, id)] == 0 && Tally(handled, ReleaseKeys)[Key(PUBREC, id)] == 0
    ensures Tally(completed, SuccessKeys)[Key(PUBCOMP, id)] == 0
    decreases |handled| + |completed|
  {
    if handled != [] {
      KeyTypes(handled[..|handled| - 1], completed, id);
    } else if completed != [] {
      KeyTypes(handled, completed[..|completed| - 1], id);
    }
  }

  /** Acknowledgement conservation, in every reachable state and for every packet identifier: the
      PUBACKs written are at most the successful completions of QoS 1 publishes with it, those are
      at most the accepted ones, and those at most the QoS 1 PUBLISHes handled. The same holds of
      PUBREC at QoS 2, and of PUBCOMP against PUBREL. QoS 0 and invalid QoS have no keys at all. */
  lemma AcknowledgementConservation(cfg: Config, input: bytes, events: seq<Event>, id: uint16)
    ensures var s := Run(cfg, Init(input), events);
      && (forall k <- [Key(PUBACK, id), Key(PUBREC, id)] ::
            && Tally(s.replies, ReplyKeys)[k] <= Tally(s.completed, SuccessKeys)[k]
            && Tally(s.completed, SuccessKeys)[k] <= Tally(s.calls, AcceptedKeys)[k]
            && Tally(s.calls, AcceptedKeys)[k] <= Tally(s.handled, PublishKeys)[k])
      && Tally(s.replies, ReplyKeys)[Key(PUBCOMP, id)] <= Tally(s.handled, ReleaseKeys)[Key(PUBCOMP, id)]
  {
    hide Tally, Run;
    var s := Run(cfg, Init(input), events);
    AlwaysConserved(cfg, input, events);
    KeyTypes(s.handled, s.completed, id);
    TallyAtMost(s.completed, SuccessKeys, CompletedKeys);
  }
}
