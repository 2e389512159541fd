/** Particular runs: one `Serve` call with the listener 0, one `Shutdown` call and the connection 7. */
module ServerRuns {
  import opened ConnStates
  import opened Server

  function Two(pc: ServePc, stop: StopPc, g: Gate, c: Conns): State {
    State(g, c, map[0 := pc], map[0 := stop])
  }

  lemma NextServe(s: State, actions: seq<Action>, o: Outcome<ServePc>, stop: StopPc, step: ServeStep)
    returns (more: seq<Action>, o': Outcome<ServePc>)
    requires Run(s, actions) == Two(o.pc, stop, o.gate, o.conns)
    ensures o' == StepServe(0, o.pc, o.gate, o.conns, step)
    ensures Run(s, more) == Two(o'.pc, stop, o'.gate, o'.conns)
  {
    hide StepServe;
    o' := StepServe(0, o.pc, o.gate, o.conns, step);
    more := actions + [ServeAction(0, step)];
    assert more[..|more| - 1] == actions;
    assert map[0 := o.pc][0 := o'.pc] == map[0 := o'.pc];
  }

  lemma NextStop(s: State, actions: seq<Action>, o: Outcome<StopPc>, serve: ServePc, step: StopStep)
    returns (more: seq<Action>, o': Outcome<StopPc>)
    requires Run(s, actions) == Two(serve, o.pc, o.gate, o.conns)
    ensures o' == StepStop(0, o.pc, o.gate, o.conns, step)
    ensures Run(s, more) == Two(serve, o'.pc, o'.gate, o'.conns)
  {
    hide StepStop;
    o' := StepStop(0, o.pc, o.gate, o.conns, step);
    more := actions + [StopAction(0, step)];
    assert more[..|more| - 1] == actions;
    assert map[0 := o.pc][0 := o'.pc] == map[0 := o'.pc];
  }

  lemma NextConn(s: State, actions: seq<Action>, serve: ServePc, stop: StopPc, g: Gate, c: Conns, step: ConnStep)
    returns (more: seq<Action>, c': Conns)
    requires Run(s, actions) == Two(serve, stop, g, c) && 7 in c.tracked
    ensures c' == StepConn(7, g, c, step)
    ensures Run(s, more) == Two(serve, stop, g, c')
  {
    hide StepConn;
    c' := StepConn(7, g, c, step);
    more := actions + [ConnAction(7, step)];
    assert more[..|more| - 1] == actions;
  }

  lemma EmptyRun(s: State)
    ensures Run(s, []) == s
  {
  }

  /** The listener opens and accepts the connection. */
  lemma OneAccepted() returns (s: State, actions: seq<Action>, g: Gate, c: Conns)
    ensures Init(s) && Run(s, actions) == Two(Accepted(7), Called(Shutdown), g, c)
    ensures g == Gate(false, Free, {0}, {}, NoChan, 0, false) && c == Conns(map[7 := 0], map[], {}, {}, 0)
  {
    hide Run;
    var o := Outcome(Starting, Gate(false, Free, {}, {}, NoChan, 0, false), Conns(map[], map[], {}, {}, 0));
    s := Two(Starting, Called(Shutdown), o.gate, o.conns);
    actions := [];
    assert Run(s, actions) == s by { EmptyRun(s); }
    actions, o := NextServe(s, actions, o, Called(Shutdown), Lock);
    actions, o := NextServe(s, actions, o, Called(Shutdown), Load);
    actions, o := NextServe(s, actions, o, Called(Shutdown), Insert);
    actions, o := NextServe(s, actions, o, Called(Shutdown), Accept(7));
    g, c := o.gate, o.conns;
  }

  /** `Shutdown` runs up to its first poll, whatever the connection does. */
  lemma ThenSection(s: State, actions: seq<Action>, pc: ServePc, c: Conns)
    returns (more: seq<Action>, g: Gate)
    requires Run(s, actions) == Two(pc, Called(Shutdown), Gate(false, Free, {0}, {}, NoChan, 0, false), c)
    ensures Run(s, more) == Two(pc, Polling, g, c)
    ensures g == Gate(true, Free, {0}, {0}, ClosedChan, 1, true)
  {
    hide Run, Two;
    var p := Outcome(Called(Shutdown), Gate(false, Free, {0}, {}, NoChan, 0, false), c);
    more, p := NextStop(s, actions, p, pc, SetFlag);
    more, p := NextStop(s, more, p, pc, LockStop);
    more, p := NextStop(s, more, p, pc, CloseOneListener(0));
    assert p.pc == ClosingListeners(Shutdown, {}) && p.gate.closedListeners == {0} && p.conns == c;
    more, p := NextStop(s, more, p, pc, CloseOneListener(0));
    more, p := NextStop(s, more, p, pc, CloseDone);
    more, p := NextStop(s, more, p, pc, Unlock);
    g := p.gate;
  }

  /** The sweep of an empty map is about to unlock while the accepted connection waits for the lock. */
  lemma OneAcceptedThenSwept() returns (s: State, actions: seq<Action>)
    ensures Init(s) && 0 in Run(s, actions).stops && Run(s, actions).stops[0] == Sweeping({}, true)
    ensures 0 in Run(s, actions).serves && Run(s, actions).serves[0] == Accepted(7)
  {
    hide Run, Init;
    var g: Gate, c: Conns;
    s, actions, g, c := OneAccepted();
    actions, g := ThenSection(s, actions, Accepted(7), c);
    var p := Outcome(Polling, g, c);
    actions, p := NextStop(s, actions, p, Accepted(7), LockSweep);
  }

  /** The connection has handled a request and is idle. */
  lemma OneIdle() returns (s: State, actions: seq<Action>, g: Gate, c: Conns)
    ensures Init(s) && Run(s, actions) == Two(Accepting, Called(Shutdown), g, c)
    ensures g == Gate(false, Free, {0}, {}, NoChan, 0, false)
    ensures c == Conns(map[7 := 0], map[7 := Track(Serving, Word(Idle, 2))], {7}, {}, 1)
  {
    hide Run, Init, Two;
    s, actions, g, c := OneAccepted();
    var o := Outcome(Accepted(7), g, c);
    actions, o := NextServe(s, actions, o, Called(Shutdown), TrackConn);
    assert o.conns.tracked == map[7 := Track(NotStarted, Word(New, 0))];
    actions, o := NextServe(s, actions, o, Called(Shutdown), Spawn(1));
    assert o.conns.tracked == map[7 := Track(Serving, Word(New, 1))];
    actions, c := NextConn(s, actions, Accepting, Called(Shutdown), g, o.conns, Store(Active, 1));
    assert c.tracked == map[7 := Track(Serving, Word(Active, 1))];
    actions, c := NextConn(s, actions, Accepting, Called(Shutdown), g, c, Store(Idle, 2));
    assert c.tracked == map[7 := Track(Serving, Word(Idle, 2))];
  }

  /** The sweep has loaded the word of the idle connection, which then takes up a request. */
  lemma IdleThenActive() returns (s: State, actions: seq<Action>, g: Gate, c: Conns)
    ensures Init(s) && Run(s, actions) == Two(Accepting, Looked({}, true, 7, Word(Idle, 2)), g, c)
    ensures g.holder == HeldByStop(0) && c.active == {7} && c.tracked == map[7 := Track(Serving, Word(Active, 3))]
  {
    hide Run, Init, Two;
    s, actions, g, c := OneIdle();
    actions, g := ThenSection(s, actions, Accepting, c);
    var p := Outcome(Polling, g, c);
    actions, p := NextStop(s, actions, p, Accepting, LockSweep);
    actions, p := NextStop(s, actions, p, Accepting, LoadWord(7));
    assert p.pc == Looked({}, true, 7, Word(Idle, 2));
    g := p.gate;
    actions, c := NextConn(s, actions, Accepting, p.pc, g, c, Store(Active, 3));
    assert c.tracked == map[7 := Track(Serving, Word(Active, 3))];
  }
}
