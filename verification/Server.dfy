/** The server's connection and listener tracking as a machine of atomic steps: any number of
    `Serve` calls, of `Shutdown` and `Close` calls and of connection goroutines, interleaved in any
    order. A step is a section under the mutex that touches only what the mutex protects, or a
    single access to something it does not: the shutdown flag, a listener, a socket, a
    connection's state word. Sections with such accesses are split, with the mutex held. */
module Server {
  import opened ConnStates

  /** A `Serve` call and its listener; a `Shutdown` or `Close` call; an accepted connection. */
  type Id = nat

  // ----- what the calls share -----

  datatype Chan = NoChan | OpenChan | ClosedChan

  datatype Holder = Free | HeldByServe(serve: Id) | HeldByStop(stop: Id)

  /** The flag, the mutex, the listeners and the done channel. `closes` and `ended` only record: how
      often the done channel was closed, and whether the locked section of some `Shutdown` or
      `Close` has ended. */
  datatype Gate = Gate(
    inShutdown: bool,
    holder: Holder,
    listeners: set<Id>,
    closedListeners: set<Id>,
    doneChan: Chan,
    closes: nat,
    ended: bool)

  /** A state word: the state and the second it was stored; (New, 0) before the first store. */
  datatype Word = Word(state: ConnState, unixSec: int)

  /** Where a connection's goroutine stands. */
  datatype ConnPc = NotStarted | Serving | SocketShut | Untracked | Gone

  datatype Track = Track(pc: ConnPc, word: Word)

  /** The tracking map `active` and the counter `total`, every connection that ever entered it
      (`tracked`), and the sockets closed. `acceptedBy` only records which `Serve` call got a
      connection. */
  datatype Conns = Conns(
    acceptedBy: map<Id, Id>,
    tracked: map<Id, Track>,
    active: set<Id>,
    closed: set<Id>,
    total: nat)

  datatype Outcome<P> = Outcome(pc: P, gate: Gate, conns: Conns)

  // ----- Serve -----

  datatype ServeResult = ErrServerClosed | AcceptError

  /** Where a `Serve` call stands; `closed` says whether its listener was closed when `Accept`
      failed, `temporary` whether the error was a temporary one. */
  datatype ServePc =
    | Starting
    | Tracking                                      // holds the mutex
    | Loaded(shuttingDown: bool)                    // holds the mutex
    | Accepting
    | Accepted(conn: Id)
    | Registered(conn: Id)
    | AcceptFailed(temporary: bool, closed: bool)
    | GotDoneChan(temporary: bool, closed: bool)
    | Returning(result: ServeResult)
    | Closing(result: ServeResult)
    | Returned(result: ServeResult)

  datatype ServeStep =
    | Lock
    | Load
    | Insert
    | Accept(conn: Id)
    | FailAccept(temporary: bool)
    | TrackConn
    | Spawn(now: int)
    | GetDoneChan
    | Select
    | Untrack
    | CloseListener

  function StepServe(t: Id, pc: ServePc, g: Gate, c: Conns, step: ServeStep): Outcome<ServePc> {
    match step
    // trackListener(&l, true): lock, load the flag, insert or refuse, unlock
    case Lock =>
      if pc.Starting? && g.holder == Free then Outcome(Tracking, g.(holder := HeldByServe(t)), c)
      else Outcome(pc, g, c)
    case Load =>
      Outcome(if pc.Tracking? then Loaded(g.inShutdown) else pc, g, c)
    case Insert =>
      if !pc.Loaded? then Outcome(pc, g, c)
      else if pc.shuttingDown then Outcome(Closing(ErrServerClosed), g.(holder := Free), c)
      else Outcome(Accepting, g.(holder := Free, listeners := g.listeners + {t}), c)
    // l.Accept() succeeds only on an open listener and may fail at any time
    case Accept(id) =>
      if pc.Accepting? && t !in g.closedListeners && id !in c.acceptedBy then
        Outcome(Accepted(id), g, c.(acceptedBy := c.acceptedBy[id := t]))
      else Outcome(pc, g, c)
    case FailAccept(temporary) =>
      Outcome(if pc.Accepting? then AcceptFailed(temporary, t in g.closedListeners) else pc, g, c)
    // setState(StateNew): trackConn(c, true), then the state word; then the goroutine starts
    case TrackConn =>
      if pc.Accepted? && g.holder == Free then
        Outcome(Registered(pc.conn), g,
                c.(tracked := c.tracked[pc.conn := Track(NotStarted, Word(New, 0))],
                   active := c.active + {pc.conn}, total := c.total + 1))
      else Outcome(pc, g, c)
    case Spawn(now) =>
      if pc.Registered? then
        Outcome(Accepting, g, c.(tracked := c.tracked[pc.conn := Track(Serving, Word(New, now))]))
      else Outcome(pc, g, c)
    // after a failed Accept: fetch the done channel under the lock, then look whether it is closed
    case GetDoneChan =>
      if pc.AcceptFailed? && g.holder == Free then
        Outcome(GotDoneChan(pc.temporary, pc.closed),
                g.(doneChan := if g.doneChan == NoChan then OpenChan else g.doneChan), c)
      else Outcome(pc, g, c)
    case Select =>
      Outcome(
        if !pc.GotDoneChan? then pc
        else if g.doneChan == ClosedChan then Returning(ErrServerClosed)
        else if pc.temporary then Accepting
        else Returning(AcceptError), g, c)
    // the deferred calls: trackListener(&l, false), then l.Close()
    case Untrack =>
      if pc.Returning? && g.holder == Free then
        Outcome(Closing(pc.result), g.(listeners := g.listeners - {t}), c)
      else Outcome(pc, g, c)
    case CloseListener =>
      if pc.Closing? then Outcome(Returned(pc.result), g.(closedListeners := g.closedListeners + {t}), c)
      else Outcome(pc, g, c)
  }

  // ----- Shutdown and Close -----

  datatype StopKind = Shutdown | Close

  /** Where a `Shutdown` or `Close` call stands. */
  datatype StopPc =
    | Called(kind: StopKind)
    | Flagged(kind: StopKind)
    | ClosingListeners(kind: StopKind, todo: set<Id>)     // holds the mutex
    | ClosingDone(kind: StopKind)                         // holds the mutex
    | ClosingConns(todo: set<Id>)                         // holds the mutex
    | Unlocking(kind: StopKind)                           // holds the mutex
    | Polling
    | Sweeping(todo: set<Id>, quiescent: bool)            // holds the mutex
    | Looked(todo: set<Id>, quiescent: bool, conn: Id, word: Word)  // holds the mutex
    | Swept(quiescent: bool)
    | Stopped

  datatype StopStep =
    | SetFlag
    | LockStop
    | CloseOneListener(listener: Id)
    | CloseDone
    | CloseOneConn(conn: Id)
    | Unlock
    | LockSweep
    | LoadWord(conn: Id)
    | Judge(now: int)
    | CountListeners
    | GiveUp

  /** Idle, or new and silent for more than five seconds; never one without a time. */
  predicate Sweepable(w: Word, now: int) {
    w.unixSec != 0 && (w.state == Idle || (w.state == New && w.unixSec < now - 5))
  }

  function CloseDoneChan(g: Gate): Gate {
    if g.doneChan == ClosedChan then g else g.(doneChan := ClosedChan, closes := g.closes + 1)
  }

  function Shut(c: Conns, id: Id): Conns {
    c.(closed := c.closed + {id}, active := c.active - {id})
  }

  function StepStop(t: Id, pc: StopPc, g: Gate, c: Conns, step: StopStep): Outcome<StopPc> {
    match step
    case SetFlag =>
      if pc.Called? then Outcome(Flagged(pc.kind), g.(inShutdown := true), c) else Outcome(pc, g, c)
    // Shutdown closes the listeners before the channel, Close the other way round
    case LockStop =>
      if pc.Flagged? && g.holder == Free then
        Outcome(if pc.kind == Shutdown then ClosingListeners(Shutdown, g.listeners) else ClosingDone(Close),
                g.(holder := HeldByStop(t)), c)
      else Outcome(pc, g, c)
    case CloseOneListener(l) =>
      if !pc.ClosingListeners? then Outcome(pc, g, c)
      else if l in pc.todo then
        Outcome(ClosingListeners(pc.kind, pc.todo - {l}), g.(closedListeners := g.closedListeners + {l}), c)
      else if pc.todo == {} then
        Outcome(if pc.kind == Shutdown then ClosingDone(Shutdown) else ClosingConns(c.active), g, c)
      else Outcome(pc, g, c)
    case CloseDone =>
      if pc.ClosingDone? then
        Outcome(if pc.kind == Shutdown then Unlocking(Shutdown) else ClosingListeners(Close, g.listeners),
                CloseDoneChan(g), c)
      else Outcome(pc, g, c)
    case CloseOneConn(id) =>
      if !pc.ClosingConns? then Outcome(pc, g, c)
      else if id in pc.todo then Outcome(ClosingConns(pc.todo - {id}), g, Shut(c, id))
      else Outcome(if pc.todo == {} then Unlocking(Close) else pc, g, c)
    case Unlock =>
      if pc.Unlocking? then
        Outcome(if pc.kind == Shutdown then Polling else Stopped, g.(holder := Free, ended := true), c)
      else if pc.Sweeping? && pc.todo == {} then Outcome(Swept(pc.quiescent), g.(holder := Free), c)
      else Outcome(pc, g, c)
    // closeIdleConns, one connection at a time under the lock: the state word is loaded first, and
    // what was loaded decides, whatever the connection has stored since
    case LockSweep =>
      if pc.Polling? && g.holder == Free then
        Outcome(Sweeping(c.active, true), g.(holder := HeldByStop(t)), c)
      else Outcome(pc, g, c)
    case LoadWord(id) =>
      if pc.Sweeping? && id in pc.todo && id in c.tracked then
        Outcome(Looked(pc.todo - {id}, pc.quiescent, id, c.tracked[id].word), g, c)
      else Outcome(pc, g, c)
    case Judge(now) =>
      if !pc.Looked? then Outcome(pc, g, c)
      else if Sweepable(pc.word, now) then Outcome(Sweeping(pc.todo, pc.quiescent), g, Shut(c, pc.conn))
      else Outcome(Sweeping(pc.todo, false), g, c)
    // numListeners, under the lock once more
    case CountListeners =>
      if !pc.Swept? || (pc.quiescent && g.holder != Free) then Outcome(pc, g, c)
      else Outcome(if pc.quiescent && g.listeners == {} then Stopped else Polling, g, c)
    case GiveUp =>
      Outcome(if pc.Polling? then Stopped else pc, g, c)
  }

  // ----- connections -----

  datatype ConnStep =
    | Store(state: ConnState, now: int)
    | Hangup
    | CloseSocket
    | UntrackConn

  /** `serve` stores Active and Idle as it goes, and a handler may close the socket under it; its
      deferred function closes the socket, calls trackConn(c, false) and stores Closed. */
  function StepConn(id: Id, g: Gate, c: Conns, step: ConnStep): Conns
    requires id in c.tracked
  {
    var pc := c.tracked[id].pc;
    match step
    case Store(state, now) =>
      if pc.Serving? && (state == Active || state == Idle) then
        c.(tracked := c.tracked[id := Track(Serving, Word(state, now))])
      else if pc.Untracked? && state == Closed then
        c.(tracked := c.tracked[id := Track(Gone, Word(state, now))])
      else c
    case Hangup =>
      if pc.Serving? then c.(closed := c.closed + {id}) else c
    case CloseSocket =>
      if pc.Serving? then
        c.(tracked := c.tracked[id := c.tracked[id].(pc := SocketShut)], closed := c.closed + {id})
      else c
    case UntrackConn =>
      if pc.SocketShut? && g.holder == Free then
        c.(tracked := c.tracked[id := c.tracked[id].(pc := Untracked)], active := c.active - {id})
      else c
  }

  // ----- interleavings -----

  datatype State = State(gate: Gate, conns: Conns, serves: map<Id, ServePc>, stops: map<Id, StopPc>)

  /** Any number of calls, none of which has begun. */
  predicate Init(s: State) {
    && s.gate == Gate(false, Free, {}, {}, NoChan, 0, false)
    && s.conns == Conns(map[], map[], {}, {}, 0)
    && (forall t <- s.serves :: s.serves[t] == Starting)
    && (forall t <- s.stops :: s.stops[t].Called?)
  }

  datatype Action =
    | ServeAction(t: Id, serve: ServeStep)
    | StopAction(t: Id, stop: StopStep)
    | ConnAction(t: Id, conn: ConnStep)

  function Step(s: State, a: Action): State {
    match a
    case ServeAction(t, step) =>
      if t !in s.serves then s
      else
        var o := StepServe(t, s.serves[t], s.gate, s.conns, step);
        State(o.gate, o.conns, s.serves[t := o.pc], s.stops)
    case StopAction(t, step) =>
      if t !in s.stops then s
      else
        var o := StepStop(t, s.stops[t], s.gate, s.conns, step);
        State(o.gate, o.conns, s.serves, s.stops[t := o.pc])
    case ConnAction(id, step) =>
      if id in s.conns.tracked then s.(conns := StepConn(id, s.gate, s.conns, step)) else s
  }

  /** Any interleaving. */
  function Run(s: State, actions: seq<Action>): State {
    if actions == [] then s
    else Step(Run(s, actions[..|actions| - 1]), actions[|actions| - 1])
  }
}
