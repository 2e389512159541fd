/** The locked sections as the methods that hold the mutex run them. Each is shown to be a run of the
    steps of its call, whichever order it visits the maps in, so what is proved of every interleaving
    of the steps holds of the methods. The runs are undisturbed, except that the sweep goes on while
    connections store their state words; `ServerLoops` puts them together with other calls between them. */
module ServerTracking {
  import opened ConnStates
  import opened Server

  // ----- a connection's state word -----

  const TWO_TO_56 := 0x100_0000_0000_0000
  const TWO_TO_64 := 0x1_0000_0000_0000_0000

  function Code(state: ConnState): nat {
    match state
    case New => 0
    case Active => 1
    case Idle => 2
    case Closed => 3
  }

  /** uint64(now<<8) | uint64(state). The low byte of the shifted time is zero, so "or" is "plus". */
  function Pack(w: Word): (packed: nat)
    ensures packed < TWO_TO_64
  {
    w.unixSec * 256 % TWO_TO_64 + Code(w.state)
  }

  /** `serve` stores only the four states, and a fresh word is zero. */
  predicate Packed(packed: nat) {
    packed < TWO_TO_64 && packed % 256 <= 3
  }

  function Unpack(packed: nat): Word
    requires Packed(packed)
  {
    Word(match packed % 256
         case 0 => New
         case 1 => Active
         case 2 => Idle
         case _ => Closed, packed / 256)
  }

  lemma ShiftWraps(t: int)
    ensures t * 256 % TWO_TO_64 == t % TWO_TO_56 * 256
  {
    var q := t / TWO_TO_56;
    assert t == q * TWO_TO_56 + t % TWO_TO_56;
    assert t * 256 == q * TWO_TO_64 + t % TWO_TO_56 * 256;
    DivMod(t * 256, q, t % TWO_TO_56 * 256);
  }

  lemma DivMod(a: int, q: int, r: int)
    requires a == q * TWO_TO_64 + r && 0 <= r < TWO_TO_64
    ensures a % TWO_TO_64 == r
  {
  }

  /** The word decodes to the stored state and to the stored time modulo 2^56: to the time itself
      exactly when that is not negative and below 2^56. */
  lemma PackRoundTrip(w: Word)
    ensures Packed(Pack(w)) && Unpack(Pack(w)) == w.(unixSec := w.unixSec % TWO_TO_56)
    ensures Unpack(Pack(w)) == w <==> 0 <= w.unixSec < TWO_TO_56
  {
    ShiftWraps(w.unixSec);
    assert (w.unixSec % TWO_TO_56 * 256 + Code(w.state)) / 256 == w.unixSec % TWO_TO_56;
  }

  // ----- uninterrupted runs -----

  function ServeRun(t: Id, o: Outcome<ServePc>, steps: seq<ServeStep>): Outcome<ServePc> {
    if steps == [] then o
    else
      var m := ServeRun(t, o, steps[..|steps| - 1]);
      StepServe(t, m.pc, m.gate, m.conns, steps[|steps| - 1])
  }

  function StopRun(t: Id, o: Outcome<StopPc>, steps: seq<StopStep>): Outcome<StopPc> {
    if steps == [] then o
    else
      var m := StopRun(t, o, steps[..|steps| - 1]);
      StepStop(t, m.pc, m.gate, m.conns, steps[|steps| - 1])
  }

  lemma StopNext(t: Id, o: Outcome<StopPc>, steps: seq<StopStep>, step: StopStep)
    ensures var m := StopRun(t, o, steps);
      StopRun(t, o, steps + [step]) == StepStop(t, m.pc, m.gate, m.conns, step)
  {
    hide StepStop;
    assert (steps + [step])[..|steps + [step]| - 1] == steps;
  }

  /** Running the steps by themselves is one of the interleavings. */
  lemma {:induction false} StopRunIsRun(s: State, t: Id, steps: seq<StopStep>) returns (actions: seq<Action>)
    requires t in s.stops
    ensures var o := StopRun(t, Outcome(s.stops[t], s.gate, s.conns), steps);
      Run(s, actions) == State(o.gate, o.conns, s.serves, s.stops[t := o.pc])
    ensures forall step :: StopAction(t, step) in actions ==> step in steps
  {
    hide StepStop;
    if steps == [] {
      actions := [];
      assert s.stops[t := s.stops[t]] == s.stops;
    } else {
      var n := |steps| - 1;
      actions := StopRunIsRun(s, t, steps[..n]);
      var m := StopRun(t, Outcome(s.stops[t], s.gate, s.conns), steps[..n]);
      var o := StepStop(t, m.pc, m.gate, m.conns, steps[n]);
      assert s.stops[t := m.pc][t := o.pc] == s.stops[t := o.pc];
      assert (actions + [StopAction(t, steps[n])])[..|actions|] == actions;
      actions := actions + [StopAction(t, steps[n])];
    }
  }

  lemma {:induction false} ServeRunIsRun(s: State, t: Id, steps: seq<ServeStep>) returns (actions: seq<Action>)
    requires t in s.serves
    ensures var o := ServeRun(t, Outcome(s.serves[t], s.gate, s.conns), steps);
      Run(s, actions) == State(o.gate, o.conns, s.serves[t := o.pc], s.stops)
  {
    hide StepServe;
    if steps == [] {
      actions := [];
      assert s.serves[t := s.serves[t]] == s.serves;
    } else {
      var n := |steps| - 1;
      actions := ServeRunIsRun(s, t, steps[..n]);
      var m := ServeRun(t, Outcome(s.serves[t], s.gate, s.conns), steps[..n]);
      var o := StepServe(t, m.pc, m.gate, m.conns, steps[n]);
      assert s.serves[t := m.pc][t := o.pc] == s.serves[t := o.pc];
      assert (actions + [ServeAction(t, steps[n])])[..|actions|] == actions;
      actions := actions + [ServeAction(t, steps[n])];
    }
  }

  // ----- the server -----

  /** What is left of the map after a sweep that loaded these words. */
  ghost function Survivors(active: set<Id>, loaded: map<Id, Word>, clock: Id -> int): set<Id>
    requires loaded.Keys == active
  {
    set c <- active | !Sweepable(loaded[c], clock(c))
  }

  /** A sweep of `start` has `todo` ahead of it and has judged the others by what it loaded. */
  ghost predicate Judged(start: set<Id>, active: set<Id>, todo: set<Id>, loaded: map<Id, Word>, clock: Id -> int,
                         quiescent: bool)
  {
    && todo <= active <= start && loaded.Keys == start - todo
    && (forall c <- loaded :: c in active <==> !Sweepable(loaded[c], clock(c)))
    && (quiescent <==> active <= todo)
  }

  lemma NoneJudged(start: set<Id>, clock: Id -> int)
    ensures Judged(start, start, start, map[], clock, true)
  {
  }

  lemma StillActive(start: set<Id>, active: set<Id>, todo: set<Id>, loaded: map<Id, Word>, clock: Id -> int,
                    quiescent: bool, c: Id)
    requires Judged(start, active, todo, loaded, clock, quiescent) && c in todo
    ensures c in active && active <= start
  {
  }

  lemma JudgedNext(start: set<Id>, active: set<Id>, todo: set<Id>, loaded: map<Id, Word>, clock: Id -> int,
                   quiescent: bool, c: Id, w: Word)
    requires Judged(start, active, todo, loaded, clock, quiescent) && c in todo
    ensures
      var closed := Sweepable(w, clock(c));
      Judged(start, if closed then active - {c} else active, todo - {c}, loaded[c := w], clock, quiescent && closed)
  {
    hide Sweepable;
  }

  lemma AllJudged(start: set<Id>, active: set<Id>, loaded: map<Id, Word>, clock: Id -> int, quiescent: bool)
    requires Judged(start, active, {}, loaded, clock, quiescent)
    ensures loaded.Keys == start && active == Survivors(start, loaded, clock) && (quiescent <==> active == {})
  {
    hide Sweepable;
  }

  lemma ShutParts(c: Conns, id: Id)
    ensures Shut(c, id).active == c.active - {id} && Shut(c, id).closed == c.closed + {id}
  {
  }

  /** A step of a connection's goroutine: which connection, and what it does. */
  datatype Background = Background(conn: Id, step: ConnStep)

  /** The state word keeps the time modulo 2^56. */
  function Kept(step: ConnStep): ConnStep {
    if step.Store? then Store(step.state, step.now % TWO_TO_56) else step
  }

  function InBackground(id: Id, g: Gate, c: Conns, step: ConnStep): Conns {
    if id in c.tracked then StepConn(id, g, c, Kept(step)) else c
  }

  /** Every connection in the map has a word, and the words hold their times. */
  predicate Fits(c: Conns) {
    c.active <= c.tracked.Keys && forall id <- c.tracked :: 0 <= c.tracked[id].word.unixSec < TWO_TO_56
  }

  function Words(tracked: map<Id, Track>): map<Id, nat> {
    map id <- tracked :: Pack(tracked[id].word)
  }

  lemma WordsHold(c: Conns)
    requires Fits(c)
    ensures Words(c.tracked).Keys == c.tracked.Keys
    ensures forall id <- Words(c.tracked) ::
      Packed(Words(c.tracked)[id]) && Unpack(Words(c.tracked)[id]) == c.tracked[id].word
  {
    hide Pack, Unpack, Packed;
    forall id <- c.tracked
      ensures Packed(Pack(c.tracked[id].word)) && Unpack(Pack(c.tracked[id].word)) == c.tracked[id].word
    {
      PackRoundTrip(c.tracked[id].word);
    }
  }

  /** The machine with the stopping call `t` somewhere else, and other shared state. */
  function Seen(s: State, t: Id, pc: StopPc, g: Gate, c: Conns): State {
    State(g, c, s.serves, s.stops[t := pc])
  }

  /** The fields of the server and, outside it, which listeners and sockets are closed. The last four
      fields are the records of the machine. */
  class Tracker {
    var inShutdown: bool
    var listeners: set<Id>
    var activeConn: set<Id>
    var doneChan: Chan
    var totalConn: nat
    var curState: map<Id, nat>
    var closedListeners: set<Id>
    var closedConns: set<Id>
    var closes: nat
    var ended: bool
    var acceptedBy: map<Id, Id>
    var tracked: map<Id, Track>

    /** Every connection in the map has a word, and the words are the machine's. */
    ghost predicate Valid()
      reads this
    {
      && curState.Keys == tracked.Keys
      && activeConn <= tracked.Keys
      && forall c <- curState :: Packed(curState[c]) && Unpack(curState[c]) == tracked[c].word
    }

    function TheGate(holder: Holder): Gate
      reads this
    {
      Gate(inShutdown, holder, listeners, closedListeners, doneChan, closes, ended)
    }

    function TheConns(): Conns
      reads this
    {
      Conns(acceptedBy, tracked, activeConn, closedConns, totalConn)
    }

    constructor ()
      ensures Valid()
      ensures TheGate(Free) == Gate(false, Free, {}, {}, NoChan, 0, false)
      ensures TheConns() == Conns(map[], map[], {}, {}, 0)
    {
      inShutdown, listeners, activeConn, doneChan, totalConn := false, {}, {}, NoChan, 0;
      curState, closedListeners, closedConns := map[], {}, {};
      closes, ended, acceptedBy, tracked := 0, false, map[], map[];
    }

    /** Takes over what other calls have made of the shared state. */
    method Become(g: Gate, c: Conns)
      requires Fits(c)
      modifies this
      ensures Valid() && TheConns() == c && TheGate(g.holder) == g
    {
      hide Unpack, Packed, Words;
      inShutdown, listeners, closedListeners := g.inShutdown, g.listeners, g.closedListeners;
      doneChan, closes, ended := g.doneChan, g.closes, g.ended;
      acceptedBy, tracked, activeConn, closedConns, totalConn := c.acceptedBy, c.tracked, c.active, c.closed, c.total;
      WordsHold(c);
      curState := Words(c.tracked);
    }

    method TrackListener(ln: Id, add: bool) returns (ok: bool)
      requires Valid()
      modifies `listeners
      ensures Valid()
      ensures add ==>
        ServeRun(ln, Outcome(Starting, old(TheGate(Free)), TheConns()), [Lock, Load, Insert])
        == Outcome(if ok then Accepting else Closing(ErrServerClosed), TheGate(Free), TheConns())
      ensures !add ==> forall result ::
        StepServe(ln, Returning(result), old(TheGate(Free)), TheConns(), Untrack)
        == Outcome(Closing(result), TheGate(Free), TheConns())
    {
      if add {
        ServeThree(ln, Outcome(Starting, TheGate(Free), TheConns()));
        if inShutdown {
          return false;
        }
        listeners := listeners + {ln};
      } else {
        listeners := listeners - {ln};
      }
      return true;
    }

    method TrackConn(c: Id, add: bool)
      requires Valid()
      requires add ==> c !in tracked
      modifies `totalConn, `activeConn, `curState, `tracked
      ensures Valid()
      ensures add ==> forall t ::
        StepServe(t, Accepted(c), TheGate(Free), old(TheConns()), ServeStep.TrackConn)
        == Outcome(Registered(c), TheGate(Free), TheConns())
      ensures TheConns() ==
        if add then
          old(TheConns()).(tracked := old(tracked)[c := Track(NotStarted, Word(New, 0))],
                           active := old(activeConn) + {c}, total := old(totalConn) + 1)
        else old(TheConns()).(active := old(activeConn) - {c})
    {
      if add {
        totalConn := totalConn + 1;
        activeConn := activeConn + {c};
        curState := curState[c := 0];
        tracked := tracked[c := Track(NotStarted, Word(New, 0))];
      } else {
        activeConn := activeConn - {c};
      }
    }

    method StoreWord(c: Id, state: ConnState, unixSec: int)
      requires Valid() && c in tracked
      modifies `curState, `tracked
      ensures Valid()
      ensures TheConns() == old(TheConns())
        .(tracked := old(tracked)[c := old(tracked)[c].(word := Word(state, unixSec % TWO_TO_56))])
    {
      PackRoundTrip(Word(state, unixSec));
      curState := curState[c := Pack(Word(state, unixSec))];
      tracked := tracked[c := tracked[c].(word := Word(state, unixSec % TWO_TO_56))];
    }

    method GetState(c: Id) returns (w: Word)
      requires Valid() && c in tracked
      ensures w == tracked[c].word
    {
      w := Unpack(curState[c]);
    }

    /** Registers a new connection and unregisters a closed one before it stores the word. */
    method SetState(c: Id, state: ConnState, unixSec: int)
      requires Valid()
      requires state == New <==> c !in tracked
      modifies `totalConn, `activeConn, `curState, `tracked
      ensures Valid()
      ensures
        var w := Word(state, unixSec % TWO_TO_56);
        TheConns() ==
          if state == New then
            old(TheConns()).(tracked := old(tracked)[c := Track(NotStarted, w)],
                             active := old(activeConn) + {c}, total := old(totalConn) + 1)
          else
            old(TheConns()).(tracked := old(tracked)[c := old(tracked)[c].(word := w)],
                             active := if state == Closed then old(activeConn) - {c} else old(activeConn))
    {
      hide Pack, Unpack, Packed;
      match state {
        case New => TrackConn(c, true);
        case Closed => TrackConn(c, false);
        case _ =>
      }
      StoreWord(c, state, unixSec);
    }

    /** One step of a connection's goroutine while the lock is held by someone else. */
    method OneInBackground(t: Id, b: Background)
      requires Valid()
      modifies `curState, `tracked, `closedConns
      ensures Valid()
      ensures TheConns() == InBackground(b.conn, TheGate(HeldByStop(t)), old(TheConns()), b.step)
      ensures tracked.Keys == old(tracked).Keys && old(closedConns) <= closedConns
    {
      hide Unpack, Packed;
      if b.conn !in tracked {
        return;
      }
      var pc := tracked[b.conn].pc;
      match b.step {
        case Store(state, now) =>
          if pc.Serving? && (state == Active || state == Idle) {
            StoreWord(b.conn, state, now);
          } else if pc.Untracked? && state == Closed {
            StoreWord(b.conn, state, now);
            tracked := tracked[b.conn := tracked[b.conn].(pc := Gone)];
          }
        case Hangup =>
          if pc.Serving? {
            closedConns := closedConns + {b.conn};
          }
        case CloseSocket =>
          if pc.Serving? {
            closedConns := closedConns + {b.conn};
            tracked := tracked[b.conn := tracked[b.conn].(pc := SocketShut)];
          }
        case UntrackConn =>
      }
    }

    /** What connections do while the sweep is between two accesses. */
    method Meanwhile(t: Id, others: seq<Background>, ghost s: State, ghost pc: StopPc, ghost before: seq<Action>)
      returns (ghost actions: seq<Action>)
      requires Valid()
      requires Run(s, before) == Seen(s, t, pc, TheGate(HeldByStop(t)), TheConns())
      modifies `curState, `tracked, `closedConns
      ensures Valid()
      ensures tracked.Keys == old(tracked).Keys && old(closedConns) <= closedConns
      ensures Run(s, actions) == Seen(s, t, pc, TheGate(HeldByStop(t)), TheConns())
      ensures StopAction(t, GiveUp) in actions ==> StopAction(t, GiveUp) in before
    {
      hide InBackground, Seen, Run, Valid;
      actions := before;
      for i := 0 to |others|
        invariant Valid()
        invariant tracked.Keys == old(tracked).Keys && old(closedConns) <= closedConns
        invariant Run(s, actions) == Seen(s, t, pc, TheGate(HeldByStop(t)), TheConns())
        invariant StopAction(t, GiveUp) in actions ==> StopAction(t, GiveUp) in before
      {
        BackgroundNext(s, actions, t, pc, TheGate(HeldByStop(t)), TheConns(), others[i]);
        OneInBackground(t, others[i]);
        actions := actions + [ConnAction(others[i].conn, Kept(others[i].step))];
      }
    }

    method GetDoneChan()
      modifies `doneChan
      ensures doneChan == if old(doneChan) == NoChan then OpenChan else old(doneChan)
      ensures forall t, temporary, closed ::
        StepServe(t, AcceptFailed(temporary, closed), old(TheGate(Free)), TheConns(), ServeStep.GetDoneChan)
        == Outcome(GotDoneChan(temporary, closed), TheGate(Free), TheConns())
    {
      if doneChan == NoChan {
        doneChan := OpenChan;
      }
    }

    method CloseDoneChanLocked()
      modifies `doneChan, `closes
      ensures forall h :: TheGate(h) == CloseDoneChan(old(TheGate(h)))
    {
      GetDoneChan();
      if doneChan != ClosedChan {
        doneChan := ClosedChan;
        closes := closes + 1;
      }
    }

    /** Closes every listener in the map, in some order. */
    method CloseListenersLocked(t: Id, ghost kind: StopKind) returns (ghost steps: seq<StopStep>)
      modifies `closedListeners
      ensures closedListeners == old(closedListeners) + listeners
      ensures StopRun(t, Outcome(ClosingListeners(kind, listeners), old(TheGate(HeldByStop(t))), TheConns()), steps)
        == Outcome(ClosingListeners(kind, {}), TheGate(HeldByStop(t)), TheConns())
      ensures GiveUp !in steps
    {
      ghost var start := Outcome(ClosingListeners(kind, listeners), TheGate(HeldByStop(t)), TheConns());
      var todo := listeners;
      steps := [];
      while todo != {}
        invariant todo <= listeners && closedListeners == old(closedListeners) + (listeners - todo)
        invariant StopRun(t, start, steps) == Outcome(ClosingListeners(kind, todo), TheGate(HeldByStop(t)), TheConns())
        invariant GiveUp !in steps
        decreases |todo|
      {
        var ln :| ln in todo;
        StopNext(t, start, steps, CloseOneListener(ln));
        closedListeners := closedListeners + {ln};
        todo := todo - {ln};
        steps := steps + [CloseOneListener(ln)];
      }
    }

    method CloseAndDelete(c: Id)
      requires Valid()
      modifies `activeConn, `closedConns
      ensures Valid() && TheConns() == Shut(old(TheConns()), c)
    {
      closedConns := closedConns + {c};
      activeConn := activeConn - {c};
    }

    /** One round of the sweep, for the connection `c`. Connections go on while it loads the word and
        while it makes up its mind. */
    method LookAt(t: Id, c: Id, now: int, before: seq<Background>, between: seq<Background>,
                  ghost s: State, ghost todo: set<Id>, ghost quiescent: bool, ghost done: seq<Action>)
      returns (closed: bool, ghost loaded: Word, ghost actions: seq<Action>)
      requires Valid() && c in activeConn && c in todo
      requires Run(s, done) == Seen(s, t, Sweeping(todo, quiescent), TheGate(HeldByStop(t)), TheConns())
      modifies `curState, `tracked, `closedConns, `activeConn
      ensures Valid()
      ensures closed == Sweepable(loaded, now)
      ensures activeConn == if closed then old(activeConn) - {c} else old(activeConn)
      ensures old(closedConns) + (old(activeConn) - activeConn) <= closedConns
      ensures Run(s, actions)
        == Seen(s, t, Sweeping(todo - {c}, quiescent && closed), TheGate(HeldByStop(t)), TheConns())
      ensures StopAction(t, GiveUp) in actions ==> StopAction(t, GiveUp) in done
    {
      hide Run, Seen, Sweepable, Shut, Valid;
      ActiveTracked(this, c);
      actions := Meanwhile(t, before, s, Sweeping(todo, quiescent), done);
      var w := GetState(c);
      loaded := w;
      LoadNext(s, actions, t, todo, quiescent, TheGate(HeldByStop(t)), TheConns(), c);
      actions := actions + [StopAction(t, LoadWord(c))];
      actions := Meanwhile(t, between, s, Looked(todo - {c}, quiescent, c, w), actions);
      JudgeNext(s, actions, t, todo - {c}, quiescent, TheGate(HeldByStop(t)), TheConns(), c, w, now);
      actions := actions + [StopAction(t, Judge(now))];
      var st := w.state;
      // a new connection whose first request is overdue counts as idle
      if st == New && w.unixSec < now - 5 {
        st := Idle;
      }
      SweepableMeans(w, now, st);
      closed := st == Idle && w.unixSec != 0;
      if closed {
        ghost var held := TheConns();
        CloseAndDelete(c);
        ShutParts(held, c);
      }
    }

    /** `clock(c)` is the time at which connection `c` is looked at, `before(c)` and `between(c)` what
        connections do before its word is loaded and before it is judged. */
    method CloseIdleConns(t: Id, clock: Id -> int, before: Id -> seq<Background>, between: Id -> seq<Background>,
                          ghost s: State)
      returns (quiescent: bool, ghost loaded: map<Id, Word>, ghost actions: seq<Action>)
      requires Valid()
      requires s.gate == TheGate(Free) && s.conns == TheConns() && t in s.stops && s.stops[t] == Polling
      modifies `curState, `tracked, `closedConns, `activeConn
      ensures Valid()
      ensures loaded.Keys == old(activeConn)
      ensures activeConn == Survivors(old(activeConn), loaded, clock)
      ensures old(closedConns) + (old(activeConn) - activeConn) <= closedConns
      ensures quiescent <==> activeConn == {}
      ensures Run(s, actions) == Seen(s, t, Swept(quiescent), TheGate(Free), TheConns())
      ensures StopAction(t, GiveUp) !in actions
    {
      hide Run, Seen, Valid, Judged, Survivors;
      ghost var start := activeConn;
      var todo := activeConn;
      quiescent, loaded := true, map[];
      NoneJudged(start, clock);
      BeginSweep(s, t);
      actions := [StopAction(t, LockSweep)];
      while todo != {}
        invariant Valid() && Judged(start, activeConn, todo, loaded, clock, quiescent)
        invariant old(closedConns) + (start - activeConn) <= closedConns
        invariant Run(s, actions) == Seen(s, t, Sweeping(todo, quiescent), TheGate(HeldByStop(t)), TheConns())
        invariant StopAction(t, GiveUp) !in actions
        decreases |todo|
      {
        var c :| c in todo;
        StillActive(start, activeConn, todo, loaded, clock, quiescent, c);
        ghost var active := activeConn;
        var closed: bool;
        ghost var w: Word;
        closed, w, actions := LookAt(t, c, clock(c), before(c), between(c), s, todo, quiescent, actions);
        JudgedNext(start, active, todo, loaded, clock, quiescent, c, w);
        loaded := loaded[c := w];
        todo := todo - {c};
        if !closed {
          quiescent := false;
        }
      }
      AllJudged(start, activeConn, loaded, clock, quiescent);
      EndSweep(s, actions, t, quiescent, TheGate(HeldByStop(t)), TheConns());
      actions := actions + [StopAction(t, Unlock)];
    }

    /** Closes every connection in the map and empties it. */
    method CloseConnsLocked(t: Id) returns (ghost steps: seq<StopStep>)
      modifies `activeConn, `closedConns
      ensures activeConn == {} && closedConns == old(closedConns) + old(activeConn)
      ensures StopRun(t, Outcome(ClosingConns(old(activeConn)), TheGate(HeldByStop(t)), old(TheConns())), steps)
        == Outcome(ClosingConns({}), TheGate(HeldByStop(t)), TheConns())
    {
      ghost var start := Outcome(ClosingConns(activeConn), TheGate(HeldByStop(t)), TheConns());
      steps := [];
      while activeConn != {}
        invariant activeConn <= old(activeConn) && closedConns == old(closedConns) + (old(activeConn) - activeConn)
        invariant StopRun(t, start, steps) == Outcome(ClosingConns(activeConn), TheGate(HeldByStop(t)), TheConns())
        decreases |activeConn|
      {
        var c :| c in activeConn;
        StopNext(t, start, steps, CloseOneConn(c));
        steps := steps + [CloseOneConn(c)];
        closedConns := closedConns + {c};
        activeConn := activeConn - {c};
      }
    }

    /** The section of `Shutdown`: the listeners, then the channel. */
    method ShutdownSection(t: Id) returns (ghost steps: seq<StopStep>)
      requires Valid()
      modifies `inShutdown, `closedListeners, `doneChan, `closes, `ended
      ensures Valid() && inShutdown && ended && doneChan == ClosedChan
      ensures closedListeners == old(closedListeners) + listeners
      ensures StopRun(t, Outcome(Called(Shutdown), old(TheGate(Free)), TheConns()), steps)
        == Outcome(Polling, TheGate(Free), TheConns())
      ensures GiveUp !in steps
    {
      hide StopRun;
      ghost var start := Outcome(Called(Shutdown), TheGate(Free), TheConns());
      BeginShutdown(t, start.gate, start.conns);
      inShutdown := true;
      ghost var closing := CloseListenersLocked(t, Shutdown);
      StopAppend(t, start, [SetFlag, LockStop], closing);
      EndShutdown(t, start, [SetFlag, LockStop] + closing, TheGate(HeldByStop(t)), TheConns());
      CloseDoneChanLocked();
      ended := true;
      steps := [SetFlag, LockStop] + closing + [CloseOneListener(0), CloseDone, Unlock];
    }

    /** All of `Close`: the channel, the listeners, then the connections. */
    method Close(t: Id) returns (ghost steps: seq<StopStep>)
      requires Valid()
      modifies `inShutdown, `closedListeners, `doneChan, `closes, `ended, `activeConn, `closedConns
      ensures Valid() && inShutdown && ended && doneChan == ClosedChan
      ensures closedListeners == old(closedListeners) + listeners
      ensures activeConn == {} && closedConns == old(closedConns) + old(activeConn)
      ensures StopRun(t, Outcome(Called(StopKind.Close), old(TheGate(Free)), old(TheConns())), steps)
        == Outcome(Stopped, TheGate(Free), TheConns())
    {
      hide StopRun;
      ghost var start := Outcome(Called(StopKind.Close), TheGate(Free), TheConns());
      BeginClose(t, start.gate, start.conns);
      inShutdown := true;
      CloseDoneChanLocked();
      ghost var closing := CloseListenersLocked(t, StopKind.Close);
      steps := [SetFlag, LockStop, CloseDone];
      StopAppend(t, start, steps, closing);
      steps := steps + closing;
      MiddleOfClose(t, start, steps, TheGate(HeldByStop(t)), TheConns());
      steps := steps + [CloseOneListener(0)];
      closing := CloseConnsLocked(t);
      StopAppend(t, start, steps, closing);
      steps := steps + closing;
      EndClose(t, start, steps, TheGate(HeldByStop(t)), TheConns());
      ended := true;
      steps := steps + [CloseOneConn(0), Unlock];
    }
  }

  // ----- the steps around the loops -----

  lemma BeginShutdown(t: Id, g: Gate, c: Conns)
    requires g.holder == Free
    ensures StopRun(t, Outcome(Called(Shutdown), g, c), [SetFlag, LockStop])
      == Outcome(ClosingListeners(Shutdown, g.listeners), g.(inShutdown := true, holder := HeldByStop(t)), c)
  {
    StopTwo(t, Outcome(Called(Shutdown), g, c), SetFlag, LockStop);
  }

  lemma EndShutdown(t: Id, o: Outcome<StopPc>, steps: seq<StopStep>, g: Gate, c: Conns)
    requires StopRun(t, o, steps) == Outcome(ClosingListeners(Shutdown, {}), g, c)
    ensures StopRun(t, o, steps + [CloseOneListener(0), CloseDone, Unlock])
      == Outcome(Polling, CloseDoneChan(g).(holder := Free, ended := true), c)
  {
    hide StopRun;
    StopAppend(t, o, steps, [CloseOneListener(0), CloseDone, Unlock]);
    StopThree(t, StopRun(t, o, steps), CloseOneListener(0), CloseDone, Unlock);
  }

  lemma BeginClose(t: Id, g: Gate, c: Conns)
    requires g.holder == Free
    ensures StopRun(t, Outcome(Called(Close), g, c), [SetFlag, LockStop, CloseDone])
      == Outcome(ClosingListeners(Close, g.listeners),
                 CloseDoneChan(g.(inShutdown := true, holder := HeldByStop(t))), c)
  {
    hide StopRun;
    StopThree(t, Outcome(Called(Close), g, c), SetFlag, LockStop, CloseDone);
  }

  lemma MiddleOfClose(t: Id, o: Outcome<StopPc>, steps: seq<StopStep>, g: Gate, c: Conns)
    requires StopRun(t, o, steps) == Outcome(ClosingListeners(Close, {}), g, c)
    ensures StopRun(t, o, steps + [CloseOneListener(0)]) == Outcome(ClosingConns(c.active), g, c)
  {
    hide StopRun;
    StopNext(t, o, steps, CloseOneListener(0));
  }

  lemma EndClose(t: Id, o: Outcome<StopPc>, steps: seq<StopStep>, g: Gate, c: Conns)
    requires StopRun(t, o, steps) == Outcome(ClosingConns({}), g, c)
    ensures StopRun(t, o, steps + [CloseOneConn(0), Unlock]) == Outcome(Stopped, g.(holder := Free, ended := true), c)
  {
    hide StopRun;
    StopAppend(t, o, steps, [CloseOneConn(0), Unlock]);
    StopTwo(t, StopRun(t, o, steps), CloseOneConn(0), Unlock);
  }

  lemma SeenNext(s: State, actions: seq<Action>, t: Id, pc: StopPc, g: Gate, c: Conns, step: StopStep)
    requires Run(s, actions) == Seen(s, t, pc, g, c)
    ensures var o := StepStop(t, pc, g, c, step);
      Run(s, actions + [StopAction(t, step)]) == Seen(s, t, o.pc, o.gate, o.conns)
  {
    hide StepStop;
    assert (actions + [StopAction(t, step)])[..|actions|] == actions;
    var o := StepStop(t, pc, g, c, step);
    assert s.stops[t := pc][t := o.pc] == s.stops[t := o.pc];
  }

  lemma BackgroundNext(s: State, actions: seq<Action>, t: Id, pc: StopPc, g: Gate, c: Conns, b: Background)
    requires Run(s, actions) == Seen(s, t, pc, g, c)
    ensures Run(s, actions + [ConnAction(b.conn, Kept(b.step))])
      == Seen(s, t, pc, g, InBackground(b.conn, g, c, b.step))
  {
    hide StepConn;
    assert (actions + [ConnAction(b.conn, Kept(b.step))])[..|actions|] == actions;
  }

  lemma BeginSweep(s: State, t: Id)
    requires t in s.stops && s.stops[t] == Polling && s.gate.holder == Free
    ensures Run(s, [StopAction(t, LockSweep)])
      == Seen(s, t, Sweeping(s.conns.active, true), s.gate.(holder := HeldByStop(t)), s.conns)
  {
    assert s.stops[t := Polling] == s.stops;
    assert Run(s, []) == Seen(s, t, Polling, s.gate, s.conns);
    SeenNext(s, [], t, Polling, s.gate, s.conns, LockSweep);
    assert [] + [StopAction(t, LockSweep)] == [StopAction(t, LockSweep)];
  }

  lemma LoadNext(s: State, actions: seq<Action>, t: Id, todo: set<Id>, quiescent: bool, g: Gate, c: Conns, id: Id)
    requires Run(s, actions) == Seen(s, t, Sweeping(todo, quiescent), g, c) && id in todo && id in c.tracked
    ensures Run(s, actions + [StopAction(t, LoadWord(id))])
      == Seen(s, t, Looked(todo - {id}, quiescent, id, c.tracked[id].word), g, c)
  {
    hide Run, Seen;
    SeenNext(s, actions, t, Sweeping(todo, quiescent), g, c, LoadWord(id));
  }

  lemma JudgeNext(s: State, actions: seq<Action>, t: Id, todo: set<Id>, quiescent: bool, g: Gate, c: Conns,
                  id: Id, w: Word, now: int)
    requires Run(s, actions) == Seen(s, t, Looked(todo, quiescent, id, w), g, c)
    ensures Run(s, actions + [StopAction(t, Judge(now))])
      == if Sweepable(w, now) then Seen(s, t, Sweeping(todo, quiescent), g, Shut(c, id))
         else Seen(s, t, Sweeping(todo, false), g, c)
  {
    hide Run, Seen, Sweepable;
    SeenNext(s, actions, t, Looked(todo, quiescent, id, w), g, c, Judge(now));
  }

  lemma SweepableMeans(w: Word, now: int, st: ConnState)
    requires st == if w.state == New && w.unixSec < now - 5 then Idle else w.state
    ensures Sweepable(w, now) <==> st == Idle && w.unixSec != 0
  {
  }

  lemma EndSweep(s: State, actions: seq<Action>, t: Id, quiescent: bool, g: Gate, c: Conns)
    requires Run(s, actions) == Seen(s, t, Sweeping({}, quiescent), g, c)
    ensures Run(s, actions + [StopAction(t, Unlock)]) == Seen(s, t, Swept(quiescent), g.(holder := Free), c)
  {
    hide Run, Seen;
    SeenNext(s, actions, t, Sweeping({}, quiescent), g, c, Unlock);
  }

  lemma {:induction false} StopAppend(t: Id, o: Outcome<StopPc>, a: seq<StopStep>, b: seq<StopStep>)
    ensures StopRun(t, o, a + b) == StopRun(t, StopRun(t, o, a), b)
  {
    hide StepStop;
    if b == [] {
      assert a + b == a;
    } else {
      var n := |b| - 1;
      assert (a + b)[..|a + b| - 1] == a + b[..n];
      StopAppend(t, o, a, b[..n]);
    }
  }

  lemma StopTwo(t: Id, o: Outcome<StopPc>, first: StopStep, second: StopStep)
    ensures var m := StepStop(t, o.pc, o.gate, o.conns, first);
      StopRun(t, o, [first, second]) == StepStop(t, m.pc, m.gate, m.conns, second)
  {
    hide StepStop;
    FirstStop(t, o, first);
    StopNext(t, o, [first], second);
    assert [first] + [second] == [first, second];
  }

  lemma StopThree(t: Id, o: Outcome<StopPc>, first: StopStep, second: StopStep, third: StopStep)
    ensures
      var m := StepStop(t, o.pc, o.gate, o.conns, first);
      var n := StepStop(t, m.pc, m.gate, m.conns, second);
      StopRun(t, o, [first, second, third]) == StepStop(t, n.pc, n.gate, n.conns, third)
  {
    hide StepStop;
    StopTwo(t, o, first, second);
    StopNext(t, o, [first, second], third);
    assert [first, second] + [third] == [first, second, third];
  }

  lemma FirstStop(t: Id, o: Outcome<StopPc>, step: StopStep)
    ensures StopRun(t, o, [step]) == StepStop(t, o.pc, o.gate, o.conns, step)
  {
    hide StepStop;
    assert StopRun(t, o, []) == o;
    StopNext(t, o, [], step);
    assert [] + [step] == [step];
  }

  lemma ServeThree(t: Id, o: Outcome<ServePc>)
    requires o.pc == Starting && o.gate.holder == Free
    ensures ServeRun(t, o, [Lock, Load, Insert])
      == if o.gate.inShutdown then o.(pc := Closing(ErrServerClosed))
         else o.(pc := Accepting, gate := o.gate.(listeners := o.gate.listeners + {t}))
  {
    ServeNext(t, o, [], Lock);
    ServeNext(t, o, [Lock], Load);
    ServeNext(t, o, [Lock, Load], Insert);
    assert [] + [Lock] == [Lock] && [Lock] + [Load] == [Lock, Load] && [Lock, Load] + [Insert] == [Lock, Load, Insert];
  }

  lemma ServeNext(t: Id, o: Outcome<ServePc>, steps: seq<ServeStep>, step: ServeStep)
    ensures ServeRun(t, o, []) == o
    ensures var m := ServeRun(t, o, steps);
      ServeRun(t, o, steps + [step]) == StepServe(t, m.pc, m.gate, m.conns, step)
  {
    hide StepServe;
    assert (steps + [step])[..|steps + [step]| - 1] == steps;
  }

  lemma ActiveTracked(k: Tracker, c: Id)
    requires k.Valid() && c in k.activeConn
    ensures c in k.tracked
  {
  }

  lemma ValidFits(k: Tracker)
    requires k.Valid()
    ensures Fits(k.TheConns())
  {
  }
}
