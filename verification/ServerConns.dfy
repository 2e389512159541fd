/** Connection tracking under every interleaving: no connection is leaked, none comes back, and the
    sweep tells the truth about an empty map. */
module ServerConns {
  import opened ConnStates
  import opened Server
  import opened ServerProofs

  predicate Ended(pc: ConnPc) {
    pc.Untracked? || pc.Gone?
  }

  /** A tracked connection is in the map or its socket is closed; its goroutine closes the socket
      before it leaves the map; and it has no word before it starts. */
  predicate ConnInv(c: Track, active: bool, closed: bool) {
    && (active || closed)
    && (c.pc.SocketShut? || Ended(c.pc) ==> closed)
    && (Ended(c.pc) ==> !active)
    && (c.pc == NotStarted ==> c.word == Word(New, 0))
  }

  /** Whatever the calls do. */
  predicate ConnsInv(c: Conns) {
    && c.active <= c.tracked.Keys <= c.acceptedBy.Keys
    && c.total == |c.tracked.Keys|
    && forall id <- c.tracked :: ConnInv(c.tracked[id], id in c.active, id in c.closed)
  }

  predicate Owns(c: Conns, t: Id, id: Id) {
    id in c.acceptedBy && c.acceptedBy[id] == t
  }

  predicate ServeKnows(t: Id, pc: ServePc, c: Conns) {
    && (pc.Accepted? ==> Owns(c, t, pc.conn) && pc.conn !in c.tracked)
    && (pc.Registered? ==> Owns(c, t, pc.conn) && pc.conn in c.tracked && c.tracked[pc.conn].pc == NotStarted)
  }

  predicate StopKnows(pc: StopPc, c: Conns) {
    match pc
    case Sweeping(todo, quiescent) => todo <= c.active && (quiescent <==> c.active == todo)
    case Looked(todo, quiescent, id, _) =>
      id !in todo && todo + {id} <= c.active && (quiescent <==> c.active == todo + {id})
    case ClosingConns(todo) => todo == c.active
    case Unlocking(kind) => kind == Close ==> c.active == {}
    case _ => true
  }

  predicate TrackingInv(s: State) {
    && ConnsInv(s.conns)
    && (forall t <- s.serves :: ServeKnows(t, s.serves[t], s.conns))
    && (forall t <- s.stops :: StopKnows(s.stops[t], s.conns))
  }

  /** What a step of another call leaves to `me`. */
  predicate Leaves(me: Holder, g: Gate, c: Conns, c': Conns) {
    && (me.HeldByServe? ==> forall id <- c.acceptedBy :: Owns(c, me.serve, id) ==>
         && Owns(c', me.serve, id)
         && (id in c.tracked <==> id in c'.tracked)
         && (id in c.tracked && c.tracked[id].pc == NotStarted ==> c'.tracked[id].pc == NotStarted))
    && (g.holder == me ==> c'.active == c.active)
  }

  /** No step takes a connection back into the map, opens a socket again or forgets one. */
  predicate NeverBack(c: Conns, c': Conns) {
    && c.tracked.Keys <= c'.tracked.Keys && c.closed <= c'.closed
    && (forall id <- c.tracked :: id !in c.active ==> id !in c'.active)
  }

  lemma NewConn(closed: bool)
    ensures ConnInv(Track(NotStarted, Word(New, 0)), true, closed)
  {
  }

  lemma TrackKeeps(c: Conns, c': Conns, id: Id)
    requires ConnsInv(c) && id in c.acceptedBy && id !in c.tracked
    requires c' == c.(tracked := c.tracked[id := Track(NotStarted, Word(New, 0))],
                      active := c.active + {id}, total := c.total + 1)
    ensures ConnsInv(c') && NeverBack(c, c')
  {
    hide ConnInv;
    assert c'.tracked.Keys == c.tracked.Keys + {id};
    NewConn(id in c.closed);
    forall x <- c'.tracked
      ensures ConnInv(c'.tracked[x], x in c'.active, x in c'.closed)
    {
      assert x != id ==> c'.tracked[x] == c.tracked[x] && (x in c'.active <==> x in c.active);
    }
  }

  lemma ServeKeeps(t: Id, pc: ServePc, g: Gate, c: Conns, step: ServeStep)
    requires ConnsInv(c) && ServeKnows(t, pc, c)
    ensures var o := StepServe(t, pc, g, c, step);
      ConnsInv(o.conns) && ServeKnows(t, o.pc, o.conns) && NeverBack(c, o.conns)
  {
    if pc.Accepted? && step.TrackConn? && g.holder == Free {
      TrackKeeps(c, StepServe(t, pc, g, c, step).conns, pc.conn);
    } else if pc.Registered? && step.Spawn? {
      assert StepServe(t, pc, g, c, step).conns.tracked.Keys == c.tracked.Keys;
    }
  }

  lemma ServeLeaves(t: Id, pc: ServePc, g: Gate, c: Conns, step: ServeStep, me: Holder)
    requires ServeKnows(t, pc, c) && me != HeldByServe(t) && me != Free
    ensures Leaves(me, g, c, StepServe(t, pc, g, c, step).conns)
  {
  }

  lemma ShutKeeps(c: Conns, id: Id)
    requires ConnsInv(c)
    ensures ConnsInv(Shut(c, id)) && NeverBack(c, Shut(c, id))
  {
  }

  lemma OneLess(todo: set<Id>, active: set<Id>, id: Id)
    requires id !in todo && todo + {id} <= active
    ensures active - {id} == todo <==> active == todo + {id}
    ensures active != todo && todo <= active - {id}
  {
    if active - {id} == todo {
      assert active == active - {id} + {id};
    }
  }

  lemma StopKeeps(t: Id, pc: StopPc, g: Gate, c: Conns, step: StopStep)
    requires ConnsInv(c) && StopKnows(pc, c)
    ensures var o := StepStop(t, pc, g, c, step);
      ConnsInv(o.conns) && StopKnows(o.pc, o.conns) && NeverBack(c, o.conns)
  {
    hide Sweepable, CloseDoneChan, ConnsInv;
    if step.CloseOneConn? {
      ShutKeeps(c, step.conn);
    } else if step.LoadWord? && pc.Sweeping? && step.conn in pc.todo {
      assert pc.todo - {step.conn} + {step.conn} == pc.todo;
    } else if step.Judge? && pc.Looked? {
      ShutKeeps(c, pc.conn);
      OneLess(pc.todo, c.active, pc.conn);
    }
  }

  lemma StopLeaves(t: Id, pc: StopPc, g: Gate, c: Conns, step: StopStep, me: Holder)
    requires StopInv(t, pc, g) && me != HeldByStop(t) && me != Free
    ensures Leaves(me, g, c, StepStop(t, pc, g, c, step).conns)
  {
    hide Sweepable, CloseDoneChan;
  }

  lemma ConnKeeps(id: Id, g: Gate, c: Conns, step: ConnStep)
    requires ConnsInv(c) && id in c.tracked
    ensures var c' := StepConn(id, g, c, step); ConnsInv(c') && NeverBack(c, c')
  {
    assert StepConn(id, g, c, step).tracked.Keys == c.tracked.Keys;
  }

  lemma ConnLeaves(id: Id, g: Gate, c: Conns, step: ConnStep, me: Holder)
    requires id in c.tracked && me != Free
    ensures Leaves(me, g, c, StepConn(id, g, c, step))
  {
  }

  lemma ServeStill(t: Id, pc: ServePc, g: Gate, c: Conns, c': Conns)
    requires ServeKnows(t, pc, c) && Leaves(HeldByServe(t), g, c, c')
    ensures ServeKnows(t, pc, c')
  {
  }

  lemma StopStill(t: Id, pc: StopPc, g: Gate, c: Conns, c': Conns)
    requires StopInv(t, pc, g) && StopKnows(pc, c) && Leaves(HeldByStop(t), g, c, c')
    ensures StopKnows(pc, c')
  {
  }

  lemma TrackingStep(s: State, a: Action)
    requires ShutdownInv(s) && TrackingInv(s)
    ensures TrackingInv(Step(s, a)) && NeverBack(s.conns, Step(s, a).conns)
  {
    hide StepServe, StepStop, StepConn, GateInv, ServeInv, StopInv, ConnsInv, ServeKnows, StopKnows, Leaves;
    var c' := Step(s, a).conns;
    match a
    case ServeAction(t, step) =>
      if t in s.serves {
        ServeKeeps(t, s.serves[t], s.gate, s.conns, step);
        forall u <- s.serves | u != t ensures ServeKnows(u, s.serves[u], c') {
          ServeLeaves(t, s.serves[t], s.gate, s.conns, step, HeldByServe(u));
          ServeStill(u, s.serves[u], s.gate, s.conns, c');
        }
        forall u <- s.stops ensures StopKnows(s.stops[u], c') {
          ServeLeaves(t, s.serves[t], s.gate, s.conns, step, HeldByStop(u));
          StopStill(u, s.stops[u], s.gate, s.conns, c');
        }
      }
    case StopAction(t, step) =>
      if t in s.stops {
        StopKeeps(t, s.stops[t], s.gate, s.conns, step);
        forall u <- s.serves ensures ServeKnows(u, s.serves[u], c') {
          StopLeaves(t, s.stops[t], s.gate, s.conns, step, HeldByServe(u));
          ServeStill(u, s.serves[u], s.gate, s.conns, c');
        }
        forall u <- s.stops | u != t ensures StopKnows(s.stops[u], c') {
          StopLeaves(t, s.stops[t], s.gate, s.conns, step, HeldByStop(u));
          StopStill(u, s.stops[u], s.gate, s.conns, c');
        }
      }
    case ConnAction(id, step) =>
      if id in s.conns.tracked {
        ConnKeeps(id, s.gate, s.conns, step);
        forall u <- s.serves ensures ServeKnows(u, s.serves[u], c') {
          ConnLeaves(id, s.gate, s.conns, step, HeldByServe(u));
          ServeStill(u, s.serves[u], s.gate, s.conns, c');
        }
        forall u <- s.stops ensures StopKnows(s.stops[u], c') {
          ConnLeaves(id, s.gate, s.conns, step, HeldByStop(u));
          StopStill(u, s.stops[u], s.gate, s.conns, c');
        }
      }
  }

  lemma {:induction false} TrackingRun(s: State, actions: seq<Action>)
    requires ShutdownInv(s) && TrackingInv(s)
    ensures TrackingInv(Run(s, actions)) && NeverBack(s.conns, Run(s, actions).conns)
  {
    hide ShutdownInv, TrackingInv, Step;
    if actions != [] {
      var before := actions[..|actions| - 1];
      TrackingRun(s, before);
      ShutdownRun(s, before);
      TrackingStep(Run(s, before), actions[|actions| - 1]);
    }
  }

  lemma InitTracking(s: State)
    requires Init(s)
    ensures ShutdownInv(s) && TrackingInv(s)
  {
    InitInv(s);
  }

  // ----- no leak -----

  lemma Split(a: set<Id>, b: set<Id>)
    requires a <= b
    ensures |b| - |a| == |b - a|
  {
    assert b == a + (b - a);
  }

  /** At any time: every connection that ever entered the map is still in it or has had its socket
      closed, and the counter minus the size of the map is the number of those that left it. */
  lemma NoLeak(s: State, actions: seq<Action>)
    requires Init(s)
    ensures
      var c := Run(s, actions).conns;
      && (forall id <- c.tracked :: id in c.active || id in c.closed)
      && c.total - |c.active| == |c.tracked.Keys - c.active|
  {
    hide Step, Run, StopInv, ServeInv, ServeKnows, StopKnows;
    InitTracking(s);
    TrackingRun(s, actions);
    var c := Run(s, actions).conns;
    Split(c.active, c.tracked.Keys);
  }

  /** A connection that has left the map never enters it again. */
  lemma NeverReadded(s: State, id: Id, before: seq<Action>, after: seq<Action>)
    requires Init(s)
    requires id in Run(s, before).conns.tracked && id !in Run(s, before).conns.active
    ensures id in Run(s, before + after).conns.closed && id !in Run(s, before + after).conns.active
  {
    hide Step, Run, StopInv, ServeInv, ServeKnows, StopKnows;
    InitTracking(s);
    ShutdownRun(s, before);
    TrackingRun(s, before);
    RunSplit(s, before, after);
    TrackingRun(Run(s, before), after);
  }

  // ----- the sweep -----

  /** The sweep reports quiescence exactly when the map is empty as it unlocks; every connection
      tracked so far then has its socket closed. `Close` leaves the map empty as it unlocks. */
  lemma SweepTellsTheTruth(s: State, actions: seq<Action>, t: Id)
    requires Init(s) && t in Run(s, actions).stops
    ensures
      var pc, c := Run(s, actions).stops[t], Run(s, actions).conns;
      && (pc.Sweeping? && pc.todo == {} ==> (pc.quiescent <==> c.active == {}))
      && (pc.Sweeping? && pc.todo == {} && pc.quiescent ==> c.tracked.Keys <= c.closed)
      && (pc == Unlocking(Close) ==> c.active == {} && c.tracked.Keys <= c.closed)
  {
    hide Step, Run, StopInv, ServeInv, ServeKnows;
    InitTracking(s);
    TrackingRun(s, actions);
    assert StopKnows(Run(s, actions).stops[t], Run(s, actions).conns);
  }

  // ----- when the last listener has gone -----

  lemma QuietStep(s: State, a: Action)
    requires ShutdownInv(s) && s.gate.ended && s.gate.listeners == {}
    ensures Step(s, a).conns.tracked.Keys == s.conns.tracked.Keys
    ensures Step(s, a).conns.active <= s.conns.active
  {
    hide StopInv, Sweepable;
    if a.ServeAction? && a.t in s.serves {
      assert ServeInv(a.t, s.serves[a.t], s.gate);
      assert !Open(s.serves[a.t]);
    }
  }

  lemma {:induction false} QuietRun(s: State, actions: seq<Action>)
    requires ShutdownInv(s) && s.gate.ended && s.gate.listeners == {}
    ensures Run(s, actions).conns.tracked.Keys == s.conns.tracked.Keys
    ensures Run(s, actions).conns.active <= s.conns.active
  {
    hide ShutdownInv, Step;
    if actions != [] {
      var before := actions[..|actions| - 1];
      QuietRun(s, before);
      ShutdownRun(s, before);
      RunAfterEnd(s, before);
      QuietStep(Run(s, before), actions[|actions| - 1]);
    }
  }

  /** The last thing a successful `Shutdown` sees is an empty listener map. From then on no
      connection is ever tracked, and the map of connections only shrinks. When it is empty as
      `Shutdown` returns is the subject of `ServerReturns`. */
  lemma NothingTrackedAfterShutdown(s: State, t: Id, before: seq<Action>, after: seq<Action>)
    requires Init(s) && t in Run(s, before).stops && Run(s, before).stops[t] == Swept(true)
    requires Step(Run(s, before), StopAction(t, CountListeners)).stops[t] == Stopped
    ensures Run(s, before + after).conns.tracked.Keys == Run(s, before).conns.tracked.Keys
    ensures Run(s, before + after).conns.active <= Run(s, before).conns.active
  {
    hide Run, ServeInv;
    InitInv(s);
    ShutdownRun(s, before);
    RunSplit(s, before, after);
    assert StopInv(t, Swept(true), Run(s, before).gate);
    QuietRun(Run(s, before), after);
  }
}
