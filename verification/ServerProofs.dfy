/** Shutdown under every interleaving, by rely and guarantee: what each call knows of the shared
    state, and what no step of another call can take away from it. */
module ServerProofs {
  import opened Server

  // ----- what each call knows -----

  predicate ServeHolds(pc: ServePc) {
    pc.Tracking? || pc.Loaded?
  }

  /** In its accept loop. */
  predicate Open(pc: ServePc) {
    pc.Accepting? || pc.Accepted? || pc.Registered? || pc.AcceptFailed? || pc.GotDoneChan?
  }

  /** In the section that stops the server. */
  predicate InSection(pc: StopPc) {
    pc.ClosingListeners? || pc.ClosingDone? || pc.ClosingConns? || pc.Unlocking?
  }

  predicate InSweep(pc: StopPc) {
    pc.Sweeping? || pc.Looked?
  }

  predicate ListenersClosed(g: Gate) {
    g.listeners <= g.closedListeners
  }

  /** Whatever the calls do. */
  predicate GateInv(g: Gate) {
    && g.closes == (if g.doneChan == ClosedChan then 1 else 0)
    && (g.ended ==> g.inShutdown && g.doneChan == ClosedChan && ListenersClosed(g))
  }

  predicate ServeInv(t: Id, pc: ServePc, g: Gate) {
    && (ServeHolds(pc) <==> g.holder == HeldByServe(t))
    // a flag read as false was read before any section ended
    && (pc == Loaded(false) ==> !g.ended)
    && (Open(pc) || pc.Returning? <==> t in g.listeners)
    // a listener that its own call has not closed was closed by a section
    && (t in g.closedListeners && !pc.Returned? ==> g.ended || g.holder.HeldByStop?)
    && ((pc.AcceptFailed? && pc.closed) || pc.Returned? ==> t in g.closedListeners)
    && (pc.GotDoneChan? && pc.closed ==> g.doneChan == ClosedChan)
  }

  predicate StopInv(t: Id, pc: StopPc, g: Gate) {
    && (InSection(pc) || InSweep(pc) <==> g.holder == HeldByStop(t))
    && (!pc.Called? ==> g.inShutdown)
    && (pc.Polling? || InSweep(pc) || pc.Swept? || pc.Stopped? ==> g.ended)
    && match pc
       case ClosingListeners(kind, todo) =>
         g.listeners - todo <= g.closedListeners && (kind == Close ==> g.doneChan == ClosedChan)
       case ClosingDone(kind) => kind == Shutdown ==> ListenersClosed(g)
       case ClosingConns(_) => ListenersClosed(g) && g.doneChan == ClosedChan
       case Unlocking(_) => ListenersClosed(g) && g.doneChan == ClosedChan
       case _ => true
  }

  predicate ShutdownInv(s: State) {
    && GateInv(s.gate) && s.gate.listeners <= s.serves.Keys
    && (forall t <- s.serves :: ServeInv(t, s.serves[t], s.gate))
    && (forall t <- s.stops :: StopInv(t, s.stops[t], s.gate))
  }

  // ----- what it may rely on -----

  /** What a step of another call leaves to `me`. */
  predicate Rely(me: Holder, g: Gate, g': Gate) {
    && (g.holder == me <==> g'.holder == me)
    && (g.inShutdown ==> g'.inShutdown)
    && (g.ended ==> g'.ended)
    && (g.doneChan == ClosedChan ==> g'.doneChan == ClosedChan)
    && g.closedListeners <= g'.closedListeners
    && (g.holder == me ==> g'.listeners == g.listeners && g'.ended == g.ended)
    && (me.HeldByServe? ==> (me.serve in g.listeners <==> me.serve in g'.listeners))
    && (me.HeldByServe? && me.serve in g'.closedListeners - g.closedListeners ==> g'.holder.HeldByStop?)
    && (g.holder.HeldByStop? ==> g'.ended || g'.holder.HeldByStop?)
  }

  lemma ServeStable(t: Id, pc: ServePc, g: Gate, g': Gate)
    requires ServeInv(t, pc, g) && Rely(HeldByServe(t), g, g')
    ensures ServeInv(t, pc, g')
  {
  }

  lemma StopStable(t: Id, pc: StopPc, g: Gate, g': Gate)
    requires StopInv(t, pc, g) && Rely(HeldByStop(t), g, g')
    ensures StopInv(t, pc, g')
  {
  }

  lemma ServeOwn(t: Id, pc: ServePc, g: Gate, c: Conns, step: ServeStep)
    requires GateInv(g) && ServeInv(t, pc, g)
    ensures var o := StepServe(t, pc, g, c, step); GateInv(o.gate) && ServeInv(t, o.pc, o.gate)
    ensures StepServe(t, pc, g, c, step).gate.listeners <= g.listeners + {t}
  {
  }

  lemma ServeGuarantee(t: Id, pc: ServePc, g: Gate, c: Conns, step: ServeStep, me: Holder)
    requires ServeInv(t, pc, g) && me != HeldByServe(t) && me != Free
    ensures Rely(me, g, StepServe(t, pc, g, c, step).gate)
  {
  }

  lemma StopOwn(t: Id, pc: StopPc, g: Gate, c: Conns, step: StopStep)
    requires GateInv(g) && StopInv(t, pc, g)
    ensures var o := StepStop(t, pc, g, c, step); GateInv(o.gate) && StopInv(t, o.pc, o.gate)
    ensures StepStop(t, pc, g, c, step).gate.listeners == g.listeners
  {
    hide Sweepable, Shut;
  }

  lemma StopGuarantee(t: Id, pc: StopPc, g: Gate, c: Conns, step: StopStep, me: Holder)
    requires StopInv(t, pc, g) && me != HeldByStop(t) && me != Free
    ensures Rely(me, g, StepStop(t, pc, g, c, step).gate)
  {
    hide Sweepable, Shut;
  }

  // ----- every step, every run -----

  lemma ShutdownStep(s: State, a: Action)
    requires ShutdownInv(s)
    ensures ShutdownInv(Step(s, a))
  {
    hide StepServe, StepStop, StepConn, GateInv, ServeInv, StopInv, Rely;
    match a
    case ServeAction(t, step) =>
      if t in s.serves {
        ServeOwn(t, s.serves[t], s.gate, s.conns, step);
        var g' := StepServe(t, s.serves[t], s.gate, s.conns, step).gate;
        forall u <- s.serves | u != t ensures ServeInv(u, s.serves[u], g') {
          ServeGuarantee(t, s.serves[t], s.gate, s.conns, step, HeldByServe(u));
          ServeStable(u, s.serves[u], s.gate, g');
        }
        forall u <- s.stops ensures StopInv(u, s.stops[u], g') {
          ServeGuarantee(t, s.serves[t], s.gate, s.conns, step, HeldByStop(u));
          StopStable(u, s.stops[u], s.gate, g');
        }
      }
    case StopAction(t, step) =>
      if t in s.stops {
        StopOwn(t, s.stops[t], s.gate, s.conns, step);
        var g' := StepStop(t, s.stops[t], s.gate, s.conns, step).gate;
        forall u <- s.serves ensures ServeInv(u, s.serves[u], g') {
          StopGuarantee(t, s.stops[t], s.gate, s.conns, step, HeldByServe(u));
          ServeStable(u, s.serves[u], s.gate, g');
        }
        forall u <- s.stops | u != t ensures StopInv(u, s.stops[u], g') {
          StopGuarantee(t, s.stops[t], s.gate, s.conns, step, HeldByStop(u));
          StopStable(u, s.stops[u], s.gate, g');
        }
      }
    case ConnAction(_, _) =>
  }

  lemma {:induction false} ShutdownRun(s: State, actions: seq<Action>)
    requires ShutdownInv(s)
    ensures ShutdownInv(Run(s, actions))
  {
    hide ShutdownInv, Step;
    if actions != [] {
      ShutdownRun(s, actions[..|actions| - 1]);
      ShutdownStep(Run(s, actions[..|actions| - 1]), actions[|actions| - 1]);
    }
  }

  lemma {:induction false} InitInv(s: State)
    requires Init(s)
    ensures ShutdownInv(s)
  {
  }

  lemma {:induction false} RunSplit(s: State, before: seq<Action>, after: seq<Action>)
    ensures Run(s, before + after) == Run(Run(s, before), after)
  {
    hide Step;
    if after == [] {
      assert before + after == before;
    } else {
      var n := |after| - 1;
      assert (before + after)[..|before + after| - 1] == before + after[..n];
      RunSplit(s, before, after[..n]);
    }
  }

  // ----- after a section has ended -----

  lemma ServeAfterEnd(t: Id, pc: ServePc, g: Gate, c: Conns, step: ServeStep)
    requires GateInv(g) && ServeInv(t, pc, g) && g.ended
    ensures var o := StepServe(t, pc, g, c, step);
      o.gate.ended && o.gate.listeners <= g.listeners && o.conns.acceptedBy == c.acceptedBy
  {
  }

  lemma StopAfterEnd(t: Id, pc: StopPc, g: Gate, c: Conns, step: StopStep)
    requires g.ended
    ensures var o := StepStop(t, pc, g, c, step);
      o.gate.ended && o.gate.listeners == g.listeners && o.conns.acceptedBy == c.acceptedBy
  {
    hide Sweepable;
  }

  lemma StepAfterEnd(s: State, a: Action)
    requires ShutdownInv(s) && s.gate.ended
    ensures var s' := Step(s, a);
      s'.gate.ended && s'.gate.listeners <= s.gate.listeners && s'.conns.acceptedBy == s.conns.acceptedBy
  {
    hide StepServe, StepStop, GateInv, ServeInv, StopInv;
    match a
    case ServeAction(t, step) => if t in s.serves { ServeAfterEnd(t, s.serves[t], s.gate, s.conns, step); }
    case StopAction(t, step) => if t in s.stops { StopAfterEnd(t, s.stops[t], s.gate, s.conns, step); }
    case ConnAction(_, _) =>
  }

  lemma {:induction false} RunAfterEnd(s: State, actions: seq<Action>)
    requires ShutdownInv(s) && s.gate.ended
    ensures var s' := Run(s, actions);
      s'.gate.ended && s'.gate.listeners <= s.gate.listeners && s'.conns.acceptedBy == s.conns.acceptedBy
  {
    hide ShutdownInv, Step;
    if actions != [] {
      var before := actions[..|actions| - 1];
      RunAfterEnd(s, before);
      ShutdownRun(s, before);
      StepAfterEnd(Run(s, before), actions[|actions| - 1]);
    }
  }

  /** Once the locked section of any `Shutdown` or `Close` has ended, whatever runs afterwards, in
      any order and with any call that was then between reading the flag and inserting its
      listener: every listener in the map is closed, none is ever added, no connection is ever
      accepted again, and the done channel is closed, exactly once. */
  lemma ShutdownSafety(s: State, before: seq<Action>, after: seq<Action>)
    requires Init(s) && Run(s, before).gate.ended
    ensures
      var ended, later := Run(s, before), Run(s, before + after);
      && later.gate.listeners <= ended.gate.listeners
      && later.gate.listeners <= later.gate.closedListeners
      && later.conns.acceptedBy == ended.conns.acceptedBy
      && later.gate.doneChan == ClosedChan && later.gate.closes == 1
  {
    hide Step, Run, ServeInv, StopInv;
    InitInv(s);
    ShutdownRun(s, before);
    RunSplit(s, before, after);
    RunAfterEnd(Run(s, before), after);
    ShutdownRun(Run(s, before), after);
  }

  /** At any time at all the done channel has been closed at most once. */
  lemma ClosedAtMostOnce(s: State, actions: seq<Action>)
    requires Init(s)
    ensures Run(s, actions).gate.closes <= 1
  {
    hide Step, Run, ServeInv, StopInv;
    InitInv(s);
    ShutdownRun(s, actions);
  }

  // ----- what a Serve call returns -----

  /** On its way to returning ErrServerClosed. */
  predicate Doomed(pc: ServePc) {
    match pc
    case AcceptFailed(_, closed) => closed
    case GotDoneChan(_, closed) => closed
    case Returning(result) => result == ErrServerClosed
    case Closing(result) => result == ErrServerClosed
    case Returned(result) => result == ErrServerClosed
    case _ => false
  }

  lemma DoomedStep(s: State, t: Id, a: Action)
    requires ShutdownInv(s) && t in s.serves && Doomed(s.serves[t])
    ensures t in Step(s, a).serves && Doomed(Step(s, a).serves[t])
  {
    hide StepStop, StepConn, StopInv;
    if a.ServeAction? && a.t == t {
      assert ServeInv(t, s.serves[t], s.gate);
    }
  }

  lemma {:induction false} DoomedRun(s: State, t: Id, actions: seq<Action>)
    requires ShutdownInv(s) && t in s.serves && Doomed(s.serves[t])
    ensures t in Run(s, actions).serves && Doomed(Run(s, actions).serves[t])
  {
    hide Step, ShutdownInv, Doomed;
    if actions != [] {
      var before := actions[..|actions| - 1];
      DoomedRun(s, t, before);
      ShutdownRun(s, before);
      DoomedStep(Run(s, before), t, actions[|actions| - 1]);
    }
  }

  /** A `Serve` call whose `Accept` failed on a closed listener never accepts again and can only
      return ErrServerClosed, even when the error claims to be temporary. */
  lemma FailedByShutdown(s: State, t: Id, before: seq<Action>, after: seq<Action>)
    requires Init(s) && t in Run(s, before).serves
    requires Run(s, before).serves[t].AcceptFailed? && Run(s, before).serves[t].closed
    ensures t in Run(s, before + after).serves && Doomed(Run(s, before + after).serves[t])
  {
    hide Step, Run, ServeInv, StopInv;
    InitInv(s);
    ShutdownRun(s, before);
    RunSplit(s, before, after);
    DoomedRun(Run(s, before), t, after);
  }

  /** On its way to being refused. */
  predicate Late(pc: ServePc) {
    || pc.Starting? || pc.Tracking? || pc == Loaded(true)
    || pc == Closing(ErrServerClosed) || pc == Returned(ErrServerClosed)
  }

  lemma {:induction false} LateRun(s: State, t: Id, actions: seq<Action>)
    requires ShutdownInv(s) && s.gate.ended && t in s.serves && Late(s.serves[t])
    ensures t in Run(s, actions).serves && Late(Run(s, actions).serves[t])
  {
    hide StepServe, StepStop, StepConn, ServeInv, StopInv, Late;
    if actions != [] {
      var before, a := actions[..|actions| - 1], actions[|actions| - 1];
      LateRun(s, t, before);
      ShutdownRun(s, before);
      RunAfterEnd(s, before);
      if a.ServeAction? && a.t == t {
        LateStep(t, Run(s, before).serves[t], Run(s, before).gate, Run(s, before).conns, a.serve);
      }
    }
  }

  lemma LateStep(t: Id, pc: ServePc, g: Gate, c: Conns, step: ServeStep)
    requires g.inShutdown && Late(pc)
    ensures Late(StepServe(t, pc, g, c, step).pc)
  {
  }

  /** A `Serve` call that has not begun when a section ends can only return ErrServerClosed, and its
      listener never enters the map. */
  lemma LateServe(s: State, t: Id, before: seq<Action>, after: seq<Action>)
    requires Init(s) && Run(s, before).gate.ended
    requires t in Run(s, before).serves && Run(s, before).serves[t] == Starting
    ensures t in Run(s, before + after).serves && Late(Run(s, before + after).serves[t])
  {
    hide Step, Run, ServeInv, StopInv;
    InitInv(s);
    ShutdownRun(s, before);
    RunSplit(s, before, after);
    LateRun(Run(s, before), t, after);
  }
}
