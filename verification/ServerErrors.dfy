/** Why a `Serve` call returns: what becomes of a failed `Accept`, and what each of the two results
    means, under every interleaving. */
module ServerErrors {
  import opened Server
  import opened ServerProofs

  predicate CallAt(s: State, t: Id, pc: ServePc) {
    t in s.serves && s.serves[t] == pc
  }

  // ----- a failed Accept -----

  /** The call has seen an error of this kind and not yet decided what to do about it. */
  predicate Undecided(s: State, t: Id, temporary: bool) {
    && t in s.serves
    && match s.serves[t]
       case AcceptFailed(kind, _) => kind == temporary
       case GotDoneChan(kind, _) => kind == temporary
       case _ => false
  }

  lemma UndecidedStep(s: State, t: Id, temporary: bool, a: Action)
    requires Undecided(s, t, temporary) && a != ServeAction(t, Select)
    ensures Undecided(Step(s, a), t, temporary)
  {
    hide StepStop, StepConn;
  }

  lemma {:induction false} UndecidedRun(s: State, t: Id, temporary: bool, actions: seq<Action>)
    requires Undecided(s, t, temporary) && ServeAction(t, Select) !in actions
    ensures Undecided(Run(s, actions), t, temporary)
  {
    hide Step, Undecided;
    if actions != [] {
      UndecidedRun(s, t, temporary, actions[..|actions| - 1]);
      UndecidedStep(Run(s, actions[..|actions| - 1]), t, temporary, actions[|actions| - 1]);
    }
  }

  /** What becomes of a failed `Accept`. Whatever runs between the failure and the look at the done
      channel that follows it, the call goes back to accepting if and only if the error was temporary
      and the channel is open by then; it returns ErrServerClosed if and only if the channel is
      closed by then, and the error itself if and only if neither is so. */
  lemma FailureDecides(s: State, t: Id, temporary: bool, between: seq<Action>)
    requires CallAt(s, t, Accepting) && ServeAction(t, Select) !in between
    requires
      var r := Run(Step(s, ServeAction(t, FailAccept(temporary))), between);
      t in r.serves && r.serves[t].GotDoneChan?
    ensures
      var r := Run(Step(s, ServeAction(t, FailAccept(temporary))), between);
      var r' := Step(r, ServeAction(t, Select));
      && (CallAt(r', t, Accepting) <==> temporary && r.gate.doneChan != ClosedChan)
      && (CallAt(r', t, Returning(ErrServerClosed)) <==> r.gate.doneChan == ClosedChan)
      && (CallAt(r', t, Returning(AcceptError)) <==> !temporary && r.gate.doneChan != ClosedChan)
  {
    hide Run;
    UndecidedRun(Step(s, ServeAction(t, FailAccept(temporary))), t, temporary, between);
  }

  // ----- the error -----

  /** Past the loop with the error `Accept` gave. */
  predicate Failed(pc: ServePc) {
    pc == Returning(AcceptError) || pc == Closing(AcceptError) || pc == Returned(AcceptError)
  }

  /** Failed, or about to be unless the channel is closed. */
  predicate Failing(s: State, t: Id) {
    Undecided(s, t, false) || (t in s.serves && Failed(s.serves[t]))
  }

  /** Action `k` of the run was an `Accept` of the call that failed for good, and the call has not
      accepted since. */
  predicate FailedAt(s: State, actions: seq<Action>, t: Id, k: nat)
    requires k < |actions|
  {
    && actions[k] == ServeAction(t, FailAccept(false)) && CallAt(Run(s, actions[..k]), t, Accepting)
    && forall j :: k < j <= |actions| ==> Failing(Run(s, actions[..j]), t)
  }

  lemma IntoFailing(s: State, t: Id, a: Action)
    requires Failing(Step(s, a), t) && !Failing(s, t)
    ensures a == ServeAction(t, FailAccept(false)) && CallAt(s, t, Accepting)
  {
    hide StepStop, StepConn;
  }

  lemma StartsSound(s: State, t: Id)
    requires Init(s)
    ensures !Failing(s, t)
  {
  }

  /** A call that returns the error of `Accept` returns it for an error that was not temporary, and
      never accepted again after it. */
  lemma {:induction false} FailedForGood(s: State, actions: seq<Action>, t: Id) returns (k: nat)
    requires Init(s) && Failing(Run(s, actions), t)
    ensures k < |actions| && FailedAt(s, actions, t, k)
  {
    hide Step, Failing, Init;
    StartsSound(s, t);
    var n := |actions| - 1;
    var before := actions[..n];
    assert actions[..|actions|] == actions;
    if Failing(Run(s, before), t) {
      k := FailedForGood(s, before, t);
      assert before[..k] == actions[..k];
      forall j | k < j <= |actions|
        ensures Failing(Run(s, actions[..j]), t)
      {
        if j <= n {
          assert before[..j] == actions[..j];
        }
      }
    } else {
      k := n;
      IntoFailing(Run(s, before), t, actions[n]);
    }
  }

  // ----- ErrServerClosed -----

  /** Past the loop with ErrServerClosed, or about to be refused. */
  predicate Refused(pc: ServePc) {
    pc == Loaded(true) || pc == Returning(ErrServerClosed) || pc == Closing(ErrServerClosed)
    || pc == Returned(ErrServerClosed)
  }

  predicate FlagInv(s: State) {
    && (s.gate.doneChan == ClosedChan ==> s.gate.inShutdown)
    && (forall t <- s.serves :: Refused(s.serves[t]) ==> s.gate.inShutdown)
  }

  lemma ServeFlag(t: Id, pc: ServePc, g: Gate, c: Conns, step: ServeStep)
    requires g.doneChan == ClosedChan || Refused(pc) ==> g.inShutdown
    ensures var o := StepServe(t, pc, g, c, step);
      && o.gate.inShutdown == g.inShutdown
      && (o.gate.doneChan == ClosedChan || Refused(o.pc) ==> g.inShutdown)
  {
  }

  lemma StopFlag(t: Id, pc: StopPc, g: Gate, c: Conns, step: StopStep)
    requires (g.doneChan == ClosedChan ==> g.inShutdown) && StopInv(t, pc, g)
    ensures var o := StepStop(t, pc, g, c, step);
      && (g.inShutdown ==> o.gate.inShutdown)
      && (o.gate.doneChan == ClosedChan ==> o.gate.inShutdown)
  {
    hide Sweepable, Shut;
  }

  lemma FlagStep(s: State, a: Action)
    requires ShutdownInv(s) && FlagInv(s)
    ensures FlagInv(Step(s, a))
  {
    hide StepServe, StepStop, StepConn, GateInv, ServeInv, StopInv, Refused;
    match a
    case ServeAction(t, step) => if t in s.serves { ServeFlag(t, s.serves[t], s.gate, s.conns, step); }
    case StopAction(t, step) => if t in s.stops { StopFlag(t, s.stops[t], s.gate, s.conns, step); }
    case ConnAction(_, _) =>
  }

  lemma {:induction false} FlagRun(s: State, actions: seq<Action>)
    requires ShutdownInv(s) && FlagInv(s)
    ensures FlagInv(Run(s, actions))
  {
    hide ShutdownInv, FlagInv, Step;
    if actions != [] {
      var before := actions[..|actions| - 1];
      FlagRun(s, before);
      ShutdownRun(s, before);
      FlagStep(Run(s, before), actions[|actions| - 1]);
    }
  }

  lemma InitFlag(s: State)
    requires Init(s)
    ensures FlagInv(s)
  {
  }

  /** A call returns ErrServerClosed only when the server has been told to stop, and never for an
      error that a running server met. */
  lemma ClosedMeansShutdown(s: State, actions: seq<Action>, t: Id)
    requires Init(s) && t in Run(s, actions).serves && Refused(Run(s, actions).serves[t])
    ensures Run(s, actions).gate.inShutdown
  {
    hide Run, Init, ShutdownInv, Refused;
    InitInv(s);
    InitFlag(s);
    FlagRun(s, actions);
  }

  /** A call leaves its loop. */
  predicate Leaving(pc: ServePc) {
    pc.Returning? || pc.Closing? || pc.Returned?
  }

  lemma TwoResults(pc: ServePc)
    requires Leaving(pc)
    ensures Failed(pc) || Refused(pc)
  {
    var result :=
      match pc
      case Returning(r) => r
      case Closing(r) => r
      case Returned(r) => r
      case _ => AcceptError;
    assert result.ErrServerClosed? || result.AcceptError?;
  }

  /** A call that has returned has taken its listener out of the map and closed it; before it gets
      there, and unless it was refused, the listener is in the map. */
  lemma ReturnedClean(s: State, actions: seq<Action>, t: Id)
    requires Init(s) && t in Run(s, actions).serves
    ensures
      var pc, g := Run(s, actions).serves[t], Run(s, actions).gate;
      && (pc.Returned? ==> t !in g.listeners && t in g.closedListeners)
      && (Open(pc) ==> t in g.listeners)
  {
    hide Run, Init, GateInv, StopInv;
    InitInv(s);
    ShutdownRun(s, actions);
    assert ServeInv(t, Run(s, actions).serves[t], Run(s, actions).gate);
  }

  /** A call leaves its loop only if the server has been told to stop or an `Accept` of the call failed
      for good: temporary errors alone never end it. */
  lemma TemporaryErrorsSurvived(s: State, actions: seq<Action>, t: Id)
    requires Init(s) && t in Run(s, actions).serves && Leaving(Run(s, actions).serves[t])
    ensures Run(s, actions).gate.inShutdown || ServeAction(t, FailAccept(false)) in actions
  {
    hide Run, Init;
    TwoResults(Run(s, actions).serves[t]);
    if Refused(Run(s, actions).serves[t]) {
      ClosedMeansShutdown(s, actions, t);
    } else {
      var k := FailedForGood(s, actions, t);
      assert actions[k] in actions;
    }
  }
}
