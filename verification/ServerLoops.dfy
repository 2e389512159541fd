/** `Serve` and `Shutdown` as loops, with whatever other calls do in between: one accepts until it is
    told to stop or `Accept` fails for good, the other polls until the sweep leaves no connection and no
    listener is left, or until its context is done. */
module ServerLoops {
  import opened Wire
  import opened ConnStates
  import opened Server
  import opened ServerProofs
  import opened ServerConns
  import opened ServerErrors
  import opened ServerReturns
  import opened ServerTracking

  /** Times are kept modulo 2^56. */
  function Normal(a: Action): Action {
    match a
    case ConnAction(id, step) => ConnAction(id, Kept(step))
    case ServeAction(t, Spawn(now)) => ServeAction(t, Spawn(now % TWO_TO_56))
    case _ => a
  }

  predicate IsOwn(t: Id, a: Action) {
    a.StopAction? && a.t == t
  }

  predicate IsOwnServe(t: Id, a: Action) {
    a.ServeAction? && a.t == t
  }

  lemma FitsServe(t: Id, pc: ServePc, g: Gate, c: Conns, step: ServeStep)
    requires Fits(c) && (step.Spawn? ==> 0 <= step.now < TWO_TO_56)
    ensures Fits(StepServe(t, pc, g, c, step).conns)
  {
  }

  lemma FitsStop(t: Id, pc: StopPc, g: Gate, c: Conns, step: StopStep)
    requires Fits(c)
    ensures Fits(StepStop(t, pc, g, c, step).conns)
  {
    hide Sweepable, CloseDoneChan;
  }

  lemma FitsConn(id: Id, g: Gate, c: Conns, step: ConnStep)
    requires Fits(c) && id in c.tracked
    ensures Fits(StepConn(id, g, c, Kept(step)))
  {
  }

  lemma FitsStep(s: State, a: Action)
    requires Fits(s.conns)
    ensures Fits(Step(s, Normal(a)).conns)
  {
    hide StepServe, StepStop, StepConn, Fits, Kept;
    match Normal(a)
    case ServeAction(t, step) => if t in s.serves { FitsServe(t, s.serves[t], s.gate, s.conns, step); }
    case StopAction(t, step) => if t in s.stops { FitsStop(t, s.stops[t], s.gate, s.conns, step); }
    case ConnAction(id, _) => if id in s.conns.tracked { FitsConn(id, s.gate, s.conns, a.conn); }
  }

  /** Where a call stands makes no difference to the steps of others. */
  lemma StepApart(s: State, t: Id, pc: StopPc, a: Action)
    requires !IsOwn(t, a)
    ensures Step(s.(stops := s.stops[t := pc]), a) == Step(s, a).(stops := Step(s, a).stops[t := pc])
  {
    hide StepServe, StepStop, StepConn;
    if a.StopAction? && a.t in s.stops {
      var o := StepStop(a.t, s.stops[a.t], s.gate, s.conns, a.stop);
      assert s.stops[t := pc][a.t := o.pc] == s.stops[a.t := o.pc][t := pc];
    }
  }

  lemma StepApartServe(s: State, t: Id, pc: ServePc, a: Action)
    requires !IsOwnServe(t, a)
    ensures Step(s.(serves := s.serves[t := pc]), a) == Step(s, a).(serves := Step(s, a).serves[t := pc])
  {
    hide StepServe, StepStop, StepConn;
    if a.ServeAction? && a.t in s.serves {
      var o := StepServe(a.t, s.serves[a.t], s.gate, s.conns, a.serve);
      assert s.serves[t := pc][a.t := o.pc] == s.serves[a.t := o.pc][t := pc];
    }
  }

  lemma RunNext(s: State, before: seq<Action>, a: Action)
    ensures Run(s, before + [a]) == Step(Run(s, before), a)
  {
    hide Step;
    assert (before + [a])[..|before|] == before;
  }

  lemma {:induction false} RunOn(s: State, before: seq<Action>, after: seq<Action>)
    ensures Run(s, before + after) == Run(Run(s, before), after)
  {
    hide Step;
    if after == [] {
      assert before + after == before;
    } else {
      var n := |after| - 1;
      assert (before + after)[..|before + after| - 1] == before + after[..n];
      RunOn(s, before, after[..n]);
    }
  }

  // ----- the loop -----

  /** One poll as the environment decides it: what other calls do before the sweep, the times at which
      connections are looked at and what they do meanwhile, what other calls do before the listeners are
      counted, and whether the context is done behind it. */
  datatype Poll = Poll(
    others: seq<Action>,
    clock: Id -> int,
    before: Id -> seq<Background>,
    between: Id -> seq<Background>,
    count: seq<Action>,
    giveUp: bool)

  /** `Waiting` as long as nothing has been decided: another call holds the mutex, or no more polls are
      given. */
  datatype Result = Waiting | Returned | GaveUp

  /** What `Accept` does, as the environment decides it, with what other calls do before it and up to
      three times behind it. A connection is accepted only if it is new and the listener is open. */
  datatype Attempt = Attempt(before: seq<Action>, outcome: Accepting, first: seq<Action>, second: seq<Action>)

  datatype Accepting = Yields(conn: Id, now: int) | Fails(temporary: bool)

  /** How long a call sleeps, in milliseconds, behind that many temporary failures in a row. */
  function BackOff(failures: nat): nat
    requires failures > 0
  {
    if failures == 1 then 5
    else if 2 * BackOff(failures - 1) > 1000 then 1000
    else 2 * BackOff(failures - 1)
  }

  function Power(k: nat): nat {
    if k == 0 then 1 else 2 * Power(k - 1)
  }

  /** Twice as long each time, from five milliseconds up to a second. */
  lemma {:induction false} BackOffDoubles(failures: nat)
    requires failures > 0
    ensures BackOff(failures) == if failures <= 8 then 5 * Power(failures - 1) else 1000
  {
    if failures > 1 {
      BackOffDoubles(failures - 1);
      if failures <= 9 {
        Powers();
      }
    }
  }

  lemma Powers()
    ensures Power(0) == 1 && Power(1) == 2 && Power(2) == 4 && Power(3) == 8 && Power(4) == 16 && Power(5) == 32
    ensures Power(6) == 64 && Power(7) == 128
  {
    assert Power(4) == 2 * Power(3) && Power(5) == 2 * Power(4);
    assert Power(6) == 2 * Power(5) && Power(7) == 2 * Power(6);
  }

  /** How a turn of the accept loop ends: the mutex is held by another call, nothing was attempted, the
      loop goes on, or it ends. */
  datatype Turn = Blocked | Nothing | Again(failed: bool) | Done(result: ServeResult) {
    predicate Fits(pc: ServePc) {
      match this
      case Blocked => true
      case Nothing => pc == Accepting
      case Again(_) => pc == Accepting
      case Done(result) => pc == Returning(result)
    }
  }

  /** The number of failures at the end. */
  function Streak(tries: seq<bool>): nat {
    if tries == [] || !tries[|tries| - 1] then 0 else 1 + Streak(tries[..|tries| - 1])
  }

  /** What a call sleeps whose attempts fail as told. */
  function Delays(tries: seq<bool>): seq<nat> {
    if tries == [] then []
    else Delays(tries[..|tries| - 1]) + if tries[|tries| - 1] then [BackOff(Streak(tries))] else []
  }

  lemma {:induction false} BackOffPositive(failures: nat)
    requires failures > 0
    ensures BackOff(failures) > 0
  {
    if failures > 1 {
      BackOffPositive(failures - 1);
    }
  }

  lemma NeverZero()
    ensures forall k: nat :: k > 0 ==> BackOff(k) > 0
  {
    forall k: nat | k > 0 ensures BackOff(k) > 0 {
      BackOffPositive(k);
    }
  }

  class Calls {
    const srv: Tracker
    var mu: Holder
    var serves: map<Id, ServePc>
    var stops: map<Id, StopPc>

    ghost predicate Valid()
      reads this, srv
    {
      srv.Valid()
    }

    /** The machine with the stopping call `t` at `pc`. */
    ghost function Here(t: Id, pc: StopPc): State
      reads this, srv
    {
      State(srv.TheGate(mu), srv.TheConns(), serves, stops[t := pc])
    }

    constructor (serves: map<Id, ServePc>, stops: map<Id, StopPc>)
      ensures Valid() && fresh(srv) && mu == Free && this.serves == serves && this.stops == stops
      ensures srv.TheGate(Free) == Gate(false, Free, {}, {}, NoChan, 0, false)
      ensures srv.TheConns() == Conns(map[], map[], {}, {}, 0)
    {
      this.serves, this.stops := serves, stops;
      mu := Free;
      srv := new Tracker();
    }

    /** One step of another call. */
    method OneElsewhere(t: Id, a: Action, ghost pc: StopPc)
      requires Valid() && !IsOwn(t, a)
      modifies this, srv
      ensures Valid() && Here(t, pc) == Step(old(Here(t, pc)), Normal(a))
    {
      hide Step, Fits;
      ValidFits(srv);
      var s := State(srv.TheGate(mu), srv.TheConns(), serves, stops);
      var r := Step(s, Normal(a));
      FitsStep(s, a);
      StepApart(s, t, pc, Normal(a));
      srv.Become(r.gate, r.conns);
      mu, serves, stops := r.gate.holder, r.serves, r.stops;
    }

    /** What other calls do while this one is not in a section. */
    method Elsewhere(t: Id, others: seq<Action>, ghost pc: StopPc, ghost s: State, ghost before: seq<Action>)
      returns (ghost actions: seq<Action>)
      requires Valid() && Run(s, before) == Here(t, pc)
      modifies this, srv
      ensures Valid() && Run(s, actions) == Here(t, pc)
      ensures StopAction(t, GiveUp) in actions <==> StopAction(t, GiveUp) in before
    {
      hide Step, Run, Normal;
      actions := before;
      for i := 0 to |others|
        invariant Valid() && Run(s, actions) == Here(t, pc)
        invariant StopAction(t, GiveUp) in actions <==> StopAction(t, GiveUp) in before
      {
        if !IsOwn(t, others[i]) {
          RunNext(s, actions, Normal(others[i]));
          NotOwn(t, others[i]);
          OneElsewhere(t, others[i], pc);
          actions := actions + [Normal(others[i])];
        }
      }
    }

    method NumListeners() returns (n: nat)
      ensures n == |srv.listeners|
    {
      n := |srv.listeners|;
    }

    /** One poll of the loop. */
    method PollOnce(t: Id, p: Poll, ghost s: State, ghost before: seq<Action>)
      returns (result: Result, blocked: bool, ghost pc: StopPc, ghost actions: seq<Action>)
      requires Valid() && Run(s, before) == Here(t, Polling)
      modifies this, srv
      ensures Valid() && Run(s, actions) == Here(t, pc)
      ensures result.Waiting? && !blocked ==> pc == Polling
      ensures !result.Waiting? ==> pc == Stopped
      ensures result.Returned? ==> srv.listeners == {}
      ensures StopAction(t, GiveUp) in actions <==> StopAction(t, GiveUp) in before || result.GaveUp?
    {
      hide Step, Run;
      actions := Elsewhere(t, p.others, Polling, s, before);
      if mu != Free {
        return Waiting, true, Polling, actions;
      }
      var quiescent: bool;
      quiescent, actions := Sweep(t, p, s, actions);
      result, blocked, pc, actions := Decide(t, p, quiescent, s, actions);
    }

    /** What the loop does with the verdict of the sweep. */
    method Decide(t: Id, p: Poll, quiescent: bool, ghost s: State, ghost before: seq<Action>)
      returns (result: Result, blocked: bool, ghost pc: StopPc, ghost actions: seq<Action>)
      requires Valid() && Run(s, before) == Here(t, Swept(quiescent))
      modifies this, srv
      ensures Valid() && Run(s, actions) == Here(t, pc)
      ensures result.Waiting? && !blocked ==> pc == Polling
      ensures !result.Waiting? ==> pc == Stopped
      ensures result.Returned? ==> srv.listeners == {}
      ensures StopAction(t, GiveUp) in actions <==> StopAction(t, GiveUp) in before || result.GaveUp?
    {
      hide Step, Run;
      actions := before;
      if quiescent {
        actions := Elsewhere(t, p.count, Swept(true), s, actions);
        if mu != Free {
          return Waiting, true, Swept(true), actions;
        }
        var n := NumListeners();
        if n == 0 {
          CountNext(s, actions, t, Here(t, Swept(true)), true);
          StopsTwice(stops, t, Swept(true), Stopped);
          return Result.Returned, false, Stopped, actions + [StopAction(t, CountListeners)];
        }
      }
      CountNext(s, actions, t, Here(t, Swept(quiescent)), quiescent);
      StopsTwice(stops, t, Swept(quiescent), Polling);
      actions := actions + [StopAction(t, CountListeners)];
      if p.giveUp {
        GiveUpNext(s, actions, t, Here(t, Polling));
        StopsTwice(stops, t, Polling, Stopped);
        return GaveUp, false, Stopped, actions + [StopAction(t, GiveUp)];
      }
      return Waiting, false, Polling, actions;
    }

    method Sweep(t: Id, p: Poll, ghost s: State, ghost before: seq<Action>)
      returns (quiescent: bool, ghost actions: seq<Action>)
      requires Valid() && mu == Free && Run(s, before) == Here(t, Polling)
      modifies srv
      ensures Valid() && Run(s, actions) == Here(t, Swept(quiescent))
      ensures quiescent <==> srv.activeConn == {}
      ensures StopAction(t, GiveUp) in actions <==> StopAction(t, GiveUp) in before
    {
      hide Step, Run;
      ghost var here := Here(t, Polling);
      ghost var loaded, sweep;
      quiescent, loaded, sweep := srv.CloseIdleConns(t, p.clock, p.before, p.between, here);
      RunOn(s, before, sweep);
      StopsTwice(stops, t, Polling, Swept(quiescent));
      actions := before + sweep;
    }

    /** All of `Shutdown`: others run first, then the section, undisturbed, then the poll loop. */
    method Shutdown(t: Id, others: seq<Action>, polls: seq<Poll>, ghost s: State, ghost before: seq<Action>)
      returns (result: Result, ghost pc: StopPc, ghost actions: seq<Action>)
      requires Init(s) && t in s.stops && s.stops[t] == Called(StopKind.Shutdown)
      requires Valid() && Run(s, before) == Here(t, Called(StopKind.Shutdown)) && StopAction(t, GiveUp) !in before
      modifies this, srv
      ensures Valid() && Run(s, actions) == Here(t, pc)
      ensures !result.Waiting? ==> pc == Stopped
      ensures result.Returned? ==> srv.listeners == {} && SweptEmpty(s, actions, t)
      ensures StopAction(t, GiveUp) in actions <==> result.GaveUp?
    {
      hide Step, Run, StopRun, Init;
      actions := Elsewhere(t, others, Called(StopKind.Shutdown), s, before);
      if mu != Free {
        return Waiting, Called(StopKind.Shutdown), actions;
      }
      actions := Section(t, s, actions);
      result, pc, actions := PollUntilQuiet(t, polls, s, actions);
      if result.Returned? {
        ghost var j, k := ShutdownReturnsQuiet(s, actions, t);
      }
    }

    method Section(t: Id, ghost s: State, ghost before: seq<Action>) returns (ghost actions: seq<Action>)
      requires Valid() && mu == Free && Run(s, before) == Here(t, Called(StopKind.Shutdown))
      modifies srv
      ensures Valid() && Run(s, actions) == Here(t, Polling)
      ensures StopAction(t, GiveUp) in actions <==> StopAction(t, GiveUp) in before
    {
      hide Step, Run, StopRun;
      ghost var here := Here(t, Called(StopKind.Shutdown));
      ghost var steps := srv.ShutdownSection(t);
      ghost var section := StopRunIsRun(here, t, steps);
      RunOn(s, before, section);
      assert here.stops[t := Polling] == stops[t := Polling];
      actions := before + section;
    }

    /** The poll loop: as many polls as the environment provides while it lasts. */
    method PollUntilQuiet(t: Id, polls: seq<Poll>, ghost s: State, ghost before: seq<Action>)
      returns (result: Result, ghost pc: StopPc, ghost actions: seq<Action>)
      requires Valid() && Run(s, before) == Here(t, Polling)
      modifies this, srv
      ensures Valid() && Run(s, actions) == Here(t, pc)
      ensures !result.Waiting? ==> pc == Stopped
      ensures result.Returned? ==> srv.listeners == {}
      ensures StopAction(t, GiveUp) in actions <==> StopAction(t, GiveUp) in before || result.GaveUp?
    {
      hide Step, Run;
      result, pc, actions := Waiting, Polling, before;
      for i := 0 to |polls|
        invariant Valid() && result.Waiting? && pc == Polling && Run(s, actions) == Here(t, Polling)
        invariant StopAction(t, GiveUp) in actions <==> StopAction(t, GiveUp) in before
      {
        var blocked: bool;
        result, blocked, pc, actions := PollOnce(t, polls[i], s, actions);
        if blocked || !result.Waiting? {
          return;
        }
      }
    }

    // ----- Serve -----

    /** The machine with the serving call `t` at `pc`. */
    ghost function There(t: Id, pc: ServePc): State
      reads this, srv
    {
      State(srv.TheGate(mu), srv.TheConns(), serves[t := pc], stops)
    }

    method OneApart(t: Id, a: Action, ghost pc: ServePc)
      requires Valid() && !IsOwnServe(t, a)
      modifies this, srv
      ensures Valid() && There(t, pc) == Step(old(There(t, pc)), Normal(a))
    {
      hide Step, Fits;
      ValidFits(srv);
      var s := State(srv.TheGate(mu), srv.TheConns(), serves, stops);
      var r := Step(s, Normal(a));
      FitsStep(s, a);
      StepApartServe(s, t, pc, Normal(a));
      srv.Become(r.gate, r.conns);
      mu, serves, stops := r.gate.holder, r.serves, r.stops;
    }

    /** What other calls do while this one serves. */
    method Apart(t: Id, others: seq<Action>, ghost pc: ServePc, ghost s: State, ghost before: seq<Action>)
      returns (ghost actions: seq<Action>)
      requires Valid() && Run(s, before) == There(t, pc)
      modifies this, srv
      ensures Valid() && Run(s, actions) == There(t, pc)
    {
      hide Step, Run, Normal;
      actions := before;
      for i := 0 to |others|
        invariant Valid() && Run(s, actions) == There(t, pc)
      {
        if !IsOwnServe(t, others[i]) {
          RunNext(s, actions, Normal(others[i]));
          NotOwnServe(t, others[i]);
          OneApart(t, others[i], pc);
          actions := actions + [Normal(others[i])];
        }
      }
    }

    /** What becomes of a failed `Accept`: the done channel is fetched, then looked at. */
    method AcceptFailure(t: Id, temporary: bool, a: Attempt, ghost s: State, ghost before: seq<Action>)
      returns (turn: Turn, ghost pc: ServePc, ghost actions: seq<Action>)
      requires Valid() && Run(s, before) == There(t, Accepting)
      modifies this, srv
      ensures Valid() && Run(s, actions) == There(t, pc) && turn.Fits(pc)
      ensures turn.Again? ==> temporary && turn.failed
    {
      hide Step, Run;
      ghost var closed := t in srv.closedListeners;
      ServeNextRun(s, before, t, There(t, Accepting), FailAccept(temporary));
      ServesTwice(serves, t, Accepting, AcceptFailed(temporary, closed));
      actions := before + [ServeAction(t, FailAccept(temporary))];
      actions := Apart(t, a.first, AcceptFailed(temporary, closed), s, actions);
      if mu != Free {
        return Blocked, AcceptFailed(temporary, closed), actions;
      }
      ServeNextRun(s, actions, t, There(t, AcceptFailed(temporary, closed)), ServeStep.GetDoneChan);
      srv.GetDoneChan();
      ServesTwice(serves, t, AcceptFailed(temporary, closed), GotDoneChan(temporary, closed));
      actions := actions + [ServeAction(t, ServeStep.GetDoneChan)];
      actions := Apart(t, a.second, GotDoneChan(temporary, closed), s, actions);
      turn, pc, actions := Look(t, temporary, closed, s, actions);
    }

    method Look(t: Id, temporary: bool, ghost closed: bool, ghost s: State, ghost before: seq<Action>)
      returns (turn: Turn, ghost pc: ServePc, ghost actions: seq<Action>)
      requires Valid() && Run(s, before) == There(t, GotDoneChan(temporary, closed))
      ensures Run(s, actions) == There(t, pc) && turn.Fits(pc)
      ensures turn.Again? ==> temporary && turn.failed
    {
      hide Step, Run;
      ServeNextRun(s, before, t, There(t, GotDoneChan(temporary, closed)), Select);
      actions := before + [ServeAction(t, Select)];
      if srv.doneChan == ClosedChan {
        turn, pc := Done(ErrServerClosed), Returning(ErrServerClosed);
      } else if temporary {
        turn, pc := Again(true), Accepting;
      } else {
        turn, pc := Done(AcceptError), Returning(AcceptError);
      }
      ServesTwice(serves, t, GotDoneChan(temporary, closed), pc);
    }

    /** A connection is accepted, registered, and its goroutine started. */
    method Took(t: Id, id: Id, now: int, a: Attempt, ghost s: State, ghost before: seq<Action>)
      returns (turn: Turn, ghost pc: ServePc, ghost actions: seq<Action>)
      requires Init(s) && Valid() && Run(s, before) == There(t, Accepting)
      requires t !in srv.closedListeners && id !in srv.acceptedBy
      modifies this, srv
      ensures Valid() && Run(s, actions) == There(t, pc) && turn.Fits(pc) && !turn.Done?
      ensures turn.Again? ==> !turn.failed
    {
      hide Step, Run, Init;
      ServeNextRun(s, before, t, There(t, Accepting), Accept(id));
      ServesTwice(serves, t, Accepting, Accepted(id));
      srv.acceptedBy := srv.acceptedBy[id := t];
      actions := before + [ServeAction(t, Accept(id))];
      actions := Apart(t, a.first, Accepted(id), s, actions);
      if mu != Free {
        return Blocked, Accepted(id), actions;
      }
      CallKnows(s, actions, t, There(t, Accepted(id)));
      ServeNextRun(s, actions, t, There(t, Accepted(id)), ServeStep.TrackConn);
      ServesTwice(serves, t, Accepted(id), Registered(id));
      srv.TrackConn(id, true);
      actions := actions + [ServeAction(t, ServeStep.TrackConn)];
      actions := Apart(t, a.second, Registered(id), s, actions);
      actions := Start(t, id, now, s, actions);
      return Again(false), Accepting, actions;
    }

    /** The state word of a registered connection and its goroutine. */
    method Start(t: Id, id: Id, now: int, ghost s: State, ghost before: seq<Action>)
      returns (ghost actions: seq<Action>)
      requires Init(s) && Valid() && Run(s, before) == There(t, Registered(id))
      modifies srv
      ensures Valid() && Run(s, actions) == There(t, Accepting)
    {
      hide Step, Run, Init, Unpack, Packed, Pack;
      CallKnows(s, before, t, There(t, Registered(id)));
      ServeNextRun(s, before, t, There(t, Registered(id)), Spawn(now % TWO_TO_56));
      ServesTwice(serves, t, Registered(id), Accepting);
      srv.StoreWord(id, New, now);
      srv.tracked := srv.tracked[id := srv.tracked[id].(pc := Serving)];
      actions := before + [ServeAction(t, Spawn(now % TWO_TO_56))];
    }

    /** One turn of the loop. An attempt the listener cannot make is none. */
    method AcceptOnce(t: Id, a: Attempt, ghost s: State, ghost before: seq<Action>)
      returns (turn: Turn, ghost pc: ServePc, ghost actions: seq<Action>)
      requires Init(s) && Valid() && Run(s, before) == There(t, Accepting)
      modifies this, srv
      ensures Valid() && Run(s, actions) == There(t, pc) && turn.Fits(pc)
    {
      hide Step, Run, Init;
      actions := Apart(t, a.before, Accepting, s, before);
      match a.outcome {
        case Fails(temporary) =>
          turn, pc, actions := AcceptFailure(t, temporary, a, s, actions);
        case Yields(id, now) =>
          if t in srv.closedListeners || id in srv.acceptedBy {
            return Nothing, Accepting, actions;
          }
          turn, pc, actions := Took(t, id, now, a, s, actions);
      }
    }

    /** The loop, and how long it slept behind temporary failures; `tries` tells which attempts failed. */
    method AcceptLoop(t: Id, attempts: seq<Attempt>, ghost s: State, ghost before: seq<Action>)
      returns (turn: Turn, slept: seq<nat>, tries: seq<bool>, ghost pc: ServePc, ghost actions: seq<Action>)
      requires Init(s) && Valid() && Run(s, before) == There(t, Accepting)
      modifies this, srv
      ensures Valid() && Run(s, actions) == There(t, pc) && turn.Fits(pc)
      ensures slept == Delays(tries) && |tries| <= |attempts|
    {
      hide Step, Run, Init, BackOff;
      var tempDelay := 0;
      turn, slept, tries, pc, actions := Nothing, [], [], Accepting, before;
      for i := 0 to |attempts|
        invariant Valid() && pc == Accepting && Run(s, actions) == There(t, Accepting) && turn.Fits(pc)
        invariant slept == Delays(tries) && |tries| <= i
        invariant tempDelay == if Streak(tries) == 0 then 0 else BackOff(Streak(tries))
      {
        turn, pc, actions := AcceptOnce(t, attempts[i], s, actions);
        if turn.Blocked? || turn.Done? {
          return;
        }
        if turn.Again? {
          assert (tries + [turn.failed])[..|tries|] == tries;
          tries := tries + [turn.failed];
          if turn.failed {
            tempDelay := LongerDelay(tempDelay);
            slept := slept + [tempDelay];
          } else {
            tempDelay := 0;
          }
        }
      }
    }

    method LongerDelay(tempDelay: nat) returns (longer: nat)
      ensures tempDelay == 0 ==> longer == BackOff(1)
      ensures forall k: nat :: k > 0 && tempDelay == BackOff(k) ==> longer == BackOff(k + 1)
    {
      if tempDelay == 0 {
        longer := 5;
      } else {
        longer := tempDelay * 2;
      }
      if longer > 1000 {
        longer := 1000;
      }
      NeverZero();
    }

    /** The deferred calls: the listener leaves the map, then it is closed. */
    method Leave(t: Id, result: ServeResult, last: Attempt, ghost s: State, ghost before: seq<Action>)
      returns (done: bool, ghost pc: ServePc, ghost actions: seq<Action>)
      requires Valid() && Run(s, before) == There(t, Returning(result))
      modifies this, srv
      ensures Valid() && Run(s, actions) == There(t, pc) && (done ==> pc == ServePc.Returned(result))
    {
      hide Step, Run;
      actions := Apart(t, last.before, Returning(result), s, before);
      if mu != Free {
        return false, Returning(result), actions;
      }
      ServeNextRun(s, actions, t, There(t, Returning(result)), Untrack);
      ServesTwice(serves, t, Returning(result), Closing(result));
      var _ := srv.TrackListener(t, false);
      actions := CloseListenerOnce(t, result, last.first, s, actions + [ServeAction(t, Untrack)]);
      return true, ServePc.Returned(result), actions;
    }

    method CloseListenerOnce(t: Id, result: ServeResult, others: seq<Action>, ghost s: State, ghost before: seq<Action>)
      returns (ghost actions: seq<Action>)
      requires Valid() && Run(s, before) == There(t, Closing(result))
      modifies this, srv
      ensures Valid() && Run(s, actions) == There(t, ServePc.Returned(result))
    {
      hide Step, Run;
      actions := Apart(t, others, Closing(result), s, before);
      ServeNextRun(s, actions, t, There(t, Closing(result)), CloseListener);
      ServesTwice(serves, t, Closing(result), ServePc.Returned(result));
      srv.closedListeners := srv.closedListeners + {t};
      actions := actions + [ServeAction(t, CloseListener)];
    }

    /** All of `Serve`: others run first, then the listener is registered, unless the server is shutting
        down, and connections are accepted until something ends the loop; None if nothing has ended it, or
        another call holds the mutex, when the attempts are used up. */
    method Serve(t: Id, others: seq<Action>, attempts: seq<Attempt>, last: Attempt,
                 ghost s: State, ghost before: seq<Action>)
      returns (result: Option<ServeResult>, slept: seq<nat>, tries: seq<bool>, ghost pc: ServePc,
               ghost actions: seq<Action>)
      requires Init(s) && Valid() && Run(s, before) == There(t, Starting)
      modifies this, srv
      ensures Valid() && Run(s, actions) == There(t, pc)
      ensures result.Some? ==> pc == ServePc.Returned(result.value)
      ensures result.Some? ==> t !in srv.listeners && t in srv.closedListeners
      ensures result == Some(ErrServerClosed) ==> srv.inShutdown
      ensures result == Some(AcceptError) ==> ServeAction(t, FailAccept(false)) in actions
      ensures slept == Delays(tries)
    {
      hide Step, Run, Init;
      result, slept, tries, pc := None, [], [], Starting;
      actions := Apart(t, others, Starting, s, before);
      if mu != Free {
        return;
      }
      var ok: bool;
      ok, actions := Register(t, s, actions);
      var done: bool;
      if !ok {
        actions := CloseListenerOnce(t, ErrServerClosed, last.first, s, actions);
        result, pc := Some(ErrServerClosed), ServePc.Returned(ErrServerClosed);
      } else {
        var turn;
        turn, slept, tries, pc, actions := AcceptLoop(t, attempts, s, actions);
        if !turn.Done? {
          return;
        }
        done, pc, actions := Leave(t, turn.result, last, s, actions);
        if !done {
          return;
        }
        result := Some(turn.result);
      }
      WhyReturned(s, actions, t, There(t, pc), result.value);
    }

    /** The listener goes into the map unless the flag is set, undisturbed. */
    method Register(t: Id, ghost s: State, ghost before: seq<Action>) returns (ok: bool, ghost actions: seq<Action>)
      requires Valid() && mu == Free && Run(s, before) == There(t, Starting)
      modifies srv
      ensures Valid() && Run(s, actions) == There(t, if ok then Accepting else Closing(ErrServerClosed))
    {
      hide Step, Run, ServeRun;
      ghost var there := There(t, Starting);
      ghost var section := ServeRunIsRun(there, t, [Lock, Load, Insert]);
      ok := srv.TrackListener(t, true);
      RunOn(s, before, section);
      ServesTwice(serves, t, Starting, if ok then Accepting else Closing(ErrServerClosed));
      actions := before + section;
    }
  }

  lemma StopsTwice(stops: map<Id, StopPc>, t: Id, a: StopPc, b: StopPc)
    ensures stops[t := a][t := b] == stops[t := b]
  {
  }

  lemma NotOwn(t: Id, a: Action)
    requires !IsOwn(t, a)
    ensures Normal(a) != StopAction(t, GiveUp)
  {
  }

  lemma CountNext(s: State, before: seq<Action>, t: Id, here: State, quiescent: bool)
    requires Run(s, before) == here && t in here.stops && here.stops[t] == Swept(quiescent)
    requires quiescent ==> here.gate.holder == Free
    ensures
      var after := if quiescent && here.gate.listeners == {} then Stopped else Polling;
      Run(s, before + [StopAction(t, CountListeners)]) == here.(stops := here.stops[t := after])
  {
    hide Run;
    RunNext(s, before, StopAction(t, CountListeners));
  }

  lemma GiveUpNext(s: State, before: seq<Action>, t: Id, here: State)
    requires Run(s, before) == here && t in here.stops && here.stops[t] == Polling
    ensures Run(s, before + [StopAction(t, GiveUp)]) == here.(stops := here.stops[t := Stopped])
  {
    hide Run;
    RunNext(s, before, StopAction(t, GiveUp));
  }

  lemma ServesTwice(serves: map<Id, ServePc>, t: Id, a: ServePc, b: ServePc)
    ensures serves[t := a][t := b] == serves[t := b]
  {
  }

  lemma NotOwnServe(t: Id, a: Action)
    requires !IsOwnServe(t, a)
    ensures !IsOwnServe(t, Normal(a))
  {
  }

  lemma ServeNextRun(s: State, before: seq<Action>, t: Id, there: State, step: ServeStep)
    requires Run(s, before) == there && t in there.serves
    ensures
      var o := StepServe(t, there.serves[t], there.gate, there.conns, step);
      Run(s, before + [ServeAction(t, step)]) == State(o.gate, o.conns, there.serves[t := o.pc], there.stops)
  {
    hide Run, StepServe;
    RunNext(s, before, ServeAction(t, step));
  }

  /** A connection that a call has in hand is tracked exactly from its registration on. */
  lemma CallKnows(s: State, actions: seq<Action>, t: Id, there: State)
    requires Init(s) && Run(s, actions) == there && t in there.serves
    ensures there.serves[t].Accepted? ==> there.serves[t].conn !in there.conns.tracked
    ensures there.serves[t].Registered? ==>
      && there.serves[t].conn in there.conns.tracked
      && there.conns.tracked[there.serves[t].conn].pc == NotStarted
  {
    hide Run, Init, ShutdownInv, ConnsInv, StopKnows;
    InitTracking(s);
    TrackingRun(s, actions);
    assert ServeKnows(t, there.serves[t], there.conns);
  }

  lemma WhyReturned(s: State, actions: seq<Action>, t: Id, there: State, result: ServeResult)
    requires Init(s) && Run(s, actions) == there && t in there.serves && there.serves[t] == ServePc.Returned(result)
    ensures t !in there.gate.listeners && t in there.gate.closedListeners
    ensures result == ErrServerClosed ==> there.gate.inShutdown
    ensures result == AcceptError ==> ServeAction(t, FailAccept(false)) in actions
  {
    hide Run, Init;
    ReturnedClean(s, actions, t);
    if result == ErrServerClosed {
      ClosedMeansShutdown(s, actions, t);
    } else {
      var k := FailedForGood(s, actions, t);
      assert actions[k] in actions;
    }
  }
}
