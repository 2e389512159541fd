/** Whether connections are left when `Shutdown` returns. It sweeps first and counts the listeners
    afterwards, so what matters is who waits to register a connection as the sweep unlocks. */
module ServerReturns {
  import opened Server
  import opened ServerProofs
  import opened ServerConns
  import opened ServerRuns

  /** Some call has accepted a connection and not registered it yet. */
  predicate Waiting(s: State) {
    exists u <- s.serves :: s.serves[u].Accepted?
  }

  // ----- when it returns -----

  /** A call of `Shutdown`, wherever it stands. */
  predicate IsShutdown(pc: StopPc) {
    match pc
    case Called(kind) => kind == Shutdown
    case Flagged(kind) => kind == Shutdown
    case ClosingListeners(kind, _) => kind == Shutdown
    case ClosingDone(kind) => kind == Shutdown
    case ClosingConns(_) => false
    case Unlocking(kind) => kind == Shutdown
    case _ => true
  }

  lemma ShutdownStays(t: Id, pc: StopPc, g: Gate, c: Conns, step: StopStep)
    requires IsShutdown(pc)
    ensures var o := StepStop(t, pc, g, c, step);
      && IsShutdown(o.pc)
      && (o.pc == Stopped && pc != Stopped ==>
            step == GiveUp || (step == CountListeners && pc == Swept(true) && g.listeners == {}))
      && (o.pc.Swept? && o.pc != pc ==> step == Unlock && pc == Sweeping({}, o.pc.quiescent))
  {
    hide Sweepable;
  }

  /** Action `k` of the run unlocked a sweep that ended with this verdict, and the call has not left that
      point since. */
  predicate UnlockedAt(s: State, actions: seq<Action>, t: Id, quiescent: bool, k: nat)
    requires k < |actions|
  {
    var r := Run(s, actions[..k]);
    && actions[k] == StopAction(t, Unlock)
    && t in r.stops && r.stops[t] == Sweeping({}, quiescent)
    && forall j :: k < j <= |actions| ==> At(Run(s, actions[..j]), t, Swept(quiescent))
  }

  predicate At(s: State, t: Id, pc: StopPc) {
    t in s.stops && s.stops[t] == pc
  }

  lemma {:induction false} StaysShutdown(s: State, actions: seq<Action>, t: Id)
    requires t in s.stops && IsShutdown(s.stops[t])
    ensures t in Run(s, actions).stops && IsShutdown(Run(s, actions).stops[t])
  {
    hide StepServe, StepStop, StepConn, IsShutdown;
    if actions != [] {
      var before, a := actions[..|actions| - 1], actions[|actions| - 1];
      StaysShutdown(s, before, t);
      var r := Run(s, before);
      if a.StopAction? && a.t == t {
        ShutdownStays(t, r.stops[t], r.gate, r.conns, a.stop);
      }
    }
  }

  lemma {:induction false} UnlockedEarlier(s: State, actions: seq<Action>, t: Id) returns (k: nat)
    requires t in s.stops && IsShutdown(s.stops[t]) && !s.stops[t].Swept?
    requires t in Run(s, actions).stops && Run(s, actions).stops[t].Swept?
    ensures k < |actions| && UnlockedAt(s, actions, t, Run(s, actions).stops[t].quiescent, k)
  {
    hide StepServe, StepStop, StepConn, IsShutdown;
    var n := |actions| - 1;
    var before, a := actions[..n], actions[n];
    var r, pc := Run(s, before), Run(s, actions).stops[t];
    StaysShutdown(s, before, t);
    assert actions[..|actions|] == actions;
    if r.stops[t] == pc {
      k := UnlockedEarlier(s, before, t);
      assert before[..k] == actions[..k];
      forall j | k < j <= |actions|
        ensures At(Run(s, actions[..j]), t, pc)
      {
        if j <= n {
          assert before[..j] == actions[..j];
        }
      }
    } else {
      k := n;
      ShutdownStays(t, r.stops[t], r.gate, r.conns, a.stop);
    }
  }

  /** The last step of a `Shutdown` that has come to an end. */
  lemma {:induction false} StoppedEarlier(s: State, actions: seq<Action>, t: Id) returns (k: nat)
    requires t in s.stops && IsShutdown(s.stops[t]) && s.stops[t] != Stopped
    requires At(Run(s, actions), t, Stopped)
    ensures k < |actions| && t in Run(s, actions[..k]).stops && Run(s, actions[..k + 1]).stops.Keys == s.stops.Keys
    ensures
      var r := Run(s, actions[..k]);
      && At(Run(s, actions[..k + 1]), t, Stopped)
      && (actions[k] == StopAction(t, GiveUp)
          || (actions[k] == StopAction(t, CountListeners) && r.stops[t] == Swept(true) && r.gate.listeners == {}))
  {
    hide StepServe, StepStop, StepConn, IsShutdown;
    var n := |actions| - 1;
    var before, a := actions[..n], actions[n];
    var r := Run(s, before);
    StaysShutdown(s, before, t);
    SameCalls(s, actions);
    if r.stops[t] == Stopped {
      k := StoppedEarlier(s, before, t);
      assert before[..k] == actions[..k] && before[..k + 1] == actions[..k + 1];
    } else {
      k := n;
      assert actions[..k + 1] == actions;
      ShutdownStays(t, r.stops[t], r.gate, r.conns, a.stop);
    }
  }

  lemma {:induction false} SameCalls(s: State, actions: seq<Action>)
    ensures Run(s, actions).stops.Keys == s.stops.Keys
  {
    hide StepServe, StepStop, StepConn;
    if actions != [] {
      SameCalls(s, actions[..|actions| - 1]);
    }
  }

  /** When `Shutdown` returns. In every run in which a call of it has come to an end without giving up,
      it ended at some step `k` with no listener left, and at an earlier step `j` it unlocked a sweep with
      no connection in the map; it has not swept again in between. */
  lemma ShutdownReturnsQuiet(s: State, actions: seq<Action>, t: Id) returns (j: nat, k: nat)
    requires Init(s) && t in s.stops && s.stops[t] == Called(Shutdown) && At(Run(s, actions), t, Stopped)
    requires StopAction(t, GiveUp) !in actions
    ensures j < k < |actions|
    ensures
      && actions[k] == StopAction(t, CountListeners)
      && Run(s, actions[..k]).gate.listeners == {} && At(Run(s, actions[..k + 1]), t, Stopped)
    ensures
      && actions[j] == StopAction(t, Unlock)
      && Run(s, actions[..j]).conns.active == {} && At(Run(s, actions[..j]), t, Sweeping({}, true))
      && forall i :: j < i <= k ==> At(Run(s, actions[..i]), t, Swept(true))
  {
    hide Run, Init;
    k := StoppedEarlier(s, actions, t);
    assert actions[k] in actions;
    var before := actions[..k];
    j := UnlockedEarlier(s, before, t);
    assert before[..j] == actions[..j];
    SweepTellsTheTruth(s, before[..j], t);
    forall i | j < i <= k
      ensures At(Run(s, actions[..i]), t, Swept(true))
    {
      assert before[..i] == actions[..i];
    }
  }

  /** Some sweep of the call unlocked an empty map of connections. */
  predicate SweptEmpty(s: State, actions: seq<Action>, t: Id) {
    exists j :: 0 <= j < |actions| && actions[j] == StopAction(t, Unlock) && Run(s, actions[..j]).conns.active == {}
  }

  // ----- nobody waits -----

  lemma NobodyWaitsStep(s: State, a: Action)
    requires ShutdownInv(s) && s.gate.ended && !Waiting(s) && s.conns.active == {}
    ensures !Waiting(Step(s, a)) && Step(s, a).conns.active == {}
  {
    hide StepConn, StopInv, Sweepable, Rely;
    match a
    case ServeAction(t, step) =>
      if t in s.serves {
        assert ServeInv(t, s.serves[t], s.gate);
      }
    case StopAction(t, step) =>
    case ConnAction(id, step) => NothingRegistered(s, id, step);
  }

  lemma NothingRegistered(s: State, id: Id, step: ConnStep)
    requires s.conns.active == {}
    ensures Step(s, ConnAction(id, step)).conns.active == {}
  {
  }

  lemma {:induction false} NobodyWaits(s: State, actions: seq<Action>)
    requires ShutdownInv(s) && s.gate.ended && !Waiting(s) && s.conns.active == {}
    ensures Run(s, actions).conns.active == {} && !Waiting(Run(s, actions))
  {
    hide ShutdownInv, Step, Waiting;
    if actions != [] {
      var before := actions[..|actions| - 1];
      NobodyWaits(s, before);
      ShutdownRun(s, before);
      RunAfterEnd(s, before);
      NobodyWaitsStep(Run(s, before), actions[|actions| - 1]);
    }
  }

  /** If a sweep is about to unlock an empty map and no call waits to register a connection, the map is
      empty for good, whatever runs afterwards. */
  lemma EmptyForGood(s: State, t: Id, before: seq<Action>, after: seq<Action>)
    requires Init(s) && t in Run(s, before).stops && Run(s, before).stops[t] == Sweeping({}, true)
    requires !Waiting(Run(s, before))
    ensures Run(s, before + after).conns.active == {}
  {
    hide Run, ServeInv, ConnsInv, ServeKnows, Waiting;
    InitTracking(s);
    ShutdownRun(s, before);
    TrackingRun(s, before);
    RunSplit(s, before, after);
    assert StopKnows(Sweeping({}, true), Run(s, before).conns);
    assert StopInv(t, Sweeping({}, true), Run(s, before).gate);
    NobodyWaits(Run(s, before), after);
  }

  // ----- somebody waits -----

  /** What a call in its accept loop does next if its listener is closed. */
  function TowardsReturn(pc: ServePc): ServeStep {
    match pc
    case Accepted(_) => TrackConn
    case Registered(_) => Spawn(0)
    case Accepting => FailAccept(false)
    case AcceptFailed(_, _) => GetDoneChan
    case GotDoneChan(_, _) => Select
    case _ => Untrack
  }

  function StepsLeft(pc: ServePc): nat {
    match pc
    case Accepted(_) => 5
    case Registered(_) => 4
    case Accepting => 3
    case AcceptFailed(_, _) => 2
    case GotDoneChan(_, _) => 1
    case _ => 0
  }

  /** `t` comes after `s` in a run of `Serve` calls alone, with the lock free. */
  predicate Later(s: State, t: State) {
    && t.stops == s.stops && t.serves.Keys == s.serves.Keys
    && t.gate.holder == Free && t.gate.ended
    && t.gate.listeners <= s.gate.listeners && s.conns.active <= t.conns.active
  }

  lemma Advance(t: Id, pc: ServePc, g: Gate, c: Conns)
    requires GateInv(g) && ServeInv(t, pc, g) && g.ended && g.holder == Free && t in g.listeners
    ensures
      var o := StepServe(t, pc, g, c, TowardsReturn(pc));
      && o.gate.holder == Free && o.gate.ended && c.active <= o.conns.active
      && o.gate.listeners <= g.listeners
      && (t in o.gate.listeners ==> StepsLeft(o.pc) < StepsLeft(pc))
  {
  }

  lemma {:induction false} Leave(s: State, u: Id) returns (actions: seq<Action>)
    requires ShutdownInv(s) && s.gate.ended && s.gate.holder == Free && u in s.gate.listeners
    ensures Later(s, Run(s, actions)) && u !in Run(s, actions).gate.listeners
    decreases StepsLeft(s.serves[u])
  {
    hide StepServe, ServeInv, StopInv, GateInv, TowardsReturn, StepsLeft;
    var a := ServeAction(u, TowardsReturn(s.serves[u]));
    var s' := Step(s, a);
    Advance(u, s.serves[u], s.gate, s.conns);
    RunOne(s, a);
    if u in s'.gate.listeners {
      ShutdownStep(s, a);
      var more := Leave(s', u);
      RunSplit(s, [a], more);
      actions := [a] + more;
    } else {
      actions := [a];
    }
  }

  lemma RunOne(s: State, a: Action)
    ensures Run(s, [a]) == Step(s, a)
  {
    hide Step;
    assert [a][..0] == [];
  }

  /** All calls in their accept loops return, one after the other. */
  lemma {:induction false} Drain(s: State) returns (actions: seq<Action>)
    requires ShutdownInv(s) && s.gate.ended && s.gate.holder == Free
    ensures Later(s, Run(s, actions)) && Run(s, actions).gate.listeners == {}
    decreases |s.gate.listeners|
  {
    hide Step, ShutdownInv;
    if s.gate.listeners == {} {
      actions := [];
      assert Run(s, actions) == s by { EmptyRun(s); }
    } else {
      var u :| u in s.gate.listeners;
      var first := Leave(s, u);
      ShutdownRun(s, first);
      Fewer(Run(s, first).gate.listeners, s.gate.listeners, u);
      var more := Drain(Run(s, first));
      RunSplit(s, first, more);
      actions := first + more;
    }
  }

  lemma Fewer(a: set<Id>, b: set<Id>, u: Id)
    requires a <= b && u in b && u !in a
    ensures |a| < |b|
  {
    Split(a, b);
    assert u in b - a;
  }

  /** The run ends with the last step of a `Shutdown` that has found no listener left. */
  predicate Returns(s: State, before: seq<Action>, after: seq<Action>, t: Id) {
    && after != [] && after[|after| - 1] == StopAction(t, CountListeners)
    && t in Run(s, before + after[..|after| - 1]).stops && t in Run(s, before + after).stops
    && Run(s, before + after[..|after| - 1]).stops[t] == Swept(true) && Run(s, before + after).stops[t] == Stopped
  }

  /** The sweep unlocks and the waiting call registers its connection. */
  lemma Registers(s: State, t: Id, u: Id) returns (actions: seq<Action>)
    requires ShutdownInv(s) && t in s.stops && s.stops[t] == Sweeping({}, true)
    requires u in s.serves && s.serves[u].Accepted?
    ensures
      var r := Run(s, actions);
      && r.gate.holder == Free && r.gate.ended && r.stops == s.stops[t := Swept(true)]
      && s.serves[u].conn in r.conns.active
  {
    hide ServeInv, GateInv;
    assert StopInv(t, Sweeping({}, true), s.gate);
    var a, b := StopAction(t, Unlock), ServeAction(u, TrackConn);
    RunOne(s, a);
    RunOne(Step(s, a), b);
    RunSplit(s, [a], [b]);
    actions := [a] + [b];
  }

  /** If a sweep is about to unlock an empty map while some call waits to register a connection, there
      is a continuation in which `Shutdown` returns and that connection is tracked. */
  lemma LeavesConnection(s: State, t: Id, u: Id, before: seq<Action>) returns (after: seq<Action>)
    requires Init(s) && t in Run(s, before).stops && Run(s, before).stops[t] == Sweeping({}, true)
    requires u in Run(s, before).serves && Run(s, before).serves[u].Accepted?
    ensures Returns(s, before, after, t)
    ensures Run(s, before).serves[u].conn in Run(s, before + after).conns.active
  {
    hide Run, Init, ShutdownInv, StepServe, StepConn;
    assert ShutdownInv(Run(s, before)) by {
      InitInv(s);
      ShutdownRun(s, before);
    }
    var r := Run(s, before);
    var first := Registers(r, t, u);
    ShutdownRun(r, first);
    var more := Drain(Run(r, first));
    RunSplit(r, first, more);
    var last := StopAction(t, CountListeners);
    var drained := Run(r, first + more);
    RunOne(drained, last);
    RunSplit(r, first + more, [last]);
    RunSplit(s, before, first + more);
    after := first + more + [last];
    RunSplit(s, before, after);
    assert after[..|after| - 1] == first + more;
  }

  /** When a `Shutdown` that ends with this sweep leaves no connection behind, in all runs: if and only
      if no call waits to register a connection as the sweep unlocks. */
  lemma EmptyAtReturn(s: State, t: Id, before: seq<Action>)
    requires Init(s) && t in Run(s, before).stops && Run(s, before).stops[t] == Sweeping({}, true)
    ensures (forall after :: Returns(s, before, after, t) ==> Run(s, before + after).conns.active == {})
      <==> !Waiting(Run(s, before))
  {
    hide Run, Init, Returns;
    if Waiting(Run(s, before)) {
      var u :| u in Run(s, before).serves && Run(s, before).serves[u].Accepted?;
      var after := LeavesConnection(s, t, u, before);
    } else {
      forall after | Returns(s, before, after, t)
        ensures Run(s, before + after).conns.active == {}
      {
        EmptyForGood(s, t, before, after);
      }
    }
  }

  /** It does happen. */
  lemma ShutdownMayLeaveConnections() returns (s: State, before: seq<Action>, after: seq<Action>)
    ensures Init(s) && Returns(s, before, after, 0)
    ensures 7 in Run(s, before + after).conns.active
  {
    hide Run, Init, Returns;
    s, before := OneAcceptedThenSwept();
    after := LeavesConnection(s, 0, 0, before);
  }
}
