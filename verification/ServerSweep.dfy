/** What the sweep closes. It judges a connection by the word it has loaded, and the connection may
    store another one before its socket is closed. */
module ServerSweep {
  import opened Wire
  import opened ConnStates
  import opened Server
  import opened ServerProofs
  import opened ServerConns
  import opened ServerRuns

  /** Step `k` of the run was the sweep's load of the connection's word, and from then on the sweep has
      held the lock with that word in hand. */
  predicate LoadedAt(s: State, actions: seq<Action>, t: Id, pc: StopPc, k: nat)
    requires pc.Looked? && k < |actions|
  {
    var c := Run(s, actions[..k]).conns;
    && actions[k] == StopAction(t, LoadWord(pc.conn))
    && pc.conn in c.tracked && c.tracked[pc.conn].word == pc.word
    && forall j :: k < j <= |actions| ==> Holding(Run(s, actions[..j]), t, pc)
  }

  predicate Holding(s: State, t: Id, pc: StopPc) {
    t in s.stops && s.stops[t] == pc && s.gate.holder == HeldByStop(t)
  }

  lemma IntoLooked(t: Id, pc: StopPc, g: Gate, c: Conns, step: StopStep)
    requires StepStop(t, pc, g, c, step).pc.Looked? && StepStop(t, pc, g, c, step).pc != pc
    ensures var o := StepStop(t, pc, g, c, step);
      step == LoadWord(o.pc.conn) && o.pc.conn in c.tracked && c.tracked[o.pc.conn].word == o.pc.word
  {
  }

  lemma {:induction false} LoadedEarlier(s: State, actions: seq<Action>, t: Id) returns (k: nat)
    requires Init(s) && t in Run(s, actions).stops && Run(s, actions).stops[t].Looked?
    ensures k < |actions| && LoadedAt(s, actions, t, Run(s, actions).stops[t], k)
  {
    hide StepServe, StepStop, StepConn, GateInv, ServeInv;
    var n := |actions| - 1;
    var before, a := actions[..n], actions[n];
    var r, pc := Run(s, before), Run(s, actions).stops[t];
    InitInv(s);
    ShutdownRun(s, actions);
    assert StopInv(t, pc, Run(s, actions).gate);
    assert actions[..|actions|] == actions;
    if r.stops[t] == pc {
      k := LoadedEarlier(s, before, t);
      assert before[..k] == actions[..k];
      forall j | k < j <= |actions|
        ensures Holding(Run(s, actions[..j]), t, pc)
      {
        if j <= n {
          assert before[..j] == actions[..j];
        }
      }
    } else {
      k := n;
      IntoLooked(t, r.stops[t], r.gate, r.conns, a.stop);
    }
  }

  // ----- what a connection stores meanwhile -----

  /** The connection's goroutine stores a state word. */
  predicate Stores(s: State, id: Id, a: Action) {
    && a.ConnAction? && a.t == id && a.conn.Store? && id in s.conns.tracked
    && match s.conns.tracked[id].pc
       case Serving => a.conn.state == Active || a.conn.state == Idle
       case Untracked => a.conn.state == Closed
       case _ => false
  }

  /** The last word it stores in a run. */
  function LastStored(s: State, actions: seq<Action>, id: Id): Option<Word> {
    if actions == [] then None
    else
      var n := |actions| - 1;
      if Stores(Run(s, actions[..n]), id, actions[n]) then Some(Word(actions[n].conn.state, actions[n].conn.now))
      else LastStored(s, actions[..n], id)
  }

  predicate Started(s: State, id: Id) {
    id in s.conns.tracked && s.conns.tracked[id].pc != NotStarted
  }

  /** Once a connection's goroutine runs, nothing else stores its word. */
  lemma WordStep(s: State, a: Action, id: Id)
    requires TrackingInv(s) && Started(s, id)
    ensures Started(Step(s, a), id)
    ensures Step(s, a).conns.tracked[id].word
      == if Stores(s, id, a) then Word(a.conn.state, a.conn.now) else s.conns.tracked[id].word
  {
    hide ConnsInv, StopKnows, Sweepable;
    match a
    case ServeAction(t, step) =>
      if t in s.serves {
        assert ServeKnows(t, s.serves[t], s.conns);
      }
    case StopAction(t, step) =>
    case ConnAction(other, step) =>
  }

  lemma {:induction false} WordAfter(s: State, actions: seq<Action>, id: Id)
    requires ShutdownInv(s) && TrackingInv(s) && Started(s, id)
    ensures Started(Run(s, actions), id)
    ensures var last := LastStored(s, actions, id);
      Run(s, actions).conns.tracked[id].word == if last.Some? then last.value else s.conns.tracked[id].word
  {
    hide Step, ShutdownInv, TrackingInv, Stores;
    if actions != [] {
      var before := actions[..|actions| - 1];
      WordAfter(s, before, id);
      ShutdownRun(s, before);
      TrackingRun(s, before);
      WordStep(Run(s, before), actions[|actions| - 1], id);
    }
  }

  /** The word a call stores for its new connection as its goroutine starts. */
  function Spawned(s: State, a: Action, id: Id): Option<Word> {
    if a.ServeAction? && a.serve.Spawn? && a.t in s.serves && s.serves[a.t] == Registered(id)
    then Some(Word(New, a.serve.now)) else None
  }

  /** The last word anybody stores for a connection in a run. */
  function LastWord(s: State, actions: seq<Action>, id: Id): Option<Word> {
    if actions == [] then None
    else
      var n := |actions| - 1;
      var r := Run(s, actions[..n]);
      if Stores(r, id, actions[n]) then Some(Word(actions[n].conn.state, actions[n].conn.now))
      else if Spawned(r, actions[n], id).Some? then Spawned(r, actions[n], id)
      else LastWord(s, actions[..n], id)
  }

  lemma AnyWordStep(s: State, a: Action, id: Id)
    requires TrackingInv(s) && id in Step(s, a).conns.tracked
    ensures Step(s, a).conns.tracked[id].word
      == if Stores(s, id, a) then Word(a.conn.state, a.conn.now)
         else if Spawned(s, a, id).Some? then Spawned(s, a, id).value
         else if id in s.conns.tracked then s.conns.tracked[id].word
         else Word(New, 0)
  {
    hide ConnsInv, StopKnows, Sweepable;
    match a
    case ServeAction(t, step) =>
      if t in s.serves {
        assert ServeKnows(t, s.serves[t], s.conns);
      }
    case StopAction(t, step) =>
    case ConnAction(other, step) =>
  }

  lemma InitTracked(s: State)
    requires Init(s)
    ensures s.conns.tracked == map[]
  {
  }

  lemma UntrackedStep(s: State, a: Action, id: Id)
    requires ShutdownInv(s) && TrackingInv(s) && id !in Step(s, a).conns.tracked
    ensures id !in s.conns.tracked && !Stores(s, id, a) && Spawned(s, a, id).None?
  {
    hide Step, ShutdownInv, ConnsInv, StopKnows;
    TrackingStep(s, a);
    if a.ServeAction? && a.t in s.serves {
      assert ServeKnows(a.t, s.serves[a.t], s.conns);
    }
  }

  lemma {:induction false} NoWord(s: State, actions: seq<Action>, id: Id)
    requires Init(s) && id !in Run(s, actions).conns.tracked
    ensures LastWord(s, actions, id).None?
  {
    hide Step, Stores, Spawned, Init, TrackingInv, ShutdownInv;
    if actions != [] {
      var before := actions[..|actions| - 1];
      InitTracking(s);
      ShutdownRun(s, before);
      TrackingRun(s, before);
      UntrackedStep(Run(s, before), actions[|actions| - 1], id);
      NoWord(s, before, id);
    }
  }

  /** Whose word a connection has, in every run: the last one its goroutine has stored, else New and the
      second in which it was started, else New without a time. */
  lemma {:induction false} WordExactly(s: State, actions: seq<Action>, id: Id)
    requires Init(s) && id in Run(s, actions).conns.tracked
    ensures Run(s, actions).conns.tracked[id].word
      == var last := LastWord(s, actions, id); if last.Some? then last.value else Word(New, 0)
  {
    hide Step, Stores, Spawned, Init;
    if actions == [] {
      InitTracked(s);
    } else {
      var before, a := actions[..|actions| - 1], actions[|actions| - 1];
      var r := Run(s, before);
      InitTracking(s);
      TrackingRun(s, before);
      AnyWordStep(r, a, id);
      if id in r.conns.tracked {
        WordExactly(s, before, id);
      } else {
        NoWord(s, before, id);
      }
    }
  }

  /** Idle at some time, or New at a time more than five seconds ago. */
  predicate Overdue(w: Word, now: int) {
    w.unixSec != 0 && match w.state
                      case New => 5 < now - w.unixSec
                      case Active => false
                      case Idle => true
                      case Closed => false
  }

  lemma SweepableOverdue(w: Word, now: int)
    ensures Sweepable(w, now) <==> Overdue(w, now)
  {
  }

  /** A judgement that leaves its connection in the map found it not overdue, and the sweep will not
      call itself quiescent. */
  lemma SparedByWordLoaded(s: State, t: Id, now: int)
    requires TrackingInv(s) && t in s.stops && s.stops[t].Looked?
    ensures
      var s' := Step(s, StopAction(t, Judge(now)));
      && (s.stops[t].conn in s'.conns.active <==> !Overdue(s.stops[t].word, now))
      && s'.stops[t]
         == Sweeping(s.stops[t].todo, s.stops[t].quiescent && Overdue(s.stops[t].word, now))
  {
    SweepableOverdue(s.stops[t].word, now);
    assert StopKnows(s.stops[t], s.conns);
  }

  /** A step of a sweep that takes a connection out of the map closes its socket, and it is the
      judgement of a word that the sweep loaded earlier under the same lock and that has a time and says
      Idle, or New since more than five seconds.
      The word at that moment differs from the one loaded exactly if the connection's own goroutine
      has stored since, and what it stored last differs. */
  lemma SweptByWordLoaded(s: State, actions: seq<Action>, t: Id, step: StopStep, id: Id) returns (k: nat)
    requires Init(s) && t in Run(s, actions).stops && InSweep(Run(s, actions).stops[t])
    requires id in Run(s, actions).conns.active
    requires id !in Step(Run(s, actions), StopAction(t, step)).conns.active
    ensures
      var r := Run(s, actions);
      && step.Judge? && r.stops[t].Looked? && r.stops[t].conn == id && Overdue(r.stops[t].word, step.now)
      && id in Step(r, StopAction(t, step)).conns.closed
      && k < |actions| && LoadedAt(s, actions, t, r.stops[t], k)
    ensures
      var r, last := Run(s, actions), LastStored(Run(s, actions[..k]), actions[k..], id);
      && id in r.conns.tracked
      && (r.conns.tracked[id].word != r.stops[t].word <==> last.Some? && last.value != r.stops[t].word)
  {
    hide Run, StepServe, StepConn, Init;
    OnlyJudged(Run(s, actions), t, step, id);
    SweepableOverdue(Run(s, actions).stops[t].word, step.now);
    k := LoadedEarlier(s, actions, t);
    InitTracking(s);
    ShutdownRun(s, actions[..k]);
    TrackingRun(s, actions[..k]);
    RunSplit(s, actions[..k], actions[k..]);
    assert actions[..k] + actions[k..] == actions;
    SweepableStarted(Run(s, actions[..k]), id, step.now);
    WordAfter(Run(s, actions[..k]), actions[k..], id);
  }

  lemma OnlyJudged(s: State, t: Id, step: StopStep, id: Id)
    requires t in s.stops && InSweep(s.stops[t])
    requires id in s.conns.active && id !in Step(s, StopAction(t, step)).conns.active
    ensures step.Judge? && s.stops[t].Looked? && s.stops[t].conn == id && Sweepable(s.stops[t].word, step.now)
    ensures id in Step(s, StopAction(t, step)).conns.closed
  {
    hide Sweepable;
  }

  /** A connection whose goroutine has not started has a word without a time. */
  lemma SweepableStarted(s: State, id: Id, now: int)
    requires TrackingInv(s) && id in s.conns.tracked && Sweepable(s.conns.tracked[id].word, now)
    ensures Started(s, id)
  {
  }

  /** So a busy connection can be closed: this one took up a request between the load of its word and
      the judgement. */
  lemma BusyConnectionSwept() returns (s: State, actions: seq<Action>)
    ensures Init(s) && 0 in Run(s, actions).stops && Run(s, actions).stops[0] == Looked({}, true, 7, Word(Idle, 2))
    ensures
      var r := Run(s, actions);
      && 7 in r.conns.active && 7 in r.conns.tracked && r.conns.tracked[7].word == Word(Active, 3)
      && 7 !in Step(r, StopAction(0, Judge(9))).conns.active && 7 in Step(r, StopAction(0, Judge(9))).conns.closed
  {
    hide Run, Init;
    var g: Gate, c: Conns;
    s, actions, g, c := IdleThenActive();
  }
}
