/** The shared AMQP channel: any number of goroutines that look for it without the lock, and create
    it under the lock when they still find none. */
module ChannelProvider {
  import opened Wire

  type Channel = nat
  type Id = nat

  /** The slot and the mutex. `created` only records the channels NewChannel has returned. */
  datatype Shared = Shared(slot: Option<Channel>, holder: Option<Id>, created: seq<Channel>)

  /** Where a GetChannel call stands; None is an error. */
  datatype Pc =
    | Starting
    | Waiting
    | Locked                                 // holds the mutex
    | Creating                               // holds the mutex
    | Storing(channel: Channel)              // holds the mutex
    | Unlocking(result: Option<Channel>)     // holds the mutex
    | Returned(result: Option<Channel>)

  datatype Step =
    | Load
    | Lock
    | Recheck
    | Create(made: Option<Channel>)
    | Store
    | Unlock

  datatype Outcome = Outcome(pc: Pc, shared: Shared)

  function Next(t: Id, pc: Pc, s: Shared, step: Step): Outcome {
    match step
    case Load =>
      Outcome(if !pc.Starting? then pc else if s.slot.None? then Waiting else Returned(s.slot), s)
    case Lock =>
      if pc.Waiting? && s.holder.None? then Outcome(Locked, s.(holder := Some(t))) else Outcome(pc, s)
    case Recheck =>
      Outcome(if !pc.Locked? then pc else if s.slot.None? then Creating else Unlocking(s.slot), s)
    // NewChannel may fail, and what it returns is up to it
    case Create(made) =>
      if !pc.Creating? then Outcome(pc, s)
      else if made.None? then Outcome(Unlocking(None), s)
      else Outcome(Storing(made.value), s.(created := s.created + [made.value]))
    case Store =>
      if pc.Storing? then Outcome(Unlocking(Some(pc.channel)), s.(slot := Some(pc.channel))) else Outcome(pc, s)
    case Unlock =>
      if pc.Unlocking? then Outcome(Returned(pc.result), s.(holder := None)) else Outcome(pc, s)
  }

  datatype State = State(shared: Shared, calls: map<Id, Pc>)

  datatype Action = Action(t: Id, step: Step)

  predicate Init(s: State) {
    s.shared == Shared(None, None, []) && forall t <- s.calls :: s.calls[t] == Starting
  }

  function Do(s: State, a: Action): State {
    if a.t !in s.calls then s
    else
      var o := Next(a.t, s.calls[a.t], s.shared, a.step);
      State(o.shared, s.calls[a.t := o.pc])
  }

  /** Any interleaving. */
  function Run(s: State, actions: seq<Action>): State {
    if actions == [] then s else Do(Run(s, actions[..|actions| - 1]), actions[|actions| - 1])
  }

  // ----- the invariant, by rely and guarantee -----

  predicate SharedInv(s: Shared) {
    && (s.slot.Some? ==> s.created == [s.slot.value])
    && (s.slot.None? && s.holder.None? ==> s.created == [])
  }

  predicate Holds(pc: Pc) {
    pc.Locked? || pc.Creating? || pc.Storing? || pc.Unlocking?
  }

  predicate CallInv(t: Id, pc: Pc, s: Shared) {
    && (Holds(pc) <==> s.holder == Some(t))
    && match pc
       case Locked => s.slot.None? ==> s.created == []
       case Creating => s.slot.None? && s.created == []
       case Storing(c) => s.slot.None? && s.created == [c]
       case Unlocking(r) => if r.Some? then s.slot == r else s.slot.None? && s.created == []
       case Returned(r) => r.Some? ==> s.slot == r
       case _ => true
  }

  predicate Inv(s: State) {
    SharedInv(s.shared) && forall t <- s.calls :: CallInv(t, s.calls[t], s.shared)
  }

  /** What a step of another call leaves to `me`. */
  predicate Rely(me: Id, s: Shared, s': Shared) {
    && (s.holder == Some(me) <==> s'.holder == Some(me))
    && (s.holder == Some(me) ==> s' == s)
    && (s.slot.Some? ==> s'.slot == s.slot)
  }

  lemma OwnStep(t: Id, pc: Pc, s: Shared, step: Step)
    requires SharedInv(s) && CallInv(t, pc, s)
    ensures var o := Next(t, pc, s, step); SharedInv(o.shared) && CallInv(t, o.pc, o.shared)
  {
  }

  lemma OtherStep(t: Id, pc: Pc, s: Shared, step: Step, me: Id, mine: Pc)
    requires CallInv(t, pc, s) && CallInv(me, mine, s) && me != t
    ensures var o := Next(t, pc, s, step); Rely(me, s, o.shared) && CallInv(me, mine, o.shared)
  {
  }

  lemma {:induction false} RunInv(s: State, actions: seq<Action>)
    requires Init(s)
    ensures Inv(Run(s, actions))
  {
    hide Next, SharedInv, CallInv, Rely;
    if actions == [] {
      assert Inv(s) by { InitInv(s); }
    } else {
      var before, a := Run(s, actions[..|actions| - 1]), actions[|actions| - 1];
      RunInv(s, actions[..|actions| - 1]);
      if a.t in before.calls {
        OwnStep(a.t, before.calls[a.t], before.shared, a.step);
        forall me <- before.calls | me != a.t
          ensures CallInv(me, before.calls[me], Do(before, a).shared)
        {
          OtherStep(a.t, before.calls[a.t], before.shared, a.step, me, before.calls[me]);
        }
      }
    }
  }

  lemma InitInv(s: State)
    requires Init(s)
    ensures Inv(s)
  {
  }

  /** However many calls race: at most one channel is ever created, it is the one in the slot
      whenever the lock is free, and every call that succeeds returns it. */
  lemma SingleCreation(s: State, actions: seq<Action>)
    requires Init(s)
    ensures
      var r := Run(s, actions);
      && |r.shared.created| <= 1
      && (r.shared.holder.None? ==> r.shared.created == if r.shared.slot.Some? then [r.shared.slot.value] else [])
      && (forall t <- r.calls :: r.calls[t].Returned? && r.calls[t].result.Some? ==>
           r.shared.created == [r.calls[t].result.value])
  {
    hide Run, Next;
    RunInv(s, actions);
    var r := Run(s, actions);
    if r.shared.holder.Some? && r.shared.holder.value in r.calls {
      assert CallInv(r.shared.holder.value, r.calls[r.shared.holder.value], r.shared);
    }
    HolderExists(s, actions);
  }

  lemma {:induction false} HolderExists(s: State, actions: seq<Action>)
    requires Init(s)
    ensures var r := Run(s, actions); r.shared.holder.Some? ==> r.shared.holder.value in r.calls
  {
    if actions != [] {
      HolderExists(s, actions[..|actions| - 1]);
    }
  }

  /** A failed creation leaves everything as it found it, except that it holds the lock: the slot is
      empty and the next call that gets the lock tries again. */
  lemma FailureLeavesSlotEmpty(s: State, actions: seq<Action>, t: Id)
    requires Init(s) && t in Run(s, actions).calls && Run(s, actions).calls[t] == Unlocking(None)
    ensures
      var r := Do(Run(s, actions), Action(t, Unlock));
      r.shared == Shared(None, None, [])
      && forall u ::
        var o := Next(u, Waiting, r.shared, Lock);
        Next(u, o.pc, o.shared, Recheck).pc == Creating
  {
    hide Run;
    RunInv(s, actions);
    assert CallInv(t, Unlocking(None), Run(s, actions).shared);
  }

  /** Once the slot is filled, a call that begins gets the one channel there is by its first step, without
      the lock and whoever holds it. */
  lemma NoLockOnceFilled(s: State, actions: seq<Action>, t: Id)
    requires Init(s) && t in Run(s, actions).calls && Run(s, actions).calls[t] == Starting
    requires Run(s, actions).shared.slot.Some?
    ensures
      var r := Do(Run(s, actions), Action(t, Load));
      && r.shared == Run(s, actions).shared
      && r.calls[t].Returned? && r.calls[t].result.Some? && r.shared.created == [r.calls[t].result.value]
  {
    hide Run;
    RunInv(s, actions);
  }

  // ----- the method -----

  function RunAlone(t: Id, o: Outcome, steps: seq<Step>): Outcome {
    if steps == [] then o
    else
      var m := RunAlone(t, o, steps[..|steps| - 1]);
      Next(t, m.pc, m.shared, steps[|steps| - 1])
  }

  class Provider {
    var channelPtr: Option<Channel>
    ghost var created: seq<Channel>

    ghost function TheShared(): Shared
      reads this
    {
      Shared(channelPtr, None, created)
    }

    /** A channel in the slot is the only one ever created. */
    ghost predicate Valid()
      reads this
    {
      SharedInv(TheShared())
    }

    constructor ()
      ensures Valid() && TheShared() == Shared(None, None, [])
    {
      channelPtr, created := None, [];
    }

    /** `made` is what NewChannel would return, `late` what another call has created and stored by the
        time this one has the lock. From there on the call runs undisturbed, as the steps do. */
    method GetChannel(ghost t: Id, made: Option<Channel>, late: Option<Channel>) returns (ch: Option<Channel>)
      requires Valid() && (late.Some? ==> channelPtr.None?)
      modifies this
      ensures Valid()
      ensures ch.Some? ==> channelPtr == ch && created == [ch.value]
      ensures ch == if old(channelPtr).Some? then old(channelPtr) else if late.Some? then late else made
      ensures old(channelPtr).Some? ==>
        && TheShared() == old(TheShared())
        && Next(t, Starting, old(TheShared()), Load) == Outcome(Returned(ch), TheShared())
      ensures old(channelPtr).None? ==>
        var mid := if late.Some? then Shared(late, None, [late.value]) else old(TheShared());
        RunAlone(t, Outcome(Waiting, mid), [Lock, Recheck, Create(made), Store, Unlock])
        == Outcome(Returned(ch), TheShared())
    {
      ch := channelPtr;
      if ch.None? {
        if late.Some? {
          channelPtr := late;
          created := created + [late.value];
        }
        Alone(t, TheShared(), made);
        ch := channelPtr;
        if ch.Some? {
          return;
        }
        var channel := made;
        if channel.None? {
          return None;
        }
        created := created + [channel.value];
        channelPtr := channel;
        return channel;
      }
    }
  }

  lemma AloneNext(t: Id, o: Outcome, steps: seq<Step>, step: Step)
    ensures RunAlone(t, o, []) == o
    ensures var m := RunAlone(t, o, steps); RunAlone(t, o, steps + [step]) == Next(t, m.pc, m.shared, step)
  {
    hide Next;
    assert (steps + [step])[..|steps + [step]| - 1] == steps;
  }

  lemma Alone(t: Id, mid: Shared, made: Option<Channel>)
    requires mid.holder.None?
    ensures
      RunAlone(t, Outcome(Waiting, mid), [Lock, Recheck, Create(made), Store, Unlock])
      == if mid.slot.Some? then Outcome(Returned(mid.slot), mid)
         else if made.None? then Outcome(Returned(None), mid)
         else Outcome(Returned(made), mid.(slot := made, created := mid.created + [made.value]))
  {
    hide RunAlone;
    var o := Outcome(Waiting, mid);
    AloneNext(t, o, [], Lock);
    AloneNext(t, o, [Lock], Recheck);
    AloneNext(t, o, [Lock, Recheck], Create(made));
    AloneNext(t, o, [Lock, Recheck, Create(made)], Store);
    AloneNext(t, o, [Lock, Recheck, Create(made), Store], Unlock);
    assert [] + [Lock] == [Lock] && [Lock] + [Recheck] == [Lock, Recheck];
    assert [Lock, Recheck] + [Create(made)] == [Lock, Recheck, Create(made)];
    assert [Lock, Recheck, Create(made)] + [Store] == [Lock, Recheck, Create(made), Store];
    assert [Lock, Recheck, Create(made), Store] + [Unlock] == [Lock, Recheck, Create(made), Store, Unlock];
  }
}
