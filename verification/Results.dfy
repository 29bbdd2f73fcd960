/** group.go: one loader at a time, one result per channel, and no key or waiter left stuck. */
module Results {
  import opened Base
  import opened Protocol
  import opened SingleFlight
  import opened Provenance
  import opened Runs

  /** In every reachable state at most one flight per cache and key is between its re-check and its Set,
      and it is the registered one, even while older flights for the key are still delivering. */
  lemma LoaderExclusion(sys: System, s0: State, acts: seq<Action>, f: nat, g: nat)
    requires Initial(s0) && Run(sys, s0, acts).Some?
    requires f < |Run(sys, s0, acts).value.flights| && g < |Run(sys, s0, acts).value.flights|
    requires Run(sys, s0, acts).value.flights[f].phase.InLoad() && Run(sys, s0, acts).value.flights[g].phase.InLoad()
    ensures
      var s := Run(sys, s0, acts).value;
      && (f == g <==> s.flights[f].loc == s.flights[g].loc)
      && NameOf(s.flights[f].loc) in s.inflight
      && s.inflight[NameOf(s.flights[f].loc)] == f
  {
    hide Step;
    InitialInv(sys, s0);
    RunKeepsInv(sys, s0, acts);
  }

  /** A caller's channel belongs to a flight of its own cache and key, and its answer is what it makes of
      that flight's one outcome. No two callers share a channel. */
  lemma WaitersGetTheirFlight(sys: System, s0: State, acts: seq<Action>, c: nat)
    requires Initial(s0) && Run(sys, s0, acts).Some?
    requires c < |Run(sys, s0, acts).value.callers|
    requires ChannelOf(Run(sys, s0, acts).value.callers[c].pc).Some?
    ensures
      var s := Run(sys, s0, acts).value;
      var ch := ChannelOf(s.callers[c].pc).value;
      && ch < |s.channels| && s.channels[ch].flight < |s.flights|
      && var fl := s.flights[s.channels[ch].flight];
      && fl.loc == s.callers[c].loc
      && (s.callers[c].pc.Answered? ==>
           && fl.phase.Delivering?
           && exists at :: s.callers[c].pc.reply == Interpret(sys, fl.loc, fl.phase.out, at))
      && (forall d :: 0 <= d < |s.callers| && ChannelOf(s.callers[d].pc) == Some(ch) ==> d == c)
  {
    hide Step;
    InitialInv(sys, s0);
    RunKeepsInv(sys, s0, acts);
    var s := Run(sys, s0, acts).value;
    var ch := ChannelOf(s.callers[c].pc).value;
    assert CallerOk(sys, s, c) && ChannelOk(s, ch);
    forall d | 0 <= d < |s.callers| && ChannelOf(s.callers[d].pc) == Some(ch) ensures d == c {
      assert CallerOk(sys, s, d);
    }
  }

  /** A channel keeps its place for good, and a result once sent is never replaced. */
  ghost predicate Extends(s: State, s': State) {
    && |s.channels| <= |s'.channels|
    && forall ch :: 0 <= ch < |s.channels| ==>
         && s'.channels[ch].flight == s.channels[ch].flight
         && s'.channels[ch].slot == s.channels[ch].slot
         && s'.channels[ch].reader == s.channels[ch].reader
         && (s.channels[ch].content.Some? ==> s'.channels[ch].content == s.channels[ch].content)
  }

  lemma ActKeepsChannels(sys: System, s: State, c: nat, ask: CallerStep)
    requires ActStep(sys, s, c, ask).Some?
    ensures ActStep(sys, s, c, ask).value.channels == s.channels
  {
    hide Asking;
  }

  lemma FlyKeepsChannels(sys: System, s: State, f: nat, step: BodyStep)
    requires FlyStep(sys, s, f, step).Some?
    ensures FlyStep(sys, s, f, step).value.channels == s.channels
  {
    hide Body;
  }

  lemma BatchKeepsChannels(sys: System, s: State, l: nat, step: LaneStep)
    requires BatchStep(sys, s, l, step).Some?
    ensures BatchStep(sys, s, l, step).value.channels == s.channels
  {
    hide Batching;
  }

  lemma JoiningExtends(sys: System, s: State, a: Action)
    requires Inv(sys, s) && (a.Join? || a.StartRefresh?) && Step(sys, s, a).Some?
    ensures Extends(s, Step(sys, s, a).value)
  {
    hide DoChan;
    var caller := s.callers[a.c];
    if a.Join? {
      DoChanJoins(s, caller.loc, caller.ttl, false, ZERO_TIME, Some(a.c));
    } else {
      DoChanJoins(s, caller.loc, caller.ttl, true, caller.pc.of, None);
    }
  }

  lemma DeliverExtends(sys: System, s: State, f: nat)
    requires Inv(sys, s) && DeliverStep(s, f).Some?
    ensures Extends(s, DeliverStep(s, f).value)
  {
    DeliverKeepsInv(sys, s, f);
  }

  lemma StepExtends(sys: System, s: State, a: Action)
    requires Inv(sys, s) && Step(sys, s, a).Some?
    ensures Extends(s, Step(sys, s, a).value)
  {
    hide ActStep, FlyStep, BatchStep, JoinStep, StartRefreshStep, DeliverStep;
    match a
    case Act(c, ask) => ActKeepsChannels(sys, s, c, ask);
    case Fly(f, step) => FlyKeepsChannels(sys, s, f, step);
    case Batch(l, lane) => BatchKeepsChannels(sys, s, l, lane);
    case Join(c) => JoiningExtends(sys, s, a);
    case StartRefresh(c) => JoiningExtends(sys, s, a);
    case Deliver(f) => DeliverExtends(sys, s, f);
    case _ =>
  }

  lemma {:induction false} RunExtends(sys: System, s: State, acts: seq<Action>)
    requires Inv(sys, s) && Run(sys, s, acts).Some?
    ensures Extends(s, Run(sys, s, acts).value)
    decreases |acts|
  {
    hide Step;
    if |acts| > 0 {
      var s1 := Step(sys, s, acts[0]).value;
      StepExtends(sys, s, acts[0]);
      StepKeepsInv(sys, s, acts[0]);
      RunExtends(sys, s1, acts[1..]);
    }
  }

  /** Every channel is one slot of one flight. It holds that flight's outcome from the moment its slot is
      served, and holds the same result ever after. */
  lemma EachChannelGetsOneResult(sys: System, s0: State, acts: seq<Action>, more: seq<Action>, ch: nat)
    requires Initial(s0) && Run(sys, s0, acts).Some?
    requires Run(sys, Run(sys, s0, acts).value, more).Some?
    requires ch < |Run(sys, s0, acts).value.channels|
    ensures
      var s := Run(sys, s0, acts).value;
      var later := Run(sys, s, more).value;
      var f, slot := s.channels[ch].flight, s.channels[ch].slot;
      && f < |s.flights| && slot < |s.flights[f].chans| && s.flights[f].chans[slot] == ch
      && (forall d :: 0 <= d < |s.channels| && s.channels[d].flight == f && s.channels[d].slot == slot ==> d == ch)
      && (s.channels[ch].content.Some? <==> slot < s.flights[f].delivered)
      && (s.channels[ch].content.Some? ==> s.flights[f].phase == Delivering(s.channels[ch].content.value))
      && ch < |later.channels|
      && (s.channels[ch].content.Some? ==> later.channels[ch].content == s.channels[ch].content)
  {
    hide Step;
    InitialInv(sys, s0);
    RunKeepsInv(sys, s0, acts);
    var s := Run(sys, s0, acts).value;
    RunExtends(sys, s, more);
    assert ChannelOk(s, ch);
    forall d |
      && 0 <= d < |s.channels|
      && s.channels[d].flight == s.channels[ch].flight && s.channels[d].slot == s.channels[ch].slot
      ensures d == ch
    {
      assert ChannelOk(s, d);
    }
  }

  // ------------------------------------------------------------------
  // No wedging
  // ------------------------------------------------------------------

  /** How many steps a flight still needs on its own, whatever happened so far. */
  function Rank(fl: Flight): nat
    requires fl.delivered <= |fl.chans|
  {
    |fl.chans| - fl.delivered +
    match fl.phase
    case Starting => 8
    case Healing => 8
    case Ready => 7
    case Loading(_) => 6
    case Loaded(_, _, _) => 5
    case AbsenceLoaded(_) => 4
    case Packing(_, _, _) => 4
    case Finished(_) => 3
    case Forgotten(_) => 2
    case Delivering(_) => 1
  }

  predicate Served(fl: Flight) {
    fl.phase.Delivering? && fl.delivered == |fl.chans|
  }

  /** A step that the flight can take by itself, even with the backend down. */
  function NextStep(sys: System, s: State, f: nat): Action
    requires f < |s.flights|
  {
    match s.flights[f].phase
    case Starting => Fly(f, Recheck(false))
    case Healing => Fly(f, Heal(false))
    case Ready => Fly(f, LoaderStart)
    case Loading(since) => Fly(f, LoaderReturn(Errs, since))
    case Loaded(_, _, _) => Fly(f, Pack(0.0))
    case AbsenceLoaded(_) => Fly(f, Save(false, 0.0))
    case Packing(_, _, _) => Fly(f, Save(false, 0.0))
    case Finished(_) => Forget(f)
    case Forgotten(_) => Cleanup(f)
    case Delivering(_) => Deliver(f)
  }

  lemma NextBodyAdvances(sys: System, s: State, f: nat)
    requires f < |s.flights| && s.flights[f].phase.Active() && !s.flights[f].phase.Finished?
    requires FlightBacked(sys, s.now, s.flights[f]) && s.flights[f].delivered <= |s.flights[f].chans|
    ensures NextStep(sys, s, f).Fly? && NextStep(sys, s, f).f == f
    ensures
      var fl, step := s.flights[f], NextStep(sys, s, f).step;
      var e := Body(sys, s.now, None, fl, step);
      && (step.Recheck? ==> !step.ok)
      && e.Some?
      && e.value.flight.chans == fl.chans && e.value.flight.delivered == fl.delivered && e.value.flight.loc == fl.loc
      && Rank(e.value.flight) < Rank(fl)
  {
  }

  lemma NextStepEnabled(sys: System, s: State, f: nat)
    requires f < |s.flights| && FlightOk(s, f) && FlightBacked(sys, s.now, s.flights[f]) && !Served(s.flights[f])
    ensures Step(sys, s, NextStep(sys, s, f)).Some?
    ensures
      var s' := Step(sys, s, NextStep(sys, s, f)).value;
      && |s'.flights| == |s.flights|
      && s'.flights[f].loc == s.flights[f].loc && s'.flights[f].chans == s.flights[f].chans
      && s'.flights[f].delivered <= |s'.flights[f].chans|
      && Rank(s'.flights[f]) < Rank(s.flights[f])
      && s'.callers == s.callers
  {
    if s.flights[f].phase.Active() && !s.flights[f].phase.Finished? {
      NextBodyAdvances(sys, s, f);
    }
  }

  lemma NextStepAdvances(sys: System, s: State, f: nat)
    requires sys.Valid() && Inv(sys, s) && Sound(sys, s) && f < |s.flights| && !Served(s.flights[f])
    ensures Step(sys, s, NextStep(sys, s, f)).Some?
    ensures
      var s' := Step(sys, s, NextStep(sys, s, f)).value;
      && Inv(sys, s') && Sound(sys, s')
      && |s'.flights| == |s.flights|
      && s'.flights[f].loc == s.flights[f].loc && s'.flights[f].chans == s.flights[f].chans
      && s.flights[f].delivered <= |s.flights[f].chans|
      && s'.flights[f].delivered <= |s'.flights[f].chans|
      && Rank(s'.flights[f]) < Rank(s.flights[f])
      && s'.callers == s.callers
  {
    assert FlightOk(s, f) && FlightBacked(sys, s.now, s.flights[f]);
    var a := NextStep(sys, s, f);
    NextStepEnabled(sys, s, f);
    StepKeepsInv(sys, s, a);
    StepIsSound(sys, s, a);
  }

  lemma {:induction false} Drain(sys: System, s: State, f: nat) returns (acts: seq<Action>)
    requires sys.Valid() && Inv(sys, s) && Sound(sys, s) && f < |s.flights|
    requires s.flights[f].delivered <= |s.flights[f].chans|
    ensures Run(sys, s, acts).Some?
    ensures
      var s' := Run(sys, s, acts).value;
      && Inv(sys, s') && Sound(sys, s') && Extends(s, s')
      && f < |s'.flights| && Served(s'.flights[f])
      && s'.callers == s.callers
    decreases Rank(s.flights[f])
  {
    if Served(s.flights[f]) {
      acts := [];
    } else {
      var a := NextStep(sys, s, f);
      NextStepAdvances(sys, s, f);
      var s1 := Step(sys, s, a).value;
      StepExtends(sys, s, a);
      var rest := Drain(sys, s1, f);
      acts := [a] + rest;
      assert acts[1..] == rest;
    }
  }

  lemma WaiterCanBeAnswered(sys: System, s: State, c: nat) returns (more: seq<Action>)
    requires sys.Valid() && Inv(sys, s) && Sound(sys, s) && c < |s.callers| && s.callers[c].pc.Waiting?
    ensures s.callers[c].pc.ch < |s.channels|
    ensures Run(sys, s, more).Some?
    ensures
      var later := Run(sys, s, more).value;
      && c < |later.callers| && later.callers[c].pc.Answered?
      && forall name :: name in later.inflight ==> later.inflight[name] != s.channels[s.callers[c].pc.ch].flight
  {
    hide Step, Rank, NextStep, NameOf;
    var ch := s.callers[c].pc.ch;
    assert CallerOk(sys, s, c);
    var f := s.channels[ch].flight;
    assert FlightOk(s, f);
    var drain := Drain(sys, s, f);
    var served := Run(sys, s, drain).value;
    assert ChannelOk(served, ch);
    ReceiveIsLast(sys, served, c, ch);
    RunConcat(sys, s, drain, [Receive(c)]);
    RunOne(sys, served, Receive(c));
    more := drain + [Receive(c)];
  }

  lemma ReceiveIsLast(sys: System, s: State, c: nat, ch: nat)
    requires c < |s.callers| && s.callers[c].pc == Waiting(ch) && ch < |s.channels| && s.channels[ch].content.Some?
    ensures Step(sys, s, Receive(c)).Some?
    ensures
      var s' := Step(sys, s, Receive(c)).value;
      && |s'.callers| == |s.callers| && s'.callers[c].pc.Answered?
      && s'.inflight == s.inflight && s'.flights == s.flights
  {
  }

  /** No wedging: from every reachable state, however often loaders failed or panicked, a waiting caller
      can be answered without the help of any other caller, and then its flight is not registered. */
  lemma EveryWaiterCanBeAnswered(sys: System, s0: State, acts: seq<Action>, c: nat)
    requires sys.Valid() && Initial(s0) && Run(sys, s0, acts).Some?
    requires c < |Run(sys, s0, acts).value.callers| && Run(sys, s0, acts).value.callers[c].pc.Waiting?
    ensures
      var s := Run(sys, s0, acts).value;
      var ch := s.callers[c].pc.ch;
      && ch < |s.channels|
      && exists more :: && Run(sys, s, more).Some?
                        && var later := Run(sys, s, more).value;
                        && c < |later.callers| && later.callers[c].pc.Answered?
                        && forall name :: name in later.inflight ==> later.inflight[name] != s.channels[ch].flight
  {
    hide Step;
    InitialInv(sys, s0);
    RunIsSound(sys, s0, acts);
    var more := WaiterCanBeAnswered(sys, Run(sys, s0, acts).value, c);
  }
}
