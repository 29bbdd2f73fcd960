/** group.go do: a canceled waiter leaves without a trace. */
module Erasure {
  import opened Base
  import opened Protocol

  /** The caller as it would be had its context never been canceled. */
  function EraseCaller(c: Caller): Caller {
    c.(canceled := false, pc := if c.pc.Abandoned? then Waiting(c.pc.ch) else c.pc)
  }

  function EraseCallers(cs: seq<Caller>): (es: seq<Caller>)
    ensures |es| == |cs|
    ensures forall i :: 0 <= i < |cs| ==> es[i] == EraseCaller(cs[i])
  {
    seq(|cs|, i requires 0 <= i < |cs| => EraseCaller(cs[i]))
  }

  function Erase(s: State): State {
    s.(callers := EraseCallers(s.callers))
  }

  predicate IsCancellation(a: Action) {
    a.Cancel? || a.Abandon?
  }

  function WithoutCancellation(acts: seq<Action>): seq<Action> {
    if |acts| == 0 then []
    else if IsCancellation(acts[0]) then WithoutCancellation(acts[1..])
    else [acts[0]] + WithoutCancellation(acts[1..])
  }

  lemma EraseSetPc(s: State, c: nat, pc: Pc)
    requires c < |s.callers| && !pc.Abandoned?
    ensures Erase(SetPc(s, c, pc)) == SetPc(Erase(s), c, pc)
  {
    assert Erase(SetPc(s, c, pc)).callers == SetPc(Erase(s), c, pc).callers;
  }

  lemma CancellationIsErased(sys: System, s: State, a: Action)
    requires IsCancellation(a) && Step(sys, s, a).Some?
    ensures Erase(Step(sys, s, a).value) == Erase(s)
  {
    assert Erase(Step(sys, s, a).value).callers == Erase(s).callers;
  }

  lemma DoChanErases(s: State, loc: Loc, ttl: Duration, refresh: bool, of: Time, reader: Option<nat>)
    ensures match DoChan(s, loc, ttl, refresh, of, reader)
            case None => DoChan(Erase(s), loc, ttl, refresh, of, reader) == None
            case Some(s') =>
              DoChan(Erase(s), loc, ttl, refresh, of, reader) == Some(Erase(s')) && s'.callers == s.callers
  {
  }

  lemma ActErases(sys: System, s: State, c: nat, ask: CallerStep)
    requires ActStep(sys, s, c, ask).Some?
    ensures ActStep(sys, Erase(s), c, ask) == Some(Erase(ActStep(sys, s, c, ask).value))
  {
    var read := Read(s, s.callers[c].loc, ask.ok);
    var e := Asking(sys, s.now, read, s.callers[c], ask).value;
    assert Asking(sys, s.now, read, Erase(s).callers[c], ask) == Some(e);
    EraseSetPc(s, c, e.pc);
  }

  lemma JoinErases(s: State, c: nat)
    requires JoinStep(s, c).Some?
    ensures JoinStep(Erase(s), c) == Some(Erase(JoinStep(s, c).value))
  {
    hide DoChan;
    DoChanErases(s, s.callers[c].loc, s.callers[c].ttl, false, ZERO_TIME, Some(c));
    var s1 := DoChan(s, s.callers[c].loc, s.callers[c].ttl, false, ZERO_TIME, Some(c)).value;
    EraseSetPc(s1, c, Waiting(|s.channels|));
  }

  lemma StartRefreshErases(s: State, c: nat)
    requires StartRefreshStep(s, c).Some?
    ensures StartRefreshStep(Erase(s), c) == Some(Erase(StartRefreshStep(s, c).value))
  {
    hide DoChan;
    var pc := s.callers[c].pc;
    DoChanErases(s, s.callers[c].loc, s.callers[c].ttl, true, pc.of, None);
    EraseSetPc(DoChan(s, s.callers[c].loc, s.callers[c].ttl, true, pc.of, None).value, c,
               Answered(Hit(pc.v, pc.readAt, pc.servedAt), None));
  }

  lemma FlyErases(sys: System, s: State, f: nat, step: BodyStep)
    requires FlyStep(sys, s, f, step).Some?
    ensures FlyStep(sys, Erase(s), f, step) == Some(Erase(FlyStep(sys, s, f, step).value))
  {
    hide Body;
  }

  lemma BatchErases(sys: System, s: State, l: nat, step: LaneStep)
    requires BatchStep(sys, s, l, step).Some?
    ensures BatchStep(sys, Erase(s), l, step) == Some(Erase(BatchStep(sys, s, l, step).value))
  {
    hide Batching;
  }

  lemma ReceiveErases(sys: System, s: State, c: nat)
    requires ReceiveStep(sys, s, c).Some?
    ensures ReceiveStep(sys, Erase(s), c) == Some(Erase(ReceiveStep(sys, s, c).value))
  {
    hide Interpret;
    EraseSetPc(s, c, ReceiveStep(sys, s, c).value.callers[c].pc);
  }

  lemma StepErases(sys: System, s: State, a: Action)
    requires !IsCancellation(a) && Step(sys, s, a).Some?
    ensures Step(sys, Erase(s), a) == Some(Erase(Step(sys, s, a).value))
  {
    hide ActStep, FlyStep, BatchStep, JoinStep, StartRefreshStep, ReceiveStep;
    match a
    case Act(c, ask) => ActErases(sys, s, c, ask);
    case Join(c) => JoinErases(s, c);
    case StartRefresh(c) => StartRefreshErases(s, c);
    case Fly(f, step) => FlyErases(sys, s, f, step);
    case Batch(l, lane) => BatchErases(sys, s, l, lane);
    case Receive(c) => ReceiveErases(sys, s, c);
    case Ask(loc, ttl) =>
      assert Erase(Step(sys, s, a).value).callers == Erase(s).callers + [Caller(loc, ttl, false, Reading)];
    case _ =>
  }

  lemma {:induction false} RunErases(sys: System, s: State, acts: seq<Action>)
    requires Run(sys, s, acts).Some?
    ensures Run(sys, Erase(s), WithoutCancellation(acts)) == Some(Erase(Run(sys, s, acts).value))
    decreases |acts|
  {
    hide Step;
    if |acts| > 0 {
      var a, s1 := acts[0], Step(sys, s, acts[0]).value;
      RunErases(sys, s1, acts[1..]);
      if IsCancellation(a) {
        CancellationIsErased(sys, s, a);
      } else {
        StepErases(sys, s, a);
        var kept := WithoutCancellation(acts);
        assert kept[0] == a && kept[1..] == WithoutCancellation(acts[1..]);
      }
    }
  }

  /** Deleting every cancellation from a run leaves a run with the same loader calls, stores, flights,
      channels and batch results, in which every caller that did not give up has the same answer, and one
      that did is still waiting on the channel of the flight it started or joined. */
  lemma CancellationErasure(sys: System, s0: State, acts: seq<Action>)
    requires Initial(s0) && Run(sys, s0, acts).Some?
    ensures
      var s, erased := Run(sys, s0, acts).value, Run(sys, s0, WithoutCancellation(acts));
      && erased.Some?
      && erased.value == s.(callers := erased.value.callers)
      && |erased.value.callers| == |s.callers|
      && forall c :: 0 <= c < |s.callers| ==>
           if s.callers[c].pc.Abandoned? then erased.value.callers[c].pc == Waiting(s.callers[c].pc.ch)
           else erased.value.callers[c].pc == s.callers[c].pc
  {
    hide Step;
    RunErases(sys, s0, acts);
    assert Erase(s0).callers == s0.callers;
  }
}
