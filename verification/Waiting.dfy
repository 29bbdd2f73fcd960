/** group.go do: how a caller comes to wait for a flight, and how its wait ends. */
module Waiting {
  import opened Base
  import opened Envelope
  import opened Stored
  import opened FlightKeys
  import opened Protocol
  import opened SingleFlight

  // ------------------------------------------------------------------
  // Joining
  // ------------------------------------------------------------------

  /** Whatever else is going on, and canceled or not, a caller that misses can enter its wait at once: on the one
      flight of its key that is under way, or on a new one if there is none. */
  ghost predicate Enters(s: State, s': State, c: nat)
    requires c < |s.callers|
  {
    var caller, ch := s.callers[c], |s.channels|;
    && s' == s.(callers := s.callers[c := caller.(pc := Pc.Waiting(ch))],
                inflight := s'.inflight, flights := s'.flights, channels := s'.channels)
    && |s'.channels| == ch + 1 && s'.channels[..ch] == s.channels
    && s'.channels[ch].reader == Some(c) && s'.channels[ch].content == None
    && var f := s'.channels[ch].flight;
    && (forall g :: 0 <= g < |s.flights| && g != f ==> g < |s'.flights| && s'.flights[g] == s.flights[g])
    && if exists g :: 0 <= g < |s.flights| && s.flights[g].loc == caller.loc && s.flights[g].phase.Active() then
         && f < |s.flights| == |s'.flights| && s.flights[f].loc == caller.loc && s.flights[f].phase.Active()
         && s'.flights[f] == s.flights[f].(chans := s.flights[f].chans + [ch])
       else
         && f == |s.flights| && |s'.flights| == f + 1
         && s'.flights[f] == Flight(caller.loc, caller.ttl, false, ZERO_TIME, s.now, Starting, [ch], 0, 0, 0, 0, false)
  }

  lemma JoinEnters(s: State, c: nat)
    requires Registered(s) && c < |s.callers| && s.callers[c].pc.Joining?
    ensures JoinStep(s, c).Some? && Enters(s, JoinStep(s, c).value, c)
  {
    hide NameOf;
    var loc := s.callers[c].loc;
    forall f | 0 <= f < |s.flights| && NameOf(s.flights[f].loc) == NameOf(loc) ensures s.flights[f].loc == loc {
      SameName(s.flights[f].loc, loc);
    }
    var s' := JoinStep(s, c).value;
    if NameOf(loc) in s.inflight {
      var f := s.inflight[NameOf(loc)];
      assert s.flights[f].loc == loc && s.flights[f].phase.Active();
    }
  }

  lemma SameName(a: Loc, b: Loc)
    ensures NameOf(a) == NameOf(b) ==> a == b
  {
    FlightKeyInjective(a.cache, a.key, b.cache, b.key);
  }

  lemma JoinIsImmediate(sys: System, s0: State, acts: seq<Action>, c: nat)
    requires Initial(s0) && Run(sys, s0, acts).Some?
    requires c < |Run(sys, s0, acts).value.callers| && Run(sys, s0, acts).value.callers[c].pc.Joining?
    ensures
      var s := Run(sys, s0, acts).value;
      exists a :: Step(sys, s, a).Some? && Enters(s, Step(sys, s, a).value, c)
  {
    hide Enters, JoinStep;
    InitialInv(sys, s0);
    RunKeepsInv(sys, s0, acts);
    var s := Run(sys, s0, acts).value;
    JoinEnters(s, c);
    assert Step(sys, s, Action.Join(c)) == JoinStep(s, c);
  }

  // ------------------------------------------------------------------
  // Leaving
  // ------------------------------------------------------------------

  /** The caller has left its wait, and nothing else has changed. */
  ghost predicate Leaves(s: State, s': State, c: nat)
    requires c < |s.callers| && s.callers[c].pc.Waiting?
  {
    s' == s.(callers := s.callers[c := s.callers[c].(pc := Abandoned(s.callers[c].pc.ch))])
  }

  /** In whatever phase its flight is, a canceled waiter may leave by a step of its own, which changes nothing else;
      and it may be canceled at any time. */
  lemma CanceledWaiterMayLeave(sys: System, s: State, c: nat)
    requires c < |s.callers|
    ensures exists a :: Step(sys, s, a) == Some(s.(callers := s.callers[c := s.callers[c].(canceled := true)]))
    ensures s.callers[c].canceled && s.callers[c].pc.Waiting? ==>
              exists a :: Step(sys, s, a).Some? && Leaves(s, Step(sys, s, a).value, c)
  {
    assert Step(sys, s, Cancel(c)) == Some(s.(callers := s.callers[c := s.callers[c].(canceled := true)]));
    if s.callers[c].canceled && s.callers[c].pc.Waiting? {
      assert Leaves(s, Step(sys, s, Abandon(c)).value, c);
    }
  }

  /** Only a canceled waiter leaves, and it leaves by such a step. */
  lemma OnlyCanceledLeave(sys: System, s: State, a: Action, c: nat)
    requires Step(sys, s, a).Some? && c < |Step(sys, s, a).value.callers|
    requires Step(sys, s, a).value.callers[c].pc.Abandoned? && (c < |s.callers| ==> !s.callers[c].pc.Abandoned?)
    ensures c < |s.callers| && s.callers[c].canceled && s.callers[c].pc.Waiting?
    ensures Leaves(s, Step(sys, s, a).value, c)
  {
    hide NameOf, Interpret, Body, Batching, Classify;
  }

  lemma StaysCanceled(sys: System, s: State, a: Action)
    requires Step(sys, s, a).Some?
    ensures |s.callers| <= |Step(sys, s, a).value.callers|
    ensures forall c :: 0 <= c < |s.callers| && s.callers[c].canceled ==> Step(sys, s, a).value.callers[c].canceled
  {
    hide NameOf, Interpret, Body, Batching, Classify, Asking;
  }

  ghost predicate AllLeftCanceled(s: State) {
    forall c :: 0 <= c < |s.callers| && s.callers[c].pc.Abandoned? ==> s.callers[c].canceled
  }

  lemma {:induction false} LeftWereCanceled(sys: System, s: State, acts: seq<Action>)
    requires AllLeftCanceled(s) && Run(sys, s, acts).Some?
    ensures AllLeftCanceled(Run(sys, s, acts).value)
    decreases |acts|
  {
    hide Step;
    if |acts| > 0 {
      var s1 := Step(sys, s, acts[0]).value;
      StaysCanceled(sys, s, acts[0]);
      forall c | 0 <= c < |s1.callers| && s1.callers[c].pc.Abandoned? ensures s1.callers[c].canceled {
        if c >= |s.callers| || !s.callers[c].pc.Abandoned? {
          OnlyCanceledLeave(sys, s, acts[0], c);
        }
      }
      LeftWereCanceled(sys, s1, acts[1..]);
    }
  }

  // ------------------------------------------------------------------
  // Receiving
  // ------------------------------------------------------------------

  /** The answer that a result makes: the loader's NotFound as it is, other failures as errors, the marker as
      NotFound, and other bytes as the value that the codec makes of them, if it can. */
  function Conveyed(sys: System, loc: Loc, out: Outcome, now: Time): Reply {
    match out
    case Fail(err) => if err.NotFoundAt? then NotFound(err.readAt, now) else Reply.Error(err)
    case Data(data, at, _) =>
      if data == Ascii("\0cachekit:negative\0") then NotFound(at, now)
      else
        match sys.codec(loc.cache).unmarshal(PayloadOf(sys.cfg(loc.cache), data))
        case Some(v) => Hit(v, at, now)
        case None => DecodeError
  }

  /** A waiter whose result has come may take it, and is answered what it conveys. */
  lemma WaiterMayReceive(sys: System, s: State, c: nat)
    requires c < |s.callers| && s.callers[c].pc.Waiting? && s.callers[c].pc.ch < |s.channels|
    requires s.channels[s.callers[c].pc.ch].content.Some?
    ensures
      var ch := s.callers[c].pc.ch;
      var reply := Conveyed(sys, s.callers[c].loc, s.channels[ch].content.value, s.now);
      exists a :: Step(sys, s, a) == Some(s.(callers := s.callers[c := s.callers[c].(pc := Answered(reply, Some(ch)))]))
  {
    var ch := s.callers[c].pc.ch;
    var out := s.channels[ch].content.value;
    InterpretConveys(sys, s.callers[c].loc, out, s.now);
    var reply := Conveyed(sys, s.callers[c].loc, out, s.now);
    assert Step(sys, s, Receive(c))
        == Some(s.(callers := s.callers[c := s.callers[c].(pc := Answered(reply, Some(ch)))]));
  }

  lemma InterpretConveys(sys: System, loc: Loc, out: Outcome, now: Time)
    ensures Interpret(sys, loc, out, now) == Conveyed(sys, loc, out, now)
  {
    MarkerSpells();
    if out.Data? {
      ParsedPayload(sys.cfg(loc.cache), out.data);
    }
  }
}
