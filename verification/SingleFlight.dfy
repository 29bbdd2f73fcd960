/** group.go and the flight table: registration, channels and waiters in every reachable state. */
module SingleFlight {
  import opened Base
  import opened FlightKeys
  import opened Protocol

  // ------------------------------------------------------------------
  // Registration
  // ------------------------------------------------------------------

  /** A key is registered exactly while a flight for it has not run its Forget, and under that flight. */
  ghost predicate Registered(s: State) {
    && (forall name :: name in s.inflight ==>
         && s.inflight[name] < |s.flights|
         && NameOf(s.flights[s.inflight[name]].loc) == name
         && s.flights[s.inflight[name]].phase.Active())
    && (forall f :: 0 <= f < |s.flights| && s.flights[f].phase.Active() ==>
         && NameOf(s.flights[f].loc) in s.inflight
         && s.inflight[NameOf(s.flights[f].loc)] == f)
  }

  // ------------------------------------------------------------------
  // Channels
  // ------------------------------------------------------------------

  ghost predicate ChannelOk(s: State, ch: nat)
    requires ch < |s.channels|
  {
    var c := s.channels[ch];
    && c.flight < |s.flights|
    && var fl := s.flights[c.flight];
    && c.slot < |fl.chans| && fl.chans[c.slot] == ch
    && (c.content.Some? <==> c.slot < fl.delivered)
    && (c.content.Some? ==> fl.phase.Delivering? && c.content.value == fl.phase.out)
  }

  ghost predicate FlightOk(s: State, f: nat)
    requires f < |s.flights|
  {
    var fl := s.flights[f];
    && fl.delivered <= |fl.chans|
    && (fl.delivered > 0 ==> fl.phase.Delivering?)
    && (forall i :: 0 <= i < |fl.chans| ==>
         && fl.chans[i] < |s.channels|
         && s.channels[fl.chans[i]].flight == f
         && s.channels[fl.chans[i]].slot == i)
  }

  ghost predicate Wired(s: State) {
    && (forall ch :: 0 <= ch < |s.channels| ==> ChannelOk(s, ch))
    && (forall f :: 0 <= f < |s.flights| ==> FlightOk(s, f))
  }

  // ------------------------------------------------------------------
  // Readers
  // ------------------------------------------------------------------

  /** The channel a caller got, is waiting on or has abandoned. */
  function ChannelOf(pc: Pc): Option<nat> {
    match pc
    case Waiting(ch) => Some(ch)
    case Abandoned(ch) => Some(ch)
    case Answered(_, via) => via
    case _ => None
  }

  ghost predicate CallerOk(sys: System, s: State, c: nat)
    requires c < |s.callers|
  {
    var caller := s.callers[c];
    match ChannelOf(caller.pc)
    case None => true
    case Some(ch) =>
      && ch < |s.channels|
      && s.channels[ch].reader == Some(c)
      && s.channels[ch].flight < |s.flights|
      && s.flights[s.channels[ch].flight].loc == caller.loc
      && (caller.pc.Answered? ==>
           && s.channels[ch].content.Some?
           && exists at :: caller.pc.reply == Interpret(sys, caller.loc, s.channels[ch].content.value, at))
  }

  ghost predicate Readers(sys: System, s: State) {
    && (forall c :: 0 <= c < |s.callers| ==> CallerOk(sys, s, c))
    && (forall ch :: 0 <= ch < |s.channels| && s.channels[ch].reader.Some? ==>
         && s.channels[ch].reader.value < |s.callers|
         && ChannelOf(s.callers[s.channels[ch].reader.value].pc) == Some(ch))
  }

  ghost predicate Inv(sys: System, s: State) {
    Registered(s) && Wired(s) && Readers(sys, s)
  }

  lemma InitialInv(sys: System, s: State)
    requires Initial(s)
    ensures Inv(sys, s)
  {
  }

  // ------------------------------------------------------------------
  // Preservation
  // ------------------------------------------------------------------

  /** A body step moves its flight inside the active phases and touches no wiring. */
  ghost predicate SameWiring(fl: Flight, fl': Flight) {
    && fl'.loc == fl.loc && fl'.chans == fl.chans && fl'.delivered == fl.delivered
    && fl.phase.Active() && fl'.phase.Active()
  }

  lemma BodySameWiring(sys: System, s: State, fl: Flight, step: BodyStep, ok: bool)
    requires Body(sys, s.now, Read(s, fl.loc, ok), fl, step).Some?
    ensures SameWiring(fl, Body(sys, s.now, Read(s, fl.loc, ok), fl, step).value.flight)
  {
  }

  lemma FlyKeepsInv(sys: System, s: State, f: nat, step: BodyStep)
    requires Inv(sys, s) && FlyStep(sys, s, f, step).Some?
    ensures Inv(sys, FlyStep(sys, s, f, step).value)
  {
    hide Body, NameOf;
    var s' := FlyStep(sys, s, f, step).value;
    var fl := s.flights[f];
    BodySameWiring(sys, s, fl, step, if step.Recheck? then step.ok else false);
    assert SameWiring(fl, s'.flights[f]);
    assert s'.inflight == s.inflight && s'.channels == s.channels && s'.callers == s.callers;
    assert forall g :: 0 <= g < |s.flights| && g != f ==> s'.flights[g] == s.flights[g];
    forall ch | 0 <= ch < |s'.channels| ensures ChannelOk(s', ch) {
      assert ChannelOk(s, ch);
    }
    forall g | 0 <= g < |s'.flights| ensures FlightOk(s', g) {
      assert FlightOk(s, g);
    }
    forall c | 0 <= c < |s'.callers| ensures CallerOk(sys, s', c) {
      assert CallerOk(sys, s, c);
    }
  }

  /** What DoChan does: a registered flight gains one slot, or a new flight starts with one. */
  ghost predicate Joined(s: State, loc: Loc, reader: Option<nat>, s': State) {
    var n, m := |s.channels|, |s.flights|;
    && |s'.channels| == n + 1
    && (forall ch :: 0 <= ch < n ==> s'.channels[ch] == s.channels[ch])
    && var f := s'.channels[n].flight;
    && s'.channels[n] == Channel(f, s'.channels[n].slot, reader, None)
    && f < |s'.flights| && s'.flights[f].loc == loc && s'.flights[f].phase.Active()
    && m <= |s'.flights| <= m + 1
    && (forall g :: 0 <= g < m && g != f ==> s'.flights[g] == s.flights[g])
    && (if f < m then
          && |s'.flights| == m && s'.inflight == s.inflight
          && s'.flights[f] == s.flights[f].(chans := s.flights[f].chans + [n])
          && s'.channels[n].slot == |s.flights[f].chans|
        else
          && f == m && |s'.flights| == m + 1
          && NameOf(loc) !in s.inflight && s'.inflight == s.inflight[NameOf(loc) := m]
          && s'.flights[m].chans == [n] && s'.flights[m].delivered == 0 && s'.flights[m].phase.Starting?
          && s'.channels[n].slot == 0)
    && s'.callers == s.callers && s'.store == s.store && s'.now == s.now && s'.lanes == s.lanes && s'.log == s.log
  }

  lemma DoChanJoins(s: State, loc: Loc, ttl: Duration, refresh: bool, of: Time, reader: Option<nat>)
    requires Registered(s)
    ensures DoChan(s, loc, ttl, refresh, of, reader).Some?
    ensures Joined(s, loc, reader, DoChan(s, loc, ttl, refresh, of, reader).value)
  {
    if NameOf(loc) in s.inflight {
      var other := s.flights[s.inflight[NameOf(loc)]].loc;
      FlightKeyInjective(loc.cache, loc.key, other.cache, other.key);
    }
  }

  lemma JoinedKeepsRegistered(s: State, loc: Loc, reader: Option<nat>, s': State)
    requires Registered(s) && Joined(s, loc, reader, s')
    ensures Registered(s')
  {
    forall name | name in s'.inflight
      ensures s'.inflight[name] < |s'.flights|
      ensures NameOf(s'.flights[s'.inflight[name]].loc) == name
      ensures s'.flights[s'.inflight[name]].phase.Active()
    {
    }
    forall f | 0 <= f < |s'.flights| && s'.flights[f].phase.Active()
      ensures NameOf(s'.flights[f].loc) in s'.inflight && s'.inflight[NameOf(s'.flights[f].loc)] == f
    {
      if f < |s.flights| {
        assert s.flights[f].phase.Active() && s.flights[f].loc == s'.flights[f].loc;
      }
    }
  }

  lemma JoinedKeepsWired(s: State, loc: Loc, reader: Option<nat>, s': State)
    requires Wired(s) && Joined(s, loc, reader, s')
    ensures Wired(s')
  {
    var n := |s.channels|;
    forall ch | 0 <= ch < |s'.channels| ensures ChannelOk(s', ch) {
      if ch < n {
        assert ChannelOk(s, ch);
      } else if s'.channels[n].flight < |s.flights| {
        assert FlightOk(s, s'.channels[n].flight);
      }
    }
    forall g | 0 <= g < |s'.flights| ensures FlightOk(s', g) {
      if g < |s.flights| {
        assert FlightOk(s, g);
      }
    }
  }

  /** Moving one caller on, when no channel but its own is involved. */
  lemma ReadersAfterMove(sys: System, s: State, c: nat, pc: Pc)
    requires Readers(sys, s) && c < |s.callers|
    requires ChannelOf(pc) == ChannelOf(s.callers[c].pc)
    requires CallerOk(sys, SetPc(s, c, pc), c)
    ensures Readers(sys, SetPc(s, c, pc))
  {
    var s' := SetPc(s, c, pc);
    forall d | 0 <= d < |s'.callers| ensures CallerOk(sys, s', d) {
      assert CallerOk(sys, s, d);
    }
  }

  /** A new channel, with the caller that reads it, if any. */
  lemma ReadersAfterJoin(sys: System, s: State, loc: Loc, reader: Option<nat>, s1: State, c: nat, pc: Pc)
    requires Readers(sys, s) && Wired(s) && Joined(s, loc, reader, s1)
    requires c < |s.callers| && s.callers[c].loc == loc && ChannelOf(s.callers[c].pc) == None
    requires match reader
             case Some(r) => r == c && pc == Waiting(|s.channels|)
             case None => ChannelOf(pc) == None
    ensures Readers(sys, SetPc(s1, c, pc))
  {
    var s' := SetPc(s1, c, pc);
    forall d | 0 <= d < |s'.callers| ensures CallerOk(sys, s', d) {
      assert CallerOk(sys, s, d);
    }
    forall ch | 0 <= ch < |s'.channels| && s'.channels[ch].reader.Some?
      ensures s'.channels[ch].reader.value < |s'.callers|
      ensures ChannelOf(s'.callers[s'.channels[ch].reader.value].pc) == Some(ch)
    {
      if ch < |s.channels| {
        assert s.channels[ch].reader.value < |s.callers|;
      }
    }
  }

  lemma JoinKeepsInv(sys: System, s: State, c: nat)
    requires Inv(sys, s) && JoinStep(s, c).Some?
    ensures Inv(sys, JoinStep(s, c).value)
  {
    var loc := s.callers[c].loc;
    DoChanJoins(s, loc, s.callers[c].ttl, false, ZERO_TIME, Some(c));
    var s1 := DoChan(s, loc, s.callers[c].ttl, false, ZERO_TIME, Some(c)).value;
    JoinedKeepsRegistered(s, loc, Some(c), s1);
    JoinedKeepsWired(s, loc, Some(c), s1);
    ReadersAfterJoin(sys, s, loc, Some(c), s1, c, Waiting(|s.channels|));
    SetPcKeepsTables(s1, c, Waiting(|s.channels|));
  }

  lemma StartRefreshKeepsInv(sys: System, s: State, c: nat)
    requires Inv(sys, s) && StartRefreshStep(s, c).Some?
    ensures Inv(sys, StartRefreshStep(s, c).value)
  {
    var loc, pc := s.callers[c].loc, s.callers[c].pc;
    DoChanJoins(s, loc, s.callers[c].ttl, true, pc.of, None);
    var s1 := DoChan(s, loc, s.callers[c].ttl, true, pc.of, None).value;
    JoinedKeepsRegistered(s, loc, None, s1);
    JoinedKeepsWired(s, loc, None, s1);
    var pc' := Answered(Hit(pc.v, pc.readAt, pc.servedAt), None);
    ReadersAfterJoin(sys, s, loc, None, s1, c, pc');
    SetPcKeepsTables(s1, c, pc');
  }

  lemma SetPcKeepsTables(s: State, c: nat, pc: Pc)
    requires Registered(s) && Wired(s) && c < |s.callers|
    ensures Registered(SetPc(s, c, pc)) && Wired(SetPc(s, c, pc))
  {
    SameTables(s, SetPc(s, c, pc));
  }

  lemma SameTables(s: State, s': State)
    requires Registered(s) && Wired(s)
    requires s'.inflight == s.inflight && s'.flights == s.flights && s'.channels == s.channels
    ensures Registered(s') && Wired(s')
  {
    forall ch | 0 <= ch < |s'.channels| ensures ChannelOk(s', ch) {
      assert ChannelOk(s, ch);
    }
    forall g | 0 <= g < |s'.flights| ensures FlightOk(s', g) {
      assert FlightOk(s, g);
    }
  }

  lemma SameReaders(sys: System, s: State, s': State)
    requires Readers(sys, s)
    requires s'.flights == s.flights && s'.channels == s.channels
    requires |s.callers| <= |s'.callers|
    requires forall c :: 0 <= c < |s.callers| ==>
               s'.callers[c].loc == s.callers[c].loc && s'.callers[c].pc == s.callers[c].pc
    requires forall c :: |s.callers| <= c < |s'.callers| ==> ChannelOf(s'.callers[c].pc) == None
    ensures Readers(sys, s')
  {
    forall c | 0 <= c < |s'.callers| ensures CallerOk(sys, s', c) {
      if c < |s.callers| {
        assert CallerOk(sys, s, c);
      }
    }
  }

  lemma ActKeepsInv(sys: System, s: State, c: nat, ask: CallerStep)
    requires Inv(sys, s) && ActStep(sys, s, c, ask).Some?
    ensures Inv(sys, ActStep(sys, s, c, ask).value)
  {
    var s' := ActStep(sys, s, c, ask).value;
    var pc := s'.callers[c].pc;
    SameTables(s, s');
    ReadersAfterMove(sys, s, c, pc);
    SameReaders(sys, SetPc(s, c, pc), s');
  }

  lemma ReceiveKeepsInv(sys: System, s: State, c: nat)
    requires Inv(sys, s) && ReceiveStep(sys, s, c).Some?
    ensures Inv(sys, ReceiveStep(sys, s, c).value)
  {
    var s' := ReceiveStep(sys, s, c).value;
    SameTables(s, s');
    assert CallerOk(sys, s, c);
    ReadersAfterMove(sys, s, c, s'.callers[c].pc);
  }

  lemma AbandonKeepsInv(sys: System, s: State, c: nat)
    requires Inv(sys, s) && AbandonStep(s, c).Some?
    ensures Inv(sys, AbandonStep(s, c).value)
  {
    var s' := AbandonStep(s, c).value;
    SameTables(s, s');
    assert CallerOk(sys, s, c);
    ReadersAfterMove(sys, s, c, s'.callers[c].pc);
  }

  /** Moving one finished flight between its closing phases. */
  lemma ClosingKeepsRest(sys: System, s: State, f: nat, s': State)
    requires Wired(s) && Readers(sys, s) && f < |s.flights| == |s'.flights|
    requires s'.channels == s.channels && s'.callers == s.callers
    requires s.flights[f].phase.Finished? || s.flights[f].phase.Forgotten?
    requires s'.flights == s.flights[f := s.flights[f].(phase := s'.flights[f].phase)]
    ensures Wired(s') && Readers(sys, s')
  {
    forall ch | 0 <= ch < |s'.channels| ensures ChannelOk(s', ch) {
      assert ChannelOk(s, ch) && FlightOk(s, f);
    }
    forall g | 0 <= g < |s'.flights| ensures FlightOk(s', g) {
      assert FlightOk(s, g);
    }
    forall c | 0 <= c < |s'.callers| ensures CallerOk(sys, s', c) {
      assert CallerOk(sys, s, c);
    }
  }

  /** The unconditional Forget removes exactly the registration of its own flight. */
  lemma ForgetKeepsInv(sys: System, s: State, f: nat)
    requires Inv(sys, s) && ForgetStep(s, f).Some?
    ensures Inv(sys, ForgetStep(s, f).value)
    ensures s.inflight[NameOf(s.flights[f].loc)] == f
  {
    var s' := ForgetStep(s, f).value;
    var name := NameOf(s.flights[f].loc);
    assert name in s.inflight && s.inflight[name] == f;
    forall g | 0 <= g < |s'.flights| && s'.flights[g].phase.Active()
      ensures NameOf(s'.flights[g].loc) in s'.inflight && s'.inflight[NameOf(s'.flights[g].loc)] == g
    {
      assert g != f && s.flights[g].phase.Active();
    }
    ClosingKeepsRest(sys, s, f, s');
  }

  /** The clean-up of a forgotten call never finds itself registered, and leaves its successor alone. */
  lemma CleanupKeepsInv(sys: System, s: State, f: nat)
    requires Inv(sys, s) && CleanupStep(s, f).Some?
    ensures Inv(sys, CleanupStep(s, f).value)
    ensures CleanupStep(s, f).value.inflight == s.inflight
  {
    var s' := CleanupStep(s, f).value;
    var name := NameOf(s.flights[f].loc);
    assert name in s.inflight ==> s.inflight[name] != f;
    forall g | 0 <= g < |s'.flights| && s'.flights[g].phase.Active()
      ensures NameOf(s'.flights[g].loc) in s'.inflight && s'.inflight[NameOf(s'.flights[g].loc)] == g
    {
      assert g != f && s.flights[g].phase.Active();
    }
    ClosingKeepsRest(sys, s, f, s');
  }

  lemma DeliverKeepsInv(sys: System, s: State, f: nat)
    requires Inv(sys, s) && DeliverStep(s, f).Some?
    ensures Inv(sys, DeliverStep(s, f).value)
    ensures s.channels[s.flights[f].chans[s.flights[f].delivered]].content == None
  {
    var s' := DeliverStep(s, f).value;
    var fl := s.flights[f];
    var sent := fl.chans[fl.delivered];
    assert FlightOk(s, f) && ChannelOk(s, sent);
    forall ch | 0 <= ch < |s'.channels| ensures ChannelOk(s', ch) {
      assert ChannelOk(s, ch);
      if ch != sent && s.channels[ch].flight == f {
        assert s.channels[ch].slot != fl.delivered;
      }
    }
    forall g | 0 <= g < |s'.flights| ensures FlightOk(s', g) {
      assert FlightOk(s, g);
    }
    forall c | 0 <= c < |s'.callers| ensures CallerOk(sys, s', c) {
      assert CallerOk(sys, s, c);
    }
  }

  lemma BatchKeepsInv(sys: System, s: State, l: nat, step: LaneStep)
    requires Inv(sys, s) && BatchStep(sys, s, l, step).Some?
    ensures Inv(sys, BatchStep(sys, s, l, step).value)
  {
    hide Batching;
    SameTables(s, BatchStep(sys, s, l, step).value);
    SameReaders(sys, s, BatchStep(sys, s, l, step).value);
  }

  /** Every step of every participant keeps the wiring. */
  lemma StepKeepsInv(sys: System, s: State, a: Action)
    requires Inv(sys, s) && Step(sys, s, a).Some?
    ensures Inv(sys, Step(sys, s, a).value)
  {
    hide ActStep, JoinStep, StartRefreshStep, FlyStep, ForgetStep, CleanupStep, DeliverStep, ReceiveStep, BatchStep;
    match a
    case Act(c, ask) => ActKeepsInv(sys, s, c, ask);
    case Join(c) => JoinKeepsInv(sys, s, c);
    case StartRefresh(c) => StartRefreshKeepsInv(sys, s, c);
    case Fly(f, step) => FlyKeepsInv(sys, s, f, step);
    case Forget(f) => ForgetKeepsInv(sys, s, f);
    case Cleanup(f) => CleanupKeepsInv(sys, s, f);
    case Deliver(f) => DeliverKeepsInv(sys, s, f);
    case Receive(c) => ReceiveKeepsInv(sys, s, c);
    case Abandon(c) => AbandonKeepsInv(sys, s, c);
    case Batch(l, lane) => BatchKeepsInv(sys, s, l, lane);
    case _ =>
      SameTables(s, Step(sys, s, a).value);
      SameReaders(sys, s, Step(sys, s, a).value);
  }

  lemma {:induction false} RunKeepsInv(sys: System, s: State, acts: seq<Action>)
    requires Inv(sys, s) && Run(sys, s, acts).Some?
    ensures Inv(sys, Run(sys, s, acts).value)
    decreases |acts|
  {
    hide Step;
    if |acts| > 0 {
      StepKeepsInv(sys, s, acts[0]);
      RunKeepsInv(sys, Step(sys, s, acts[0]).value, acts[1..]);
    }
  }
}
