/** cache.go: the re-check inside the flight closes the race between a miss and the start of its flight. */
module RecheckRace {
  import opened Base
  import opened Config
  import opened Envelope
  import opened Stored
  import opened Protocol
  import opened SingleFlight
  import opened Provenance

  /** No failing re-check, no eviction, no foreign bytes and no batch call. First reads may fail and Sets
      may be dropped. */
  predicate Undisturbed(a: Action) {
    && !a.Evict? && !a.Foreign? && !a.NewLane?
    && (a.Fly? && a.step.Recheck? ==> a.step.ok)
  }

  predicate AllUndisturbed(acts: seq<Action>) {
    forall i :: 0 <= i < |acts| ==> Undisturbed(acts[i])
  }

  /** The store holds nothing for the key that could still satisfy the flight. */
  ghost predicate Spent(sys: System, s: State, fl: Flight) {
    fl.loc in s.store ==>
      || !s.store[fl.loc].item.Live(s.now)
      || match sys.Look(fl.loc, s.store[fl.loc].item.val)
         case Readable(env, _) => !Satisfies(fl, env, s.now)
         case _ => false
  }

  function LastWrite(log: seq<Write>, loc: Loc): Option<Write> {
    if |log| == 0 then None
    else if log[|log| - 1].loc == loc then Some(log[|log| - 1])
    else LastWrite(log[..|log| - 1], loc)
  }

  ghost predicate Guarded(sys: System, s: State) {
    && s.lanes == []
    && (forall loc :: loc in s.store ==> !sys.Look(loc, s.store[loc].item.val).Undecodable?)
    && (forall c :: 0 <= c < |s.callers| ==> !s.callers[c].pc.SelfHealing?)
    && (forall f :: 0 <= f < |s.flights| ==> !s.flights[f].phase.Healing?)
    && (forall f :: 0 <= f < |s.flights| ==> (s.flights[f].refresh <==> s.flights[f].refreshOf != ZERO_TIME))
    && (forall c :: 0 <= c < |s.callers| && s.callers[c].pc.Refreshing? ==> s.callers[c].pc.of != ZERO_TIME)
    && (forall f :: 0 <= f < |s.flights| && s.flights[f].phase.InLoad() ==> Spent(sys, s, s.flights[f]))
    && (forall loc :: match LastWrite(s.log, loc)
                      case None => loc !in s.store
                      case Some(w) => loc in s.store && s.store[loc].item.val == w.data)
  }

  lemma LastWriteAppend(log: seq<Write>, w: Write, loc: Loc)
    ensures LastWrite(log + [w], loc) == if w.loc == loc then Some(w) else LastWrite(log, loc)
  {
    assert (log + [w])[..|log|] == log;
  }

  lemma SpentPersists(sys: System, s: State, to: Time, fl: Flight)
    requires Spent(sys, s, fl) && s.now <= to
    ensures Spent(sys, s.(now := to), fl)
  {
  }

  lemma BodyKeepsGuard(sys: System, s: State, fl: Flight, step: BodyStep)
    requires Guarded(sys, s) && !fl.phase.Healing? && (fl.refresh <==> fl.refreshOf != ZERO_TIME)
    requires fl.phase.InLoad() ==> Spent(sys, s, fl)
    requires step.Recheck? ==> step.ok
    requires Body(sys, s.now, Read(s, fl.loc, step.Recheck?), fl, step).Some?
    ensures
      var e := Body(sys, s.now, Read(s, fl.loc, step.Recheck?), fl, step).value;
      && !e.flight.phase.Healing? && !e.op.Drop?
      && e.flight.refresh == fl.refresh && e.flight.refreshOf == fl.refreshOf && e.flight.loc == fl.loc
      && (e.flight.phase.InLoad() ==> e.op.Keep? && Spent(sys, s, e.flight))
      && (e.op.Put? ==> !e.flight.phase.InLoad())
  {
  }

  /** The flights of other keys are as guarded as before, whatever happens at this one. */
  lemma OthersStaySpent(sys: System, s: State, f: nat, s': State)
    requires Registered(s) && Guarded(sys, s) && f < |s.flights| == |s'.flights| && s.flights[f].phase.Active()
    requires s'.now == s.now
    requires forall g :: 0 <= g < |s.flights| && g != f ==> s'.flights[g] == s.flights[g]
    requires forall loc :: loc != s.flights[f].loc ==>
               (loc in s'.store <==> loc in s.store) && (loc in s.store ==> s'.store[loc] == s.store[loc])
    ensures forall g :: 0 <= g < |s'.flights| && g != f && s'.flights[g].phase.InLoad() ==>
              Spent(sys, s', s'.flights[g])
  {
    hide NameOf;
    forall g | 0 <= g < |s'.flights| && g != f && s'.flights[g].phase.InLoad()
      ensures Spent(sys, s', s'.flights[g])
    {
      assert s.flights[g].phase.Active() && s.flights[g].loc != s.flights[f].loc;
      assert Spent(sys, s, s.flights[g]);
    }
  }

  lemma PutKeepsGuard(sys: System, s: State, f: nat, fl': Flight, item: Item, at: Time)
    requires Registered(s) && Guarded(sys, s) && f < |s.flights| && s.flights[f].phase.Active()
    requires Backed(sys, s.flights[f].loc, item.val, at)
    requires !fl'.phase.Healing? && !fl'.phase.InLoad() && (fl'.refresh <==> fl'.refreshOf != ZERO_TIME)
    ensures Guarded(sys, Apply(s.(flights := s.flights[f := fl']), s.flights[f].loc, Put(item, at), Some(f)))
  {
    hide NameOf;
    var loc := s.flights[f].loc;
    var s' := Apply(s.(flights := s.flights[f := fl']), loc, Put(item, at), Some(f));
    OthersStaySpent(sys, s, f, s');
    forall l ensures LastWrite(s'.log, l) == if l == loc then Some(s'.log[|s.log|]) else LastWrite(s.log, l) {
      LastWriteAppend(s.log, s'.log[|s.log|], l);
    }
  }

  lemma KeepKeepsGuard(sys: System, s: State, f: nat, fl': Flight)
    requires Registered(s) && Guarded(sys, s) && f < |s.flights| && s.flights[f].phase.Active()
    requires !fl'.phase.Healing? && (fl'.refresh <==> fl'.refreshOf != ZERO_TIME)
    requires fl'.phase.InLoad() ==> fl'.loc == s.flights[f].loc && Spent(sys, s, fl')
    ensures Guarded(sys, s.(flights := s.flights[f := fl']))
  {
    hide NameOf;
    OthersStaySpent(sys, s, f, s.(flights := s.flights[f := fl']));
  }

  lemma FlyKeepsGuard(sys: System, s: State, f: nat, step: BodyStep)
    requires sys.Valid() && Inv(sys, s) && Sound(sys, s) && Guarded(sys, s)
    requires Undisturbed(Fly(f, step)) && FlyStep(sys, s, f, step).Some?
    ensures Guarded(sys, FlyStep(sys, s, f, step).value)
  {
    hide Body, NameOf, Spent, Backed;
    var fl := s.flights[f];
    BodyKeepsGuard(sys, s, fl, step);
    BodyIsSound(sys, s.now, Read(s, fl.loc, step.Recheck?), fl, step);
    BodySameWiring(sys, s, fl, step, step.Recheck?);
    var e := Body(sys, s.now, Read(s, fl.loc, step.Recheck?), fl, step).value;
    match e.op
    case Put(item, at) => PutKeepsGuard(sys, s, f, e.flight, item, at);
    case _ => KeepKeepsGuard(sys, s, f, e.flight);
  }

  lemma DoChanKeepsGuard(sys: System, s: State, loc: Loc, ttl: Duration, refresh: bool, of: Time, reader: Option<nat>)
    requires Guarded(sys, s) && (refresh <==> of != ZERO_TIME) && DoChan(s, loc, ttl, refresh, of, reader).Some?
    ensures Guarded(sys, DoChan(s, loc, ttl, refresh, of, reader).value)
  {
    var s' := DoChan(s, loc, ttl, refresh, of, reader).value;
    forall g | 0 <= g < |s'.flights| && s'.flights[g].phase.InLoad()
      ensures Spent(sys, s', s'.flights[g])
    {
      assert g < |s.flights| && s.flights[g].phase.InLoad();
      assert Spent(sys, s, s.flights[g]);
    }
  }

  /** Steps that leave store, clock, log and lanes alone and move no flight into a load. */
  lemma QuietKeepsGuard(sys: System, s: State, s': State)
    requires Guarded(sys, s)
    requires s'.store == s.store && s'.now == s.now && s'.log == s.log && s'.lanes == s.lanes
    requires |s'.flights| == |s.flights|
    requires forall f :: 0 <= f < |s.flights| ==>
               && s'.flights[f].loc == s.flights[f].loc
               && s'.flights[f].refresh == s.flights[f].refresh && s'.flights[f].refreshOf == s.flights[f].refreshOf
               && (s'.flights[f].phase == s.flights[f].phase || !s'.flights[f].phase.Active())
    requires forall c :: 0 <= c < |s'.callers| ==>
               && !s'.callers[c].pc.SelfHealing?
               && (s'.callers[c].pc.Refreshing? ==> s'.callers[c].pc.of != ZERO_TIME)
    ensures Guarded(sys, s')
  {
    forall f | 0 <= f < |s'.flights| && s'.flights[f].phase.InLoad()
      ensures Spent(sys, s', s'.flights[f])
    {
      assert Spent(sys, s, s.flights[f]);
    }
  }

  lemma TickKeepsGuard(sys: System, s: State, to: Time)
    requires Guarded(sys, s) && s.now <= to
    ensures Guarded(sys, s.(now := to))
  {
    var s' := s.(now := to);
    forall f | 0 <= f < |s'.flights| && s'.flights[f].phase.InLoad()
      ensures Spent(sys, s', s'.flights[f])
    {
      SpentPersists(sys, s, to, s.flights[f]);
    }
  }

  lemma ActKeepsGuard(sys: System, s: State, c: nat, ask: CallerStep)
    requires Guarded(sys, s) && ActStep(sys, s, c, ask).Some?
    ensures Guarded(sys, ActStep(sys, s, c, ask).value)
  {
    QuietKeepsGuard(sys, s, ActStep(sys, s, c, ask).value);
  }

  lemma JoiningKeepsGuard(sys: System, s: State, a: Action)
    requires Guarded(sys, s) && (a.Join? || a.StartRefresh?) && Step(sys, s, a).Some?
    ensures Guarded(sys, Step(sys, s, a).value)
  {
    var caller := s.callers[a.c];
    if a.Join? {
      DoChanKeepsGuard(sys, s, caller.loc, caller.ttl, false, ZERO_TIME, Some(a.c));
      QuietKeepsGuard(sys, DoChan(s, caller.loc, caller.ttl, false, ZERO_TIME, Some(a.c)).value, Step(sys, s, a).value);
    } else {
      DoChanKeepsGuard(sys, s, caller.loc, caller.ttl, true, caller.pc.of, None);
      QuietKeepsGuard(sys, DoChan(s, caller.loc, caller.ttl, true, caller.pc.of, None).value, Step(sys, s, a).value);
    }
  }

  lemma OthersKeepGuard(sys: System, s: State, a: Action)
    requires Guarded(sys, s) && Step(sys, s, a).Some?
    requires a.Ask? || a.Receive? || a.Cancel? || a.Abandon? || a.Forget? || a.Cleanup? || a.Deliver?
    ensures Guarded(sys, Step(sys, s, a).value)
  {
    QuietKeepsGuard(sys, s, Step(sys, s, a).value);
  }

  lemma StepKeepsGuard(sys: System, s: State, a: Action)
    requires sys.Valid() && Inv(sys, s) && Sound(sys, s) && Guarded(sys, s)
    requires Undisturbed(a) && Step(sys, s, a).Some?
    ensures Guarded(sys, Step(sys, s, a).value)
  {
    hide ActStep, JoinStep, StartRefreshStep, FlyStep, ForgetStep, CleanupStep, DeliverStep, ReceiveStep;
    match a
    case Tick(to) => TickKeepsGuard(sys, s, to);
    case Fly(f, step) => FlyKeepsGuard(sys, s, f, step);
    case Act(c, ask) => ActKeepsGuard(sys, s, c, ask);
    case Join(_) => JoiningKeepsGuard(sys, s, a);
    case StartRefresh(_) => JoiningKeepsGuard(sys, s, a);
    case Batch(_, _) =>
    case _ => OthersKeepGuard(sys, s, a);
  }

  lemma {:induction false} RunKeepsGuard(sys: System, s: State, acts: seq<Action>)
    requires sys.Valid() && Inv(sys, s) && Sound(sys, s) && Guarded(sys, s)
    requires AllUndisturbed(acts) && Run(sys, s, acts).Some?
    ensures Guarded(sys, Run(sys, s, acts).value)
    decreases |acts|
  {
    hide Step;
    if |acts| > 0 {
      StepKeepsGuard(sys, s, acts[0]);
      StepKeepsInv(sys, s, acts[0]);
      StepIsSound(sys, s, acts[0]);
      RunKeepsGuard(sys, Step(sys, s, acts[0]).value, acts[1..]);
    }
  }

  /** However many callers missed or triggered a refresh before, and however long ago: when a flight gets to call
      the loader after some store for its key, the latest one has expired, or has gone stale, or is what the
      flight is to refresh or no fresher than that; and it cannot be a cached absence that still lives. */
  lemma LoadsOnlySpentKeys(sys: System, s0: State, acts: seq<Action>, f: nat)
    requires sys.Valid() && Initial(s0) && AllUndisturbed(acts) && Run(sys, s0, acts).Some?
    requires FlyStep(sys, Run(sys, s0, acts).value, f, LoaderStart).Some?
    ensures
      var s := Run(sys, s0, acts).value;
      var fl := s.flights[f];
      match LastWrite(s.log, fl.loc)
      case None => fl.loc !in s.store
      case Some(w) =>
        && fl.loc in s.store && s.store[fl.loc].item.val == w.data
        && (s.store[fl.loc].item.Live(s.now) ==>
              && sys.Look(fl.loc, w.data).Readable?
              && var env := sys.Look(fl.loc, w.data).env;
              env.Stale(s.now) || (fl.refresh && env.freshUntil <= fl.refreshOf))
  {
    hide Step;
    InitialInv(sys, s0);
    RunIsSound(sys, s0, acts);
    RunKeepsGuard(sys, s0, acts);
    var s := Run(sys, s0, acts).value;
    assert Spent(sys, s, s.flights[f]);
  }

  // ------------------------------------------------------------------
  // Without early refresh
  // ------------------------------------------------------------------

  /** No early refresh, and every TTL expires. */
  ghost predicate Lapsing(sys: System, acts: seq<Action>) {
    && (forall c: nat :: sys.cfg(c).earlyRefreshBeta <= 0.0)
    && forall i :: 0 <= i < |acts| ==> AsksBounded(sys, acts[i])
  }

  ghost predicate AsksBounded(sys: System, a: Action) {
    a.Ask? ==> Bounded(sys, a.loc, a.ttl)
  }

  ghost predicate Bounded(sys: System, loc: Loc, ttl: Duration) {
    BoundedTtl(sys.cfg(loc.cache), ttl, Resolve(ttl, sys.cfg(loc.cache).defaultTTL))
  }

  /** Enveloped values carry a freshness deadline. */
  ghost predicate Dated(sys: System, loc: Loc, data: Bytes) {
    match sys.Look(loc, data)
    case Readable(env, _) => sys.cfg(loc.cache).EnvelopeEnabled() ==> env.HasDeadline()
    case _ => true
  }

  /** The deadline of the entry that triggered a refresh has passed. */
  ghost predicate Overdue(sys: System, now: Time, loc: Loc, of: Time) {
    sys.cfg(loc.cache).EnvelopeEnabled() && of < now
  }

  ghost predicate FlightLapses(sys: System, now: Time, fl: Flight) {
    && Bounded(sys, fl.loc, fl.ttl)
    && (fl.refresh ==> Overdue(sys, now, fl.loc, fl.refreshOf))
    && (fl.phase.Packing? ==> Dated(sys, fl.loc, fl.phase.data))
  }

  ghost predicate CallerLapses(sys: System, now: Time, c: Caller) {
    Bounded(sys, c.loc, c.ttl) && (c.pc.Refreshing? ==> Overdue(sys, now, c.loc, c.pc.of))
  }

  ghost predicate Lapses(sys: System, s: State) {
    && (forall loc :: loc in s.store ==> Dated(sys, loc, s.store[loc].item.val))
    && (forall f :: 0 <= f < |s.flights| ==> FlightLapses(sys, s.now, s.flights[f]))
    && (forall c :: 0 <= c < |s.callers| ==> CallerLapses(sys, s.now, s.callers[c]))
  }

  lemma EncodedIsDated(sys: System, now: Time, fl: Flight, u: real)
    requires sys.Valid() && SaneClock(now) && fl.phase.Loaded? && Draw(u) && FlightLapses(sys, now, fl)
    ensures FlightLapses(sys, now, Encoded(sys, now, fl, u))
  {
    hide PackForStore, FreshFor, BoundedTtl;
    var cfg, codec := sys.cfg(fl.loc.cache), sys.codec(fl.loc.cache);
    if codec.marshal(fl.phase.v).Some? {
      PackedReadsBack(cfg, codec, fl.phase.v, fl.ttl, fl.phase.loadDur, now, u);
      BoundedDraw(cfg, fl.ttl, Resolve(fl.ttl, cfg.defaultTTL), u);
    }
  }

  lemma BodyLapses(sys: System, now: Time, read: Option<Entry>, fl: Flight, step: BodyStep)
    requires sys.Valid() && SaneClock(now) && FlightLapses(sys, now, fl) && Body(sys, now, read, fl, step).Some?
    ensures
      var e := Body(sys, now, read, fl, step).value;
      FlightLapses(sys, now, e.flight) && (e.op.Put? ==> Dated(sys, fl.loc, e.op.item.val))
  {
    hide PackForStore, Bounded, Overdue;
    if step.Pack? {
      EncodedIsDated(sys, now, fl, step.u);
    }
    NegativeIsAbsent(sys.cfg(fl.loc.cache), sys.codec(fl.loc.cache));
  }

  lemma FlyLapses(sys: System, s: State, f: nat, step: BodyStep)
    requires sys.Valid() && SaneClock(s.now) && Lapses(sys, s) && FlyStep(sys, s, f, step).Some?
    ensures Lapses(sys, FlyStep(sys, s, f, step).value)
  {
    hide Body, Dated, FlightLapses, CallerLapses;
    var fl := s.flights[f];
    var ok := if step.Recheck? then step.ok else false;
    BodyLapses(sys, s.now, Read(s, fl.loc, ok), fl, step);
    BodySameWiring(sys, s, fl, step, ok);
  }

  lemma ActLapses(sys: System, s: State, c: nat, ask: CallerStep)
    requires Lapses(sys, s) && ActStep(sys, s, c, ask).Some? && forall i: nat :: sys.cfg(i).earlyRefreshBeta <= 0.0
    ensures Lapses(sys, ActStep(sys, s, c, ask).value)
  {
    hide Dated, FlightLapses, Bounded;
    var caller := s.callers[c];
    LookLapses(sys, s.now, Read(s, caller.loc, ask.ok), caller, ask);
    assert CallerLapses(sys, s.now, caller);
  }

  /** Without early refresh only a stale entry triggers a refresh. */
  lemma LookLapses(sys: System, now: Time, read: Option<Entry>, c: Caller, ask: CallerStep)
    requires sys.cfg(c.loc.cache).earlyRefreshBeta <= 0.0 && Asking(sys, now, read, c, ask).Some?
    ensures
      var e := Asking(sys, now, read, c, ask).value;
      !e.op.Put? && (e.pc.Refreshing? ==> Overdue(sys, now, c.loc, e.pc.of))
  {
    hide IsNegative, HasEnvelope;
  }

  lemma TickLapses(sys: System, s: State, to: Time)
    requires Lapses(sys, s) && s.now <= to
    ensures Lapses(sys, s.(now := to))
  {
    hide Dated, Bounded;
    var s' := s.(now := to);
    forall f | 0 <= f < |s'.flights| ensures FlightLapses(sys, to, s'.flights[f]) {
      assert FlightLapses(sys, s.now, s.flights[f]);
    }
    forall c | 0 <= c < |s'.callers| ensures CallerLapses(sys, to, s'.callers[c]) {
      assert CallerLapses(sys, s.now, s.callers[c]);
    }
  }

  lemma JoiningLapses(sys: System, s: State, a: Action)
    requires Lapses(sys, s) && (a.Join? || a.StartRefresh?) && Step(sys, s, a).Some?
    ensures Lapses(sys, Step(sys, s, a).value)
  {
    hide Dated, Bounded, NameOf;
    var caller := s.callers[a.c];
    assert CallerLapses(sys, s.now, caller);
    var s' := Step(sys, s, a).value;
    forall f | 0 <= f < |s'.flights| ensures FlightLapses(sys, s'.now, s'.flights[f]) {
      if f < |s.flights| {
        assert FlightLapses(sys, s.now, s.flights[f]);
      }
    }
    forall c | 0 <= c < |s'.callers| ensures CallerLapses(sys, s'.now, s'.callers[c]) {
      assert CallerLapses(sys, s.now, s.callers[c]);
    }
  }

  lemma OthersLapse(sys: System, s: State, a: Action)
    requires Lapses(sys, s) && AsksBounded(sys, a) && Step(sys, s, a).Some?
    requires a.Ask? || a.Receive? || a.Cancel? || a.Abandon? || a.Forget? || a.Cleanup? || a.Deliver?
    ensures Lapses(sys, Step(sys, s, a).value)
  {
    hide Dated, Bounded, NameOf, Overdue, Interpret;
    var s' := Step(sys, s, a).value;
    forall f | 0 <= f < |s'.flights| ensures FlightLapses(sys, s'.now, s'.flights[f]) {
      assert FlightLapses(sys, s.now, s.flights[f]);
    }
    forall c | 0 <= c < |s'.callers| ensures CallerLapses(sys, s'.now, s'.callers[c]) {
      if c < |s.callers| {
        assert CallerLapses(sys, s.now, s.callers[c]);
      }
    }
  }

  lemma StepLapses(sys: System, s: State, a: Action)
    requires sys.Valid() && SaneClock(s.now) && Guarded(sys, s) && Lapses(sys, s) && Step(sys, s, a).Some?
    requires Undisturbed(a) && AsksBounded(sys, a) && forall i: nat :: sys.cfg(i).earlyRefreshBeta <= 0.0
    ensures Lapses(sys, Step(sys, s, a).value)
  {
    hide ActStep, JoinStep, StartRefreshStep, FlyStep, ForgetStep, CleanupStep, DeliverStep, ReceiveStep, Lapses;
    match a
    case Tick(to) => TickLapses(sys, s, to);
    case Fly(f, step) => FlyLapses(sys, s, f, step);
    case Act(c, ask) => ActLapses(sys, s, c, ask);
    case Join(_) => JoiningLapses(sys, s, a);
    case StartRefresh(_) => JoiningLapses(sys, s, a);
    case Batch(_, _) =>
    case _ => OthersLapse(sys, s, a);
  }

  lemma {:induction false} RunLapses(sys: System, s: State, acts: seq<Action>)
    requires sys.Valid() && Inv(sys, s) && Sound(sys, s) && Guarded(sys, s) && Lapses(sys, s)
    requires AllUndisturbed(acts) && Lapsing(sys, acts) && Run(sys, s, acts).Some?
    ensures Lapses(sys, Run(sys, s, acts).value)
    decreases |acts|
  {
    hide Step, Lapses, Guarded, Inv;
    if |acts| > 0 {
      StepKeepsGuard(sys, s, acts[0]);
      StepKeepsInv(sys, s, acts[0]);
      StepIsSound(sys, s, acts[0]);
      StepLapses(sys, s, acts[0]);
      RunLapses(sys, Step(sys, s, acts[0]).value, acts[1..]);
    }
  }

  /** Without early refresh, and where every TTL expires, any loader call after a store for its key, also that of
      a refresh, happens only once the latest stored entry has expired or gone stale: the entry that triggered a
      refresh was stale, and so is one that is no fresher. */
  lemma LoadsOnlyStaleKeys(sys: System, s0: State, acts: seq<Action>, f: nat)
    requires sys.Valid() && Initial(s0) && AllUndisturbed(acts) && Lapsing(sys, acts) && Run(sys, s0, acts).Some?
    requires FlyStep(sys, Run(sys, s0, acts).value, f, LoaderStart).Some?
    ensures
      var s := Run(sys, s0, acts).value;
      var loc := s.flights[f].loc;
      match LastWrite(s.log, loc)
      case None => loc !in s.store
      case Some(w) =>
        && loc in s.store && s.store[loc].item.val == w.data
        && (s.store[loc].item.Live(s.now) ==> sys.Look(loc, w.data).Readable? && sys.Look(loc, w.data).env.Stale(s.now))
  {
    hide Step;
    InitialInv(sys, s0);
    StartLapses(sys, s0);
    RunLapses(sys, s0, acts);
    LoadsOnlySpentKeys(sys, s0, acts, f);
    var s := Run(sys, s0, acts).value;
    assert FlightLapses(sys, s.now, s.flights[f]);
  }

  lemma StartLapses(sys: System, s0: State)
    requires Initial(s0)
    ensures Sound(sys, s0) && Guarded(sys, s0) && Lapses(sys, s0)
  {
  }
}
