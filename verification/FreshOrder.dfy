/** cache.go: successive stores of a key never move its freshness deadline backward. */
module FreshOrder {
  import opened Base
  import opened Config
  import opened Stored
  import opened Protocol
  import opened SingleFlight
  import opened Provenance

  /** One TTL per key, no jitter, and GetOrSet as the only writer of values. Backend failures, evictions and
      undecodable foreign bytes are allowed. */
  ghost predicate Steady(sys: System, ttlOf: Loc -> Duration, a: Action) {
    && !a.NewLane?
    && (a.Ask? ==> a.ttl == ttlOf(a.loc) && sys.cfg(a.loc.cache).ttlJitter == 0.0)
  }

  ghost predicate AllSteady(sys: System, ttlOf: Loc -> Duration, acts: seq<Action>) {
    forall i :: 0 <= i < |acts| ==> Steady(sys, ttlOf, acts[i])
  }

  /** The freshness deadline that stored bytes carry, if any. */
  function Freshness(sys: System, loc: Loc, data: Bytes): Option<Time> {
    match sys.Look(loc, data)
    case Readable(env, _) => if env.HasDeadline() then Some(env.freshUntil) else None
    case _ => None
  }

  predicate NotAfter(a: Option<Time>, b: Option<Time>) {
    a.Some? && b.Some? ==> a.value <= b.value
  }

  /** The deadline that packing would give right now. */
  function Horizon(sys: System, loc: Loc, ttl: Duration, now: Time): Time {
    FloorMs(now + Resolve(ttl, sys.cfg(loc.cache).defaultTTL)) * MILLISECOND
  }

  ghost predicate BelowHorizon(sys: System, ttlOf: Loc -> Duration, now: Time, loc: Loc, data: Bytes) {
    NotAfter(Freshness(sys, loc, data), Some(Horizon(sys, loc, ttlOf(loc), now)))
  }

  ghost predicate Ordered(sys: System, ttlOf: Loc -> Duration, s: State) {
    && s.lanes == []
    && (forall c :: 0 <= c < |s.callers| ==>
         s.callers[c].ttl == ttlOf(s.callers[c].loc) && sys.cfg(s.callers[c].loc.cache).ttlJitter == 0.0)
    && (forall f :: 0 <= f < |s.flights| ==>
         s.flights[f].ttl == ttlOf(s.flights[f].loc) && sys.cfg(s.flights[f].loc.cache).ttlJitter == 0.0)
    && (forall i :: 0 <= i < |s.log| ==> BelowHorizon(sys, ttlOf, s.now, s.log[i].loc, s.log[i].data))
    && (forall f :: 0 <= f < |s.flights| && s.flights[f].phase.Packing? ==>
         && BelowHorizon(sys, ttlOf, s.now, s.flights[f].loc, s.flights[f].phase.data)
         && AboveLog(sys, s.log, s.flights[f].loc, s.flights[f].phase.data))
    && (forall i, j :: 0 <= i < j < |s.log| && s.log[i].loc == s.log[j].loc ==>
         NotAfter(Freshness(sys, s.log[i].loc, s.log[i].data), Freshness(sys, s.log[j].loc, s.log[j].data)))
  }

  ghost predicate AboveLog(sys: System, log: seq<Write>, loc: Loc, data: Bytes) {
    forall i :: 0 <= i < |log| && log[i].loc == loc ==>
      NotAfter(Freshness(sys, loc, log[i].data), Freshness(sys, loc, data))
  }

  lemma HorizonMoves(sys: System, ttlOf: Loc -> Duration, now: Time, to: Time, loc: Loc, data: Bytes)
    requires BelowHorizon(sys, ttlOf, now, loc, data) && now <= to
    ensures BelowHorizon(sys, ttlOf, to, loc, data)
  {
    hide Freshness, Resolve;
  }

  /** Packing without jitter reaches exactly the horizon, and so lies above everything stored before. */
  lemma PackReachesHorizon(sys: System, ttlOf: Loc -> Duration, now: Time, fl: Flight, u: real)
    requires sys.Valid() && SaneClock(now) && sys.cfg(fl.loc.cache).ttlJitter == 0.0 && fl.ttl == ttlOf(fl.loc)
    requires fl.phase.Loaded? && Encoded(sys, now, fl, u).phase.Packing?
    ensures
      var data := Encoded(sys, now, fl, u).phase.data;
      Freshness(sys, fl.loc, data) in {None, Some(Horizon(sys, fl.loc, ttlOf(fl.loc), now))}
  {
    PackedReadsBack(sys.cfg(fl.loc.cache), sys.codec(fl.loc.cache), fl.phase.v, fl.ttl, fl.phase.loadDur, now, u);
  }

  /** A body step either keeps what is being packed, packs at the horizon, or stops packing; what it stores
      is what it had packed, or the marker. */
  lemma BodyKeepsOrder(sys: System, ttlOf: Loc -> Duration, now: Time, read: Option<Entry>, fl: Flight, step: BodyStep)
    requires sys.Valid() && SaneClock(now) && sys.cfg(fl.loc.cache).ttlJitter == 0.0 && fl.ttl == ttlOf(fl.loc)
    requires Body(sys, now, read, fl, step).Some?
    ensures
      var e := Body(sys, now, read, fl, step).value;
      && e.flight.loc == fl.loc && e.flight.ttl == fl.ttl
      && (e.flight.phase.Packing? ==>
            && e.op.Keep?
            && Freshness(sys, fl.loc, e.flight.phase.data) in {None, Some(Horizon(sys, fl.loc, ttlOf(fl.loc), now))})
      && (e.op.Put? ==>
            || (fl.phase.Packing? && e.op.item.val == fl.phase.data)
            || Freshness(sys, fl.loc, e.op.item.val) == None)
  {
    match step
    case Pack(u) =>
      if Encoded(sys, now, fl, u).phase.Packing? {
        PackReachesHorizon(sys, ttlOf, now, fl, u);
      }
    case Save(_, _) => NegativeIsAbsent(sys.cfg(fl.loc.cache), sys.codec(fl.loc.cache));
    case _ =>
  }

  lemma PutKeepsOrder(sys: System, ttlOf: Loc -> Duration, s: State, f: nat, fl': Flight, item: Item, at: Time)
    requires Registered(s) && Ordered(sys, ttlOf, s) && f < |s.flights| && s.flights[f].phase.Active()
    requires fl'.loc == s.flights[f].loc && fl'.ttl == s.flights[f].ttl && !fl'.phase.Packing?
    requires (s.flights[f].phase.Packing? && item.val == s.flights[f].phase.data)
             || Freshness(sys, fl'.loc, item.val) == None
    ensures Ordered(sys, ttlOf, Apply(s.(flights := s.flights[f := fl']), fl'.loc, Put(item, at), Some(f)))
  {
    hide NameOf, Freshness, Horizon;
    var s' := Apply(s.(flights := s.flights[f := fl']), fl'.loc, Put(item, at), Some(f));
    var w := s'.log[|s.log|];
    assert s'.log == s.log + [w];
    assert AboveLog(sys, s.log, fl'.loc, w.data);
    forall g | 0 <= g < |s'.flights| && s'.flights[g].phase.Packing?
      ensures AboveLog(sys, s'.log, s'.flights[g].loc, s'.flights[g].phase.data)
    {
      assert g != f && s.flights[g].phase.Active() && s.flights[g].loc != fl'.loc;
      assert AboveLog(sys, s.log, s.flights[g].loc, s.flights[g].phase.data);
    }
  }

  lemma KeepKeepsOrder(sys: System, ttlOf: Loc -> Duration, s: State, f: nat, fl': Flight)
    requires Ordered(sys, ttlOf, s) && f < |s.flights|
    requires fl'.loc == s.flights[f].loc && fl'.ttl == s.flights[f].ttl
    requires fl'.phase.Packing? ==>
               Freshness(sys, fl'.loc, fl'.phase.data) in {None, Some(Horizon(sys, fl'.loc, ttlOf(fl'.loc), s.now))}
    ensures Ordered(sys, ttlOf, s.(flights := s.flights[f := fl']))
  {
    hide Freshness, Horizon;
    var s' := s.(flights := s.flights[f := fl']);
    forall g | 0 <= g < |s'.flights| && s'.flights[g].phase.Packing?
      ensures BelowHorizon(sys, ttlOf, s.now, s'.flights[g].loc, s'.flights[g].phase.data)
      ensures AboveLog(sys, s'.log, s'.flights[g].loc, s'.flights[g].phase.data)
    {
      if g != f {
        assert AboveLog(sys, s.log, s.flights[g].loc, s.flights[g].phase.data);
      }
    }
  }

  lemma DropKeepsOrder(sys: System, ttlOf: Loc -> Duration, s: State, loc: Loc)
    requires Ordered(sys, ttlOf, s)
    ensures Ordered(sys, ttlOf, s.(store := s.store - {loc}))
  {
    hide Freshness, Horizon;
    QuietKeepsOrder(sys, ttlOf, s, s.(store := s.store - {loc}));
  }

  lemma FlyKeepsOrder(sys: System, ttlOf: Loc -> Duration, s: State, f: nat, step: BodyStep)
    requires sys.Valid() && Inv(sys, s) && SaneClock(s.now) && Ordered(sys, ttlOf, s)
    requires FlyStep(sys, s, f, step).Some?
    ensures Ordered(sys, ttlOf, FlyStep(sys, s, f, step).value)
  {
    hide Body, NameOf, Freshness, Horizon;
    var fl := s.flights[f];
    var ok := if step.Recheck? then step.ok else false;
    BodyKeepsOrder(sys, ttlOf, s.now, Read(s, fl.loc, ok), fl, step);
    BodySameWiring(sys, s, fl, step, ok);
    var e := Body(sys, s.now, Read(s, fl.loc, ok), fl, step).value;
    match e.op
    case Put(item, at) => PutKeepsOrder(sys, ttlOf, s, f, e.flight, item, at);
    case Keep => KeepKeepsOrder(sys, ttlOf, s, f, e.flight);
    case Drop =>
      KeepKeepsOrder(sys, ttlOf, s, f, e.flight);
      DropKeepsOrder(sys, ttlOf, s.(flights := s.flights[f := e.flight]), fl.loc);
  }

  lemma TickKeepsOrder(sys: System, ttlOf: Loc -> Duration, s: State, to: Time)
    requires Ordered(sys, ttlOf, s) && s.now <= to
    ensures Ordered(sys, ttlOf, s.(now := to))
  {
    forall i | 0 <= i < |s.log| ensures BelowHorizon(sys, ttlOf, to, s.log[i].loc, s.log[i].data) {
      HorizonMoves(sys, ttlOf, s.now, to, s.log[i].loc, s.log[i].data);
    }
    forall f | 0 <= f < |s.flights| && s.flights[f].phase.Packing?
      ensures BelowHorizon(sys, ttlOf, to, s.flights[f].loc, s.flights[f].phase.data)
    {
      HorizonMoves(sys, ttlOf, s.now, to, s.flights[f].loc, s.flights[f].phase.data);
    }
  }

  /** Steps that leave clock, log and lanes alone, and pack nothing. */
  lemma QuietKeepsOrder(sys: System, ttlOf: Loc -> Duration, s: State, s': State)
    requires Ordered(sys, ttlOf, s)
    requires s'.now == s.now && s'.log == s.log && s'.lanes == s.lanes
    requires forall f :: 0 <= f < |s'.flights| ==>
               if f < |s.flights| then
                 && s'.flights[f].loc == s.flights[f].loc && s'.flights[f].ttl == s.flights[f].ttl
                 && (s'.flights[f].phase.Packing? ==> s'.flights[f].phase == s.flights[f].phase)
               else
                 && !s'.flights[f].phase.Packing?
                 && s'.flights[f].ttl == ttlOf(s'.flights[f].loc) && sys.cfg(s'.flights[f].loc.cache).ttlJitter == 0.0
    requires forall c :: 0 <= c < |s'.callers| ==>
               s'.callers[c].ttl == ttlOf(s'.callers[c].loc) && sys.cfg(s'.callers[c].loc.cache).ttlJitter == 0.0
    ensures Ordered(sys, ttlOf, s')
  {
    forall f | 0 <= f < |s'.flights| && s'.flights[f].phase.Packing?
      ensures AboveLog(sys, s'.log, s'.flights[f].loc, s'.flights[f].phase.data)
    {
      assert AboveLog(sys, s.log, s.flights[f].loc, s.flights[f].phase.data);
    }
  }

  lemma StepKeepsOrder(sys: System, ttlOf: Loc -> Duration, s: State, a: Action)
    requires sys.Valid() && Inv(sys, s) && SaneClock(s.now) && Ordered(sys, ttlOf, s)
    requires Steady(sys, ttlOf, a) && Step(sys, s, a).Some?
    ensures Ordered(sys, ttlOf, Step(sys, s, a).value)
  {
    hide ActStep, JoinStep, StartRefreshStep, FlyStep, ForgetStep, CleanupStep, DeliverStep, ReceiveStep, Inv;
    hide Freshness, Horizon;
    match a
    case Tick(to) => TickKeepsOrder(sys, ttlOf, s, to);
    case Fly(f, step) => FlyKeepsOrder(sys, ttlOf, s, f, step);
    case Batch(_, _) =>
    case Act(c, ask) => ActKeepsOrder(sys, ttlOf, s, c, ask);
    case Join(_) => JoiningKeepsOrder(sys, ttlOf, s, a);
    case StartRefresh(_) => JoiningKeepsOrder(sys, ttlOf, s, a);
    case _ => OthersKeepOrder(sys, ttlOf, s, a);
  }

  lemma OthersKeepOrder(sys: System, ttlOf: Loc -> Duration, s: State, a: Action)
    requires Ordered(sys, ttlOf, s) && Steady(sys, ttlOf, a) && Step(sys, s, a).Some?
    requires || a.Ask? || a.Receive? || a.Cancel? || a.Abandon? || a.Forget? || a.Cleanup? || a.Deliver?
             || a.Evict? || a.Foreign?
    ensures Ordered(sys, ttlOf, Step(sys, s, a).value)
  {
    hide Freshness, Horizon, AboveLog, BelowHorizon, NotAfter;
    QuietKeepsOrder(sys, ttlOf, s, Step(sys, s, a).value);
  }

  lemma ActKeepsOrder(sys: System, ttlOf: Loc -> Duration, s: State, c: nat, ask: CallerStep)
    requires Ordered(sys, ttlOf, s) && ActStep(sys, s, c, ask).Some?
    ensures Ordered(sys, ttlOf, ActStep(sys, s, c, ask).value)
  {
    QuietKeepsOrder(sys, ttlOf, s, ActStep(sys, s, c, ask).value);
  }

  lemma JoiningKeepsOrder(sys: System, ttlOf: Loc -> Duration, s: State, a: Action)
    requires Ordered(sys, ttlOf, s) && (a.Join? || a.StartRefresh?) && Step(sys, s, a).Some?
    ensures Ordered(sys, ttlOf, Step(sys, s, a).value)
  {
    QuietKeepsOrder(sys, ttlOf, s, Step(sys, s, a).value);
  }

  lemma {:induction false} RunKeepsOrder(sys: System, ttlOf: Loc -> Duration, s: State, acts: seq<Action>)
    requires sys.Valid() && Inv(sys, s) && Sound(sys, s) && Ordered(sys, ttlOf, s)
    requires AllSteady(sys, ttlOf, acts) && Run(sys, s, acts).Some?
    ensures Ordered(sys, ttlOf, Run(sys, s, acts).value)
    decreases |acts|
  {
    hide Step;
    if |acts| > 0 {
      StepKeepsOrder(sys, ttlOf, s, acts[0]);
      StepKeepsInv(sys, s, acts[0]);
      StepIsSound(sys, s, acts[0]);
      RunKeepsOrder(sys, ttlOf, Step(sys, s, acts[0]).value, acts[1..]);
    }
  }

  /** In every run with one TTL per key and no jitter, of any two successful stores of a key that carry a
      freshness deadline the later one does not carry an earlier deadline. */
  lemma FreshnessNeverGoesBackward(sys: System, ttlOf: Loc -> Duration, s0: State, acts: seq<Action>, i: nat, j: nat)
    requires sys.Valid() && Initial(s0) && AllSteady(sys, ttlOf, acts) && Run(sys, s0, acts).Some?
    requires i <= j < |Run(sys, s0, acts).value.log|
    requires Run(sys, s0, acts).value.log[i].loc == Run(sys, s0, acts).value.log[j].loc
    ensures
      var log := Run(sys, s0, acts).value.log;
      NotAfter(Freshness(sys, log[i].loc, log[i].data), Freshness(sys, log[j].loc, log[j].data))
  {
    hide Step;
    InitialInv(sys, s0);
    RunKeepsOrder(sys, ttlOf, s0, acts);
  }
}
