/** How old an answer can be, in runs whose flights and batch calls last at most D. */
module Staleness {
  import opened Base
  import opened Codecs
  import opened Config
  import opened Envelope
  import opened Stored
  import opened Protocol
  import opened SingleFlight
  import opened Provenance
  import opened Runs

  /** How long bytes can stay in the store: a value for its jittered TTL plus the stale window, an absence
      for the jittered negative TTL. */
  function Life(sys: System, F: int, loc: Loc, data: Bytes): int {
    if IsNegative(data) then AbsenceLifetime(sys.cfg(loc.cache)) else Lifetime(sys.cfg(loc.cache), F)
  }

  /** How long after its packing an entry can still satisfy a re-check: until it is no longer fresh, and while
      it is in the store. */
  function Window(cfg: CacheConfig, F: int): int {
    Longest(F, cfg.ttlJitter) - if cfg.staleTTL > 0 then 0 else 1
  }

  predicate LaneClosed(ln: Lane) {
    ln.phase.LaneDone? || ln.phase.LaneFailed?
  }

  /** Time passes only as far as every unfinished participant's limit: a flight runs, a waiter gets its
      result, and a batch call returns within D of the start of that flight or call. */
  ghost predicate InTime(D: int, s: State, to: Time) {
    && (forall f :: 0 <= f < |s.flights| && s.flights[f].phase.Active() ==> to <= s.flights[f].startedAt + D)
    && (forall c :: 0 <= c < |s.callers| && s.callers[c].pc.Waiting? ==> WaitEnds(D, s, s.callers[c].pc.ch, to))
    && (forall l :: 0 <= l < |s.lanes| && !LaneClosed(s.lanes[l]) ==> to <= s.lanes[l].startedAt + D)
  }

  ghost predicate WaitEnds(D: int, s: State, ch: nat, to: Time) {
    ch < |s.channels| && s.channels[ch].flight < |s.flights| ==> to <= s.flights[s.channels[ch].flight].startedAt + D
  }

  /** Every requested TTL resolves to at most F and survives jitter, and nothing lasts longer than D. */
  ghost predicate Timely(sys: System, D: int, F: int, s: State, a: Action) {
    match a
    case Tick(to) => InTime(D, s, to)
    case Ask(loc, ttl) => BoundedTtl(sys.cfg(loc.cache), ttl, F)
    case NewLane(loc, ttl, _) => BoundedTtl(sys.cfg(loc.cache), ttl, F)
    case _ => true
  }

  ghost function Within(sys: System, D: int, F: int): Rule {
    (s, a) => Timely(sys, D, F, s, a)
  }

  ghost predicate TimelyRun(sys: System, D: int, F: int, s: State, acts: seq<Action>) {
    Allowed(sys, Within(sys, D, F), s, acts)
  }

  ghost predicate Limits(sys: System, D: int) {
    D >= 0 && forall c: nat :: BoundedAbsence(sys.cfg(c))
  }

  // ------------------------------------------------------------------
  // Invariant
  // ------------------------------------------------------------------

  /** Stored metadata grants freshness for no longer than the jittered TTL after packing. */
  ghost predicate FreshAged(sys: System, D: int, F: int, loc: Loc, data: Bytes, at: Time) {
    var cfg := sys.cfg(loc.cache);
    match sys.Look(loc, data)
    case Readable(env, _) =>
      cfg.EnvelopeEnabled() ==> env.HasDeadline() && env.freshUntil <= at + D + Longest(F, cfg.ttlJitter)
    case _ => true
  }

  ghost predicate EntryAged(sys: System, D: int, F: int, loc: Loc, e: Entry) {
    || sys.Look(loc, e.item.val).Undecodable?
    || (&& e.item.deadline.Some? && e.item.deadline.value <= e.readAt + D + Life(sys, F, loc, e.item.val)
        && FreshAged(sys, D, F, loc, e.item.val, e.readAt))
  }

  ghost predicate OutcomeAged(sys: System, D: int, F: int, loc: Loc, out: Outcome) {
    out.Data? ==>
      var cfg := sys.cfg(loc.cache);
      out.asOf <= out.readAt + D + if IsNegative(out.data) then AbsenceLifetime(cfg) else Window(cfg, F)
  }

  ghost predicate FlightAged(sys: System, D: int, F: int, now: Time, fl: Flight) {
    && BoundedTtl(sys.cfg(fl.loc.cache), fl.ttl, F)
    && (fl.phase.Active() ==> now <= fl.startedAt + D)
    && match fl.phase
       case AbsenceLoaded(_) => sys.cfg(fl.loc.cache).negativeTTL > 0
       case Packing(data, total, at) =>
         && FreshAged(sys, D, F, fl.loc, data, at)
         && !IsNegative(data)
         && HasEnvelope(data) == sys.cfg(fl.loc.cache).EnvelopeEnabled()
         && TotalOk(sys.cfg(fl.loc.cache), fl.ttl, F, total)
       case Finished(out) => OutcomeAged(sys, D, F, fl.loc, out)
       case Forgotten(out) => OutcomeAged(sys, D, F, fl.loc, out)
       case Delivering(out) => OutcomeAged(sys, D, F, fl.loc, out)
       case _ => true
  }

  ghost predicate ReplyAged(sys: System, D: int, F: int, loc: Loc, reply: Reply, via: Option<nat>) {
    var cfg := sys.cfg(loc.cache);
    match reply
    case Hit(_, at, served) => served <= at + D + if via.Some? then D + Window(cfg, F) else Lifetime(cfg, F)
    case NotFound(at, served) => served <= at + D + AbsenceLifetime(cfg) + if via.Some? then D else 0
    case _ => true
  }

  ghost predicate CallerAged(sys: System, D: int, F: int, c: Caller) {
    && BoundedTtl(sys.cfg(c.loc.cache), c.ttl, F)
    && match c.pc
       case Refreshing(v, _, at, served) => ReplyAged(sys, D, F, c.loc, Hit(v, at, served), None)
       case Answered(reply, via) => ReplyAged(sys, D, F, c.loc, reply, via)
       case _ => true
  }

  ghost predicate LaneAged(sys: System, D: int, F: int, now: Time, ln: Lane) {
    var cfg := sys.cfg(ln.loc.cache);
    && BoundedTtl(cfg, ln.ttl, F)
    && (!LaneClosed(ln) ==> now <= ln.startedAt + D)
    && (ln.total.Some? ==> TotalOk(cfg, ln.ttl, F, ln.total.value))
    && match ln.phase
       case LaneOmitted(_) => cfg.negativeTTL > 0
       case LanePacked(_, data, at) =>
         !IsNegative(data) && HasEnvelope(data) == cfg.EnvelopeEnabled() && FreshAged(sys, D, F, ln.loc, data, at)
       case LaneDone(result, at, seen) =>
         if result.Some? then seen < at + D + Lifetime(cfg, F) else seen <= at + D + AbsenceLifetime(cfg)
       case _ => true
  }

  ghost predicate Aged(sys: System, D: int, F: int, s: State) {
    && (forall loc :: loc in s.store ==> EntryAged(sys, D, F, loc, s.store[loc]))
    && (forall f :: 0 <= f < |s.flights| ==> FlightAged(sys, D, F, s.now, s.flights[f]))
    && (forall c :: 0 <= c < |s.callers| ==> CallerAged(sys, D, F, s.callers[c]))
    && (forall c :: 0 <= c < |s.callers| && s.callers[c].pc.Waiting? ==> WaitEnds(D, s, s.callers[c].pc.ch, s.now))
    && (forall l :: 0 <= l < |s.lanes| ==> LaneAged(sys, D, F, s.now, s.lanes[l]))
  }

  // ------------------------------------------------------------------
  // Preservation
  // ------------------------------------------------------------------

  ghost predicate OpAged(sys: System, D: int, F: int, loc: Loc, op: StoreOp) {
    op.Put? ==> EntryAged(sys, D, F, loc, Entry(op.item, op.readAt))
  }

  /** What a Get can return: an aged entry that still lives. */
  ghost predicate ReadAged(sys: System, D: int, F: int, now: Time, loc: Loc, read: Option<Entry>) {
    read.Some? ==>
      && EntryAged(sys, D, F, loc, read.value)
      && (sys.Look(loc, read.value.item.val).Undecodable?
          || now < read.value.readAt + D + Life(sys, F, loc, read.value.item.val))
  }

  lemma ReadIsAged(sys: System, D: int, F: int, s: State, loc: Loc, ok: bool)
    requires Aged(sys, D, F, s)
    ensures ReadAged(sys, D, F, s.now, loc, Read(s, loc, ok))
  {
  }

  lemma PackingIsAged(sys: System, D: int, F: int, loc: Loc, v: Value, ttl: Duration, loadDur: Duration,
                      now: Time, u: real, at: Time)
    requires sys.Valid() && SaneClock(now) && Draw(u) && BoundedTtl(sys.cfg(loc.cache), ttl, F)
    requires sys.codec(loc.cache).marshal(v).Some? && now <= at + D
    ensures
      var packed := PackForStore(sys.codec(loc.cache).marshal(v).value, ttl, loadDur, sys.cfg(loc.cache), now, u);
      && !IsNegative(packed.data)
      && HasEnvelope(packed.data) == sys.cfg(loc.cache).EnvelopeEnabled()
      && TotalOk(sys.cfg(loc.cache), ttl, F, packed.ttl)
      && FreshAged(sys, D, F, loc, packed.data, at)
  {
    hide PackForStore, FreshFor;
    var cfg, codec := sys.cfg(loc.cache), sys.codec(loc.cache);
    PackedReadsBack(cfg, codec, v, ttl, loadDur, now, u);
    PackedTotalOk(codec.marshal(v).value, ttl, loadDur, cfg, now, u, F);
    BoundedDraw(cfg, ttl, F, u);
  }

  lemma RecheckIsAged(sys: System, D: int, F: int, now: Time, read: Option<Entry>, fl: Flight)
    requires fl.phase.Starting? && ReadAged(sys, D, F, now, fl.loc, read) && FlightAged(sys, D, F, now, fl)
    ensures FlightAged(sys, D, F, now, Rechecked(sys, now, read, fl))
  {
    hide HasEnvelope, Parse;
  }

  lemma EncodingIsAged(sys: System, D: int, F: int, now: Time, fl: Flight, u: real)
    requires sys.Valid() && SaneClock(now) && fl.phase.Loaded? && Draw(u)
    requires FlightBacked(sys, now, fl) && FlightAged(sys, D, F, now, fl)
    ensures FlightAged(sys, D, F, now, Encoded(sys, now, fl, u))
  {
    hide PackForStore, FreshAged, HasEnvelope, TotalOk;
    if sys.codec(fl.loc.cache).marshal(fl.phase.v).Some? {
      PackingIsAged(sys, D, F, fl.loc, fl.phase.v, fl.ttl, fl.phase.loadDur, now, u, fl.phase.readAt);
    }
  }

  lemma SavingIsAged(sys: System, D: int, F: int, now: Time, fl: Flight, ok: bool, w: real)
    requires Limits(sys, D) && FlightBacked(sys, now, fl) && FlightAged(sys, D, F, now, fl)
    requires Body(sys, now, None, fl, Save(ok, w)).Some?
    ensures
      var e := Body(sys, now, None, fl, Save(ok, w)).value;
      FlightAged(sys, D, F, now, e.flight) && OpAged(sys, D, F, fl.loc, e.op)
  {
    hide ApplyJitter, Resolve, HasEnvelope, Longest, Parse;
    var cfg := sys.cfg(fl.loc.cache);
    LifetimesAreNotNegative(cfg, fl.ttl, F);
    NegativeIsAbsent(cfg, sys.codec(fl.loc.cache));
    if fl.phase.Packing? {
      LifetimeBound(cfg, fl.phase.data, fl.ttl, F, fl.phase.ttl, now, w);
    } else {
      AbsenceBound(cfg, sys.codec(fl.loc.cache), now, w);
    }
  }

  lemma BodyIsAged(sys: System, D: int, F: int, now: Time, read: Option<Entry>, fl: Flight, step: BodyStep)
    requires sys.Valid() && Limits(sys, D) && SaneClock(now)
    requires ReadAged(sys, D, F, now, fl.loc, read)
    requires FlightBacked(sys, now, fl) && FlightAged(sys, D, F, now, fl)
    requires Body(sys, now, read, fl, step).Some?
    ensures
      var e := Body(sys, now, read, fl, step).value;
      FlightAged(sys, D, F, now, e.flight) && OpAged(sys, D, F, fl.loc, e.op) && e.flight.startedAt == fl.startedAt
  {
    match step
    case Recheck(_) => RecheckIsAged(sys, D, F, now, read, fl);
    case Pack(u) => EncodingIsAged(sys, D, F, now, fl, u);
    case Save(ok, w) => SavingIsAged(sys, D, F, now, fl, ok, w);
    case _ =>
  }

  lemma AskingIsAged(sys: System, D: int, F: int, now: Time, read: Option<Entry>, c: Caller, step: CallerStep)
    requires ReadAged(sys, D, F, now, c.loc, read) && CallerAged(sys, D, F, c)
    requires Asking(sys, now, read, c, step).Some?
    ensures
      var e := Asking(sys, now, read, c, step).value;
      CallerAged(sys, D, F, c.(pc := e.pc)) && !e.op.Put? && !e.pc.Waiting?
  {
  }

  lemma LaneSavingIsAged(sys: System, D: int, F: int, now: Time, ln: Lane, total: Option<Duration>, step: LaneStep)
    requires step.LaneSave? && Limits(sys, D) && LaneBacked(sys, now, ln) && LaneAged(sys, D, F, now, ln)
    requires total.Some? ==> TotalOk(sys.cfg(ln.loc.cache), ln.ttl, F, total.value)
    requires Batching(sys, now, None, ln, total, step).Some?
    ensures
      var e := Batching(sys, now, None, ln, total, step).value;
      LaneAged(sys, D, F, now, e.lane) && OpAged(sys, D, F, ln.loc, e.op)
  {
    var cfg := sys.cfg(ln.loc.cache);
    LifetimesAreNotNegative(cfg, ln.ttl, F);
    NegativeIsAbsent(cfg, sys.codec(ln.loc.cache));
    if ln.phase.LanePacked? {
      LifetimeBound(cfg, ln.phase.data, ln.ttl, F, total.value, now, step.w);
    } else {
      AbsenceBound(cfg, sys.codec(ln.loc.cache), now, step.w);
    }
  }

  lemma LanePackingIsAged(sys: System, D: int, F: int, now: Time, ln: Lane, step: LaneStep)
    requires step.LanePack? && sys.Valid() && Limits(sys, D) && SaneClock(now)
    requires LaneBacked(sys, now, ln) && LaneAged(sys, D, F, now, ln)
    requires Batching(sys, now, None, ln, None, step).Some?
    ensures
      var e := Batching(sys, now, None, ln, None, step).value;
      LaneAged(sys, D, F, now, e.lane) && e.op.Keep?
  {
    hide PackForStore, FreshAged, HasEnvelope, TotalOk;
    LifetimesAreNotNegative(sys.cfg(ln.loc.cache), ln.ttl, F);
    if sys.codec(ln.loc.cache).marshal(ln.phase.v).Some? {
      PackingIsAged(sys, D, F, ln.loc, ln.phase.v, ln.ttl, ln.phase.loadDur, now, step.u, ln.phase.readAt);
    }
  }

  lemma BatchingIsAged(sys: System, D: int, F: int, now: Time, read: Option<Entry>, ln: Lane,
                       total: Option<Duration>, step: LaneStep)
    requires sys.Valid() && Limits(sys, D) && SaneClock(now)
    requires ReadAged(sys, D, F, now, ln.loc, read)
    requires LaneBacked(sys, now, ln) && LaneAged(sys, D, F, now, ln)
    requires total.Some? ==> TotalOk(sys.cfg(ln.loc.cache), ln.ttl, F, total.value)
    requires Batching(sys, now, read, ln, total, step).Some?
    ensures
      var e := Batching(sys, now, read, ln, total, step).value;
      LaneAged(sys, D, F, now, e.lane) && OpAged(sys, D, F, ln.loc, e.op)
  {
    LifetimesAreNotNegative(sys.cfg(ln.loc.cache), ln.ttl, F);
    match step
    case LanePack(_) => LanePackingIsAged(sys, D, F, now, ln, step);
    case LaneSave(_, _, _) => LaneSavingIsAged(sys, D, F, now, ln, total, step);
    case _ =>
  }

  /** A state that differs in store, flights and lanes only, and there stays aged. */
  lemma WaitsUnchanged(sys: System, D: int, F: int, s: State, s': State)
    requires Aged(sys, D, F, s) && s'.now == s.now && s'.callers == s.callers && s'.channels == s.channels
    requires |s'.flights| == |s.flights|
    requires forall f :: 0 <= f < |s.flights| ==> s'.flights[f].startedAt == s.flights[f].startedAt
    requires forall loc :: loc in s'.store ==> EntryAged(sys, D, F, loc, s'.store[loc])
    requires forall f :: 0 <= f < |s'.flights| ==> FlightAged(sys, D, F, s'.now, s'.flights[f])
    requires forall l :: 0 <= l < |s'.lanes| ==> LaneAged(sys, D, F, s'.now, s'.lanes[l])
    ensures Aged(sys, D, F, s')
  {
    forall c | 0 <= c < |s'.callers| && s'.callers[c].pc.Waiting? ensures WaitEnds(D, s', s'.callers[c].pc.ch, s'.now) {
      assert WaitEnds(D, s, s.callers[c].pc.ch, s.now);
    }
  }

  lemma FlyIsAged(sys: System, D: int, F: int, s: State, f: nat, step: BodyStep)
    requires sys.Valid() && Limits(sys, D) && Sound(sys, s) && Aged(sys, D, F, s) && FlyStep(sys, s, f, step).Some?
    ensures Aged(sys, D, F, FlyStep(sys, s, f, step).value)
  {
    hide Body;
    var fl := s.flights[f];
    var ok := if step.Recheck? then step.ok else false;
    ReadIsAged(sys, D, F, s, fl.loc, ok);
    BodyIsAged(sys, D, F, s.now, Read(s, fl.loc, ok), fl, step);
    WaitsUnchanged(sys, D, F, s, FlyStep(sys, s, f, step).value);
  }

  lemma BatchIsAged(sys: System, D: int, F: int, s: State, l: nat, step: LaneStep)
    requires sys.Valid() && Limits(sys, D) && Sound(sys, s) && Aged(sys, D, F, s) && BatchStep(sys, s, l, step).Some?
    ensures Aged(sys, D, F, BatchStep(sys, s, l, step).value)
  {
    hide Batching;
    var ln := s.lanes[l];
    var ok := if step.LaneRead? then step.ok else false;
    ReadIsAged(sys, D, F, s, ln.loc, ok);
    assert LaneBacked(sys, s.now, ln) && LaneAged(sys, D, F, s.now, ln);
    if step.LaneSave? && step.src < |s.lanes| {
      assert LaneAged(sys, D, F, s.now, s.lanes[step.src]);
    }
    BatchingIsAged(sys, D, F, s.now, Read(s, ln.loc, ok), ln, SharedTotal(s, ln, step), step);
    WaitsUnchanged(sys, D, F, s, BatchStep(sys, s, l, step).value);
  }

  lemma ClosingIsAged(sys: System, D: int, F: int, s: State, a: Action)
    requires Aged(sys, D, F, s) && (a.Forget? || a.Cleanup?) && Step(sys, s, a).Some?
    ensures Aged(sys, D, F, Step(sys, s, a).value)
  {
    assert FlightAged(sys, D, F, s.now, s.flights[a.f]);
    WaitsUnchanged(sys, D, F, s, Step(sys, s, a).value);
  }

  lemma DeliverIsAged(sys: System, D: int, F: int, s: State, f: nat)
    requires Aged(sys, D, F, s) && DeliverStep(s, f).Some?
    ensures Aged(sys, D, F, DeliverStep(s, f).value)
  {
    var s' := DeliverStep(s, f).value;
    assert FlightAged(sys, D, F, s.now, s.flights[f]);
    forall c | 0 <= c < |s'.callers| && s'.callers[c].pc.Waiting? ensures WaitEnds(D, s', s'.callers[c].pc.ch, s'.now) {
      assert WaitEnds(D, s, s.callers[c].pc.ch, s.now);
    }
  }

  /** Steps that move one caller on and change nothing else. */
  lemma MoveIsAged(sys: System, D: int, F: int, s: State, c: nat, caller: Caller)
    requires Aged(sys, D, F, s) && c < |s.callers| && CallerAged(sys, D, F, caller)
    requires caller.pc.Waiting? ==> s.callers[c].pc == caller.pc
    ensures Aged(sys, D, F, s.(callers := s.callers[c := caller]))
  {
    var s' := s.(callers := s.callers[c := caller]);
    forall d | 0 <= d < |s'.callers| && s'.callers[d].pc.Waiting? ensures WaitEnds(D, s', s'.callers[d].pc.ch, s'.now) {
      assert WaitEnds(D, s, s.callers[d].pc.ch, s.now);
    }
  }

  lemma ActIsAged(sys: System, D: int, F: int, s: State, c: nat, ask: CallerStep)
    requires Aged(sys, D, F, s) && ActStep(sys, s, c, ask).Some?
    ensures Aged(sys, D, F, ActStep(sys, s, c, ask).value)
  {
    var caller := s.callers[c];
    var read := Read(s, caller.loc, ask.ok);
    ReadIsAged(sys, D, F, s, caller.loc, ask.ok);
    AskingIsAged(sys, D, F, s.now, read, caller, ask);
    var e := Asking(sys, s.now, read, caller, ask).value;
    MoveIsAged(sys, D, F, s, c, caller.(pc := e.pc));
    WaitsUnchanged(sys, D, F, SetPc(s, c, e.pc), ActStep(sys, s, c, ask).value);
  }

  lemma DoChanIsAged(sys: System, D: int, F: int, s: State, c: nat, refresh: bool, of: Time, reader: Option<nat>)
    requires Limits(sys, D) && Inv(sys, s) && Aged(sys, D, F, s) && c < |s.callers|
    ensures DoChan(s, s.callers[c].loc, s.callers[c].ttl, refresh, of, reader).Some?
    ensures Aged(sys, D, F, DoChan(s, s.callers[c].loc, s.callers[c].ttl, refresh, of, reader).value)
    ensures WaitEnds(D, DoChan(s, s.callers[c].loc, s.callers[c].ttl, refresh, of, reader).value, |s.channels|, s.now)
  {
    var caller := s.callers[c];
    DoChanJoins(s, caller.loc, caller.ttl, refresh, of, reader);
    var s' := DoChan(s, caller.loc, caller.ttl, refresh, of, reader).value;
    assert CallerAged(sys, D, F, caller);
    forall f | 0 <= f < |s'.flights| ensures FlightAged(sys, D, F, s'.now, s'.flights[f]) {
      if f < |s.flights| {
        assert FlightAged(sys, D, F, s.now, s.flights[f]);
      }
    }
    forall d | 0 <= d < |s'.callers| && s'.callers[d].pc.Waiting? ensures WaitEnds(D, s', s'.callers[d].pc.ch, s'.now) {
      assert CallerOk(sys, s, d) && WaitEnds(D, s, s.callers[d].pc.ch, s.now);
    }
  }

  lemma JoinIsAged(sys: System, D: int, F: int, s: State, c: nat)
    requires Limits(sys, D) && Inv(sys, s) && Aged(sys, D, F, s) && JoinStep(s, c).Some?
    ensures Aged(sys, D, F, JoinStep(s, c).value)
  {
    DoChanIsAged(sys, D, F, s, c, false, ZERO_TIME, Some(c));
    var s1 := DoChan(s, s.callers[c].loc, s.callers[c].ttl, false, ZERO_TIME, Some(c)).value;
    var s' := JoinStep(s, c).value;
    forall d | 0 <= d < |s'.callers| && s'.callers[d].pc.Waiting? ensures WaitEnds(D, s', s'.callers[d].pc.ch, s'.now) {
      if d != c {
        assert WaitEnds(D, s1, s1.callers[d].pc.ch, s1.now);
      }
    }
  }

  lemma StartRefreshIsAged(sys: System, D: int, F: int, s: State, c: nat)
    requires Limits(sys, D) && Inv(sys, s) && Aged(sys, D, F, s) && StartRefreshStep(s, c).Some?
    ensures Aged(sys, D, F, StartRefreshStep(s, c).value)
  {
    var pc := s.callers[c].pc;
    DoChanIsAged(sys, D, F, s, c, true, pc.of, None);
    var s1 := DoChan(s, s.callers[c].loc, s.callers[c].ttl, true, pc.of, None).value;
    assert CallerAged(sys, D, F, s.callers[c]);
    MoveIsAged(sys, D, F, s1, c, s1.callers[c].(pc := Answered(Hit(pc.v, pc.readAt, pc.servedAt), None)));
  }

  lemma ReceiveIsAged(sys: System, D: int, F: int, s: State, c: nat)
    requires Limits(sys, D) && Inv(sys, s) && Sound(sys, s) && Aged(sys, D, F, s) && ReceiveStep(sys, s, c).Some?
    ensures Aged(sys, D, F, ReceiveStep(sys, s, c).value)
  {
    var ch := s.callers[c].pc.ch;
    assert CallerOk(sys, s, c) && ChannelOk(s, ch) && WaitEnds(D, s, ch, s.now);
    var fl := s.flights[s.channels[ch].flight];
    assert FlightBacked(sys, s.now, fl) && FlightAged(sys, D, F, s.now, fl) && CallerAged(sys, D, F, s.callers[c]);
    LifetimesAreNotNegative(sys.cfg(fl.loc.cache), fl.ttl, F);
    var caller := ReceiveStep(sys, s, c).value.callers[c];
    assert CallerAged(sys, D, F, caller);
    MoveIsAged(sys, D, F, s, c, caller);
  }

  lemma TickIsAged(sys: System, D: int, F: int, s: State, to: Time)
    requires Aged(sys, D, F, s) && s.now <= to && InTime(D, s, to)
    ensures Aged(sys, D, F, s.(now := to))
  {
    var s' := s.(now := to);
    forall f | 0 <= f < |s'.flights| ensures FlightAged(sys, D, F, to, s'.flights[f]) {
      assert FlightAged(sys, D, F, s.now, s.flights[f]);
    }
    forall l | 0 <= l < |s'.lanes| ensures LaneAged(sys, D, F, to, s'.lanes[l]) {
      assert LaneAged(sys, D, F, s.now, s.lanes[l]);
    }
    forall c | 0 <= c < |s'.callers| && s'.callers[c].pc.Waiting? ensures WaitEnds(D, s', s'.callers[c].pc.ch, to) {
      assert WaitEnds(D, s, s.callers[c].pc.ch, to);
    }
  }

  lemma StartsAreAged(sys: System, D: int, F: int, s: State, a: Action)
    requires Limits(sys, D) && Aged(sys, D, F, s) && (a.Ask? || a.NewLane?)
    requires Timely(sys, D, F, s, a) && Step(sys, s, a).Some?
    ensures Aged(sys, D, F, Step(sys, s, a).value)
  {
    var s' := Step(sys, s, a).value;
    forall c | 0 <= c < |s'.callers| && s'.callers[c].pc.Waiting? ensures WaitEnds(D, s', s'.callers[c].pc.ch, s'.now) {
      assert c < |s.callers| && WaitEnds(D, s, s.callers[c].pc.ch, s.now);
    }
  }

  lemma CancelIsAged(sys: System, D: int, F: int, s: State, a: Action)
    requires Aged(sys, D, F, s) && (a.Cancel? || a.Abandon?) && Step(sys, s, a).Some?
    ensures Aged(sys, D, F, Step(sys, s, a).value)
  {
    assert CallerAged(sys, D, F, s.callers[a.c]);
    MoveIsAged(sys, D, F, s, a.c, Step(sys, s, a).value.callers[a.c]);
  }

  lemma StepIsAged(sys: System, D: int, F: int, s: State, a: Action)
    requires sys.Valid() && Limits(sys, D) && Inv(sys, s) && Sound(sys, s) && Aged(sys, D, F, s)
    requires Timely(sys, D, F, s, a) && Step(sys, s, a).Some?
    ensures Aged(sys, D, F, Step(sys, s, a).value)
  {
    hide ActStep, JoinStep, StartRefreshStep, FlyStep, ForgetStep, CleanupStep, DeliverStep, ReceiveStep, BatchStep;
    match a
    case Tick(to) => TickIsAged(sys, D, F, s, to);
    case Ask(_, _) => StartsAreAged(sys, D, F, s, a);
    case Act(c, ask) => ActIsAged(sys, D, F, s, c, ask);
    case Join(c) => JoinIsAged(sys, D, F, s, c);
    case StartRefresh(c) => StartRefreshIsAged(sys, D, F, s, c);
    case Fly(f, step) => FlyIsAged(sys, D, F, s, f, step);
    case Forget(_) => ClosingIsAged(sys, D, F, s, a);
    case Cleanup(_) => ClosingIsAged(sys, D, F, s, a);
    case Deliver(f) => DeliverIsAged(sys, D, F, s, f);
    case Receive(c) => ReceiveIsAged(sys, D, F, s, c);
    case Cancel(_) => CancelIsAged(sys, D, F, s, a);
    case Abandon(_) => CancelIsAged(sys, D, F, s, a);
    case NewLane(_, _, _) => StartsAreAged(sys, D, F, s, a);
    case Batch(l, lane) => BatchIsAged(sys, D, F, s, l, lane);
    case Evict(_) => WaitsUnchanged(sys, D, F, s, Step(sys, s, a).value);
    case Foreign(_, _) => WaitsUnchanged(sys, D, F, s, Step(sys, s, a).value);
  }

  lemma {:induction false} RunIsAged(sys: System, D: int, F: int, s: State, acts: seq<Action>)
    requires sys.Valid() && Limits(sys, D) && Inv(sys, s) && Sound(sys, s) && Aged(sys, D, F, s)
    requires TimelyRun(sys, D, F, s, acts) && Run(sys, s, acts).Some?
    ensures Aged(sys, D, F, Run(sys, s, acts).value)
    decreases |acts|
  {
    hide Step;
    if |acts| > 0 {
      StepIsAged(sys, D, F, s, acts[0]);
      StepKeepsInv(sys, s, acts[0]);
      StepIsSound(sys, s, acts[0]);
      RunIsAged(sys, D, F, Step(sys, s, acts[0]).value, acts[1..]);
    }
  }

  // ------------------------------------------------------------------
  // Bounded staleness
  // ------------------------------------------------------------------

  /** In every timely run an answer from the store held at the source no longer ago than D, plus the jittered
      TTL, plus the stale window. An answer that came through a flight held no longer ago than twice D plus
      the jittered TTL: the flight may have taken a fresh entry from the store when it started. A NotFound is
      bounded in the same way by the jittered negative TTL. */
  lemma GetOrSetStaleness(sys: System, D: int, F: int, s0: State, acts: seq<Action>, c: nat)
    requires sys.Valid() && Limits(sys, D) && Initial(s0) && TimelyRun(sys, D, F, s0, acts) && Run(sys, s0, acts).Some?
    requires c < |Run(sys, s0, acts).value.callers| && Run(sys, s0, acts).value.callers[c].pc.Answered?
    ensures
      var caller := Run(sys, s0, acts).value.callers[c];
      var cfg := sys.cfg(caller.loc.cache);
      var shared := caller.pc.via.Some?;
      match caller.pc.reply
      case Hit(v, at, served) =>
        && sys.source(caller.loc, at) == Found(v)
        && served - (D + if shared then D + Window(cfg, F) else Lifetime(cfg, F)) <= at <= served
      case NotFound(at, served) =>
        && sys.source(caller.loc, at) == Missing
        && served - (D + AbsenceLifetime(cfg) + if shared then D else 0) <= at <= served
      case _ => true
  {
    hide Step;
    InitialInv(sys, s0);
    RunIsSound(sys, s0, acts);
    RunIsAged(sys, D, F, s0, acts);
    var s := Run(sys, s0, acts).value;
    assert CallerBacked(sys, s.now, s.callers[c]) && CallerAged(sys, D, F, s.callers[c]);
  }

  /** The result of a flight, at the instant it was obtained, obeys the bound without the extra D: what every
      joined waiter shares was read from the store or the source no longer ago than that. */
  lemma FlightStaleness(sys: System, D: int, F: int, s0: State, acts: seq<Action>, f: nat)
    requires sys.Valid() && Limits(sys, D) && Initial(s0) && TimelyRun(sys, D, F, s0, acts) && Run(sys, s0, acts).Some?
    requires f < |Run(sys, s0, acts).value.flights| && Run(sys, s0, acts).value.flights[f].phase.HasOutcome()
    ensures
      var fl := Run(sys, s0, acts).value.flights[f];
      match fl.phase.out
      case Data(data, at, asOf) =>
        && Backed(sys, fl.loc, data, at)
        && var cfg := sys.cfg(fl.loc.cache);
        asOf - (D + if IsNegative(data) then AbsenceLifetime(cfg) else Window(cfg, F)) <= at <= asOf
      case Fail(_) => true
  {
    hide Step;
    InitialInv(sys, s0);
    RunIsSound(sys, s0, acts);
    RunIsAged(sys, D, F, s0, acts);
    var s := Run(sys, s0, acts).value;
    assert FlightBacked(sys, s.now, s.flights[f]) && FlightAged(sys, D, F, s.now, s.flights[f]);
  }

  /** The same for each key of a batch call, when it was read. The call returns at the latest D after its
      start, and the answer is then older by at most D. */
  lemma GetOrSetManyStaleness(sys: System, D: int, F: int, s0: State, acts: seq<Action>, l: nat)
    requires sys.Valid() && Limits(sys, D) && Initial(s0) && TimelyRun(sys, D, F, s0, acts) && Run(sys, s0, acts).Some?
    requires l < |Run(sys, s0, acts).value.lanes| && Run(sys, s0, acts).value.lanes[l].phase.LaneDone?
    ensures
      var ln := Run(sys, s0, acts).value.lanes[l];
      var at, seen := ln.phase.readAt, ln.phase.seenAt;
      var cfg := sys.cfg(ln.loc.cache);
      var age := if ln.phase.result.Some? then D + Lifetime(cfg, F) - 1 else D + AbsenceLifetime(cfg);
      && sys.source(ln.loc, at) == (match ln.phase.result case Some(v) => Found(v) case None => Missing)
      && seen - age <= at <= seen
      && var returned := ln.startedAt + D; ln.startedAt <= seen && returned - (age + D) <= at
  {
    hide Step;
    InitialInv(sys, s0);
    RunIsSound(sys, s0, acts);
    RunIsAged(sys, D, F, s0, acts);
    var s := Run(sys, s0, acts).value;
    assert LaneBacked(sys, s.now, s.lanes[l]) && LaneAged(sys, D, F, s.now, s.lanes[l]);
  }
}
