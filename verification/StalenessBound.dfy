/** When the bound D + F(1 + j) + S on the age of a served value holds. Entries alone keep it always, but a
    value can wait out one more flight or batch call after it was taken from the store. */
module StalenessBound {
  import opened Base
  import opened Codecs
  import opened Config
  import opened Stored
  import opened Protocol
  import opened Runs
  import opened SingleFlight
  import opened Provenance
  import opened Staleness

  /** A served value held at the source within age of its serving. */
  ghost predicate WasTrue(sys: System, loc: Loc, v: Value, served: Time, age: int) {
    exists at: Time :: served - age <= at <= served && sys.source(loc, at) == Found(v)
  }

  function Bound(cfg: CacheConfig, D: int, F: int): int {
    D + Stretch(F, cfg.ttlJitter) + cfg.staleTTL
  }

  /** What separates the largest TTL that jitter draws from the one that the bound allows for: a nanosecond
      where there is jitter and F(1 + j) is whole, for then no draw reaches it, and nothing elsewhere. */
  function Gap(cfg: CacheConfig, F: int): int {
    Stretch(F, cfg.ttlJitter) - Longest(F, cfg.ttlJitter)
  }

  /** The run is possible, timely, and one of caches that are all configured alike. */
  ghost predicate Fair(cfg: CacheConfig, D: int, F: int, sys: System, s0: State, acts: seq<Action>) {
    && sys.Valid() && (forall i: nat :: sys.cfg(i) == cfg)
    && Initial(s0) && TimelyRun(sys, D, F, s0, acts) && Run(sys, s0, acts).Some?
  }

  /** A value that a caller of GetOrSet got is within the bound when it is served. */
  ghost predicate FreshEnough(sys: System, D: int, F: int, caller: Caller) {
    caller.pc.Answered? && caller.pc.reply.Hit? ==>
      WasTrue(sys, caller.loc, caller.pc.reply.v, caller.pc.reply.servedAt, Bound(sys.cfg(caller.loc.cache), D, F))
  }

  /** The bound holds for GetOrSet in every timely run of every system whose caches are configured like this. */
  ghost predicate KeepsBound(cfg: CacheConfig, D: int, F: int) {
    forall sys: System, s0: State, acts: seq<Action>, c: nat ::
      Fair(cfg, D, F, sys, s0, acts) && c < |Run(sys, s0, acts).value.callers|
      ==> FreshEnough(sys, D, F, Run(sys, s0, acts).value.callers[c])
  }

  /** Every key of the batch call that the lane belongs to is settled, and the call, which lasts at most D, may
      return now. */
  ghost predicate Returning(D: int, s: State, l: nat)
    requires l < |s.lanes|
  {
    && s.now <= s.lanes[l].startedAt + D
    && forall k :: 0 <= k < |s.lanes| && s.lanes[k].batch == s.lanes[l].batch ==> LaneClosed(s.lanes[k])
  }

  /** A value that GetOrSetMany got for a key is within the bound when the call returns. */
  ghost predicate BatchFreshEnough(sys: System, D: int, F: int, s: State, l: nat)
    requires l < |s.lanes|
  {
    var ln := s.lanes[l];
    Returning(D, s, l) && ln.phase.LaneDone? && ln.phase.result.Some? ==>
      WasTrue(sys, ln.loc, ln.phase.result.value, s.now, Bound(sys.cfg(ln.loc.cache), D, F))
  }

  ghost predicate KeepsBatchBound(cfg: CacheConfig, D: int, F: int) {
    forall sys: System, s0: State, acts: seq<Action>, l: nat ::
      Fair(cfg, D, F, sys, s0, acts) && l < |Run(sys, s0, acts).value.lanes|
      ==> BatchFreshEnough(sys, D, F, Run(sys, s0, acts).value, l)
  }

  lemma GapIsSmall(cfg: CacheConfig, F: Duration)
    requires BoundedTtl(cfg, F, F)
    ensures 0 <= Gap(cfg, F) <= 1
    ensures cfg.ttlJitter == 0.0 ==> Gap(cfg, F) == 0
    ensures
      var most := Scaled(F, 1.0 + cfg.ttlJitter);
      cfg.ttlJitter > 0.0 ==> (Gap(cfg, F) == 1 <==> most.Floor as real == most)
  {
    assert Scaled(F, 1.0) == F as real;
  }

  lemma WithinTheBound(cfg: CacheConfig, D: int, F: Duration)
    requires BoundedTtl(cfg, F, F) && BoundedAbsence(cfg) && 0 <= D
    requires D <= cfg.staleTTL + Gap(cfg, F) + if cfg.staleTTL > 0 then 0 else 1
    ensures KeepsBound(cfg, D, F)
  {
    forall sys: System, s0: State, acts: seq<Action>, c: nat |
      Fair(cfg, D, F, sys, s0, acts) && c < |Run(sys, s0, acts).value.callers|
      ensures FreshEnough(sys, D, F, Run(sys, s0, acts).value.callers[c])
    {
      hide Run, TimelyRun, Stretch, Longest, BoundedTtl;
      GapIsSmall(cfg, F);
      if Run(sys, s0, acts).value.callers[c].pc.Answered? {
        GetOrSetStaleness(sys, D, F, s0, acts, c);
      }
    }
  }

  lemma WithinTheBatchBound(cfg: CacheConfig, D: int, F: Duration)
    requires BoundedTtl(cfg, F, F) && BoundedAbsence(cfg) && 0 <= D <= Gap(cfg, F) + 1
    ensures KeepsBatchBound(cfg, D, F)
  {
    forall sys: System, s0: State, acts: seq<Action>, l: nat |
      Fair(cfg, D, F, sys, s0, acts) && l < |Run(sys, s0, acts).value.lanes|
      ensures BatchFreshEnough(sys, D, F, Run(sys, s0, acts).value, l)
    {
      hide Run, TimelyRun, Stretch, Longest, BoundedTtl;
      var s := Run(sys, s0, acts).value;
      if Returning(D, s, l) && s.lanes[l].phase.LaneDone? && s.lanes[l].phase.result.Some? {
        var ln := s.lanes[l];
        GetOrSetManyStaleness(sys, D, F, s0, acts, l);
        SeenByNow(sys, s0, acts, l);
        assert s.now - Bound(cfg, D, F) <= ln.phase.readAt <= s.now;
      }
    }
  }

  lemma SeenByNow(sys: System, s0: State, acts: seq<Action>, l: nat)
    requires sys.Valid() && Initial(s0) && Run(sys, s0, acts).Some?
    requires l < |Run(sys, s0, acts).value.lanes| && Run(sys, s0, acts).value.lanes[l].phase.LaneDone?
    ensures Run(sys, s0, acts).value.lanes[l].phase.seenAt <= Run(sys, s0, acts).value.now
  {
    hide Run;
    InitialInv(sys, s0);
    RunIsSound(sys, s0, acts);
    var s := Run(sys, s0, acts).value;
    assert LaneBacked(sys, s.now, s.lanes[l]);
  }

  // ------------------------------------------------------------------
  // Runs that exceed the bound
  // ------------------------------------------------------------------

  /** A source that holds the value at one instant only. */
  function Moment(cfg: CacheConfig, v: Value, t0: Time): System {
    System(c => cfg, c => OneValue(v), (loc, t) => if t == t0 then Found(v) else Missing)
  }

  /** Flight 0 has stored the entry and is about to return the bytes to its waiter. */
  ghost predicate Saved(s: State, now: Time, loc: Loc, e: Entry) {
    && s.now == now && s.store == map[loc := e] && s.lanes == []
    && s.inflight == map[NameOf(loc) := 0]
    && |s.flights| == 1 && s.flights[0].loc == loc && s.flights[0].chans == [0] && s.flights[0].delivered == 0
    && s.flights[0].phase.Finished?
    && s.channels == [Channel(0, 0, Some(0), None)]
    && |s.callers| == 1 && s.callers[0].pc == Waiting(0)
  }

  /** Flight 0 is about to hear from the source, which it asked at t0. */
  ghost predicate Asked(s: State, t0: Time, loc: Loc, F: Duration) {
    && s.now == t0 && s.store == map[] && s.lanes == []
    && s.inflight == map[NameOf(loc) := 0]
    && |s.flights| == 1 && s.flights[0] == Flight(loc, F, false, ZERO_TIME, t0, Loading(t0), [0], 0, 1, 0, 0, false)
    && s.channels == [Channel(0, 0, Some(0), None)]
    && |s.callers| == 1 && s.callers[0].pc == Waiting(0)
  }

  /** A caller misses and starts a flight, which asks the source at once. */
  lemma AskTheSource(cfg: CacheConfig, v: Value, D: int, F: Duration, t0: Time, loc: Loc) returns (s: State)
    requires BoundedTtl(cfg, F, F) && D >= 0 && SaneClock(t0)
    ensures
      var sys := Moment(cfg, v, t0);
      Reaches(sys, Within(sys, D, F), State(t0, map[], map[], [], [], [], [], []), s)
    ensures Asked(s, t0, loc, F)
  {
    hide NameOf, Reaches, Longest, Stretch, Scaled;
    var sys := Moment(cfg, v, t0);
    var s0 := State(t0, map[], map[], [], [], [], [], []);
    Stays(sys, Within(sys, D, F), s0);
    var s1 := s0.(callers := s0.callers + [Caller(loc, F, false, Reading)]);
    Next(sys, Within(sys, D, F), s0, s0, Ask(loc, F), s1);
    var s2 := SetPc(s1, 0, Joining);
    Next(sys, Within(sys, D, F), s0, s1, Act(0, FirstRead(true, 0.0)), s2);
    var s3 := Step(sys, s2, Join(0)).value;
    Next(sys, Within(sys, D, F), s0, s2, Join(0), s3);
    assert s3.flights[0] == Flight(loc, F, false, ZERO_TIME, t0, Starting, [0], 0, 0, 0, 0, false);
    var fl := s3.flights[0];
    var s4 := s3.(flights := s3.flights[0 := fl.(phase := Ready)]);
    Next(sys, Within(sys, D, F), s0, s3, Fly(0, Recheck(true)), s4);
    s := s4.(flights := s4.flights[0 := fl.(phase := Loading(t0), loads := 1)]);
    Next(sys, Within(sys, D, F), s0, s4, Fly(0, LoaderStart), s);
  }

  /** D later the loader returns what it had seen, and the value is stored. */
  lemma StoreLate(cfg: CacheConfig, v: Value, D: int, F: Duration, u: real, t0: Time, loc: Loc, s0: State,
                  s: State)
    returns (s': State)
    requires BoundedTtl(cfg, F, F) && 0 <= D < TWO_63 && SaneClock(t0 + D) && Draw(u)
    requires Reaches(Moment(cfg, v, t0), Within(Moment(cfg, v, t0), D, F), s0, s) && Asked(s, t0, loc, F)
    ensures Reaches(Moment(cfg, v, t0), Within(Moment(cfg, v, t0), D, F), s0, s')
    ensures
      var packed := PackForStore([1], F, D, cfg, t0 + D, u);
      Saved(s', t0 + D, loc, Entry(NewItem(packed.data, packed.ttl, cfg, t0 + D, u), t0))
  {
    hide NameOf, Reaches, Longest, Stretch, Scaled, PackForStore, NewItem;
    var sys, t1 := Moment(cfg, v, t0), t0 + D;
    var s1 := s.(now := t1);
    Next(sys, Within(sys, D, F), s0, s, Tick(t1), s1);
    var fl := s.flights[0].(phase := Loaded(v, t0, D), onLoads := 1);
    var s2 := s1.(flights := s1.flights[0 := fl]);
    Next(sys, Within(sys, D, F), s0, s1, Fly(0, LoaderReturn(Answers, t0)), s2);
    var packed := PackForStore([1], F, D, cfg, t1, u);
    fl := fl.(phase := Packing(packed.data, packed.ttl, t0));
    var s3 := s2.(flights := s2.flights[0 := fl]);
    Next(sys, Within(sys, D, F), s0, s2, Fly(0, Pack(u)), s3);
    var item := NewItem(packed.data, packed.ttl, cfg, t1, u);
    var s4 := s3.(flights := s3.flights[0 := Finish(fl.(wrote := true), Data(packed.data, t0, t0))]);
    s' := Apply(s4, loc, Put(item, t0), Some(0));
    Next(sys, Within(sys, D, F), s0, s3, Fly(0, Save(true, u)), s');
  }

  /** No one is waiting, and the entry is in the store. */
  ghost predicate Quiet(s: State, loc: Loc, e: Entry) {
    && s.store == map[loc := e] && s.lanes == [] && s.inflight == map[]
    && |s.flights| == 1 && s.flights[0].phase.Delivering?
    && |s.channels| == 1
    && |s.callers| == 1 && s.callers[0].pc.Answered?
  }

  /** Flight 1 has taken the entry from the store, and caller 1 waits for it. */
  ghost predicate Taken(s: State, now: Time, loc: Loc, e: Entry) {
    && s.now == now && s.lanes == []
    && |s.flights| == 2 && s.flights[0].phase.Delivering?
    && s.flights[1].loc == loc && s.flights[1].startedAt == now
    && s.flights[1].chans == [1] && s.flights[1].delivered == 0
    && s.flights[1].phase == Finished(Data(e.item.val, e.readAt, now))
    && |s.channels| == 2 && s.channels[1].flight == 1
    && |s.callers| == 2 && s.callers[0].pc.Answered? && s.callers[1].loc == loc && s.callers[1].pc == Waiting(1)
  }

  /** Another caller's Get fails. It starts a flight, whose re-check finds the entry. */
  lemma TakeFromStore(sys: System, D: int, F: Duration, s0: State, s: State, loc: Loc, e: Entry, last: Time)
    returns (s': State)
    requires BoundedTtl(sys.cfg(loc.cache), F, F) && 0 <= D
    requires Reaches(sys, Within(sys, D, F), s0, s) && Quiet(s, loc, e) && s.now <= last && SaneClock(last)
    requires e.item.Live(last) && sys.Look(loc, e.item.val).Readable? && !sys.Look(loc, e.item.val).env.Stale(last)
    ensures Reaches(sys, Within(sys, D, F), s0, s') && Taken(s', last, loc, e)
  {
    hide NameOf, Reaches, Longest, Stretch, Scaled, Classify;
    var s1 := s.(now := last);
    Next(sys, Within(sys, D, F), s0, s, Tick(last), s1);
    var s2 := s1.(callers := s1.callers + [Caller(loc, F, false, Reading)]);
    Next(sys, Within(sys, D, F), s0, s1, Ask(loc, F), s2);
    var s3 := SetPc(s2, 1, Joining);
    Next(sys, Within(sys, D, F), s0, s2, Act(1, FirstRead(false, 0.0)), s3);
    var s4 := Step(sys, s3, Join(1)).value;
    Next(sys, Within(sys, D, F), s0, s3, Join(1), s4);
    assert s4.flights[1] == Flight(loc, F, false, ZERO_TIME, last, Starting, [1], 0, 0, 0, 0, false);
    s' := s4.(flights := s4.flights[1 := Finish(s4.flights[1], Data(e.item.val, e.readAt, last))]);
    Next(sys, Within(sys, D, F), s0, s4, Fly(1, Recheck(true)), s');
  }

  /** The flight takes D, and its waiter is served the entry at the end. */
  lemma ServeLate(sys: System, D: int, F: int, s0: State, s: State, loc: Loc, e: Entry) returns (s': State)
    requires 0 <= D && Reaches(sys, Within(sys, D, F), s0, s) && Taken(s, s.now, loc, e) && SaneClock(s.now + D)
    requires sys.Look(loc, e.item.val).Readable?
    ensures Reaches(sys, Within(sys, D, F), s0, s') && |s'.callers| == 2
    ensures s'.callers[1].loc == loc
    ensures s'.callers[1].pc == Answered(Hit(sys.Look(loc, e.item.val).v, e.readAt, s.now + D), Some(1))
  {
    hide NameOf, Reaches, Classify;
    var s1 := s.(now := s.now + D);
    Next(sys, Within(sys, D, F), s0, s, Tick(s.now + D), s1);
    s' := HandOver(sys, Within(sys, D, F), s0, s1, 1, 1, 1);
  }

  /** The stored entry, under the largest draw: fresh until the deadline of its freshness exactly when that is
      a whole millisecond, and in the store until the end of the stale window. */
  lemma LastingEntry(cfg: CacheConfig, v: Value, loadDur: Duration, F: Duration, u: real, at: Time)
    requires BoundedTtl(cfg, F, F) && Draw(u) && FreshFor(F, cfg, u) == Longest(F, cfg.ttlJitter) && SaneClock(at)
    requires (at + Longest(F, cfg.ttlJitter)) % MILLISECOND == 0
    ensures
      var packed := PackForStore([1], F, loadDur, cfg, at, u);
      var item := NewItem(packed.data, packed.ttl, cfg, at, u);
      && item.val == packed.data
      && item.deadline == Some(at + Longest(F, cfg.ttlJitter) + cfg.staleTTL)
      && Classify(cfg, OneValue(v), packed.data).Readable?
      && Classify(cfg, OneValue(v), packed.data).v == v
      && !Classify(cfg, OneValue(v), packed.data).env.Stale(at + Longest(F, cfg.ttlJitter))
  {
    hide Longest, Stretch, Scaled, ApplyJitter, Classify;
    var packed := PackForStore([1], F, loadDur, cfg, at, u);
    GapIsSmall(cfg, F);
    BoundedDraw(cfg, F, F, u);
    assert OneValue(v).Faithful() && OneValue(v).marshal(v) == Some([1]);
    PackedReadsBack(cfg, OneValue(v), v, F, loadDur, at, u);
    if cfg.EnvelopeEnabled() {
      PackedTtl([1], F, loadDur, cfg, at, u);
      EnvelopedItem(packed.data, packed.ttl, cfg, at, u);
    } else {
      assert packed == Packed([1], F) && cfg.staleTTL == 0;
    }
  }

  lemma ClockIsSane(now: Time)
    requires MILLISECOND <= now <= 2 * MILLISECOND + 5 * TWO_63
    ensures SaneClock(now)
  {
  }

  /** A start from which the freshness deadline is a whole millisecond. */
  function StartFor(span: int): (t0: Time)
    ensures MILLISECOND <= t0 < 2 * MILLISECOND && (t0 + span) % MILLISECOND == 0
  {
    MILLISECOND + (-span) % MILLISECOND
  }

  /** Asked at t0 and stored D later under the largest TTL, with no one waiting. */
  lemma LateEntry(cfg: CacheConfig, v: Value, D: int, F: Duration, loc: Loc)
    returns (s0: State, s: State, t0: Time, e: Entry)
    requires BoundedTtl(cfg, F, F) && 0 <= D < TWO_63
    ensures MILLISECOND <= t0 < 2 * MILLISECOND
    ensures var sys := Moment(cfg, v, t0); Initial(s0) && Reaches(sys, Within(sys, D, F), s0, s)
    ensures Quiet(s, loc, e) && s.now == t0 + D
    ensures
      var view, upTo := Classify(cfg, OneValue(v), e.item.val), t0 + D + Longest(F, cfg.ttlJitter);
      && e.readAt == t0 && view.Readable? && view.v == v && !view.env.Stale(upTo)
      && e.item.deadline == Some(upTo + cfg.staleTTL)
  {
    hide Reaches, Longest, Stretch, Scaled, PackForStore, NewItem, Classify, NameOf, SaneClock, FreshFor;
    var u := LargestDraw(cfg, F);
    t0 := StartFor(D + Longest(F, cfg.ttlJitter));
    var sys := Moment(cfg, v, t0);
    ClockIsSane(t0);
    ClockIsSane(t0 + D);
    s0 := State(t0, map[], map[], [], [], [], [], []);
    var s1 := AskTheSource(cfg, v, D, F, t0, loc);
    var s2 := StoreLate(cfg, v, D, F, u, t0, loc, s0, s1);
    s := HandOver(sys, Within(sys, D, F), s0, s2, 0, 0, 0);
    LastingEntry(cfg, v, D, F, u, t0 + D);
    var packed := PackForStore([1], F, D, cfg, t0 + D, u);
    e := Entry(NewItem(packed.data, packed.ttl, cfg, t0 + D, u), t0);
  }

  lemma LargestDraw(cfg: CacheConfig, F: Duration) returns (u: real)
    requires BoundedTtl(cfg, F, F)
    ensures Draw(u) && FreshFor(F, cfg, u) == Longest(F, cfg.ttlJitter)
    ensures 0 < Longest(F, cfg.ttlJitter) < TWO_63
  {
    hide ApplyJitter, Longest;
    u := ExtremesAreDrawn(F, cfg.ttlJitter);
    BoundedDraw(cfg, F, F, u);
    GapIsSmall(cfg, F);
  }

  /** The whole run: asked at t0, stored at t0 + D, taken from the store in its last fresh instant, served D later. */
  lemma LateRun(cfg: CacheConfig, v: Value, D: int, F: Duration, loc: Loc) returns (s0: State, s: State, t0: Time)
    requires BoundedTtl(cfg, F, F) && 0 <= D < TWO_63
    ensures var sys := Moment(cfg, v, t0); Initial(s0) && Reaches(sys, Within(sys, D, F), s0, s)
    ensures |s.callers| == 2 && s.callers[1].loc == loc
    ensures s.callers[1].pc == Answered(Hit(v, t0, t0 + 2 * D + Window(cfg, F)), Some(1))
  {
    hide Reaches, Longest, Stretch, Scaled, Classify, NameOf, SaneClock;
    var s1, e;
    s0, s1, t0, e := LateEntry(cfg, v, D, F, loc);
    var sys := Moment(cfg, v, t0);
    var last := t0 + D + Window(cfg, F);
    var u := LargestDraw(cfg, F);
    ClockIsSane(last);
    ClockIsSane(last + D);
    var s2 := TakeFromStore(sys, D, F, s0, s1, loc, e, last);
    s := ServeLate(sys, D, F, s0, s2, loc, e);
  }

  lemma BeyondTheBound(cfg: CacheConfig, v: Value, D: int, F: Duration)
    requires BoundedTtl(cfg, F, F) && 0 <= D < TWO_63
    requires D > cfg.staleTTL + Gap(cfg, F) + if cfg.staleTTL > 0 then 0 else 1
    ensures !KeepsBound(cfg, D, F)
  {
    hide Run, Stretch, Longest, BoundedTtl;
    var s0, s, t0 := LateRun(cfg, v, D, F, Loc(0, ""));
    var sys := Moment(cfg, v, t0);
    var acts :| Allowed(sys, Within(sys, D, F), s0, acts) && Run(sys, s0, acts) == Some(s);
    assert Fair(cfg, D, F, sys, s0, acts);
    assert !FreshEnough(sys, D, F, Run(sys, s0, acts).value.callers[1]);
  }

  /** Where flights last up to D, a value that GetOrSet serves is always younger than D + F(1 + j) + S exactly
      when D fits the stale window; without one, when D is at most a nanosecond. Where there is jitter and
      F(1 + j) is whole, D may be one nanosecond more, for then no draw reaches F(1 + j). */
  lemma StalenessBoundExactly(cfg: CacheConfig, v: Value, D: int, F: Duration)
    requires BoundedTtl(cfg, F, F) && BoundedAbsence(cfg) && 0 <= D < TWO_63
    ensures KeepsBound(cfg, D, F) <==> D <= cfg.staleTTL + Gap(cfg, F) + if cfg.staleTTL > 0 then 0 else 1
  {
    if D <= cfg.staleTTL + Gap(cfg, F) + if cfg.staleTTL > 0 then 0 else 1 {
      WithinTheBound(cfg, D, F);
    } else {
      BeyondTheBound(cfg, v, D, F);
    }
  }

  // ------------------------------------------------------------------
  // Batch calls
  // ------------------------------------------------------------------

  /** A call for two keys reads the entry, misses on the other key and asks the loader for it. */
  lemma ReadInBatch(sys: System, D: int, F: Duration, s0: State, s: State, loc: Loc, other: Loc, e: Entry, last: Time)
    returns (s': State)
    requires BoundedTtl(sys.cfg(loc.cache), F, F) && 0 <= D && other != loc && other.cache == loc.cache
    requires Reaches(sys, Within(sys, D, F), s0, s) && Quiet(s, loc, e) && s.now <= last && SaneClock(last)
    requires e.item.Live(last) && sys.Look(loc, e.item.val).Readable?
    ensures Reaches(sys, Within(sys, D, F), s0, s')
    ensures s'.now == last && s'.flights == s.flights && s'.callers == s.callers && s'.channels == s.channels
    ensures s'.lanes == [Lane(loc, F, 0, last, LaneDone(Some(sys.Look(loc, e.item.val).v), e.readAt, last), None),
                         Lane(other, F, 0, last, LaneLoading(last), None)]
  {
    hide NameOf, Reaches, Longest, Stretch, Scaled, Classify;
    var rule := Within(sys, D, F);
    var s1 := s.(now := last);
    Next(sys, rule, s0, s, Tick(last), s1);
    var s2 := s1.(lanes := s1.lanes + [Lane(loc, F, 0, last, LaneReading, None)]);
    Next(sys, rule, s0, s1, NewLane(loc, F, 0), s2);
    var s3 := s2.(lanes := s2.lanes + [Lane(other, F, 0, last, LaneReading, None)]);
    Next(sys, rule, s0, s2, NewLane(other, F, 0), s3);
    var s4 := Step(sys, s3, Batch(0, LaneRead(true))).value;
    Next(sys, rule, s0, s3, Batch(0, LaneRead(true)), s4);
    var s5 := Step(sys, s4, Batch(1, LaneRead(true))).value;
    Next(sys, rule, s0, s4, Batch(1, LaneRead(true)), s5);
    s' := Step(sys, s5, Batch(1, LaneLoaderStart)).value;
    Next(sys, rule, s0, s5, Batch(1, LaneLoaderStart), s');
  }

  /** The loader takes D to find that the other key does not exist. */
  lemma FinishBatch(sys: System, D: int, F: Duration, s0: State, s: State) returns (s': State)
    requires 0 <= D && Reaches(sys, Within(sys, D, F), s0, s) && SaneClock(s.now + D)
    requires |s.lanes| == 2 && LaneClosed(s.lanes[0])
    requires s.lanes[1].phase == LaneLoading(s.now) && s.lanes[1].startedAt == s.now
    requires sys.source(s.lanes[1].loc, s.now + D) == Missing
    requires forall f :: 0 <= f < |s.flights| ==> !s.flights[f].phase.Active()
    requires forall c :: 0 <= c < |s.callers| ==> !s.callers[c].pc.Waiting?
    ensures Reaches(sys, Within(sys, D, F), s0, s')
    ensures s'.now == s.now + D && |s'.lanes| == 2 && s'.lanes[0] == s.lanes[0] && LaneClosed(s'.lanes[1])
  {
    hide NameOf, Reaches, Longest, Stretch, Scaled, Classify, NewItem;
    var rule, t := Within(sys, D, F), s.now + D;
    var s1 := s.(now := t);
    Next(sys, rule, s0, s, Tick(t), s1);
    s' := Step(sys, s1, Batch(1, LaneLoaderReturn(false, t))).value;
    Next(sys, rule, s0, s1, Batch(1, LaneLoaderReturn(false, t)), s');
    if s'.lanes[1].phase.LaneOmitted? {
      var s2 := s';
      s' := Step(sys, s2, Batch(1, LaneSave(false, 0.0, 0))).value;
      Next(sys, rule, s0, s2, Batch(1, LaneSave(false, 0.0, 0)), s');
    }
  }

  /** A call that reads an entry in its last instant and returns it D later. */
  lemma LateBatch(cfg: CacheConfig, v: Value, D: int, F: Duration) returns (s0: State, s: State, t0: Time)
    requires BoundedTtl(cfg, F, F) && 0 < D < TWO_63
    ensures var sys := Moment(cfg, v, t0); Initial(s0) && Reaches(sys, Within(sys, D, F), s0, s)
    ensures |s.lanes| == 2 && Returning(D, s, 0)
    ensures s.now == t0 + 2 * D + Longest(F, cfg.ttlJitter) + cfg.staleTTL - 1
    ensures s.lanes[0].loc == Loc(0, "a") && s.lanes[0].phase.LaneDone? && s.lanes[0].phase.result == Some(v)
  {
    hide Reaches, Longest, Stretch, Scaled, Classify, NameOf, SaneClock;
    var loc, other := Loc(0, "a"), Loc(0, "b");
    var s1, e;
    s0, s1, t0, e := LateEntry(cfg, v, D, F, loc);
    var sys := Moment(cfg, v, t0);
    var last := t0 + D + Longest(F, cfg.ttlJitter) + cfg.staleTTL - 1;
    var u := LargestDraw(cfg, F);
    ClockIsSane(last);
    ClockIsSane(last + D);
    var s2 := ReadInBatch(sys, D, F, s0, s1, loc, other, e, last);
    s := FinishBatch(sys, D, F, s0, s2);
  }

  lemma BeyondTheBatchBound(cfg: CacheConfig, v: Value, D: int, F: Duration)
    requires BoundedTtl(cfg, F, F) && Gap(cfg, F) + 1 < D < TWO_63
    ensures !KeepsBatchBound(cfg, D, F)
  {
    hide Run, Stretch, Longest, BoundedTtl, Returning;
    GapIsSmall(cfg, F);
    var s0, s, t0 := LateBatch(cfg, v, D, F);
    var sys := Moment(cfg, v, t0);
    var acts :| Allowed(sys, Within(sys, D, F), s0, acts) && Run(sys, s0, acts) == Some(s);
    assert Fair(cfg, D, F, sys, s0, acts);
    assert !BatchFreshEnough(sys, D, F, Run(sys, s0, acts).value, 0);
  }

  /** Where batch calls last up to D, a value that GetOrSetMany returns is always younger than D + F(1 + j) + S
      exactly when D is at most a nanosecond, or two where there is jitter and F(1 + j) is whole: a call may read
      an entry at the very end of its stale window, and then wait for the loader. */
  lemma BatchBoundExactly(cfg: CacheConfig, v: Value, D: int, F: Duration)
    requires BoundedTtl(cfg, F, F) && BoundedAbsence(cfg) && 0 <= D < TWO_63
    ensures KeepsBatchBound(cfg, D, F) <==> D <= Gap(cfg, F) + 1
  {
    GapIsSmall(cfg, F);
    if D <= Gap(cfg, F) + 1 {
      WithinTheBatchBound(cfg, D, F);
    } else {
      BeyondTheBatchBound(cfg, v, D, F);
    }
  }
}
