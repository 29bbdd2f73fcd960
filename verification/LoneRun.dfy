/** A call that meets no other takes exactly the steps of the concurrent protocol: what the sequential
    GetOrSet computes is what some run of the step relation computes for that caller. */
module LoneRun {
  import opened Base
  import opened Config
  import opened Stored
  import opened Protocol
  import opened Runs
  import opened CacheAside
  import TimedMap

  // ------------------------------------------------------------------
  // The store of one cache
  // ------------------------------------------------------------------

  /** m is what the store of the system holds for cache 0. */
  ghost predicate Holds(s: State, m: TimedMap.Items) {
    forall k: Key ::
      && (Loc(0, k) in s.store <==> k in m)
      && (k in m ==> s.store[Loc(0, k)].item == m[k])
  }

  /** What one cache sees once an expired entry under the key is evicted, if it was read at all. */
  function Evicted(s: State, key: Key, fails: bool): State {
    var loc := Loc(0, key);
    if !fails && loc in s.store && !s.store[loc].item.Live(s.now) then s.(store := s.store - {loc}) else s
  }

  lemma Sweeps(sys: System, s: State, m: TimedMap.Items, key: Key, fails: bool)
    requires Holds(s, m)
    ensures Reaches(sys, ANY, s, Evicted(s, key, fails))
    ensures Holds(Evicted(s, key, fails), AfterRead(m, key, s.now, fails))
  {
    Stays(sys, ANY, s);
    Steps(sys, ANY, s, Evict(Loc(0, key)));
  }

  /** The reads agree up to the history that the protocol keeps. */
  ghost predicate SameRead(a: Option<Entry>, b: Option<Entry>) {
    a.Some? == b.Some? && (a.Some? ==> a.value.item == b.value.item)
  }

  lemma ReadsAgree(s: State, m: TimedMap.Items, key: Key, fails: bool)
    requires Holds(s, m)
    ensures SameRead(Read(s, Loc(0, key), !fails), EntryAt(m, key, s.now, fails))
  {
  }

  // ------------------------------------------------------------------
  // One flight
  // ------------------------------------------------------------------

  /** The clock does not run backward in a scene, and the draws are in range. */
  ghost predicate Playable(w: Scene) {
    && w.readAt <= w.recheckAt <= w.loadAt <= w.loadEnd <= w.packAt <= w.setAt
    && SaneClock(w.readAt) && SaneClock(w.recheckAt) && SaneClock(w.loadAt) && SaneClock(w.loadEnd)
    && SaneClock(w.packAt) && SaneClock(w.setAt)
    && w.refreshDraw >= 0.0 && Draw(w.packDraw) && Draw(w.setDraw)
  }

  /** The store differs at most under one key. */
  ghost predicate ElsewhereSame(s: State, s': State, loc: Loc) {
    forall l: Loc :: l != loc ==> (l in s'.store <==> l in s.store) && (l in s.store ==> s'.store[l] == s.store[l])
  }

  /** Nothing but one flight, the entry of its key, the clock and the history has changed. */
  ghost predicate Framed(s: State, s': State, f: nat) {
    && s'.callers == s.callers && s'.channels == s.channels && s'.inflight == s.inflight
    && |s'.flights| == |s.flights| && f < |s.flights|
    && s'.flights[f].loc == s.flights[f].loc && s'.flights[f].ttl == s.flights[f].ttl
    && s'.flights[f].chans == s.flights[f].chans && s'.flights[f].delivered == s.flights[f].delivered
    && (forall g :: 0 <= g < |s.flights| && g != f ==> s'.flights[g] == s.flights[g])
    && s'.lanes == s.lanes && ElsewhereSame(s, s', s.flights[f].loc)
  }

  /** The clock moves on and one step of a flight follows. */
  lemma Flies(sys: System, s: State, f: nat, t: Time, step: BodyStep, e: Effect) returns (s': State)
    requires f < |s.flights| && s.now <= t && SaneClock(t) && !step.Recheck?
    requires Body(sys, t, None, s.flights[f], step) == Some(e)
    ensures s' == Apply(s.(now := t, flights := s.flights[f := e.flight]), s.flights[f].loc, e.op, Some(f))
    ensures Reaches(sys, ANY, s, s')
  {
    hide Body;
    var s1 := s.(now := t);
    Steps(sys, ANY, s, Tick(t));
    assert Read(s1, s.flights[f].loc, false) == None;
    Steps(sys, ANY, s1, Fly(f, step));
    s' := Step(sys, s1, Fly(f, step)).value;
    Then(sys, ANY, s, s1, s');
  }

  /** The re-check itself, and the eviction of what it found expired. */
  lemma LooksAgain(sys: System, s: State, f: nat, m: TimedMap.Items, w: Scene) returns (s': State)
    requires f < |s.flights| && s.flights[f].phase.Starting? && s.flights[f].loc.cache == 0
    requires Holds(s, m) && s.now <= w.recheckAt && Playable(w)
    ensures Reaches(sys, ANY, s, s') && s'.now == w.recheckAt
    ensures Holds(s', AfterRead(m, s.flights[f].loc.key, w.recheckAt, w.recheckFails))
    ensures s'.callers == s.callers && s'.channels == s.channels && s'.inflight == s.inflight && s'.lanes == s.lanes
    ensures ElsewhereSame(s, s', s.flights[f].loc)
    ensures
      var read := Read(s.(now := w.recheckAt), s.flights[f].loc, !w.recheckFails);
      var checked := Rechecked(sys, w.recheckAt, read, s.flights[f]);
      s'.flights == s.flights[f := checked]
  {
    hide AfterRead, Reaches, Rechecked, Read, Holds, SaneClock;
    var fl := s.flights[f];
    var s1 := s.(now := w.recheckAt);
    Steps(sys, ANY, s, Tick(w.recheckAt));
    var s2 := s1.(flights := s1.flights[f := Rechecked(sys, w.recheckAt, Read(s1, fl.loc, !w.recheckFails), fl)]);
    Next(sys, ANY, s, s1, Fly(f, Recheck(!w.recheckFails)), s2);
    SameStore(s, s2, m);
    Sweeps(sys, s2, m, fl.loc.key, w.recheckFails);
    s' := Evicted(s2, fl.loc.key, w.recheckFails);
    Then(sys, ANY, s, s2, s');
  }

  lemma SameStore(s: State, s': State, m: TimedMap.Items)
    requires Holds(s, m) && s'.store == s.store
    ensures Holds(s', m)
  {
  }

  /** The re-check, the eviction of what it found expired, and the deletion of what it could not decode. */
  lemma Rechecks(sys: System, s: State, f: nat, m: TimedMap.Items, w: Scene) returns (s': State)
    requires f < |s.flights| && s.flights[f].phase.Starting? && s.flights[f].loc.cache == 0
    requires Holds(s, m) && s.now <= w.recheckAt && Playable(w)
    ensures Reaches(sys, ANY, s, s') && Framed(s, s', f) && s'.now == w.recheckAt
    ensures s'.flights[f].loads == s.flights[f].loads
    ensures
      var fl := s.flights[f];
      var checked := Rechecked(sys, w.recheckAt, EntryAt(m, fl.loc.key, w.recheckAt, w.recheckFails), fl);
      var m1 := AfterRead(m, fl.loc.key, w.recheckAt, w.recheckFails);
      if checked.phase.Finished? then
        && s'.flights[f].phase.Finished? && Holds(s', m1)
        && BareOutcome(s'.flights[f].phase.out) == BareOutcome(checked.phase.out)
      else
        && s'.flights[f].phase.Ready?
        && Holds(s', if checked.phase.Healing? && !w.rehealFails then m1 - {fl.loc.key} else m1)
  {
    hide AfterRead, Rechecked, Reaches, Read, EntryAt;
    var fl := s.flights[f];
    var key := fl.loc.key;
    var s1 := s.(now := w.recheckAt);
    SameStore(s, s1, m);
    ReadsAgree(s1, m, key, w.recheckFails);
    var read := Read(s1, fl.loc, !w.recheckFails);
    var checked := Rechecked(sys, w.recheckAt, read, fl);
    RecheckIgnoresHistory(sys, w.recheckAt, read, EntryAt(m, key, w.recheckAt, w.recheckFails), fl);
    var s2 := LooksAgain(sys, s, f, m, w);
    s' := s2;
    if checked.phase.Healing? {
      var e := Effect(checked.(phase := Ready), if w.rehealFails then Keep else Drop);
      s' := Flies(sys, s2, f, w.recheckAt, Heal(!w.rehealFails), e);
      Then(sys, ANY, s, s2, s');
    }
  }

  lemma RecheckIgnoresHistory(sys: System, now: Time, a: Option<Entry>, b: Option<Entry>, fl: Flight)
    requires SameRead(a, b) && fl.phase.Starting?
    ensures
      var x, y := Rechecked(sys, now, a, fl), Rechecked(sys, now, b, fl);
      && x.loc == fl.loc && x.ttl == fl.ttl && x.chans == fl.chans && x.delivered == fl.delivered && x.loads == fl.loads
      && (x.phase.Finished? || x.phase == Ready || x.phase == Healing)
      && if y.phase.Finished? then x.phase.Finished? && BareOutcome(x.phase.out) == BareOutcome(y.phase.out)
         else x.phase == y.phase
  {
  }

  /** The loader runs. */
  lemma Asks(sys: System, s: State, f: nat, m: TimedMap.Items, load: Load, w: Scene) returns (s': State)
    requires f < |s.flights| && s.flights[f].phase.Ready? && s.flights[f].loc.cache == 0
    requires Holds(s, m) && s.now <= w.loadAt && Playable(w)
    ensures Reaches(sys, ANY, s, s') && Framed(s, s', f) && s'.flights[f].loads == s.flights[f].loads + 1
    ensures s'.now == w.loadEnd && Holds(s', m)
    ensures
      var ready := s.flights[f];
      s'.flights[f].phase
      == Returned(sys, w.loadEnd, ready.(phase := Loading(w.loadAt)), ResultOf(load), w.loadAt).phase
  {
    var fl := s.flights[f];
    var fl1 := fl.(phase := Loading(w.loadAt), loads := fl.loads + 1);
    var s1 := Flies(sys, s, f, w.loadAt, LoaderStart, Effect(fl1, Keep));
    var fl2 := Returned(sys, w.loadEnd, fl1, ResultOf(load), w.loadAt);
    s' := Flies(sys, s1, f, w.loadEnd, LoaderReturn(ResultOf(load), w.loadAt), Effect(fl2, Keep));
    Then(sys, ANY, s, s1, s');
  }

  lemma Encodes(sys: System, s: State, f: nat, m: TimedMap.Items, w: Scene) returns (s': State)
    requires f < |s.flights| && s.flights[f].phase.Loaded? && s.flights[f].loc.cache == 0
    requires Holds(s, m) && s.now <= w.packAt && Playable(w)
    ensures Reaches(sys, ANY, s, s') && Framed(s, s', f) && s'.flights[f].loads == s.flights[f].loads
    ensures s'.now == w.packAt && Holds(s', m)
    ensures s'.flights[f].phase == Encoded(sys, w.packAt, s.flights[f], w.packDraw).phase
  {
    hide PackForStore;
    var fl := Encoded(sys, w.packAt, s.flights[f], w.packDraw);
    s' := Flies(sys, s, f, w.packAt, Pack(w.packDraw), Effect(fl, Keep));
  }

  predicate Saving(phase: Phase) {
    phase.Packing? || phase.AbsenceLoaded?
  }

  lemma Saves(sys: System, s: State, f: nat, m: TimedMap.Items, w: Scene) returns (s': State)
    requires f < |s.flights| && Saving(s.flights[f].phase) && s.flights[f].loc.cache == 0
    requires Holds(s, m) && s.now <= w.setAt && Playable(w)
    ensures Reaches(sys, ANY, s, s') && Framed(s, s', f) && s'.flights[f].loads == s.flights[f].loads
    ensures
      var fl := s.flights[f];
      var saved := Body(sys, w.setAt, None, fl, Save(!w.setFails, w.setDraw)).value;
      && s'.flights[f].phase == saved.flight.phase && saved.flight.phase.Finished?
      && Holds(s', if saved.op.Put? then m[fl.loc.key := saved.op.item] else m)
  {
    hide NewItem;
    var e := Body(sys, w.setAt, None, s.flights[f], Save(!w.setFails, w.setDraw)).value;
    s' := Flies(sys, s, f, w.setAt, Save(!w.setFails, w.setDraw), e);
  }

  /** Only its place, its TTL and its phase decide what a flight does next. */
  lemma HistoryIsIdle(sys: System, a: Flight, b: Flight, w: Scene)
    requires a.loc == b.loc && a.ttl == b.ttl && a.phase == b.phase && Draw(w.setDraw)
    ensures a.phase.Loaded? ==>
              Encoded(sys, w.packAt, a, w.packDraw).phase == Encoded(sys, w.packAt, b, w.packDraw).phase
    ensures Saving(a.phase) ==>
              var x := Body(sys, w.setAt, None, a, Save(!w.setFails, w.setDraw)).value;
              var y := Body(sys, w.setAt, None, b, Save(!w.setFails, w.setDraw)).value;
              x.flight.phase == y.flight.phase && x.op == y.op
  {
    hide PackForStore, NewItem;
  }

  lemma Phases(sys: System, fl: Flight, load: Load, w: Scene)
    requires fl.phase.Ready?
    ensures
      var returned := Returned(sys, w.loadEnd, fl.(phase := Loading(w.loadAt)), ResultOf(load), w.loadAt);
      && returned.loc == fl.loc && returned.ttl == fl.ttl
      && (returned.phase.Finished? || returned.phase.Loaded? || returned.phase.AbsenceLoaded?)
      && (returned.phase.Loaded? ==>
            var encoded := Encoded(sys, w.packAt, returned, w.packDraw);
            && encoded.loc == fl.loc && encoded.ttl == fl.ttl
            && (encoded.phase.Finished? || Saving(encoded.phase)))
  {
    hide PackForStore;
  }

  /** Load, encode, save. */
  lemma Loads(sys: System, s: State, f: nat, m: TimedMap.Items, load: Load, w: Scene) returns (s': State)
    requires f < |s.flights| && s.flights[f].phase.Ready? && s.flights[f].loc.cache == 0
    requires Holds(s, m) && s.now <= w.loadAt && Playable(w)
    ensures Reaches(sys, ANY, s, s') && Framed(s, s', f) && s'.flights[f].loads == s.flights[f].loads + 1
    ensures
      var r := LoadRun(sys, s.flights[f], m, load, w);
      && s'.flights[f].phase == Finished(r.out) && Holds(s', r.contents)
  {
    hide Returned, Encoded, Body, Reaches, Holds, SaneClock;
    var fl := s.flights[f];
    var returned := Returned(sys, w.loadEnd, fl.(phase := Loading(w.loadAt)), ResultOf(load), w.loadAt);
    Phases(sys, fl, load, w);
    var s1 := Asks(sys, s, f, m, load, w);
    s' := s1;
    HistoryIsIdle(sys, s1.flights[f], returned, w);
    if returned.phase.Loaded? {
      var encoded := Encoded(sys, w.packAt, returned, w.packDraw);
      var s2 := Encodes(sys, s1, f, m, w);
      Then(sys, ANY, s, s1, s2);
      s' := s2;
      HistoryIsIdle(sys, s2.flights[f], encoded, w);
    }
    if !s'.flights[f].phase.Finished? {
      var before := s';
      s' := Saves(sys, before, f, m, w);
      Then(sys, ANY, s, before, s');
    }
  }

  lemma LoadRunIgnoresHistory(sys: System, a: Flight, b: Flight, m: TimedMap.Items, load: Load, w: Scene)
    requires a.loc == b.loc && a.ttl == b.ttl && Draw(w.setDraw)
    ensures LoadRun(sys, a, m, load, w) == LoadRun(sys, b, m, load, w)
  {
    hide Returned, StoreRun;
    ReturnIgnoresHistory(sys, a, b, load, w);
    Phases(sys, a.(phase := Ready), load, w);
    Phases(sys, b.(phase := Ready), load, w);
    StoreRunIgnoresHistory(sys,
      Returned(sys, w.loadEnd, a.(phase := Loading(w.loadAt)), ResultOf(load), w.loadAt),
      Returned(sys, w.loadEnd, b.(phase := Loading(w.loadAt)), ResultOf(load), w.loadAt), m, w);
  }

  lemma StoreRunIgnoresHistory(sys: System, a: Flight, b: Flight, m: TimedMap.Items, w: Scene)
    requires a.loc == b.loc && a.ttl == b.ttl && a.phase == b.phase && Draw(w.setDraw)
    requires a.phase.Finished? || a.phase.Loaded? || a.phase.AbsenceLoaded?
    ensures StoreRun(sys, a, m, w) == StoreRun(sys, b, m, w)
  {
    hide PackForStore, NewItem;
  }

  lemma ReturnIgnoresHistory(sys: System, a: Flight, b: Flight, load: Load, w: Scene)
    requires a.loc == b.loc && a.ttl == b.ttl
    ensures Returned(sys, w.loadEnd, a.(phase := Loading(w.loadAt)), ResultOf(load), w.loadAt).phase
         == Returned(sys, w.loadEnd, b.(phase := Loading(w.loadAt)), ResultOf(load), w.loadAt).phase
  {
  }

  /** A registered flight runs its body alone. */
  lemma FlightFlies(sys: System, s: State, f: nat, m: TimedMap.Items, load: Load, w: Scene) returns (s': State)
    requires f < |s.flights| && s.flights[f].phase.Starting? && s.flights[f].loc.cache == 0
    requires Holds(s, m) && s.now <= w.recheckAt && Playable(w)
    ensures Reaches(sys, ANY, s, s') && Framed(s, s', f)
    ensures
      var r := FlightRun(sys, s.flights[f], m, load, w);
      && s'.flights[f].phase.Finished? && BareOutcome(s'.flights[f].phase.out) == BareOutcome(r.out)
      && s'.flights[f].loads == s.flights[f].loads + (if r.asked then 1 else 0)
      && Holds(s', r.contents)
  {
    hide Rechecked, LoadRun, Reaches, Holds, SaneClock, AfterRead, EntryAt;
    var fl := s.flights[f];
    s' := Rechecks(sys, s, f, m, w);
    var checked := Rechecked(sys, w.recheckAt, EntryAt(m, fl.loc.key, w.recheckAt, w.recheckFails), fl);
    var m1 := AfterRead(m, fl.loc.key, w.recheckAt, w.recheckFails);
    if !checked.phase.Finished? {
      var s1 := s';
      var m2 := if checked.phase.Healing? && !w.rehealFails then m1 - {fl.loc.key} else m1;
      s' := Loads(sys, s1, f, m2, load, w);
      Then(sys, ANY, s, s1, s');
      LoadRunIgnoresHistory(sys, s1.flights[f], fl, m2, load, w);
      LoadRunAsks(sys, fl, m2, load, w);
    }
  }

  lemma LoadRunAsks(sys: System, fl: Flight, m: TimedMap.Items, load: Load, w: Scene)
    requires Draw(w.setDraw)
    ensures LoadRun(sys, fl, m, load, w).asked
  {
    hide Returned, Encoded, Body;
  }

  /** Two flights that differ only in when and for whom they started run alike. */
  lemma FlightRunIgnoresHistory(sys: System, a: Flight, b: Flight, m: TimedMap.Items, load: Load, w: Scene)
    requires a.loc == b.loc && a.ttl == b.ttl && a.refreshOf == b.refreshOf && Draw(w.setDraw)
    requires a.phase == b.phase == Starting
    ensures FlightRun(sys, a, m, load, w) == FlightRun(sys, b, m, load, w)
  {
    hide LoadRun, EntryAt, AfterRead, Rechecked;
    var read := EntryAt(m, a.loc.key, w.recheckAt, w.recheckFails);
    RecheckIsAlike(sys, w.recheckAt, read, a, b);
    var m1 := AfterRead(m, a.loc.key, w.recheckAt, w.recheckFails);
    LoadRunIgnoresHistory(sys, a, b, m1, load, w);
    LoadRunIgnoresHistory(sys, a, b, m1 - {a.loc.key}, load, w);
  }

  lemma RecheckIsAlike(sys: System, now: Time, read: Option<Entry>, a: Flight, b: Flight)
    requires a.loc == b.loc && a.refreshOf == b.refreshOf
    ensures Rechecked(sys, now, read, a).phase == Rechecked(sys, now, read, b).phase
  {
    hide Classify;
  }

  // ------------------------------------------------------------------
  // What one caller leaves alone
  // ------------------------------------------------------------------

  /** Other callers, all flights and channels that there were, all lanes, and every other key's entry and
      registration are as before. */
  ghost predicate Apart(s: State, s': State, c: nat, loc: Loc) {
    && c < |s.callers| == |s'.callers| && (forall d :: 0 <= d < |s.callers| && d != c ==> s'.callers[d] == s.callers[d])
    && |s.flights| <= |s'.flights| && (forall f :: 0 <= f < |s.flights| ==> s'.flights[f] == s.flights[f])
    && |s.channels| <= |s'.channels| && (forall d :: 0 <= d < |s.channels| ==> s'.channels[d] == s.channels[d])
    && s'.lanes == s.lanes && ElsewhereSame(s, s', loc)
    && forall name :: name != NameOf(loc) ==>
         (name in s'.inflight <==> name in s.inflight) && (name in s.inflight ==> s'.inflight[name] == s.inflight[name])
  }

  lemma ApartTrans(s: State, t: State, u: State, c: nat, loc: Loc)
    requires Apart(s, t, c, loc) && Apart(t, u, c, loc)
    ensures Apart(s, u, c, loc)
  {
    hide NameOf;
  }

  lemma ApartFlight(s: State, t: State, u: State, c: nat, loc: Loc, f: nat)
    requires Apart(s, t, c, loc) && Framed(t, u, f) && |s.flights| <= f && t.flights[f].loc == loc
    ensures Apart(s, u, c, loc)
  {
    hide NameOf;
  }

  lemma ApartHandOver(s: State, t: State, u: State, c: nat, loc: Loc, f: nat, ch: nat)
    requires Apart(s, t, c, loc) && |s.flights| <= f && |s.channels| <= ch
    requires u.store == t.store && u.lanes == t.lanes && u.inflight == t.inflight - {NameOf(loc)}
    requires |u.flights| == |t.flights| && forall g :: 0 <= g < |t.flights| && g != f ==> u.flights[g] == t.flights[g]
    requires |u.channels| == |t.channels|
    requires forall d :: 0 <= d < |t.channels| && d != ch ==> u.channels[d] == t.channels[d]
    requires |u.callers| == |t.callers| && forall d :: 0 <= d < |t.callers| && d != c ==> u.callers[d] == t.callers[d]
    ensures Apart(s, u, c, loc)
  {
    hide NameOf;
  }

  lemma ApartJoin(s: State, c: nat)
    requires c < |s.callers| && NameOf(s.callers[c].loc) !in s.inflight && JoinStep(s, c).Some?
    ensures Apart(s, JoinStep(s, c).value, c, s.callers[c].loc)
  {
    hide NameOf;
  }

  // ------------------------------------------------------------------
  // One caller
  // ------------------------------------------------------------------

  lemma InterpretIgnoresHistory(sys: System, loc: Loc, a: Outcome, b: Outcome, t: Time, u: Time)
    requires BareOutcome(a) == BareOutcome(b)
    ensures Bare(Interpret(sys, loc, a, t)) == Bare(Interpret(sys, loc, b, u))
  {
    hide Classify;
  }

  /** From the join to the answer, for a caller whose key has no flight. */
  lemma Misses(sys: System, s: State, c: nat, m: TimedMap.Items, load: Load, w: Scene) returns (s': State)
    requires c < |s.callers| && s.callers[c].pc.Joining? && s.callers[c].loc.cache == 0
    requires NameOf(s.callers[c].loc) !in s.inflight
    requires Holds(s, m) && s.now <= w.recheckAt && Playable(w)
    ensures Reaches(sys, ANY, s, s') && Apart(s, s', c, s.callers[c].loc)
    ensures
      var a := Missed(sys, s.callers[c].loc.key, s.callers[c].ttl, m, load, w);
      && |s'.callers| == |s.callers| && s'.callers[c].pc.Answered? && Bare(s'.callers[c].pc.reply) == a.reply
      && Holds(s', a.contents) && a.refresh == None
      && |s'.flights| == |s.flights| + 1 && s'.flights[|s.flights|].loads == (if a.asked then 1 else 0)
  {
    hide FlightRun, Interpret, Reaches, NameOf, SaneClock, Apart, ElsewhereSame;
    var caller := s.callers[c];
    var f, ch := |s.flights|, |s.channels|;
    Steps(sys, ANY, s, Join(c));
    var s1 := Step(sys, s, Join(c)).value;
    ApartJoin(s, c);
    var r := FlightRun(sys, s1.flights[f], m, load, w);
    FlightRunIgnoresHistory(sys, s1.flights[f], NewFlight(caller.loc.key, caller.ttl, ZERO_TIME), m, load, w);
    var s2 := FlightFlies(sys, s1, f, m, load, w);
    Then(sys, ANY, s, s1, s2);
    ApartFlight(s, s1, s2, c, caller.loc, f);
    s' := HandOver(sys, ANY, s, s2, f, c, ch);
    ApartHandOver(s, s2, s', c, caller.loc, f, ch);
    InterpretIgnoresHistory(sys, caller.loc, s2.flights[f].phase.out, r.out, s2.now, w.setAt);
  }

  /** The two looks lead the same way. */
  ghost predicate SameLook(x: Pc, y: Pc) {
    match y
    case Answered(reply, _) => x.Answered? && Bare(x.reply) == Bare(reply)
    case Refreshing(v, of, _, _) => x.Refreshing? && x.v == v && x.of == of
    case _ => x == y && (x.SelfHealing? || x.Joining?)
  }

  lemma LookIgnoresHistory(sys: System, now: Time, a: Option<Entry>, b: Option<Entry>, c: Caller, d: Caller, w: real)
    requires SameRead(a, b) && c.loc == d.loc
    ensures SameLook(FirstLook(sys, now, a, c, w), FirstLook(sys, now, b, d, w))
  {
    hide Classify;
  }

  lemma Looks(sys: System, s: State, c: nat, m: TimedMap.Items, w: Scene) returns (s': State)
    requires c < |s.callers| && s.callers[c].pc.Reading? && s.callers[c].loc.cache == 0
    requires Holds(s, m) && s.now <= w.readAt && Playable(w)
    ensures Reaches(sys, ANY, s, s') && Apart(s, s', c, s.callers[c].loc)
    ensures s'.now == w.readAt && s'.inflight == s.inflight && s'.flights == s.flights
    ensures |s'.callers| == |s.callers| && s'.callers[c] == s.callers[c].(pc := s'.callers[c].pc)
    ensures
      var key := s.callers[c].loc.key;
      && Holds(s', AfterRead(m, key, w.readAt, w.readFails))
      && SameLook(s'.callers[c].pc,
                  FirstLook(sys, w.readAt, EntryAt(m, key, w.readAt, w.readFails),
                            Caller(Loc(0, key), s.callers[c].ttl, false, Reading), w.refreshDraw))
  {
    hide FirstLook, Reaches, AfterRead, EntryAt, Read, SameLook;
    var caller := s.callers[c];
    var key := caller.loc.key;
    var s1 := s.(now := w.readAt);
    Steps(sys, ANY, s, Tick(w.readAt));
    ReadsAgree(s1, m, key, w.readFails);
    LookIgnoresHistory(sys, w.readAt, Read(s1, caller.loc, !w.readFails), EntryAt(m, key, w.readAt, w.readFails),
                       caller, Caller(Loc(0, key), caller.ttl, false, Reading), w.refreshDraw);
    Steps(sys, ANY, s1, Act(c, FirstRead(!w.readFails, w.refreshDraw)));
    var s2 := SetPc(s1, c, FirstLook(sys, w.readAt, Read(s1, caller.loc, !w.readFails), caller, w.refreshDraw));
    assert Step(sys, s1, Act(c, FirstRead(!w.readFails, w.refreshDraw))) == Some(s2);
    Then(sys, ANY, s, s1, s2);
    Sweeps(sys, s2, m, key, w.readFails);
    s' := Evicted(s2, key, w.readFails);
    Then(sys, ANY, s, s2, s');
  }

  /** Whatever else is going on, a caller whose key has no flight can go through the protocol by itself, and
      then it is answered, the store is left and the loader is called as the sequential call says. A refresh
      that it starts is registered and still has everything to do. All that is not this caller's stays as it was. */
  lemma SequentialIsARun(sys: System, s: State, c: nat, m: TimedMap.Items, load: Load, w: Scene) returns (s': State)
    requires c < |s.callers| && s.callers[c].pc.Reading? && s.callers[c].loc.cache == 0
    requires NameOf(s.callers[c].loc) !in s.inflight
    requires Holds(s, m) && s.now <= w.readAt && Playable(w)
    ensures Reaches(sys, ANY, s, s') && Apart(s, s', c, s.callers[c].loc)
    ensures
      var a := CallRun(sys, s.callers[c].loc.key, s.callers[c].ttl, m, load, w);
      && |s'.callers| == |s.callers| && s'.callers[c].pc.Answered? && Bare(s'.callers[c].pc.reply) == a.reply
      && Holds(s', a.contents)
      && (a.asked ==> |s'.flights| == |s.flights| + 1 && s'.flights[|s.flights|].loads == 1)
      && (!a.asked && |s'.flights| > |s.flights| ==>
            |s'.flights| == |s.flights| + 1 && s'.flights[|s.flights|].loads == 0)
      && (a.refresh.Some? ==>
            && |s'.flights| == |s.flights| + 1
            && s'.inflight == s.inflight[NameOf(s.callers[c].loc) := |s.flights|]
            && var fl := s'.flights[|s.flights|];
            && fl.refresh && fl.refreshOf == a.refresh.value && fl.phase == Starting && fl.ttl == s.callers[c].ttl)
  {
    hide Missed, FirstLook, Reaches, NameOf, AfterRead, EntryAt, SaneClock, Holds, Apart;
    var caller := s.callers[c];
    var key := caller.loc.key;
    var m1 := AfterRead(m, key, w.readAt, w.readFails);
    var s1 := Looks(sys, s, c, m, w);
    var pc := s1.callers[c].pc;
    s' := s1;
    if pc.Refreshing? {
      s' := Refreshes(sys, s1, c);
      SameStore(s1, s', m1);
      Then(sys, ANY, s, s1, s');
      ApartTrans(s, s1, s', c, caller.loc);
    } else if pc.SelfHealing? {
      var m2 := if w.healFails then m1 else m1 - {key};
      var s2 := Heals(sys, s1, c, m1, w.healFails);
      Then(sys, ANY, s, s1, s2);
      ApartTrans(s, s1, s2, c, caller.loc);
      s' := Misses(sys, s2, c, m2, load, w);
      Then(sys, ANY, s, s2, s');
      ApartTrans(s, s2, s', c, caller.loc);
    } else if pc.Joining? {
      s' := Misses(sys, s1, c, m1, load, w);
      Then(sys, ANY, s, s1, s');
      ApartTrans(s, s1, s', c, caller.loc);
    }
  }

  lemma Heals(sys: System, s: State, c: nat, m: TimedMap.Items, fails: bool) returns (s': State)
    requires c < |s.callers| && s.callers[c].pc.SelfHealing? && s.callers[c].loc.cache == 0 && Holds(s, m)
    ensures Reaches(sys, ANY, s, s') && Holds(s', if fails then m else m - {s.callers[c].loc.key})
    ensures s'.now == s.now && s'.inflight == s.inflight && s'.flights == s.flights
    ensures s'.callers == s.callers[c := s.callers[c].(pc := Joining)] && Apart(s, s', c, s.callers[c].loc)
  {
    hide NameOf;
    Steps(sys, ANY, s, Act(c, Delete(!fails)));
    s' := Step(sys, s, Act(c, Delete(!fails))).value;
  }

  lemma Refreshes(sys: System, s: State, c: nat) returns (s': State)
    requires c < |s.callers| && s.callers[c].pc.Refreshing? && NameOf(s.callers[c].loc) !in s.inflight
    ensures Reaches(sys, ANY, s, s') && s'.store == s.store && Apart(s, s', c, s.callers[c].loc)
    ensures
      var pc := s.callers[c].pc;
      s'.callers == s.callers[c := s.callers[c].(pc := Answered(Hit(pc.v, pc.readAt, pc.servedAt), None))]
    ensures |s'.flights| == |s.flights| + 1
    ensures s'.inflight == s.inflight[NameOf(s.callers[c].loc) := |s.flights|]
    ensures
      var fl := s'.flights[|s.flights|];
      && fl.refresh && fl.refreshOf == s.callers[c].pc.of && fl.phase == Starting && fl.loads == 0
      && fl.ttl == s.callers[c].ttl
  {
    hide NameOf;
    Steps(sys, ANY, s, StartRefresh(c));
    s' := Step(sys, s, StartRefresh(c)).value;
  }
}
