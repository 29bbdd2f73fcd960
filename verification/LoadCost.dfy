/** cache.go and batch.go: the load cost that an entry carries is the time that its own loader took. */
module LoadCost {
  import opened Base
  import opened Codecs
  import opened Stored
  import opened Protocol

  // ------------------------------------------------------------------
  // Flights
  // ------------------------------------------------------------------

  /** How much a flight has still before it. */
  function ToGo(phase: Phase): nat {
    match phase
    case Starting => 9
    case Healing => 8
    case Ready => 7
    case Loading(_) => 6
    case Loaded(_, _, _) => 5
    case AbsenceLoaded(_) => 5
    case Packing(_, _, _) => 4
    case Finished(_) => 3
    case Forgotten(_) => 2
    case Delivering(_) => 1
  }

  lemma BodyAdvances(sys: System, now: Time, read: Option<Entry>, fl: Flight, step: BodyStep)
    requires Body(sys, now, read, fl, step).Some?
    ensures
      var fl' := Body(sys, now, read, fl, step).value.flight;
      fl'.loc == fl.loc && fl'.ttl == fl.ttl && ToGo(fl'.phase) < ToGo(fl.phase)
  {
    hide PackForStore, NewItem, Classify;
  }

  /** A step leaves a flight where it is, or takes it further. */
  lemma FlightAdvances(sys: System, s: State, a: Action, f: nat)
    requires Step(sys, s, a).Some? && f < |s.flights|
    ensures f < |Step(sys, s, a).value.flights|
    ensures
      var fl, fl' := s.flights[f], Step(sys, s, a).value.flights[f];
      && fl'.loc == fl.loc && fl'.ttl == fl.ttl
      && (fl'.phase == fl.phase || ToGo(fl'.phase) < ToGo(fl.phase))
  {
    hide NameOf, Interpret, Body, Batching, Classify, Asking;
    if a.Fly? {
      var ok := if a.step.Recheck? then a.step.ok else false;
      BodyAdvances(sys, s.now, Read(s, s.flights[a.f].loc, ok), s.flights[a.f], a.step);
    }
  }

  lemma {:induction false} RunAdvances(sys: System, s: State, acts: seq<Action>, f: nat)
    requires Run(sys, s, acts).Some? && f < |s.flights|
    ensures f < |Run(sys, s, acts).value.flights|
    ensures
      var fl, fl' := s.flights[f], Run(sys, s, acts).value.flights[f];
      && fl'.loc == fl.loc && fl'.ttl == fl.ttl
      && (fl'.phase == fl.phase || ToGo(fl'.phase) < ToGo(fl.phase))
    decreases |acts|
  {
    hide Step, ToGo;
    if |acts| > 0 {
      FlightAdvances(sys, s, acts[0], f);
      RunAdvances(sys, Step(sys, s, acts[0]).value, acts[1..], f);
    }
  }

  /** A time that is not negative, as a Duration, of which the longest is some 292 years. */
  function Cut(took: int): Duration
    requires 0 <= took
  {
    if took <= 9_223_372_036_854_775_807 then took else 9_223_372_036_854_775_807
  }

  /** The bytes decode to the value, and say what its load took, if they say anything. */
  ghost predicate Costs(sys: System, loc: Loc, data: Bytes, v: Value, took: int) {
    var cfg, view := sys.cfg(loc.cache), sys.Look(loc, data);
    && view.Readable? && view.v == v
    && (cfg.staleTTL > 0 || cfg.earlyRefreshBeta > 0.0 ==> CutToMs(view.env.delta, took))
  }

  /** A flight that has loaded the value in this time, before its Set. */
  ghost predicate Carries(sys: System, fl: Flight, v: Value, took: Duration) {
    match fl.phase
    case Loaded(x, _, loadDur) => x == v && loadDur == took
    case Packing(data, _, _) => Costs(sys, fl.loc, data, v, took)
    case _ => fl.phase.HasOutcome()
  }

  lemma BodyCarries(sys: System, now: Time, read: Option<Entry>, fl: Flight, step: BodyStep, v: Value, took: Duration)
    requires sys.Valid() && Body(sys, now, read, fl, step).Some? && Carries(sys, fl, v, took)
    ensures Carries(sys, Body(sys, now, read, fl, step).value.flight, v, took)
  {
    hide PackForStore, NewItem, Classify, CutToMs;
    if step.Pack? && sys.codec(fl.loc.cache).marshal(v).Some? {
      PackedCarriesLoadCost(sys.cfg(fl.loc.cache), sys.codec(fl.loc.cache), v, fl.ttl, took, now, step.u);
    }
  }

  lemma StepCarries(sys: System, s: State, a: Action, f: nat, v: Value, took: Duration)
    requires sys.Valid() && Step(sys, s, a).Some? && f < |s.flights| && Carries(sys, s.flights[f], v, took)
    ensures f < |Step(sys, s, a).value.flights| && Carries(sys, Step(sys, s, a).value.flights[f], v, took)
  {
    hide NameOf, Interpret, Body, Batching, Classify, Asking, Costs;
    if a.Fly? && a.f == f {
      var ok := if a.step.Recheck? then a.step.ok else false;
      BodyCarries(sys, s.now, Read(s, s.flights[f].loc, ok), s.flights[f], a.step, v, took);
    }
  }

  lemma {:induction false} RunCarries(sys: System, s: State, acts: seq<Action>, f: nat, v: Value, took: Duration)
    requires sys.Valid() && Run(sys, s, acts).Some? && f < |s.flights| && Carries(sys, s.flights[f], v, took)
    ensures f < |Run(sys, s, acts).value.flights| && Carries(sys, Run(sys, s, acts).value.flights[f], v, took)
    decreases |acts|
  {
    hide Step, Carries;
    if |acts| > 0 {
      StepCarries(sys, s, acts[0], f, v, took);
      RunCarries(sys, Step(sys, s, acts[0]).value, acts[1..], f, v, took);
    }
  }

  /** A loader starts and, after any steps of others, returns with the value. */
  ghost predicate FlightLoads(sys: System, s: State, f: nat, during: seq<Action>, at: Time, v: Value, took: int) {
    var started := Step(sys, s, Fly(f, LoaderStart));
    && started.Some? && f < |s.flights| && Run(sys, started.value, during).Some?
    && var returning := Run(sys, started.value, during).value;
    && Step(sys, returning, Fly(f, LoaderReturn(Answers, at))).Some?
    && sys.source(s.flights[f].loc, at) == Found(v)
    && took == returning.now - s.now
  }

  ghost function AfterLoad(sys: System, s: State, f: nat, during: seq<Action>, at: Time, v: Value, took: int): State
    requires FlightLoads(sys, s, f, during, at, v, took)
  {
    Step(sys, Run(sys, Step(sys, s, Fly(f, LoaderStart)).value, during).value, Fly(f, LoaderReturn(Answers, at))).value
  }

  lemma LoadIsTimed(sys: System, s: State, f: nat, during: seq<Action>, at: Time, v: Value, took: int)
    requires FlightLoads(sys, s, f, during, at, v, took) && 0 <= took
    ensures
      var loaded := AfterLoad(sys, s, f, during, at, v, took);
      && f < |loaded.flights| && loaded.flights[f].loc == s.flights[f].loc
      && loaded.flights[f].phase == Phase.Loaded(v, at, Cut(took))
  {
    hide Run, Interpret, Classify;
    var started := Step(sys, s, Fly(f, LoaderStart)).value;
    RunAdvances(sys, started, during, f);
  }

  /** In any run, whatever happens in between: the entry that a flight stores decodes to what its loader returned,
      and carries the time from the start of that loader to its return, cut to whole milliseconds. */
  lemma FlightStoresItsLoadTime(sys: System, s: State, f: nat, during: seq<Action>, at: Time, v: Value, took: int,
                                after: seq<Action>, w: real)
    requires sys.Valid() && FlightLoads(sys, s, f, during, at, v, took) && 0 <= took
    requires Run(sys, AfterLoad(sys, s, f, during, at, v, took), after).Some?
    requires Step(sys, Run(sys, AfterLoad(sys, s, f, during, at, v, took), after).value, Fly(f, Save(true, w))).Some?
    ensures
      var saving := Run(sys, AfterLoad(sys, s, f, during, at, v, took), after).value;
      var saved := Step(sys, saving, Fly(f, Save(true, w))).value;
      var loc := s.flights[f].loc;
      loc in saved.store && Costs(sys, loc, saved.store[loc].item.val, v, Cut(took))
  {
    hide Run, Interpret, Classify, Costs, FlightLoads, AfterLoad, NewItem, Batching, Asking;
    var loaded := AfterLoad(sys, s, f, during, at, v, took);
    LoadIsTimed(sys, s, f, during, at, v, took);
    RunCarries(sys, loaded, after, f, v, Cut(took));
    RunAdvances(sys, loaded, after, f);
    SavePutsItsBytes(sys, Run(sys, loaded, after).value, f, w);
  }

  lemma SavePutsItsBytes(sys: System, s: State, f: nat, w: real)
    requires Step(sys, s, Fly(f, Save(true, w))).Some? && f < |s.flights| && s.flights[f].phase.Packing?
    ensures
      var store, loc := Step(sys, s, Fly(f, Save(true, w))).value.store, s.flights[f].loc;
      loc in store && store[loc].item.val == s.flights[f].phase.data
  {
    hide Interpret, Classify, Batching, Asking;
  }

  // ------------------------------------------------------------------
  // Lanes of batch calls
  // ------------------------------------------------------------------

  function LaneToGo(phase: LanePhase): nat {
    match phase
    case LaneReading => 7
    case LaneHealing => 6
    case LaneMissing => 5
    case LaneLoading(_) => 4
    case LaneLoaded(_, _, _) => 3
    case LaneOmitted(_) => 3
    case LanePacked(_, _, _) => 2
    case LaneDone(_, _, _) => 1
    case LaneFailed => 0
  }

  lemma BatchingAdvances(sys: System, now: Time, read: Option<Entry>, ln: Lane, total: Option<Duration>, step: LaneStep)
    requires Batching(sys, now, read, ln, total, step).Some?
    ensures
      var ln' := Batching(sys, now, read, ln, total, step).value.lane;
      ln'.loc == ln.loc && ln'.ttl == ln.ttl && LaneToGo(ln'.phase) < LaneToGo(ln.phase)
  {
    hide PackForStore, NewItem, Classify;
  }

  lemma LaneAdvances(sys: System, s: State, a: Action, l: nat)
    requires Step(sys, s, a).Some? && l < |s.lanes|
    ensures l < |Step(sys, s, a).value.lanes|
    ensures
      var ln, ln' := s.lanes[l], Step(sys, s, a).value.lanes[l];
      && ln'.loc == ln.loc && ln'.ttl == ln.ttl
      && (ln'.phase == ln.phase || LaneToGo(ln'.phase) < LaneToGo(ln.phase))
  {
    hide NameOf, Interpret, Body, Batching, Classify, Asking, SharedTotal;
    if a.Batch? {
      var ln := s.lanes[a.l];
      var ok := if a.lane.LaneRead? then a.lane.ok else false;
      BatchingAdvances(sys, s.now, Read(s, ln.loc, ok), ln, SharedTotal(s, ln, a.lane), a.lane);
    }
  }

  lemma {:induction false} LaneRunAdvances(sys: System, s: State, acts: seq<Action>, l: nat)
    requires Run(sys, s, acts).Some? && l < |s.lanes|
    ensures l < |Run(sys, s, acts).value.lanes|
    ensures
      var ln, ln' := s.lanes[l], Run(sys, s, acts).value.lanes[l];
      && ln'.loc == ln.loc && ln'.ttl == ln.ttl
      && (ln'.phase == ln.phase || LaneToGo(ln'.phase) < LaneToGo(ln.phase))
    decreases |acts|
  {
    hide Step, LaneToGo;
    if |acts| > 0 {
      LaneAdvances(sys, s, acts[0], l);
      LaneRunAdvances(sys, Step(sys, s, acts[0]).value, acts[1..], l);
    }
  }

  ghost predicate LaneCarries(sys: System, ln: Lane, v: Value, took: Duration) {
    match ln.phase
    case LaneLoaded(x, _, loadDur) => x == v && loadDur == took
    case LanePacked(_, data, _) => Costs(sys, ln.loc, data, v, took)
    case LaneDone(_, _, _) => true
    case LaneFailed => true
    case _ => false
  }

  lemma BatchingCarries(sys: System, now: Time, read: Option<Entry>, ln: Lane, total: Option<Duration>, step: LaneStep,
                        v: Value, took: Duration)
    requires sys.Valid() && Batching(sys, now, read, ln, total, step).Some? && LaneCarries(sys, ln, v, took)
    ensures LaneCarries(sys, Batching(sys, now, read, ln, total, step).value.lane, v, took)
  {
    hide PackForStore, NewItem, Classify, CutToMs;
    if step.LanePack? && sys.codec(ln.loc.cache).marshal(v).Some? {
      PackedCarriesLoadCost(sys.cfg(ln.loc.cache), sys.codec(ln.loc.cache), v, ln.ttl, took, now, step.u);
    }
  }

  lemma LaneStepCarries(sys: System, s: State, a: Action, l: nat, v: Value, took: Duration)
    requires sys.Valid() && Step(sys, s, a).Some? && l < |s.lanes| && LaneCarries(sys, s.lanes[l], v, took)
    ensures l < |Step(sys, s, a).value.lanes| && LaneCarries(sys, Step(sys, s, a).value.lanes[l], v, took)
  {
    hide NameOf, Interpret, Body, Batching, Classify, Asking, Costs, SharedTotal;
    if a.Batch? && a.l == l {
      var ln := s.lanes[l];
      var ok := if a.lane.LaneRead? then a.lane.ok else false;
      BatchingCarries(sys, s.now, Read(s, ln.loc, ok), ln, SharedTotal(s, ln, a.lane), a.lane, v, took);
    }
  }

  lemma {:induction false} LaneRunCarries(sys: System, s: State, acts: seq<Action>, l: nat, v: Value, took: Duration)
    requires sys.Valid() && Run(sys, s, acts).Some? && l < |s.lanes| && LaneCarries(sys, s.lanes[l], v, took)
    ensures l < |Run(sys, s, acts).value.lanes| && LaneCarries(sys, Run(sys, s, acts).value.lanes[l], v, took)
    decreases |acts|
  {
    hide Step, LaneCarries;
    if |acts| > 0 {
      LaneStepCarries(sys, s, acts[0], l, v, took);
      LaneRunCarries(sys, Step(sys, s, acts[0]).value, acts[1..], l, v, took);
    }
  }

  /** A batch loader starts and, after any steps of others, returns with a value for the lane's key. */
  ghost predicate LaneLoads(sys: System, s: State, l: nat, during: seq<Action>, at: Time, v: Value, took: int) {
    var started := Step(sys, s, Batch(l, LaneLoaderStart));
    && started.Some? && l < |s.lanes| && Run(sys, started.value, during).Some?
    && var returning := Run(sys, started.value, during).value;
    && Step(sys, returning, Batch(l, LaneLoaderReturn(false, at))).Some?
    && sys.source(s.lanes[l].loc, at) == Found(v)
    && took == returning.now - s.now
  }

  ghost function AfterLaneLoad(sys: System, s: State, l: nat, during: seq<Action>, at: Time, v: Value, took: int): State
    requires LaneLoads(sys, s, l, during, at, v, took)
  {
    var started := Step(sys, s, Batch(l, LaneLoaderStart)).value;
    Step(sys, Run(sys, started, during).value, Batch(l, LaneLoaderReturn(false, at))).value
  }

  lemma LaneLoadIsTimed(sys: System, s: State, l: nat, during: seq<Action>, at: Time, v: Value, took: int)
    requires LaneLoads(sys, s, l, during, at, v, took) && 0 <= took
    ensures
      var loaded := AfterLaneLoad(sys, s, l, during, at, v, took);
      && l < |loaded.lanes| && loaded.lanes[l].loc == s.lanes[l].loc
      && loaded.lanes[l].phase == LaneLoaded(v, at, Cut(took))
  {
    hide Run, Classify, PackForStore, NewItem;
    var started := Step(sys, s, Batch(l, LaneLoaderStart)).value;
    LaneRunAdvances(sys, started, during, l);
  }

  /** The same for the entry that a batch call stores for a key. */
  lemma LaneStoresItsLoadTime(sys: System, s: State, l: nat, during: seq<Action>, at: Time, v: Value, took: int,
                              after: seq<Action>, w: real, src: nat)
    requires sys.Valid() && LaneLoads(sys, s, l, during, at, v, took) && 0 <= took
    requires Run(sys, AfterLaneLoad(sys, s, l, during, at, v, took), after).Some?
    requires Step(sys, Run(sys, AfterLaneLoad(sys, s, l, during, at, v, took), after).value,
                  Batch(l, LaneSave(true, w, src))).Some?
    ensures
      var saving := Run(sys, AfterLaneLoad(sys, s, l, during, at, v, took), after).value;
      var saved := Step(sys, saving, Batch(l, LaneSave(true, w, src))).value;
      var loc := s.lanes[l].loc;
      loc in saved.store && Costs(sys, loc, saved.store[loc].item.val, v, Cut(took))
  {
    hide Run, Classify, Costs, LaneLoads, AfterLaneLoad, NewItem, PackForStore;
    var loaded := AfterLaneLoad(sys, s, l, during, at, v, took);
    LaneLoadIsTimed(sys, s, l, during, at, v, took);
    LaneRunCarries(sys, loaded, after, l, v, Cut(took));
    LaneRunAdvances(sys, loaded, after, l);
    LaneSavePutsItsBytes(sys, Run(sys, loaded, after).value, l, w, src);
  }

  lemma LaneSavePutsItsBytes(sys: System, s: State, l: nat, w: real, src: nat)
    requires Step(sys, s, Batch(l, LaneSave(true, w, src))).Some? && l < |s.lanes| && s.lanes[l].phase.LanePacked?
    ensures
      var store, loc := Step(sys, s, Batch(l, LaneSave(true, w, src))).value.store, s.lanes[l].loc;
      loc in store && store[loc].item.val == s.lanes[l].phase.data
  {
    hide Classify, PackForStore;
  }
}
