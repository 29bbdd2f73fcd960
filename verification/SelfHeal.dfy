/** cache.go: what the self-healing Delete of a flight can remove. */
module SelfHeal {
  import opened Base
  import opened Codecs
  import opened Config
  import opened Envelope
  import opened Stored
  import opened Protocol
  import opened SingleFlight
  import opened Provenance
  import opened Refresh
  import opened Runs

  /** Nothing decodable is stored under the key. */
  ghost predicate Unreadable(sys: System, s: State, loc: Loc) {
    loc in s.store ==> sys.Look(loc, s.store[loc].item.val).Undecodable?
  }

  /** A batch call stores something under the key of the flight. */
  ghost predicate Spoils(s: State, f: nat, a: Action)
    requires f < |s.flights|
  {
    a.Batch? && a.lane.LaneSave? && a.lane.ok && a.l < |s.lanes| && s.lanes[a.l].loc == s.flights[f].loc
  }

  /** The entry under the key of the flight is removed, or overwritten with undecodable bytes, by someone else. */
  ghost predicate Clears(s: State, f: nat, a: Action)
    requires f < |s.flights|
  {
    var loc := s.flights[f].loc;
    match a
    case Evict(l) => l == loc
    case Foreign(l, _) => l == loc
    case Act(c, ask) => ask.Delete? && ask.ok && c < |s.callers| && s.callers[c].loc == loc
    case Batch(l, lane) => lane.LaneDelete? && lane.ok && l < |s.lanes| && s.lanes[l].loc == loc
    case _ => false
  }

  // ------------------------------------------------------------------
  // While a flight is about to delete
  // ------------------------------------------------------------------

  lemma OnlyActiveFlightsStore(sys: System, now: Time, read: Option<Entry>, fl: Flight, step: BodyStep)
    requires Body(sys, now, read, fl, step).Some?
    ensures
      var e := Body(sys, now, read, fl, step).value;
      && fl.phase.Active() && e.flight.loc == fl.loc
      && (e.op.Put? ==> step.Save? && !e.flight.phase.Healing?)
      && (e.flight.phase.Healing? ==> e.op.Keep? && fl.phase.Starting?)
      && !e.flight.phase.Starting?
      && (step.Save? ==> e.flight.wrote)
      && (fl.wrote ==> e.flight.wrote)
  {
    hide NewItem, PackForStore, Classify;
  }

  /** What a batch call stores can be decoded. */
  lemma LaneStoresReadable(sys: System, now: Time, ln: Lane, total: Option<Duration>, step: LaneStep)
    requires sys.Valid() && LaneBacked(sys, now, ln) && Batching(sys, now, None, ln, total, step).Some?
    requires step.LaneSave?
    ensures
      var e := Batching(sys, now, None, ln, total, step).value;
      && (e.op.Put? <==> step.ok)
      && (e.op.Put? ==> !sys.Look(ln.loc, e.op.item.val).Undecodable?)
      && !e.op.Drop?
  {
    hide HasEnvelope, Parse, IsNegative;
    if ln.phase.LaneOmitted? {
      MarkerIsBacked(sys, ln.loc, ln.phase.readAt);
    }
  }

  lemma LaneOps(sys: System, now: Time, read: Option<Entry>, ln: Lane, total: Option<Duration>, step: LaneStep)
    requires Batching(sys, now, read, ln, total, step).Some? && !step.LaneSave?
    ensures
      var e := Batching(sys, now, read, ln, total, step).value;
      !e.op.Put? && (e.op.Drop? <==> step.LaneDelete? && step.ok)
  {
    hide PackForStore, Classify;
  }

  /** The step leaves a decodable entry under the key of a flight that is about to delete. */
  ghost predicate Decodes(sys: System, s: State, f: nat, a: Action)
    requires f < |s.flights|
  {
    Spoils(s, f, a) || (!Unreadable(sys, s, s.flights[f].loc) && !Clears(s, f, a))
  }

  lemma BatchUnderHeal(sys: System, s: State, f: nat, l: nat, lane: LaneStep)
    requires sys.Valid() && Sound(sys, s) && f < |s.flights| && BatchStep(sys, s, l, lane).Some?
    ensures !Unreadable(sys, BatchStep(sys, s, l, lane).value, s.flights[f].loc) <==> Decodes(sys, s, f, Batch(l, lane))
    ensures BatchStep(sys, s, l, lane).value.flights == s.flights
  {
    hide Batching, Classify, SharedTotal;
    var ln := s.lanes[l];
    assert LaneBacked(sys, s.now, ln);
    var ok := if lane.LaneRead? then lane.ok else false;
    if lane.LaneSave? {
      LaneStoresReadable(sys, s.now, ln, SharedTotal(s, ln, lane), lane);
    } else {
      LaneOps(sys, s.now, Read(s, ln.loc, ok), ln, SharedTotal(s, ln, lane), lane);
    }
  }

  lemma FlyUnderHeal(sys: System, s: State, f: nat, g: nat, step: BodyStep)
    requires Inv(sys, s) && f < |s.flights| && s.flights[f].phase.Healing? && FlyStep(sys, s, g, step).Some?
    requires FlyStep(sys, s, g, step).value.flights[f].phase.Healing?
    ensures Unreadable(sys, FlyStep(sys, s, g, step).value, s.flights[f].loc) <==> Unreadable(sys, s, s.flights[f].loc)
  {
    hide Body, Classify, NameOf;
    var fl := s.flights[g];
    var ok := if step.Recheck? then step.ok else false;
    OnlyActiveFlightsStore(sys, s.now, Read(s, fl.loc, ok), fl, step);
  }

  lemma OthersUnderHeal(sys: System, s: State, f: nat, a: Action)
    requires f < |s.flights| && Step(sys, s, a).Some? && !a.Fly? && !a.Batch?
    ensures !Unreadable(sys, Step(sys, s, a).value, s.flights[f].loc) <==> Decodes(sys, s, f, a)
    ensures |s.flights| <= |Step(sys, s, a).value.flights| && Step(sys, s, a).value.flights[f].loc == s.flights[f].loc
  {
    hide NameOf, Classify, Interpret, FirstLook;
  }

  /** While a flight is about to delete, a step leaves a decodable entry before it exactly if it is the store of a
      batch call for the same key, or an entry that decodes was there already and the step does not clear it. */
  lemma StepUnderHeal(sys: System, s: State, f: nat, a: Action)
    requires sys.Valid() && Inv(sys, s) && Sound(sys, s)
    requires f < |s.flights| && s.flights[f].phase.Healing? && Step(sys, s, a).Some?
    requires f < |Step(sys, s, a).value.flights| && Step(sys, s, a).value.flights[f].phase.Healing?
    ensures !Unreadable(sys, Step(sys, s, a).value, s.flights[f].loc) <==> Decodes(sys, s, f, a)
    ensures Step(sys, s, a).value.flights[f].loc == s.flights[f].loc
  {
    hide Unreadable, FlyStep, BatchStep;
    match a
    case Fly(g, step) =>
      FlyUnderHeal(sys, s, f, g, step);
      FlightsStayThemselves(sys, s, f, a);
    case Batch(l, lane) => BatchUnderHeal(sys, s, f, l, lane);
    case _ => OthersUnderHeal(sys, s, f, a);
  }

  /** How far a flight is from having re-checked and healed. No step takes it back. */
  function Ahead(phase: Phase): nat {
    match phase
    case Starting => 2
    case Healing => 1
    case _ => 0
  }

  lemma FlightsStayThemselves(sys: System, s: State, f: nat, a: Action)
    requires f < |s.flights| && Step(sys, s, a).Some?
    ensures f < |Step(sys, s, a).value.flights|
    ensures
      var fl := Step(sys, s, a).value.flights[f];
      && fl.loc == s.flights[f].loc && Ahead(fl.phase) <= Ahead(s.flights[f].phase)
      && (s.flights[f].wrote ==> fl.wrote)
  {
    hide NameOf, Classify, Interpret, Asking, Batching, Body;
    if a.Fly? {
      var fl := s.flights[a.f];
      var ok := if a.step.Recheck? then a.step.ok else false;
      OnlyActiveFlightsStore(sys, s.now, Read(s, fl.loc, ok), fl, a.step);
    }
  }

  lemma {:induction false} FlightsStay(sys: System, s: State, acts: seq<Action>, f: nat)
    requires Run(sys, s, acts).Some? && f < |s.flights|
    ensures f < |Run(sys, s, acts).value.flights|
    ensures
      var fl := Run(sys, s, acts).value.flights[f];
      && fl.loc == s.flights[f].loc && Ahead(fl.phase) <= Ahead(s.flights[f].phase)
      && (s.flights[f].wrote ==> fl.wrote)
    decreases |acts|
  {
    hide Step, Ahead;
    if |acts| > 0 {
      FlightsStayThemselves(sys, s, f, acts[0]);
      FlightsStay(sys, Step(sys, s, acts[0]).value, acts[1..], f);
    }
  }

  // ------------------------------------------------------------------
  // When the Delete is harmful
  // ------------------------------------------------------------------

  /** The state before step i of a run. */
  ghost function Before(sys: System, s: State, acts: seq<Action>, i: nat): Option<State> {
    if i <= |acts| then Run(sys, s, acts[..i]) else None
  }

  /** Some step of the run stores for the flight's key from a batch call, and no later one clears it. */
  ghost predicate SpoiledFor(sys: System, s: State, acts: seq<Action>, f: nat) {
    exists i :: 0 <= i < |acts| && SpoiledAt(sys, s, acts, f, i)
  }

  ghost predicate SpoiledAt(sys: System, s: State, acts: seq<Action>, f: nat, i: nat)
    requires i < |acts|
  {
    && Before(sys, s, acts, i).Some? && f < |Before(sys, s, acts, i).value.flights|
    && Spoils(Before(sys, s, acts, i).value, f, acts[i])
    && forall j :: i < j < |acts| ==> Uncleared(sys, s, acts, f, j)
  }

  ghost predicate Uncleared(sys: System, s: State, acts: seq<Action>, f: nat, j: nat)
    requires j < |acts|
  {
    && Before(sys, s, acts, j).Some? && f < |Before(sys, s, acts, j).value.flights|
    && !Clears(Before(sys, s, acts, j).value, f, acts[j])
  }

  lemma RunSplits(sys: System, s: State, acts: seq<Action>)
    requires |acts| > 0 && Run(sys, s, acts).Some?
    ensures
      var n := |acts| - 1;
      && Run(sys, s, acts[..n]).Some?
      && Step(sys, Run(sys, s, acts[..n]).value, acts[n]) == Run(sys, s, acts)
  {
    hide Step, Run;
    var n := |acts| - 1;
    assert acts == acts[..n] + [acts[n]];
    PrefixRuns(sys, s, acts[..n], [acts[n]]);
    RunConcat(sys, s, acts[..n], [acts[n]]);
    RunOne(sys, Run(sys, s, acts[..n]).value, acts[n]);
  }

  lemma {:induction false} PrefixRuns(sys: System, s: State, a: seq<Action>, b: seq<Action>)
    requires Run(sys, s, a + b).Some?
    ensures Run(sys, s, a).Some?
    decreases |a|
  {
    hide Step;
    if |a| > 0 {
      assert (a + b)[0] == a[0] && (a + b)[1..] == a[1..] + b;
      PrefixRuns(sys, Step(sys, s, a[0]).value, a[1..], b);
    }
  }

  lemma SameBefore(sys: System, s: State, acts: seq<Action>, i: nat)
    requires i < |acts|
    ensures Before(sys, s, acts, i) == Before(sys, s, acts[..|acts| - 1], i)
  {
    assert acts[..i] == acts[..|acts| - 1][..i];
  }

  lemma SpoiledByLast(sys: System, s: State, acts: seq<Action>, f: nat)
    requires |acts| > 0 && Run(sys, s, acts[..|acts| - 1]).Some?
    requires f < |Run(sys, s, acts[..|acts| - 1]).value.flights|
    ensures SpoiledAt(sys, s, acts, f, |acts| - 1)
            <==> Spoils(Run(sys, s, acts[..|acts| - 1]).value, f, acts[|acts| - 1])
  {
    hide Run, Spoils;
  }

  /** The last step decides, or else what was so before it. */
  lemma SpoiledSnoc(sys: System, s: State, acts: seq<Action>, f: nat)
    requires |acts| > 0 && Run(sys, s, acts).Some? && f < |s.flights|
    ensures
      var n := |acts| - 1;
      var t := Run(sys, s, acts[..n]);
      && t.Some? && f < |t.value.flights|
      && (SpoiledFor(sys, s, acts, f) <==>
            Spoils(t.value, f, acts[n]) || (SpoiledFor(sys, s, acts[..n], f) && !Clears(t.value, f, acts[n])))
  {
    hide Run, Spoils, Clears, SpoiledAt, Before;
    var n := |acts| - 1;
    RunSplits(sys, s, acts);
    FlightsStay(sys, s, acts[..n], f);
    var t := Run(sys, s, acts[..n]).value;
    SpoiledByLast(sys, s, acts, f);
    forall i | 0 <= i <= n ensures Before(sys, s, acts, i) == Before(sys, s, acts[..n], i) {
      SameBefore(sys, s, acts, i);
    }
    forall i | 0 <= i < n
      ensures SpoiledAt(sys, s, acts, f, i) <==> SpoiledAt(sys, s, acts[..n], f, i) && !Clears(t, f, acts[n])
    {
      SpoiledLonger(sys, s, acts, f, i);
    }
    if SpoiledFor(sys, s, acts[..n], f) && !Clears(t, f, acts[n]) {
      var i :| 0 <= i < n && SpoiledAt(sys, s, acts[..n], f, i);
      assert SpoiledAt(sys, s, acts, f, i);
    }
  }

  lemma SpoiledLonger(sys: System, s: State, acts: seq<Action>, f: nat, i: nat)
    requires i < |acts| - 1 && Run(sys, s, acts[..|acts| - 1]).Some?
    requires f < |Run(sys, s, acts[..|acts| - 1]).value.flights|
    requires forall j :: 0 <= j <= |acts| - 1 ==> Before(sys, s, acts, j) == Before(sys, s, acts[..|acts| - 1], j)
    ensures
      var n := |acts| - 1;
      SpoiledAt(sys, s, acts, f, i)
      <==> SpoiledAt(sys, s, acts[..n], f, i) && !Clears(Run(sys, s, acts[..n]).value, f, acts[n])
  {
    hide Run, Spoils, Clears, Before;
    var n := |acts| - 1;
    LastBefore(sys, s, acts);
    forall j | i < j < n ensures Uncleared(sys, s, acts, f, j) <==> Uncleared(sys, s, acts[..n], f, j) {
    }
    assert Uncleared(sys, s, acts, f, n) <==> !Clears(Run(sys, s, acts[..n]).value, f, acts[n]);
    if SpoiledAt(sys, s, acts[..n], f, i) && !Clears(Run(sys, s, acts[..n]).value, f, acts[n]) {
      forall j | i < j < |acts| ensures Uncleared(sys, s, acts, f, j) {
        assert j < n ==> Uncleared(sys, s, acts[..n], f, j);
      }
    }
    if SpoiledAt(sys, s, acts, f, i) {
      assert Uncleared(sys, s, acts, f, n);
      forall j | i < j < n ensures Uncleared(sys, s, acts[..n], f, j) {
        assert Uncleared(sys, s, acts, f, j);
      }
    }
  }

  lemma LastBefore(sys: System, s: State, acts: seq<Action>)
    requires |acts| > 0
    ensures Before(sys, s, acts, |acts| - 1) == Run(sys, s, acts[..|acts| - 1])
  {
  }

  /** As long as a flight is about to delete, having met nothing decodable, a decodable entry is before it exactly if a
      batch call has stored one and nothing has cleared it since. */
  lemma {:induction false} DecodesExactly(sys: System, s: State, f: nat, acts: seq<Action>)
    requires sys.Valid() && Inv(sys, s) && Sound(sys, s) && f < |s.flights| && s.flights[f].phase.Healing?
    requires Unreadable(sys, s, s.flights[f].loc) && Run(sys, s, acts).Some?
    requires f < |Run(sys, s, acts).value.flights| && Run(sys, s, acts).value.flights[f].phase.Healing?
    ensures !Unreadable(sys, Run(sys, s, acts).value, s.flights[f].loc) <==> SpoiledFor(sys, s, acts, f)
    decreases |acts|
  {
    hide Step, Spoils, Clears, Unreadable, SpoiledAt, Inv, Sound;
    if |acts| > 0 {
      var n := |acts| - 1;
      RunSplits(sys, s, acts);
      SpoiledSnoc(sys, s, acts, f);
      var t := Run(sys, s, acts[..n]).value;
      FlightsStay(sys, s, acts[..n], f);
      FlightsStayThemselves(sys, t, f, acts[n]);
      DecodesExactly(sys, s, f, acts[..n]);
      RunKeepsInv(sys, s, acts[..n]);
      RunIsSound(sys, s, acts[..n]);
      StepUnderHeal(sys, t, f, acts[n]);
    }
  }

  /** A flight comes to delete by a re-check that found something, and nothing decodable. */
  lemma HealingComes(sys: System, s: State, f: nat, a: Action)
    requires Step(sys, s, a).Some? && f < |Step(sys, s, a).value.flights|
    requires Step(sys, s, a).value.flights[f].phase.Healing?
    ensures f < |s.flights| && Step(sys, s, a).value.flights[f].loc == s.flights[f].loc
    ensures || s.flights[f].phase.Healing?
            || (a.Fly? && a.f == f && a.step.Recheck? && Unreadable(sys, Step(sys, s, a).value, s.flights[f].loc))
  {
    hide NameOf, Classify, Interpret, Asking, Batching, Body;
    if a.Fly? {
      var fl := s.flights[a.f];
      var ok := if a.step.Recheck? then a.step.ok else false;
      OnlyActiveFlightsStore(sys, s.now, Read(s, fl.loc, ok), fl, a.step);
      FlightsDeleteOnlyUndecodable(sys, s.now, Read(s, fl.loc, ok), fl, a.step);
    }
  }

  /** In every run: a flight that has just turned to delete, and deletes after any further steps, removes a
      decodable entry exactly if in between a batch call stored one for the same key and nothing cleared it. Calls
      for other keys and other caches, and stores before the re-check, do no harm. */
  lemma HealLosesExactly(sys: System, s0: State, acts: seq<Action>, f: nat, ok: bool, more: seq<Action>)
    requires sys.Valid() && Initial(s0) && Run(sys, s0, acts).Some?
    requires FlyStep(sys, Run(sys, s0, acts).value, f, Recheck(ok)).Some?
    requires FlyStep(sys, Run(sys, s0, acts).value, f, Recheck(ok)).value.flights[f].phase.Healing?
    requires Run(sys, FlyStep(sys, Run(sys, s0, acts).value, f, Recheck(ok)).value, more).Some?
    requires
      var turned := FlyStep(sys, Run(sys, s0, acts).value, f, Recheck(ok)).value;
      FlyStep(sys, Run(sys, turned, more).value, f, Heal(true)).Some?
    ensures
      var turned := FlyStep(sys, Run(sys, s0, acts).value, f, Recheck(ok)).value;
      var last := Run(sys, turned, more).value;
      var loc := turned.flights[f].loc;
      && loc !in FlyStep(sys, last, f, Heal(true)).value.store
      && (!Unreadable(sys, last, loc) <==> SpoiledFor(sys, turned, more, f))
  {
    hide Step, Run, FlyStep, SpoiledFor, Inv, Sound;
    var s := Run(sys, s0, acts).value;
    var turned := FlyStep(sys, s, f, Recheck(ok)).value;
    InitialInv(sys, s0);
    StartIsCareful(sys, s0);
    RunKeepsInv(sys, s0, acts);
    RunIsSound(sys, s0, acts);
    FlyIsAStep(sys, s, f, Recheck(ok));
    FlightsStayThemselves(sys, s, f, Fly(f, Recheck(ok)));
    StepKeepsInv(sys, s, Fly(f, Recheck(ok)));
    StepIsSound(sys, s, Fly(f, Recheck(ok)));
    HealingComes(sys, s, f, Fly(f, Recheck(ok)));
    RecheckStarts(sys, s, f, ok);
    HealDrops(sys, Run(sys, turned, more).value, f);
    FlightsStay(sys, turned, more, f);
    DecodesExactly(sys, turned, f, more);
  }

  lemma StartIsCareful(sys: System, s0: State)
    requires Initial(s0)
    ensures Careful(sys, s0) && Sound(sys, s0) && Books(sys, s0)
  {
  }

  lemma FlyIsAStep(sys: System, s: State, f: nat, step: BodyStep)
    ensures Step(sys, s, Fly(f, step)) == FlyStep(sys, s, f, step)
    ensures FlyStep(sys, s, f, step).Some? ==> f < |s.flights|
  {
  }

  lemma RecheckStarts(sys: System, s: State, f: nat, ok: bool)
    requires FlyStep(sys, s, f, Recheck(ok)).Some?
    ensures f < |s.flights| && s.flights[f].phase.Starting?
  {
  }

  lemma HealDrops(sys: System, s: State, f: nat)
    requires FlyStep(sys, s, f, Heal(true)).Some?
    ensures f < |s.flights| && s.flights[f].phase.Healing?
    ensures s.flights[f].loc !in FlyStep(sys, s, f, Heal(true)).value.store
  {
  }

  // ------------------------------------------------------------------
  // Runs in which it is not
  // ------------------------------------------------------------------

  /** No batch call stores under the key of a flight that is about to delete. */
  ghost predicate Gentle(s: State, a: Action) {
    forall f :: 0 <= f < |s.flights| && s.flights[f].phase.Healing? ==> !Spoils(s, f, a)
  }

  ghost const GENTLE: Rule := (s, a) => Gentle(s, a)

  /** A flight that is about to delete has only undecodable bytes before it. */
  ghost predicate Careful(sys: System, s: State) {
    forall f :: 0 <= f < |s.flights| && s.flights[f].phase.Healing? ==> Unreadable(sys, s, s.flights[f].loc)
  }

  lemma StepIsCareful(sys: System, s: State, a: Action)
    requires sys.Valid() && Inv(sys, s) && Sound(sys, s) && Careful(sys, s) && GENTLE(s, a) && Step(sys, s, a).Some?
    ensures Careful(sys, Step(sys, s, a).value)
  {
    hide Step, Inv, Sound, Unreadable, Spoils;
    var s' := Step(sys, s, a).value;
    forall f | 0 <= f < |s'.flights| && s'.flights[f].phase.Healing? ensures Unreadable(sys, s', s'.flights[f].loc) {
      HealingComes(sys, s, f, a);
      if s.flights[f].phase.Healing? {
        StepUnderHeal(sys, s, f, a);
      }
    }
  }

  lemma {:induction false} RunIsCareful(sys: System, s: State, acts: seq<Action>)
    requires sys.Valid() && Inv(sys, s) && Sound(sys, s) && Careful(sys, s)
    requires Allowed(sys, GENTLE, s, acts) && Run(sys, s, acts).Some?
    ensures Careful(sys, Run(sys, s, acts).value)
    decreases |acts|
  {
    hide Step, Inv, Careful, Sound;
    if |acts| > 0 {
      StepKeepsInv(sys, s, acts[0]);
      StepIsSound(sys, s, acts[0]);
      StepIsCareful(sys, s, acts[0]);
      RunIsCareful(sys, Step(sys, s, acts[0]).value, acts[1..]);
    }
  }

  // ------------------------------------------------------------------
  // Flights that fail
  // ------------------------------------------------------------------

  /** In runs in which no batch call stores under the key of a flight between its re-check and its Delete, no step of a
      flight removes a decodable entry: it stays as it is, or the flight stores its own result over it. And a flight
      that in the end fails, be it by an error or a panic, left every decodable entry as it was in all of its steps. */
  lemma FailedFlightsSpareEntries(sys: System, s0: State, acts: seq<Action>, f: nat, step: BodyStep,
                                  more: seq<Action>, loc: Loc)
    requires sys.Valid() && Initial(s0) && Allowed(sys, GENTLE, s0, acts) && Run(sys, s0, acts).Some?
    requires FlyStep(sys, Run(sys, s0, acts).value, f, step).Some?
    requires !Unreadable(sys, Run(sys, s0, acts).value, loc)
    requires Run(sys, FlyStep(sys, Run(sys, s0, acts).value, f, step).value, more).Some?
    ensures
      var s := Run(sys, s0, acts).value;
      var s' := FlyStep(sys, s, f, step).value;
      var later := Run(sys, s', more).value;
      && loc in s'.store
      && (s'.store[loc] == s.store[loc] || (step.Save? && s.flights[f].loc == loc && s'.flights[f].wrote))
      && f < |later.flights|
      && (later.flights[f].phase.HasOutcome() && later.flights[f].phase.out.Fail? ==> s'.store[loc] == s.store[loc])
  {
    hide Step, Run, Inv, Body, Classify, Sound;
    InitialInv(sys, s0);
    StartIsCareful(sys, s0);
    RunIsSound(sys, s0, acts);
    RunIsCareful(sys, s0, acts);
    var s := Run(sys, s0, acts).value;
    var s' := FlyStep(sys, s, f, step).value;
    StepSpares(sys, s, f, step, loc);
    FlyContinues(sys, s0, acts, f, step, more);
    var all := acts + [Fly(f, step)] + more;
    RunKeepsBooks(sys, s0, all);
    var later := Run(sys, s', more).value;
    FlightsStay(sys, s', more, f);
    assert Accounted(sys, later.flights[f]);
  }

  lemma StepSpares(sys: System, s: State, f: nat, step: BodyStep, loc: Loc)
    requires Careful(sys, s) && FlyStep(sys, s, f, step).Some? && !Unreadable(sys, s, loc)
    ensures
      var s' := FlyStep(sys, s, f, step).value;
      && |s'.flights| == |s.flights|
      && loc in s'.store
      && (s'.store[loc] == s.store[loc] || (step.Save? && s.flights[f].loc == loc && s'.flights[f].wrote))
  {
    hide Body, Classify;
    var fl := s.flights[f];
    var ok := if step.Recheck? then step.ok else false;
    FlightsDeleteOnlyUndecodable(sys, s.now, Read(s, fl.loc, ok), fl, step);
    OnlyActiveFlightsStore(sys, s.now, Read(s, fl.loc, ok), fl, step);
  }

  lemma FlyContinues(sys: System, s0: State, acts: seq<Action>, f: nat, step: BodyStep, more: seq<Action>)
    requires Run(sys, s0, acts).Some? && FlyStep(sys, Run(sys, s0, acts).value, f, step).Some?
    ensures
      var s' := FlyStep(sys, Run(sys, s0, acts).value, f, step).value;
      Run(sys, s0, acts + [Fly(f, step)] + more) == Run(sys, s', more)
  {
    hide FlyStep, Run;
    RunOne(sys, Run(sys, s0, acts).value, Fly(f, step));
    RunConcat(sys, s0, acts, [Fly(f, step)]);
    RunConcat(sys, s0, acts + [Fly(f, step)], more);
  }

  // ------------------------------------------------------------------
  // The race with a batch call
  // ------------------------------------------------------------------

  const TTL: Duration := MILLISECOND

  const START: Time := MILLISECOND

  const LATER: Time := 4 * MILLISECOND

  const HERE := Loc(0, "")

  /** A cache with a stale window of a second, in front of a source that always holds one value. */
  function Always(v: Value): System {
    System(c => CacheConfig(0, 0, 1_000 * MILLISECOND, 0.0, 0.0), c => OneValue(v), (loc, t) => Found(v))
  }

  function StaleItem(v: Value, at: Time): Item {
    var packed := PackForStore([1], TTL, 0, Always(v).cfg(0), at, 0.0);
    NewItem(packed.data, packed.ttl, Always(v).cfg(0), at, 0.0)
  }

  /** An entry of another schema version: fresh for long, and not decodable here. */
  const OTHER_SCHEMA: Item := Item(Wrap([], 100 * MILLISECOND, 0), None)

  lemma StaleItemReads(v: Value, at: Time)
    requires SaneClock(at) && at % MILLISECOND == 0
    ensures
      var view := Always(v).Look(HERE, StaleItem(v, at).val);
      && view.Readable? && view.v == v && view.env.freshUntil == at + TTL && view.env.HasDeadline()
      && StaleItem(v, at).deadline == Some(at + 1_001 * MILLISECOND)
  {
    hide Classify, PackForStore;
    var cfg := Always(v).cfg(0);
    OneValueIsFaithful(v);
    PackedReadsBack(cfg, OneValue(v), v, TTL, 0, at, 0.0);
    EnvelopedDeadline(cfg, OneValue(v), v, TTL, 0, at, 0.0, at, 0.0);
  }

  lemma OtherSchemaIsUndecodable(v: Value)
    ensures Always(v).Look(HERE, OTHER_SCHEMA.val) == Undecodable(Metadata(100 * MILLISECOND, 0))
  {
    WrappedIsEnvelope([], 100 * MILLISECOND, 0);
    ParseWrapped([], 100 * MILLISECOND, 0);
  }

  /** One batch call loads the key and is about to store it. */
  lemma BatchPacks(v: Value, s0: State, s: State, l: nat) returns (s': State)
    requires Reaches(Always(v), ANY, s0, s) && SaneClock(s.now) && l == |s.lanes|
    ensures Reaches(Always(v), ANY, s0, s')
    ensures
      var packed := PackForStore([1], TTL, 0, Always(v).cfg(0), s.now, 0.0);
      s' == s.(lanes := s.lanes + [Lane(HERE, TTL, l, s.now, LanePacked(v, packed.data, s.now), Some(packed.ttl))])
  {
    hide Reaches, NameOf, PackForStore;
    var sys := Always(v);
    var ln := Lane(HERE, TTL, l, s.now, LaneReading, None);
    var s1 := s.(lanes := s.lanes + [ln]);
    Next(sys, ANY, s0, s, NewLane(HERE, TTL, l), s1);
    var s2 := s1.(lanes := s1.lanes[l := ln.(phase := LaneMissing)]);
    Next(sys, ANY, s0, s1, Batch(l, LaneRead(false)), s2);
    var s3 := s2.(lanes := s2.lanes[l := ln.(phase := LaneLoading(s.now))]);
    Next(sys, ANY, s0, s2, Batch(l, LaneLoaderStart), s3);
    var s4 := s3.(lanes := s3.lanes[l := ln.(phase := LaneLoaded(v, s.now, 0))]);
    Next(sys, ANY, s0, s3, Batch(l, LaneLoaderReturn(false, s.now)), s4);
    var packed := PackForStore([1], TTL, 0, sys.cfg(0), s.now, 0.0);
    var s5 := s4.(lanes := s4.lanes[l := ln.(phase := LanePacked(v, packed.data, s.now), total := Some(packed.ttl))]);
    Next(sys, ANY, s0, s4, Batch(l, LanePack(0.0)), s5);
    s' := s.(lanes := s.lanes + [s5.lanes[l]]);
    assert s5 == s';
  }

  /** It stores it. */
  lemma BatchStores(v: Value, s0: State, s: State, l: nat) returns (s': State)
    requires Reaches(Always(v), ANY, s0, s) && l < |s.lanes|
    requires
      var packed := PackForStore([1], TTL, 0, Always(v).cfg(0), s.now, 0.0);
      s.lanes[l] == Lane(HERE, TTL, l, s.now, LanePacked(v, packed.data, s.now), Some(packed.ttl))
    ensures Reaches(Always(v), ANY, s0, s')
    ensures s'.store == s.store[HERE := Entry(StaleItem(v, s.now), s.now)] && |s'.lanes| == |s.lanes|
    ensures s'.now == s.now && s'.inflight == s.inflight && s'.flights == s.flights && s'.callers == s.callers
  {
    hide Reaches, NameOf, PackForStore, NewItem;
    s' := Step(Always(v), s, Batch(l, LaneSave(true, 0.0, l))).value;
    Next(Always(v), ANY, s0, s, Batch(l, LaneSave(true, 0.0, l)), s');
  }

  /** A stale entry triggers a refresh, which finds bytes of another schema version and turns to delete them. */
  lemma RefreshTurnsToHeal(v: Value, s0: State, s: State) returns (s': State)
    requires Reaches(Always(v), ANY, s0, s) && s.now == LATER && s.inflight == map[] && s.flights == []
    requires s.callers == []
    requires s.store == map[HERE := Entry(StaleItem(v, START), START)]
    ensures Reaches(Always(v), ANY, s0, s')
    ensures s'.now == LATER && s'.store.Keys == {HERE}
    ensures |s'.flights| == 1 && s'.flights[0].loc == HERE && s'.flights[0].refresh && s'.flights[0].phase == Healing
    ensures |s'.lanes| == |s.lanes| + 1
    ensures
      var packed := PackForStore([1], TTL, 0, Always(v).cfg(0), LATER, 0.0);
      s'.lanes[|s.lanes|] == Lane(HERE, TTL, |s.lanes|, LATER, LanePacked(v, packed.data, LATER), Some(packed.ttl))
  {
    hide Reaches, NameOf, PackForStore, NewItem, Classify;
    var sys := Always(v);
    StaleItemReads(v, START);
    OtherSchemaIsUndecodable(v);
    var s1 := s.(callers := s.callers + [Caller(HERE, TTL, false, Reading)]);
    Next(sys, ANY, s0, s, Ask(HERE, TTL), s1);
    var s2 := SetPc(s1, 0, Refreshing(v, START + TTL, START, LATER));
    Next(sys, ANY, s0, s1, Act(0, FirstRead(true, 0.0)), s2);
    var s3 := BatchPacks(v, s0, s2, |s2.lanes|);
    var s4 := s3.(store := s3.store[HERE := Entry(OTHER_SCHEMA, LATER)]);
    Next(sys, ANY, s0, s3, Foreign(HERE, OTHER_SCHEMA), s4);
    var s5 := Step(sys, s4, StartRefresh(0)).value;
    Next(sys, ANY, s0, s4, StartRefresh(0), s5);
    s' := s5.(flights := s5.flights[0 := s5.flights[0].(phase := Healing)]);
    Next(sys, ANY, s0, s5, Fly(0, Recheck(true)), s');
  }

  /** With a batch call in between, the self-healing Delete of a refresh can remove a decodable entry that was
      stored after its re-check, and the refresh can fail all the same. */
  lemma BatchRaceLosesAnEntry(v: Value) returns (s0: State, s: State, later: State)
    ensures Initial(s0) && Reaches(Always(v), ANY, s0, s)
    ensures !Unreadable(Always(v), s, HERE)
    ensures FlyStep(Always(v), s, 0, Heal(true)).Some?
    ensures HERE !in FlyStep(Always(v), s, 0, Heal(true)).value.store
    ensures Reaches(Always(v), ANY, FlyStep(Always(v), s, 0, Heal(true)).value, later)
    ensures |later.flights| == 1 && later.flights[0].refresh && later.flights[0].phase == Finished(Fail(LoaderFailed))
  {
    hide Reaches, NameOf, PackForStore, NewItem, Classify;
    var sys := Always(v);
    s0 := State(START, map[], map[], [], [], [], [], []);
    Stays(sys, ANY, s0);
    var s1 := BatchPacks(v, s0, s0, 0);
    var s2 := BatchStores(v, s0, s1, 0);
    var s3 := s2.(now := LATER);
    Next(sys, ANY, s0, s2, Tick(LATER), s3);
    var s4 := RefreshTurnsToHeal(v, s0, s3);
    s := BatchStores(v, s0, s4, 1);
    StaleItemReads(v, LATER);
    var s5 := FlyStep(sys, s, 0, Heal(true)).value;
    Stays(sys, ANY, s5);
    var fl := s5.flights[0].(phase := Loading(LATER), loads := s5.flights[0].loads + 1);
    var s6 := s5.(flights := s5.flights[0 := fl]);
    Next(sys, ANY, s5, s5, Fly(0, LoaderStart), s6);
    later := Step(sys, s6, Fly(0, LoaderReturn(Errs, LATER))).value;
    Next(sys, ANY, s5, s6, Fly(0, LoaderReturn(Errs, LATER)), later);
  }
}
