/** cache.go refreshAsync and the in-flight re-check: what a background refresh does and reports. */
module Refresh {
  import opened Base
  import opened Stored
  import opened Protocol
  import opened SingleFlight

  /** An entry that ends a flight without loading: absence, or a value that is not stale and, for a
      refresh, strictly fresher than the entry that triggered it. */
  ghost predicate SatisfiedBy(sys: System, fl: Flight, data: Bytes, asOf: Time) {
    match sys.Look(fl.loc, data)
    case Absent => true
    case Readable(env, _) => !env.Stale(asOf) && (fl.refresh ==> env.freshUntil > fl.refreshOf)
    case Undecodable(_) => false
  }

  ghost predicate Counts(fl: Flight, loads: nat, onLoads: nat) {
    fl.loads == loads && fl.onLoads == onLoads && fl.reports == 0 && !fl.wrote
  }

  ghost predicate Closed(sys: System, fl: Flight, out: Outcome) {
    match out
    case Fail(err) =>
      && fl.loads == 1 && !fl.wrote
      && fl.onLoads == (if err.Panicked? then 0 else 1)
      && fl.reports == (if fl.refresh then 1 else 0)
    case Data(data, _, asOf) =>
      && fl.loads <= 1 && fl.onLoads == fl.loads && fl.reports == 0
      && (fl.wrote <==> fl.loads == 1)
      && (fl.loads == 0 ==> SatisfiedBy(sys, fl, data, asOf))
  }

  ghost predicate Accounted(sys: System, fl: Flight) {
    && (fl.refresh <==> fl.refreshOf != ZERO_TIME)
    && match fl.phase
       case Starting => Counts(fl, 0, 0)
       case Healing => Counts(fl, 0, 0)
       case Ready => Counts(fl, 0, 0)
       case Loading(_) => Counts(fl, 1, 0)
       case Loaded(_, _, _) => Counts(fl, 1, 1)
       case AbsenceLoaded(_) => Counts(fl, 1, 1)
       case Packing(_, _, _) => Counts(fl, 1, 1)
       case Finished(out) => Closed(sys, fl, out)
       case Forgotten(out) => Closed(sys, fl, out)
       case Delivering(out) => Closed(sys, fl, out)
  }

  ghost predicate Logged(s: State) {
    && (forall i :: 0 <= i < |s.log| && s.log[i].writer.Some? ==>
         && s.log[i].writer.value < |s.flights|
         && s.flights[s.log[i].writer.value].wrote
         && s.flights[s.log[i].writer.value].loc == s.log[i].loc)
    && (forall i, j :: 0 <= i < j < |s.log| && s.log[i].writer.Some? ==> s.log[i].writer != s.log[j].writer)
  }

  ghost predicate Triggered(s: State) {
    forall c :: 0 <= c < |s.callers| && s.callers[c].pc.Refreshing? ==> s.callers[c].pc.of != ZERO_TIME
  }

  ghost predicate Books(sys: System, s: State) {
    && (forall f :: 0 <= f < |s.flights| ==> Accounted(sys, s.flights[f]))
    && Logged(s)
    && Triggered(s)
  }

  lemma BodyIsAccounted(sys: System, now: Time, read: Option<Entry>, fl: Flight, step: BodyStep)
    requires Accounted(sys, fl) && Body(sys, now, read, fl, step).Some?
    ensures
      var e := Body(sys, now, read, fl, step).value;
      && Accounted(sys, e.flight)
      && (fl.wrote ==> e.flight.wrote)
      && (e.op.Put? ==> !fl.wrote && e.flight.wrote)
      && e.flight.loc == fl.loc
  {
    hide Body, Accounted;
    match step
    case Recheck(_) => RecheckIsAccounted(sys, now, read, fl, step);
    case _ => OthersAreAccounted(sys, now, read, fl, step);
  }

  lemma RecheckIsAccounted(sys: System, now: Time, read: Option<Entry>, fl: Flight, step: BodyStep)
    requires step.Recheck? && Accounted(sys, fl) && Body(sys, now, read, fl, step).Some?
    ensures
      var e := Body(sys, now, read, fl, step).value;
      && Accounted(sys, e.flight) && (fl.wrote ==> e.flight.wrote) && e.op.Keep? && e.flight.loc == fl.loc
  {
    hide Classify;
  }

  lemma OthersAreAccounted(sys: System, now: Time, read: Option<Entry>, fl: Flight, step: BodyStep)
    requires !step.Recheck? && Accounted(sys, fl) && Body(sys, now, read, fl, step).Some?
    ensures
      var e := Body(sys, now, read, fl, step).value;
      && Accounted(sys, e.flight)
      && (fl.wrote ==> e.flight.wrote)
      && (e.op.Put? ==> !fl.wrote && e.flight.wrote)
      && e.flight.loc == fl.loc
  {
    hide PackForStore, NewItem, Classify;
  }

  lemma FlyKeepsBooks(sys: System, s: State, f: nat, step: BodyStep)
    requires Books(sys, s) && FlyStep(sys, s, f, step).Some?
    ensures Books(sys, FlyStep(sys, s, f, step).value)
  {
    hide Body;
    var fl := s.flights[f];
    var read := Read(s, fl.loc, if step.Recheck? then step.ok else false);
    BodyIsAccounted(sys, s.now, read, fl, step);
    var s' := FlyStep(sys, s, f, step).value;
    assert forall g :: 0 <= g < |s.flights| && g != f ==> s'.flights[g] == s.flights[g];
  }

  lemma DoChanKeepsBooks(sys: System, s: State, loc: Loc, ttl: Duration, refresh: bool, of: Time, reader: Option<nat>)
    requires Books(sys, s) && (refresh <==> of != ZERO_TIME) && DoChan(s, loc, ttl, refresh, of, reader).Some?
    ensures Books(sys, DoChan(s, loc, ttl, refresh, of, reader).value)
  {
    var s' := DoChan(s, loc, ttl, refresh, of, reader).value;
    forall g | 0 <= g < |s'.flights| ensures Accounted(sys, s'.flights[g]) {
      if g < |s.flights| {
        assert Accounted(sys, s.flights[g]);
      }
    }
  }

  lemma MovedKeepsBooks(sys: System, s: State, f: nat, s': State)
    requires Books(sys, s) && f < |s.flights| == |s'.flights|
    requires s'.flights == s.flights[f := s'.flights[f]] && s'.log == s.log && s'.callers == s.callers
    requires Accounted(sys, s'.flights[f])
    requires s'.flights[f].wrote == s.flights[f].wrote && s'.flights[f].loc == s.flights[f].loc
    ensures Books(sys, s')
  {
    forall g | 0 <= g < |s'.flights| ensures Accounted(sys, s'.flights[g]) {
      if g != f {
        assert s'.flights[g] == s.flights[g];
      }
    }
  }

  lemma ClosingKeepsBooks(sys: System, s: State, a: Action)
    requires Books(sys, s) && (a.Forget? || a.Cleanup? || a.Deliver?) && Step(sys, s, a).Some?
    ensures Books(sys, Step(sys, s, a).value)
  {
    assert Accounted(sys, s.flights[a.f]);
    MovedKeepsBooks(sys, s, a.f, Step(sys, s, a).value);
  }

  /** Steps of callers, batch keys, clock and environment: they store nothing as a flight. */
  lemma OutsideKeepsBooks(sys: System, s: State, s': State)
    requires Books(sys, s) && s'.flights == s.flights
    requires || s'.log == s.log
             || (|s'.log| == |s.log| + 1 && s'.log[..|s.log|] == s.log && s'.log[|s.log|].writer == None)
    requires Triggered(s')
    ensures Books(sys, s')
  {
    assert forall i :: 0 <= i < |s.log| ==> s'.log[i] == s.log[i];
  }

  lemma ActKeepsBooks(sys: System, s: State, c: nat, ask: CallerStep)
    requires Books(sys, s) && ActStep(sys, s, c, ask).Some?
    ensures Books(sys, ActStep(sys, s, c, ask).value)
  {
    hide Accounted;
    OutsideKeepsBooks(sys, s, ActStep(sys, s, c, ask).value);
  }

  lemma BatchKeepsBooks(sys: System, s: State, l: nat, step: LaneStep)
    requires Books(sys, s) && BatchStep(sys, s, l, step).Some?
    ensures Books(sys, BatchStep(sys, s, l, step).value)
  {
    hide Accounted, Batching;
    OutsideKeepsBooks(sys, s, BatchStep(sys, s, l, step).value);
  }

  lemma JoiningKeepsBooks(sys: System, s: State, a: Action)
    requires Books(sys, s) && (a.Join? || a.StartRefresh?) && Step(sys, s, a).Some?
    ensures Books(sys, Step(sys, s, a).value)
  {
    hide Accounted;
    var caller := s.callers[a.c];
    if a.Join? {
      DoChanKeepsBooks(sys, s, caller.loc, caller.ttl, false, ZERO_TIME, Some(a.c));
    } else {
      DoChanKeepsBooks(sys, s, caller.loc, caller.ttl, true, caller.pc.of, None);
    }
  }

  lemma StepKeepsBooks(sys: System, s: State, a: Action)
    requires Books(sys, s) && Step(sys, s, a).Some?
    ensures Books(sys, Step(sys, s, a).value)
  {
    hide ActStep, FlyStep, BatchStep, Accounted, ForgetStep, CleanupStep, DeliverStep, JoinStep, StartRefreshStep;
    match a
    case Fly(f, step) => FlyKeepsBooks(sys, s, f, step);
    case Join(_) => JoiningKeepsBooks(sys, s, a);
    case StartRefresh(_) => JoiningKeepsBooks(sys, s, a);
    case Forget(_) => ClosingKeepsBooks(sys, s, a);
    case Cleanup(_) => ClosingKeepsBooks(sys, s, a);
    case Deliver(_) => ClosingKeepsBooks(sys, s, a);
    case Act(c, ask) => ActKeepsBooks(sys, s, c, ask);
    case Batch(l, lane) => BatchKeepsBooks(sys, s, l, lane);
    case _ => OutsideKeepsBooks(sys, s, Step(sys, s, a).value);
  }

  lemma {:induction false} RunKeepsBooks(sys: System, s: State, acts: seq<Action>)
    requires Books(sys, s) && Run(sys, s, acts).Some?
    ensures Books(sys, Run(sys, s, acts).value)
    decreases |acts|
  {
    hide Step;
    if |acts| > 0 {
      StepKeepsBooks(sys, s, acts[0]);
      RunKeepsBooks(sys, Step(sys, s, acts[0]).value, acts[1..]);
    }
  }

  /** In every reachable state: a refresh is always for an entry with a freshness deadline. If it ended
      well without loading, it found absence or a value that is not stale and strictly fresher than that
      entry, so never the entry itself. If it ended in an error or a panic, none of the stores so far is
      its own and it reported OpRefresh exactly once; otherwise it reported nothing. A miss flight never
      reports. OnLoad fired once if the loader returned and not at all if it panicked, and no flight
      stored twice. */
  lemma RefreshSoundness(sys: System, s0: State, acts: seq<Action>, f: nat)
    requires Initial(s0) && Run(sys, s0, acts).Some?
    requires f < |Run(sys, s0, acts).value.flights| && Run(sys, s0, acts).value.flights[f].phase.HasOutcome()
    ensures
      var s := Run(sys, s0, acts).value;
      var fl := s.flights[f];
      && (fl.refresh <==> fl.refreshOf != ZERO_TIME)
      && (fl.phase.out.Data? && fl.loads == 0 ==> SatisfiedBy(sys, fl, fl.phase.out.data, fl.phase.out.asOf))
      && (fl.phase.out.Fail? ==>
            && fl.reports == (if fl.refresh then 1 else 0)
            && fl.onLoads == (if fl.phase.out.err.Panicked? then 0 else 1)
            && forall i :: 0 <= i < |s.log| ==> s.log[i].writer != Some(f))
      && (fl.phase.out.Data? ==> fl.reports == 0 && fl.onLoads == fl.loads)
      && (forall i, j :: 0 <= i < j < |s.log| && s.log[i].writer == Some(f) ==> s.log[j].writer != Some(f))
  {
    hide Step;
    RunKeepsBooks(sys, s0, acts);
    assert Accounted(sys, Run(sys, s0, acts).value.flights[f]);
  }

  /** Only a self-healing Delete removes an entry, and only a flight whose re-check just met bytes that it
      could not decode gets to run one. */
  lemma FlightsDeleteOnlyUndecodable(sys: System, now: Time, read: Option<Entry>, fl: Flight, step: BodyStep)
    requires Body(sys, now, read, fl, step).Some?
    ensures
      var e := Body(sys, now, read, fl, step).value;
      && (e.op.Drop? ==> fl.phase.Healing?)
      && (e.flight.phase.Healing? <==>
            step.Recheck? && fl.phase.Starting? && read.Some? && sys.Look(fl.loc, read.value.item.val).Undecodable?
            && Satisfies(fl, sys.Look(fl.loc, read.value.item.val).env, now))
  {
  }

  /** A caller that meets a stale or soon stale entry is never held up: in every reachable state its
      refresh can be started or joined at once, it is answered with the value it read by that very step,
      and no channel has it as a reader. A refresh flight that it starts is for the deadline it read. */
  lemma TriggerNeverWaits(sys: System, s0: State, acts: seq<Action>, c: nat)
    requires Initial(s0) && Run(sys, s0, acts).Some?
    requires c < |Run(sys, s0, acts).value.callers| && Run(sys, s0, acts).value.callers[c].pc.Refreshing?
    ensures
      var s := Run(sys, s0, acts).value;
      var pc := s.callers[c].pc;
      var next := StartRefreshStep(s, c);
      && next.Some?
      && next.value.callers[c].pc == Answered(Hit(pc.v, pc.readAt, pc.servedAt), None)
      && (forall ch :: 0 <= ch < |next.value.channels| ==> next.value.channels[ch].reader != Some(c))
      && (|next.value.flights| > |s.flights| ==>
            && next.value.flights[|s.flights|].refresh
            && next.value.flights[|s.flights|].refreshOf == pc.of != ZERO_TIME)
  {
    hide Step;
    InitialInv(sys, s0);
    RunKeepsInv(sys, s0, acts);
    RunKeepsBooks(sys, s0, acts);
    var s := Run(sys, s0, acts).value;
    DoChanJoins(s, s.callers[c].loc, s.callers[c].ttl, true, s.callers[c].pc.of, None);
  }
}
