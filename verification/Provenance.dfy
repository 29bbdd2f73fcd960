/** Whatever is stored, in flight or answered was the source's own answer at a recorded earlier instant. */
module Provenance {
  import opened Base
  import opened Codecs
  import opened Envelope
  import opened Stored
  import opened Protocol
  import opened SingleFlight

  /** data can be read, and says what the source held at that instant. */
  ghost predicate Backed(sys: System, loc: Loc, data: Bytes, at: Time) {
    match sys.Look(loc, data)
    case Absent => sys.source(loc, at) == Missing
    case Readable(_, v) => sys.source(loc, at) == Found(v)
    case Undecodable(_) => false
  }

  ghost predicate EntryOk(sys: System, now: Time, loc: Loc, e: Entry) {
    sys.Look(loc, e.item.val).Undecodable? || (Backed(sys, loc, e.item.val, e.readAt) && e.readAt <= now)
  }

  ghost predicate OutcomeOk(sys: System, now: Time, loc: Loc, startedAt: Time, out: Outcome) {
    match out
    case Data(data, at, asOf) => Backed(sys, loc, data, at) && at <= asOf <= now && startedAt <= asOf
    case Fail(NotFoundAt(at)) => sys.source(loc, at) == Missing && startedAt <= at <= now
    case Fail(_) => true
  }

  ghost predicate FlightBacked(sys: System, now: Time, fl: Flight) {
    && fl.startedAt <= now
    && match fl.phase
       case Loading(since) => fl.startedAt <= since <= now
       case Loaded(v, at, _) => fl.startedAt <= at <= now && sys.source(fl.loc, at) == Found(v)
       case AbsenceLoaded(at) => fl.startedAt <= at <= now && sys.source(fl.loc, at) == Missing
       case Packing(data, _, at) => fl.startedAt <= at <= now && Backed(sys, fl.loc, data, at)
       case Finished(out) => OutcomeOk(sys, now, fl.loc, fl.startedAt, out)
       case Forgotten(out) => OutcomeOk(sys, now, fl.loc, fl.startedAt, out)
       case Delivering(out) => OutcomeOk(sys, now, fl.loc, fl.startedAt, out)
       case _ => true
  }

  ghost predicate ReplyOk(sys: System, now: Time, loc: Loc, reply: Reply) {
    match reply
    case Hit(v, at, served) => sys.source(loc, at) == Found(v) && at <= served <= now
    case NotFound(at, served) => sys.source(loc, at) == Missing && at <= served <= now
    case Error(err) => !err.NotFoundAt?
    case DecodeError => false
  }

  ghost predicate CallerBacked(sys: System, now: Time, c: Caller) {
    match c.pc
    case Refreshing(v, _, at, served) => sys.source(c.loc, at) == Found(v) && at <= served <= now
    case Answered(reply, _) => ReplyOk(sys, now, c.loc, reply)
    case _ => true
  }

  ghost predicate LaneBacked(sys: System, now: Time, ln: Lane) {
    && ln.startedAt <= now
    && match ln.phase
       case LaneLoading(since) => ln.startedAt <= since <= now
       case LaneLoaded(v, at, _) => ln.startedAt <= at <= now && sys.source(ln.loc, at) == Found(v)
       case LaneOmitted(at) => ln.startedAt <= at <= now && sys.source(ln.loc, at) == Missing
       case LanePacked(v, data, at) =>
         && ln.startedAt <= at <= now && sys.source(ln.loc, at) == Found(v)
         && Backed(sys, ln.loc, data, at)
       case LaneDone(result, at, seen) =>
         && at <= seen <= now && ln.startedAt <= seen
         && sys.source(ln.loc, at) == (match result case Some(v) => Found(v) case None => Missing)
       case _ => true
  }

  ghost predicate Sound(sys: System, s: State) {
    && SaneClock(s.now)
    && (forall loc :: loc in s.store ==> EntryOk(sys, s.now, loc, s.store[loc]))
    && (forall f :: 0 <= f < |s.flights| ==> FlightBacked(sys, s.now, s.flights[f]))
    && (forall c :: 0 <= c < |s.callers| ==> CallerBacked(sys, s.now, s.callers[c]))
    && (forall l :: 0 <= l < |s.lanes| ==> LaneBacked(sys, s.now, s.lanes[l]))
  }

  // ------------------------------------------------------------------
  // Preservation
  // ------------------------------------------------------------------

  ghost predicate OpOk(sys: System, now: Time, loc: Loc, op: StoreOp) {
    op.Put? ==> Backed(sys, loc, op.item.val, op.readAt) && op.readAt <= now
  }

  ghost predicate ReadOk(sys: System, now: Time, loc: Loc, read: Option<Entry>) {
    read.Some? ==> EntryOk(sys, now, loc, read.value)
  }

  /** Encoded values read back, in whichever form packForStore chose. */
  lemma EncodedIsBacked(sys: System, loc: Loc, v: Value, ttl: Duration, loadDur: Duration, now: Time, u: real, at: Time)
    requires sys.Valid() && SaneClock(now)
    requires sys.source(loc, at) == Found(v) && sys.codec(loc.cache).marshal(v).Some?
    ensures
      var payload := sys.codec(loc.cache).marshal(v).value;
      Backed(sys, loc, PackForStore(payload, ttl, loadDur, sys.cfg(loc.cache), now, u).data, at)
  {
    PackedReadsBack(sys.cfg(loc.cache), sys.codec(loc.cache), v, ttl, loadDur, now, u);
  }

  lemma MarkerIsBacked(sys: System, loc: Loc, at: Time)
    requires sys.source(loc, at) == Missing
    ensures Backed(sys, loc, NEGATIVE_MARKER, at)
  {
    NegativeIsAbsent(sys.cfg(loc.cache), sys.codec(loc.cache));
  }

  lemma BodyIsSound(sys: System, now: Time, read: Option<Entry>, fl: Flight, step: BodyStep)
    requires sys.Valid() && SaneClock(now) && ReadOk(sys, now, fl.loc, read) && FlightBacked(sys, now, fl)
    requires Body(sys, now, read, fl, step).Some?
    ensures
      var e := Body(sys, now, read, fl, step).value;
      FlightBacked(sys, now, e.flight) && OpOk(sys, now, fl.loc, e.op) && e.flight.loc == fl.loc
  {
    hide PackForStore, HasEnvelope, Parse;
    match step
    case Pack(u) =>
      if sys.codec(fl.loc.cache).marshal(fl.phase.v).Some? {
        EncodedIsBacked(sys, fl.loc, fl.phase.v, fl.ttl, fl.phase.loadDur, now, u, fl.phase.readAt);
      }
    case Save(ok, w) =>
      if fl.phase.AbsenceLoaded? {
        MarkerIsBacked(sys, fl.loc, fl.phase.readAt);
      }
    case _ =>
  }

  lemma AskingIsSound(sys: System, now: Time, read: Option<Entry>, c: Caller, step: CallerStep)
    requires ReadOk(sys, now, c.loc, read) && Asking(sys, now, read, c, step).Some?
    ensures
      var e := Asking(sys, now, read, c, step).value;
      CallerBacked(sys, now, c.(pc := e.pc)) && !e.op.Put?
  {
  }

  lemma BatchingIsSound(sys: System, now: Time, read: Option<Entry>, ln: Lane, total: Option<Duration>, step: LaneStep)
    requires sys.Valid() && SaneClock(now) && ReadOk(sys, now, ln.loc, read) && LaneBacked(sys, now, ln)
    requires Batching(sys, now, read, ln, total, step).Some?
    ensures
      var e := Batching(sys, now, read, ln, total, step).value;
      LaneBacked(sys, now, e.lane) && OpOk(sys, now, ln.loc, e.op) && e.lane.loc == ln.loc
  {
    match step
    case LanePack(u) =>
      if sys.codec(ln.loc.cache).marshal(ln.phase.v).Some? {
        EncodedIsBacked(sys, ln.loc, ln.phase.v, ln.ttl, ln.phase.loadDur, now, u, ln.phase.readAt);
      }
    case LaneSave(ok, w, _) =>
      if ln.phase.LaneOmitted? {
        MarkerIsBacked(sys, ln.loc, ln.phase.readAt);
      }
    case _ =>
  }

  lemma ApplyIsSound(sys: System, s: State, loc: Loc, op: StoreOp, writer: Option<nat>)
    requires Sound(sys, s) && OpOk(sys, s.now, loc, op)
    ensures Sound(sys, Apply(s, loc, op, writer))
  {
  }

  lemma ReceiveIsSound(sys: System, s: State, c: nat)
    requires Inv(sys, s) && Sound(sys, s) && ReceiveStep(sys, s, c).Some?
    ensures Sound(sys, ReceiveStep(sys, s, c).value)
  {
    var ch := s.callers[c].pc.ch;
    assert CallerOk(sys, s, c) && ChannelOk(s, ch);
    assert FlightBacked(sys, s.now, s.flights[s.channels[ch].flight]);
  }

  lemma TickIsSound(sys: System, s: State, to: Time)
    requires Sound(sys, s) && s.now <= to && SaneClock(to)
    ensures Sound(sys, s.(now := to))
  {
    var s' := s.(now := to);
    forall loc | loc in s'.store ensures EntryOk(sys, to, loc, s'.store[loc]) {
      assert EntryOk(sys, s.now, loc, s.store[loc]);
    }
    forall f | 0 <= f < |s'.flights| ensures FlightBacked(sys, to, s'.flights[f]) {
      assert FlightBacked(sys, s.now, s.flights[f]);
    }
    forall c | 0 <= c < |s'.callers| ensures CallerBacked(sys, to, s'.callers[c]) {
      assert CallerBacked(sys, s.now, s.callers[c]);
    }
    forall l | 0 <= l < |s'.lanes| ensures LaneBacked(sys, to, s'.lanes[l]) {
      assert LaneBacked(sys, s.now, s.lanes[l]);
    }
  }

  lemma FlyIsSound(sys: System, s: State, f: nat, step: BodyStep)
    requires sys.Valid() && Sound(sys, s) && FlyStep(sys, s, f, step).Some?
    ensures Sound(sys, FlyStep(sys, s, f, step).value)
  {
    hide Body;
    var fl := s.flights[f];
    var read := Read(s, fl.loc, if step.Recheck? then step.ok else false);
    BodyIsSound(sys, s.now, read, fl, step);
    var e := Body(sys, s.now, read, fl, step).value;
    ApplyIsSound(sys, s.(flights := s.flights[f := e.flight]), fl.loc, e.op, Some(f));
  }

  lemma ActIsSound(sys: System, s: State, c: nat, ask: CallerStep)
    requires Sound(sys, s) && ActStep(sys, s, c, ask).Some?
    ensures Sound(sys, ActStep(sys, s, c, ask).value)
  {
    hide Asking;
    var caller := s.callers[c];
    AskingIsSound(sys, s.now, Read(s, caller.loc, ask.ok), caller, ask);
    var e := Asking(sys, s.now, Read(s, caller.loc, ask.ok), caller, ask).value;
    ApplyIsSound(sys, SetPc(s, c, e.pc), caller.loc, e.op, None);
  }

  lemma BatchIsSound(sys: System, s: State, l: nat, step: LaneStep)
    requires sys.Valid() && Sound(sys, s) && BatchStep(sys, s, l, step).Some?
    ensures Sound(sys, BatchStep(sys, s, l, step).value)
  {
    hide Batching;
    var ln := s.lanes[l];
    var read := Read(s, ln.loc, if step.LaneRead? then step.ok else false);
    BatchingIsSound(sys, s.now, read, ln, SharedTotal(s, ln, step), step);
    var e := Batching(sys, s.now, read, ln, SharedTotal(s, ln, step), step).value;
    ApplyIsSound(sys, s.(lanes := s.lanes[l := e.lane]), ln.loc, e.op, None);
  }

  lemma DoChanIsSound(sys: System, s: State, loc: Loc, ttl: Duration, refresh: bool, of: Time, reader: Option<nat>)
    requires Sound(sys, s) && DoChan(s, loc, ttl, refresh, of, reader).Some?
    ensures Sound(sys, DoChan(s, loc, ttl, refresh, of, reader).value)
  {
    var s' := DoChan(s, loc, ttl, refresh, of, reader).value;
    forall f | 0 <= f < |s'.flights| ensures FlightBacked(sys, s'.now, s'.flights[f]) {
      if f < |s.flights| {
        assert FlightBacked(sys, s.now, s.flights[f]);
      }
    }
  }

  lemma SetPcIsSound(sys: System, s: State, c: nat, pc: Pc)
    requires Sound(sys, s) && c < |s.callers| && CallerBacked(sys, s.now, s.callers[c].(pc := pc))
    ensures Sound(sys, SetPc(s, c, pc))
  {
  }

  lemma JoiningIsSound(sys: System, s: State, a: Action)
    requires Sound(sys, s) && (a.Join? || a.StartRefresh?) && Step(sys, s, a).Some?
    ensures Sound(sys, Step(sys, s, a).value)
  {
    var c := a.c;
    var caller := s.callers[c];
    if a.Join? {
      DoChanIsSound(sys, s, caller.loc, caller.ttl, false, ZERO_TIME, Some(c));
      SetPcIsSound(sys, DoChan(s, caller.loc, caller.ttl, false, ZERO_TIME, Some(c)).value, c, Waiting(|s.channels|));
    } else {
      assert CallerBacked(sys, s.now, caller);
      DoChanIsSound(sys, s, caller.loc, caller.ttl, true, caller.pc.of, None);
      SetPcIsSound(sys, DoChan(s, caller.loc, caller.ttl, true, caller.pc.of, None).value, c,
                   Answered(Hit(caller.pc.v, caller.pc.readAt, caller.pc.servedAt), None));
    }
  }

  lemma ClosingIsSound(sys: System, s: State, a: Action)
    requires Sound(sys, s) && (a.Forget? || a.Cleanup? || a.Deliver?) && Step(sys, s, a).Some?
    ensures Sound(sys, Step(sys, s, a).value)
  {
    assert FlightBacked(sys, s.now, s.flights[a.f]);
  }

  lemma StepIsSound(sys: System, s: State, a: Action)
    requires sys.Valid() && Inv(sys, s) && Sound(sys, s) && Step(sys, s, a).Some?
    ensures Sound(sys, Step(sys, s, a).value)
  {
    hide ActStep, JoinStep, StartRefreshStep, FlyStep, ForgetStep, CleanupStep, DeliverStep, ReceiveStep;
    hide BatchStep, Inv;
    match a
    case Tick(to) => TickIsSound(sys, s, to);
    case Act(c, ask) => ActIsSound(sys, s, c, ask);
    case Join(_) => JoiningIsSound(sys, s, a);
    case StartRefresh(_) => JoiningIsSound(sys, s, a);
    case Fly(f, step) => FlyIsSound(sys, s, f, step);
    case Forget(_) => ClosingIsSound(sys, s, a);
    case Cleanup(_) => ClosingIsSound(sys, s, a);
    case Deliver(_) => ClosingIsSound(sys, s, a);
    case Receive(c) => ReceiveIsSound(sys, s, c);
    case Cancel(c) => assert CallerBacked(sys, s.now, s.callers[c]);
    case Abandon(_) =>
    case Ask(_, _) =>
    case NewLane(_, _, _) =>
    case Batch(l, lane) => BatchIsSound(sys, s, l, lane);
    case Evict(_) =>
    case Foreign(_, _) =>
  }

  lemma {:induction false} RunIsSound(sys: System, s: State, acts: seq<Action>)
    requires sys.Valid() && Inv(sys, s) && Sound(sys, s) && Run(sys, s, acts).Some?
    ensures Inv(sys, Run(sys, s, acts).value) && Sound(sys, Run(sys, s, acts).value)
    decreases |acts|
  {
    hide Step;
    if |acts| > 0 {
      StepKeepsInv(sys, s, acts[0]);
      StepIsSound(sys, s, acts[0]);
      RunIsSound(sys, Step(sys, s, acts[0]).value, acts[1..]);
    }
  }

  // ------------------------------------------------------------------
  // Transparency
  // ------------------------------------------------------------------

  /** In every run, every answer that is not an error was true of the source at an instant no later than
      the answer: a value that it held, or NotFound when it held nothing. A decode error never reaches a
      caller, and the errors that do are the loader's own, a loader panic, or a failed encode. */
  lemma AnswersComeFromTheSource(sys: System, s0: State, acts: seq<Action>, c: nat)
    requires sys.Valid() && Initial(s0) && Run(sys, s0, acts).Some?
    requires c < |Run(sys, s0, acts).value.callers|
    requires Run(sys, s0, acts).value.callers[c].pc.Answered?
    ensures
      var s := Run(sys, s0, acts).value;
      var loc := s.callers[c].loc;
      match s.callers[c].pc.reply
      case Hit(v, at, served) => sys.source(loc, at) == Found(v) && at <= served <= s.now
      case NotFound(at, served) => sys.source(loc, at) == Missing && at <= served <= s.now
      case Error(err) => err.LoaderFailed? || err.Panicked? || err.EncodeFailed?
      case DecodeError => false
  {
    hide Step;
    InitialInv(sys, s0);
    RunIsSound(sys, s0, acts);
    assert CallerBacked(sys, Run(sys, s0, acts).value.now, Run(sys, s0, acts).value.callers[c]);
  }

  ghost predicate Constant(sys: System) {
    forall loc: Loc, t: Time, t': Time :: sys.source(loc, t) == sys.source(loc, t')
  }

  /** With a constant source every completed GetOrSet that is not an error answers as the loader would:
      that value if there is one, NotFound exactly if there is none. */
  lemma GetOrSetIsTransparent(sys: System, s0: State, acts: seq<Action>, c: nat, t: Time)
    requires sys.Valid() && Constant(sys) && Initial(s0) && Run(sys, s0, acts).Some?
    requires c < |Run(sys, s0, acts).value.callers|
    requires Run(sys, s0, acts).value.callers[c].pc.Answered?
    ensures
      var caller := Run(sys, s0, acts).value.callers[c];
      var truth := sys.source(caller.loc, t);
      !caller.pc.reply.Error? ==>
        && (caller.pc.reply.NotFound? <==> truth == Missing)
        && (caller.pc.reply.Hit? <==> truth.Found?)
        && (caller.pc.reply.Hit? ==> caller.pc.reply.v == truth.v)
  {
    hide Step;
    AnswersComeFromTheSource(sys, s0, acts, c);
  }

  /** The same for each key of a GetOrSetMany call that did not fail: present with that value exactly if
      the source holds one, omitted exactly if it holds none. */
  lemma GetOrSetManyIsTransparent(sys: System, s0: State, acts: seq<Action>, l: nat, t: Time)
    requires sys.Valid() && Constant(sys) && Initial(s0) && Run(sys, s0, acts).Some?
    requires l < |Run(sys, s0, acts).value.lanes|
    requires Run(sys, s0, acts).value.lanes[l].phase.LaneDone?
    ensures
      var ln := Run(sys, s0, acts).value.lanes[l];
      sys.source(ln.loc, t) == (match ln.phase.result case Some(v) => Found(v) case None => Missing)
  {
    hide Step;
    InitialInv(sys, s0);
    RunIsSound(sys, s0, acts);
    assert LaneBacked(sys, Run(sys, s0, acts).value.now, Run(sys, s0, acts).value.lanes[l]);
  }
}
