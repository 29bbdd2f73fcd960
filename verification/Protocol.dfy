/** cache.go and group.go as a step relation: any number of GetOrSet callers, single-flighted loads,
    background refreshes and batch loads interleaving over one timed store. Each label carries every
    choice of its step (backend failures, random draws, what the loader did), so that a run is a
    sequence of labels. */
module Protocol {
  import opened Base
  import opened Codecs
  import opened Config
  import opened Envelope
  import opened Stored
  import opened EarlyRefresh
  import opened FlightKeys

  /** A logical key of one cache instance, which is known by its pointer. */
  datatype Loc = Loc(cache: nat, key: Key)

  function NameOf(loc: Loc): string {
    FlightKey(loc.cache, loc.key)
  }

  /** What the source of truth holds. */
  datatype Answer = Found(v: Value) | Missing

  datatype System = System(
    cfg: nat -> CacheConfig,
    codec: nat -> Codec,
    source: (Loc, Time) -> Answer)
  {
    ghost predicate Valid() {
      forall c: nat :: codec(c).Faithful()
    }

    function Look(loc: Loc, data: Bytes): View {
      Classify(cfg(loc.cache), codec(loc.cache), data)
    }
  }

  // ------------------------------------------------------------------
  // State
  // ------------------------------------------------------------------

  /** A stored item, with the history of when the source held what it says. */
  datatype Entry = Entry(item: Item, readAt: Time)

  datatype Failure = LoaderFailed | Panicked | NotFoundAt(readAt: Time) | EncodeFailed

  /** The result of a flight: stored bytes, with the history of when the source held them and when the
      flight obtained them; or an error. */
  datatype Outcome = Data(data: Bytes, readAt: Time, asOf: Time) | Fail(err: Failure)

  datatype Phase =
    | Starting
    | Healing
    | Ready
    | Loading(since: Time)
    | Loaded(v: Value, readAt: Time, loadDur: Duration)
    | AbsenceLoaded(readAt: Time)
    | Packing(data: Bytes, ttl: Duration, readAt: Time)
    | Finished(out: Outcome)
    | Forgotten(out: Outcome)
    | Delivering(out: Outcome)
  {
    /** The flight body has not yet run its deferred Forget. */
    predicate Active() {
      !Forgotten? && !Delivering?
    }

    /** Past the re-check and not yet past the Set. */
    predicate InLoad() {
      Ready? || Loading? || Loaded? || AbsenceLoaded? || Packing?
    }

    predicate HasOutcome() {
      Finished? || Forgotten? || Delivering?
    }
  }

  /** One call of the single-flight group. refreshOf is zero on the miss path. The last four fields are
      history: loader invocations, OnLoad and OpRefresh events, and whether a Set was attempted. */
  datatype Flight = Flight(
    loc: Loc, ttl: Duration, refresh: bool, refreshOf: Time, startedAt: Time,
    phase: Phase, chans: seq<nat>, delivered: nat,
    loads: nat, onLoads: nat, reports: nat, wrote: bool)

  /** A result channel: the slot it took in its flight, its reader (none for a background refresh) and
      what was sent. */
  datatype Channel = Channel(flight: nat, slot: nat, reader: Option<nat>, content: Option<Outcome>)

  datatype Reply =
    | Hit(v: Value, readAt: Time, servedAt: Time)
    | NotFound(readAt: Time, servedAt: Time)
    | Error(err: Failure)
    | DecodeError

  datatype Pc =
    | Reading
    | SelfHealing
    | Joining
    | Refreshing(v: Value, of: Time, readAt: Time, servedAt: Time)
    | Waiting(ch: nat)
    | Abandoned(ch: nat)
    | Answered(reply: Reply, via: Option<nat>)

  datatype Caller = Caller(loc: Loc, ttl: Duration, canceled: bool, pc: Pc)

  datatype LanePhase =
    | LaneReading
    | LaneHealing
    | LaneMissing
    | LaneLoading(since: Time)
    | LaneLoaded(v: Value, readAt: Time, loadDur: Duration)
    | LaneOmitted(readAt: Time)
    | LanePacked(v: Value, data: Bytes, readAt: Time)
    | LaneDone(result: Option<Value>, readAt: Time, seenAt: Time)
    | LaneFailed

  /** One key of one GetOrSetMany call. Batch loads are not single-flighted, so the keys of a call meet
      only in the TTL that they are stored under; total is this key's own packed TTL. */
  datatype Lane = Lane(loc: Loc, ttl: Duration, batch: nat, startedAt: Time, phase: LanePhase, total: Option<Duration>)

  /** One entry of the history of successful stores; writer is the flight that stored, none for a batch. */
  datatype Write = Write(loc: Loc, data: Bytes, readAt: Time, writer: Option<nat>)

  datatype State = State(
    now: Time,
    store: map<Loc, Entry>,
    inflight: map<string, nat>,
    flights: seq<Flight>,
    channels: seq<Channel>,
    callers: seq<Caller>,
    lanes: seq<Lane>,
    log: seq<Write>)

  predicate Initial(s: State) {
    SaneClock(s.now) && s == State(s.now, map[], map[], [], [], [], [], [])
  }

  // ------------------------------------------------------------------
  // Steps of one participant
  // ------------------------------------------------------------------

  datatype StoreOp = Keep | Drop | Put(item: Item, readAt: Time)

  /** What a backend Get returns: nothing on a miss, past the deadline, or on failure (ok is false). */
  function Read(s: State, loc: Loc, ok: bool): Option<Entry> {
    if ok && loc in s.store && s.store[loc].item.Live(s.now) then Some(s.store[loc]) else None
  }

  datatype LoadResult = Answers | Errs | Panics

  datatype BodyStep =
    | Recheck(ok: bool)
    | Heal(ok: bool)
    | LoaderStart
    | LoaderReturn(result: LoadResult, at: Time)
    | Pack(u: real)
    | Save(ok: bool, w: real)

  datatype Effect = Effect(flight: Flight, op: StoreOp)

  /** The body returns; a refresh that failed reports it, and nothing else does. */
  function Finish(fl: Flight, out: Outcome): Flight {
    fl.(phase := Finished(out), reports := fl.reports + if fl.refresh && out.Fail? then 1 else 0)
  }

  /** One step of the function that loadAndStore builds. */
  function Body(sys: System, now: Time, read: Option<Entry>, fl: Flight, step: BodyStep): Option<Effect> {
    match step
    case Recheck(ok) =>
      if !fl.phase.Starting? then None
      else Some(Effect(Rechecked(sys, now, read, fl), Keep))
    case Heal(ok) =>
      if !fl.phase.Healing? then None
      else Some(Effect(fl.(phase := Ready), if ok then Drop else Keep))
    case LoaderStart =>
      if !fl.phase.Ready? then None
      else Some(Effect(fl.(phase := Loading(now), loads := fl.loads + 1), Keep))
    case LoaderReturn(result, at) =>
      if !fl.phase.Loading? || !(fl.phase.since <= at <= now) then None
      else Some(Effect(Returned(sys, now, fl, result, at), Keep))
    case Pack(u) =>
      if !fl.phase.Loaded? || !Draw(u) then None
      else Some(Effect(Encoded(sys, now, fl, u), Keep))
    case Save(ok, w) =>
      if !Draw(w) then None
      else if fl.phase.Packing? then
        var item := NewItem(fl.phase.data, fl.phase.ttl, sys.cfg(fl.loc.cache), now, w);
        Some(Effect(Finish(fl.(wrote := true), Data(fl.phase.data, fl.phase.readAt, fl.phase.readAt)),
                    if ok then Put(item, fl.phase.readAt) else Keep))
      else if fl.phase.AbsenceLoaded? then
        var cfg := sys.cfg(fl.loc.cache);
        var item := NewItem(NEGATIVE_MARKER, cfg.negativeTTL, cfg, now, w);
        Some(Effect(Finish(fl.(wrote := true), Data(NEGATIVE_MARKER, fl.phase.readAt, fl.phase.readAt)),
                    if ok then Put(item, fl.phase.readAt) else Keep))
      else None
  }

  /** The in-flight re-check. */
  function Rechecked(sys: System, now: Time, read: Option<Entry>, fl: Flight): Flight {
    match read
    case None => fl.(phase := Ready)
    case Some(e) =>
      var hit := Data(e.item.val, e.readAt, now);
      match sys.Look(fl.loc, e.item.val)
      case Absent => Finish(fl, hit)
      case Readable(env, _) => if Satisfies(fl, env, now) then Finish(fl, hit) else fl.(phase := Ready)
      case Undecodable(env) => if Satisfies(fl, env, now) then fl.(phase := Healing) else fl.(phase := Ready)
  }

  predicate Satisfies(fl: Flight, env: Metadata, now: Time) {
    !env.Stale(now) && (fl.refreshOf == ZERO_TIME || env.freshUntil > fl.refreshOf)
  }

  /** The loader returns or panics. at is when it looked at the source. A panic skips OnLoad. */
  function Returned(sys: System, now: Time, fl: Flight, result: LoadResult, at: Time): Flight
    requires fl.phase.Loading?
  {
    match result
    case Panics => Finish(fl, Fail(Panicked))
    case Errs => Finish(fl.(onLoads := fl.onLoads + 1), Fail(LoaderFailed))
    case Answers =>
      var reported := fl.(onLoads := fl.onLoads + 1);
      match sys.source(fl.loc, at)
      case Found(v) => reported.(phase := Loaded(v, at, Elapsed(fl.phase.since, now)))
      case Missing =>
        if sys.cfg(fl.loc.cache).negativeTTL > 0 then reported.(phase := AbsenceLoaded(at))
        else Finish(reported, Fail(NotFoundAt(at)))
  }

  function Encoded(sys: System, now: Time, fl: Flight, u: real): Flight
    requires fl.phase.Loaded?
  {
    match sys.codec(fl.loc.cache).marshal(fl.phase.v)
    case None => Finish(fl, Fail(EncodeFailed))
    case Some(payload) =>
      var packed := PackForStore(payload, fl.ttl, fl.phase.loadDur, sys.cfg(fl.loc.cache), now, u);
      fl.(phase := Packing(packed.data, packed.ttl, fl.phase.readAt))
  }

  datatype CallerStep = FirstRead(ok: bool, w: real) | Delete(ok: bool)

  datatype CallerEffect = CallerEffect(pc: Pc, op: StoreOp)

  /** GetOrSetWithCodec up to the flight: read, then serve, self-heal or go and load. */
  function Asking(sys: System, now: Time, read: Option<Entry>, c: Caller, step: CallerStep): Option<CallerEffect> {
    match step
    case FirstRead(ok, w) =>
      if !c.pc.Reading? || w < 0.0 then None
      else Some(CallerEffect(FirstLook(sys, now, read, c, w), Keep))
    case Delete(ok) =>
      if !c.pc.SelfHealing? then None
      else Some(CallerEffect(Joining, if ok then Drop else Keep))
  }

  function FirstLook(sys: System, now: Time, read: Option<Entry>, c: Caller, w: real): Pc {
    match read
    case None => Joining
    case Some(e) =>
      match sys.Look(c.loc, e.item.val)
      case Absent => Answered(NotFound(e.readAt, now), None)
      case Undecodable(_) => SelfHealing
      case Readable(env, v) =>
        if env.Stale(now) || ShouldEarlyRefresh(env, now, sys.cfg(c.loc.cache).earlyRefreshBeta, w) then
          Refreshing(v, env.freshUntil, e.readAt, now)
        else
          Answered(Hit(v, e.readAt, now), None)
  }

  /** What a waiter makes of the shared result. */
  function Interpret(sys: System, loc: Loc, out: Outcome, now: Time): Reply {
    match out
    case Fail(NotFoundAt(at)) => NotFound(at, now)
    case Fail(err) => Error(err)
    case Data(data, at, _) =>
      match sys.Look(loc, data)
      case Absent => NotFound(at, now)
      case Readable(_, v) => Hit(v, at, now)
      case Undecodable(_) => DecodeError
  }

  datatype LaneStep =
    | LaneRead(ok: bool)
    | LaneDelete(ok: bool)
    | LaneLoaderStart
    | LaneLoaderReturn(failed: bool, at: Time)
    | LanePack(u: real)
    | LaneSave(ok: bool, w: real, src: nat)

  datatype LaneEffect = LaneEffect(lane: Lane, op: StoreOp)

  /** GetOrSetManyWithCodec seen from one key. total is the packed TTL of the key that packed last. */
  function Batching(sys: System, now: Time, read: Option<Entry>, ln: Lane, total: Option<Duration>,
                    step: LaneStep): Option<LaneEffect> {
    var cfg := sys.cfg(ln.loc.cache);
    match step
    case LaneRead(ok) =>
      if !ln.phase.LaneReading? then None
      else Some(LaneEffect(ln.(phase := LaneLook(sys, now, read, ln)), Keep))
    case LaneDelete(ok) =>
      if !ln.phase.LaneHealing? then None
      else Some(LaneEffect(ln.(phase := LaneMissing), if ok then Drop else Keep))
    case LaneLoaderStart =>
      if !ln.phase.LaneMissing? then None
      else Some(LaneEffect(ln.(phase := LaneLoading(now)), Keep))
    case LaneLoaderReturn(failed, at) =>
      if !ln.phase.LaneLoading? || !(ln.phase.since <= at <= now) then None
      else Some(LaneEffect(ln.(phase := LaneReturned(sys, now, ln, failed, at)), Keep))
    case LanePack(u) =>
      if !ln.phase.LaneLoaded? || !Draw(u) then None
      else
        (match sys.codec(ln.loc.cache).marshal(ln.phase.v)
         case None => Some(LaneEffect(ln.(phase := LaneDone(Some(ln.phase.v), ln.phase.readAt, ln.phase.readAt)), Keep))
         case Some(payload) =>
           var packed := PackForStore(payload, ln.ttl, ln.phase.loadDur, cfg, now, u);
           var phase := LanePacked(ln.phase.v, packed.data, ln.phase.readAt);
           Some(LaneEffect(ln.(phase := phase, total := Some(packed.ttl)), Keep)))
    case LaneSave(ok, w, src) =>
      if !Draw(w) then None
      else if ln.phase.LanePacked? && total.Some? then
        Some(LaneEffect(ln.(phase := LaneDone(Some(ln.phase.v), ln.phase.readAt, ln.phase.readAt)),
                        if ok then Put(NewItem(ln.phase.data, total.value, cfg, now, w), ln.phase.readAt) else Keep))
      else if ln.phase.LaneOmitted? then
        Some(LaneEffect(ln.(phase := LaneDone(None, ln.phase.readAt, ln.phase.readAt)),
                        if ok then Put(NewItem(NEGATIVE_MARKER, cfg.negativeTTL, cfg, now, w), ln.phase.readAt)
                        else Keep))
      else None
  }

  /** Classification of one batch key: a stale entry is served as it is. */
  function LaneLook(sys: System, now: Time, read: Option<Entry>, ln: Lane): LanePhase {
    match read
    case None => LaneMissing
    case Some(e) =>
      match sys.Look(ln.loc, e.item.val)
      case Absent => LaneDone(None, e.readAt, now)
      case Readable(_, v) => LaneDone(Some(v), e.readAt, now)
      case Undecodable(_) => LaneHealing
  }

  function LaneReturned(sys: System, now: Time, ln: Lane, failed: bool, at: Time): LanePhase
    requires ln.phase.LaneLoading?
  {
    if failed then LaneFailed
    else match sys.source(ln.loc, at)
      case Found(v) => LaneLoaded(v, at, Elapsed(ln.phase.since, now))
      case Missing =>
        if sys.cfg(ln.loc.cache).negativeTTL > 0 then LaneOmitted(at) else LaneDone(None, at, at)
  }

  // ------------------------------------------------------------------
  // Steps of the system
  // ------------------------------------------------------------------

  datatype Action =
    | Tick(to: Time)
    | Ask(loc: Loc, ttl: Duration)
    | Act(c: nat, ask: CallerStep)
    | Join(c: nat)
    | StartRefresh(c: nat)
    | Fly(f: nat, step: BodyStep)
    | Forget(f: nat)
    | Cleanup(f: nat)
    | Deliver(f: nat)
    | Receive(c: nat)
    | Cancel(c: nat)
    | Abandon(c: nat)
    | NewLane(loc: Loc, ttl: Duration, batch: nat)
    | Batch(l: nat, lane: LaneStep)
    | Evict(loc: Loc)
    | Foreign(loc: Loc, item: Item)

  function Apply(s: State, loc: Loc, op: StoreOp, writer: Option<nat>): State {
    match op
    case Keep => s
    case Drop => s.(store := s.store - {loc})
    case Put(item, readAt) =>
      s.(store := s.store[loc := Entry(item, readAt)], log := s.log + [Write(loc, item.val, readAt, writer)])
  }

  /** singleflight DoChan: join the registered call or register a new one, and get a channel. */
  function DoChan(s: State, loc: Loc, ttl: Duration, refresh: bool, refreshOf: Time, reader: Option<nat>)
    : Option<State>
  {
    var name := NameOf(loc);
    if name in s.inflight then
      var f := s.inflight[name];
      if f >= |s.flights| then None
      else
        var fl := s.flights[f];
        Some(s.(flights := s.flights[f := fl.(chans := fl.chans + [|s.channels|])],
                channels := s.channels + [Channel(f, |fl.chans|, reader, None)]))
    else
      var f := |s.flights|;
      var fl := Flight(loc, ttl, refresh, refreshOf, s.now, Starting, [|s.channels|], 0, 0, 0, 0, false);
      Some(s.(inflight := s.inflight[name := f],
              flights := s.flights + [fl],
              channels := s.channels + [Channel(f, 0, reader, None)]))
  }

  function SetPc(s: State, c: nat, pc: Pc): State
    requires c < |s.callers|
  {
    s.(callers := s.callers[c := s.callers[c].(pc := pc)])
  }

  function ActStep(sys: System, s: State, c: nat, ask: CallerStep): Option<State> {
    if c >= |s.callers| then None
    else
      var caller := s.callers[c];
      match Asking(sys, s.now, Read(s, caller.loc, ask.ok), caller, ask)
      case None => None
      case Some(e) => Some(Apply(SetPc(s, c, e.pc), caller.loc, e.op, None))
  }

  function JoinStep(s: State, c: nat): Option<State> {
    if c >= |s.callers| || !s.callers[c].pc.Joining? then None
    else
      match DoChan(s, s.callers[c].loc, s.callers[c].ttl, false, ZERO_TIME, Some(c))
      case None => None
      case Some(s') => if c < |s'.callers| then Some(SetPc(s', c, Waiting(|s.channels|))) else None
  }

  function StartRefreshStep(s: State, c: nat): Option<State> {
    if c >= |s.callers| || !s.callers[c].pc.Refreshing? then None
    else
      var pc := s.callers[c].pc;
      match DoChan(s, s.callers[c].loc, s.callers[c].ttl, true, pc.of, None)
      case None => None
      case Some(s') =>
        if c < |s'.callers| then Some(SetPc(s', c, Answered(Hit(pc.v, pc.readAt, pc.servedAt), None))) else None
  }

  function FlyStep(sys: System, s: State, f: nat, step: BodyStep): Option<State> {
    if f >= |s.flights| then None
    else
      var fl := s.flights[f];
      var ok := if step.Recheck? then step.ok else false;
      match Body(sys, s.now, Read(s, fl.loc, ok), fl, step)
      case None => None
      case Some(e) => Some(Apply(s.(flights := s.flights[f := e.flight]), fl.loc, e.op, Some(f)))
  }

  /** The deferred Forget removes whatever is registered under the key. */
  function ForgetStep(s: State, f: nat): Option<State> {
    if f >= |s.flights| || !s.flights[f].phase.Finished? then None
    else
      var fl := s.flights[f];
      Some(s.(inflight := s.inflight - {NameOf(fl.loc)},
              flights := s.flights[f := fl.(phase := Forgotten(fl.phase.out))]))
  }

  /** singleflight's own end-of-call clean-up removes only the registration of this call. */
  function CleanupStep(s: State, f: nat): Option<State> {
    if f >= |s.flights| || !s.flights[f].phase.Forgotten? then None
    else
      var fl := s.flights[f];
      var name := NameOf(fl.loc);
      Some(s.(inflight := if name in s.inflight && s.inflight[name] == f then s.inflight - {name} else s.inflight,
              flights := s.flights[f := fl.(phase := Delivering(fl.phase.out))]))
  }

  function DeliverStep(s: State, f: nat): Option<State> {
    if f >= |s.flights| || !s.flights[f].phase.Delivering? || s.flights[f].delivered >= |s.flights[f].chans| then None
    else
      var fl := s.flights[f];
      var ch := fl.chans[fl.delivered];
      if ch >= |s.channels| then None
      else
        Some(s.(channels := s.channels[ch := s.channels[ch].(content := Some(fl.phase.out))],
                flights := s.flights[f := fl.(delivered := fl.delivered + 1)]))
  }

  function ReceiveStep(sys: System, s: State, c: nat): Option<State> {
    if c >= |s.callers| || !s.callers[c].pc.Waiting? then None
    else
      var ch := s.callers[c].pc.ch;
      if ch >= |s.channels| || s.channels[ch].content.None? then None
      else Some(SetPc(s, c, Answered(Interpret(sys, s.callers[c].loc, s.channels[ch].content.value, s.now), Some(ch))))
  }

  function CancelStep(s: State, c: nat): Option<State> {
    if c >= |s.callers| then None
    else Some(s.(callers := s.callers[c := s.callers[c].(canceled := true)]))
  }

  /** The select in do takes the ctx.Done branch, once a flight was started or joined. */
  function AbandonStep(s: State, c: nat): Option<State> {
    if c >= |s.callers| || !s.callers[c].canceled || !s.callers[c].pc.Waiting? then None
    else Some(SetPc(s, c, Abandoned(s.callers[c].pc.ch)))
  }

  function BatchStep(sys: System, s: State, l: nat, step: LaneStep): Option<State> {
    if l >= |s.lanes| then None
    else
      var ln := s.lanes[l];
      var ok := if step.LaneRead? then step.ok else false;
      match Batching(sys, s.now, Read(s, ln.loc, ok), ln, SharedTotal(s, ln, step), step)
      case None => None
      case Some(e) => Some(Apply(s.(lanes := s.lanes[l := e.lane]), ln.loc, e.op, None))
  }

  /** The packed TTL of some key of the same call, which all its values are stored under. */
  function SharedTotal(s: State, ln: Lane, step: LaneStep): Option<Duration> {
    if step.LaneSave? && step.src < |s.lanes| then
      var other := s.lanes[step.src];
      if other.batch == ln.batch && other.ttl == ln.ttl && other.loc.cache == ln.loc.cache then other.total else None
    else None
  }

  function Step(sys: System, s: State, a: Action): Option<State> {
    match a
    case Tick(to) => if s.now <= to && SaneClock(to) then Some(s.(now := to)) else None
    case Ask(loc, ttl) => Some(s.(callers := s.callers + [Caller(loc, ttl, false, Reading)]))
    case Act(c, ask) => ActStep(sys, s, c, ask)
    case Join(c) => JoinStep(s, c)
    case StartRefresh(c) => StartRefreshStep(s, c)
    case Fly(f, step) => FlyStep(sys, s, f, step)
    case Forget(f) => ForgetStep(s, f)
    case Cleanup(f) => CleanupStep(s, f)
    case Deliver(f) => DeliverStep(s, f)
    case Receive(c) => ReceiveStep(sys, s, c)
    case Cancel(c) => CancelStep(s, c)
    case Abandon(c) => AbandonStep(s, c)
    case NewLane(loc, ttl, batch) => Some(s.(lanes := s.lanes + [Lane(loc, ttl, batch, s.now, LaneReading, None)]))
    case Batch(l, lane) => BatchStep(sys, s, l, lane)
    case Evict(loc) => Some(s.(store := s.store - {loc}))
    case Foreign(loc, item) =>
      // Bytes that this codec cannot read: corruption, or another schema version.
      if sys.Look(loc, item.val).Undecodable? then Some(s.(store := s.store[loc := Entry(item, s.now)])) else None
  }

  function Run(sys: System, s: State, acts: seq<Action>): Option<State>
    decreases |acts|
  {
    if |acts| == 0 then Some(s)
    else
      match Step(sys, s, acts[0])
      case None => None
      case Some(s') => Run(sys, s', acts[1..])
  }
}
