/** A GetOrSetMany call takes the steps of the concurrent protocol, one lane per key: what the batch method
    computes is what some run of the step relation computes for those lanes. */
module BatchRun {
  import opened Base
  import opened Codecs
  import opened Config
  import opened Envelope
  import opened Stored
  import opened Protocol
  import opened Runs
  import TimedMap
  import Batches
  import BatchLaws
  import BatchDeadlines
  import LoneRun
  import Provenance

  /** One call on cache 0, with what the specification leaves open: the lanes' group, when the loader runs, at
      which instant it looks at the source for each key, whether it fails, and the TTL that values are stored under. */
  datatype Call = Call(
    sys: System, w: Batches.World, ttl: Duration, group: nat,
    loadAt: Time, asOf: Key -> Time, loadEnd: Time, fails: bool, total: Duration)
  {
    /** The draws and the loader's clock are possible ones. */
    ghost predicate Possible() {
      && loadAt <= loadEnd && w.loadDur == Elapsed(loadAt, loadEnd)
      && forall k: Key :: loadAt <= asOf(k) <= loadEnd && Draw(w.packDraw(k)) && Draw(w.setDraw(k))
    }

    function Job(): Batches.Job {
      Batches.Job(sys.cfg(0), sys.codec(0), ttl, w)
    }
  }

  // ------------------------------------------------------------------
  // One key
  // ------------------------------------------------------------------

  /** A lane and what the store holds under its key. */
  datatype Spot = Spot(lane: Lane, entry: Option<Entry>)

  datatype Stage = ReadStage | HealStage | AskStage | AnswerStage | PackStage | SaveStage

  /** The stage has something to do for the lane. */
  predicate Acts(stage: Stage, phase: LanePhase) {
    match stage
    case ReadStage => phase.LaneReading?
    case HealStage => phase.LaneHealing?
    case AskStage => phase.LaneMissing?
    case AnswerStage => phase.LaneLoading?
    case PackStage => phase.LaneLoaded?
    case SaveStage => phase.LanePacked? || phase.LaneOmitted?
  }

  function Due(c: Call, stage: Stage, k: Key): Time {
    match stage
    case ReadStage => c.w.readAt(k)
    case HealStage => c.loadAt
    case AskStage => c.loadAt
    case AnswerStage => c.loadEnd
    case PackStage => c.w.packAt(k)
    case SaveStage => c.w.setAt(k)
  }

  function StepFor(c: Call, stage: Stage, k: Key, src: nat): LaneStep {
    match stage
    case ReadStage => LaneRead(!c.w.ReadFails(k))
    case HealStage => LaneDelete(!c.w.deleteFails(k))
    case AskStage => LaneLoaderStart
    case AnswerStage => LaneLoaderReturn(c.fails, c.asOf(k))
    case PackStage => LanePack(c.w.packDraw(k))
    case SaveStage => LaneSave(!c.w.setFails(k), c.w.setDraw(k), src)
  }

  /** What a read of the key returns at its instant. */
  function Seen(c: Call, stage: Stage, k: Key, spot: Spot): Option<Entry> {
    if stage.ReadStage? && !c.w.ReadFails(k) && spot.entry.Some? && spot.entry.value.item.Live(c.w.readAt(k)) then
      spot.entry
    else None
  }

  /** A read that met an expired entry has dropped it. */
  function Dropped(c: Call, stage: Stage, k: Key, entry: Option<Entry>): Option<Entry> {
    if stage.ReadStage? && !c.w.ReadFails(k) && entry.Some? && !entry.value.item.Live(c.w.readAt(k)) then None
    else entry
  }

  function After(op: StoreOp, entry: Option<Entry>): Option<Entry> {
    match op
    case Keep => entry
    case Drop => None
    case Put(item, at) => Some(Entry(item, at))
  }

  ghost predicate Ready(c: Call, phase: LanePhase) {
    c.Possible() && (phase.LaneLoading? ==> phase.since == c.loadAt)
  }

  ghost function TakeStage(c: Call, stage: Stage, k: Key, spot: Spot): Spot
    requires Ready(c, spot.lane.phase)
  {
    if !Acts(stage, spot.lane.phase) then spot
    else
      var read, step := Seen(c, stage, k, spot), StepFor(c, stage, k, 0);
      var e := Batching(c.sys, Due(c, stage, k), read, spot.lane, Some(c.total), step).value;
      Spot(e.lane, Dropped(c, stage, k, After(e.op, spot.entry)))
  }

  lemma StageKeepsLane(c: Call, stage: Stage, k: Key, spot: Spot)
    requires Ready(c, spot.lane.phase)
    ensures
      var next := TakeStage(c, stage, k, spot);
      && next.lane.loc == spot.lane.loc && next.lane.ttl == spot.lane.ttl && next.lane.batch == spot.lane.batch
      && next.lane.startedAt == spot.lane.startedAt
      && Ready(c, next.lane.phase)
      && (!stage.PackStage? ==> next.lane.total == spot.lane.total)
      && !Acts(stage, next.lane.phase)
  {
    hide PackForStore, NewItem, Classify;
  }

  /** The first two stages, and the other four. */
  ghost function ReadKey(c: Call, k: Key, spot: Spot): Spot
    requires Ready(c, spot.lane.phase)
  {
    StageKeepsLane(c, ReadStage, k, spot);
    TakeStage(c, HealStage, k, TakeStage(c, ReadStage, k, spot))
  }

  ghost function LoadKey(c: Call, k: Key, spot: Spot): Spot
    requires Ready(c, spot.lane.phase)
  {
    StageKeepsLane(c, AskStage, k, spot);
    TakeStage(c, AnswerStage, k, TakeStage(c, AskStage, k, spot))
  }

  ghost function StoreKey(c: Call, k: Key, spot: Spot): Spot
    requires Ready(c, spot.lane.phase)
  {
    StageKeepsLane(c, PackStage, k, spot);
    TakeStage(c, SaveStage, k, TakeStage(c, PackStage, k, spot))
  }

  function Opened(c: Call, k: Key, at: Time, entry: Option<Entry>): Spot {
    Spot(Lane(Loc(0, k), c.ttl, c.group, at, LaneReading, None), entry)
  }

  function ItemAt(m: TimedMap.Items, k: Key): Option<Item> {
    if k in m then Some(m[k]) else None
  }

  function ItemOf(entry: Option<Entry>): Option<Item> {
    if entry.Some? then Some(entry.value.item) else None
  }

  lemma ReadKeyIsAVerdict(c: Call, m: TimedMap.Items, k: Key, at: Time, entry: Option<Entry>)
    requires c.w.configured && c.Possible() && ItemOf(entry) == ItemAt(m, k)
    ensures
      var spot := ReadKey(c, k, Opened(c, k, at, entry));
      var verdict := BatchLaws.VerdictOn(m, c.sys.cfg(0), c.sys.codec(0), c.w, k);
      match verdict
      case Cached(v) => spot.lane.phase.LaneDone? && spot.lane.phase.result == Some(v) && spot.entry == entry
      case KnownAbsent => spot.lane.phase.LaneDone? && spot.lane.phase.result == None && spot.entry == entry
      case _ => spot.lane.phase.LaneMissing?
  {
    hide Classify;
  }

  /** What the read phase leaves under a key of the call. */
  lemma KeptKey(c: Call, m: TimedMap.Items, keys: seq<Key>, k: Key, at: Time, entry: Option<Entry>)
    requires k in keys && c.w.configured && c.Possible() && ItemOf(entry) == ItemAt(m, k)
    ensures
      var uniq, w := Batches.Unique(keys), c.w;
      var raw, read := Batches.Raws(m, w, uniq), Batches.AfterReads(m, w, uniq);
      var kept := Batches.Healed(c.sys.cfg(0), c.sys.codec(0), w, raw, read, uniq);
      ItemAt(kept, k) == ItemOf(ReadKey(c, k, Opened(c, k, at, entry)).entry)
  {
    hide Classify, IsNegative, Batches.Unique, BatchLaws.FirstOccurrenceOrder;
    BatchLaws.UniqueKeepsOrder(keys);
    assert Batches.RawOf(Batches.Raws(m, c.w, Batches.Unique(keys)), k) == Batches.RawRead(m, c.w, k);
  }

  /** What the writes of a call leave under one missing key. */
  lemma WrittenKey(m: TimedMap.Items, job: Batches.Job, loaded: map<Key, Value>, missing: seq<Key>, k: Key)
    requires k in missing
    ensures
      var w := job.w;
      var total := Batches.StoreTtl(job, loaded, missing);
      var stored := Batches.AfterWrite(job.cfg, w, m, Batches.ValsOf(job, loaded, missing), total);
      var negs := Batches.NegsOf(job.cfg, loaded, missing);
      var after := Batches.AfterWrite(job.cfg, w, stored, negs, job.cfg.negativeTTL);
      ItemAt(after, k) ==
      if w.setFails(k) then ItemAt(m, k)
      else if k in loaded then
        if job.Encodable(loaded[k]) then
          Some(NewItem(job.Pack(k, loaded[k]).data, total, job.cfg, w.setAt(k), w.setDraw(k)))
        else ItemAt(m, k)
      else if job.cfg.negativeTTL > 0 then
        Some(NewItem(NEGATIVE_MARKER, job.cfg.negativeTTL, job.cfg, w.setAt(k), w.setDraw(k)))
      else ItemAt(m, k)
  {
    hide NewItem, PackForStore, Batches.StoreTtl;
  }

  lemma LoadedLane(c: Call, k: Key, spot: Spot)
    requires c.Possible() && spot.lane.phase.LaneMissing? && spot.lane.loc == Loc(0, k)
    ensures
      var next := LoadKey(c, k, spot);
      && next.entry == spot.entry
      && next.lane.phase ==
         if c.fails then LaneFailed
         else match c.sys.source(Loc(0, k), c.asOf(k))
           case Found(v) => LaneLoaded(v, c.asOf(k), c.w.loadDur)
           case Missing =>
             if c.sys.cfg(0).negativeTTL > 0 then LaneOmitted(c.asOf(k)) else LaneDone(None, c.asOf(k), c.asOf(k))
  {
  }

  lemma StoredLane(c: Call, k: Key, spot: Spot)
    requires c.Possible() && spot.lane.loc == Loc(0, k) && spot.lane.ttl == c.ttl && !spot.lane.phase.LaneLoading?
    requires spot.lane.phase.LaneLoaded? ==> spot.lane.phase.loadDur == c.w.loadDur
    ensures
      var next, cfg, w := StoreKey(c, k, spot), c.sys.cfg(0), c.w;
      match spot.lane.phase
      case LaneLoaded(v, at, _) =>
        && next.lane.phase == LaneDone(Some(v), at, at)
        && ItemOf(next.entry) ==
           (if !w.setFails(k) && c.Job().Encodable(v) then
              Some(NewItem(c.Job().Pack(k, v).data, c.total, cfg, w.setAt(k), w.setDraw(k)))
            else ItemOf(spot.entry))
      case LaneOmitted(at) =>
        && next.lane.phase == LaneDone(None, at, at)
        && ItemOf(next.entry) ==
           (if !w.setFails(k) then Some(NewItem(NEGATIVE_MARKER, cfg.negativeTTL, cfg, w.setAt(k), w.setDraw(k)))
            else ItemOf(spot.entry))
      case LanePacked(_, _, _) => true
      case _ => next == spot
  {
    hide NewItem, PackForStore;
  }

  /** The whole life of a lane. */
  ghost function LaneRun(c: Call, k: Key, spot: Spot): Spot
    requires Ready(c, spot.lane.phase)
  {
    StagesReady(c, k, spot);
    StoreKey(c, k, LoadKey(c, k, ReadKey(c, k, spot)))
  }

  lemma StagesReady(c: Call, k: Key, spot: Spot)
    requires Ready(c, spot.lane.phase)
    ensures
      var read := ReadKey(c, k, spot);
      && Ready(c, read.lane.phase) && read.lane.loc == spot.lane.loc && read.lane.ttl == spot.lane.ttl
      && var loaded := LoadKey(c, k, read);
      Ready(c, loaded.lane.phase) && loaded.lane.loc == spot.lane.loc && loaded.lane.ttl == spot.lane.ttl
  {
    hide TakeStage, Ready;
    var s1 := StageKeeps(c, ReadStage, k, spot);
    var s2 := StageKeeps(c, HealStage, k, s1);
    var s3 := StageKeeps(c, AskStage, k, s2);
    var s4 := StageKeeps(c, AnswerStage, k, s3);
  }

  lemma StageKeeps(c: Call, stage: Stage, k: Key, spot: Spot) returns (next: Spot)
    requires Ready(c, spot.lane.phase)
    ensures
      && next == TakeStage(c, stage, k, spot)
      && next.lane.loc == spot.lane.loc && next.lane.ttl == spot.lane.ttl && next.lane.batch == spot.lane.batch
      && Ready(c, next.lane.phase)
  {
    StageKeepsLane(c, stage, k, spot);
    next := TakeStage(c, stage, k, spot);
  }

  /** The source, the failure and the TTL of the call are those of its specification. */
  ghost predicate Fits(c: Call, m: TimedMap.Items, keys: seq<Key>, loader: Batches.Loader) {
    var out := Spec(c, m, keys, loader);
    out.asked.Some? ==>
      var answers := loader(out.asked.value);
      && c.fails == answers.Err?
      && (answers.Ok? ==>
            && c.total == Batches.StoreTtl(c.Job(), answers.value, out.asked.value)
            && forall k :: k in out.asked.value ==>
                 c.sys.source(Loc(0, k), c.asOf(k)) == if k in answers.value then Found(answers.value[k]) else Missing)
  }

  function Spec(c: Call, m: TimedMap.Items, keys: seq<Key>, loader: Batches.Loader): Batches.Outcome {
    Batches.ManySpec(m, c.sys.cfg(0), c.sys.codec(0), keys, c.ttl, loader, c.w)
  }

  /** The lane tells of its key what the call answers. The lanes of a failed call's missing keys have failed. */
  ghost predicate Tells(out: Batches.Outcome, k: Key, phase: LanePhase) {
    if out.reply.Ok? then
      && phase.LaneDone?
      && (k in out.reply.value <==> phase.result.Some?)
      && (k in out.reply.value ==> out.reply.value[k] == phase.result.value)
    else out.asked.Some? && if k in out.asked.value then phase.LaneFailed? else phase.LaneDone?
  }

  /** For every key, the call answers and leaves in the store exactly what the key's lane does. */
  lemma EachKeyIsALane(c: Call, m: TimedMap.Items, keys: seq<Key>, loader: Batches.Loader, k: Key, at: Time,
                       entry: Option<Entry>)
    requires k in keys && c.w.configured && c.Possible() && Fits(c, m, keys, loader) && ItemOf(entry) == ItemAt(m, k)
    ensures
      var spot := LaneRun(c, k, Opened(c, k, at, entry));
      && ItemOf(spot.entry) == ItemAt(Spec(c, m, keys, loader).contents, k)
      && Tells(Spec(c, m, keys, loader), k, spot.lane.phase)
  {
    hide ReadKey, LoadKey, StoreKey, NewItem, PackForStore, BatchLaws.VerdictOn, BatchLaws.FirstOccurrenceOrder;
    hide Batches.Judge, Batches.AfterWrite, Batches.Healed, Batches.AfterReads, Batches.CachedOf, Batches.MissingOf;
    hide Batches.Raws, Batches.Unique, Batches.Decodes, Batches.Encodes, Batches.Loads;
    var cfg, codec, w := c.sys.cfg(0), c.sys.codec(0), c.w;
    var first := Opened(c, k, at, entry);
    StagesReady(c, k, first);
    var read := ReadKey(c, k, first);
    ReadKeyIsAVerdict(c, m, k, at, entry);
    BatchLaws.AskedIsMissing(m, cfg, codec, keys, c.ttl, loader, w);
    KeptKey(c, m, keys, k, at, entry);
    var out := Spec(c, m, keys, loader);
    if out.reply.Ok? {
      BatchLaws.ResultIsCachedPlusLoaded(m, cfg, codec, keys, c.ttl, loader, w, k);
    }
    if Batches.NeedsLoad(BatchLaws.VerdictOn(m, cfg, codec, w, k)) {
      LoadedLane(c, k, read);
      StoredLane(c, k, LoadKey(c, k, read));
      if out.reply.Ok? {
        var uniq := Batches.Unique(keys);
        var kept := Batches.Healed(cfg, codec, w, Batches.Raws(m, w, uniq), Batches.AfterReads(m, w, uniq), uniq);
        WrittenKey(kept, c.Job(), loader(out.asked.value).value, out.asked.value, k);
      }
    } else {
      SettledStays(c, k, read);
      BatchLaws.OtherKeysAreUntouched(m, cfg, codec, keys, c.ttl, loader, w, k);
    }
  }

  lemma SettledStays(c: Call, k: Key, spot: Spot)
    requires c.Possible() && spot.lane.phase.LaneDone?
    ensures LoadKey(c, k, spot) == spot && StoreKey(c, k, spot) == spot
  {
  }

  // ------------------------------------------------------------------
  // All keys of a call
  // ------------------------------------------------------------------

  type Spots = map<Key, Spot>

  function StoredAt(s: State, k: Key): Option<Entry> {
    if Loc(0, k) in s.store then Some(s.store[Loc(0, k)]) else None
  }

  ghost predicate Distinct(ks: seq<Key>) {
    forall i, j :: 0 <= i < j < |ks| ==> ks[i] != ks[j]
  }

  /** The lanes of the call and the entries of its keys are as given. */
  ghost predicate Placed(s: State, base: nat, ks: seq<Key>, spots: Spots) {
    && |s.lanes| == base + |ks|
    && forall i :: 0 <= i < |ks| ==>
         ks[i] in spots && s.lanes[base + i] == spots[ks[i]].lane && StoredAt(s, ks[i]) == spots[ks[i]].entry
  }

  /** They are lanes of this call, and nothing else is. */
  ghost predicate Alike(c: Call, ks: seq<Key>, spots: Spots) {
    && (forall k :: k in spots <==> k in ks)
    && forall k :: k in spots ==>
         && spots[k].lane.loc == Loc(0, k) && spots[k].lane.ttl == c.ttl && spots[k].lane.batch == c.group
         && Ready(c, spots[k].lane.phase)
  }

  /** Only the clock, the history, the lanes of the call and the entries of its keys have changed. */
  ghost predicate Framed(s: State, s': State, base: nat, ks: seq<Key>) {
    && s'.inflight == s.inflight && s'.flights == s.flights && s'.channels == s.channels && s'.callers == s.callers
    && base <= |s.lanes| && base <= |s'.lanes| && s'.lanes[..base] == s.lanes[..base]
    && forall loc: Loc :: loc.cache != 0 || loc.key !in ks ==>
         (loc in s'.store <==> loc in s.store) && (loc in s.store ==> s'.store[loc] == s.store[loc])
  }

  /** The call's total is to be had from lane src, for a value that is about to be stored. */
  ghost predicate Supplied(c: Call, ks: seq<Key>, spots: Spots, k: Key, src: nat) {
    k in spots && spots[k].lane.phase.LanePacked? ==>
      src < |ks| && ks[src] in spots && spots[ks[src]].lane.total == Some(c.total)
  }

  lemma SameTurn(c: Call, stage: Stage, k: Key, spot: Spot, total: Option<Duration>, src: nat)
    requires Ready(c, spot.lane.phase) && Acts(stage, spot.lane.phase)
    requires spot.lane.phase.LanePacked? ==> total == Some(c.total)
    ensures
      var read := Seen(c, stage, k, spot);
      && Batching(c.sys, Due(c, stage, k), read, spot.lane, total, StepFor(c, stage, k, src)).Some?
      && Batching(c.sys, Due(c, stage, k), read, spot.lane, total, StepFor(c, stage, k, src))
         == Batching(c.sys, Due(c, stage, k), read, spot.lane, Some(c.total), StepFor(c, stage, k, 0))
  {
    hide PackForStore, NewItem, Classify;
  }

  /** Nothing but one lane, the entry of its key, the clock and the history has changed. */
  ghost predicate MovedOne(s: State, s': State, l: nat, k: Key, next: Spot) {
    && s'.inflight == s.inflight && s'.flights == s.flights && s'.channels == s.channels && s'.callers == s.callers
    && l < |s.lanes| && s'.lanes == s.lanes[l := next.lane]
    && StoredAt(s', k) == next.entry
    && forall loc: Loc :: loc != Loc(0, k) ==>
         (loc in s'.store <==> loc in s.store) && (loc in s.store ==> s'.store[loc] == s.store[loc])
  }

  lemma PlacedAfterMove(s: State, s': State, base: nat, ks: seq<Key>, spots: Spots, i: nat, next: Spot)
    requires Placed(s, base, ks, spots) && Distinct(ks) && i < |ks| && MovedOne(s, s', base + i, ks[i], next)
    ensures Placed(s', base, ks, spots[ks[i] := next]) && Framed(s, s', base, ks)
  {
    forall j | 0 <= j < |ks| && j != i ensures ks[j] != ks[i] && StoredAt(s', ks[j]) == StoredAt(s, ks[j]) {
      assert Loc(0, ks[j]) != Loc(0, ks[i]);
    }
  }

  /** One lane takes its turn. */
  lemma TakeTurn(c: Call, stage: Stage, s0: State, s: State, base: nat, ks: seq<Key>, spots: Spots, i: nat, src: nat)
    returns (s': State)
    requires Reaches(c.sys, ANY, s0, s) && Placed(s, base, ks, spots) && Alike(c, ks, spots) && Distinct(ks)
    requires i < |ks| && Acts(stage, spots[ks[i]].lane.phase) && Supplied(c, ks, spots, ks[i], src)
    requires s.now <= Due(c, stage, ks[i]) && SaneClock(Due(c, stage, ks[i]))
    ensures Reaches(c.sys, ANY, s0, s') && s'.now == Due(c, stage, ks[i]) && Framed(s, s', base, ks)
    ensures Placed(s', base, ks, spots[ks[i] := TakeStage(c, stage, ks[i], spots[ks[i]])])
  {
    hide Reaches, Batching, SaneClock, Acts, Ready, StepFor, Due, Dropped, Seen, Supplied, Framed, SharedTotal;
    var k := ks[i];
    var spot := spots[k];
    var s1 := s.(now := Due(c, stage, k));
    Next(c.sys, ANY, s0, s, Tick(s1.now), s1);
    var total := SharedTotal(s1, spot.lane, StepFor(c, stage, k, base + src));
    SharedTotalIsSupplied(c, stage, s1, base, ks, spots, k, src);
    SameTurn(c, stage, k, spot, total, base + src);
    s' := BatchMoves(c, stage, s0, s1, base + i, k, spot, base + src);
    PlacedAfterMove(s, s', base, ks, spots, i, TakeStage(c, stage, k, spot));
  }

  lemma SeenIsRead(c: Call, stage: Stage, s: State, k: Key, spot: Spot, src: nat)
    requires s.now == Due(c, stage, k) && StoredAt(s, k) == spot.entry
    ensures
      var step := StepFor(c, stage, k, src);
      Read(s, Loc(0, k), if step.LaneRead? then step.ok else false) == Seen(c, stage, k, spot)
  {
  }

  lemma BatchMoves(c: Call, stage: Stage, s0: State, s: State, l: nat, k: Key, spot: Spot, src: nat) returns (s': State)
    requires Reaches(c.sys, ANY, s0, s) && l < |s.lanes| && s.lanes[l] == spot.lane && StoredAt(s, k) == spot.entry
    requires spot.lane.loc == Loc(0, k) && Ready(c, spot.lane.phase) && Acts(stage, spot.lane.phase)
    requires s.now == Due(c, stage, k)
    requires
      var step, read := StepFor(c, stage, k, src), Seen(c, stage, k, spot);
      var e := Batching(c.sys, s.now, read, spot.lane, SharedTotal(s, spot.lane, step), step);
      e.Some? && e == Batching(c.sys, s.now, read, spot.lane, Some(c.total), StepFor(c, stage, k, 0))
    ensures Reaches(c.sys, ANY, s0, s') && s'.now == s.now && MovedOne(s, s', l, k, TakeStage(c, stage, k, spot))
  {
    hide Reaches, Batching, SharedTotal, Ready, Acts, Due, Seen, StepFor, Read;
    var step := StepFor(c, stage, k, src);
    SeenIsRead(c, stage, s, k, spot, src);
    var e := Batching(c.sys, s.now, Seen(c, stage, k, spot), spot.lane, SharedTotal(s, spot.lane, step), step).value;
    var s1 := Apply(s.(lanes := s.lanes[l := e.lane]), spot.lane.loc, e.op, None);
    assert Step(c.sys, s, Batch(l, step)) == Some(s1);
    Next(c.sys, ANY, s0, s, Batch(l, step), s1);
    s' := s1;
    var left := After(e.op, spot.entry);
    if Dropped(c, stage, k, left) != left {
      s' := s1.(store := s1.store - {Loc(0, k)});
      Next(c.sys, ANY, s0, s1, Evict(Loc(0, k)), s');
    }
  }

  lemma SharedTotalIsSupplied(c: Call, stage: Stage, s: State, base: nat, ks: seq<Key>, spots: Spots, k: Key, src: nat)
    requires Placed(s, base, ks, spots) && Alike(c, ks, spots) && k in ks && Supplied(c, ks, spots, k, src)
    requires Acts(stage, spots[k].lane.phase)
    ensures spots[k].lane.phase.LanePacked? ==>
              SharedTotal(s, spots[k].lane, StepFor(c, stage, k, base + src)) == Some(c.total)
  {
    hide Ready;
  }

  /** The lanes that act find their instants in order. */
  ghost predicate Timed(c: Call, stage: Stage, spots: Spots, order: seq<Key>, now: Time) {
    && (forall i :: 0 <= i < |order| ==> order[i] in spots)
    && (forall i :: 0 <= i < |order| && Acts(stage, spots[order[i]].lane.phase) ==>
         now <= Due(c, stage, order[i]) && SaneClock(Due(c, stage, order[i])))
    && (forall i, j :: 0 <= i < j < |order|
                       && Acts(stage, spots[order[i]].lane.phase) && Acts(stage, spots[order[j]].lane.phase) ==>
         Due(c, stage, order[i]) <= Due(c, stage, order[j]))
  }

  /** Every lane of the order has taken the stage, and no other. */
  ghost predicate Staged(c: Call, stage: Stage, spots: Spots, spots': Spots, order: seq<Key>) {
    && spots'.Keys == spots.Keys
    && forall k :: k in spots ==>
         && Ready(c, spots[k].lane.phase)
         && spots'[k] == if k in order then TakeStage(c, stage, k, spots[k]) else spots[k]
  }

  /** The lanes take one stage, one after the other. */
  lemma {:induction false} RunStage(c: Call, stage: Stage, s0: State, s: State, base: nat, ks: seq<Key>, spots: Spots,
                                    order: seq<Key>, src: nat, limit: Time)
    returns (s': State, spots': Spots)
    requires Reaches(c.sys, ANY, s0, s) && Placed(s, base, ks, spots) && Alike(c, ks, spots) && Distinct(ks)
    requires Distinct(order) && Timed(c, stage, spots, order, s.now)
    requires stage.SaveStage? ==> forall k :: k in spots ==> Supplied(c, ks, spots, k, src)
    requires s.now <= limit
    requires forall i :: 0 <= i < |order| && Acts(stage, spots[order[i]].lane.phase) ==>
               Due(c, stage, order[i]) <= limit
    ensures Reaches(c.sys, ANY, s0, s') && Placed(s', base, ks, spots') && Alike(c, ks, spots')
    ensures Framed(s, s', base, ks) && s.now <= s'.now <= limit
    ensures Staged(c, stage, spots, spots', order)
    decreases |order|
  {
    hide Reaches, TakeStage, Ready, Acts, Due, SaneClock, Placed, Framed, Supplied;
    if |order| == 0 {
      s', spots' := s, spots;
      FramedRefl(s, base, ks, spots);
    } else {
      var k := order[0];
      var s1, spots1 := s, spots;
      var next := StageKeeps(c, stage, k, spots[k]);
      if Acts(stage, spots[k].lane.phase) {
        var i :| 0 <= i < |ks| && ks[i] == k;
        OnlySavingNeedsTotals(c, stage, ks, spots, k, src);
        s1 := TakeTurn(c, stage, s0, s, base, ks, spots, i, src);
        spots1 := spots[k := next];
      } else {
        IdleStage(c, stage, k, spots[k]);
        FramedRefl(s, base, ks, spots);
      }
      StillSupplied(c, stage, ks, spots, spots1, k, src);
      TailIsTimed(c, stage, spots, spots1, order, s.now, s1.now);
      s', spots' := RunStage(c, stage, s0, s1, base, ks, spots1, order[1..], src, limit);
      FramedTrans(s, s1, s', base, ks);
      StagedFirst(c, stage, spots, spots1, spots', order);
    }
  }

  lemma OnlySavingNeedsTotals(c: Call, stage: Stage, ks: seq<Key>, spots: Spots, k: Key, src: nat)
    requires k in spots && Acts(stage, spots[k].lane.phase)
    requires stage.SaveStage? ==> Supplied(c, ks, spots, k, src)
    ensures Supplied(c, ks, spots, k, src)
  {
  }

  lemma IdleStage(c: Call, stage: Stage, k: Key, spot: Spot)
    requires Ready(c, spot.lane.phase) && !Acts(stage, spot.lane.phase)
    ensures TakeStage(c, stage, k, spot) == spot
  {
  }

  /** A stage that one lane has taken leaves the totals of all lanes. */
  lemma StillSupplied(c: Call, stage: Stage, ks: seq<Key>, spots: Spots, spots1: Spots, k: Key, src: nat)
    requires k in spots && Ready(c, spots[k].lane.phase)
    requires spots1 == spots || spots1 == spots[k := TakeStage(c, stage, k, spots[k])]
    requires stage.SaveStage? ==> forall l :: l in spots ==> Supplied(c, ks, spots, l, src)
    ensures stage.SaveStage? ==> forall l :: l in spots1 ==> Supplied(c, ks, spots1, l, src)
  {
    hide TakeStage, Ready;
    StageKeepsLane(c, stage, k, spots[k]);
    if stage.SaveStage? {
      forall l | l in spots1 ensures Supplied(c, ks, spots1, l, src) {
        assert Supplied(c, ks, spots, l, src);
      }
    }
  }

  lemma TailIsTimed(c: Call, stage: Stage, spots: Spots, spots1: Spots, order: seq<Key>, now: Time, now1: Time)
    requires |order| > 0 && Distinct(order) && Timed(c, stage, spots, order, now)
    requires forall i :: 1 <= i < |order| ==> order[i] in spots1 && spots1[order[i]] == spots[order[i]]
    requires now1 == if Acts(stage, spots[order[0]].lane.phase) then Due(c, stage, order[0]) else now
    ensures Timed(c, stage, spots1, order[1..], now1)
  {
    hide Acts, Due, SaneClock;
    forall i | 0 <= i < |order[1..]| ensures order[1..][i] == order[i + 1] && order[i + 1] in spots1 {
    }
  }

  lemma FramedRefl(s: State, base: nat, ks: seq<Key>, spots: Spots)
    requires Placed(s, base, ks, spots)
    ensures Framed(s, s, base, ks)
  {
  }

  lemma FramedTrans(s: State, t: State, u: State, base: nat, ks: seq<Key>)
    requires Framed(s, t, base, ks) && Framed(t, u, base, ks)
    ensures Framed(s, u, base, ks)
  {
  }

  lemma StagedFirst(c: Call, stage: Stage, spots: Spots, spots1: Spots, spots': Spots, order: seq<Key>)
    requires |order| > 0 && Distinct(order) && order[0] in spots
    requires forall k :: k in spots ==> Ready(c, spots[k].lane.phase)
    requires spots1 == spots[order[0] := TakeStage(c, stage, order[0], spots[order[0]])]
    requires Staged(c, stage, spots1, spots', order[1..])
    ensures Staged(c, stage, spots, spots', order)
  {
    hide TakeStage, Ready;
    assert order == [order[0]] + order[1..];
    forall i | 0 <= i < |order[1..]| ensures order[1..][i] != order[0] {
    }
  }

  // ------------------------------------------------------------------
  // The call
  // ------------------------------------------------------------------

  /** The lanes of a call start at one instant. */
  lemma {:induction false} OpenLanes(c: Call, s: State, ks: seq<Key>, n: nat) returns (s': State)
    requires n <= |ks|
    ensures Reaches(c.sys, ANY, s, s') && s' == s.(lanes := s'.lanes)
    ensures |s'.lanes| == |s.lanes| + n && s'.lanes[..|s.lanes|] == s.lanes
    ensures forall i :: 0 <= i < n ==> s'.lanes[|s.lanes| + i] == Opened(c, ks[i], s.now, None).lane
  {
    hide Reaches;
    if n == 0 {
      Stays(c.sys, ANY, s);
      s' := s;
      assert s'.lanes[..|s.lanes|] == s.lanes;
    } else {
      var s1 := OpenLanes(c, s, ks, n - 1);
      s' := s1.(lanes := s1.lanes + [Opened(c, ks[n - 1], s.now, None).lane]);
      Next(c.sys, ANY, s, s1, NewLane(Loc(0, ks[n - 1]), c.ttl, c.group), s');
    }
  }

  function FirstSpots(c: Call, s: State, ks: seq<Key>): Spots {
    map k | k in ks :: Opened(c, k, s.now, StoredAt(s, k))
  }

  function AskedOf(out: Batches.Outcome): seq<Key> {
    if out.asked.Some? then out.asked.value else []
  }

  /** The clock of a call: reads in order of the request, then the loader, then the packing in order, then the
      stores in the order in which the map happens to be visited. */
  ghost predicate Schedule(c: Call, now: Time, uniq: seq<Key>, asked: seq<Key>, order: seq<Key>) {
    && InOrder(c.w.readAt, uniq) && Between(c.w.readAt, uniq, now, c.loadAt, asked != [])
    && (asked != [] ==> now <= c.loadAt && SaneClock(c.loadAt) && SaneClock(c.loadEnd))
    && (!c.fails ==>
          && InOrder(c.w.packAt, asked) && InOrder(c.w.setAt, order)
          && (forall k :: k in order <==> k in asked) && Distinct(order)
          && (forall k, l :: k in asked && l in asked ==>
                c.loadEnd <= c.w.packAt(k) <= c.w.setAt(l) && SaneClock(c.w.packAt(k)) && SaneClock(c.w.setAt(l))))
  }

  ghost predicate InOrder(when: Key -> Time, ks: seq<Key>) {
    forall i, j :: 0 <= i < j < |ks| ==> when(ks[i]) <= when(ks[j])
  }

  ghost predicate Between(when: Key -> Time, ks: seq<Key>, from: Time, to: Time, limited: bool) {
    forall k :: k in ks ==> from <= when(k) && SaneClock(when(k)) && (limited ==> when(k) <= to)
  }

  /** A stage that acts on keys of the order only has been taken by all. */
  lemma StagedAll(c: Call, stage: Stage, spots: Spots, spots': Spots, order: seq<Key>)
    requires Staged(c, stage, spots, spots', order)
    requires forall k :: k in spots && k !in order ==> !Acts(stage, spots[k].lane.phase)
    ensures forall k :: k in spots ==> Ready(c, spots[k].lane.phase) && spots'[k] == TakeStage(c, stage, k, spots[k])
  {
    hide TakeStage, Acts, Ready;
    forall k | k in spots ensures Ready(c, spots[k].lane.phase) && spots'[k] == TakeStage(c, stage, k, spots[k]) {
      if k !in order {
        IdleStage(c, stage, k, spots[k]);
      }
    }
  }

  /** How far a key gets: the keys that the loader is asked for are those that still miss after the reads. */
  lemma KeyPath(c: Call, m: TimedMap.Items, keys: seq<Key>, loader: Batches.Loader, k: Key, at: Time,
                entry: Option<Entry>)
    requires k in keys && c.w.configured && c.Possible() && Fits(c, m, keys, loader) && ItemOf(entry) == ItemAt(m, k)
    ensures
      var first, asked := Opened(c, k, at, entry), AskedOf(Spec(c, m, keys, loader));
      var read := ReadKey(c, k, first);
      && (TakeStage(c, ReadStage, k, first).lane.phase.LaneHealing? ==> k in asked)
      && (if k in asked then read.lane.phase.LaneMissing? else read.lane.phase.LaneDone?)
      && read.lane.loc == Loc(0, k) && read.lane.ttl == c.ttl
  {
    hide Classify, NewItem, PackForStore, BatchLaws.VerdictOn, BatchLaws.FirstOccurrenceOrder, TakeStage;
    hide Batches.Judge, Batches.AfterWrite, Batches.Healed, Batches.AfterReads, Batches.CachedOf, Batches.MissingOf;
    hide Batches.Raws, Batches.Unique, Batches.Decodes, Batches.Encodes, Batches.Loads, Fits;
    ReadKeyIsAVerdict(c, m, k, at, entry);
    BatchLaws.AskedIsMissing(m, c.sys.cfg(0), c.sys.codec(0), keys, c.ttl, loader, c.w);
    StagesReady(c, k, Opened(c, k, at, entry));
    HealingMisses(c, k, Opened(c, k, at, entry));
  }

  lemma HealingMisses(c: Call, k: Key, spot: Spot)
    requires Ready(c, spot.lane.phase)
    ensures TakeStage(c, ReadStage, k, spot).lane.phase.LaneHealing? ==> ReadKey(c, k, spot).lane.phase.LaneMissing?
  {
    hide Classify;
    StageKeepsLane(c, ReadStage, k, spot);
  }

  /** A packed lane has the TTL of its own packing as its total. */
  lemma PackedLane(c: Call, k: Key, spot: Spot)
    requires c.Possible() && spot.lane.phase.LaneLoaded? && spot.lane.phase.loadDur == c.w.loadDur
    requires spot.lane.loc == Loc(0, k) && spot.lane.ttl == c.ttl
    ensures
      var next, v := TakeStage(c, PackStage, k, spot), spot.lane.phase.v;
      if c.Job().Encodable(v) then next.lane.phase.LanePacked? && next.lane.total == Some(c.Job().Pack(k, v).ttl)
      else next.lane.phase.LaneDone?
  {
    hide PackForStore;
  }

  lemma OpenedArePlaced(c: Call, s: State, s': State, uniq: seq<Key>)
    requires s' == s.(lanes := s'.lanes) && c.Possible() && Distinct(uniq)
    requires |s'.lanes| == |s.lanes| + |uniq| && s'.lanes[..|s.lanes|] == s.lanes
    requires forall i :: 0 <= i < |uniq| ==> s'.lanes[|s.lanes| + i] == Opened(c, uniq[i], s.now, None).lane
    ensures Placed(s', |s.lanes|, uniq, FirstSpots(c, s, uniq)) && Alike(c, uniq, FirstSpots(c, s, uniq))
    ensures Framed(s, s', |s.lanes|, uniq)
  {
  }

  /** The lanes open and read. */
  lemma RunReads(c: Call, s: State, uniq: seq<Key>, asked: seq<Key>) returns (s': State, spots: Spots)
    requires c.Possible() && Distinct(uniq) && InOrder(c.w.readAt, uniq)
    requires Between(c.w.readAt, uniq, s.now, c.loadAt, asked != []) && (asked != [] ==> s.now <= c.loadAt)
    ensures Reaches(c.sys, ANY, s, s') && Placed(s', |s.lanes|, uniq, spots) && Alike(c, uniq, spots)
    ensures Framed(s, s', |s.lanes|, uniq) && s.now <= s'.now && (asked != [] ==> s'.now <= c.loadAt)
    ensures forall k :: k in uniq ==> spots[k] == TakeStage(c, ReadStage, k, Opened(c, k, s.now, StoredAt(s, k)))
  {
    hide Reaches, TakeStage, SaneClock, Placed, Framed;
    var s1 := OpenLanes(c, s, uniq, |uniq|);
    OpenedArePlaced(c, s, s1, uniq);
    var first := FirstSpots(c, s, uniq);
    var limit := if asked != [] then c.loadAt else if |uniq| > 0 then c.w.readAt(uniq[|uniq| - 1]) else s.now;
    if |uniq| > 0 {
      assert uniq[|uniq| - 1] in uniq;
    }
    s', spots := RunStage(c, ReadStage, s, s1, |s.lanes|, uniq, first, uniq, 0, limit);
    FramedTrans(s, s1, s', |s.lanes|, uniq);
  }

  /** All lanes have taken the stage. */
  ghost predicate TookAll(c: Call, stage: Stage, spots: Spots, spots': Spots) {
    && spots'.Keys == spots.Keys
    && forall k :: k in spots ==> Ready(c, spots[k].lane.phase) && spots'[k] == TakeStage(c, stage, k, spots[k])
  }

  /** The lanes of the other keys are done. */
  ghost predicate RestDone(spots: Spots, asked: seq<Key>) {
    forall k :: k in spots && k !in asked ==> spots[k].lane.phase.LaneDone?
  }

  ghost predicate Covers(asked: seq<Key>, spots: Spots) {
    forall k :: k in asked ==> k in spots
  }

  /** The lanes of the keys that the loader is asked for take one stage, in any order of them. */
  lemma FullStage(c: Call, stage: Stage, s0: State, s: State, base: nat, uniq: seq<Key>, spots: Spots,
                  order: seq<Key>, src: nat, limit: Time)
    returns (s': State, spots': Spots)
    requires Reaches(c.sys, ANY, s0, s) && Placed(s, base, uniq, spots) && Alike(c, uniq, spots) && Distinct(uniq)
    requires Distinct(order) && Covers(order, spots) && RestDone(spots, order) && Timed(c, stage, spots, order, s.now)
    requires stage.SaveStage? ==> forall k :: k in spots ==> Supplied(c, uniq, spots, k, src)
    requires s.now <= limit && forall k :: k in order ==> Due(c, stage, k) <= limit
    ensures Reaches(c.sys, ANY, s0, s') && Placed(s', base, uniq, spots') && Alike(c, uniq, spots')
    ensures Framed(s, s', base, uniq) && s.now <= s'.now <= limit
    ensures TookAll(c, stage, spots, spots') && RestDone(spots', order) && Covers(order, spots')
  {
    hide Reaches, TakeStage, Placed, Framed, Ready, Alike, Timed, Acts, Due, Supplied;
    assert forall i :: 0 <= i < |order| ==> order[i] in order;
    DoneActsNever(stage, spots, order);
    s', spots' := RunStage(c, stage, s0, s, base, uniq, spots, order, src, limit);
    StagedAll(c, stage, spots, spots', order);
    DoneIsIdle(c, stage, spots, spots', order);
  }

  lemma DoneActsNever(stage: Stage, spots: Spots, order: seq<Key>)
    requires RestDone(spots, order)
    ensures forall k :: k in spots && k !in order ==> !Acts(stage, spots[k].lane.phase)
  {
  }

  /** A lane that is done takes no stage. */
  lemma DoneIsIdle(c: Call, stage: Stage, spots: Spots, spots': Spots, order: seq<Key>)
    requires Staged(c, stage, spots, spots', order)
    requires forall k :: k in spots && k !in order ==> spots[k].lane.phase.LaneDone?
    ensures forall k :: k in spots' && k !in order ==> spots'[k].lane.phase.LaneDone?
  {
    hide TakeStage, Ready;
  }

  lemma OneInstant(c: Call, stage: Stage, spots: Spots, order: seq<Key>, now: Time, at: Time)
    requires Covers(order, spots) && forall k :: k in order ==> Due(c, stage, k) == at
    requires order != [] ==> now <= at && SaneClock(at)
    ensures Timed(c, stage, spots, order, now)
  {
    hide Due, Acts, SaneClock;
    assert forall i :: 0 <= i < |order| ==> order[i] in order;
  }

  lemma ManyInstants(c: Call, stage: Stage, spots: Spots, order: seq<Key>, now: Time, when: Key -> Time)
    requires Covers(order, spots) && InOrder(when, order) && forall k :: k in order ==> Due(c, stage, k) == when(k)
    requires forall k :: k in order ==> now <= when(k) && SaneClock(when(k))
    ensures Timed(c, stage, spots, order, now)
  {
    hide Due, Acts, SaneClock;
    assert forall i :: 0 <= i < |order| ==> order[i] in order;
  }

  /** What did not decode is deleted, and the loader runs, for the keys that it is asked for. */
  lemma RunLoads(c: Call, s0: State, s: State, base: nat, uniq: seq<Key>, spots: Spots, asked: seq<Key>)
    returns (s': State, spots': Spots)
    requires Reaches(c.sys, ANY, s0, s) && Placed(s, base, uniq, spots) && Alike(c, uniq, spots)
    requires c.Possible() && Distinct(uniq) && Distinct(asked) && Covers(asked, spots) && RestDone(spots, asked)
    requires asked != [] ==> s.now <= c.loadAt && SaneClock(c.loadAt) && SaneClock(c.loadEnd)
    ensures Reaches(c.sys, ANY, s0, s') && Placed(s', base, uniq, spots') && Alike(c, uniq, spots')
    ensures Framed(s, s', base, uniq) && (asked != [] ==> s'.now <= c.loadEnd)
    ensures Covers(asked, spots') && RestDone(spots', asked)
    ensures forall k :: k in spots' ==>
              && k in spots && Ready(c, spots[k].lane.phase)
              && Ready(c, TakeStage(c, HealStage, k, spots[k]).lane.phase)
              && spots'[k] == LoadKey(c, k, TakeStage(c, HealStage, k, spots[k]))
  {
    hide Reaches, TakeStage, SaneClock, Placed, Framed, Ready, Alike, Timed, TookAll, RestDone, Covers;
    hide LoadKey, Distinct;
    var start := if asked != [] then c.loadAt else s.now;
    var end := if asked != [] then c.loadEnd else s.now;
    OneInstant(c, HealStage, spots, asked, s.now, start);
    var s1, spots1 := FullStage(c, HealStage, s0, s, base, uniq, spots, asked, 0, start);
    OneInstant(c, AskStage, spots1, asked, s1.now, start);
    var s2, spots2 := FullStage(c, AskStage, s0, s1, base, uniq, spots1, asked, 0, start);
    OneInstant(c, AnswerStage, spots2, asked, s2.now, end);
    s', spots' := FullStage(c, AnswerStage, s0, s2, base, uniq, spots2, asked, 0, end);
    FramedTrans(s, s1, s2, base, uniq);
    FramedTrans(s, s2, s', base, uniq);
    LoadComposes(c, spots, spots1, spots2, spots');
  }

  lemma LoadComposes(c: Call, spots: Spots, spots1: Spots, spots2: Spots, spots3: Spots)
    requires TookAll(c, HealStage, spots, spots1) && TookAll(c, AskStage, spots1, spots2)
    requires TookAll(c, AnswerStage, spots2, spots3)
    ensures forall k :: k in spots3 ==>
              && k in spots && Ready(c, spots[k].lane.phase)
              && Ready(c, TakeStage(c, HealStage, k, spots[k]).lane.phase)
              && spots3[k] == LoadKey(c, k, TakeStage(c, HealStage, k, spots[k]))
  {
    hide TakeStage, Ready;
  }

  /** The values are packed in order, and stored in the order of the map. */
  lemma RunStores(c: Call, s0: State, s: State, base: nat, uniq: seq<Key>, spots: Spots, asked: seq<Key>,
                  order: seq<Key>, src: nat)
    returns (s': State, spots': Spots)
    requires Reaches(c.sys, ANY, s0, s) && Placed(s, base, uniq, spots) && Alike(c, uniq, spots)
    requires c.Possible() && Distinct(uniq) && Distinct(asked) && Covers(asked, spots) && RestDone(spots, asked)
    requires StoresInTime(c, s.now, asked, order)
    requires forall k :: k in spots && TakeStage(c, PackStage, k, spots[k]).lane.phase.LanePacked? ==>
               && src < |uniq| && uniq[src] in spots
               && TakeStage(c, PackStage, uniq[src], spots[uniq[src]]).lane.total == Some(c.total)
    ensures Reaches(c.sys, ANY, s0, s') && Placed(s', base, uniq, spots') && Framed(s, s', base, uniq)
    ensures forall k :: k in spots' ==>
              k in spots && Ready(c, spots[k].lane.phase) && spots'[k] == StoreKey(c, k, spots[k])
    ensures spots'.Keys == spots.Keys
  {
    hide Reaches, TakeStage, SaneClock, Placed, Framed, Ready, Alike, Timed, RestDone, StoreKey, Distinct;
    var packed := if |asked| > 0 then c.w.packAt(asked[|asked| - 1]) else s.now;
    PackingIsTimed(c, spots, s.now, asked, order, packed);
    var s1, spots1 := FullStage(c, PackStage, s0, s, base, uniq, spots, asked, 0, packed);
    var stored := if |order| > 0 then c.w.setAt(order[|order| - 1]) else packed;
    SavingIsTimed(c, spots1, s.now, s1.now, asked, order, packed, stored);
    SameRest(spots1, asked, order);
    PackedAreSupplied(c, uniq, spots, spots1, src);
    s', spots' := FullStage(c, SaveStage, s0, s1, base, uniq, spots1, order, src, stored);
    FramedTrans(s, s1, s', base, uniq);
    StoreComposes(c, spots, spots1, spots');
  }

  ghost predicate StoresInTime(c: Call, now: Time, asked: seq<Key>, order: seq<Key>) {
    && InOrder(c.w.packAt, asked) && InOrder(c.w.setAt, order)
    && (forall k :: k in order <==> k in asked) && Distinct(order)
    && forall k, l :: k in asked && l in asked ==>
         now <= c.w.packAt(k) <= c.w.setAt(l) && SaneClock(c.w.packAt(k)) && SaneClock(c.w.setAt(l))
  }

  lemma PackingIsTimed(c: Call, spots: Spots, now: Time, asked: seq<Key>, order: seq<Key>, packed: Time)
    requires StoresInTime(c, now, asked, order) && Covers(asked, spots)
    requires packed == if |asked| > 0 then c.w.packAt(asked[|asked| - 1]) else now
    ensures Timed(c, PackStage, spots, asked, now)
    ensures now <= packed && forall k :: k in asked ==> Due(c, PackStage, k) <= packed
  {
    hide SaneClock, Timed;
    assert |asked| > 0 ==> asked[|asked| - 1] in asked;
    ManyInstants(c, PackStage, spots, asked, now, c.w.packAt);
  }

  lemma SavingIsTimed(c: Call, spots: Spots, start: Time, now: Time, asked: seq<Key>, order: seq<Key>,
                      packed: Time, stored: Time)
    requires StoresInTime(c, start, asked, order) && Covers(asked, spots) && now <= packed
    requires packed == if |asked| > 0 then c.w.packAt(asked[|asked| - 1]) else start
    requires stored == if |order| > 0 then c.w.setAt(order[|order| - 1]) else packed
    ensures Timed(c, SaveStage, spots, order, now)
    ensures now <= stored && Covers(order, spots) && forall k :: k in order ==> Due(c, SaveStage, k) <= stored
  {
    hide SaneClock, Timed;
    assert |asked| > 0 ==> asked[|asked| - 1] in asked;
    assert |order| > 0 ==> order[|order| - 1] in order;
    assert order != [] ==> asked != [] by {
      if order != [] {
        assert order[0] in order;
      }
    }
    ManyInstants(c, SaveStage, spots, order, now, c.w.setAt);
  }

  lemma SameRest(spots: Spots, asked: seq<Key>, order: seq<Key>)
    requires RestDone(spots, asked) && forall k :: k in order <==> k in asked
    ensures RestDone(spots, order)
  {
  }

  lemma PackedAreSupplied(c: Call, uniq: seq<Key>, spots: Spots, spots1: Spots, src: nat)
    requires TookAll(c, PackStage, spots, spots1)
    requires forall k :: k in spots && TakeStage(c, PackStage, k, spots[k]).lane.phase.LanePacked? ==>
               && src < |uniq| && uniq[src] in spots
               && TakeStage(c, PackStage, uniq[src], spots[uniq[src]]).lane.total == Some(c.total)
    ensures forall k :: k in spots1 ==> Supplied(c, uniq, spots1, k, src)
  {
    hide TakeStage, Ready;
  }

  lemma StoreComposes(c: Call, spots: Spots, spots1: Spots, spots2: Spots)
    requires TookAll(c, PackStage, spots, spots1) && TookAll(c, SaveStage, spots1, spots2)
    ensures spots2.Keys == spots.Keys
    ensures forall k :: k in spots2 ==>
              k in spots && Ready(c, spots[k].lane.phase) && spots2[k] == StoreKey(c, k, spots[k])
  {
    hide TakeStage, Ready;
  }

  // ------------------------------------------------------------------
  // The whole call
  // ------------------------------------------------------------------

  lemma OccurrencesAreDistinct(keys: seq<Key>, ks: seq<Key>)
    requires BatchLaws.FirstOccurrenceOrder(keys, ks)
    ensures Distinct(ks)
  {
  }

  /** The keys of a call and those that it asks the loader for. */
  lemma CallKeys(c: Call, m: TimedMap.Items, keys: seq<Key>, loader: Batches.Loader)
    ensures
      var uniq, asked := Batches.Unique(keys), AskedOf(Spec(c, m, keys, loader));
      && Distinct(uniq) && Distinct(asked)
      && (forall k :: k in uniq <==> k in keys) && (forall k :: k in asked ==> k in uniq)
  {
    hide Batches.Unique, BatchLaws.FirstOccurrenceOrder, Batches.MissingOf, Batches.Judge;
    hide BatchLaws.VerdictOn, Batches.ManySpec;
    BatchLaws.UniqueKeepsOrder(keys);
    BatchLaws.AskedIsMissing(m, c.sys.cfg(0), c.sys.codec(0), keys, c.ttl, loader, c.w);
    OccurrencesAreDistinct(keys, Batches.Unique(keys));
    if Spec(c, m, keys, loader).asked.Some? {
      OccurrencesAreDistinct(keys, Spec(c, m, keys, loader).asked.value);
    }
  }

  function First(c: Call, s: State, k: Key): Spot {
    Opened(c, k, s.now, StoredAt(s, k))
  }

  lemma HeldItem(s: State, m: TimedMap.Items, k: Key)
    requires LoneRun.Holds(s, m)
    ensures ItemOf(StoredAt(s, k)) == ItemAt(m, k)
  {
  }

  /** After the reads the lanes of the other keys are done. */
  lemma ReadsSettle(c: Call, s: State, m: TimedMap.Items, keys: seq<Key>, loader: Batches.Loader, spots: Spots)
    requires LoneRun.Holds(s, m) && c.w.configured && c.Possible() && Fits(c, m, keys, loader)
    requires forall k :: k in spots ==> k in keys && spots[k] == TakeStage(c, ReadStage, k, First(c, s, k))
    ensures RestDone(spots, AskedOf(Spec(c, m, keys, loader)))
  {
    hide TakeStage, Fits, Spec, LoneRun.Holds, ReadKey;
    var asked := AskedOf(Spec(c, m, keys, loader));
    forall k | k in spots && k !in asked ensures spots[k].lane.phase.LaneDone? {
      HeldItem(s, m, k);
      KeyPath(c, m, keys, loader, k, s.now, StoredAt(s, k));
      NotHealingIsRead(c, k, First(c, s, k));
    }
  }

  lemma NotHealingIsRead(c: Call, k: Key, spot: Spot)
    requires Ready(c, spot.lane.phase)
    ensures !TakeStage(c, ReadStage, k, spot).lane.phase.LaneHealing? ==>
              ReadKey(c, k, spot) == TakeStage(c, ReadStage, k, spot)
  {
    hide Classify, Batching;
    StageKeepsLane(c, ReadStage, k, spot);
  }

  /** What the load comes to for one key. */
  lemma KeyLoad(c: Call, m: TimedMap.Items, keys: seq<Key>, loader: Batches.Loader, k: Key, at: Time,
                entry: Option<Entry>)
    requires k in keys && c.w.configured && c.Possible() && Fits(c, m, keys, loader) && ItemOf(entry) == ItemAt(m, k)
    ensures Ready(c, ReadKey(c, k, Opened(c, k, at, entry)).lane.phase)
    ensures
      var out := Spec(c, m, keys, loader);
      var spot := LoadKey(c, k, ReadKey(c, k, Opened(c, k, at, entry)));
      && Ready(c, spot.lane.phase) && spot.lane.loc == Loc(0, k) && spot.lane.ttl == c.ttl
      && (k !in AskedOf(out) ==> spot.lane.phase.LaneDone?)
      && (k in AskedOf(out) && c.fails ==> spot.lane.phase.LaneFailed?)
      && (spot.lane.phase.LaneLoaded? ==>
            && k in AskedOf(out) && !c.fails && out.asked.Some? && loader(out.asked.value).Ok?
            && k in loader(out.asked.value).value && loader(out.asked.value).value[k] == spot.lane.phase.v
            && spot.lane.phase.loadDur == c.w.loadDur)
      && (k in AskedOf(out) && !c.fails && loader(out.asked.value).Ok? && k in loader(out.asked.value).value ==>
            spot.lane.phase.LaneLoaded?)
      && !spot.lane.phase.LanePacked?
  {
    hide TakeStage, ReadKey, LoadKey, Batches.ManySpec;
    var first := Opened(c, k, at, entry);
    KeyPath(c, m, keys, loader, k, at, entry);
    StagesReady(c, k, first);
    var read := ReadKey(c, k, first);
    if k in AskedOf(Spec(c, m, keys, loader)) {
      LoadedLane(c, k, read);
    } else {
      SettledStays(c, k, read);
    }
  }

  /** The lane that packs last has the call's total, if any lane packs. */
  lemma LastPacked(c: Call, s: State, m: TimedMap.Items, keys: seq<Key>, loader: Batches.Loader, uniq: seq<Key>,
                   spots: Spots)
    returns (src: nat)
    requires LoneRun.Holds(s, m) && c.w.configured && c.Possible() && Fits(c, m, keys, loader)
    requires (forall k :: k in uniq <==> k in keys) && forall k :: k in AskedOf(Spec(c, m, keys, loader)) ==> k in uniq
    requires forall k :: k in spots <==> k in uniq
    requires forall k :: k in spots ==>
               && Ready(c, ReadKey(c, k, First(c, s, k)).lane.phase)
               && spots[k] == LoadKey(c, k, ReadKey(c, k, First(c, s, k)))
    requires forall k :: k in spots ==> Ready(c, spots[k].lane.phase)
    ensures forall k :: k in spots && TakeStage(c, PackStage, k, spots[k]).lane.phase.LanePacked? ==>
              && src < |uniq| && uniq[src] in spots
              && TakeStage(c, PackStage, uniq[src], spots[uniq[src]]).lane.total == Some(c.total)
  {
    hide TakeStage, ReadKey, LoadKey, Batches.ManySpec, LoneRun.Holds, Batches.StoreTtl;
    src := 0;
    if k :| k in spots && TakeStage(c, PackStage, k, spots[k]).lane.phase.LanePacked? {
      var out := Spec(c, m, keys, loader);
      PacksOnlyLoaded(c, s, m, keys, loader, k, spots[k]);
      var answers := loader(out.asked.value).value;
      var last := BatchDeadlines.StoreTtlIsSomePack(c.Job(), answers, out.asked.value, k);
      assert last in AskedOf(out) && last in uniq;
      src :| src < |uniq| && uniq[src] == last;
      HeldItem(s, m, last);
      KeyLoad(c, m, keys, loader, last, s.now, StoredAt(s, last));
      PackedLane(c, last, spots[last]);
    }
  }

  lemma PacksOnlyLoaded(c: Call, s: State, m: TimedMap.Items, keys: seq<Key>, loader: Batches.Loader, k: Key,
                        spot: Spot)
    requires LoneRun.Holds(s, m) && c.w.configured && c.Possible() && Fits(c, m, keys, loader) && k in keys
    requires Ready(c, ReadKey(c, k, First(c, s, k)).lane.phase) && spot == LoadKey(c, k, ReadKey(c, k, First(c, s, k)))
    requires Ready(c, spot.lane.phase) && TakeStage(c, PackStage, k, spot).lane.phase.LanePacked?
    ensures
      var out := Spec(c, m, keys, loader);
      && out.asked.Some? && k in out.asked.value && loader(out.asked.value).Ok?
      && k in loader(out.asked.value).value && c.Job().Encodable(loader(out.asked.value).value[k])
  {
    hide TakeStage, ReadKey, LoadKey, Batches.ManySpec, LoneRun.Holds;
    HeldItem(s, m, k);
    KeyLoad(c, m, keys, loader, k, s.now, StoredAt(s, k));
    if !spot.lane.phase.LaneLoaded? {
      IdleStage(c, PackStage, k, spot);
    } else {
      PackedLane(c, k, spot);
    }
  }

  /** The final spots are those of the whole lanes. */
  ghost predicate Complete(c: Call, s: State, spots: Spots)
    requires c.Possible()
  {
    forall k :: k in spots ==> spots[k] == LaneRun(c, k, First(c, s, k))
  }

  /** Lane i of the call is one for its key, and tells what the call answers for it. */
  ghost predicate LaneTells(c: Call, s: State, s': State, out: Batches.Outcome, uniq: seq<Key>, i: nat)
    requires i < |uniq|
  {
    && |s.lanes| + i < |s'.lanes|
    && var ln := s'.lanes[|s.lanes| + i];
    && ln.loc == Loc(0, uniq[i]) && ln.ttl == c.ttl && ln.batch == c.group
    && Tells(out, uniq[i], ln.phase)
  }

  /** The call has one lane per key, and all of them tell. */
  ghost predicate LanesTell(c: Call, s: State, s': State, out: Batches.Outcome, uniq: seq<Key>) {
    && |s'.lanes| == |s.lanes| + |uniq|
    && forall i :: 0 <= i < |uniq| ==> LaneTells(c, s, s', out, uniq, i)
  }

  /** From what the lanes come to, what the call leaves in the store. */
  lemma LanesLeaveTheStore(c: Call, s: State, s': State, m: TimedMap.Items, keys: seq<Key>, loader: Batches.Loader,
                           uniq: seq<Key>, spots: Spots)
    requires LoneRun.Holds(s, m) && c.w.configured && c.Possible() && Fits(c, m, keys, loader)
    requires (forall k :: k in uniq <==> k in keys) && (forall k :: k in spots <==> k in uniq) && Complete(c, s, spots)
    requires Placed(s', |s.lanes|, uniq, spots) && Framed(s, s', |s.lanes|, uniq)
    ensures LoneRun.Holds(s', Spec(c, m, keys, loader).contents)
  {
    hide LaneRun, Spec, Fits, Tells, BatchLaws.VerdictOn, Complete;
    var out := Spec(c, m, keys, loader);
    forall k ensures ItemOf(StoredAt(s', k)) == ItemAt(out.contents, k) {
      HeldItem(s, m, k);
      if k in keys {
        LaneMakesItsKey(c, s, m, keys, loader, spots, k);
        var i :| 0 <= i < |uniq| && uniq[i] == k;
        assert StoredAt(s', uniq[i]) == spots[uniq[i]].entry;
      } else {
        UntouchedOutside(c, m, keys, loader, k);
        assert Loc(0, k).key !in uniq;
        assert StoredAt(s', k) == StoredAt(s, k);
      }
    }
    HoldsByItems(s', out.contents);
  }

  /** And what it answers. */
  lemma LanesTellTheCall(c: Call, s: State, s': State, m: TimedMap.Items, keys: seq<Key>, loader: Batches.Loader,
                         uniq: seq<Key>, spots: Spots)
    requires LoneRun.Holds(s, m) && c.w.configured && c.Possible() && Fits(c, m, keys, loader)
    requires (forall k :: k in uniq <==> k in keys) && (forall k :: k in spots <==> k in uniq) && Complete(c, s, spots)
    requires Placed(s', |s.lanes|, uniq, spots)
    ensures LanesTell(c, s, s', Spec(c, m, keys, loader), uniq)
  {
    hide LaneRun, Spec, Fits, Tells, LoneRun.Holds;
    forall i | 0 <= i < |uniq| ensures LaneTells(c, s, s', Spec(c, m, keys, loader), uniq, i) {
      LaneMakesItsKey(c, s, m, keys, loader, spots, uniq[i]);
      LaneRunKeeps(c, uniq[i], First(c, s, uniq[i]));
    }
  }

  lemma HoldsByItems(s: State, m: TimedMap.Items)
    requires forall k :: ItemOf(StoredAt(s, k)) == ItemAt(m, k)
    ensures LoneRun.Holds(s, m)
  {
    forall k: Key ensures (Loc(0, k) in s.store <==> k in m) && (k in m ==> s.store[Loc(0, k)].item == m[k]) {
      assert ItemOf(StoredAt(s, k)) == ItemAt(m, k);
    }
  }

  lemma UntouchedOutside(c: Call, m: TimedMap.Items, keys: seq<Key>, loader: Batches.Loader, k: Key)
    requires k !in keys
    ensures ItemAt(Spec(c, m, keys, loader).contents, k) == ItemAt(m, k)
  {
    hide Batches.ManySpec;
    BatchLaws.OtherKeysAreUntouched(m, c.sys.cfg(0), c.sys.codec(0), keys, c.ttl, loader, c.w, k);
  }

  lemma LaneMakesItsKey(c: Call, s: State, m: TimedMap.Items, keys: seq<Key>, loader: Batches.Loader,
                        spots: Spots, k: Key)
    requires LoneRun.Holds(s, m) && c.w.configured && c.Possible() && Fits(c, m, keys, loader)
    requires k in keys && k in spots && Complete(c, s, spots)
    ensures
      var out := Spec(c, m, keys, loader);
      ItemOf(spots[k].entry) == ItemAt(out.contents, k) && Tells(out, k, spots[k].lane.phase)
  {
    hide LaneRun, Spec, Fits, Tells;
    HeldItem(s, m, k);
    EachKeyIsALane(c, m, keys, loader, k, s.now, StoredAt(s, k));
  }

  lemma FailedStays(c: Call, k: Key, spot: Spot)
    requires c.Possible() && (spot.lane.phase.LaneDone? || spot.lane.phase.LaneFailed?)
    ensures StoreKey(c, k, spot) == spot
  {
  }

  lemma LaneRunKeeps(c: Call, k: Key, spot: Spot)
    requires Ready(c, spot.lane.phase)
    ensures
      var lane := LaneRun(c, k, spot).lane;
      lane.loc == spot.lane.loc && lane.ttl == spot.lane.ttl && lane.batch == spot.lane.batch
  {
    hide TakeStage, Ready;
    var s1 := StageKeeps(c, ReadStage, k, spot);
    var s2 := StageKeeps(c, HealStage, k, s1);
    var s3 := StageKeeps(c, AskStage, k, s2);
    var s4 := StageKeeps(c, AnswerStage, k, s3);
    var s5 := StageKeeps(c, PackStage, k, s4);
    var s6 := StageKeeps(c, SaveStage, k, s5);
  }

  /** The read and the load of every lane, put together. */
  lemma LoadsAreWhole(c: Call, s: State, spots1: Spots, spots2: Spots)
    requires c.Possible() && spots1.Keys == spots2.Keys
    requires forall k :: k in spots1 ==> spots1[k] == TakeStage(c, ReadStage, k, First(c, s, k))
    requires forall k :: k in spots2 ==>
               && k in spots1 && Ready(c, spots1[k].lane.phase)
               && Ready(c, TakeStage(c, HealStage, k, spots1[k]).lane.phase)
               && spots2[k] == LoadKey(c, k, TakeStage(c, HealStage, k, spots1[k]))
    ensures forall k :: k in spots2 ==>
              && Ready(c, ReadKey(c, k, First(c, s, k)).lane.phase)
              && spots2[k] == LoadKey(c, k, ReadKey(c, k, First(c, s, k)))
  {
    hide TakeStage, LoadKey;
  }

  /** Packing and storing, unless the load failed. */
  lemma FinishCall(c: Call, s: State, s2: State, m: TimedMap.Items, keys: seq<Key>, loader: Batches.Loader,
                   uniq: seq<Key>, spots1: Spots, spots2: Spots, asked: seq<Key>, order: seq<Key>)
    returns (s': State, spots: Spots)
    requires LoneRun.Holds(s, m) && c.w.configured && c.Possible() && Fits(c, m, keys, loader)
    requires Distinct(uniq) && Distinct(asked) && asked == AskedOf(Spec(c, m, keys, loader))
    requires (forall k :: k in uniq <==> k in keys) && Covers(asked, spots2) && RestDone(spots2, asked)
    requires Reaches(c.sys, ANY, s, s2) && Placed(s2, |s.lanes|, uniq, spots2) && Alike(c, uniq, spots2)
    requires spots1.Keys == spots2.Keys && Schedule(c, s.now, uniq, asked, order)
    requires asked != [] ==> s2.now <= c.loadEnd
    requires forall k :: k in spots1 ==> spots1[k] == TakeStage(c, ReadStage, k, First(c, s, k))
    requires forall k :: k in spots2 ==>
               && k in spots1 && Ready(c, spots1[k].lane.phase)
               && Ready(c, TakeStage(c, HealStage, k, spots1[k]).lane.phase)
               && spots2[k] == LoadKey(c, k, TakeStage(c, HealStage, k, spots1[k]))
    ensures Reaches(c.sys, ANY, s, s') && Placed(s', |s.lanes|, uniq, spots) && Framed(s2, s', |s.lanes|, uniq)
    ensures (forall k :: k in spots <==> k in uniq) && Complete(c, s, spots)
  {
    hide Reaches, TakeStage, ReadKey, LoadKey, StoreKey, Spec, Fits, LoneRun.Holds, Distinct, SaneClock;
    hide Placed, Framed, RestDone;
    LoadsAreWhole(c, s, spots1, spots2);
    if c.fails {
      s', spots := s2, spots2;
      FramedRefl(s2, |s.lanes|, uniq, spots2);
      forall k | k in spots ensures spots[k] == LaneRun(c, k, First(c, s, k)) {
        HeldItem(s, m, k);
        KeyLoad(c, m, keys, loader, k, s.now, StoredAt(s, k));
        FailedStays(c, k, spots[k]);
      }
    } else {
      var src := LastPacked(c, s, m, keys, loader, uniq, spots2);
      ScheduledStores(c, s.now, s2.now, uniq, asked, order);
      s', spots := RunStores(c, s, s2, |s.lanes|, uniq, spots2, asked, order, src);
    }
  }

  lemma ScheduledStores(c: Call, start: Time, now: Time, uniq: seq<Key>, asked: seq<Key>, order: seq<Key>)
    requires Schedule(c, start, uniq, asked, order) && !c.fails && (asked != [] ==> now <= c.loadEnd)
    ensures StoresInTime(c, now, asked, order)
  {
    hide SaneClock;
    forall k, l | k in asked && l in asked
      ensures now <= c.w.packAt(k) <= c.w.setAt(l) && SaneClock(c.w.packAt(k)) && SaneClock(c.w.setAt(l))
    {
    }
  }

  /** The lanes of a call run from their opening to their end. */
  lemma LanesRun(c: Call, s: State, m: TimedMap.Items, keys: seq<Key>, loader: Batches.Loader, order: seq<Key>)
    returns (s': State, spots: Spots)
    requires LoneRun.Holds(s, m) && c.w.configured && c.Possible() && Fits(c, m, keys, loader)
    requires Schedule(c, s.now, Batches.Unique(keys), AskedOf(Spec(c, m, keys, loader)), order)
    ensures Reaches(c.sys, ANY, s, s') && Framed(s, s', |s.lanes|, Batches.Unique(keys))
    ensures forall k :: k in Batches.Unique(keys) <==> k in keys
    ensures forall k :: k in spots <==> k in Batches.Unique(keys)
    ensures Placed(s', |s.lanes|, Batches.Unique(keys), spots) && Complete(c, s, spots)
  {
    hide Reaches, TakeStage, ReadKey, LoadKey, StoreKey, Spec, Fits, LoneRun.Holds, Batches.Unique, Distinct, Ready;
    hide SaneClock, Placed, Framed, RestDone, Complete, LaneRun;
    var uniq, asked, base := Batches.Unique(keys), AskedOf(Spec(c, m, keys, loader)), |s.lanes|;
    CallKeys(c, m, keys, loader);
    var s1, spots1 := RunReads(c, s, uniq, asked);
    ReadsSettle(c, s, m, keys, loader, spots1);
    var s2, spots2 := RunLoads(c, s, s1, base, uniq, spots1, asked);
    FramedTrans(s, s1, s2, base, uniq);
    s', spots := FinishCall(c, s, s2, m, keys, loader, uniq, spots1, spots2, asked, order);
    FramedTrans(s, s2, s', base, uniq);
  }

  /** From any state of the concurrent protocol, however many flights and other calls are under way, the lanes of
      one call for the requested keys, each key once, can run by themselves on the schedule of the call. Then
      every lane tells what the call answers for its key, and the store is the one that the call leaves. */
  lemma CallIsARun(c: Call, s: State, m: TimedMap.Items, keys: seq<Key>, loader: Batches.Loader, order: seq<Key>)
    returns (s': State)
    requires LoneRun.Holds(s, m) && c.w.configured && c.Possible() && Fits(c, m, keys, loader)
    requires Schedule(c, s.now, Batches.Unique(keys), AskedOf(Spec(c, m, keys, loader)), order)
    ensures Reaches(c.sys, ANY, s, s') && LoneRun.Holds(s', Spec(c, m, keys, loader).contents)
    ensures Framed(s, s', |s.lanes|, Batches.Unique(keys))
    ensures LanesTell(c, s, s', Spec(c, m, keys, loader), Batches.Unique(keys))
  {
    hide Reaches, Spec, Fits, LoneRun.Holds, Batches.Unique, Framed, LanesTell, Complete, Schedule, Placed;
    var uniq := Batches.Unique(keys);
    var spots;
    s', spots := LanesRun(c, s, m, keys, loader, order);
    LanesLeaveTheStore(c, s, s', m, keys, loader, uniq, spots);
    LanesTellTheCall(c, s, s', m, keys, loader, uniq, spots);
  }

  /** So what holds of lanes in every run holds of calls. With a constant source, a call that does not fail, made in
      any reachable state, answers for each requested key as the source would: with its value if it has one, and
      by omission exactly if it has none. */
  lemma CallIsTransparent(c: Call, s0: State, acts: seq<Action>, m: TimedMap.Items, keys: seq<Key>,
                          loader: Batches.Loader, order: seq<Key>, k: Key, t: Time)
    requires c.sys.Valid() && Provenance.Constant(c.sys) && Initial(s0) && Run(c.sys, s0, acts).Some?
    requires
      var s := Run(c.sys, s0, acts).value;
      && LoneRun.Holds(s, m) && c.w.configured && c.Possible() && Fits(c, m, keys, loader)
      && Schedule(c, s.now, Batches.Unique(keys), AskedOf(Spec(c, m, keys, loader)), order)
    requires Spec(c, m, keys, loader).reply.Ok? && k in keys
    ensures
      var reply := Spec(c, m, keys, loader).reply.value;
      c.sys.source(Loc(0, k), t) == if k in reply then Found(reply[k]) else Missing
  {
    hide Run, Fits, Schedule, Spec, Batches.Unique, LoneRun.Holds, Framed;
    var s := Run(c.sys, s0, acts).value;
    var s' := CallIsARun(c, s, m, keys, loader, order);
    var more :| Allowed(c.sys, ANY, s, more) && Run(c.sys, s, more) == Some(s');
    RunConcat(c.sys, s0, acts, more);
    CallKeys(c, m, keys, loader);
    var i :| 0 <= i < |Batches.Unique(keys)| && Batches.Unique(keys)[i] == k;
    assert LaneTells(c, s, s', Spec(c, m, keys, loader), Batches.Unique(keys), i);
    Provenance.GetOrSetManyIsTransparent(c.sys, s0, acts + more, |s.lanes| + i, t);
  }
}
