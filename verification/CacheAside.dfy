/** cache.go run by one caller on the in-memory backend: GetOrSetWithCodec and loadAndStore as statements,
    each proved to take the steps that the concurrent protocol gives to callers and flights. */
module CacheAside {
  import opened Base
  import opened Codecs
  import opened Config
  import opened Envelope
  import opened Stored
  import opened EarlyRefresh
  import opened Memory
  import opened Protocol
  import Batches

  /** What the loader does if it is called. */
  datatype Load = Gives(v: Value) | SaysNotFound | Errors | Blows

  /** Failing backend operations, the clock at each step, and the random draws. */
  datatype Scene = Scene(
    readFails: bool, readAt: Time, refreshDraw: real, healFails: bool,
    recheckFails: bool, recheckAt: Time, rehealFails: bool,
    loadAt: Time, loadEnd: Time,
    packAt: Time, packDraw: real,
    setFails: bool, setAt: Time, setDraw: real)

  /** The reply without the history that the protocol keeps with it. */
  datatype Served = Value(v: Value) | NoSuchEntity | Failed(err: Failure) | BadData

  function Bare(reply: Reply): Served {
    match reply
    case Hit(v, _, _) => Served.Value(v)
    case NotFound(_, _) => NoSuchEntity
    case Error(err) => Failed(err)
    case DecodeError => BadData
  }

  function BareOutcome(out: Outcome): Result<Bytes, Failure> {
    match out
    case Data(data, _, _) => Ok(data)
    case Fail(err) => Err(err)
  }

  // ------------------------------------------------------------------
  // The protocol's steps, taken one after the other
  // ------------------------------------------------------------------

  /** The system of one cache and one loader. */
  ghost function Solo(cfg: CacheConfig, codec: Codec, load: Load): System {
    System(c => cfg, c => codec, (loc, t) => if load.Gives? then Found(load.v) else Missing)
  }

  function ResultOf(load: Load): LoadResult {
    match load
    case Gives(_) => Answers
    case SaysNotFound => Answers
    case Errors => Errs
    case Blows => Panics
  }

  function EntryAt(m: TimedMap.Items, k: Key, now: Time, fails: bool): Option<Entry> {
    if !fails && k in m && m[k].Live(now) then Some(Entry(m[k], 0)) else None
  }

  function AfterRead(m: TimedMap.Items, k: Key, now: Time, fails: bool): TimedMap.Items {
    if fails then m else TimedMap.Reap(m, k, now)
  }

  datatype FlightResult = FlightResult(out: Outcome, contents: TimedMap.Items, asked: bool)

  /** Re-check, perhaps heal, load, encode and save. */
  ghost function FlightRun(sys: System, fl: Flight, m: TimedMap.Items, load: Load, w: Scene): FlightResult
    requires Draw(w.setDraw)
  {
    var key := fl.loc.key;
    var checked := Rechecked(sys, w.recheckAt, EntryAt(m, key, w.recheckAt, w.recheckFails), fl);
    var m1 := AfterRead(m, key, w.recheckAt, w.recheckFails);
    if checked.phase.Finished? then FlightResult(checked.phase.out, m1, false)
    else LoadRun(sys, fl, if checked.phase.Healing? && !w.rehealFails then m1 - {key} else m1, load, w)
  }

  /** What remains of a flight once its re-check has not settled it. */
  ghost function LoadRun(sys: System, fl: Flight, m: TimedMap.Items, load: Load, w: Scene): FlightResult
    requires Draw(w.setDraw)
  {
    StoreRun(sys, Returned(sys, w.loadEnd, fl.(phase := Loading(w.loadAt)), ResultOf(load), w.loadAt), m, w)
  }

  /** What remains of a flight once its loader has returned. */
  ghost function StoreRun(sys: System, fl: Flight, m: TimedMap.Items, w: Scene): FlightResult
    requires Draw(w.setDraw)
    requires fl.phase.Finished? || fl.phase.Loaded? || fl.phase.AbsenceLoaded?
  {
    var encoded := if fl.phase.Loaded? then Encoded(sys, w.packAt, fl, w.packDraw) else fl;
    if encoded.phase.Finished? then FlightResult(encoded.phase.out, m, true)
    else
      var saved := Body(sys, w.setAt, None, encoded, Save(!w.setFails, w.setDraw)).value;
      FlightResult(saved.flight.phase.out,
                   if saved.op.Put? then m[fl.loc.key := saved.op.item] else m,
                   true)
  }

  ghost function NewFlight(key: Key, ttl: Duration, refreshOf: Time): Flight {
    Flight(Loc(0, key), ttl, refreshOf != ZERO_TIME, refreshOf, 0, Starting, [], 0, 0, 0, 0, false)
  }

  datatype CallResult = CallResult(reply: Served, asked: bool, refresh: Option<Time>, contents: TimedMap.Items)

  /** A whole call of a caller that meets no other: its first look, and its own flight if it needs one. */
  ghost function CallRun(sys: System, key: Key, ttl: Duration, m: TimedMap.Items, load: Load, w: Scene): CallResult
    requires Draw(w.setDraw)
  {
    var caller := Caller(Loc(0, key), ttl, false, Reading);
    var m1 := AfterRead(m, key, w.readAt, w.readFails);
    match FirstLook(sys, w.readAt, EntryAt(m, key, w.readAt, w.readFails), caller, w.refreshDraw)
    case Answered(reply, _) => CallResult(Bare(reply), false, None, m1)
    case Refreshing(v, of, _, _) => CallResult(Served.Value(v), false, Some(of), m1)
    case SelfHealing => Missed(sys, key, ttl, if w.healFails then m1 else m1 - {key}, load, w)
    case _ => Missed(sys, key, ttl, m1, load, w)
  }

  ghost function Missed(sys: System, key: Key, ttl: Duration, m: TimedMap.Items, load: Load, w: Scene): CallResult
    requires Draw(w.setDraw)
  {
    var r := FlightRun(sys, NewFlight(key, ttl, ZERO_TIME), m, load, w);
    CallResult(Bare(Interpret(sys, Loc(0, key), r.out, w.setAt)), r.asked, None, r.contents)
  }

  // ------------------------------------------------------------------
  // The statements of the source
  // ------------------------------------------------------------------

  /** The first half of loadAndStore: a live entry may settle the flight; one that does not decode is deleted. */
  method Check(c: MemoryCache, key: Key, cfg: CacheConfig, codec: Codec, refreshOf: Time, w: Scene,
               ghost sys: System, ghost fl: Flight)
    returns (settled: Option<Bytes>)
    requires c.Valid()
    requires sys.cfg(0) == cfg && sys.codec(0) == codec && fl.loc == Loc(0, key) && fl.refreshOf == refreshOf
    modifies c
    ensures c.Valid()
    ensures
      var checked := Rechecked(sys, w.recheckAt, EntryAt(old(c.contents), key, w.recheckAt, w.recheckFails), fl);
      var m1 := AfterRead(old(c.contents), key, w.recheckAt, w.recheckFails);
      match settled
      case Some(data) => checked.phase == Finished(Data(data, 0, w.recheckAt)) && c.contents == m1
      case None =>
        && (checked.phase.Ready? || checked.phase.Healing?)
        && c.contents == if checked.phase.Healing? && !w.rehealFails then m1 - {key} else m1
  {
    hide TimedMap.Reap, IsNegative, ParseStored;
    var got := None;
    if !w.recheckFails {
      got := c.Get(key, w.recheckAt);
    }
    settled := None;
    if got.Some? {
      var data := got.value;
      if IsNegative(data) {
        return Some(data);
      }
      var (env, payload) := ParseStored(cfg, data);
      var refreshed := refreshOf == ZERO_TIME || env.freshUntil > refreshOf;
      if !env.Stale(w.recheckAt) && refreshed {
        var probe := codec.unmarshal(payload);
        if probe.Some? {
          return Some(data);
        }
        if !w.rehealFails {
          c.Delete(key);
        }
      }
    }
  }

  /** loadAndStore, and with it a background refresh when refreshOf is set. */
  method LoadAndStore(c: MemoryCache, key: Key, ttl: Duration, codec: Codec, load: Load, refreshOf: Time, w: Scene)
    returns (out: Result<Bytes, Failure>, asked: bool)
    requires c.Valid() && Draw(w.setDraw)
    modifies c
    ensures c.Valid()
    ensures
      var r := FlightRun(Solo(c.cfg, codec, load), NewFlight(key, ttl, refreshOf), old(c.contents), load, w);
      out == BareOutcome(r.out) && asked == r.asked && c.contents == r.contents
  {
    hide Rechecked, AfterRead, EntryAt, PackForStore, NewItem, TimedMap.Reap, TimedMap.Lookup, HasEnvelope, ApplyJitter;
    var cfg := c.cfg;
    var settled := Check(c, key, cfg, codec, refreshOf, w, Solo(cfg, codec, load), NewFlight(key, ttl, refreshOf));
    if settled.Some? {
      return Ok(settled.value), false;
    }
    asked := true;
    match load {
      case Blows => out := Err(Panicked);
      case Errors => out := Err(LoaderFailed);
      case SaysNotFound =>
        if cfg.negativeTTL > 0 {
          if !w.setFails {
            c.Set(key, NEGATIVE_MARKER, cfg.negativeTTL, w.setAt, w.setDraw);
          }
          out := Ok(NEGATIVE_MARKER);
        } else {
          out := Err(NotFoundAt(w.loadAt));
        }
      case Gives(v) =>
        var payload := codec.marshal(v);
        if payload.None? {
          out := Err(EncodeFailed);
        } else {
          var packed := PackForStore(payload.value, ttl, Elapsed(w.loadAt, w.loadEnd), cfg, w.packAt, w.packDraw);
          if !w.setFails {
            c.Set(key, packed.data, packed.ttl, w.setAt, w.setDraw);
          }
          out := Ok(packed.data);
        }
    }
  }

  /** A live entry settles the call, on its bytes alone, unless they do not decode: the marker is answered with
      NotFound, a value is served, and a refresh is triggered for its deadline exactly when one is due. */
  ghost predicate TellsEntry(m: TimedMap.Items, cfg: CacheConfig, codec: Codec, key: Key, w: Scene, out: CallResult) {
    !w.readFails && key in m && (m[key].deadline == None || w.readAt < m[key].deadline.value) ==>
      var data := m[key].val;
      var env, decoded := MetadataOf(cfg, data), codec.unmarshal(PayloadOf(cfg, data));
      if data == Ascii("\0cachekit:negative\0") then out == CallResult(NoSuchEntity, false, None, m)
      else decoded.Some? ==>
             var due := RefreshDue(env, w.readAt, cfg.earlyRefreshBeta, w.refreshDraw);
             out == CallResult(Served.Value(decoded.value), false, if due then Some(env.freshUntil) else None, m)
  }

  lemma CallTellsEntry(sys: System, key: Key, ttl: Duration, m: TimedMap.Items, load: Load, w: Scene)
    requires Draw(w.setDraw)
    ensures TellsEntry(m, sys.cfg(0), sys.codec(0), key, w, CallRun(sys, key, ttl, m, load, w))
  {
    hide Missed, Classify, ShouldEarlyRefresh, RefreshDue, PayloadOf, MetadataOf;
    if key in m {
      BytesMean(sys.cfg(0), sys.codec(0), m[key].val);
      DueIsStaleOrEarly(MetadataOf(sys.cfg(0), m[key].val), w.readAt, sys.cfg(0).earlyRefreshBeta, w.refreshDraw);
    }
  }

  /** With a cache that is down a call still works: it asks the loader, answers what the loader says and leaves the
      cache as it is. */
  lemma DegradedCall(sys: System, key: Key, ttl: Duration, m: TimedMap.Items, load: Load, w: Scene)
    requires sys.Valid() && Draw(w.setDraw) && w.readFails && w.recheckFails && w.setFails
    requires load.Gives? ==> sys.source(Loc(0, key), w.loadAt) == Found(load.v)
    requires load.SaysNotFound? ==> sys.source(Loc(0, key), w.loadAt) == Missing
    ensures
      var out := CallRun(sys, key, ttl, m, load, w);
      && out.asked && out.refresh == None && out.contents == m
      && match load
         case Gives(v) =>
           out.reply == if sys.codec(0).marshal(v).Some? then Served.Value(v) else Served.Failed(EncodeFailed)
         case SaysNotFound => out.reply == NoSuchEntity
         case Errors => out.reply == Served.Failed(LoaderFailed)
         case Blows => out.reply == Served.Failed(Panicked)
  {
    hide PackForStore, NewItem, Classify, ShouldEarlyRefresh, IsNegative;
    NegativeIsAbsent(sys.cfg(0), sys.codec(0));
    if load.Gives? && sys.codec(0).marshal(load.v).Some? {
      var took := Elapsed(w.loadAt, w.loadEnd);
      PackedDecodes(sys.cfg(0), sys.codec(0), load.v, ttl, took, w.packAt, w.packDraw);
    }
  }

  // ------------------------------------------------------------------
  // How long what a call stores is kept, by the options of the cache
  // ------------------------------------------------------------------

  /** No entry is there, and the Set succeeds. */
  predicate CleanMiss(m: TimedMap.Items, key: Key, w: Scene) {
    key !in m && !w.setFails
  }

  /** A cached absence lasts for the option's negative TTL, under jitter. */
  lemma AbsenceLasts(o: Options, sys: System, key: Key, ttl: Duration, m: TimedMap.Items, w: Scene)
    requires ConfiguredBy(sys.cfg(0), o) && o.negativeTTL > 0 && 0.0 <= o.ttlJitter <= 0.9
    requires o.negativeTTL as real * (1.0 + o.ttlJitter) < TWO_63 as real
    requires Draw(w.setDraw) && CleanMiss(m, key, w) && sys.source(Loc(0, key), w.loadAt) == Missing
    ensures
      var out := CallRun(sys, key, ttl, m, SaysNotFound, w);
      && out.reply == NoSuchEntity && out.asked && key in out.contents
      && exists drawn :: Stretched(drawn, o.negativeTTL, o.ttlJitter) && out.contents == m[key := out.contents[key]]
                         && out.contents[key] == Item(Ascii("\0cachekit:negative\0"),
                                                      if drawn > 0 then Some(w.setAt + drawn) else None)
  {
    hide NewItem, Classify, Stretched;
    MarkerSpells();
    var drawn := ItemExpires(NEGATIVE_MARKER, o.negativeTTL, sys.cfg(0), w.setAt, w.setDraw);
    assert NEGATIVE_MARKER[2] != MAGIC[2];
    assert NewItem(NEGATIVE_MARKER, o.negativeTTL, sys.cfg(0), w.setAt, w.setDraw)
        == Item(NEGATIVE_MARKER, if drawn > 0 then Some(w.setAt + drawn) else None);
    AbsenceIsStored(sys, key, ttl, m, w);
  }

  lemma AbsenceIsStored(sys: System, key: Key, ttl: Duration, m: TimedMap.Items, w: Scene)
    requires sys.cfg(0).negativeTTL > 0 && Draw(w.setDraw) && CleanMiss(m, key, w)
    requires sys.source(Loc(0, key), w.loadAt) == Missing
    ensures
      var item := NewItem(NEGATIVE_MARKER, sys.cfg(0).negativeTTL, sys.cfg(0), w.setAt, w.setDraw);
      CallRun(sys, key, ttl, m, SaysNotFound, w) == CallResult(NoSuchEntity, true, None, m[key := item])
  {
    hide NewItem, Classify, PackForStore;
    NegativeIsAbsent(sys.cfg(0), sys.codec(0));
  }

  lemma ValueIsStored(sys: System, key: Key, ttl: Duration, m: TimedMap.Items, v: Value, w: Scene)
    requires sys.Valid() && Draw(w.setDraw) && CleanMiss(m, key, w) && sys.codec(0).marshal(v).Some?
    requires sys.source(Loc(0, key), w.loadAt) == Found(v)
    ensures
      var took := Elapsed(w.loadAt, w.loadEnd);
      var packed := PackForStore(sys.codec(0).marshal(v).value, ttl, took, sys.cfg(0), w.packAt, w.packDraw);
      var item := NewItem(packed.data, packed.ttl, sys.cfg(0), w.setAt, w.setDraw);
      CallRun(sys, key, ttl, m, Gives(v), w) == CallResult(Served.Value(v), true, None, m[key := item])
  {
    hide NewItem, Classify, PackForStore;
    PackedDecodes(sys.cfg(0), sys.codec(0), v, ttl, Elapsed(w.loadAt, w.loadEnd), w.packAt, w.packDraw);
  }

  /** A loaded value lasts, on a cache without jitter, for the asked TTL or else the option's default, and for the
      option's stale window on top where there is one; and for good if neither TTL is positive. */
  lemma ValueLasts(o: Options, sys: System, key: Key, ttl: Duration, m: TimedMap.Items, v: Value, w: Scene)
    requires ConfiguredBy(sys.cfg(0), o) && o.ttlJitter == 0.0 && o.staleTTL >= 0
    requires sys.Valid() && Draw(w.setDraw) && Draw(w.packDraw) && SaneClock(w.packAt)
    requires (if ttl <= 0 then o.defaultTTL else ttl) + o.staleTTL < TWO_63
    requires CleanMiss(m, key, w) && sys.codec(0).marshal(v).Some? && sys.source(Loc(0, key), w.loadAt) == Found(v)
    ensures
      var out := CallRun(sys, key, ttl, m, Gives(v), w);
      var lasts := if ttl <= 0 then o.defaultTTL else ttl;
      && out.reply == Served.Value(v) && out.asked && key in out.contents
      && out.contents[key].deadline == if lasts > 0 then Some(w.setAt + lasts + o.staleTTL) else None
  {
    hide NewItem, PackForStore, CallRun, Classify;
    ValueIsStored(sys, key, ttl, m, v, w);
    UnjitteredDeadline(o, sys.cfg(0), sys.codec(0), v, ttl, Elapsed(w.loadAt, w.loadEnd), w);
  }

  lemma UnjitteredDeadline(o: Options, cfg: CacheConfig, codec: Codec, v: Value, ttl: Duration, took: Duration,
                           w: Scene)
    requires ConfiguredBy(cfg, o) && o.ttlJitter == 0.0 && o.staleTTL >= 0 && codec.Faithful() && codec.marshal(v).Some?
    requires Draw(w.setDraw) && Draw(w.packDraw) && SaneClock(w.packAt)
    requires (if ttl <= 0 then o.defaultTTL else ttl) + o.staleTTL < TWO_63
    ensures
      var packed := PackForStore(codec.marshal(v).value, ttl, took, cfg, w.packAt, w.packDraw);
      var lasts := if ttl <= 0 then o.defaultTTL else ttl;
      NewItem(packed.data, packed.ttl, cfg, w.setAt, w.setDraw).deadline
      == if lasts > 0 then Some(w.setAt + lasts + o.staleTTL) else None
  {
    hide Classify;
    var lasts := if ttl <= 0 then o.defaultTTL else ttl;
    var packed := PackForStore(codec.marshal(v).value, ttl, took, cfg, w.packAt, w.packDraw);
    JitterIdle(lasts, cfg.ttlJitter, w.packDraw);
    JitterIdle(lasts, cfg.ttlJitter, w.setDraw);
    if lasts <= 0 {
      NeverExpiresStays(cfg, codec, v, ttl, took, w.packAt, w.packDraw, w.setAt, w.setDraw);
    } else if cfg.EnvelopeEnabled() {
      PackedTtl(codec.marshal(v).value, ttl, took, cfg, w.packAt, w.packDraw);
      EnvelopedItem(packed.data, packed.ttl, cfg, w.setAt, w.setDraw);
    } else {
      assert packed == Packed(codec.marshal(v).value, ttl) && cfg.staleTTL == 0;
    }
  }

  /** GetOrSetWithCodec. refresh is the freshness deadline of the entry for which a background refresh was
      started. */
  method GetOrSet(c: MemoryCache, key: Key, ttl: Duration, codec: Codec, load: Load, w: Scene)
    returns (reply: Served, asked: bool, refresh: Option<Time>)
    requires c.Valid() && Draw(w.setDraw)
    modifies c
    ensures c.Valid()
    ensures CallResult(reply, asked, refresh, c.contents) ==
            CallRun(Solo(c.cfg, codec, load), key, ttl, old(c.contents), load, w)
    ensures TellsEntry(old(c.contents), c.cfg, codec, key, w, CallResult(reply, asked, refresh, c.contents))
  {
    hide FlightRun, ShouldEarlyRefresh, TimedMap.Reap, IsNegative, ParseStored, TellsEntry;
    CallTellsEntry(Solo(c.cfg, codec, load), key, ttl, c.contents, load, w);
    var cfg := c.cfg;
    var got := None;
    asked, refresh := false, None;
    if !w.readFails {
      got := c.Get(key, w.readAt);
    }
    if got.Some? {
      var data := got.value;
      if IsNegative(data) {
        return NoSuchEntity, asked, refresh;
      }
      var (env, payload) := ParseStored(cfg, data);
      var decoded := codec.unmarshal(payload);
      if decoded.Some? {
        if env.Stale(w.readAt) {
          refresh := Some(env.freshUntil);
        } else if ShouldEarlyRefresh(env, w.readAt, cfg.earlyRefreshBeta, w.refreshDraw) {
          refresh := Some(env.freshUntil);
        }
        return Served.Value(decoded.value), asked, refresh;
      }
      if !w.healFails {
        c.Delete(key);
      }
    }
    var out;
    out, asked := LoadAndStore(c, key, ttl, codec, load, ZERO_TIME, w);
    reply := Decode(cfg, codec, out);
  }

  /** What a waiter makes of the bytes that its flight returned. */
  method Decode(cfg: CacheConfig, codec: Codec, out: Result<Bytes, Failure>) returns (reply: Served)
    ensures forall load: Load, loc: Loc, o: Outcome, t: Time ::
              BareOutcome(o) == out ==> Bare(Interpret(Solo(cfg, codec, load), loc, o, t)) == reply
  {
    if out.Err? {
      return if out.error.NotFoundAt? then NoSuchEntity else Failed(out.error);
    }
    if IsNegative(out.value) {
      return NoSuchEntity;
    }
    var (env, payload) := ParseStored(cfg, out.value);
    var decoded := codec.unmarshal(payload);
    reply := if decoded.Some? then Served.Value(decoded.value) else BadData;
  }

  // ------------------------------------------------------------------
  // One key, both helpers
  // ------------------------------------------------------------------

  /** The batch loader and the single loader tell the same about a key: omission stands for not found. */
  predicate SameAnswer(loader: Batches.Loader, key: Key, load: Load) {
    var answer := loader([key]);
    match load
    case Gives(v) => answer.Ok? && key in answer.value && answer.value[key] == v
    case SaysNotFound => answer.Ok? && key !in answer.value
    case Errors => answer.Err?
    case Blows => false
  }

  /** Both calls meet the same clock and draws, and no backend operation fails. */
  predicate SameScene(w: Scene, v: Batches.World, key: Key) {
    && !w.readFails && !w.healFails && !w.recheckFails && !w.rehealFails && !w.setFails
    && v.configured && !v.ReadFails(key) && !v.setFails(key) && !v.deleteFails(key)
    && v.readAt(key) == w.readAt
    && v.loadDur == Elapsed(w.loadAt, w.loadEnd)
    && v.packAt(key) == w.packAt && v.packDraw(key) == w.packDraw
    && v.setAt(key) == w.setAt && v.setDraw(key) == w.setDraw
  }

  lemma OneKeyRead(m: TimedMap.Items, key: Key, v: Batches.World)
    requires !v.ReadFails(key)
    ensures
      var read := TimedMap.Lookup(m, key, v.readAt(key));
      var m1 := TimedMap.Reap(m, key, v.readAt(key));
      && Batches.Raws(m, v, [key]) == (if read.Some? then map[key := read.value] else map[])
      && Batches.AfterReads(m, v, [key]) == m1
      && (read.None? ==> key !in m1)
  {
  }

  lemma UnreadMeansNothingRead(cfg: CacheConfig, codec: Codec, raw: Option<Bytes>)
    ensures Batches.Judge(cfg, codec, raw).Unread? <==> raw.None?
  {
  }

  lemma OneKeyVerdict(cfg: CacheConfig, codec: Codec, raw: map<Key, Bytes>, key: Key)
    ensures
      var verdict := Batches.Judge(cfg, codec, Batches.RawOf(raw, key));
      && Batches.Unique([key]) == [key]
      && Batches.MissingOf(cfg, codec, raw, [key]) == (if Batches.NeedsLoad(verdict) then [key] else [])
      && Batches.CachedOf(cfg, codec, raw, [key]) == (if verdict.Cached? then map[key := verdict.v] else map[])
  {
    hide Batches.Judge, Batches.RawOf;
    assert [key][..0] == [];
  }

  lemma OneKeyHealed(cfg: CacheConfig, codec: Codec, v: Batches.World, raw: map<Key, Bytes>, m: TimedMap.Items,
                     key: Key)
    ensures Batches.Healed(cfg, codec, v, raw, m, [key]) ==
            if Batches.Judge(cfg, codec, Batches.RawOf(raw, key)).Corrupt? && !v.deleteFails(key) then m - {key} else m
  {
    hide Batches.Judge, Batches.RawOf;
  }

  lemma NothingPlus(loaded: map<Key, Value>)
    ensures map[] + loaded == loaded
  {
  }

  lemma Overwrites(m: TimedMap.Items, key: Key, item: Item)
    ensures (m - {key})[key := item] == m[key := item]
  {
  }

  lemma OneKeyWrite(m: TimedMap.Items, cfg: CacheConfig, w: Batches.World, key: Key, data: Bytes, ttl: Duration)
    requires !w.setFails(key)
    ensures Batches.AfterWrite(cfg, w, m, map[], ttl) == m
    ensures Batches.AfterWrite(cfg, w, m, map[key := data], ttl)
            == m[key := NewItem(data, ttl, cfg, w.setAt(key), w.setDraw(key))]
  {
    hide NewItem;
  }

  /** What a batch for one key writes. */
  lemma OneKeyPacked(job: Batches.Job, key: Key, loaded: map<Key, Value>)
    ensures
      var packs := key in loaded && job.Encodable(loaded[key]);
      && Batches.ValsOf(job, loaded, [key]) == (if packs then map[key := job.Pack(key, loaded[key]).data] else map[])
      && (packs ==> Batches.StoreTtl(job, loaded, [key]) == job.Pack(key, loaded[key]).ttl)
      && Batches.NegsOf(job.cfg, loaded, [key])
         == (if key !in loaded && job.cfg.negativeTTL > 0 then map[key := NEGATIVE_MARKER] else map[])
      && Batches.LoadedOf(loaded, [key]) == (if key in loaded then map[key := loaded[key]] else map[])
  {
    hide PackForStore;
  }

  /** What a batch call for one key comes to. */
  lemma OneKeyBatch(m: TimedMap.Items, cfg: CacheConfig, codec: Codec, key: Key, ttl: Duration,
                    loader: Batches.Loader, v: Batches.World)
    requires v.configured && !v.ReadFails(key) && !v.setFails(key) && !v.deleteFails(key)
    ensures
      var out := Batches.ManySpec(m, cfg, codec, [key], ttl, loader, v);
      var m1 := TimedMap.Reap(m, key, v.readAt(key));
      match Batches.Judge(cfg, codec, TimedMap.Lookup(m, key, v.readAt(key)))
      case Cached(x) => out.reply == Ok(map[key := x]) && out.asked == None && out.contents == m1
      case KnownAbsent => out.reply == Ok(map[]) && out.asked == None && out.contents == m1
      case _ =>
        match loader([key])
        case Err(e) => out.reply == Err(e) && out.asked == Some([key]) && out.contents == m1 - {key}
        case Ok(loaded) =>
          if key !in loaded then
            && out.reply == Ok(map[]) && out.asked == Some([key])
            && out.contents ==
              (if cfg.negativeTTL <= 0 then m1 - {key}
              else m1[key := NewItem(NEGATIVE_MARKER, cfg.negativeTTL, cfg, v.setAt(key), v.setDraw(key))])
          else
            && out.reply == Ok(map[key := loaded[key]]) && out.asked == Some([key])
            && match codec.marshal(loaded[key])
               case None => out.contents == m1 - {key}
               case Some(payload) =>
                 var p := PackForStore(payload, ttl, v.loadDur, cfg, v.packAt(key), v.packDraw(key));
                 out.contents == m1[key := NewItem(p.data, p.ttl, cfg, v.setAt(key), v.setDraw(key))]
  {
    hide PackForStore, NewItem, Batches.Judge, TimedMap.Lookup, TimedMap.Reap;
    hide Batches.Raws, Batches.AfterReads, Batches.MissingOf, Batches.CachedOf, Batches.Healed, Batches.Unique;
    hide Batches.ValsOf, Batches.StoreTtl, Batches.NegsOf, Batches.AfterWrite;
    OneKeyRead(m, key, v);
    OneKeyVerdict(cfg, codec, Batches.Raws(m, v, [key]), key);
    OneKeyHealed(cfg, codec, v, Batches.Raws(m, v, [key]), Batches.AfterReads(m, v, [key]), key);
    var m1, m2 := TimedMap.Reap(m, key, v.readAt(key)), TimedMap.Reap(m, key, v.readAt(key)) - {key};
    UnreadMeansNothingRead(cfg, codec, TimedMap.Lookup(m, key, v.readAt(key)));
    assert key !in m1 ==> m2 == m1;
    if loader([key]).Ok? {
      var job, loaded := Batches.Job(cfg, codec, ttl, v), loader([key]).value;
      var storeTtl := Batches.StoreTtl(job, loaded, [key]);
      OneKeyPacked(job, key, loaded);
      NothingPlus(Batches.LoadedOf(loaded, [key]));
      OneKeyWrite(m2, cfg, v, key, NEGATIVE_MARKER, storeTtl);
      OneKeyWrite(m2, cfg, v, key, NEGATIVE_MARKER, cfg.negativeTTL);
      if key !in loaded {
        Overwrites(m1, key, NewItem(NEGATIVE_MARKER, cfg.negativeTTL, cfg, v.setAt(key), v.setDraw(key)));
      } else if job.Encodable(loaded[key]) {
        var p := job.Pack(key, loaded[key]);
        var item := NewItem(p.data, p.ttl, cfg, v.setAt(key), v.setDraw(key));
        OneKeyWrite(m2, cfg, v, key, p.data, p.ttl);
        OneKeyWrite(m2[key := item], cfg, v, key, p.data, cfg.negativeTTL);
        Overwrites(m1, key, item);
      }
    }
  }

  /** The bytes of a loaded value decode to it, whichever form they take. */
  lemma PackedDecodes(cfg: CacheConfig, codec: Codec, v: Value, ttl: Duration, loadDur: Duration, now: Time, u: real)
    requires codec.Faithful() && codec.marshal(v).Some?
    ensures
      var view := Classify(cfg, codec, PackForStore(codec.marshal(v).value, ttl, loadDur, cfg, now, u).data);
      view.Readable? && view.v == v
  {
    var term := FreshFor(ttl, cfg, u);
    StorageIsUnambiguous(cfg, codec, v, if term > 0 then now + term else ZERO_TIME, loadDur);
  }

  /** What a call of GetOrSet comes to when no backend operation fails. */
  lemma OneKeyCall(m: TimedMap.Items, cfg: CacheConfig, codec: Codec, key: Key, ttl: Duration, load: Load, w: Scene)
    requires codec.Faithful() && Draw(w.setDraw)
    requires !w.readFails && !w.healFails && !w.recheckFails && !w.rehealFails && !w.setFails && !load.Blows?
    requires load.Gives? ==> codec.marshal(load.v).Some?
    ensures
      var out := CallRun(Solo(cfg, codec, load), key, ttl, m, load, w);
      var m1 := TimedMap.Reap(m, key, w.readAt);
      match Batches.Judge(cfg, codec, TimedMap.Lookup(m, key, w.readAt))
      case Cached(x) => out.reply == Served.Value(x) && !out.asked && out.contents == m1
      case KnownAbsent => out.reply == NoSuchEntity && !out.asked && out.contents == m1
      case _ =>
        && out.asked
        && match load
           case Errors => out.reply.Failed? && out.contents == m1 - {key}
           case SaysNotFound =>
             && out.reply == NoSuchEntity
             && out.contents ==
                if cfg.negativeTTL <= 0 then m1 - {key}
                else m1[key := NewItem(NEGATIVE_MARKER, cfg.negativeTTL, cfg, w.setAt, w.setDraw)]
           case Gives(x) =>
             var took := Elapsed(w.loadAt, w.loadEnd);
             var p := PackForStore(codec.marshal(x).value, ttl, took, cfg, w.packAt, w.packDraw);
             && out.reply == Served.Value(x)
             && out.contents == m1[key := NewItem(p.data, p.ttl, cfg, w.setAt, w.setDraw)]
           case Blows => true
  {
    hide PackForStore, NewItem, Classify, ShouldEarlyRefresh, IsNegative;
    NegativeIsAbsent(cfg, codec);
    if load.Gives? {
      PackedDecodes(cfg, codec, load.v, ttl, Elapsed(w.loadAt, w.loadEnd), w.packAt, w.packDraw);
    }
  }

  /** A batch of one key agrees with GetOrSet when no backend operation, encoding or loader panic fails it:
      same loader calls, same contents at the end, and answers that correspond, with omission
      for not found. A stale entry is served by both; only GetOrSet starts a refresh for it. */
  lemma OneKeyBatchAgrees(m: TimedMap.Items, cfg: CacheConfig, codec: Codec, key: Key, ttl: Duration,
                          load: Load, w: Scene, loader: Batches.Loader, v: Batches.World)
    requires codec.Faithful() && Draw(w.setDraw)
    requires SameScene(w, v, key) && SameAnswer(loader, key, load)
    requires load.Gives? ==> codec.marshal(load.v).Some?
    ensures
      var one := CallRun(Solo(cfg, codec, load), key, ttl, m, load, w);
      var many := Batches.ManySpec(m, cfg, codec, [key], ttl, loader, v);
      && many.contents == one.contents
      && many.asked == (if one.asked then Some([key]) else None)
      && (match one.reply
          case Value(x) => many.reply == Ok(map[key := x])
          case NoSuchEntity => many.reply == Ok(map[])
          case Failed(_) => many.reply.Err?
          case BadData => false)
  {
    hide CallRun, Batches.ManySpec, PackForStore, NewItem, Batches.Judge, TimedMap.Lookup;
    OneKeyCall(m, cfg, codec, key, ttl, load, w);
    OneKeyBatch(m, cfg, codec, key, ttl, loader, v);
  }
}
