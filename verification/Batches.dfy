/** batch.go: GetOrSetMany over the in-memory backend, through its batch operations or key by key. */
module Batches {
  import opened Base
  import opened Codecs
  import opened Config
  import opened Envelope
  import opened Stored
  import opened TimedMap
  import opened Memory

  /** Why a call fails: the loader's own error, or its panic, which goes through to the caller. */
  datatype BatchFailure = LoaderError(msg: string) | LoaderPanic

  type Answers = Result<map<Key, Value>, BatchFailure>

  type Loader = seq<Key> -> Answers

  /** The hooks that a call itself fires; those of the backend are the backend's. */
  datatype Event = OnLoad(k: Key, failed: bool) | OpDecode(k: Key) | OpEncode(k: Key)

  /** What surrounds a call: whether the cache has batch operations and a cachekit configuration, which
      backend operations fail, and the clock and draws that each key meets. */
  datatype World = World(
    batched: bool,
    configured: bool,
    getManyFails: bool,
    getFails: Key -> bool,
    setFails: Key -> bool,
    deleteFails: Key -> bool,
    readAt: Key -> Time,
    loadDur: Duration,
    packAt: Key -> Time,
    packDraw: Key -> real,
    setAt: Key -> Time,
    setDraw: Key -> real)
  {
    predicate ReadFails(k: Key) {
      if batched then getManyFails else getFails(k)
    }

    /** configOf. */
    function Helper(backend: CacheConfig): CacheConfig {
      if configured then backend else NO_CONFIG
    }
  }

  // ------------------------------------------------------------------
  // Specification
  // ------------------------------------------------------------------

  /** The keys without repetitions, in the order of their first occurrence. */
  function Unique(keys: seq<Key>): seq<Key> {
    if |keys| == 0 then []
    else
      var n := |keys| - 1;
      if keys[n] in keys[..n] then Unique(keys[..n]) else Unique(keys[..n]) + [keys[n]]
  }

  datatype Verdict = Cached(v: Value) | KnownAbsent | Corrupt | Unread

  function Judge(cfg: CacheConfig, codec: Codec, raw: Option<Bytes>): Verdict {
    match raw
    case None => Unread
    case Some(data) =>
      match Classify(cfg, codec, data)
      case Absent => KnownAbsent
      case Readable(_, v) => Cached(v)
      case Undecodable(_) => Corrupt
  }

  function RawRead(m: Items, w: World, k: Key): Option<Bytes> {
    if w.ReadFails(k) then None else Lookup(m, k, w.readAt(k))
  }

  function Raws(m: Items, w: World, ks: seq<Key>): map<Key, Bytes> {
    map k | k in ks && RawRead(m, w, k).Some? :: RawRead(m, w, k).value
  }

  function RawOf(raw: map<Key, Bytes>, k: Key): Option<Bytes> {
    if k in raw then Some(raw[k]) else None
  }

  /** The contents after the read phase: what was read past its deadline is gone. */
  function AfterReads(m: Items, w: World, ks: seq<Key>): Items {
    map k | k in m && !(k in ks && !w.ReadFails(k) && !m[k].Live(w.readAt(k))) :: m[k]
  }

  predicate NeedsLoad(verdict: Verdict) {
    verdict.Corrupt? || verdict.Unread?
  }

  function MissingOf(cfg: CacheConfig, codec: Codec, raw: map<Key, Bytes>, ks: seq<Key>): seq<Key> {
    if |ks| == 0 then []
    else
      var n := |ks| - 1;
      var earlier := MissingOf(cfg, codec, raw, ks[..n]);
      if NeedsLoad(Judge(cfg, codec, RawOf(raw, ks[n]))) then earlier + [ks[n]] else earlier
  }

  function CachedOf(cfg: CacheConfig, codec: Codec, raw: map<Key, Bytes>, ks: seq<Key>): map<Key, Value> {
    map k | k in ks && Judge(cfg, codec, RawOf(raw, k)).Cached? :: Judge(cfg, codec, RawOf(raw, k)).v
  }

  /** Self-healing deletes the entries that did not decode, as far as the backend lets it. */
  function Healed(cfg: CacheConfig, codec: Codec, w: World, raw: map<Key, Bytes>, m: Items, ks: seq<Key>): Items {
    map k | k in m && !(k in ks && !w.deleteFails(k) && Judge(cfg, codec, RawOf(raw, k)).Corrupt?) :: m[k]
  }

  function Decodes(cfg: CacheConfig, codec: Codec, raw: map<Key, Bytes>, ks: seq<Key>): seq<Event> {
    if |ks| == 0 then []
    else
      var n := |ks| - 1;
      var earlier := Decodes(cfg, codec, raw, ks[..n]);
      if Judge(cfg, codec, RawOf(raw, ks[n])).Corrupt? then earlier + [OpDecode(ks[n])] else earlier
  }

  function Loads(missing: seq<Key>, failed: bool): seq<Event> {
    if |missing| == 0 then []
    else Loads(missing[..|missing| - 1], failed) + [OnLoad(missing[|missing| - 1], failed)]
  }

  /** One call's requested TTL, with what its packing depends on. */
  datatype Job = Job(cfg: CacheConfig, codec: Codec, ttl: Duration, w: World)
  {
    predicate Encodable(v: Value) {
      codec.marshal(v).Some?
    }

    function Pack(k: Key, v: Value): Packed
      requires Encodable(v)
    {
      PackForStore(codec.marshal(v).value, ttl, w.loadDur, cfg, w.packAt(k), w.packDraw(k))
    }
  }

  function ValsOf(job: Job, loaded: map<Key, Value>, missing: seq<Key>): map<Key, Bytes> {
    map k | k in missing && k in loaded && job.Encodable(loaded[k]) :: job.Pack(k, loaded[k]).data
  }

  /** Every value of the call is stored under the TTL of the key that was packed last. */
  function StoreTtl(job: Job, loaded: map<Key, Value>, missing: seq<Key>): Duration {
    if |missing| == 0 then job.ttl
    else
      var n := |missing| - 1;
      if missing[n] in loaded && job.Encodable(loaded[missing[n]]) then job.Pack(missing[n], loaded[missing[n]]).ttl
      else StoreTtl(job, loaded, missing[..n])
  }

  function Encodes(job: Job, loaded: map<Key, Value>, missing: seq<Key>): seq<Event> {
    if |missing| == 0 then []
    else
      var n := |missing| - 1;
      var earlier := Encodes(job, loaded, missing[..n]);
      if missing[n] in loaded && !job.Encodable(loaded[missing[n]]) then earlier + [OpEncode(missing[n])] else earlier
  }

  function NegsOf(cfg: CacheConfig, loaded: map<Key, Value>, missing: seq<Key>): map<Key, Bytes> {
    map k | k in missing && k !in loaded && cfg.negativeTTL > 0 :: NEGATIVE_MARKER
  }

  function LoadedOf(loaded: map<Key, Value>, missing: seq<Key>): map<Key, Value> {
    map k | k in missing && k in loaded :: loaded[k]
  }

  /** The part of a batch write that reaches the store. */
  function Arriving(w: World, vals: map<Key, Bytes>): map<Key, Bytes> {
    map k | k in vals && !w.setFails(k) :: vals[k]
  }

  function AfterWrite(backend: CacheConfig, w: World, m: Items, vals: map<Key, Bytes>, ttl: Duration): Items {
    m + StoreMany(Arriving(w, vals), ttl, backend, w.setAt, w.setDraw)
  }

  /** What a call returns, what it asked the loader for, if it did, what it leaves in the store, and the hooks
      that it fired. */
  datatype Outcome = Outcome(reply: Answers, asked: Option<seq<Key>>, contents: Items, events: seq<Event>)

  function ManySpec(m: Items, backend: CacheConfig, codec: Codec, keys: seq<Key>, ttl: Duration, loader: Loader,
                    w: World): Outcome {
    var cfg := w.Helper(backend);
    var job := Job(cfg, codec, ttl, w);
    var uniq := Unique(keys);
    var raw := Raws(m, w, uniq);
    var missing := MissingOf(cfg, codec, raw, uniq);
    var cached := CachedOf(cfg, codec, raw, uniq);
    var kept := Healed(cfg, codec, w, raw, AfterReads(m, w, uniq), uniq);
    var decodes := Decodes(cfg, codec, raw, uniq);
    if missing == [] then Outcome(Ok(cached), None, kept, decodes)
    else
      match loader(missing)
      case Err(e) =>
        Outcome(Err(e), Some(missing), kept, decodes + if e.LoaderPanic? then [] else Loads(missing, true))
      case Ok(loaded) =>
        var stored := AfterWrite(backend, w, kept, ValsOf(job, loaded, missing), StoreTtl(job, loaded, missing));
        Outcome(Ok(cached + LoadedOf(loaded, missing)), Some(missing),
                AfterWrite(backend, w, stored, NegsOf(cfg, loaded, missing), cfg.negativeTTL),
                decodes + Loads(missing, false) + Encodes(job, loaded, missing))
  }

  // ------------------------------------------------------------------
  // The phases
  // ------------------------------------------------------------------

  lemma PrefixMembers(ks: seq<Key>, i: nat)
    requires i < |ks|
    ensures forall k :: k in ks[..i + 1] <==> k in ks[..i] || k == ks[i]
    ensures ks[..i + 1][..i] == ks[..i]
  {
  }

  method Dedupe(keys: seq<Key>) returns (uniq: seq<Key>)
    ensures uniq == Unique(keys)
  {
    uniq := [];
    var seen: set<Key> := {};
    for i := 0 to |keys|
      invariant uniq == Unique(keys[..i])
      invariant forall k :: k in seen <==> k in keys[..i]
    {
      PrefixMembers(keys, i);
      if keys[i] !in seen {
        seen := seen + {keys[i]};
        uniq := uniq + [keys[i]];
      }
    }
    assert keys[..|keys|] == keys;
  }

  lemma RawsSnoc(m: Items, w: World, ks: seq<Key>, i: nat)
    requires i < |ks|
    ensures Raws(m, w, ks[..i + 1]) ==
            match RawRead(m, w, ks[i])
            case None => Raws(m, w, ks[..i])
            case Some(data) => Raws(m, w, ks[..i])[ks[i] := data]
  {
    PrefixMembers(ks, i);
  }

  /** Earlier reads of other keys do not change what a read finds and leaves behind. */
  lemma AfterReadsSnoc(m: Items, w: World, ks: seq<Key>, i: nat)
    requires i < |ks|
    ensures
      var before, after := AfterReads(m, w, ks[..i]), AfterReads(m, w, ks[..i + 1]);
      if w.ReadFails(ks[i]) then after == before
      else
        && Lookup(before, ks[i], w.readAt(ks[i])) == RawRead(m, w, ks[i])
        && Reap(before, ks[i], w.readAt(ks[i])) == after
  {
    PrefixMembers(ks, i);
  }

  lemma BatchedReads(m: Items, w: World, ks: seq<Key>)
    requires w.batched
    ensures if w.getManyFails then Raws(m, w, ks) == map[] && AfterReads(m, w, ks) == m
            else Raws(m, w, ks) == Found(m, ks, w.readAt) && AfterReads(m, w, ks) == Swept(m, ks, w.readAt)
  {
  }

  lemma NothingRead(m: Items, w: World)
    ensures Raws(m, w, []) == map[] && AfterReads(m, w, []) == m
  {
  }

  /** One GetMany, or one Get per key; a failed read is a miss. */
  method ReadPhase(c: MemoryCache, uniq: seq<Key>, w: World) returns (raw: map<Key, Bytes>)
    requires c.Valid() && Nondecreasing(At(uniq, w.readAt))
    modifies c
    ensures c.Valid()
    ensures raw == Raws(old(c.contents), w, uniq)
    ensures c.contents == AfterReads(old(c.contents), w, uniq)
  {
    hide Raws, AfterReads, Found, Swept, Lookup, Reap, LookupMany, ReapMany;
    ghost var was := c.contents;
    raw := map[];
    if w.batched {
      BatchedReads(was, w, uniq);
      if !w.getManyFails {
        BatchReadIsPointwise(was, uniq, w.readAt);
        raw := c.GetMany(uniq, At(uniq, w.readAt));
      }
    } else {
      NothingRead(was, w);
      for i := 0 to |uniq|
        invariant c.Valid()
        invariant raw == Raws(was, w, uniq[..i])
        invariant c.contents == AfterReads(was, w, uniq[..i])
      {
        RawsSnoc(was, w, uniq, i);
        AfterReadsSnoc(was, w, uniq, i);
        if !w.getFails(uniq[i]) {
          var r := c.Get(uniq[i], w.readAt(uniq[i]));
          if r.Some? {
            raw := raw[uniq[i] := r.value];
          }
        }
      }
      assert uniq[..|uniq|] == uniq;
    }
  }

  lemma ClassifySnoc(cfg: CacheConfig, codec: Codec, raw: map<Key, Bytes>, ks: seq<Key>, i: nat)
    requires i < |ks|
    ensures
      var k, earlier, later := ks[i], ks[..i], ks[..i + 1];
      var verdict := Judge(cfg, codec, RawOf(raw, k));
      && CachedOf(cfg, codec, raw, later) ==
         (if verdict.Cached? then CachedOf(cfg, codec, raw, earlier)[k := verdict.v]
          else CachedOf(cfg, codec, raw, earlier))
      && MissingOf(cfg, codec, raw, later) ==
         MissingOf(cfg, codec, raw, earlier) + (if NeedsLoad(verdict) then [k] else [])
      && Decodes(cfg, codec, raw, later) ==
         Decodes(cfg, codec, raw, earlier) + (if verdict.Corrupt? then [OpDecode(k)] else [])
  {
    hide Judge;
    PrefixMembers(ks, i);
  }

  lemma HealedSnoc(cfg: CacheConfig, codec: Codec, w: World, raw: map<Key, Bytes>, m: Items, ks: seq<Key>, i: nat)
    requires i < |ks|
    ensures
      var k, earlier, later := ks[i], ks[..i], ks[..i + 1];
      Healed(cfg, codec, w, raw, m, later) ==
      (if Judge(cfg, codec, RawOf(raw, k)).Corrupt? && !w.deleteFails(k) then
         Healed(cfg, codec, w, raw, m, earlier) - {k}
       else Healed(cfg, codec, w, raw, m, earlier))
  {
    hide Judge;
    PrefixMembers(ks, i);
  }

  lemma NothingClassified(cfg: CacheConfig, codec: Codec, w: World, raw: map<Key, Bytes>, m: Items)
    ensures CachedOf(cfg, codec, raw, []) == map[] && MissingOf(cfg, codec, raw, []) == []
    ensures Healed(cfg, codec, w, raw, m, []) == m && Decodes(cfg, codec, raw, []) == []
  {
  }

  method ClassifyPhase(c: MemoryCache, cfg: CacheConfig, codec: Codec, w: World, uniq: seq<Key>, raw: map<Key, Bytes>)
    returns (result: map<Key, Value>, missing: seq<Key>, events: seq<Event>)
    requires c.Valid()
    modifies c
    ensures c.Valid()
    ensures result == CachedOf(cfg, codec, raw, uniq)
    ensures missing == MissingOf(cfg, codec, raw, uniq)
    ensures c.contents == Healed(cfg, codec, w, raw, old(c.contents), uniq)
    ensures events == Decodes(cfg, codec, raw, uniq)
  {
    hide Classify, CachedOf, MissingOf, Healed, Decodes, ParseStored;
    result, missing, events := map[], [], [];
    ghost var was := c.contents;
    NothingClassified(cfg, codec, w, raw, was);
    for i := 0 to |uniq|
      invariant c.Valid()
      invariant result == CachedOf(cfg, codec, raw, uniq[..i])
      invariant missing == MissingOf(cfg, codec, raw, uniq[..i])
      invariant c.contents == Healed(cfg, codec, w, raw, was, uniq[..i])
      invariant events == Decodes(cfg, codec, raw, uniq[..i])
    {
      ClassifySnoc(cfg, codec, raw, uniq, i);
      HealedSnoc(cfg, codec, w, raw, was, uniq, i);
      var k := uniq[i];
      if k !in raw {
        missing := missing + [k];
        continue;
      }
      var data := raw[k];
      ClassifyByParts(cfg, codec, data);
      if IsNegative(data) {
        continue;
      }
      var (env, payload) := ParseStored(cfg, data);
      var decoded := codec.unmarshal(payload);
      if decoded.None? {
        events := events + [OpDecode(k)];
        if !w.deleteFails(k) {
          c.Delete(k);
        }
        missing := missing + [k];
        continue;
      }
      result := result[k := decoded.value];
    }
    assert uniq[..|uniq|] == uniq;
  }

  lemma ClassifyByParts(cfg: CacheConfig, codec: Codec, data: Bytes)
    ensures
      var (env, payload) := ParseStored(cfg, data);
      Classify(cfg, codec, data) ==
      if IsNegative(data) then Absent
      else match codec.unmarshal(payload) case Some(v) => Readable(env, v) case None => Undecodable(env)
  {
  }

  lemma PackSnoc(job: Job, loaded: map<Key, Value>, ks: seq<Key>, i: nat)
    requires i < |ks|
    ensures
      var k, earlier, later := ks[i], ks[..i], ks[..i + 1];
      var packs := k in loaded && job.Encodable(loaded[k]);
      && ValsOf(job, loaded, later) ==
         (if packs then ValsOf(job, loaded, earlier)[k := job.Pack(k, loaded[k]).data]
          else ValsOf(job, loaded, earlier))
      && StoreTtl(job, loaded, later) == (if packs then job.Pack(k, loaded[k]).ttl else StoreTtl(job, loaded, earlier))
      && Encodes(job, loaded, later) ==
         Encodes(job, loaded, earlier) + (if k in loaded && !packs then [OpEncode(k)] else [])
      && NegsOf(job.cfg, loaded, later) ==
         (if k !in loaded && job.cfg.negativeTTL > 0 then NegsOf(job.cfg, loaded, earlier)[k := NEGATIVE_MARKER]
          else NegsOf(job.cfg, loaded, earlier))
      && LoadedOf(loaded, later) ==
         (if k in loaded then LoadedOf(loaded, earlier)[k := loaded[k]] else LoadedOf(loaded, earlier))
  {
    hide PackForStore;
    PrefixMembers(ks, i);
  }

  lemma NothingPacked(job: Job, loaded: map<Key, Value>, cached: map<Key, Value>)
    ensures ValsOf(job, loaded, []) == map[] && StoreTtl(job, loaded, []) == job.ttl && Encodes(job, loaded, []) == []
    ensures NegsOf(job.cfg, loaded, []) == map[] && LoadedOf(loaded, []) == map[]
  {
  }

  method PackPhase(job: Job, loaded: map<Key, Value>, missing: seq<Key>, cached: map<Key, Value>)
    returns (result: map<Key, Value>, vals: map<Key, Bytes>, storeTTL: Duration, negs: map<Key, Bytes>,
             events: seq<Event>)
    ensures result == cached + LoadedOf(loaded, missing)
    ensures vals == ValsOf(job, loaded, missing)
    ensures storeTTL == StoreTtl(job, loaded, missing)
    ensures negs == NegsOf(job.cfg, loaded, missing)
    ensures events == Encodes(job, loaded, missing)
  {
    hide PackForStore, ValsOf, StoreTtl, NegsOf, LoadedOf, Encodes;
    result, vals, storeTTL, negs, events := cached, map[], job.ttl, map[], [];
    NothingPacked(job, loaded, cached);
    for i := 0 to |missing|
      invariant result == cached + LoadedOf(loaded, missing[..i])
      invariant vals == ValsOf(job, loaded, missing[..i])
      invariant storeTTL == StoreTtl(job, loaded, missing[..i])
      invariant negs == NegsOf(job.cfg, loaded, missing[..i])
      invariant events == Encodes(job, loaded, missing[..i])
    {
      PackSnoc(job, loaded, missing, i);
      var k := missing[i];
      if k !in loaded {
        if job.cfg.negativeTTL > 0 {
          negs := negs[k := NEGATIVE_MARKER];
        }
        continue;
      }
      result := result[k := loaded[k]];
      var payload := job.codec.marshal(loaded[k]);
      if payload.None? {
        events := events + [OpEncode(k)];
        continue;
      }
      var packed := PackForStore(payload.value, job.ttl, job.w.loadDur, job.cfg, job.w.packAt(k), job.w.packDraw(k));
      storeTTL := packed.ttl;
      vals := vals[k := packed.data];
    }
    assert missing[..|missing|] == missing;
  }

  /** Best-effort writes. The per-key path ranges over a Go map, in any order. */
  method WritePhase(c: MemoryCache, w: World, vals: map<Key, Bytes>, ttl: Duration)
    requires c.Valid()
    modifies c
    ensures c.Valid()
    ensures c.contents == AfterWrite(c.cfg, w, old(c.contents), vals, ttl)
  {
    hide NewItem;
    if w.batched {
      c.SetMany(Arriving(w, vals), ttl, w.setAt, w.setDraw);
    } else {
      ghost var was := c.contents;
      var todo := vals.Keys;
      assert Visited(Arriving(w, vals), todo) == map[];
      while todo != {}
        invariant c.Valid() && todo <= vals.Keys
        invariant c.contents == was + StoreMany(Visited(Arriving(w, vals), todo), ttl, c.cfg, w.setAt, w.setDraw)
        decreases todo
      {
        var k :| k in todo;
        if w.setFails(k) {
          assert Visited(Arriving(w, vals), todo) == Visited(Arriving(w, vals), todo - {k});
        } else {
          VisitOne(was, Arriving(w, vals), todo, k, ttl, c.cfg, w.setAt, w.setDraw);
          c.Set(k, vals[k], ttl, w.setAt(k), w.setDraw(k));
        }
        todo := todo - {k};
      }
      assert Visited(Arriving(w, vals), todo) == Arriving(w, vals);
    }
  }

  /** OnLoad, once per missing key. A panicking loader never gets here. */
  method ReportLoads(missing: seq<Key>, failed: bool) returns (events: seq<Event>)
    ensures events == Loads(missing, failed)
  {
    events := [];
    for i := 0 to |missing|
      invariant events == Loads(missing[..i], failed)
    {
      assert missing[..i + 1][..i] == missing[..i];
      events := events + [OnLoad(missing[i], failed)];
    }
    assert missing[..|missing|] == missing;
  }

  /** GetOrSetManyWithCodec. */
  method GetOrSetMany(c: MemoryCache, keys: seq<Key>, ttl: Duration, codec: Codec, loader: Loader, w: World)
    returns (reply: Answers, asked: Option<seq<Key>>, events: seq<Event>)
    requires c.Valid() && Nondecreasing(At(Unique(keys), w.readAt))
    modifies c
    ensures c.Valid()
    ensures Outcome(reply, asked, c.contents, events) == ManySpec(old(c.contents), c.cfg, codec, keys, ttl, loader, w)
  {
    hide Raws, AfterReads, MissingOf, CachedOf, Healed, ValsOf, StoreTtl, NegsOf, LoadedOf, AfterWrite;
    hide Unique, Decodes, Encodes, Loads;
    var cfg := w.Helper(c.cfg);
    var uniq := Dedupe(keys);
    var raw := ReadPhase(c, uniq, w);
    var result, missing, decodes := ClassifyPhase(c, cfg, codec, w, uniq, raw);
    asked, events := None, decodes;
    if |missing| == 0 {
      return Ok(result), asked, events;
    }
    var load := loader(missing);
    asked := Some(missing);
    if load == Err(LoaderPanic) {
      return load, asked, events;
    }
    var loads := ReportLoads(missing, load.Err?);
    events := events + loads;
    if load.Err? {
      return load, asked, events;
    }
    var merged, vals, storeTTL, negs, encodes := PackPhase(Job(cfg, codec, ttl, w), load.value, missing, result);
    WritePhase(c, w, vals, storeTTL);
    WritePhase(c, w, negs, cfg.negativeTTL);
    reply, events := Ok(merged), events + encodes;
  }
}
