/** batch.go and hooks.go configOf: what a batch call reads and writes, on the bytes and the TTLs alone, also for a
    cache without a cachekit configuration. */
module ReadWrite {
  import opened Base
  import opened Codecs
  import opened Config
  import opened Envelope
  import opened Stored
  import opened TimedMap
  import opened Batches
  import opened BatchLaws
  import opened Looks

  // ------------------------------------------------------------------
  // Reading
  // ------------------------------------------------------------------

  /** The call reads an entry that has not expired. */
  predicate Reads(m: Items, w: World, k: Key) {
    && !(if w.batched then w.getManyFails else w.getFails(k))
    && k in m && (m[k].deadline == None || w.readAt(k) < m[k].deadline.value)
  }

  /** The bytes that the codec is given. A cache without a configuration has no metadata. */
  function Encoded(backend: CacheConfig, w: World, data: Bytes): Bytes {
    if w.configured then PayloadOf(backend, data) else data
  }

  /** What the call makes of a key. */
  function VerdictByBytes(m: Items, backend: CacheConfig, codec: Codec, w: World, k: Key): Verdict {
    if !Reads(m, w, k) then Unread
    else if SpellsAbsence(m[k].val) then KnownAbsent
    else match codec.unmarshal(Encoded(backend, w, m[k].val)) case Some(v) => Cached(v) case None => Corrupt
  }

  lemma VerdictMeans(m: Items, backend: CacheConfig, codec: Codec, w: World, k: Key)
    ensures VerdictOn(m, backend, codec, w, k) == VerdictByBytes(m, backend, codec, w, k)
  {
    hide Classify, PayloadOf, MetadataOf;
    if k in m {
      BytesMean(w.Helper(backend), codec, m[k].val);
      NoMetadata(m[k].val);
    }
  }

  lemma NoMetadata(data: Bytes)
    ensures PayloadOf(NO_CONFIG, data) == data
  {
  }

  // ------------------------------------------------------------------
  // Writing without metadata
  // ------------------------------------------------------------------

  /** No metadata is in use: the cache has no configuration, or one with neither feature on. */
  predicate Plain(backend: CacheConfig, w: World) {
    !w.configured || (backend.staleTTL <= 0 && backend.earlyRefreshBeta <= 0.0)
  }

  lemma {:induction false} PlainStoreTtl(job: Job, loaded: map<Key, Value>, missing: seq<Key>)
    requires !job.cfg.EnvelopeEnabled()
    ensures StoreTtl(job, loaded, missing) == job.ttl
  {
    if |missing| > 0 {
      PlainStoreTtl(job, loaded, missing[..|missing| - 1]);
    }
  }

  /** The key is missing, and the loader has answered. */
  predicate Answered(out: Outcome, loader: Loader, k: Key) {
    out.asked.Some? && k in out.asked.value && loader(out.asked.value).Ok?
  }

  lemma OnePlainWrite(m: Items, backend: CacheConfig, w: World, vals: map<Key, Bytes>, ttl: Duration, k: Key)
    ensures
      var after := AfterWrite(backend, w, m, vals, ttl);
      if k in vals && !w.setFails(k) then
        k in after && after[k] == NewItem(vals[k], ttl, backend, w.setAt(k), w.setDraw(k))
      else (k in after <==> k in m) && (k in m ==> after[k] == m[k])
  {
    hide NewItem;
  }

  /** What the two writes of a call leave under one key. */
  lemma PlainWrites(m: Items, backend: CacheConfig, job: Job, loaded: map<Key, Value>, missing: seq<Key>, k: Key)
    requires !job.cfg.EnvelopeEnabled() && k in missing
    ensures
      var w := job.w;
      var stored := AfterWrite(backend, w, m, ValsOf(job, loaded, missing), StoreTtl(job, loaded, missing));
      var after := AfterWrite(backend, w, stored, NegsOf(job.cfg, loaded, missing), job.cfg.negativeTTL);
      var kept := (k in after <==> k in m) && (k in m ==> after[k] == m[k]);
      if w.setFails(k) then kept
      else if k in loaded then
        match job.codec.marshal(loaded[k])
        case Some(data) => k in after && after[k] == NewItem(data, job.ttl, backend, w.setAt(k), w.setDraw(k))
        case None => kept
      else if job.cfg.negativeTTL > 0 then
        && k in after
        && after[k] == NewItem(NEGATIVE_MARKER, job.cfg.negativeTTL, backend, w.setAt(k), w.setDraw(k))
      else kept
  {
    hide NewItem, AfterWrite, StoreTtl;
    PlainStoreTtl(job, loaded, missing);
    var vals, negs := ValsOf(job, loaded, missing), NegsOf(job.cfg, loaded, missing);
    var stored := AfterWrite(backend, job.w, m, vals, job.ttl);
    OnePlainWrite(m, backend, job.w, vals, job.ttl, k);
    OnePlainWrite(stored, backend, job.w, negs, job.cfg.negativeTTL, k);
  }

  /** What the call writes for a key: its value, or the marker, or nothing. */
  function Written(out: Outcome, backend: CacheConfig, codec: Codec, ttl: Duration, loader: Loader, w: World, k: Key)
    : Option<(Bytes, Duration)>
  {
    if !Answered(out, loader, k) || w.setFails(k) then None
    else
      var loaded := loader(out.asked.value).value;
      if k in loaded then
        match codec.marshal(loaded[k])
        case Some(data) => Some((data, ttl))
        case None => None
      else if w.configured && backend.negativeTTL > 0 then Some((NEGATIVE_MARKER, backend.negativeTTL))
      else None
  }

  lemma PlainContents(m: Items, backend: CacheConfig, codec: Codec, keys: seq<Key>, ttl: Duration, loader: Loader,
                      w: World, k: Key)
    requires Plain(backend, w)
    ensures
      var out := ManySpec(m, backend, codec, keys, ttl, loader, w);
      match Written(out, backend, codec, ttl, loader, w, k)
      case Some((data, lasts)) =>
        k in out.contents && out.contents[k] == NewItem(data, lasts, backend, w.setAt(k), w.setDraw(k))
      case None => k in out.contents ==> k in m && out.contents[k] == m[k]
  {
    hide Judge, Lookup, NewItem, MissingOf, CachedOf, Healed, AfterReads, Raws, Unique, VerdictOn;
    hide FirstOccurrenceOrder, StoreTtl, ValsOf, NegsOf, AfterWrite, Decodes, Encodes, Loads;
    AskedIsMissing(m, backend, codec, keys, ttl, loader, w);
    KeptMembers(m, backend, codec, keys, w, k);
    var out := ManySpec(m, backend, codec, keys, ttl, loader, w);
    if Answered(out, loader, k) {
      var cfg, uniq := w.Helper(backend), Unique(keys);
      var kept := Healed(cfg, codec, w, Raws(m, w, uniq), AfterReads(m, w, uniq), uniq);
      PlainWrites(kept, backend, Job(cfg, codec, ttl, w), loader(out.asked.value).value, out.asked.value, k);
    } else if out.asked.Some? && loader(out.asked.value).Ok? {
      OtherKeysAreUntouched(m, backend, codec, keys, ttl, loader, w, k);
    }
  }

  /** Without metadata, and so for every cache that has no configuration: the loader is asked for the keys that are not
      read, or whose stored bytes, taken whole, do not decode; the others are answered by those bytes; a value is
      written as its bare encoding for the requested TTL; an absence is written only where there is a configuration
      with a negative TTL, and then for that TTL; and nothing else is ever written. */
  lemma PlainCall(m: Items, backend: CacheConfig, codec: Codec, keys: seq<Key>, ttl: Duration, loader: Loader,
                  w: World, k: Key)
    requires Plain(backend, w) && Draw(w.setDraw(k)) && Drawable(ttl, backend) && Drawable(backend.negativeTTL, backend)
    ensures
      var out := ManySpec(m, backend, codec, keys, ttl, loader, w);
      var decoded := if Reads(m, w, k) then codec.unmarshal(m[k].val) else None;
      var absent := Reads(m, w, k) && SpellsAbsence(m[k].val);
      && (out.asked.Some? && k in out.asked.value <==> k in keys && !absent && decoded == None)
      && (out.reply.Ok? && k in keys && absent ==> k !in out.reply.value)
      && (out.reply.Ok? && k in keys && !absent && decoded.Some? ==>
            k in out.reply.value && out.reply.value[k] == decoded.value)
      && match Written(out, backend, codec, ttl, loader, w, k)
         case Some((data, lasts)) =>
           k in out.contents && StoredFor(out.contents[k], data, lasts, backend, w.setAt(k))
         case None => k in out.contents ==> k in m && out.contents[k] == m[k]
  {
    hide ManySpec, NewItem, StoredFor, Judge, VerdictOn, FirstOccurrenceOrder, Drawable, MissingOf, Raws, Unique;
    hide PayloadOf;
    MarkerSpells();
    PlainContents(m, backend, codec, keys, ttl, loader, w, k);
    AskedIsMissing(m, backend, codec, keys, ttl, loader, w);
    VerdictMeans(m, backend, codec, w, k);
    var out := ManySpec(m, backend, codec, keys, ttl, loader, w);
    ResultIsCachedPlusLoaded(m, backend, codec, keys, ttl, loader, w, k);
    if k in m {
      PlainPayload(backend, w, m[k].val);
    }
    match Written(out, backend, codec, ttl, loader, w, k) {
      case Some((data, lasts)) => NewItemIsStored(data, lasts, backend, w.setAt(k), w.setDraw(k));
      case None =>
    }
  }

  lemma PlainPayload(backend: CacheConfig, w: World, data: Bytes)
    requires Plain(backend, w)
    ensures Encoded(backend, w, data) == data
  {
  }

  /** A cache without a configuration never gets a negative marker: one that is found under a key after the call was
      there before it. */
  lemma NoMarkersWithoutConfiguration(m: Items, backend: CacheConfig, codec: Codec, keys: seq<Key>, ttl: Duration,
                                      loader: Loader, w: World, k: Key)
    requires !w.configured && codec.Faithful()
    ensures
      var contents := ManySpec(m, backend, codec, keys, ttl, loader, w).contents;
      k in contents && SpellsAbsence(contents[k].val) ==> k in m && contents[k] == m[k]
  {
    hide ManySpec, ApplyJitter, Resolve;
    MarkerSpells();
    PlainContents(m, backend, codec, keys, ttl, loader, w, k);
    assert StartsWithNul(NEGATIVE_MARKER);
  }

  // ------------------------------------------------------------------
  // A cache that is down
  // ------------------------------------------------------------------

  lemma FailedWrites(m: Items, backend: CacheConfig, w: World, vals: map<Key, Bytes>, ttl: Duration)
    requires forall k: Key :: w.setFails(k)
    ensures AfterWrite(backend, w, m, vals, ttl) == m
  {
    hide NewItem;
    assert Arriving(w, vals) == map[];
  }

  lemma FailedReads(m: Items, backend: CacheConfig, codec: Codec, w: World, ks: seq<Key>)
    requires forall k: Key :: w.ReadFails(k)
    ensures Raws(m, w, ks) == map[] && AfterReads(m, w, ks) == m
    ensures MissingOf(w.Helper(backend), codec, map[], ks) == ks
    ensures CachedOf(w.Helper(backend), codec, map[], ks) == map[]
    ensures Healed(w.Helper(backend), codec, w, map[], m, ks) == m
  {
    hide Lookup;
    NothingReadMissesAll(w.Helper(backend), codec, ks);
  }

  lemma {:induction false} NothingReadMissesAll(cfg: CacheConfig, codec: Codec, ks: seq<Key>)
    ensures MissingOf(cfg, codec, map[], ks) == ks
  {
    if |ks| > 0 {
      NothingReadMissesAll(cfg, codec, ks[..|ks| - 1]);
      assert ks == ks[..|ks| - 1] + [ks[|ks| - 1]];
    }
  }

  /** When all reads and writes fail, the loader is asked for every key of the request, and the call answers what
      the loader says of them; the cache is left as it is. */
  lemma DegradedBatch(m: Items, backend: CacheConfig, codec: Codec, keys: seq<Key>, ttl: Duration, loader: Loader,
                      w: World, k: Key)
    requires (forall l: Key :: w.ReadFails(l) && w.setFails(l)) && keys != []
    ensures
      var out := ManySpec(m, backend, codec, keys, ttl, loader, w);
      && out.asked == Some(Unique(keys)) && out.contents == m
      && match loader(Unique(keys))
         case Err(e) => out.reply == Err(e)
         case Ok(loaded) =>
           && out.reply.Ok? && (k in out.reply.value <==> k in keys && k in loaded)
           && (k in out.reply.value ==> out.reply.value[k] == loaded[k])
  {
    hide Raws, AfterReads, MissingOf, CachedOf, Healed, AfterWrite, ValsOf, NegsOf, StoreTtl, Decodes, Encodes, Loads;
    hide Unique;
    UniqueKeepsOrder(keys);
    assert keys[0] in Unique(keys);
    var uniq, cfg := Unique(keys), w.Helper(backend);
    FailedReads(m, backend, codec, w, uniq);
    if loader(uniq).Ok? {
      var loaded, job := loader(uniq).value, Job(cfg, codec, ttl, w);
      FailedWrites(m, backend, w, ValsOf(job, loaded, uniq), StoreTtl(job, loaded, uniq));
      FailedWrites(m, backend, w, NegsOf(cfg, loaded, uniq), cfg.negativeTTL);
    }
  }
}
