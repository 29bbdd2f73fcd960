/** batch.go: the deadlines of the values that one call stores under the TTL of the key packed last. */
module BatchDeadlines {
  import opened Base
  import opened Codecs
  import opened Config
  import opened Stored
  import opened TimedMap
  import opened Batches

  /** The shared TTL was packed for some key of the call, if any key was. */
  lemma {:induction false} StoreTtlIsSomePack(job: Job, loaded: map<Key, Value>, missing: seq<Key>, k: Key)
    returns (last: Key)
    requires k in missing && k in loaded && job.Encodable(loaded[k])
    ensures last in missing && last in loaded && job.Encodable(loaded[last])
    ensures StoreTtl(job, loaded, missing) == job.Pack(last, loaded[last]).ttl
  {
    hide PackForStore;
    var n := |missing| - 1;
    if missing[n] in loaded && job.Encodable(loaded[missing[n]]) {
      last := missing[n];
    } else {
      assert missing == missing[..n] + [missing[n]];
      last := StoreTtlIsSomePack(job, loaded, missing[..n], k);
      assert last in missing[..n];
    }
  }

  /** Two draws for one TTL differ by less than twice the jitter fraction of it, and one nanosecond. */
  lemma DrawsAreClose(cfg: CacheConfig, ttl: Duration, u: real, v: real)
    requires BoundedTtl(cfg, ttl, Resolve(ttl, cfg.defaultTTL)) && Draw(u) && Draw(v)
    ensures FreshFor(ttl, cfg, u) as real >
            FreshFor(ttl, cfg, v) as real - 2.0 * Scaled(Resolve(ttl, cfg.defaultTTL), cfg.ttlJitter) - 1.0
    ensures cfg.ttlJitter == 0.0 ==> FreshFor(ttl, cfg, u) == FreshFor(ttl, cfg, v)
  {
    var r, j := Resolve(ttl, cfg.defaultTTL), cfg.ttlJitter;
    JitterBounds(r, j, u);
    JitterBounds(r, j, v);
    assert Scaled(r, 1.0 - j) == r as real - Scaled(r, j);
    assert Scaled(r, 1.0 + j) == r as real + Scaled(r, j);
  }

  ghost predicate WorldOk(w: World) {
    forall k: Key :: Draw(w.packDraw(k)) && Draw(w.setDraw(k)) && SaneClock(w.packAt(k)) && w.packAt(k) <= w.setAt(k)
  }

  /** The call wrote a loaded value under the key. */
  ghost predicate Wrote(m: Items, backend: CacheConfig, codec: Codec, keys: seq<Key>, ttl: Duration,
                        loader: Loader, w: World, k: Key) {
    var out := ManySpec(m, backend, codec, keys, ttl, loader, w);
    && out.asked.Some? && k in out.asked.value && loader(out.asked.value).Ok?
    && Packs(codec, loader(out.asked.value).value, k) && !w.setFails(k)
  }

  predicate Packs(codec: Codec, loaded: map<Key, Value>, k: Key) {
    k in loaded && codec.marshal(loaded[k]).Some?
  }

  /** The item of a written key: its own bytes under the TTL of the call. */
  function SharedItem(job: Job, loaded: map<Key, Value>, missing: seq<Key>, k: Key): Item
    requires k in loaded && job.Encodable(loaded[k])
  {
    NewItem(job.Pack(k, loaded[k]).data, StoreTtl(job, loaded, missing), job.cfg, job.w.setAt(k), job.w.setDraw(k))
  }

  /** Exactly what a written key holds: its value, its own freshness, and a backend deadline by the draw of the
      key packed last. */
  lemma WrittenItem(m: Items, backend: CacheConfig, codec: Codec, keys: seq<Key>, ttl: Duration, loader: Loader,
                    w: World, k: Key)
    returns (last: Key)
    requires codec.Faithful() && w.configured && backend.EnvelopeEnabled() && WorldOk(w)
    requires BoundedTtl(backend, ttl, Resolve(ttl, backend.defaultTTL))
    requires Wrote(m, backend, codec, keys, ttl, loader, w, k)
    ensures
      var out := ManySpec(m, backend, codec, keys, ttl, loader, w);
      var loaded := loader(out.asked.value).value;
      && last in out.asked.value && Packs(codec, loaded, last)
      && StoreTtl(Job(backend, codec, ttl, w), loaded, out.asked.value)
         == Job(backend, codec, ttl, w).Pack(last, loaded[last]).ttl
      && k in out.contents
      && out.contents[k] == SharedItem(Job(backend, codec, ttl, w), loaded, out.asked.value, k)
      && HoldsValue(backend, codec, ttl, w, out.contents[k], loaded[k], k, last)
  {
    hide Judge, Classify, Lookup, PackForStore, NewItem, FreshFor;
    var out := ManySpec(m, backend, codec, keys, ttl, loader, w);
    var missing, loaded := out.asked.value, loader(out.asked.value).value;
    var job := Job(backend, codec, ttl, w);
    var vals, total := ValsOf(job, loaded, missing), StoreTtl(job, loaded, missing);
    assert k in Arriving(w, vals) && k !in NegsOf(backend, loaded, missing);
    assert out.contents[k] == NewItem(vals[k], total, backend, w.setAt(k), w.setDraw(k));
    last := StoreTtlIsSomePack(job, loaded, missing, k);
    BatchItem(job, k, loaded[k], last, loaded[last]);
  }

  ghost predicate HoldsValue(cfg: CacheConfig, codec: Codec, ttl: Duration, w: World, item: Item, v: Value,
                             k: Key, last: Key) {
    var view := Classify(cfg, codec, item.val);
    && view.Readable? && view.v == v && view.env.HasDeadline()
    && view.env.freshUntil == FloorMs(w.packAt(k) + FreshFor(ttl, cfg, w.packDraw(k))) * MILLISECOND
    && item.deadline == Some(w.setAt(k) + FreshFor(ttl, cfg, w.packDraw(last)) + cfg.staleTTL)
  }

  lemma BatchItem(job: Job, k: Key, v: Value, last: Key, u: Value)
    requires job.codec.Faithful() && job.cfg.EnvelopeEnabled() && WorldOk(job.w)
    requires BoundedTtl(job.cfg, job.ttl, Resolve(job.ttl, job.cfg.defaultTTL))
    requires job.Encodable(v) && job.Encodable(u)
    ensures
      var item := NewItem(job.Pack(k, v).data, job.Pack(last, u).ttl, job.cfg, job.w.setAt(k), job.w.setDraw(k));
      HoldsValue(job.cfg, job.codec, job.ttl, job.w, item, v, k, last)
  {
    hide Classify, PackForStore, Scaled, ApplyJitter, Longest, Stretch;
    var cfg, ttl, w := job.cfg, job.ttl, job.w;
    var data, total := job.Pack(k, v).data, job.Pack(last, u).ttl;
    PackedReadsBack(cfg, job.codec, v, ttl, w.loadDur, w.packAt(k), w.packDraw(k));
    PackedTtl(job.codec.marshal(u).value, ttl, w.loadDur, cfg, w.packAt(last), w.packDraw(last));
    BoundedDraw(cfg, ttl, Resolve(ttl, cfg.defaultTTL), w.packDraw(k));
    BoundedDraw(cfg, ttl, Resolve(ttl, cfg.defaultTTL), w.packDraw(last));
    JitterBounds(Resolve(ttl, cfg.defaultTTL), cfg.ttlJitter, w.packDraw(last));
    EnvelopedItem(data, total, cfg, w.setAt(k), w.setDraw(k));
  }

  /** Every value that a call writes stays for its own freshness and the stale window, up to twice the jitter
      fraction of the TTL and one nanosecond; without jitter it stays at least that long. The slack
      is there because every key is stored under the total of the key packed last. */
  lemma DeadlinesAreClose(m: Items, backend: CacheConfig, codec: Codec, keys: seq<Key>, ttl: Duration,
                          loader: Loader, w: World, k: Key)
    requires codec.Faithful() && w.configured && backend.EnvelopeEnabled() && WorldOk(w)
    requires BoundedTtl(backend, ttl, Resolve(ttl, backend.defaultTTL))
    requires Wrote(m, backend, codec, keys, ttl, loader, w, k)
    ensures
      var out := ManySpec(m, backend, codec, keys, ttl, loader, w);
      && k in out.contents && out.contents[k].deadline.Some?
      && var view := Classify(backend, codec, out.contents[k].val);
      && view.Readable? && view.v == loader(out.asked.value).value[k] && view.env.HasDeadline()
      && out.contents[k].deadline.value as real >
         (view.env.freshUntil + backend.staleTTL) as real
         - 2.0 * Scaled(Resolve(ttl, backend.defaultTTL), backend.ttlJitter) - 1.0
      && (backend.ttlJitter == 0.0 ==> out.contents[k].deadline.value >= view.env.freshUntil + backend.staleTTL)
  {
    hide ManySpec, Classify, FreshFor, Scaled;
    var last := WrittenItem(m, backend, codec, keys, ttl, loader, w, k);
    DrawsAreClose(backend, ttl, w.packDraw(last), w.packDraw(k));
  }

  // ------------------------------------------------------------------
  // When the stale window is kept
  // ------------------------------------------------------------------

  /** The value under the key stays in the store for its freshness and the whole stale window. */
  ghost predicate KeepsWindow(cfg: CacheConfig, codec: Codec, contents: Items, k: Key) {
    && k in contents && contents[k].deadline.Some?
    && var view := Classify(cfg, codec, contents[k].val);
    view.Readable? && contents[k].deadline.value >= view.env.freshUntil + cfg.staleTTL
  }

  /** Every call under this configuration and TTL keeps the window of every value that it writes. */
  ghost predicate AlwaysKeepsWindow(cfg: CacheConfig, ttl: Duration) {
    forall m: Items, codec: Codec, keys: seq<Key>, loader: Loader, w: World, k: Key ::
      codec.Faithful() && w.configured && WorldOk(w) && Wrote(m, cfg, codec, keys, ttl, loader, w, k)
      ==> KeepsWindow(cfg, codec, ManySpec(m, cfg, codec, keys, ttl, loader, w).contents, k)
  }

  /** A call for which one key at most packs a value keeps its window, whatever is drawn. */
  lemma OnePackedKeyKeepsWindow(m: Items, backend: CacheConfig, codec: Codec, keys: seq<Key>, ttl: Duration,
                                loader: Loader, w: World, k: Key)
    requires codec.Faithful() && w.configured && backend.EnvelopeEnabled() && WorldOk(w)
    requires BoundedTtl(backend, ttl, Resolve(ttl, backend.defaultTTL))
    requires Wrote(m, backend, codec, keys, ttl, loader, w, k)
    requires
      var asked := ManySpec(m, backend, codec, keys, ttl, loader, w).asked.value;
      forall l :: l in asked && Packs(codec, loader(asked).value, l) ==> l == k
    ensures KeepsWindow(backend, codec, ManySpec(m, backend, codec, keys, ttl, loader, w).contents, k)
  {
    hide ManySpec, Classify, FreshFor;
    var last := WrittenItem(m, backend, codec, keys, ttl, loader, w, k);
  }

  lemma LikeDrawsKeepKey(m: Items, cfg: CacheConfig, codec: Codec, keys: seq<Key>, ttl: Duration,
                         loader: Loader, w: World, k: Key)
    requires cfg.EnvelopeEnabled() && BoundedTtl(cfg, ttl, Resolve(ttl, cfg.defaultTTL))
    requires Shortest(Resolve(ttl, cfg.defaultTTL), cfg.ttlJitter)
             == Longest(Resolve(ttl, cfg.defaultTTL), cfg.ttlJitter)
    requires codec.Faithful() && w.configured && WorldOk(w) && Wrote(m, cfg, codec, keys, ttl, loader, w, k)
    ensures KeepsWindow(cfg, codec, ManySpec(m, cfg, codec, keys, ttl, loader, w).contents, k)
  {
    hide ManySpec, Classify, Shortest, Longest, ApplyJitter;
    var last := WrittenItem(m, cfg, codec, keys, ttl, loader, w, k);
    JitterBounds(Resolve(ttl, cfg.defaultTTL), cfg.ttlJitter, w.packDraw(k));
    JitterBounds(Resolve(ttl, cfg.defaultTTL), cfg.ttlJitter, w.packDraw(last));
  }

  lemma LikeDrawsKeepWindow(cfg: CacheConfig, ttl: Duration)
    requires cfg.EnvelopeEnabled() && BoundedTtl(cfg, ttl, Resolve(ttl, cfg.defaultTTL))
    requires Shortest(Resolve(ttl, cfg.defaultTTL), cfg.ttlJitter)
             == Longest(Resolve(ttl, cfg.defaultTTL), cfg.ttlJitter)
    ensures AlwaysKeepsWindow(cfg, ttl)
  {
    hide ManySpec, Wrote, KeepsWindow, WorldOk, BoundedTtl, Shortest, Longest;
    forall m: Items, codec: Codec, keys: seq<Key>, loader: Loader, w: World, k: Key |
      codec.Faithful() && w.configured && WorldOk(w) && Wrote(m, cfg, codec, keys, ttl, loader, w, k)
      ensures KeepsWindow(cfg, codec, ManySpec(m, cfg, codec, keys, ttl, loader, w).contents, k)
    {
      LikeDrawsKeepKey(m, cfg, codec, keys, ttl, loader, w, k);
    }
  }

  // ------------------------------------------------------------------
  // A call for two keys
  // ------------------------------------------------------------------

  /** No failure, everything at one instant, and a draw for each of two keys. */
  function TwoDraws(t: Time, ua: real, ub: real): World {
    World(true, true, false, _ => false, _ => false, _ => false, _ => t, 0,
          _ => t, k => if k == "a" then ua else ub, _ => t, _ => 0.0)
  }

  function BothGive(v: Value): Loader {
    _ => Ok(map["a" := v, "b" := v])
  }

  /** Two missing keys are loaded and stored together, the second packed last. */
  lemma TwoKeyCall(cfg: CacheConfig, ttl: Duration, v: Value, t: Time, ua: real, ub: real)
    requires cfg.EnvelopeEnabled() && BoundedTtl(cfg, ttl, Resolve(ttl, cfg.defaultTTL))
    requires SaneClock(t) && Draw(ua) && Draw(ub)
    ensures
      var w := TwoDraws(t, ua, ub);
      && OneValue(v).Faithful() && WorldOk(w)
      && Wrote(map[], cfg, OneValue(v), ["a", "b"], ttl, BothGive(v), w, "a")
      && var contents := ManySpec(map[], cfg, OneValue(v), ["a", "b"], ttl, BothGive(v), w).contents;
      "a" in contents && HoldsValue(cfg, OneValue(v), ttl, w, contents["a"], v, "a", "b")
  {
    hide Classify, PackForStore, NewItem, FreshFor, HoldsValue, BoundedTtl, ManySpec;
    var w := TwoDraws(t, ua, ub);
    OneValueIsFaithful(v);
    TwoKeysAsked(cfg, ttl, v, w);
    var last := WrittenItem(map[], cfg, OneValue(v), ["a", "b"], ttl, BothGive(v), w, "a");
    SecondPacksLast(Job(cfg, OneValue(v), ttl, w), v);
    BatchItem(Job(cfg, OneValue(v), ttl, w), "a", v, "b", v);
  }

  lemma TwoKeysAsked(cfg: CacheConfig, ttl: Duration, v: Value, w: World)
    requires w.configured
    ensures ManySpec(map[], cfg, OneValue(v), ["a", "b"], ttl, BothGive(v), w).asked == Some(["a", "b"])
  {
    hide Classify, PackForStore, NewItem, AfterWrite, Healed, AfterReads, CachedOf, LoadedOf;
    assert ["a", "b"][..1] == ["a"] && ["a"][..0] == [];
    assert Unique(["a"]) == ["a"];
    assert Unique(["a", "b"]) == ["a", "b"];
    var raw := Raws(map[], w, ["a", "b"]);
    assert raw == map[];
    var codec := OneValue(v);
    assert MissingOf(cfg, codec, raw, []) == [];
    assert MissingOf(cfg, codec, raw, ["a"]) == ["a"];
    assert MissingOf(cfg, codec, raw, ["a", "b"]) == ["a", "b"];
  }

  lemma SecondPacksLast(job: Job, v: Value)
    requires job.codec == OneValue(v)
    ensures StoreTtl(job, map["a" := v, "b" := v], ["a", "b"]) == job.Pack("b", v).ttl
  {
    hide PackForStore;
  }

  /** With half the TTL as jitter, a draw in the middle for one key and the smallest draw for the key packed last,
      the first value is gone from the store before it even stops being fresh. */
  lemma ValueLostWhileFresh(v: Value)
    ensures
      var cfg := CacheConfig(0, 0, 1_000, 0.0, 0.5);
      var ttl := 4 * MILLISECOND;
      var w := TwoDraws(MILLISECOND, 0.5, 0.0);
      && Wrote(map[], cfg, OneValue(v), ["a", "b"], ttl, BothGive(v), w, "a")
      && var contents := ManySpec(map[], cfg, OneValue(v), ["a", "b"], ttl, BothGive(v), w).contents;
      && "a" in contents && contents["a"].deadline.Some?
      && var view := Classify(cfg, OneValue(v), contents["a"].val);
      view.Readable? && contents["a"].deadline.value < view.env.freshUntil
  {
    hide ManySpec, Classify, Wrote;
    var cfg := CacheConfig(0, 0, 1_000, 0.0, 0.5);
    assert Scaled(4 * MILLISECOND, JitterFactor(0.5, 0.5)) == 4_000_000.0;
    assert Scaled(4 * MILLISECOND, JitterFactor(0.5, 0.0)) == 2_000_000.0;
    assert FreshFor(4 * MILLISECOND, cfg, 0.5) == 4 * MILLISECOND;
    assert FreshFor(4 * MILLISECOND, cfg, 0.0) == 2 * MILLISECOND;
    assert Scaled(4 * MILLISECOND, 0.5) == 2_000_000.0 && Scaled(4 * MILLISECOND, 1.5) == 6_000_000.0;
    TwoKeyCall(cfg, 4 * MILLISECOND, v, MILLISECOND, 0.5, 0.0);
  }

  lemma UnlikeDrawsCutWindow(cfg: CacheConfig, ttl: Duration, v: Value)
    requires cfg.EnvelopeEnabled() && BoundedTtl(cfg, ttl, Resolve(ttl, cfg.defaultTTL))
    requires Shortest(Resolve(ttl, cfg.defaultTTL), cfg.ttlJitter)
             != Longest(Resolve(ttl, cfg.defaultTTL), cfg.ttlJitter)
    ensures !AlwaysKeepsWindow(cfg, ttl)
  {
    hide ManySpec, Classify, Wrote, Shortest, Longest, ApplyJitter;
    var r := Resolve(ttl, cfg.defaultTTL);
    var u := ExtremesAreDrawn(r, cfg.ttlJitter);
    JitterBounds(r, cfg.ttlJitter, u);
    BoundedDraw(cfg, ttl, r, u);
    var t := MILLISECOND + (-Longest(r, cfg.ttlJitter)) % MILLISECOND;
    assert (t + Longest(r, cfg.ttlJitter)) % MILLISECOND == 0;
    TwoKeyCall(cfg, ttl, v, t, u, 0.0);
    var m: Items := map[];
    var out := ManySpec(m, cfg, OneValue(v), ["a", "b"], ttl, BothGive(v), TwoDraws(t, u, 0.0));
    assert !KeepsWindow(cfg, OneValue(v), out.contents, "a");
  }

  /** The calls under a configuration and TTL keep the stale window of all that they write exactly when all
      draws give the same TTL: without jitter, or for a TTL so short that jitter does not move it by a nanosecond. */
  lemma WindowIsKeptExactly(cfg: CacheConfig, ttl: Duration, v: Value)
    requires cfg.EnvelopeEnabled() && BoundedTtl(cfg, ttl, Resolve(ttl, cfg.defaultTTL))
    ensures
      var r := Resolve(ttl, cfg.defaultTTL);
      AlwaysKeepsWindow(cfg, ttl) <==> Shortest(r, cfg.ttlJitter) == Longest(r, cfg.ttlJitter)
  {
    var r := Resolve(ttl, cfg.defaultTTL);
    if Shortest(r, cfg.ttlJitter) == Longest(r, cfg.ttlJitter) {
      LikeDrawsKeepWindow(cfg, ttl);
    } else {
      UnlikeDrawsCutWindow(cfg, ttl, v);
    }
  }
}
