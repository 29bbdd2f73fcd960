/** What a GetOrSetMany call promises, read off its specification. */
module BatchLaws {
  import opened Base
  import opened Codecs
  import opened Config
  import opened Envelope
  import opened Stored
  import opened TimedMap
  import opened Batches

  // ------------------------------------------------------------------
  // Order and partition of the keys
  // ------------------------------------------------------------------

  /** Where a key first occurs. */
  function FirstIndex(keys: seq<Key>, k: Key): (i: nat)
    requires k in keys
    ensures i < |keys| && keys[i] == k && k !in keys[..i]
  {
    if keys[0] == k then 0 else 1 + FirstIndex(keys[1..], k)
  }

  /** ks lists keys of the request, each once, in the order in which they first occur there. */
  ghost predicate FirstOccurrenceOrder(keys: seq<Key>, ks: seq<Key>) {
    && (forall i :: 0 <= i < |ks| ==> ks[i] in keys)
    && (forall i, j :: 0 <= i < j < |ks| ==> FirstIndex(keys, ks[i]) < FirstIndex(keys, ks[j]))
  }

  lemma FirstIndexIsUnique(keys: seq<Key>, k: Key, i: nat)
    requires i < |keys| && keys[i] == k && k !in keys[..i]
    ensures FirstIndex(keys, k) == i
  {
    var j := FirstIndex(keys, k);
    assert forall l :: 0 <= l < i ==> keys[l] == keys[..i][l];
    assert forall l :: 0 <= l < j ==> keys[l] == keys[..j][l];
  }

  lemma FirstIndexInPrefix(keys: seq<Key>, n: nat, k: Key)
    requires n <= |keys| && k in keys[..n]
    ensures FirstIndex(keys, k) == FirstIndex(keys[..n], k) < n
  {
    var i := FirstIndex(keys[..n], k);
    assert keys[..n][..i] == keys[..i];
    FirstIndexIsUnique(keys, k, i);
  }

  lemma {:induction false} UniqueKeepsOrder(keys: seq<Key>)
    ensures FirstOccurrenceOrder(keys, Unique(keys))
    ensures forall k :: k in Unique(keys) <==> k in keys
  {
    if |keys| > 0 {
      var n := |keys| - 1;
      var earlier, uniq := Unique(keys[..n]), Unique(keys);
      UniqueKeepsOrder(keys[..n]);
      assert keys == keys[..n] + [keys[n]];
      forall i | 0 <= i < |earlier| ensures FirstIndex(keys, earlier[i]) == FirstIndex(keys[..n], earlier[i]) < n {
        FirstIndexInPrefix(keys, n, earlier[i]);
      }
      if keys[n] !in keys[..n] {
        FirstIndexIsUnique(keys, keys[n], n);
      }
      forall i, j | 0 <= i < j < |uniq| ensures FirstIndex(keys, uniq[i]) < FirstIndex(keys, uniq[j]) {
        assert FirstIndex(keys, earlier[i]) < n;
        if j < |earlier| {
          assert FirstIndex(keys[..n], earlier[i]) < FirstIndex(keys[..n], earlier[j]);
        }
      }
    }
  }

  lemma {:induction false} MissingMembers(cfg: CacheConfig, codec: Codec, raw: map<Key, Bytes>, ks: seq<Key>, k: Key)
    ensures k in MissingOf(cfg, codec, raw, ks) <==> k in ks && NeedsLoad(Judge(cfg, codec, RawOf(raw, k)))
  {
    hide Judge;
    if |ks| > 0 {
      MissingMembers(cfg, codec, raw, ks[..|ks| - 1], k);
      assert ks == ks[..|ks| - 1] + [ks[|ks| - 1]];
    }
  }

  lemma EarlierOccursFirst(keys: seq<Key>, ks: seq<Key>, k: Key)
    requires |ks| > 0 && FirstOccurrenceOrder(keys, ks) && k in ks[..|ks| - 1]
    ensures k in keys && FirstIndex(keys, k) < FirstIndex(keys, ks[|ks| - 1])
  {
    var l :| 0 <= l < |ks| - 1 && ks[l] == k;
  }

  lemma {:induction false} MissingKeepsOrder(keys: seq<Key>, cfg: CacheConfig, codec: Codec,
                                             raw: map<Key, Bytes>, ks: seq<Key>)
    requires FirstOccurrenceOrder(keys, ks)
    ensures FirstOccurrenceOrder(keys, MissingOf(cfg, codec, raw, ks))
  {
    hide Judge, FirstIndex;
    if |ks| > 0 {
      var n := |ks| - 1;
      var missing, earlier := MissingOf(cfg, codec, raw, ks), MissingOf(cfg, codec, raw, ks[..n]);
      MissingKeepsOrder(keys, cfg, codec, raw, ks[..n]);
      assert missing == earlier || missing == earlier + [ks[n]];
      forall i | 0 <= i < |earlier| ensures FirstIndex(keys, earlier[i]) < FirstIndex(keys, ks[n]) {
        MissingMembers(cfg, codec, raw, ks[..n], earlier[i]);
        EarlierOccursFirst(keys, ks, earlier[i]);
      }
    }
  }

  /** The verdict on a key, from the store and the world alone. */
  function VerdictOn(m: Items, backend: CacheConfig, codec: Codec, w: World, k: Key): Verdict {
    Judge(w.Helper(backend), codec, RawRead(m, w, k))
  }

  lemma CachedMembers(m: Items, backend: CacheConfig, codec: Codec, keys: seq<Key>, w: World, k: Key)
    ensures
      var cached := CachedOf(w.Helper(backend), codec, Raws(m, w, Unique(keys)), Unique(keys));
      var verdict := VerdictOn(m, backend, codec, w, k);
      && (k in cached <==> k in keys && verdict.Cached?)
      && (k in cached ==> cached[k] == verdict.v)
  {
    hide Judge, Lookup;
    UniqueKeepsOrder(keys);
    if k in keys {
      assert RawOf(Raws(m, w, Unique(keys)), k) == RawRead(m, w, k);
    }
  }

  /** What is left of a key once it was read and, if need be, healed. */
  lemma KeptMembers(m: Items, backend: CacheConfig, codec: Codec, keys: seq<Key>, w: World, k: Key)
    ensures
      var uniq := Unique(keys);
      var kept := Healed(w.Helper(backend), codec, w, Raws(m, w, uniq), AfterReads(m, w, uniq), uniq);
      var loads := NeedsLoad(VerdictOn(m, backend, codec, w, k));
      && (k in kept ==> k in m && kept[k] == m[k])
      && (k in m && (k in keys ==> !loads) ==> k in kept)
      && (k in keys && loads && !w.ReadFails(k) && !w.deleteFails(k) ==> k !in kept)
  {
    hide Classify;
    UniqueKeepsOrder(keys);
    if k in keys {
      assert RawOf(Raws(m, w, Unique(keys)), k) == RawRead(m, w, k);
    }
  }

  lemma AskedIsMissing(m: Items, backend: CacheConfig, codec: Codec, keys: seq<Key>, ttl: Duration,
                       loader: Loader, w: World)
    ensures
      var out := ManySpec(m, backend, codec, keys, ttl, loader, w);
      var missing := MissingOf(w.Helper(backend), codec, Raws(m, w, Unique(keys)), Unique(keys));
      && out.asked == (if missing == [] then None else Some(missing))
      && FirstOccurrenceOrder(keys, missing)
      && (forall k :: k in missing <==> k in keys && NeedsLoad(VerdictOn(m, backend, codec, w, k)))
  {
    hide Judge, AfterWrite, Healed, AfterReads, CachedOf, LoadedOf;
    var cfg, uniq := w.Helper(backend), Unique(keys);
    UniqueKeepsOrder(keys);
    MissingKeepsOrder(keys, cfg, codec, Raws(m, w, uniq), uniq);
    forall k
      ensures k in MissingOf(cfg, codec, Raws(m, w, uniq), uniq)
              <==> k in keys && NeedsLoad(VerdictOn(m, backend, codec, w, k))
    {
      MissingMembers(cfg, codec, Raws(m, w, uniq), uniq, k);
      if k in keys {
        assert RawOf(Raws(m, w, uniq), k) == RawRead(m, w, k);
      }
    }
  }

  /** The loader is called exactly when some requested key was not read, or did not decode, and then once,
      with exactly those keys, each once, in the order of their first occurrence in the request. */
  lemma LoaderGetsTheMissing(m: Items, backend: CacheConfig, codec: Codec, keys: seq<Key>, ttl: Duration,
                             loader: Loader, w: World)
    ensures
      var out := ManySpec(m, backend, codec, keys, ttl, loader, w);
      && (out.asked.Some? <==> exists k :: k in keys && NeedsLoad(VerdictOn(m, backend, codec, w, k)))
      && (out.asked.Some? ==>
            && FirstOccurrenceOrder(keys, out.asked.value)
            && forall k :: k in out.asked.value <==> k in keys && NeedsLoad(VerdictOn(m, backend, codec, w, k)))
  {
    hide ManySpec, VerdictOn, FirstOccurrenceOrder;
    AskedIsMissing(m, backend, codec, keys, ttl, loader, w);
    var missing := MissingOf(w.Helper(backend), codec, Raws(m, w, Unique(keys)), Unique(keys));
    if missing != [] {
      assert missing[0] in missing;
    }
  }

  /** A call fails only with the loader's own error or panic, and then it has written nothing: all that is left
      in the store was there before. On success the result holds exactly the cached keys, each with its cached
      value, and the missing keys that the loader returned, each with the loaded value. Known-absent keys, keys
      that the loader omitted and keys that it was not asked for do not appear. */
  lemma ResultIsCachedPlusLoaded(m: Items, backend: CacheConfig, codec: Codec, keys: seq<Key>, ttl: Duration,
                                 loader: Loader, w: World, k: Key)
    ensures
      var out := ManySpec(m, backend, codec, keys, ttl, loader, w);
      var verdict := VerdictOn(m, backend, codec, w, k);
      match out.reply
      case Err(error) =>
        && out.asked.Some? && loader(out.asked.value) == Err(error)
        && (k in out.contents ==> k in m && out.contents[k] == m[k])
      case Ok(result) =>
        && (out.asked.Some? ==> loader(out.asked.value).Ok?)
        && (k in result <==>
              k in keys
              && (verdict.Cached? || (NeedsLoad(verdict) && out.asked.Some? && k in loader(out.asked.value).value)))
        && (k in result && verdict.Cached? ==> result[k] == verdict.v)
        && (k in result && !verdict.Cached? ==> out.asked.Some? && result[k] == loader(out.asked.value).value[k])
  {
    hide Judge, AfterWrite, Healed, AfterReads, CachedOf, MissingOf, Raws, Unique, VerdictOn, FirstOccurrenceOrder;
    AskedIsMissing(m, backend, codec, keys, ttl, loader, w);
    CachedMembers(m, backend, codec, keys, w, k);
    KeptMembers(m, backend, codec, keys, w, k);
  }

  /** A call leaves alone every key that it did not ask the loader for: keys outside the request, and keys
      served from the store, be it as a value or as an absence. */
  lemma OtherKeysAreUntouched(m: Items, backend: CacheConfig, codec: Codec, keys: seq<Key>, ttl: Duration,
                              loader: Loader, w: World, k: Key)
    requires k in keys ==> !NeedsLoad(VerdictOn(m, backend, codec, w, k))
    ensures
      var contents := ManySpec(m, backend, codec, keys, ttl, loader, w).contents;
      && (k in contents <==> k in m)
      && (k in m ==> contents[k] == m[k])
  {
    hide PackForStore, NewItem, MissingOf, CachedOf, Healed, AfterReads, Raws, Unique, VerdictOn, FirstOccurrenceOrder;
    AskedIsMissing(m, backend, codec, keys, ttl, loader, w);
    KeptMembers(m, backend, codec, keys, w, k);
  }

  /** A missing key that the loader omits is cached as absent when negative caching is on and its write succeeds.
      When it is off, nothing is left under the key if its read and a needed delete succeed. */
  lemma OmittedKeysAreCachedAbsent(m: Items, backend: CacheConfig, codec: Codec, keys: seq<Key>, ttl: Duration,
                                   loader: Loader, w: World, k: Key)
    requires
      var out := ManySpec(m, backend, codec, keys, ttl, loader, w);
      && out.asked.Some? && loader(out.asked.value).Ok?
      && k in out.asked.value && k !in loader(out.asked.value).value
    ensures
      var contents := ManySpec(m, backend, codec, keys, ttl, loader, w).contents;
      if w.Helper(backend).negativeTTL > 0 then
        !w.setFails(k) ==> k in contents && IsNegative(contents[k].val)
      else
        !w.ReadFails(k) && !w.deleteFails(k) ==> k !in contents
  {
    hide PackForStore, MissingOf, CachedOf, Healed, AfterReads, Raws, Unique, VerdictOn, FirstOccurrenceOrder;
    AskedIsMissing(m, backend, codec, keys, ttl, loader, w);
    KeptMembers(m, backend, codec, keys, w, k);
  }

  // ------------------------------------------------------------------
  // The two backend paths
  // ------------------------------------------------------------------

  ghost predicate SameWorld(v: World, w: World) {
    && v.configured == w.configured && v.loadDur == w.loadDur
    && v.setFails == w.setFails && v.deleteFails == w.deleteFails
    && v.readAt == w.readAt && v.packAt == w.packAt && v.packDraw == w.packDraw
    && v.setAt == w.setAt && v.setDraw == w.setDraw
    && forall k: Key :: v.ReadFails(k) == w.ReadFails(k)
  }

  /** The batched and the per-key path of a call agree on the result, on what the loader is asked and on the
      final store, whenever the same reads fail, and in particular when none does. */
  lemma PathsAgree(m: Items, backend: CacheConfig, codec: Codec, keys: seq<Key>, ttl: Duration, loader: Loader,
                   v: World, w: World)
    requires SameWorld(v, w)
    ensures ManySpec(m, backend, codec, keys, ttl, loader, v) == ManySpec(m, backend, codec, keys, ttl, loader, w)
  {
    hide Lookup, Judge, PackForStore, NewItem;
    var uniq := Unique(keys);
    assert Raws(m, v, uniq) == Raws(m, w, uniq);
    assert AfterReads(m, v, uniq) == AfterReads(m, w, uniq);
    var cfg := v.Helper(backend);
    assert Healed(cfg, codec, v, Raws(m, v, uniq), AfterReads(m, v, uniq), uniq)
        == Healed(cfg, codec, w, Raws(m, w, uniq), AfterReads(m, w, uniq), uniq);
    var missing := MissingOf(cfg, codec, Raws(m, v, uniq), uniq);
    if missing != [] && loader(missing).Ok? {
      var loaded := loader(missing).value;
      var jv, jw := Job(cfg, codec, ttl, v), Job(cfg, codec, ttl, w);
      SamePacking(jv, jw, loaded, missing);
      assert ValsOf(jv, loaded, missing) == ValsOf(jw, loaded, missing);
    }
  }

  lemma {:induction false} SamePacking(jv: Job, jw: Job, loaded: map<Key, Value>, missing: seq<Key>)
    requires jv.cfg == jw.cfg && jv.ttl == jw.ttl && SameWorld(jv.w, jw.w)
    requires forall v: Value :: jv.codec.marshal(v) == jw.codec.marshal(v)
    ensures StoreTtl(jv, loaded, missing) == StoreTtl(jw, loaded, missing)
    ensures Encodes(jv, loaded, missing) == Encodes(jw, loaded, missing)
  {
    hide PackForStore;
    if |missing| > 0 {
      SamePacking(jv, jw, loaded, missing[..|missing| - 1]);
    }
  }

  // ------------------------------------------------------------------
  // Hooks
  // ------------------------------------------------------------------

  /** The keys that OnLoad was called with, in order. */
  function LoadKeys(events: seq<Event>): seq<Key> {
    if |events| == 0 then []
    else
      var n := |events| - 1;
      LoadKeys(events[..n]) + if events[n].OnLoad? then [events[n].k] else []
  }

  lemma {:induction false} LoadKeysConcat(a: seq<Event>, b: seq<Event>)
    ensures LoadKeys(a + b) == LoadKeys(a) + LoadKeys(b)
  {
    if |b| == 0 {
      assert a + b == a;
    } else {
      var n := |b| - 1;
      LoadKeysConcat(a, b[..n]);
      assert (a + b)[..|a + b| - 1] == a + b[..n];
    }
  }

  lemma {:induction false} DecodesHas(cfg: CacheConfig, codec: Codec, raw: map<Key, Bytes>, ks: seq<Key>, e: Event)
    ensures e in Decodes(cfg, codec, raw, ks)
            <==> e.OpDecode? && e.k in ks && Judge(cfg, codec, RawOf(raw, e.k)).Corrupt?
  {
    hide Judge, RawOf;
    if |ks| > 0 {
      var n := |ks| - 1;
      DecodesHas(cfg, codec, raw, ks[..n], e);
      assert ks == ks[..n] + [ks[n]];
    }
  }

  lemma {:induction false} DecodesLoadNothing(cfg: CacheConfig, codec: Codec, raw: map<Key, Bytes>, ks: seq<Key>)
    ensures LoadKeys(Decodes(cfg, codec, raw, ks)) == []
  {
    hide Judge, RawOf;
    if |ks| > 0 {
      var n := |ks| - 1;
      DecodesLoadNothing(cfg, codec, raw, ks[..n]);
      LoadKeysConcat(Decodes(cfg, codec, raw, ks[..n]), [OpDecode(ks[n])]);
      assert LoadKeys([OpDecode(ks[n])]) == [];
    }
  }

  lemma {:induction false} LoadsHas(missing: seq<Key>, failed: bool, e: Event)
    ensures e in Loads(missing, failed) <==> e.OnLoad? && e.k in missing && e.failed == failed
  {
    if |missing| > 0 {
      var n := |missing| - 1;
      LoadsHas(missing[..n], failed, e);
      assert missing == missing[..n] + [missing[n]];
    }
  }

  lemma {:induction false} LoadsKeepOrder(missing: seq<Key>, failed: bool)
    ensures LoadKeys(Loads(missing, failed)) == missing
  {
    if |missing| > 0 {
      var n := |missing| - 1;
      LoadsKeepOrder(missing[..n], failed);
      assert missing == missing[..n] + [missing[n]];
      LoadKeysConcat(Loads(missing[..n], failed), [OnLoad(missing[n], failed)]);
      assert LoadKeys([OnLoad(missing[n], failed)]) == [missing[n]];
    }
  }

  lemma {:induction false} EncodesHas(job: Job, loaded: map<Key, Value>, missing: seq<Key>, e: Event)
    ensures e in Encodes(job, loaded, missing)
            <==> e.OpEncode? && e.k in missing && e.k in loaded && !job.Encodable(loaded[e.k])
  {
    if |missing| > 0 {
      var n := |missing| - 1;
      EncodesHas(job, loaded, missing[..n], e);
      assert missing == missing[..n] + [missing[n]];
    }
  }

  lemma {:induction false} EncodesLoadNothing(job: Job, loaded: map<Key, Value>, missing: seq<Key>)
    ensures LoadKeys(Encodes(job, loaded, missing)) == []
  {
    if |missing| > 0 {
      var n := |missing| - 1;
      EncodesLoadNothing(job, loaded, missing[..n]);
      LoadKeysConcat(Encodes(job, loaded, missing[..n]), [OpEncode(missing[n])]);
      assert LoadKeys([OpEncode(missing[n])]) == [];
    }
  }

  lemma LoadHooksInOrder(m: Items, backend: CacheConfig, codec: Codec, keys: seq<Key>, ttl: Duration,
                         loader: Loader, w: World)
    ensures
      var out := ManySpec(m, backend, codec, keys, ttl, loader, w);
      LoadKeys(out.events) == if out.asked.None? || out.reply == Err(LoaderPanic) then [] else out.asked.value
  {
    hide Judge, AfterWrite, Healed, AfterReads, CachedOf, MissingOf, Raws, Unique, Decodes, Encodes, Loads, LoadKeys;
    var out := ManySpec(m, backend, codec, keys, ttl, loader, w);
    var cfg, uniq := w.Helper(backend), Unique(keys);
    var decodes := Decodes(cfg, codec, Raws(m, w, uniq), uniq);
    DecodesLoadNothing(cfg, codec, Raws(m, w, uniq), uniq);
    NoLoadKeys();
    if out.asked.Some? {
      var missing := out.asked.value;
      LoadsKeepOrder(missing, out.reply.Err?);
      LoadKeysConcat(decodes, Loads(missing, out.reply.Err?));
      assert decodes + [] == decodes;
      if out.reply.Ok? {
        var job := Job(cfg, codec, ttl, w);
        EncodesLoadNothing(job, loader(missing).value, missing);
        LoadKeysConcat(decodes + Loads(missing, false), Encodes(job, loader(missing).value, missing));
      }
    }
  }

  /** Whether the call fired the hook. */
  ghost predicate Fires(m: Items, backend: CacheConfig, codec: Codec, keys: seq<Key>, ttl: Duration,
                        loader: Loader, w: World, e: Event) {
    var out := ManySpec(m, backend, codec, keys, ttl, loader, w);
    match e
    case OnLoad(k, failed) =>
      out.asked.Some? && out.reply != Err(LoaderPanic) && k in out.asked.value && failed == out.reply.Err?
    case OpDecode(k) => k in keys && VerdictOn(m, backend, codec, w, k).Corrupt?
    case OpEncode(k) =>
      && out.asked.Some? && out.reply.Ok? && k in out.asked.value
      && var loaded := loader(out.asked.value);
      loaded.Ok? && k in loaded.value && codec.marshal(loaded.value[k]).None?
  }

  lemma FiredHooks(m: Items, backend: CacheConfig, codec: Codec, keys: seq<Key>, ttl: Duration, loader: Loader,
                   w: World, e: Event)
    ensures e in ManySpec(m, backend, codec, keys, ttl, loader, w).events
            <==> Fires(m, backend, codec, keys, ttl, loader, w, e)
  {
    hide Judge, AfterWrite, Healed, AfterReads, CachedOf, MissingOf, Raws, Unique, VerdictOn, Decodes, Encodes, Loads;
    var out := ManySpec(m, backend, codec, keys, ttl, loader, w);
    var cfg, uniq := w.Helper(backend), Unique(keys);
    DecodesHas(cfg, codec, Raws(m, w, uniq), uniq, e);
    DecodesAreVerdicts(m, backend, codec, keys, w, e.k);
    if out.asked.Some? {
      LoadsHas(out.asked.value, out.reply.Err?, e);
      if out.reply.Ok? {
        EncodesHas(Job(cfg, codec, ttl, w), loader(out.asked.value).value, out.asked.value, e);
      }
    }
  }

  /** OnLoad fires for the keys that the loader was asked for, each once and in that order, with the outcome of the
      one load, unless the loader panicked; OpDecode for exactly the requested keys that did not decode; OpEncode
      for exactly the loaded ones that do not encode. */
  lemma HooksTellTheCall(m: Items, backend: CacheConfig, codec: Codec, keys: seq<Key>, ttl: Duration, loader: Loader,
                         w: World, e: Event)
    ensures
      var out := ManySpec(m, backend, codec, keys, ttl, loader, w);
      && LoadKeys(out.events) == (if out.asked.None? || out.reply == Err(LoaderPanic) then [] else out.asked.value)
      && (e in out.events <==> Fires(m, backend, codec, keys, ttl, loader, w, e))
  {
    hide ManySpec, Fires, LoadKeys;
    LoadHooksInOrder(m, backend, codec, keys, ttl, loader, w);
    FiredHooks(m, backend, codec, keys, ttl, loader, w, e);
  }

  lemma NoLoadKeys()
    ensures LoadKeys([]) == []
  {
  }

  lemma DecodesAreVerdicts(m: Items, backend: CacheConfig, codec: Codec, keys: seq<Key>, w: World, k: Key)
    ensures k in keys <==> k in Unique(keys)
    ensures k in keys ==>
              Judge(w.Helper(backend), codec, RawOf(Raws(m, w, Unique(keys)), k)) == VerdictOn(m, backend, codec, w, k)
  {
    hide Judge, Unique;
    UniqueKeepsOrder(keys);
    if k in keys {
      assert RawOf(Raws(m, w, Unique(keys)), k) == RawRead(m, w, k);
    }
  }
}
