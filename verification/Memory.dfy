/** memory.go: the process-local backend. */
module Memory {
  import opened Base
  import opened Codecs
  import opened Config
  import opened Stored
  import opened TimedMap

  /** Each method is one critical section of the mutex. The clock and the jitter draws are arguments. */
  class MemoryCache {
    var items: map<string, Item>
    const prefix: string
    const codec: Option<Codec>
    const cfg: CacheConfig

    /** The items by logical key, and the keys that OnHit and OnMiss were called with. */
    ghost var contents: Items
    ghost var hits: seq<Key>
    ghost var misses: seq<Key>

    ghost predicate Valid()
      reads this
    {
      && (forall k :: k in contents ==> prefix + k in items && items[prefix + k] == contents[k])
      && (forall p :: p in items ==> prefix <= p && p[|prefix|..] in contents)
    }

    /** NewMemory: an empty cache, configured by the built options. */
    constructor (opts: seq<OptionFn>, defaultCodec: Codec)
      ensures Valid() && contents == map[] && hits == [] && misses == []
      ensures exists o :: Built(opts, defaultCodec, o) && prefix == o.prefix && codec == o.codec
                          && cfg.negativeTTL == o.negativeTTL && cfg.defaultTTL == o.defaultTTL
                          && cfg.staleTTL == o.staleTTL && cfg.earlyRefreshBeta == o.earlyRefreshBeta
                          && cfg.ttlJitter == o.ttlJitter
      ensures codec.Some? && cfg.Jittered()
    {
      var o := BuildOptions(opts, defaultCodec);
      items := map[];
      prefix := o.prefix;
      codec := o.codec;
      cfg := ConfigOf(o);
      contents := map[];
      hits := [];
      misses := [];
    }

    function Prefixed(k: Key): (p: string)
      ensures prefix <= p && p[|prefix|..] == k
    {
      prefix + k
    }

    /** A physical key is live in exactly one logical place, and only under this cache's prefix. */
    lemma PrefixSeparates(k: Key, l: Key)
      ensures Prefixed(k) == Prefixed(l) <==> k == l
    {
      assert Prefixed(k)[|prefix|..] == k && Prefixed(l)[|prefix|..] == l;
    }

    lemma InContents(k: Key)
      requires Valid()
      ensures k in contents <==> Prefixed(k) in items
      ensures k in contents ==> items[Prefixed(k)] == contents[k]
    {
      assert Prefixed(k)[|prefix|..] == k;
    }

    method Get(key: Key, now: Time) returns (r: Option<Bytes>)
      requires Valid()
      modifies this`items, this`contents, this`hits, this`misses
      ensures Valid()
      ensures r == Lookup(old(contents), key, now)
      ensures contents == Reap(old(contents), key, now)
      ensures var expired := key in old(contents) && old(contents)[key].deadline.Some?
                             && old(contents)[key].deadline.value <= now;
              && r == (if key in old(contents) && !expired then Some(old(contents)[key].val) else None)
              && contents == if expired then old(contents) - {key} else old(contents)
      ensures hits == old(hits) + if r.Some? then [key] else []
      ensures misses == old(misses) + if r.None? then [key] else []
      ensures var call := Call(Op.Get(key), now, now);
              && contents == LazyAfter(cfg, old(contents), call)
              && Answer(old(contents), call) == match r case Some(val) => Got(val) case None => Miss
    {
      r := Touch(key, now);
      if r.None? {
        misses := misses + [key];
      } else {
        hits := hits + [key];
      }
    }

    /** The locked part of a read: drop the entry if it has expired, and copy it otherwise. */
    method Touch(key: Key, now: Time) returns (r: Option<Bytes>)
      requires Valid()
      modifies this`items, this`contents
      ensures Valid()
      ensures r == Lookup(old(contents), key, now)
      ensures contents == Reap(old(contents), key, now)
    {
      InContents(key);
      var p := Prefixed(key);
      var ok := p in items;
      if ok && items[p].deadline.Some? && !(now < items[p].deadline.value) {
        Remove(key);
        ok := false;
      }
      if ok {
        r := Some(items[p].val);
      } else {
        r := None;
      }
    }

    method Remove(key: Key)
      requires Valid()
      modifies this`items, this`contents
      ensures Valid() && contents == old(contents) - {key}
    {
      items := items - {Prefixed(key)};
      contents := contents - {key};
      forall k | k in contents ensures prefix + k in items && items[prefix + k] == contents[k] {
        PrefixSeparates(k, key);
      }
      forall p | p in items ensures prefix <= p && p[|prefix|..] in contents {
        assert p == Prefixed(p[|prefix|..]);
      }
    }

    method Put(key: Key, it: Item)
      requires Valid()
      modifies this`items, this`contents
      ensures Valid() && contents == old(contents)[key := it]
    {
      items := items[Prefixed(key) := it];
      contents := contents[key := it];
      forall k | k in contents ensures prefix + k in items && items[prefix + k] == contents[k] {
        PrefixSeparates(k, key);
      }
      forall p | p in items ensures prefix <= p && p[|prefix|..] in contents {
        assert p == Prefixed(p[|prefix|..]);
      }
    }

    method Set(key: Key, val: Bytes, ttl: Duration, now: Time, u: real)
      requires Valid()
      modifies this`items, this`contents
      ensures Valid() && contents == old(contents)[key := NewItem(val, ttl, cfg, now, u)]
      ensures contents == LazyAfter(cfg, old(contents), Call(Op.Set(key, val, ttl, u), now, now))
    {
      Put(key, NewItem(val, ttl, cfg, now, u));
    }

    method Delete(key: Key)
      requires Valid()
      modifies this`items, this`contents
      ensures Valid() && contents == old(contents) - {key}
      ensures forall now: Time :: contents == LazyAfter(cfg, old(contents), Call(Op.Delete(key), now, now))
    {
      Remove(key);
    }

    /** The clock is read once per key; the hooks fire after the last one. */
    method GetMany(keys: seq<Key>, at: seq<Time>) returns (out: map<Key, Bytes>)
      requires Valid() && |at| == |keys| && Nondecreasing(at)
      modifies this`items, this`contents, this`hits, this`misses
      ensures Valid()
      ensures out == LookupMany(old(contents), keys, at)
      ensures contents == ReapMany(old(contents), keys, at)
      ensures hits == old(hits) + HitKeys(old(contents), keys, at)
      ensures misses == old(misses) + MissKeys(old(contents), keys, at)
      ensures forall begin: Time, end: Time ::
                var call := Call(Op.GetMany(keys, at), begin, end);
                contents == LazyAfter(cfg, old(contents), call) && Answer(old(contents), call) == GotMany(out)
    {
      hide Lookup, Reap;
      ghost var was := contents;
      out := map[];
      var hs, ms := [], [];
      for i := 0 to |keys|
        invariant Valid() && hits == old(hits) && misses == old(misses)
        invariant out == LookupMany(was, keys[..i], at[..i])
        invariant contents == ReapMany(was, keys[..i], at[..i])
        invariant hs == HitKeys(was, keys[..i], at[..i])
        invariant ms == MissKeys(was, keys[..i], at[..i])
      {
        assert keys[..i + 1][..i] == keys[..i] && at[..i + 1][..i] == at[..i];
        ReapedReads(was, keys[..i], at[..i], keys[i], at[i]);
        var r := Touch(keys[i], at[i]);
        if r.None? {
          ms := ms + [keys[i]];
        } else {
          out := out[keys[i] := r.value];
          hs := hs + [keys[i]];
        }
      }
      assert keys[..|keys|] == keys && at[..|at|] == at;
      hits := hits + hs;
      misses := misses + ms;
    }

    /** The range over a Go map visits the items in any order. */
    method SetMany(vals: map<Key, Bytes>, ttl: Duration, at: Key -> Time, u: Key -> real)
      requires Valid()
      modifies this`items, this`contents
      ensures Valid() && contents == old(contents) + StoreMany(vals, ttl, cfg, at, u)
      ensures forall begin: Time, end: Time ::
                contents == LazyAfter(cfg, old(contents), Call(Op.SetMany(vals, ttl, at, u), begin, end))
    {
      hide Valid, NewItem;
      var todo := vals.Keys;
      assert Visited(vals, todo) == map[];
      while todo != {}
        invariant Valid() && todo <= vals.Keys
        invariant contents == old(contents) + StoreMany(Visited(vals, todo), ttl, cfg, at, u)
        decreases todo
      {
        var k :| k in todo;
        VisitOne(old(contents), vals, todo, k, ttl, cfg, at, u);
        Put(k, NewItem(vals[k], ttl, cfg, at(k), u(k)));
        todo := todo - {k};
      }
      assert Visited(vals, todo) == vals;
    }

    /** Len counts what is stored, reaped or not: no fewer entries than still live. */
    method Len(ghost now: Time) returns (n: nat)
      requires Valid()
      ensures n == |contents| && n >= |Live(contents, now)|
    {
      n := |items|;
      SameSize(contents.Keys);
      assert items.Keys == set k | k in contents.Keys :: Prefixed(k) by {
        forall p | p in items ensures exists k :: k in contents.Keys && p == Prefixed(k) {
          assert p == Prefixed(p[|prefix|..]);
        }
      }
      SubsetSize(Live(contents, now).Keys, contents.Keys);
    }

    lemma {:induction false} SameSize(ks: set<Key>)
      ensures |set k | k in ks :: Prefixed(k)| == |ks|
    {
      if ks != {} {
        var k :| k in ks;
        SameSize(ks - {k});
        forall l | l in ks - {k} ensures Prefixed(l) != Prefixed(k) {
          PrefixSeparates(k, l);
        }
        assert (set l | l in ks :: Prefixed(l)) == (set l | l in ks - {k} :: Prefixed(l)) + {Prefixed(k)};
      }
    }
  }

  lemma {:induction false} SubsetSize(a: set<Key>, b: set<Key>)
    requires a <= b
    ensures |a| <= |b|
  {
    if a != {} {
      var x :| x in a;
      SubsetSize(a - {x}, b - {x});
    }
  }

  /** Earlier reads of a batch do not change what a later one finds. */
  lemma {:induction false} ReapedReads(m: Items, ks: seq<Key>, at: seq<Time>, k: Key, t: Time)
    requires |at| == |ks| && forall i :: 0 <= i < |at| ==> at[i] <= t
    ensures Lookup(ReapMany(m, ks, at), k, t) == Lookup(m, k, t)
  {
    ReapManyIsInvisible(m, ks, at, t);
    AgreeLookup(ReapMany(m, ks, at), m, k, t);
  }
}
