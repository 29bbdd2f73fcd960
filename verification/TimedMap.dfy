/** The abstract view of a backend: a map whose entries may carry a deadline, with and without lazy reaping. */
module TimedMap {
  import opened Base
  import opened Config
  import opened Stored

  type Items = map<Key, Item>

  function Live(m: Items, now: Time): Items {
    map k | k in m && m[k].Live(now) :: m[k]
  }

  function Lookup(m: Items, k: Key, now: Time): Option<Bytes> {
    if k in m && m[k].Live(now) then Some(m[k].val) else None
  }

  /** What a read leaves behind: an expired entry under the key is dropped. */
  function Reap(m: Items, k: Key, now: Time): Items {
    if k in m && !m[k].Live(now) then m - {k} else m
  }

  /** Reading many keys one after the other, each at its own instant; a later read of a repeated key
      replaces the earlier result only if the entry still lives. */
  function ReapMany(m: Items, ks: seq<Key>, at: seq<Time>): Items
    requires |at| == |ks|
  {
    if |ks| == 0 then m
    else
      var n := |ks| - 1;
      Reap(ReapMany(m, ks[..n], at[..n]), ks[n], at[n])
  }

  function LookupMany(m: Items, ks: seq<Key>, at: seq<Time>): map<Key, Bytes>
    requires |at| == |ks|
  {
    if |ks| == 0 then map[]
    else
      var n := |ks| - 1;
      var earlier := LookupMany(m, ks[..n], at[..n]);
      match Lookup(m, ks[n], at[n])
      case None => earlier
      case Some(val) => earlier[ks[n] := val]
  }

  /** The keys that a batch read finds, and those that it does not, in the order of the request. */
  function HitKeys(m: Items, ks: seq<Key>, at: seq<Time>): seq<Key>
    requires |at| == |ks|
  {
    if |ks| == 0 then []
    else
      var n := |ks| - 1;
      var earlier := HitKeys(m, ks[..n], at[..n]);
      if Lookup(m, ks[n], at[n]).Some? then earlier + [ks[n]] else earlier
  }

  function MissKeys(m: Items, ks: seq<Key>, at: seq<Time>): seq<Key>
    requires |at| == |ks|
  {
    if |ks| == 0 then []
    else
      var n := |ks| - 1;
      var earlier := MissKeys(m, ks[..n], at[..n]);
      if Lookup(m, ks[n], at[n]).Some? then earlier else earlier + [ks[n]]
  }

  function Count(s: seq<Key>, k: Key): nat {
    if |s| == 0 then 0 else Count(s[..|s| - 1], k) + if s[|s| - 1] == k then 1 else 0
  }

  lemma {:induction false} CountIsMultiplicity(s: seq<Key>, k: Key)
    ensures multiset(s)[k] == Count(s, k)
  {
    if |s| > 0 {
      CountIsMultiplicity(s[..|s| - 1], k);
      assert s == s[..|s| - 1] + [s[|s| - 1]];
    }
  }

  lemma CountSnoc(s: seq<Key>, x: Key, k: Key)
    ensures Count(s + [x], k) == Count(s, k) + if x == k then 1 else 0
  {
    assert (s + [x])[..|s|] == s;
  }

  lemma {:induction false} HitAndMissCounts(m: Items, ks: seq<Key>, at: seq<Time>, k: Key)
    requires |at| == |ks|
    ensures Count(HitKeys(m, ks, at), k) + Count(MissKeys(m, ks, at), k) == Count(ks, k)
  {
    hide Lookup;
    if |ks| > 0 {
      var n := |ks| - 1;
      HitAndMissCounts(m, ks[..n], at[..n], k);
      CountSnoc(HitKeys(m, ks[..n], at[..n]), ks[n], k);
      CountSnoc(MissKeys(m, ks[..n], at[..n]), ks[n], k);
    }
  }

  /** OnHit and OnMiss together fire once per requested key, repetitions included. */
  lemma HitsAndMisses(m: Items, ks: seq<Key>, at: seq<Time>)
    requires |at| == |ks|
    ensures multiset(HitKeys(m, ks, at)) + multiset(MissKeys(m, ks, at)) == multiset(ks)
  {
    forall k: Key
      ensures (multiset(HitKeys(m, ks, at)) + multiset(MissKeys(m, ks, at)))[k] == multiset(ks)[k]
    {
      HitAndMissCounts(m, ks, at, k);
      CountIsMultiplicity(HitKeys(m, ks, at), k);
      CountIsMultiplicity(MissKeys(m, ks, at), k);
      CountIsMultiplicity(ks, k);
    }
  }

  /** OnHit fires exactly for the keys of the result. */
  lemma {:induction false} HitsAreTheResult(m: Items, ks: seq<Key>, at: seq<Time>, k: Key)
    requires |at| == |ks|
    ensures k in HitKeys(m, ks, at) <==> k in LookupMany(m, ks, at)
  {
    if |ks| > 0 {
      HitsAreTheResult(m, ks[..|ks| - 1], at[..|ks| - 1], k);
    }
  }

  function StoreMany(vals: map<Key, Bytes>, ttl: Duration, cfg: CacheConfig, at: Key -> Time, u: Key -> real): Items {
    map k | k in vals :: NewItem(vals[k], ttl, cfg, at(k), u(k))
  }

  /** The part of a batch write that is done while the keys of todo are still to be visited. */
  function Visited(vals: map<Key, Bytes>, todo: set<Key>): map<Key, Bytes> {
    map k | k in vals && k !in todo :: vals[k]
  }

  lemma VisitOne(m: Items, vals: map<Key, Bytes>, todo: set<Key>, k: Key, ttl: Duration, cfg: CacheConfig,
                 at: Key -> Time, u: Key -> real)
    requires k in todo && k in vals
    ensures (m + StoreMany(Visited(vals, todo), ttl, cfg, at, u))[k := NewItem(vals[k], ttl, cfg, at(k), u(k))]
            == m + StoreMany(Visited(vals, todo - {k}), ttl, cfg, at, u)
  {
    hide NewItem;
  }

  predicate Nondecreasing(at: seq<Time>) {
    forall i, j :: 0 <= i < j < |at| ==> at[i] <= at[j]
  }

  // ------------------------------------------------------------------
  // Operation sequences
  // ------------------------------------------------------------------

  datatype Op =
    | Get(k: Key)
    | Set(k: Key, val: Bytes, ttl: Duration, u: real)
    | Delete(k: Key)
    | GetMany(ks: seq<Key>, at: seq<Time>)
    | SetMany(vals: map<Key, Bytes>, ttl: Duration, when: Key -> Time, draw: Key -> real)

  datatype Reply = Miss | Got(val: Bytes) | Done | GotMany(out: map<Key, Bytes>)

  /** One call, begun and ended at the given instants; a batch read looks at each key in between. */
  datatype Call = Call(op: Op, begin: Time, end: Time)
  {
    ghost predicate WellTimed() {
      && begin <= end
      && (op.GetMany? ==>
           && |op.at| == |op.ks| && Nondecreasing(op.at)
           && forall i :: 0 <= i < |op.at| ==> begin <= op.at[i] <= end)
    }
  }

  ghost predicate WellTimedRun(calls: seq<Call>, from: Time) {
    |calls| > 0 ==> from <= calls[0].begin && calls[0].WellTimed() && WellTimedRun(calls[1..], calls[0].end)
  }

  /** The answer of one call; it is the same function of the contents for either representation. */
  function Answer(m: Items, c: Call): Reply {
    match c.op
    case Get(k) => (match Lookup(m, k, c.begin) case None => Miss case Some(val) => Got(val))
    case GetMany(ks, at) => if |at| == |ks| then GotMany(LookupMany(m, ks, at)) else Miss
    case _ => Done
  }

  /** MemoryCache: reads reap lazily. */
  function LazyAfter(cfg: CacheConfig, m: Items, c: Call): Items {
    match c.op
    case Get(k) => Reap(m, k, c.begin)
    case Set(k, val, ttl, u) => m[k := NewItem(val, ttl, cfg, c.begin, u)]
    case Delete(k) => m - {k}
    case GetMany(ks, at) => if |at| == |ks| then ReapMany(m, ks, at) else m
    case SetMany(vals, ttl, when, draw) => m + StoreMany(vals, ttl, cfg, when, draw)
  }

  /** The specification: expired entries vanish by themselves, and reads change nothing. */
  function EagerAfter(cfg: CacheConfig, m: Items, c: Call): Items {
    var live := Live(m, c.begin);
    match c.op
    case Set(k, val, ttl, u) => live[k := NewItem(val, ttl, cfg, c.begin, u)]
    case Delete(k) => live - {k}
    case SetMany(vals, ttl, when, draw) => live + StoreMany(vals, ttl, cfg, when, draw)
    case _ => live
  }

  function LazyReplies(cfg: CacheConfig, m: Items, calls: seq<Call>): seq<Reply>
    decreases |calls|
  {
    if |calls| == 0 then []
    else [Answer(m, calls[0])] + LazyReplies(cfg, LazyAfter(cfg, m, calls[0]), calls[1..])
  }

  function EagerReplies(cfg: CacheConfig, m: Items, calls: seq<Call>): seq<Reply>
    decreases |calls|
  {
    if |calls| == 0 then []
    else [Answer(Live(m, calls[0].begin), calls[0])] + EagerReplies(cfg, EagerAfter(cfg, m, calls[0]), calls[1..])
  }

  /** The two contents agree on every entry that still lives at t. */
  ghost predicate Agree(m: Items, e: Items, t: Time) {
    Live(m, t) == Live(e, t)
  }

  lemma LookupIsLive(m: Items, k: Key, now: Time)
    ensures Lookup(m, k, now) == if k in Live(m, now) then Some(Live(m, now)[k].val) else None
  {
  }

  lemma AgreeLater(m: Items, e: Items, t: Time, t': Time)
    requires Agree(m, e, t) && t <= t'
    ensures Agree(m, e, t')
  {
    LiveOfLive(m, t, t');
    LiveOfLive(e, t, t');
  }

  lemma LiveOfLive(m: Items, t: Time, t': Time)
    requires t <= t'
    ensures Live(Live(m, t), t') == Live(m, t')
  {
  }

  lemma AgreeLookup(m: Items, e: Items, k: Key, t: Time)
    requires Agree(m, e, t)
    ensures Lookup(m, k, t) == Lookup(e, k, t)
  {
    LookupIsLive(m, k, t);
    LookupIsLive(e, k, t);
  }

  lemma ReapIsInvisible(m: Items, k: Key, t: Time, t': Time)
    requires t <= t'
    ensures Live(Reap(m, k, t), t') == Live(m, t')
  {
  }

  lemma {:induction false} ReapManyIsInvisible(m: Items, ks: seq<Key>, at: seq<Time>, t': Time)
    requires |at| == |ks| && forall i :: 0 <= i < |at| ==> at[i] <= t'
    ensures Live(ReapMany(m, ks, at), t') == Live(m, t')
  {
    if |ks| > 0 {
      var n := |ks| - 1;
      ReapManyIsInvisible(m, ks[..n], at[..n], t');
      ReapIsInvisible(ReapMany(m, ks[..n], at[..n]), ks[n], at[n], t');
    }
  }

  lemma {:induction false} AgreeLookupMany(m: Items, e: Items, ks: seq<Key>, at: seq<Time>, t: Time)
    requires |at| == |ks| && Agree(m, e, t) && forall i :: 0 <= i < |at| ==> t <= at[i]
    ensures LookupMany(m, ks, at) == LookupMany(e, ks, at)
  {
    if |ks| > 0 {
      var n := |ks| - 1;
      AgreeLookupMany(m, e, ks[..n], at[..n], t);
      AgreeLater(m, e, t, at[n]);
      AgreeLookup(m, e, ks[n], at[n]);
    }
  }

  lemma LiveAfterUpdate(m: Items, e: Items, more: Items, t: Time)
    requires Agree(m, e, t)
    ensures Agree(m + more, e + more, t)
  {
    forall k ensures k in Live(m + more, t) <==> k in Live(e + more, t) {
      assert k in Live(m, t) <==> k in Live(e, t);
    }
    forall k | k in Live(m + more, t) ensures Live(m + more, t)[k] == Live(e + more, t)[k] {
      if k !in more {
        assert k in Live(m, t);
        assert Live(m, t)[k] == Live(e, t)[k];
      }
    }
  }

  lemma LiveAfterDelete(m: Items, e: Items, k: Key, t: Time)
    requires Agree(m, e, t)
    ensures Agree(m - {k}, e - {k}, t)
  {
    assert Live(m - {k}, t) == Live(m, t) - {k};
    assert Live(e - {k}, t) == Live(e, t) - {k};
  }

  lemma AgreeAfter(cfg: CacheConfig, m: Items, e: Items, c: Call)
    requires c.WellTimed() && Agree(m, e, c.begin)
    ensures Answer(m, c) == Answer(Live(e, c.begin), c)
    ensures Agree(LazyAfter(cfg, m, c), EagerAfter(cfg, e, c), c.end)
  {
    var live := Live(e, c.begin);
    LiveOfLive(e, c.begin, c.begin);
    AgreeLater(m, live, c.begin, c.end);
    match c.op
    case Get(k) =>
      AgreeLookup(m, live, k, c.begin);
      ReapIsInvisible(m, k, c.begin, c.end);
    case Set(k, val, ttl, u) =>
      var more := map[k := NewItem(val, ttl, cfg, c.begin, u)];
      LiveAfterUpdate(m, live, more, c.end);
      assert m + more == LazyAfter(cfg, m, c) && live + more == EagerAfter(cfg, e, c);
    case Delete(k) => LiveAfterDelete(m, live, k, c.end);
    case GetMany(ks, at) =>
      AgreeLookupMany(m, live, ks, at, c.begin);
      ReapManyIsInvisible(m, ks, at, c.end);
    case SetMany(vals, ttl, when, draw) =>
      LiveAfterUpdate(m, live, StoreMany(vals, ttl, cfg, when, draw), c.end);
  }

  /** Lazy reaping is invisible: under a clock that never runs backward, every sequence of operations gets
      the same replies from the cache that reaps on reads as from a map that holds live entries only. */
  lemma {:induction false} LazyReapingIsInvisible(cfg: CacheConfig, m: Items, e: Items, calls: seq<Call>, now: Time)
    requires Agree(m, e, now) && WellTimedRun(calls, now)
    ensures LazyReplies(cfg, m, calls) == EagerReplies(cfg, e, calls)
    decreases |calls|
  {
    if |calls| > 0 {
      var c := calls[0];
      AgreeLater(m, e, now, c.begin);
      AgreeAfter(cfg, m, e, c);
      LazyReapingIsInvisible(cfg, LazyAfter(cfg, m, c), EagerAfter(cfg, e, c), calls[1..], c.end);
    }
  }

  // ------------------------------------------------------------------
  // Batch reads, key by key
  // ------------------------------------------------------------------

  function At(ks: seq<Key>, when: Key -> Time): (at: seq<Time>)
    ensures |at| == |ks|
  {
    seq(|ks|, i requires 0 <= i < |ks| => when(ks[i]))
  }

  function Found(m: Items, ks: seq<Key>, when: Key -> Time): map<Key, Bytes> {
    map k | k in ks && Lookup(m, k, when(k)).Some? :: Lookup(m, k, when(k)).value
  }

  /** The contents without the keys of ks that had expired when they were read. */
  function Swept(m: Items, ks: seq<Key>, when: Key -> Time): Items {
    map k | k in m && !(k in ks && !m[k].Live(when(k))) :: m[k]
  }

  /** When each key has its own instant, a batch read is the same as independent reads of the keys. */
  lemma {:induction false} BatchReadIsPointwise(m: Items, ks: seq<Key>, when: Key -> Time)
    ensures LookupMany(m, ks, At(ks, when)) == Found(m, ks, when)
    ensures ReapMany(m, ks, At(ks, when)) == Swept(m, ks, when)
  {
    if |ks| > 0 {
      var n := |ks| - 1;
      BatchReadIsPointwise(m, ks[..n], when);
      assert At(ks, when)[..n] == At(ks[..n], when);
      assert forall k :: k in ks <==> k in ks[..n] || k == ks[n];
    }
  }
}
