/** cache.go and batch.go: what each reader makes of the bytes it finds, step by step. */
module Looks {
  import opened Base
  import opened Config
  import opened Envelope
  import opened Stored
  import opened EarlyRefresh
  import opened Protocol

  /** What a Get finds: nothing if it fails, or if nothing is stored, or if that has expired. */
  ghost predicate Finds(s: State, loc: Loc, ok: bool) {
    && ok && loc in s.store
    && (s.store[loc].item.deadline == None || s.now < s.store[loc].item.deadline.value)
  }

  /** Where a caller of GetOrSet goes from its first read. */
  ghost function AfterFirstRead(sys: System, s: State, caller: Caller, ok: bool, w: real): Pc {
    var cfg, codec := sys.cfg(caller.loc.cache), sys.codec(caller.loc.cache);
    if !Finds(s, caller.loc, ok) then Joining
    else
      var e := s.store[caller.loc];
      var env := MetadataOf(cfg, e.item.val);
      if e.item.val == Ascii("\0cachekit:negative\0") then Answered(NotFound(e.readAt, s.now), None)
      else
        match codec.unmarshal(PayloadOf(cfg, e.item.val))
        case None => SelfHealing
        case Some(v) =>
          if RefreshDue(env, s.now, cfg.earlyRefreshBeta, w) then Refreshing(v, env.freshUntil, e.readAt, s.now)
          else Answered(Hit(v, e.readAt, s.now), None)
  }

  /** The first read: a failed or empty one goes on to load, an absence is answered, an undecodable entry is healed,
      and any other is served, with a background refresh exactly when one is due. The read changes nothing. */
  lemma FirstReadMeans(sys: System, s: State, c: nat, ok: bool, w: real)
    requires c < |s.callers| && s.callers[c].pc.Reading? && w >= 0.0
    ensures Step(sys, s, Act(c, FirstRead(ok, w)))
            == Some(s.(callers := s.callers[c := s.callers[c].(pc := AfterFirstRead(sys, s, s.callers[c], ok, w))]))
  {
    hide Classify, ShouldEarlyRefresh, RefreshDue, PayloadOf, MetadataOf;
    var loc := s.callers[c].loc;
    if loc in s.store {
      var cfg := sys.cfg(loc.cache);
      BytesMean(cfg, sys.codec(loc.cache), s.store[loc].item.val);
      DueIsStaleOrEarly(MetadataOf(cfg, s.store[loc].item.val), s.now, cfg.earlyRefreshBeta, w);
    }
  }

  /** Where a flight goes from its re-check. An entry is good enough if it has no freshness deadline, or one that has
      not passed; and for a refresh it must be later than that of the trigger. */
  ghost function AfterRecheck(sys: System, s: State, fl: Flight, ok: bool): Phase {
    var cfg, codec := sys.cfg(fl.loc.cache), sys.codec(fl.loc.cache);
    if !Finds(s, fl.loc, ok) then Phase.Ready
    else
      var e := s.store[fl.loc];
      var env := MetadataOf(cfg, e.item.val);
      if e.item.val == Ascii("\0cachekit:negative\0") then Finished(Data(e.item.val, e.readAt, s.now))
      else if (env.freshUntil != -62_135_596_800_000_000_000 && s.now > env.freshUntil)
              || (fl.refreshOf != -62_135_596_800_000_000_000 && env.freshUntil <= fl.refreshOf) then Phase.Ready
      else if codec.unmarshal(PayloadOf(cfg, e.item.val)).Some? then Finished(Data(e.item.val, e.readAt, s.now))
      else Phase.Healing
  }

  /** The re-check: it ends the flight with an absence or a good enough value, turns to delete a good enough entry
      that does not decode, and otherwise goes on to load. */
  lemma RecheckMeans(sys: System, s: State, f: nat, ok: bool)
    requires f < |s.flights| && s.flights[f].phase.Starting?
    ensures Step(sys, s, Fly(f, Recheck(ok)))
            == Some(s.(flights := s.flights[f := s.flights[f].(phase := AfterRecheck(sys, s, s.flights[f], ok))]))
  {
    hide Classify, PayloadOf, MetadataOf;
    var loc := s.flights[f].loc;
    if loc in s.store {
      BytesMean(sys.cfg(loc.cache), sys.codec(loc.cache), s.store[loc].item.val);
    }
  }

  /** Where a key of a batch call goes from its read: no entry is too stale to be served. */
  ghost function AfterLaneRead(sys: System, s: State, ln: Lane, ok: bool): LanePhase {
    var cfg, codec := sys.cfg(ln.loc.cache), sys.codec(ln.loc.cache);
    if !Finds(s, ln.loc, ok) then LaneMissing
    else
      var e := s.store[ln.loc];
      if e.item.val == Ascii("\0cachekit:negative\0") then LaneDone(None, e.readAt, s.now)
      else
        match codec.unmarshal(PayloadOf(cfg, e.item.val))
        case Some(v) => LaneDone(Some(v), e.readAt, s.now)
        case None => LaneHealing
  }

  lemma LaneReadMeans(sys: System, s: State, l: nat, ok: bool)
    requires l < |s.lanes| && s.lanes[l].phase.LaneReading?
    ensures Step(sys, s, Batch(l, LaneRead(ok)))
            == Some(s.(lanes := s.lanes[l := s.lanes[l].(phase := AfterLaneRead(sys, s, s.lanes[l], ok))]))
  {
    hide Classify, PayloadOf, MetadataOf;
    var loc := s.lanes[l].loc;
    if loc in s.store {
      BytesMean(sys.cfg(loc.cache), sys.codec(loc.cache), s.store[loc].item.val);
    }
  }

  // ------------------------------------------------------------------
  // Storing
  // ------------------------------------------------------------------

  /** What is stored under a TTL: the bytes, for the asked TTL or the default, under jitter unless it was applied
      before. */
  ghost predicate StoredFor(item: Item, data: Bytes, ttl: Duration, cfg: CacheConfig, now: Time) {
    var asked := AskedTtl(ttl, cfg);
    && item.val == data
    && (asked <= 0 ==> item.deadline == None)
    && (asked > 0 && |data| >= 21 && data[..5] == Ascii("\0cke1") ==> item.deadline == Some(now + asked))
    && (asked > 0 && !(|data| >= 21 && data[..5] == Ascii("\0cke1")) ==>
          exists drawn :: Stretched(drawn, asked, cfg.ttlJitter)
                          && item.deadline == if drawn > 0 then Some(now + drawn) else None)
  }

  /** The configuration's jitter is a clamped fraction, and jitter of this TTL does not overflow. */
  predicate Drawable(ttl: Duration, cfg: CacheConfig) {
    0.0 <= cfg.ttlJitter <= 0.9 && AskedTtl(ttl, cfg) as real * (1.0 + cfg.ttlJitter) < TWO_63 as real
  }

  lemma NewItemIsStored(data: Bytes, ttl: Duration, cfg: CacheConfig, now: Time, u: real)
    requires Draw(u) && Drawable(ttl, cfg)
    ensures StoredFor(NewItem(data, ttl, cfg, now, u), data, ttl, cfg, now)
  {
    hide NewItem, Stretched;
    MarkerSpells();
    var drawn := ItemExpires(data, ttl, cfg, now, u);
  }

  /** The Set of a flight is best effort: it stores what the flight had packed, or the marker for the negative TTL,
      if it succeeds, and the flight ends with those bytes whether it succeeds or not. */
  lemma SaveMeans(sys: System, s: State, f: nat, ok: bool, w: real)
    requires f < |s.flights| && (s.flights[f].phase.Packing? || s.flights[f].phase.AbsenceLoaded?) && Draw(w)
    ensures
      var fl, cfg := s.flights[f], sys.cfg(s.flights[f].loc.cache);
      var data := if fl.phase.Packing? then fl.phase.data else Ascii("\0cachekit:negative\0");
      var ttl := if fl.phase.Packing? then fl.phase.ttl else cfg.negativeTTL;
      var saved := Step(sys, s, Fly(f, Save(ok, w)));
      && saved.Some?
      && saved.value.flights[f].phase == Finished(Data(data, fl.phase.readAt, fl.phase.readAt))
      && (!ok ==> saved.value.store == s.store)
      && (ok && Drawable(ttl, cfg) ==>
            && saved.value.store.Keys == s.store.Keys + {fl.loc}
            && saved.value.store[fl.loc].readAt == fl.phase.readAt
            && StoredFor(saved.value.store[fl.loc].item, data, ttl, cfg, s.now)
            && forall loc :: loc in s.store && loc != fl.loc ==> saved.value.store[loc] == s.store[loc])
  {
    hide NewItem, StoredFor, Classify;
    MarkerSpells();
    var fl, cfg := s.flights[f], sys.cfg(s.flights[f].loc.cache);
    if fl.phase.Packing? && Drawable(fl.phase.ttl, cfg) {
      NewItemIsStored(fl.phase.data, fl.phase.ttl, cfg, s.now, w);
    } else if fl.phase.AbsenceLoaded? && Drawable(cfg.negativeTTL, cfg) {
      NewItemIsStored(NEGATIVE_MARKER, cfg.negativeTTL, cfg, s.now, w);
    }
  }
}
