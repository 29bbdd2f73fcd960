/** cache.go packForStore, memory.go newItem and hooks.go parseStored: what is written, and how it is read back. */
module Stored {
  import opened Base
  import opened Codecs
  import opened Config
  import opened Envelope

  // ------------------------------------------------------------------
  // Writing
  // ------------------------------------------------------------------

  datatype Packed = Packed(data: Bytes, ttl: Duration)

  /** The freshness window packForStore draws for a value. */
  function FreshFor(ttl: Duration, cfg: CacheConfig, u: real): Duration {
    ApplyJitter(Resolve(ttl, cfg.defaultTTL), cfg.ttlJitter, u)
  }

  function PackForStore(payload: Bytes, ttl: Duration, loadDur: Duration, cfg: CacheConfig, now: Time, u: real)
    : Packed
  {
    if !cfg.EnvelopeEnabled() then
      Packed(payload, ttl)
    else
      var term := FreshFor(ttl, cfg, u);
      if term > 0 then
        Packed(Wrap(payload, now + term, loadDur), Wrap64(term + cfg.staleTTL))
      else
        Packed(Wrap(payload, ZERO_TIME, loadDur), 0)
  }

  /** A backend entry; no deadline means that it never expires. */
  datatype Item = Item(val: Bytes, deadline: Option<Time>)
  {
    predicate Live(now: Time) {
      deadline.Some? ==> now < deadline.value
    }
  }

  /** MemoryCache.newItem, with the jitter draw as an argument. */
  function NewItem(val: Bytes, ttl: Duration, cfg: CacheConfig, now: Time, u: real): Item {
    var resolved := Resolve(ttl, cfg.defaultTTL);
    var spread := if HasEnvelope(val) then resolved else ApplyJitter(resolved, cfg.ttlJitter, u);
    Item(val, if spread > 0 then Some(now + spread) else None)
  }

  // ------------------------------------------------------------------
  // Reading
  // ------------------------------------------------------------------

  function ParseStored(cfg: CacheConfig, data: Bytes): (Metadata, Bytes) {
    if cfg.EnvelopeEnabled() then Parse(data) else (NO_METADATA, data)
  }

  /** What a helper makes of stored bytes: marker first, then metadata, then decode. */
  datatype View =
    | Absent
    | Readable(env: Metadata, v: Value)
    | Undecodable(env: Metadata)

  function Classify(cfg: CacheConfig, codec: Codec, data: Bytes): View {
    if IsNegative(data) then Absent
    else
      var (env, payload) := ParseStored(cfg, data);
      match codec.unmarshal(payload)
      case Some(v) => Readable(env, v)
      case None => Undecodable(env)
  }

  /** The bytes spell the marker of a cached absence. */
  predicate SpellsAbsence(data: Bytes) {
    data == Ascii("\0cachekit:negative\0")
  }

  /** The bytes that a codec is given: all of them, unless metadata is in use and in front of them. */
  function PayloadOf(cfg: CacheConfig, data: Bytes): Bytes {
    if (cfg.staleTTL > 0 || cfg.earlyRefreshBeta > 0.0) && |data| >= 21 && data[..5] == Ascii("\0cke1") then data[21..]
    else data
  }

  /** The metadata that comes with them. */
  function MetadataOf(cfg: CacheConfig, data: Bytes): Metadata {
    if (cfg.staleTTL > 0 || cfg.earlyRefreshBeta > 0.0) && |data| >= 21 && data[..5] == Ascii("\0cke1") then
      Parse(data).0
    else Metadata(ZERO_TIME, 0)
  }

  lemma ParsedPayload(cfg: CacheConfig, data: Bytes)
    ensures ParseStored(cfg, data) == (MetadataOf(cfg, data), PayloadOf(cfg, data))
  {
    MarkerSpells();
    assert |data| >= 21 ==> (MAGIC <= data <==> data[..5] == MAGIC);
  }

  /** What stored bytes say, without a look at how they are classified. */
  lemma BytesMean(cfg: CacheConfig, codec: Codec, data: Bytes)
    ensures Classify(cfg, codec, data) ==
            if data == Ascii("\0cachekit:negative\0") then Absent
            else match codec.unmarshal(PayloadOf(cfg, data))
              case Some(v) => Readable(MetadataOf(cfg, data), v)
              case None => Undecodable(MetadataOf(cfg, data))
  {
    hide PayloadOf, MetadataOf, ParseStored;
    MarkerSpells();
    ParsedPayload(cfg, data);
  }

  lemma NegativeIsAbsent(cfg: CacheConfig, codec: Codec)
    ensures Classify(cfg, codec, NEGATIVE_MARKER) == Absent
    ensures !HasEnvelope(NEGATIVE_MARKER)
  {
    assert NEGATIVE_MARKER[2] != MAGIC[2];
  }

  lemma WrappedIsEnvelope(payload: Bytes, freshUntil: Time, delta: Duration)
    ensures HasEnvelope(Wrap(payload, freshUntil, delta))
    ensures !IsNegative(Wrap(payload, freshUntil, delta))
  {
    var data := Wrap(payload, freshUntil, delta);
    assert data[2] == MAGIC[2];
  }

  lemma EnvelopeStartsWithNul(data: Bytes)
    ensures HasEnvelope(data) ==> StartsWithNul(data)
  {
    if HasEnvelope(data) {
      assert data[0] == MAGIC[0];
    }
  }

  /** The three stored forms never coincide, and reading returns what was written: the marker as absence,
      an enveloped value with its metadata, a plain value with none. With the feature off every byte is payload,
      whatever it starts with; with it on, bytes are split exactly when they carry the magic and a full header. */
  lemma StorageIsUnambiguous(cfg: CacheConfig, codec: Codec, v: Value, freshUntil: Time, delta: Duration)
    requires codec.Faithful() && codec.marshal(v).Some?
    ensures
      var plain := codec.marshal(v).value;
      var enveloped := Wrap(plain, freshUntil, delta);
      && plain != NEGATIVE_MARKER && enveloped != NEGATIVE_MARKER
      && !HasEnvelope(plain) && HasEnvelope(enveloped)
      && Classify(cfg, codec, NEGATIVE_MARKER) == Absent
      && Classify(cfg, codec, plain) == Readable(NO_METADATA, v)
      && (cfg.EnvelopeEnabled() ==> Classify(cfg, codec, enveloped) == Readable(Parse(enveloped).0, v))
    ensures forall data: Bytes ::
              ParseStored(cfg, data) == (NO_METADATA, data) <==> !cfg.EnvelopeEnabled() || !HasEnvelope(data)
  {
    NegativeIsAbsent(cfg, codec);
    WrappedIsEnvelope(codec.marshal(v).value, freshUntil, delta);
    ParseWrapped(codec.marshal(v).value, freshUntil, delta);
    assert StartsWithNul(NEGATIVE_MARKER);
    EnvelopeStartsWithNul(codec.marshal(v).value);
  }

  /** Two values with different encodings, or one value under different stored metadata, never share bytes. */
  lemma EnvelopesAreInjective(p: Bytes, q: Bytes, fu: Time, fv: Time, d: Duration, e: Duration)
    ensures Wrap(p, fu, d) == Wrap(q, fv, e)
            <==> p == q && StoredFreshness(fu) == StoredFreshness(fv) && TruncMs(d) == TruncMs(e)
  {
    if Wrap(p, fu, d) == Wrap(q, fv, e) {
      Int64RoundTrip(StoredFreshness(fu));
      Int64RoundTrip(StoredFreshness(fv));
      Int64RoundTrip(TruncMs(d));
      Int64RoundTrip(TruncMs(e));
    }
  }

  // ------------------------------------------------------------------
  // Deadline arithmetic across pack and store
  // ------------------------------------------------------------------

  /** A wall clock between 1970 and the last representable millisecond, with room for one more Duration. */
  predicate SaneClock(now: Time) {
    MILLISECOND <= now && FloorMs(now + TWO_63) < TWO_63
  }

  /** What packForStore's bytes read back as. */
  lemma PackedReadsBack(cfg: CacheConfig, codec: Codec, v: Value, ttl: Duration, loadDur: Duration, now: Time, u: real)
    requires codec.Faithful() && codec.marshal(v).Some? && SaneClock(now)
    ensures
      var data := PackForStore(codec.marshal(v).value, ttl, loadDur, cfg, now, u).data;
      var term := FreshFor(ttl, cfg, u);
      && Classify(cfg, codec, data).Readable?
      && Classify(cfg, codec, data).v == v
      && HasEnvelope(data) == cfg.EnvelopeEnabled()
      && (cfg.EnvelopeEnabled() && term > 0 ==>
            && Classify(cfg, codec, data).env.freshUntil == FloorMs(now + term) * MILLISECOND
            && Classify(cfg, codec, data).env.HasDeadline())
      && (!cfg.EnvelopeEnabled() || term <= 0 ==> !Classify(cfg, codec, data).env.HasDeadline())
  {
    var payload := codec.marshal(v).value;
    var term := FreshFor(ttl, cfg, u);
    StorageIsUnambiguous(cfg, codec, v, if term > 0 then now + term else ZERO_TIME, loadDur);
    ParseWrapped(payload, if term > 0 then now + term else ZERO_TIME, loadDur);
  }

  /** kept is d without its fraction of a millisecond. */
  predicate CutToMs(kept: int, d: int) {
    && kept % MILLISECOND == 0
    && if d >= 0 then 0 <= kept <= d < kept + MILLISECOND else kept - MILLISECOND < d <= kept <= 0
  }

  /** A value is stored with what its load cost, cut to whole milliseconds, whenever stale entries are served or
      early refresh is on, be it for a while or for good; and otherwise as its bare encoding. */
  lemma PackedCarriesLoadCost(cfg: CacheConfig, codec: Codec, v: Value, ttl: Duration, loadDur: Duration,
                              now: Time, u: real)
    requires codec.Faithful() && codec.marshal(v).Some?
    ensures
      var data := PackForStore(codec.marshal(v).value, ttl, loadDur, cfg, now, u).data;
      var view := Classify(cfg, codec, data);
      if cfg.staleTTL > 0 || cfg.earlyRefreshBeta > 0.0 then
        view.Readable? && view.v == v && CutToMs(view.env.delta, loadDur)
      else
        data == codec.marshal(v).value && view == Readable(Metadata(ZERO_TIME, 0), v)
  {
    hide FreshFor, TruncMs;
    var term := FreshFor(ttl, cfg, u);
    StorageIsUnambiguous(cfg, codec, v, if term > 0 then now + term else ZERO_TIME, loadDur);
    ParseWrapped(codec.marshal(v).value, if term > 0 then now + term else ZERO_TIME, loadDur);
    TruncCuts(loadDur);
  }

  lemma TruncCuts(d: int)
    ensures CutToMs(TruncMs(d) * MILLISECOND, d)
  {
  }

  /** The TTL handed to the backend: the drawn window plus the stale window, unless that is not a
      positive Duration, and then nothing positive either. */
  lemma PackedTtl(payload: Bytes, ttl: Duration, loadDur: Duration, cfg: CacheConfig, now: Time, u: real)
    requires cfg.EnvelopeEnabled()
    ensures
      var packed := PackForStore(payload, ttl, loadDur, cfg, now, u);
      var term := FreshFor(ttl, cfg, u);
      && HasEnvelope(packed.data)
      && (if term > 0 && 0 < term + cfg.staleTTL < TWO_63 then packed.ttl == term + cfg.staleTTL
          else packed.ttl <= 0)
  {
    var term := FreshFor(ttl, cfg, u);
    WrappedIsEnvelope(payload, if term > 0 then now + term else ZERO_TIME, loadDur);
    if term > 0 {
      WrapSum(term, cfg.staleTTL);
    }
  }

  lemma WrapSum(a: Duration, b: Duration)
    requires a > 0
    ensures if 0 < a + b < TWO_63 then Wrap64(a + b) == a + b else Wrap64(a + b) <= 0
  {
  }

  lemma EnvelopedItem(val: Bytes, ttl: Duration, cfg: CacheConfig, now: Time, u: real)
    requires HasEnvelope(val)
    ensures NewItem(val, ttl, cfg, now, u).deadline ==
            var r := Resolve(ttl, cfg.defaultTTL); if r > 0 then Some(now + r) else None
  {
  }

  /** The backend deadline of an enveloped value lies between its freshness deadline plus the stale window
      and one millisecond more, shifted by the time from pack to Set, whatever was drawn: the jitter of
      packForStore is the only one. It equals freshness deadline plus stale window exactly when no time
      passes in between and the drawn freshness ends on a whole millisecond. Where the total does not fit a
      positive Duration the backend falls back to its default TTL instead. */
  lemma EnvelopedDeadline(cfg: CacheConfig, codec: Codec, v: Value, ttl: Duration, loadDur: Duration,
                          packAt: Time, u: real, setAt: Time, w: real)
    requires codec.Faithful() && codec.marshal(v).Some? && SaneClock(packAt) && packAt <= setAt
    requires cfg.EnvelopeEnabled()
    ensures
      var packed := PackForStore(codec.marshal(v).value, ttl, loadDur, cfg, packAt, u);
      var item := NewItem(packed.data, packed.ttl, cfg, setAt, w);
      var view := Classify(cfg, codec, packed.data);
      var term, window := FreshFor(ttl, cfg, u), cfg.staleTTL;
      && view.Readable?
      && (if term > 0 && 0 < term + window < TWO_63 then
            && item.deadline == Some(setAt + term + window)
            && view.env.freshUntil + window + (setAt - packAt)
               <= item.deadline.value
               < view.env.freshUntil + window + MILLISECOND + (setAt - packAt)
            && (item.deadline.value == view.env.freshUntil + window
                <==> setAt == packAt && (packAt + term) % MILLISECOND == 0)
          else
            && (term <= 0 ==> !view.env.HasDeadline())
            && item.deadline == if cfg.defaultTTL > 0 then Some(setAt + cfg.defaultTTL) else None)
  {
    var payload := codec.marshal(v).value;
    var packed := PackForStore(payload, ttl, loadDur, cfg, packAt, u);
    PackedTtl(payload, ttl, loadDur, cfg, packAt, u);
    EnvelopedItem(packed.data, packed.ttl, cfg, setAt, w);
    PackedReadsBack(cfg, codec, v, ttl, loadDur, packAt, u);
  }

  /** Packed and stored at one instant, a nanosecond past a millisecond, an entry outlives its freshness deadline
      plus the stale window by that nanosecond. */
  lemma DeadlineMissesByRounding(codec: Codec, v: Value, u: real, w: real)
    requires codec.Faithful() && codec.marshal(v).Some?
    ensures
      var cfg := CacheConfig(0, 0, MILLISECOND, 0.0, 0.0);
      var at := MILLISECOND + 1;
      var packed := PackForStore(codec.marshal(v).value, MILLISECOND, 0, cfg, at, u);
      var view := Classify(cfg, codec, packed.data);
      && view.Readable?
      && NewItem(packed.data, packed.ttl, cfg, at, w).deadline == Some(view.env.freshUntil + cfg.staleTTL + 1)
  {
    var cfg := CacheConfig(0, 0, MILLISECOND, 0.0, 0.0);
    EnvelopedDeadline(cfg, codec, v, MILLISECOND, 0, MILLISECOND + 1, u, MILLISECOND + 1, w);
    PackedReadsBack(cfg, codec, v, MILLISECOND, 0, MILLISECOND + 1, u);
  }

  /** A TTL that resolves to nothing positive means "never expires", in both storage forms, through the
      second fallback in newItem and under any jitter. */
  lemma NeverExpiresStays(cfg: CacheConfig, codec: Codec, v: Value, ttl: Duration, loadDur: Duration,
                          packAt: Time, u: real, setAt: Time, w: real)
    requires codec.Faithful() && codec.marshal(v).Some? && SaneClock(packAt)
    requires Resolve(ttl, cfg.defaultTTL) <= 0
    ensures
      var packed := PackForStore(codec.marshal(v).value, ttl, loadDur, cfg, packAt, u);
      && NewItem(packed.data, packed.ttl, cfg, setAt, w).deadline == None
      && Classify(cfg, codec, packed.data).Readable?
      && !Classify(cfg, codec, packed.data).env.HasDeadline()
  {
    PackedReadsBack(cfg, codec, v, ttl, loadDur, packAt, u);
    if cfg.EnvelopeEnabled() {
      PackedTtl(codec.marshal(v).value, ttl, loadDur, cfg, packAt, u);
    }
  }

  /** The TTL that a Set asks for, or else the cache's default. */
  function AskedTtl(ttl: Duration, cfg: CacheConfig): Duration {
    if ttl <= 0 then cfg.defaultTTL else ttl
  }

  /** A drawn TTL is the asked one stretched by no more than the jitter fraction, less the truncated nanosecond. */
  ghost predicate Stretched(drawn: int, asked: int, frac: real) {
    && asked as real * (1.0 - frac) - 1.0 < drawn as real <= asked as real * (1.0 + frac)
    && (frac == 0.0 || asked <= 0 ==> drawn == asked)
    && (asked >= 10 ==> drawn > 0)
  }

  lemma DrawnIsStretched(asked: Duration, frac: real, u: real)
    requires Draw(u) && 0.0 <= frac <= 0.9 && 0 < asked && asked as real * (1.0 + frac) < TWO_63 as real
    ensures Stretched(ApplyJitter(asked, frac, u), asked, frac)
  {
    JitterBounds(asked, frac, u);
    if frac > 0.0 {
      JitterKeepsTtl(asked, frac);
    }
  }

  lemma EnvelopeByBytes(val: Bytes)
    ensures HasEnvelope(val) <==> |val| >= 21 && val[..5] == [0, 'c' as int, 'k' as int, 'e' as int, '1' as int]
  {
    assert MAGIC == [0, 'c' as int, 'k' as int, 'e' as int, '1' as int];
  }

  /** When an entry expires: never, if neither the Set nor the cache asks for a positive TTL; after exactly the
      asked TTL, if it is enveloped; and otherwise after the asked TTL under jitter, if that leaves anything. */
  lemma ItemExpires(val: Bytes, ttl: Duration, cfg: CacheConfig, now: Time, u: real) returns (drawn: int)
    requires Draw(u) && 0.0 <= cfg.ttlJitter <= 0.9
    requires AskedTtl(ttl, cfg) as real * (1.0 + cfg.ttlJitter) < TWO_63 as real
    ensures
      var asked := AskedTtl(ttl, cfg);
      var enveloped := |val| >= 21 && val[..5] == [0, 'c' as int, 'k' as int, 'e' as int, '1' as int];
      && (asked > 0 ==> Stretched(drawn, asked, cfg.ttlJitter))
      && NewItem(val, ttl, cfg, now, u)
         == Item(val, if asked <= 0 then None
                      else if enveloped then Some(now + asked)
                      else if drawn > 0 then Some(now + drawn)
                      else None)
  {
    hide ApplyJitter, HasEnvelope, Stretched;
    var asked := AskedTtl(ttl, cfg);
    drawn := ApplyJitter(asked, cfg.ttlJitter, u);
    EnvelopeByBytes(val);
    if asked > 0 {
      DrawnIsStretched(asked, cfg.ttlJitter, u);
    } else {
      JitterIdle(asked, cfg.ttlJitter, u);
    }
  }

  lemma JitterIdle(ttl: Duration, frac: real, u: real)
    ensures ttl <= 0 || frac <= 0.0 ==> ApplyJitter(ttl, frac, u) == ttl
  {
  }

  /** The TTLs whose entries expire: they resolve to at most F, survive jitter, and fit a Duration
      together with a stale window that is not negative. */
  predicate BoundedTtl(cfg: CacheConfig, ttl: Duration, F: int) {
    var r := Resolve(ttl, cfg.defaultTTL);
    && 0 < r <= F
    && SurvivesJitter(r, cfg.ttlJitter)
    && cfg.staleTTL >= 0
    && Jitterable(F, cfg.ttlJitter)
    && Stretch(F, cfg.ttlJitter) + cfg.staleTTL < TWO_63
  }

  /** The longest life of a value written under BoundedTtl: its window stretched by jitter, plus the stale window. */
  function Lifetime(cfg: CacheConfig, F: int): int {
    Longest(F, cfg.ttlJitter) + if cfg.EnvelopeEnabled() then cfg.staleTTL else 0
  }

  lemma LongestMonotone(a: int, b: int, frac: real)
    requires 0 <= a <= b && 0.0 <= frac
    ensures Longest(a, frac) <= Longest(b, frac) && Stretch(a, frac) <= Stretch(b, frac)
  {
    ScaledMonotone(a, b, 1.0 + frac, 1.0 + frac);
  }

  lemma BoundedDraw(cfg: CacheConfig, ttl: Duration, F: int, u: real)
    requires BoundedTtl(cfg, ttl, F) && Draw(u)
    ensures 0 < FreshFor(ttl, cfg, u) <= Longest(F, cfg.ttlJitter)
  {
    LongestMonotone(Resolve(ttl, cfg.defaultTTL), F, cfg.ttlJitter);
    JitterBounds(Resolve(ttl, cfg.defaultTTL), cfg.ttlJitter, u);
  }

  /** The TTLs that packing a value under BoundedTtl can hand to the backend. */
  predicate TotalOk(cfg: CacheConfig, ttl: Duration, F: int, total: Duration) {
    if cfg.EnvelopeEnabled() then 0 < total <= Longest(F, cfg.ttlJitter) + cfg.staleTTL else total == ttl
  }

  lemma PackedTotalOk(payload: Bytes, ttl: Duration, loadDur: Duration, cfg: CacheConfig, now: Time, u: real, F: int)
    requires BoundedTtl(cfg, ttl, F) && Draw(u)
    ensures TotalOk(cfg, ttl, F, PackForStore(payload, ttl, loadDur, cfg, now, u).ttl)
  {
    BoundedDraw(cfg, ttl, F, u);
    if cfg.EnvelopeEnabled() {
      PackedTtl(payload, ttl, loadDur, cfg, now, u);
    }
  }

  /** Whatever was drawn, a value expires within Lifetime of its Set, under the packed TTL of its own
      packing or of any other one for the same requested TTL. */
  lemma LifetimeBound(cfg: CacheConfig, data: Bytes, ttl: Duration, F: int, total: Duration, setAt: Time, w: real)
    requires BoundedTtl(cfg, ttl, F) && Draw(w)
    requires cfg.EnvelopeEnabled() == HasEnvelope(data) && TotalOk(cfg, ttl, F, total)
    ensures
      var item := NewItem(data, total, cfg, setAt, w);
      item.deadline.Some? && setAt < item.deadline.value <= setAt + Lifetime(cfg, F)
  {
    BoundedDraw(cfg, ttl, F, w);
    if cfg.EnvelopeEnabled() {
      EnvelopedItem(data, total, cfg, setAt, w);
    }
  }

  /** Cached absence, when it is enabled, expires under every draw. */
  predicate BoundedAbsence(cfg: CacheConfig) {
    cfg.negativeTTL > 0 ==> Jitterable(cfg.negativeTTL, cfg.ttlJitter) && SurvivesJitter(cfg.negativeTTL, cfg.ttlJitter)
  }

  function AbsenceLifetime(cfg: CacheConfig): int {
    if cfg.negativeTTL > 0 then Longest(cfg.negativeTTL, cfg.ttlJitter) else 0
  }

  lemma AbsenceBound(cfg: CacheConfig, codec: Codec, setAt: Time, w: real)
    requires cfg.negativeTTL > 0 && BoundedAbsence(cfg) && Draw(w)
    ensures
      var item := NewItem(NEGATIVE_MARKER, cfg.negativeTTL, cfg, setAt, w);
      item.deadline.Some? && setAt < item.deadline.value <= setAt + AbsenceLifetime(cfg)
  {
    NegativeIsAbsent(cfg, codec);
    JitterBounds(cfg.negativeTTL, cfg.ttlJitter, w);
  }

  lemma LifetimesAreNotNegative(cfg: CacheConfig, ttl: Duration, F: int)
    requires BoundedTtl(cfg, ttl, F) && BoundedAbsence(cfg)
    ensures Lifetime(cfg, F) > 0 && Longest(F, cfg.ttlJitter) > 0 && AbsenceLifetime(cfg) >= 0
  {
    BoundedDraw(cfg, ttl, F, 0.0);
    if cfg.negativeTTL > 0 {
      JitterBounds(cfg.negativeTTL, cfg.ttlJitter, 0.0);
    }
  }
}
