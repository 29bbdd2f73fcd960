/** options.go and hooks.go: cache options, their clamping, TTL jitter and the derived configuration. */
module Config {
  import opened Base
  import opened Codecs

  /** The options that the cache-aside helpers read; connection settings are plumbing. */
  datatype Options = Options(
    prefix: string,
    defaultTTL: Duration,
    codec: Option<Codec>,
    ttlJitter: real,
    negativeTTL: Duration,
    staleTTL: Duration,
    earlyRefreshBeta: real)

  type OptionFn = Options -> Options

  const DEFAULTS := Options("", 0, None, 0.0, 0, 0, 0.0)

  function Applied(opts: seq<OptionFn>): Options {
    if |opts| == 0 then DEFAULTS else opts[|opts| - 1](Applied(opts[..|opts| - 1]))
  }

  predicate Clamped(o: Options) {
    0.0 <= o.ttlJitter <= 0.9 && 0.0 <= o.earlyRefreshBeta
  }

  ghost predicate Built(opts: seq<OptionFn>, defaultCodec: Codec, o: Options) {
    var raw := Applied(opts);
    && Clamped(o)
    && o == raw.(codec := o.codec, ttlJitter := o.ttlJitter, earlyRefreshBeta := o.earlyRefreshBeta)
    && o.codec == Some(if raw.codec.Some? then raw.codec.value else defaultCodec)
    && (Clamped(raw) ==> o == raw.(codec := o.codec))
    && forall r: Options :: Clamped(r) ==>
         && Distance(o.ttlJitter, raw.ttlJitter) <= Distance(r.ttlJitter, raw.ttlJitter)
         && Distance(o.earlyRefreshBeta, raw.earlyRefreshBeta) <= Distance(r.earlyRefreshBeta, raw.earlyRefreshBeta)
  }

  /** buildOptions: apply every option in order, fill in the codec if none was set, then clamp the two
      fractions. Clamping moves a fraction no further than the nearest admissible value. Nothing else changes. */
  method BuildOptions(opts: seq<OptionFn>, defaultCodec: Codec) returns (o: Options)
    ensures Built(opts, defaultCodec, o)
  {
    o := DEFAULTS;
    for i := 0 to |opts|
      invariant o == Applied(opts[..i])
    {
      assert opts[..i + 1][..i] == opts[..i];
      o := opts[i](o);
    }
    assert opts[..|opts|] == opts;
    if o.codec.None? {
      o := o.(codec := Some(defaultCodec));
    }
    if o.ttlJitter < 0.0 {
      o := o.(ttlJitter := 0.0);
    }
    if o.ttlJitter > 0.9 {
      o := o.(ttlJitter := 0.9);
    }
    if o.earlyRefreshBeta < 0.0 {
      o := o.(earlyRefreshBeta := 0.0);
    }
  }

  function Distance(a: real, b: real): real {
    if a <= b then b - a else a - b
  }

  /** Options apply in order, each to the result of those before it. Without any, there is no prefix and no default,
      negative or stale TTL, no jitter and no early refresh, and the codec is the default one. */
  lemma OptionsBuild(f: OptionFn, g: OptionFn, defaultCodec: Codec, o: Options, p: Options)
    requires Built([], defaultCodec, o) && Built([f, g], defaultCodec, p)
    ensures o == Options("", 0, Some(defaultCodec), 0.0, 0, 0, 0.0)
    ensures
      var q := g(f(Options("", 0, None, 0.0, 0, 0, 0.0)));
      && p.prefix == q.prefix && p.defaultTTL == q.defaultTTL && p.negativeTTL == q.negativeTTL
      && p.staleTTL == q.staleTTL && p.codec == Some(if q.codec.Some? then q.codec.value else defaultCodec)
      && p.ttlJitter == (if q.ttlJitter < 0.0 then 0.0 else if q.ttlJitter > 0.9 then 0.9 else q.ttlJitter)
      && p.earlyRefreshBeta == if q.earlyRefreshBeta < 0.0 then 0.0 else q.earlyRefreshBeta
  {
    assert [f, g][..1] == [f] && [f][..0] == [];
    assert Applied([f]) == f(DEFAULTS) && Applied([f, g]) == g(f(DEFAULTS));
    var q := g(f(DEFAULTS));
    var jitter := if q.ttlJitter < 0.0 then 0.0 else if q.ttlJitter > 0.9 then 0.9 else q.ttlJitter;
    var beta := if q.earlyRefreshBeta < 0.0 then 0.0 else q.earlyRefreshBeta;
    assert Clamped(q.(codec := Some(defaultCodec), ttlJitter := jitter, earlyRefreshBeta := beta));
  }

  /** cacheConfig: what the GetOrSet helpers know of the cache they run on. */
  datatype CacheConfig = CacheConfig(
    negativeTTL: Duration,
    defaultTTL: Duration,
    staleTTL: Duration,
    earlyRefreshBeta: real,
    ttlJitter: real)
  {
    predicate EnvelopeEnabled() {
      staleTTL > 0 || earlyRefreshBeta > 0.0
    }

    predicate Jittered() {
      0.0 <= ttlJitter <= 0.9
    }
  }

  /** configOf for a third-party Cache: everything off. */
  const NO_CONFIG := CacheConfig(0, 0, 0, 0.0, 0.0)

  function ConfigOf(o: Options): CacheConfig {
    CacheConfig(o.negativeTTL, o.defaultTTL, o.staleTTL, o.earlyRefreshBeta, o.ttlJitter)
  }

  /** The configuration has the setting of each option. */
  predicate ConfiguredBy(cfg: CacheConfig, o: Options) {
    && cfg.negativeTTL == o.negativeTTL && cfg.defaultTTL == o.defaultTTL && cfg.staleTTL == o.staleTTL
    && cfg.earlyRefreshBeta == o.earlyRefreshBeta && cfg.ttlJitter == o.ttlJitter
  }

  // ------------------------------------------------------------------
  // TTL resolution and jitter
  // ------------------------------------------------------------------

  function Resolve(ttl: Duration, defaultTTL: Duration): Duration {
    if ttl <= 0 then defaultTTL else ttl
  }

  /** Go's float-to-Duration conversion; out of range it yields the most negative value (amd64). */
  function ToDuration(x: real): Duration {
    var n := if x >= 0.0 then x.Floor else -((-x).Floor);
    if -TWO_63 <= n < TWO_63 then n else -TWO_63
  }

  function Scaled(ttl: int, factor: real): real {
    ttl as real * factor
  }

  /** applyJitter, with the uniform draw u of rand.Float64 as an argument. */
  function ApplyJitter(ttl: Duration, frac: real, u: real): Duration {
    if ttl <= 0 || frac <= 0.0 then ttl
    else ToDuration(Scaled(ttl, JitterFactor(frac, u)))
  }

  function JitterFactor(frac: real, u: real): real {
    1.0 + (u * 2.0 - 1.0) * frac
  }

  predicate Draw(u: real) {
    0.0 <= u < 1.0
  }

  /** An upper bound on what jitter can return for ttl, in whole nanoseconds. */
  function Stretch(ttl: int, frac: real): int {
    Scaled(ttl, 1.0 + frac).Floor
  }

  /** The largest integer below x. */
  function Below(x: real): (n: int)
    ensures n as real < x <= (n + 1) as real
  {
    -((-x).Floor) - 1
  }

  /** The largest TTL that some draw gives for ttl: below ttl stretched by the fraction, which no draw reaches. */
  function Longest(ttl: int, frac: real): int {
    if frac <= 0.0 then ttl else Below(Scaled(ttl, 1.0 + frac))
  }

  /** The smallest TTL that some draw gives for ttl. */
  function Shortest(ttl: int, frac: real): int {
    if frac <= 0.0 then ttl else Scaled(ttl, 1.0 - frac).Floor
  }

  predicate Jitterable(ttl: int, frac: real) {
    0.0 <= frac <= 0.9 && Stretch(ttl, frac) < TWO_63
  }

  /** Whether the smallest stretch of ttl is still a whole nanosecond. */
  predicate SurvivesJitter(ttl: int, frac: real) {
    Scaled(ttl, 1.0 - frac) >= 1.0
  }

  lemma ScaledMonotone(s: int, t: int, f: real, g: real)
    requires 0 <= s <= t && 0.0 <= f <= g
    ensures 0.0 <= Scaled(s, f) <= Scaled(t, g)
  {
    var a, b := s as real, t as real;
    assert a * f >= 0.0;
    assert b * g - a * f == b * (g - f) + (b - a) * f;
    assert b * (g - f) >= 0.0;
    assert (b - a) * f >= 0.0;
  }

  lemma NonNegative(a: real, b: real)
    requires 0.0 <= a && 0.0 <= b
    ensures a * b >= 0.0
  {
  }

  lemma DrawWithin(frac: real, u: real)
    requires 0.0 <= frac && Draw(u)
    ensures 1.0 - frac <= JitterFactor(frac, u) <= 1.0 + frac
  {
    var x := u * 2.0 - 1.0;
    NonNegative(x + 1.0, frac);
    NonNegative(1.0 - x, frac);
    assert (x + 1.0) * frac == x * frac + frac;
    assert (1.0 - x) * frac == frac - x * frac;
  }

  lemma StrictlyBelow(ttl: int, frac: real, u: real)
    requires ttl > 0 && 0.0 < frac && Draw(u)
    ensures Scaled(ttl, JitterFactor(frac, u)) < Scaled(ttl, 1.0 + frac)
  {
    var rest := (2.0 - 2.0 * u) * frac;
    Positive(2.0 - 2.0 * u, frac);
    assert JitterFactor(frac, u) + rest == 1.0 + frac;
    Positive(ttl as real, rest);
    assert Scaled(ttl, JitterFactor(frac, u) + rest) == Scaled(ttl, JitterFactor(frac, u)) + ttl as real * rest;
  }

  lemma Positive(a: real, b: real)
    requires 0.0 < a && 0.0 < b
    ensures a * b > 0.0
  {
  }

  /** Jitter moves a positive TTL by at most the configured fraction, plus the truncated nanosecond. */
  lemma JitterBounds(ttl: Duration, frac: real, u: real)
    requires ttl > 0 && Jitterable(ttl, frac) && Draw(u)
    ensures Scaled(ttl, 1.0 - frac) - 1.0 < ApplyJitter(ttl, frac, u) as real <= Scaled(ttl, 1.0 + frac)
    ensures 0 <= Shortest(ttl, frac) <= ApplyJitter(ttl, frac, u) <= Longest(ttl, frac) <= Stretch(ttl, frac)
    ensures SurvivesJitter(ttl, frac) ==> ApplyJitter(ttl, frac, u) > 0
  {
    if frac <= 0.0 {
      assert Scaled(ttl, 1.0) == ttl as real;
    } else {
      var f := JitterFactor(frac, u);
      DrawWithin(frac, u);
      ScaledMonotone(ttl, ttl, 1.0 - frac, f);
      StrictlyBelow(ttl, frac, u);
      FloorOfScaled(Scaled(ttl, 1.0 - frac), Scaled(ttl, f), Scaled(ttl, 1.0 + frac));
    }
  }

  /** Both ends of the range are drawn. */
  lemma ExtremesAreDrawn(ttl: Duration, frac: real) returns (u: real)
    requires ttl > 0 && Jitterable(ttl, frac)
    ensures Draw(u) && ApplyJitter(ttl, frac, u) == Longest(ttl, frac)
    ensures Draw(0.0) && ApplyJitter(ttl, frac, 0.0) == Shortest(ttl, frac)
  {
    u := 0.0;
    JitterBounds(ttl, frac, 0.0);
    if frac > 0.0 {
      assert JitterFactor(frac, 0.0) == 1.0 - frac;
      var low, high, n := Scaled(ttl, 1.0 - frac), Scaled(ttl, 1.0 + frac), Longest(ttl, frac);
      ScaledMonotone(ttl, ttl, 1.0 - frac, 1.0 + frac);
      NonNegative(ttl as real, 1.0 - frac);
      if low <= n as real {
        u := DrawFor(ttl, frac, n as real);
      }
    }
  }

  /** The draw that stretches ttl to exactly y. */
  lemma DrawFor(ttl: int, frac: real, y: real) returns (u: real)
    requires ttl > 0 && 0.0 < frac
    requires Scaled(ttl, 1.0 - frac) <= y < Scaled(ttl, 1.0 + frac)
    ensures Draw(u) && Scaled(ttl, JitterFactor(frac, u)) == y
  {
    var width := ttl as real * frac;
    Positive(ttl as real, frac);
    assert Scaled(ttl, 1.0 - frac) == ttl as real - width;
    assert Scaled(ttl, 1.0 + frac) == ttl as real + width;
    var x := (y - ttl as real) / width;
    assert x * width == y - ttl as real;
    Quotient(y - ttl as real, width, x);
    u := (x + 1.0) / 2.0;
    assert JitterFactor(frac, u) == 1.0 + x * frac;
    assert Scaled(ttl, 1.0 + x * frac) == ttl as real + x * width;
  }

  lemma Quotient(a: real, b: real, q: real)
    requires b > 0.0 && q * b == a && -b <= a < b
    ensures -1.0 <= q < 1.0
  {
    if q >= 1.0 {
      NonNegative(q - 1.0, b);
    }
    if q < -1.0 {
      Positive(-1.0 - q, b);
    }
  }

  lemma FloorOfScaled(lo: real, x: real, hi: real)
    requires 0.0 <= lo <= x <= hi && hi.Floor < TWO_63
    ensures ToDuration(x) == x.Floor
    ensures lo - 1.0 < x.Floor as real <= hi
    ensures 0 <= x.Floor <= hi.Floor
    ensures lo >= 1.0 ==> x.Floor > 0
  {
  }

  /** A jittered TTL survives truncation under every draw exactly when its smallest stretch is a whole
      nanosecond: with the 0.9 cap, from 10 ns on. */
  lemma JitterKeepsTtl(ttl: Duration, frac: real)
    requires ttl > 0 && 0.0 < frac && Jitterable(ttl, frac)
    ensures (forall u: real :: Draw(u) ==> ApplyJitter(ttl, frac, u) > 0) <==> SurvivesJitter(ttl, frac)
    ensures ttl >= 10 ==> SurvivesJitter(ttl, frac)
  {
    if SurvivesJitter(ttl, frac) {
      forall u: real | Draw(u) ensures ApplyJitter(ttl, frac, u) > 0 {
        JitterBounds(ttl, frac, u);
      }
    } else {
      assert Draw(0.0);
      LeastDraw(ttl, frac);
    }
    if ttl >= 10 {
      ScaledMonotone(10, ttl, 1.0 - frac, 1.0 - frac);
    }
  }

  /** Whatever the options, jitter in a built configuration keeps to the range of its fraction, and so every draw
      stays within it for every TTL that does not overflow. */
  lemma BuiltJitterIsBounded(opts: seq<OptionFn>, defaultCodec: Codec, o: Options, ttl: Duration, u: real)
    requires Built(opts, defaultCodec, o) && ttl > 0 && Stretch(ttl, o.ttlJitter) < TWO_63 && Draw(u)
    ensures ConfigOf(o).Jittered() && Jitterable(ttl, o.ttlJitter)
    ensures Shortest(ttl, o.ttlJitter) <= ApplyJitter(ttl, o.ttlJitter, u)
    ensures ApplyJitter(ttl, o.ttlJitter, u) <= Longest(ttl, o.ttlJitter)
    ensures ttl >= 10 ==> ApplyJitter(ttl, o.ttlJitter, u) > 0
  {
    var frac := o.ttlJitter;
    JitterBounds(ttl, frac, u);
    if frac > 0.0 {
      JitterKeepsTtl(ttl, frac);
    }
  }

  lemma LeastDraw(ttl: Duration, frac: real)
    requires ttl > 0 && 0.0 < frac <= 0.9 && !SurvivesJitter(ttl, frac)
    ensures ApplyJitter(ttl, frac, 0.0) == 0
  {
    assert JitterFactor(frac, 0.0) == 1.0 - frac;
    ScaledMonotone(ttl, ttl, 0.0, 1.0 - frac);
  }
}
