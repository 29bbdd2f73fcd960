/** envelope.go: probabilistic early refresh, for a fixed draw w = -ln U of the exponential variate. */
module EarlyRefresh {
  import opened Base
  import opened Envelope

  /** The load cost that drives early refresh; an unknown cost counts as one millisecond. */
  function Cost(delta: Duration): int {
    if delta <= 0 then MILLISECOND else delta
  }

  predicate ShouldEarlyRefresh(env: Metadata, now: Time, beta: real, w: real) {
    && beta > 0.0
    && env.HasDeadline()
    && now + Spread(Cost(env.delta), beta, w) > env.freshUntil
  }

  /** How far ahead of the deadline the draw looks, truncated to a nanosecond. */
  function Spread(cost: int, beta: real, w: real): int {
    (cost as real * beta * w).Floor
  }

  /** When a hit is refreshed in the background, in plain arithmetic: only an entry with a freshness deadline, and
      that if the deadline has passed, or if early refresh is on and the deadline is nearer than the load cost, at
      least a millisecond where it is unknown, times beta and the draw. */
  predicate RefreshDue(env: Metadata, now: Time, beta: real, w: real) {
    && env.freshUntil != -62_135_596_800_000_000_000
    && var cost := if env.delta > 0 then env.delta as int else 1_000_000;
    now > env.freshUntil || (beta > 0.0 && now + (cost as real * beta * w).Floor > env.freshUntil)
  }

  lemma DueIsStaleOrEarly(env: Metadata, now: Time, beta: real, w: real)
    ensures env.Stale(now) || ShouldEarlyRefresh(env, now, beta, w) <==> RefreshDue(env, now, beta, w)
  {
  }

  lemma ProductMonotone(a: real, b: real, c: real, d: real)
    requires 0.0 <= a <= b && 0.0 <= c <= d
    ensures 0.0 <= a * c <= b * d
  {
    assert b * d - a * c == b * (d - c) + (b - a) * c;
    assert b * (d - c) >= 0.0;
    assert (b - a) * c >= 0.0;
    assert a * c >= 0.0;
  }

  lemma SpreadMonotone(c1: int, c2: int, b1: real, b2: real, w: real)
    requires 0 <= c1 <= c2 && 0.0 <= b1 <= b2 && 0.0 <= w
    ensures 0 <= Spread(c1, b1, w) <= Spread(c2, b2, w)
  {
    ProductMonotone(c1 as real, c2 as real, b1, b2);
    ProductMonotone(c1 as real * b1, c2 as real * b2, w, w);
  }

  predicate WholeMilliseconds(delta: Duration) {
    delta % MILLISECOND == 0
  }

  /** A decision to refresh persists as time passes, beta grows and the stored load cost grows. */
  lemma RefreshPersists(env: Metadata, cost: Duration, now: Time, later: Time, b1: real, b2: real, w: real)
    requires WholeMilliseconds(env.delta) && WholeMilliseconds(cost) && env.delta <= cost
    requires now <= later && b1 <= b2 && 0.0 <= w
    requires ShouldEarlyRefresh(env, now, b1, w)
    ensures ShouldEarlyRefresh(env.(delta := cost), later, b2, w)
  {
    SpreadMonotone(Cost(env.delta), Cost(cost), b1, b2, w);
  }

  /** The stored cost fits a Duration. */
  predicate CostFits(data: Bytes)
    requires HasEnvelope(data)
  {
    -TWO_63 <= GetInt64(data[13..21]) * MILLISECOND < TWO_63
  }

  lemma ParsedCostIsWhole(data: Bytes)
    requires HasEnvelope(data) && CostFits(data)
    ensures WholeMilliseconds(Parse(data).0.delta)
  {
    hide GetInt64;
    assert Wrap64(GetInt64(data[13..21]) * MILLISECOND) == GetInt64(data[13..21]) * MILLISECOND;
  }

  lemma StaleRefreshesEarly(env: Metadata, now: Time, beta: real, w: real)
    requires env.Stale(now) && beta > 0.0 && 0.0 <= w
    ensures ShouldEarlyRefresh(env, now, beta, w)
  {
    SpreadMonotone(0, Cost(env.delta), beta, beta, w);
  }

  /** So it does over any two stored envelopes with one freshness deadline: costs come out of parsed bytes as
      whole milliseconds, and the one-millisecond default for an unknown cost is the least of them. An entry that
      is stale already, too, would be refreshed early ever after, when the feature is on. */
  lemma ParsedDecisionsPersist(data: Bytes, later: Bytes, t: Time, t': Time, b1: real, b2: real, w: real)
    requires HasEnvelope(data) && HasEnvelope(later) && CostFits(data) && CostFits(later)
    requires Parse(data).0.freshUntil == Parse(later).0.freshUntil && Parse(data).0.delta <= Parse(later).0.delta
    requires t <= t' && b1 <= b2 && 0.0 <= w
    requires ShouldEarlyRefresh(Parse(data).0, t, b1, w) || (Parse(data).0.Stale(t) && b1 > 0.0)
    ensures ShouldEarlyRefresh(Parse(later).0, t', b2, w)
  {
    hide Parse, CostFits, Spread, Cost, WholeMilliseconds;
    ParsedCostIsWhole(data);
    ParsedCostIsWhole(later);
    if Parse(data).0.Stale(t) && b1 > 0.0 {
      StaleRefreshesEarly(Parse(data).0, t, b1, w);
    }
    RefreshPersists(Parse(data).0, Parse(later).0.delta, t, t', b1, b2, w);
  }

  /** Without whole milliseconds the cost order can fail. It holds at every instant, deadline, beta and
      draw exactly when the smaller cost is not an unknown one below a sub-millisecond one. */
  lemma CostOrderExactly(d1: Duration, d2: Duration)
    requires d1 <= d2
    ensures (forall fu: Time, now: Time, beta: real, w: real ::
               0.0 <= w && ShouldEarlyRefresh(Metadata(fu, d1), now, beta, w)
               ==> ShouldEarlyRefresh(Metadata(fu, d2), now, beta, w))
            <==> !(d1 <= 0 < d2 < MILLISECOND)
  {
    if d1 <= 0 < d2 < MILLISECOND {
      var fu, now := MILLISECOND, 1;
      assert Spread(Cost(d1), 1.0, 1.0) == MILLISECOND && Spread(Cost(d2), 1.0, 1.0) == d2;
      assert ShouldEarlyRefresh(Metadata(fu, d1), now, 1.0, 1.0);
      assert !ShouldEarlyRefresh(Metadata(fu, d2), now, 1.0, 1.0);
    } else {
      forall fu: Time, now: Time, beta: real, w: real
        | 0.0 <= w && ShouldEarlyRefresh(Metadata(fu, d1), now, beta, w)
        ensures ShouldEarlyRefresh(Metadata(fu, d2), now, beta, w)
      {
        SpreadMonotone(Cost(d1), Cost(d2), beta, beta, w);
      }
    }
  }
}
