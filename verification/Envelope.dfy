/** envelope.go and negative.go: the byte format of stored entries. */
module Envelope {
  import opened Base

  // ------------------------------------------------------------------
  // Big-endian 64-bit fields
  // ------------------------------------------------------------------

  function Pow256(n: nat): (p: int)
    ensures p >= 1
  {
    if n == 0 then 1 else 256 * Pow256(n - 1)
  }

  /** The n low-order bytes of v, most significant first. */
  function BigEndian(v: nat, n: nat): (b: Bytes)
    ensures |b| == n
  {
    if n == 0 then [] else BigEndian(v / 256, n - 1) + [v % 256]
  }

  function FromBigEndian(b: Bytes): (v: nat)
    ensures v < Pow256(|b|)
  {
    if |b| == 0 then 0 else FromBigEndian(b[..|b| - 1]) * 256 + b[|b| - 1]
  }

  lemma {:induction false} BigEndianDecodes(v: nat, n: nat)
    requires v < Pow256(n)
    ensures FromBigEndian(BigEndian(v, n)) == v
  {
    if n > 0 {
      BigEndianDecodes(v / 256, n - 1);
      assert BigEndian(v, n)[..n - 1] == BigEndian(v / 256, n - 1);
    }
  }

  lemma {:induction false} BigEndianEncodes(b: Bytes)
    ensures BigEndian(FromBigEndian(b), |b|) == b
  {
    if |b| > 0 {
      BigEndianEncodes(b[..|b| - 1]);
      assert b == b[..|b| - 1] + [b[|b| - 1]];
    }
  }

  lemma Pow256Is64Bits()
    ensures Pow256(8) == TWO_64
  {
    assert Pow256(2) == 0x1_0000;
    assert Pow256(4) == 0x1_0000_0000;
    assert Pow256(6) == 0x1_0000_0000_0000;
  }

  /** Go's uint64(x) for an int64 x. */
  function Uint64(x: Int64): (u: nat)
    ensures u < TWO_64
  {
    if x < 0 then x + TWO_64 else x
  }

  /** Go's int64(u) for a uint64 u. */
  function FromUint64(u: nat): (x: Int64)
    requires u < TWO_64
  {
    if u >= TWO_63 then u - TWO_64 else u
  }

  function PutInt64(x: Int64): (b: Bytes)
    ensures |b| == 8
  {
    BigEndian(Uint64(x), 8)
  }

  function GetInt64(b: Bytes): Int64
    requires |b| == 8
  {
    Pow256Is64Bits();
    FromUint64(FromBigEndian(b))
  }

  lemma Int64RoundTrip(x: Int64)
    ensures GetInt64(PutInt64(x)) == x
  {
    Pow256Is64Bits();
    BigEndianDecodes(Uint64(x), 8);
  }

  lemma Int64FieldRoundTrip(b: Bytes)
    requires |b| == 8
    ensures PutInt64(GetInt64(b)) == b
  {
    Pow256Is64Bits();
    BigEndianEncodes(b);
  }

  // ------------------------------------------------------------------
  // The envelope
  // ------------------------------------------------------------------

  /** A NUL byte followed by "cke1". */
  const MAGIC: Bytes := [0, 99, 107, 101, 49]

  const HEADER_LEN := 21

  datatype Metadata = Metadata(freshUntil: Time, delta: Duration)
  {
    predicate HasDeadline() {
      freshUntil != ZERO_TIME
    }

    predicate Stale(now: Time) {
      HasDeadline() && now > freshUntil
    }
  }

  const NO_METADATA := Metadata(ZERO_TIME, 0)

  function StoredFreshness(freshUntil: Time): Int64 {
    if freshUntil == ZERO_TIME then 0 else Wrap64(FloorMs(freshUntil))
  }

  function Wrap(payload: Bytes, freshUntil: Time, delta: Duration): (data: Bytes)
    ensures |data| == HEADER_LEN + |payload|
    ensures HasEnvelope(data)
    ensures data[5..13] == PutInt64(StoredFreshness(freshUntil))
    ensures data[13..21] == PutInt64(TruncMs(delta))
    ensures data[HEADER_LEN..] == payload
  {
    MAGIC + PutInt64(StoredFreshness(freshUntil)) + PutInt64(TruncMs(delta)) + payload
  }

  predicate HasEnvelope(data: Bytes) {
    |data| >= HEADER_LEN && MAGIC <= data
  }

  function Parse(data: Bytes): (Metadata, Bytes) {
    if |data| < HEADER_LEN || !(MAGIC <= data) then
      (NO_METADATA, data)
    else
      var fu := GetInt64(data[5..13]);
      (Metadata(if fu != 0 then fu * MILLISECOND else ZERO_TIME,
                Wrap64(GetInt64(data[13..21]) * MILLISECOND)),
       data[HEADER_LEN..])
  }

  /** Big-endian store of one 64-bit field into a buffer, byte by byte. */
  method PutUint64(buf: array<Byte>, off: nat, v: nat)
    requires off + 8 <= buf.Length
    requires v < TWO_64
    modifies buf
    ensures buf[off..off + 8] == BigEndian(v, 8)
    ensures buf[..off] == old(buf[..off])
    ensures buf[off + 8..] == old(buf[off + 8..])
  {
    buf[off] := v / 0x100_0000_0000_0000 % 256;
    buf[off + 1] := v / 0x1_0000_0000_0000 % 256;
    buf[off + 2] := v / 0x100_0000_0000 % 256;
    buf[off + 3] := v / 0x1_0000_0000 % 256;
    buf[off + 4] := v / 0x100_0000 % 256;
    buf[off + 5] := v / 0x1_0000 % 256;
    buf[off + 6] := v / 0x100 % 256;
    buf[off + 7] := v % 256;
    EightBytes(v);
  }

  /** The recursive encoding of eight bytes, spelled out as eight shifts. */
  lemma EightBytes(v: nat)
    ensures BigEndian(v, 8) ==
            [v / 0x100_0000_0000_0000 % 256, v / 0x1_0000_0000_0000 % 256, v / 0x100_0000_0000 % 256,
             v / 0x1_0000_0000 % 256, v / 0x100_0000 % 256, v / 0x1_0000 % 256, v / 0x100 % 256, v % 256]
  {
    var w := v / 0x1_0000_0000;
    FourBytes(v, 4);
    FourBytes(w, 0);
    HighHalf(v);
  }

  lemma HighHalf(v: nat)
    ensures
      var w := v / 0x1_0000_0000;
      && w / 0x100_0000 == v / 0x100_0000_0000_0000
      && w / 0x1_0000 == v / 0x1_0000_0000_0000
      && w / 0x100 == v / 0x100_0000_0000
  {
  }

  lemma FourBytes(v: nat, n: nat)
    ensures BigEndian(v, n + 4) ==
            BigEndian(v / 0x1_0000_0000, n) +
            [v / 0x100_0000 % 256, v / 0x1_0000 % 256, v / 0x100 % 256, v % 256]
  {
    assert v / 256 / 256 == v / 0x1_0000;
    assert v / 0x1_0000 / 256 == v / 0x100_0000;
    assert v / 0x100_0000 / 256 == v / 0x1_0000_0000;
    assert BigEndian(v, n + 4) == BigEndian(v / 256, n + 3) + [v % 256];
    assert BigEndian(v / 256, n + 3) == BigEndian(v / 0x1_0000, n + 2) + [v / 0x100 % 256];
    assert BigEndian(v / 0x1_0000, n + 2) == BigEndian(v / 0x100_0000, n + 1) + [v / 0x1_0000 % 256];
    assert BigEndian(v / 0x100_0000, n + 1) == BigEndian(v / 0x1_0000_0000, n) + [v / 0x100_0000 % 256];
  }

  /** wrapEnvelope: fill the 21-byte header in place, then append the payload. */
  method WrapEnvelope(payload: Bytes, freshUntil: Time, delta: Duration) returns (data: Bytes)
    ensures data == Wrap(payload, freshUntil, delta)
  {
    var buf := new Byte[HEADER_LEN](_ => 0);
    forall i | 0 <= i < |MAGIC| {
      buf[i] := MAGIC[i];
    }
    assert buf[..5] == MAGIC;
    var fu: Int64 := 0;
    if freshUntil != ZERO_TIME {
      fu := Wrap64(FloorMs(freshUntil));
    }
    PutUint64(buf, 5, Uint64(fu));
    assert buf[..13] == MAGIC + PutInt64(fu);
    PutUint64(buf, 13, Uint64(TruncMs(delta)));
    assert buf[..] == buf[..13] + buf[13..21];
    data := buf[..] + payload;
  }

  // ------------------------------------------------------------------
  // Round trips
  // ------------------------------------------------------------------

  /** The freshness deadlines whose millisecond count fits the int64 field. */
  predicate Representable(t: Time) {
    -TWO_63 <= FloorMs(t) < TWO_63
  }

  lemma ParseWrapped(payload: Bytes, freshUntil: Time, delta: Duration)
    ensures
      var fu := StoredFreshness(freshUntil);
      Parse(Wrap(payload, freshUntil, delta)) ==
      (Metadata(if fu != 0 then fu * MILLISECOND else ZERO_TIME, TruncMs(delta) * MILLISECOND), payload)
  {
    Int64RoundTrip(StoredFreshness(freshUntil));
    Int64RoundTrip(TruncMs(delta));
  }

  /** Parsing wrapped bytes returns the payload untouched and the load cost truncated to milliseconds.
      The freshness deadline comes back rounded down to a millisecond, except in the first millisecond
      after the epoch, whose stored form 0 is the "no deadline" sentinel, and outside the int64 range.
      It still counts as a deadline unless it is stored as 0 or as the zero instant. */
  lemma WrapThenParse(payload: Bytes, freshUntil: Time, delta: Duration)
    ensures
      var (env, rest) := Parse(Wrap(payload, freshUntil, delta));
      && rest == payload
      && env.delta == TruncMs(delta) * MILLISECOND
      && (env.freshUntil == FloorMs(freshUntil) * MILLISECOND
          <==> Representable(freshUntil) && FloorMs(freshUntil) != 0)
      && (Representable(freshUntil) ==>
            (env.HasDeadline() <==> FloorMs(freshUntil) != 0 && FloorMs(freshUntil) != FloorMs(ZERO_TIME)))
  {
    ParseWrapped(payload, freshUntil, delta);
  }

  lemma PutInt64Injective(x: Int64, b: Bytes)
    requires |b| == 8
    ensures PutInt64(x) == b <==> x == GetInt64(b)
  {
    hide PutInt64, GetInt64;
    Int64RoundTrip(x);
    Int64FieldRoundTrip(b);
  }

  /** The deadline that a freshness field reads as. */
  function ReadFreshness(fu: Int64): Time {
    if fu != 0 then fu * MILLISECOND else ZERO_TIME
  }

  lemma FreshnessRewraps(fu: Int64)
    ensures StoredFreshness(ReadFreshness(fu)) == fu <==> fu != FloorMs(ZERO_TIME)
  {
    assert FloorMs(fu * MILLISECOND) == fu;
    assert Wrap64(fu) == fu;
  }

  lemma WrapByFields(data: Bytes, freshUntil: Time, delta: Duration)
    requires HasEnvelope(data)
    ensures Wrap(data[HEADER_LEN..], freshUntil, delta) == data
            <==> PutInt64(StoredFreshness(freshUntil)) == data[5..13] && PutInt64(TruncMs(delta)) == data[13..21]
  {
    hide PutInt64, StoredFreshness, TruncMs;
    var rewrapped := Wrap(data[HEADER_LEN..], freshUntil, delta);
    assert data == MAGIC + data[5..13] + data[13..21] + data[HEADER_LEN..];
  }

  /** Re-wrapping parsed bytes reproduces them exactly when the stored deadline is not the zero instant
      and the stored cost does not overflow a Duration. */
  lemma ParseThenWrap(data: Bytes)
    requires HasEnvelope(data)
    ensures
      var (env, payload) := Parse(data);
      Wrap(payload, env.freshUntil, env.delta) == data
      <==> GetInt64(data[5..13]) != FloorMs(ZERO_TIME)
           && -TWO_63 <= GetInt64(data[13..21]) * MILLISECOND < TWO_63
  {
    hide PutInt64, GetInt64, StoredFreshness, FloorMs, Wrap64, Wrap;
    var env := Parse(data).0;
    var fu, ms := GetInt64(data[5..13]), GetInt64(data[13..21]);
    WrapByFields(data, env.freshUntil, env.delta);
    PutInt64Injective(StoredFreshness(env.freshUntil), data[5..13]);
    FreshnessRewraps(fu);
    PutInt64Injective(TruncMs(env.delta), data[13..21]);
    TruncUndoesScale(ms);
  }

  lemma TruncUndoesScale(ms: Int64)
    ensures TruncMs(Wrap64(ms * MILLISECOND)) == ms <==> -TWO_63 <= ms * MILLISECOND < TWO_63
  {
  }

  // ------------------------------------------------------------------
  // The negative marker
  // ------------------------------------------------------------------

  /** NUL "cachekit:negative" NUL */
  const NEGATIVE_MARKER: Bytes :=
    [0, 99, 97, 99, 104, 101, 107, 105, 116, 58, 110, 101, 103, 97, 116, 105, 118, 101, 0]

  predicate IsNegative(data: Bytes) {
    data == NEGATIVE_MARKER
  }

  /** The characters of a text as bytes. */
  function Ascii(text: string): Bytes
    requires forall i :: 0 <= i < |text| ==> text[i] < 256 as char
  {
    seq(|text|, i requires 0 <= i < |text| => text[i] as int)
  }

  lemma MarkerSpells()
    ensures NEGATIVE_MARKER == Ascii("\0cachekit:negative\0") && MAGIC == Ascii("\0cke1")
  {
  }

  lemma LastByte(b: Bytes, n: nat)
    requires 0 < n <= |b|
    ensures FromBigEndian(b[..n]) == FromBigEndian(b[..n - 1]) * 256 + b[n - 1]
  {
    assert b[..n][..n - 1] == b[..n - 1];
  }

  /** The value of eight big-endian bytes, most significant first. */
  lemma EightByteValue(b: Bytes)
    requires |b| == 8
    ensures FromBigEndian(b)
            == b[0] as int * 0x100_0000_0000_0000 + b[1] as int * 0x1_0000_0000_0000
             + b[2] as int * 0x100_0000_0000 + b[3] as int * 0x1_0000_0000 + b[4] as int * 0x100_0000
             + b[5] as int * 0x1_0000 + b[6] as int * 0x100 + b[7] as int
  {
    hide FromBigEndian;
    assert b[..8] == b;
    LastByte(b, 8);
    LastByte(b, 7);
    LastByte(b, 6);
    LastByte(b, 5);
    LastByte(b, 4);
    LastByte(b, 3);
    LastByte(b, 2);
    LastByte(b, 1);
    NoBytes(b);
  }

  lemma NoBytes(b: Bytes)
    ensures FromBigEndian(b[..0]) == 0
  {
  }

  lemma FieldBytes()
    ensures PutInt64(1_700_000_000_123) == [0, 0, 1, 139, 207, 229, 104, 123]
    ensures PutInt64(2_500) == [0, 0, 0, 0, 0, 0, 9, 196]
    ensures PutInt64(-2) == [255, 255, 255, 255, 255, 255, 255, 254]
  {
    hide FromBigEndian, PutInt64;
    EightByteValue([0, 0, 1, 139, 207, 229, 104, 123]);
    EightByteValue([0, 0, 0, 0, 0, 0, 9, 196]);
    EightByteValue([255, 255, 255, 255, 255, 255, 255, 254]);
    Int64FieldRoundTrip([0, 0, 1, 139, 207, 229, 104, 123]);
    Int64FieldRoundTrip([0, 0, 0, 0, 0, 0, 9, 196]);
    Int64FieldRoundTrip([255, 255, 255, 255, 255, 255, 255, 254]);
  }

  /** One envelope, byte by byte: the letter x, fresh until 456 nanoseconds past a millisecond of the year 2023,
      after a load of two and a half seconds. */
  lemma GoldenEnvelope()
    ensures Wrap(Ascii("x"), 1_700_000_000_123 * MILLISECOND + 456, 2_500 * MILLISECOND)
            == Ascii("\0cke1") + [0, 0, 1, 139, 207, 229, 104, 123]
             + [0, 0, 0, 0, 0, 0, 9, 196] + Ascii("x")
  {
    hide PutInt64;
    FieldBytes();
    MarkerSpells();
  }
}
