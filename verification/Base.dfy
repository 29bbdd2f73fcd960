/** Types shared by every module: optional values, bytes, instants and Go's int64 durations. */
module Base {

  datatype Option<+T> = None | Some(value: T)

  datatype Result<+T, +E> = Ok(value: T) | Err(error: E)

  type Byte = b: int | 0 <= b < 256

  type Bytes = seq<Byte>

  type Key = string

  /** Nanoseconds since the Unix epoch. A Go time.Time spans more than an int64 of these. */
  type Time = int

  /** The instant January 1, year 1 UTC: the zero time.Time, read everywhere as "not set". */
  const ZERO_TIME: Time := -62135596800 * 1_000_000_000

  const MILLISECOND := 1_000_000

  const TWO_63 := 0x8000_0000_0000_0000

  const TWO_64 := 0x1_0000_0000_0000_0000

  /** Go's time.Duration: an int64 count of nanoseconds. */
  type Duration = d: int | -TWO_63 <= d < TWO_63

  type Int64 = d: int | -TWO_63 <= d < TWO_63

  /** Two's-complement wrap-around of int64 arithmetic. */
  function Wrap64(x: int): (r: Int64)
    ensures -TWO_63 <= x < TWO_63 ==> r == x
    ensures exists q: int :: r == x - q * TWO_64
  {
    var r := (x + TWO_63) % TWO_64 - TWO_63;
    assert r == x - (x + TWO_63) / TWO_64 * TWO_64;
    r
  }

  /** time.Since: the time between two instants, cut off at the ends of the Duration range. */
  function Elapsed(since: Time, now: Time): Duration {
    if now - since >= TWO_63 then TWO_63 - 1 else if now - since < -TWO_63 then -TWO_63 else now - since
  }

  /** time.Time.UnixMilli before it is narrowed to int64: milliseconds rounded down. */
  function FloorMs(t: Time): int {
    t / MILLISECOND
  }

  /** time.Duration.Milliseconds: division that truncates toward zero. */
  function TruncMs(d: int): int {
    if d >= 0 then d / MILLISECOND else -((-d) / MILLISECOND)
  }
}
