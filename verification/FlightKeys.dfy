/** cache.go flightKey: the name under which a load is single-flighted. */
module FlightKeys {
  import opened Base

  const NUL := '\0'

  const DIGITS := "0123456789abcdef"

  /** The digits that %p prints after its "0x". */
  function Hex(n: nat): (s: string)
    ensures |s| > 0
  {
    if n < 16 then [DIGITS[n]] else Hex(n / 16) + [DIGITS[n % 16]]
  }

  function FlightKey(cache: nat, key: Key): string {
    "0x" + Hex(cache) + [NUL] + key
  }

  lemma DigitsDistinct(i: nat, j: nat)
    requires i < 16 && j < 16
    ensures DIGITS[i] == DIGITS[j] ==> i == j
    ensures DIGITS[i] != NUL
  {
  }

  lemma {:induction false} HexHasNoNul(n: nat)
    ensures NUL !in Hex(n)
  {
    DigitsDistinct(n % 16, 0);
    if n >= 16 {
      HexHasNoNul(n / 16);
    }
  }

  lemma {:induction false} HexInjective(m: nat, n: nat)
    requires Hex(m) == Hex(n)
    ensures m == n
  {
    var s, t := Hex(m), Hex(n);
    assert s[|s| - 1] == DIGITS[m % 16] && t[|t| - 1] == DIGITS[n % 16];
    DigitsDistinct(m % 16, n % 16);
    assert m < 16 <==> |s| == 1;
    assert n < 16 <==> |t| == 1;
    if m >= 16 {
      assert s[..|s| - 1] == Hex(m / 16) && t[..|t| - 1] == Hex(n / 16);
      HexInjective(m / 16, n / 16);
    }
  }

  lemma FirstNul(a: string, k: string)
    requires NUL !in a
    ensures (a + [NUL] + k)[|a|] == NUL
    ensures forall i :: 0 <= i < |a| ==> (a + [NUL] + k)[i] != NUL
  {
  }

  /** Where the first NUL stands decides the split. */
  lemma SplitAtNul(a: string, k: string, b: string, l: string)
    requires NUL !in a && NUL !in b
    requires a + [NUL] + k == b + [NUL] + l
    ensures a == b && k == l
  {
    var s := a + [NUL] + k;
    FirstNul(a, k);
    FirstNul(b, l);
    assert |a| == |b|;
    assert a == s[..|a|] && b == s[..|b|];
    assert k == s[|a| + 1..] && l == s[|b| + 1..];
  }

  /** Two caches never share a flight, and neither do two keys of one cache, even keys that contain NUL. */
  lemma FlightKeyInjective(c: nat, k: Key, d: nat, l: Key)
    ensures FlightKey(c, k) == FlightKey(d, l) <==> c == d && k == l
  {
    if FlightKey(c, k) == FlightKey(d, l) {
      HexHasNoNul(c);
      HexHasNoNul(d);
      SplitAtNul("0x" + Hex(c), k, "0x" + Hex(d), l);
      assert Hex(c) == ("0x" + Hex(c))[2..];
      assert Hex(d) == ("0x" + Hex(d))[2..];
      HexInjective(c, d);
    }
  }
}
