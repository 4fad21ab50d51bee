/** Printing and reading numbers in text. */
module Digits {
  // As `snprintf` and `sv_to_i64` do.

  import opened Bytes

  const ZERO: byte := 48
  const MINUS: byte := 45
  const I64_MAX: nat := 0x7fff_ffff_ffff_ffff

  /** "%u" */
  function Decimal(n: nat): (s: Text)
    ensures |s| >= 1
    ensures forall i :: 0 <= i < |s| ==> ZERO <= s[i] <= ZERO + 9
  {
    if n < 10 then [ZERO + n] else Decimal(n / 10) + [ZERO + n % 10]
  }

  /** "%ld" */
  function Signed(n: int): Text {
    if n >= 0 then Decimal(n) else [MINUS] + Decimal(-n)
  }

  /** The accumulation loop of `sv_to_i64`, refusing before it would overflow. */
  function Accumulate(s: Text, n: nat): Option<nat> {
    if s == [] then Some(n)
    else if !(ZERO <= s[0] <= ZERO + 9) then None
    else
      var d := s[0] - ZERO;
      if n > (I64_MAX - d) / 10 then None else Accumulate(s[1..], n * 10 + d)
  }

  function Negate(n: int, neg: bool): int {
    if neg then -n else n
  }

  /** `sv_to_i64`. */
  function ToInt(s: Text): Option<int> {
    var neg := s != [] && s[0] == MINUS;
    var digits := if neg then s[1..] else s;
    if digits == [] then None
    else
      match Accumulate(digits, 0)
      case None => None
      case Some(n) => Some(Negate(n, neg))
  }

  /** `sv_to_i64` as written. */
  method ReadInt(s: Text) returns (r: Option<int>)
    ensures r == ToInt(s)
  {
    if s == [] {
      return None;
    }
    var neg := s[0] == MINUS;
    var start := if neg then 1 else 0;
    if start >= |s| {
      return None;
    }
    var n: nat, i := 0, start;
    assert s[0..] == s;
    while i < |s|
      invariant start <= i <= |s|
      invariant Accumulate(s[start..], 0) == Accumulate(s[i..], n)
    {
      assert s[i..][1..] == s[i + 1..];
      if !(ZERO <= s[i] <= ZERO + 9) {
        return None;
      }
      var d := s[i] - ZERO;
      if n > (I64_MAX - d) / 10 {
        return None;
      }
      n, i := n * 10 + d, i + 1;
    }
    r := Some(Negate(n, neg));
  }

  lemma {:induction false} AccumulateAppend(s: Text, t: Text, n: nat)
    ensures Accumulate(s + t, n)
            == match Accumulate(s, n) { case None => None case Some(m) => Accumulate(t, m) }
  {
    if s == [] {
      assert s + t == t;
    } else {
      assert (s + t)[1..] == s[1..] + t;
      if ZERO <= s[0] <= ZERO + 9 && n <= (I64_MAX - (s[0] - ZERO)) / 10 {
        AccumulateAppend(s[1..], t, n * 10 + (s[0] - ZERO));
      }
    }
  }

  lemma {:induction false} AccumulateDecimal(n: nat)
    requires n <= I64_MAX
    ensures Accumulate(Decimal(n), 0) == Some(n)
    decreases n
  {
    if n >= 10 {
      AccumulateDecimal(n / 10);
      AccumulateAppend(Decimal(n / 10), [ZERO + n % 10], 0);
      assert [ZERO + n % 10][1..] == [];
      assert n / 10 * 10 + n % 10 == n;
    } else {
      assert [ZERO + n][1..] == [];
    }
  }

  /** Every 64-bit number except the least one reads back. */
  lemma SignedRoundTrip(n: int)
    requires 0 - I64_MAX <= n <= I64_MAX
    ensures ToInt(Signed(n)) == Some(n)
  {
    if n >= 0 {
      AccumulateDecimal(n);
    } else {
      AccumulateDecimal(-n);
      assert Signed(n)[1..] == Decimal(-n);
    }
  }

  /** `hex_val` and `hex_digit`, or 16 for anything that is no digit. */
  function HexValue(c: byte): (v: nat)
    ensures v <= 16
  {
    if 48 <= c <= 57 then c - 48
    else if 97 <= c <= 102 then c - 87
    else if 65 <= c <= 70 then c - 55
    else 16
  }

  function HexDigit(v: nat): (c: byte)
    requires v < 16
    ensures HexValue(c) == v
  {
    if v < 10 then 48 + v else 87 + v
  }
}
