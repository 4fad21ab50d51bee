/** Prefixed integers of section 5.1 of RFC 7541. */
module HpackInteger {
  // `hp_int` and `hp_enc_int`. A prefix of n bits is given by `full`, which is 2^n.

  import opened Bytes

  predicate IsPrefix(full: nat) {
    full == 16 || full == 32 || full == 64 || full == 128
  }

  /** The low bits of the first octet. */
  function Low(b: byte, full: nat): nat
    requires IsPrefix(full)
  {
    if full == 16 then b % 16 else if full == 32 then b % 32 else if full == 64 then b % 64 else b % 128
  }

  // ---------------------------------------------------------------------
  // Decoding
  // ---------------------------------------------------------------------

  /** The continuation octets, least significant group first. `left` octets fit
      before the 64-bit multiplier of the source is shifted out; the last of them
      is multiplied by 2^63, so only its lowest bit survives. */
  function DecodeTail(s: Text, left: nat): (r: Parsed<nat>)
    ensures r.Got? ==> |r.rest| < |s|
  {
    if s == [] || left == 0 then Bad
    else
      var low := if left == 1 then s[0] % 2 else s[0] % 128;
      if s[0] < 128 then Got(low, s[1..])
      else
        match DecodeTail(s[1..], left - 1)
        case Bad => Bad
        case Got(high, rest) => Got(low + 128 * high, rest)
  }

  function Decode(s: Text, full: nat): (r: Parsed<nat>)
    requires IsPrefix(full)
    ensures r.Got? ==> r.value < U32 && |r.rest| < |s|
  {
    if s == [] then Bad
    else if Low(s[0], full) < full - 1 then Got(Low(s[0], full), s[1..])
    else
      AddBase(DecodeTail(s[1..], 10), full - 1)
  }

  function AddBase(r: Parsed<nat>, base: nat): Parsed<nat> {
    if r.Got? && base + r.value < U32 then Got(base + r.value, r.rest) else Bad
  }

  /** Unsigned 64-bit arithmetic. */
  function Wrap(x: nat): nat {
    if x < U64 then x else x % U64
  }

  /** x * 128^k. */
  ghost function Scaled(x: nat, k: nat): nat
    decreases k
  {
    if k == 0 then x else Scaled(128 * x, k - 1)
  }

  lemma {:induction false} ScaledSum(low: nat, high: nat, k: nat)
    ensures Scaled(low + 128 * high, k) == Scaled(low, k) + Scaled(high, k + 1)
    decreases k
  {
    if k > 0 {
      ScaledSum(128 * low, 128 * high, k - 1);
      assert Scaled(high, k + 1) == Scaled(128 * high, k);
    }
  }

  lemma {:induction false} ScaledBy(x: nat, k: nat)
    ensures Scaled(x, k + 1) == 128 * Scaled(x, k)
    decreases k
  {
    if k > 0 {
      ScaledBy(128 * x, k - 1);
    }
  }

  lemma {:induction false} ScaledMonotone(x: nat, k: nat, m: nat)
    requires k <= m
    ensures Scaled(x, k) <= Scaled(x, m)
    ensures x >= 1 ==> Scaled(x, k) >= 1
    decreases m
  {
    if k < m {
      ScaledBy(x, m - 1);
      ScaledMonotone(x, k, m - 1);
    } else if k > 0 {
      ScaledMonotone(128 * x, k - 1, k - 1);
    }
  }

  lemma {:induction false} ScaledIsProduct(x: nat, k: nat)
    ensures Scaled(x, k) == x * Scaled(1, k)
    decreases k
  {
    if k > 0 {
      ScaledBy(x, k - 1);
      ScaledBy(1, k - 1);
      ScaledIsProduct(x, k - 1);
      Regroup(x, Scaled(1, k - 1));
    }
  }

  lemma Regroup(x: nat, y: nat)
    ensures 128 * (x * y) == x * (128 * y)
  {
  }

  /** The last weights before the multiplier is shifted out. */
  lemma LastWeights(x: nat)
    ensures Scaled(x, 8) == 0x100_0000_0000_0000 * x && Scaled(x, 9) == 0x8000_0000_0000_0000 * x
  {
    ScaledBy(x, 0); ScaledBy(x, 1); ScaledBy(x, 2); ScaledBy(x, 3); ScaledBy(x, 4);
    ScaledBy(x, 5); ScaledBy(x, 6); ScaledBy(x, 7); ScaledBy(x, 8);
  }

  /** What survives of a group: all of it, or its lowest bit at weight 2^63. */
  ghost function Group(b: byte, left: nat): nat {
    if left == 1 then b % 2 else b % 128
  }

  lemma WrappedProduct(x: nat, k: nat)
    requires k <= 9 && x < 128
    ensures Wrap(Scaled(x, k)) == Scaled(if k == 9 then x % 2 else x, k)
  {
    LastWeights(x);
    LastWeights(x % 2);
    if k < 9 {
      ScaledMonotone(x, k, 8);
    } else {
      assert Scaled(x, 9) == (x / 2) * U64 + Scaled(x % 2, 9);
    }
  }

  /** The two 64-bit products of one turn of the loop, wrap-around included. */
  method Products(b: byte, mult: nat, ghost k: nat) returns (add: nat, next: nat)
    requires k <= 9 && mult == Scaled(1, k)
    ensures add == Scaled(Group(b, 10 - k), k)
    ensures if k == 9 then next == 0 else next == Scaled(1, k + 1) > 0
  {
    assert b % 128 % 2 == b % 2;
    WrappedProduct(b % 128, k);
    ScaledIsProduct(b % 128, k);
    add := Wrap((b % 128) * mult);
    next := Wrap(mult * 128);
    assert next == if k == 9 then 0 else Scaled(1, k + 1) by { NextWeight(k); }
    ScaledMonotone(1, k + 1, k + 1);
  }

  lemma NextWeight(k: nat)
    requires k <= 9
    ensures Wrap(Scaled(1, k) * 128) == if k == 9 then 0 else Scaled(1, k + 1)
  {
    LastWeights(1);
    ScaledBy(1, k);
    if k < 9 {
      ScaledMonotone(1, k + 1, 9);
    }
  }

  /** The whole number is what has been summed plus the weighted remainder. */
  ghost predicate Suspended(whole: Parsed<nat>, base: nat, remaining: Parsed<nat>, value: nat, k: nat) {
    && (whole.Got? <==> remaining.Got?)
    && (whole.Got? ==> base + whole.value == value + Scaled(remaining.value, k) && whole.rest == remaining.rest)
  }

  /** One turn of the loop: a group is summed and the weight moves up. */
  lemma Absorb(whole: Parsed<nat>, base: nat, s: Text, left: nat, value: nat, k: nat)
    requires s != [] && left >= 1
    requires Suspended(whole, base, DecodeTail(s, left), value, k)
    ensures var sum := value + Scaled(Group(s[0], left), k);
            && (whole.Got? ==> base + whole.value >= sum)
            && (s[0] < 128 ==> whole.Got? && base + whole.value == sum && whole.rest == s[1..])
            && (s[0] >= 128 ==> Suspended(whole, base, DecodeTail(s[1..], left - 1), sum, k + 1))
  {
    var after := DecodeTail(s[1..], left - 1);
    if s[0] >= 128 && after.Got? {
      ScaledSum(Group(s[0], left), after.value, k);
    }
  }

  /** `hp_int` as written: a cursor and a 64-bit multiplier inside a loop. */
  method Read(data: Text, start: nat, full: nat) returns (ok: bool, value: nat, p: nat)
    requires IsPrefix(full) && start <= |data|
    ensures start <= p <= |data|
    ensures Agrees(Decode(data[start..], full), ok, value, data[p..]) && (ok ==> start < p)
  {
    if start >= |data| {
      return false, 0, start;
    }
    p := start + 1;
    assert data[start..][1..] == data[p..];
    if Low(data[start], full) < full - 1 {
      return true, Low(data[start], full), p;
    }
    ok, value, p := ReadTail(data, p, full - 1);
  }

  /** The continuation loop of `hp_int`. */
  method ReadTail(data: Text, start: nat, base: nat) returns (ok: bool, value: nat, p: nat)
    requires start <= |data| && base < U32
    ensures start <= p <= |data|
    ensures Agrees(AddBase(DecodeTail(data[start..], 10), base), ok, value, data[p..]) && (ok ==> start < p)
  {
    ok, value, p := false, base, start;
    var mult: nat, more := 1, true;
    ghost var k, whole := 0, DecodeTail(data[start..], 10);
    while more && p < |data|
      invariant start <= p <= |data| && (ok ==> start < p)
      invariant more ==> !ok && value < U32 && k <= 9 && mult == Scaled(1, k)
                         && Suspended(whole, base, DecodeTail(data[p..], 10 - k), value, k)
      invariant !more ==> Agrees(AddBase(whole, base), ok, value, data[p..])
      decreases |data| - p
    {
      Absorb(whole, base, data[p..], 10 - k, value, k);
      var b := data[p];
      var add, next := Products(b, mult, k);
      p := p + 1;
      assert data[p - 1..][1..] == data[p..];
      if value + add >= U32 {
        more := false;
      } else {
        value := value + add;
        ok := b < 128;
        more := !ok && next != 0;
        mult, k := next, k + 1;
      }
    }
  }

  // ---------------------------------------------------------------------
  // Encoding
  // ---------------------------------------------------------------------

  function EncodeTail(r: nat): (s: Text)
    ensures |s| >= 1
  {
    if r < 128 then [r] else [128 + r % 128] + EncodeTail(r / 128)
  }

  /** The representation bits of sections 5.2 and 6 and the prefix each leaves. */
  predicate IsPattern(pattern: byte, full: nat) {
    || (full == 16 && (pattern == 0 || pattern == 16))
    || (full == 32 && pattern == 32)
    || (full == 64 && pattern == 64)
    || (full == 128 && (pattern == 0 || pattern == 128))
  }

  function Encode(value: nat, full: nat, pattern: byte): (s: Text)
    requires IsPattern(pattern, full)
    ensures |s| >= 1 && pattern <= s[0] < pattern + full
  {
    if value < full - 1 then [pattern + value]
    else [pattern + full - 1] + EncodeTail(value - (full - 1))
  }

  /** Groups carrying the continuation bit, on the last one too unless it ends. */
  ghost function Marked(groups: Text, ends: bool): Text
    requires forall i :: 0 <= i < |groups| ==> groups[i] < 128
  {
    if groups == [] then []
    else if |groups| == 1 && ends then groups
    else [groups[0] + 128] + Marked(groups[1..], ends)
  }

  lemma {:induction false} MarkedAppend(groups: Text, g: byte)
    requires g < 128 && forall i :: 0 <= i < |groups| ==> groups[i] < 128
    ensures Marked(groups + [g], true) == Marked(groups, false) + [g]
    ensures Marked(groups + [g], false) == Marked(groups, false) + [g + 128]
  {
    if groups == [] {
      assert groups + [g] == [g];
    } else {
      assert (groups + [g])[1..] == groups[1..] + [g];
      MarkedAppend(groups[1..], g);
    }
  }

  /** One turn of the grouping loop. */
  lemma {:induction false} NextGroup(groups: Text, r: nat)
    requires r != 0 && forall i :: 0 <= i < |groups| ==> groups[i] < 128
    ensures Marked(groups, false) + EncodeTail(r)
            == if r / 128 == 0 then Marked(groups + [r % 128], true)
               else Marked(groups + [r % 128], false) + EncodeTail(r / 128)
  {
    MarkedAppend(groups, r % 128);
    Associate(Marked(groups, false), [128 + r % 128], EncodeTail(r / 128));
  }

  /** The grouping loop of `hp_enc_int`. */
  method Groups(whole: nat) returns (groups: Text)
    ensures |groups| >= 1 && forall i :: 0 <= i < |groups| ==> groups[i] < 128
    ensures Marked(groups, true) == EncodeTail(whole)
  {
    groups := [whole % 128];
    var r: nat := whole / 128;
    while r != 0
      invariant |groups| >= 1 && forall i :: 0 <= i < |groups| ==> groups[i] < 128
      invariant EncodeTail(whole) == if r == 0 then Marked(groups, true) else Marked(groups, false) + EncodeTail(r)
      decreases r
    {
      NextGroup(groups, r);
      groups := groups + [r % 128];
      r := r / 128;
    }
  }

  /** `hp_enc_int` as written: cut into groups, then mark and emit them. */
  method Write(value: nat, full: nat, pattern: byte) returns (s: Text)
    requires IsPattern(pattern, full)
    ensures s == Encode(value, full, pattern)
  {
    if value < full - 1 {
      return [pattern + value];
    }
    var groups := Groups(value - (full - 1));
    s := [pattern + full - 1];
    var i := 0;
    while i < |groups|
      invariant i <= |groups|
      invariant s + Marked(groups[i..], true) == [pattern + full - 1] + Marked(groups, true)
    {
      assert groups[i..][1..] == groups[i + 1..];
      s := s + [groups[i] + if i == |groups| - 1 then 0 else 128];
      i := i + 1;
    }
  }

  // ---------------------------------------------------------------------
  // Decoding undoes encoding
  // ---------------------------------------------------------------------

  /** Five groups hold any 32-bit value; `left` says how many are still allowed. */
  lemma {:induction false} TailRoundTrip(r: nat, left: nat, rest: Text)
    requires left >= 2 && r < Scaled(1, left - 1)
    ensures DecodeTail(EncodeTail(r) + rest, left) == Got(r, rest)
    decreases r
  {
    var s := EncodeTail(r) + rest;
    if r < 128 {
      assert s[1..] == rest;
    } else {
      ScaledBy(1, left - 2);
      assert s[0] == 128 + r % 128 && s[0] % 128 == r % 128 && r == r % 128 + 128 * (r / 128);
      assert s[1..] == EncodeTail(r / 128) + rest;
      TailRoundTrip(r / 128, left - 1, rest);
    }
  }

  /** Every 32-bit value comes back, and exactly its own octets are consumed. */
  lemma RoundTrip(value: nat, full: nat, pattern: byte, rest: Text)
    requires IsPattern(pattern, full) && value < U32
    ensures Decode(Encode(value, full, pattern) + rest, full) == Got(value, rest)
  {
    var s := Encode(value, full, pattern) + rest;
    PatternLow(pattern, full, s[0] - pattern);
    if value < full - 1 {
      assert s[1..] == rest;
    } else {
      assert s[1..] == EncodeTail(value - (full - 1)) + rest;
      LastWeights(1);
      TailRoundTrip(value - (full - 1), 10, rest);
    }
  }

  lemma PatternLow(pattern: byte, full: nat, low: nat)
    requires IsPattern(pattern, full) && low < full
    ensures Low(pattern + low, full) == low
  {
  }

  // ---------------------------------------------------------------------
  // Where the 64-bit multiplier departs from the standard
  // ---------------------------------------------------------------------

  /** The value section 5.1 gives to continuation octets. */
  ghost function Meaning(octets: Text): nat {
    if octets == [] then 0 else octets[0] % 128 + 128 * Meaning(octets[1..])
  }

  /** Among accepted inputs the value is the standard's one exactly when there is
      no tenth continuation octet, or one whose group is 0 or 1. */
  lemma {:induction false} TailExactness(s: Text, left: nat)
    requires 1 <= left && DecodeTail(s, left).Got?
    ensures var r := DecodeTail(s, left);
            var used := s[..|s| - |r.rest|];
            && 1 <= |used| <= left
            && (r.value == Meaning(used) <==> |used| < left || used[left - 1] % 128 <= 1)
    decreases left
  {
    var r := DecodeTail(s, left);
    var used := s[..|s| - |r.rest|];
    if s[0] < 128 {
      assert used == [s[0]] && used[1..] == [];
    } else {
      TailExactness(s[1..], left - 1);
      assert used[1..] == s[1..][..|s[1..]| - |r.rest|];
    }
  }

  /** An input the standard would refuse: the tenth octet says 2 * 2^63 and the
      decoder reads it as nothing. */
  lemma TenthOctetIsLost(z: Text)
    requires |z| == 10 && z[9] == 2 && forall i :: 0 <= i < 9 ==> z[i] == 128
    ensures Decode([255] + z, 128) == Got(127, []) && Meaning(z) == U64
  {
    assert ([255] + z)[1..] == z;
    assert z[0..] == z;
    TailOfZeros(z, 0);
    LastWeights(2);
  }

  lemma {:induction false} TailOfZeros(z: Text, k: nat)
    requires k <= 9 && |z| == 10 && z[9] == 2 && forall i :: 0 <= i < 9 ==> z[i] == 128
    ensures DecodeTail(z[k..], 10 - k) == Got(0, []) && Meaning(z[k..]) == Scaled(2, 9 - k)
    decreases 9 - k
  {
    assert z[k..][1..] == z[k + 1..];
    if k < 9 {
      TailOfZeros(z, k + 1);
      ScaledBy(2, 8 - k);
    }
  }
}
