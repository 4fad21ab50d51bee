/** Byte ranges: reading a range header and coalescing its windows. */
module Ranges {
  import opened Bytes
  import opened Views
  import Digits

  const DASH: byte := 45
  const COMMA: byte := 44
  const MAX_RANGES: nat := 64
  const UNIT: Text := [98, 121, 116, 101, 115, 61] // "bytes="

  /** The window [base, base + n). */
  datatype Range = Range(base: nat, n: nat)

  function Least(a: nat, b: nat): nat {
    if a < b then a else b
  }

  // ---------------------------------------------------------------------
  // One range
  // ---------------------------------------------------------------------

  /** "N-" */
  function FromSpec(start: Text, fsize: nat): Option<Range> {
    match Digits.ToInt(start)
    case None => None
    case Some(from) => if from < 0 || from >= fsize then None else Some(Range(from, fsize - from))
  }

  /** "-N" */
  function SuffixSpec(spec: Text, fsize: nat): Option<Range> {
    match Digits.ToInt(spec)
    case None => None
    case Some(last) =>
      if last <= 0 || fsize == 0 then None
      else
        var n := Least(last, fsize);
        Some(Range(fsize - n, n))
  }

  /** "N-M" */
  function WindowSpec(start: Text, spec: Text, fsize: nat): Option<Range> {
    var from, to := Digits.ToInt(start), Digits.ToInt(spec);
    if from.None? || to.None? || from.value < 0 || to.value < from.value || from.value >= fsize then None
    else Some(Range(from.value, Least(to.value - from.value + 1, fsize - from.value)))
  }

  /** `range_spec`. */
  function RangeSpec(text: Text, fsize: nat): (r: Option<Range>)
    ensures r.Some? ==> r.value.n > 0 && r.value.base + r.value.n <= fsize
  {
    var whole := Trim(text);
    var start, spec := Trim(Before(whole, DASH)), Trim(After(whole, DASH));
    if start == [] && spec == [] then None
    else if spec == [] then FromSpec(start, fsize)
    else if start == [] then SuffixSpec(spec, fsize)
    else WindowSpec(start, spec, fsize)
  }

  /** "N-M" asks for the octets from N to M that the file has; white space around the
      numbers is ignored. */
  lemma WindowMeaning(left: Text, right: Text, from: nat, to: nat, fsize: nat, p: nat)
    requires DASH !in left && Trim(left) == Digits.Decimal(from) && Trim(right) == Digits.Decimal(to)
    requires from <= Digits.I64_MAX && to <= Digits.I64_MAX
    ensures var r := RangeSpec(left + [DASH] + right, fsize);
            (r.Some? && Hit(r.value, p)) <==> from <= p <= to && p < fsize
  {
    TrimAround(left, DASH, right);
    Digits.SignedRoundTrip(from);
    Digits.SignedRoundTrip(to);
  }

  /** "N-" asks for everything from N on. */
  lemma FromMeaning(left: Text, right: Text, from: nat, fsize: nat, p: nat)
    requires DASH !in left && Trim(left) == Digits.Decimal(from) && Trim(right) == []
    requires from <= Digits.I64_MAX
    ensures var r := RangeSpec(left + [DASH] + right, fsize);
            (r.Some? && Hit(r.value, p)) <==> from <= p < fsize
  {
    TrimAround(left, DASH, right);
    Digits.SignedRoundTrip(from);
  }

  /** "-N" asks for the last N octets. */
  lemma SuffixMeaning(left: Text, right: Text, n: nat, fsize: nat, p: nat)
    requires DASH !in left && Trim(left) == [] && Trim(right) == Digits.Decimal(n)
    requires n <= Digits.I64_MAX
    ensures var r := RangeSpec(left + [DASH] + right, fsize);
            (r.Some? && Hit(r.value, p)) <==> p < fsize && p + n >= fsize
  {
    TrimAround(left, DASH, right);
    Digits.SignedRoundTrip(n);
  }

  // ---------------------------------------------------------------------
  // Sets of octets
  // ---------------------------------------------------------------------

  predicate Hit(r: Range, p: int) {
    r.base <= p < r.base + r.n
  }

  ghost predicate Covers(rs: seq<Range>, p: int) {
    exists i :: 0 <= i < |rs| && Hit(rs[i], p)
  }

  ghost predicate Same(a: seq<Range>, b: seq<Range>) {
    forall p :: Covers(a, p) <==> Covers(b, p)
  }

  predicate Nonempty(rs: seq<Range>) {
    forall i :: 0 <= i < |rs| ==> rs[i].n > 0
  }

  predicate Inside(rs: seq<Range>, fsize: nat) {
    forall i :: 0 <= i < |rs| ==> rs[i].base + rs[i].n <= fsize
  }

  predicate Sorted(rs: seq<Range>) {
    forall i, j :: 0 <= i < j < |rs| ==> rs[i].base <= rs[j].base
  }

  /** Ascending, with at least one octet between neighbours. */
  predicate Separated(rs: seq<Range>) {
    forall i, j :: 0 <= i < j < |rs| ==> rs[i].base + rs[i].n < rs[j].base
  }

  lemma CoversAppend(rs: seq<Range>, r: Range, p: int)
    ensures Covers(rs + [r], p) <==> Covers(rs, p) || Hit(r, p)
  {
    var all := rs + [r];
    if Covers(rs, p) {
      var i :| 0 <= i < |rs| && Hit(rs[i], p);
      assert Hit(all[i], p);
    }
    if Hit(r, p) {
      assert Hit(all[|rs|], p);
    }
  }

  lemma CoversAfter(rs: seq<Range>, p: int)
    requires Separated(rs) && Nonempty(rs) && rs != []
    ensures Covers(rs[1..], p) <==> Covers(rs, p) && p > rs[0].base + rs[0].n
  {
    if Covers(rs[1..], p) {
      var i :| 0 <= i < |rs| - 1 && Hit(rs[1..][i], p);
      assert Hit(rs[i + 1], p);
    }
    if Covers(rs, p) && p > rs[0].base + rs[0].n {
      var i :| 0 <= i < |rs| && Hit(rs[i], p);
      assert Hit(rs[1..][i - 1], p);
    }
  }

  lemma FirstPoint(rs: seq<Range>)
    requires Separated(rs) && Nonempty(rs) && rs != []
    ensures Covers(rs, rs[0].base) && !Covers(rs, rs[0].base + rs[0].n)
    ensures forall p :: Covers(rs, p) ==> p >= rs[0].base
    ensures forall p :: rs[0].base <= p < rs[0].base + rs[0].n ==> Covers(rs, p)
  {
    assert Hit(rs[0], rs[0].base);
    assert forall p :: rs[0].base <= p < rs[0].base + rs[0].n ==> Hit(rs[0], p);
  }

  lemma SameFirst(a: seq<Range>, b: seq<Range>)
    requires Separated(a) && Nonempty(a) && Separated(b) && Nonempty(b) && Same(a, b)
    requires a != [] && b != []
    ensures a[0] == b[0] && Same(a[1..], b[1..])
  {
    FirstPoint(a);
    FirstPoint(b);
    forall p
      ensures Covers(a[1..], p) <==> Covers(b[1..], p)
    {
      CoversAfter(a, p);
      CoversAfter(b, p);
    }
  }

  lemma CoversNothing(rs: seq<Range>)
    requires Nonempty(rs)
    ensures rs == [] <==> forall p :: !Covers(rs, p)
  {
    if rs != [] {
      assert Hit(rs[0], rs[0].base);
      assert Covers(rs, rs[0].base);
    }
  }

  /** There is one separated list for each set of octets, so what coalescing gives
      does not depend on the order in which equal bases are sorted. */
  lemma {:induction false} SeparatedIsCanonical(a: seq<Range>, b: seq<Range>)
    requires Separated(a) && Nonempty(a) && Separated(b) && Nonempty(b) && Same(a, b)
    ensures a == b
    decreases |a|
  {
    CoversNothing(a);
    CoversNothing(b);
    if a != [] {
      SameFirst(a, b);
      SeparatedIsCanonical(a[1..], b[1..]);
      assert a == [a[0]] + a[1..] && b == [b[0]] + b[1..];
    }
  }

  // ---------------------------------------------------------------------
  // Sorting and coalescing
  // ---------------------------------------------------------------------

  ghost predicate Permutation(a: seq<Range>, b: seq<Range>) {
    multiset(a) == multiset(b)
  }

  lemma Members(a: seq<Range>, b: seq<Range>)
    requires Permutation(a, b)
    ensures forall i :: 0 <= i < |a| ==> a[i] in b
  {
    forall i | 0 <= i < |a|
      ensures a[i] in b
    {
      assert a[i] in multiset(a);
    }
  }

  lemma PermutationKeeps(a: seq<Range>, b: seq<Range>, fsize: nat)
    requires Permutation(a, b) && Nonempty(a) && Inside(a, fsize)
    ensures |a| == |b| && Nonempty(b) && Inside(b, fsize) && Same(a, b)
  {
    assert |a| == |multiset(a)| && |b| == |multiset(b)|;
    Members(a, b);
    Members(b, a);
    forall p
      ensures Covers(a, p) <==> Covers(b, p)
    {
      CoversByElement(a, b, p);
      CoversByElement(b, a, p);
    }
  }

  lemma CoversByElement(a: seq<Range>, b: seq<Range>, p: int)
    requires forall i :: 0 <= i < |a| ==> a[i] in b
    ensures Covers(a, p) ==> Covers(b, p)
  {
    if Covers(a, p) {
      var i :| 0 <= i < |a| && Hit(a[i], p);
      var j :| 0 <= j < |b| && b[j] == a[i];
      assert Hit(b[j], p);
    }
  }

  /** Where a window goes among those that are already in order. */
  method Place(r: seq<Range>, x: Range) returns (j: nat)
    requires Sorted(r)
    ensures j <= |r| && Sorted(r[..j] + [x] + r[j..])
  {
    j := 0;
    while j < |r| && r[j].base <= x.base
      invariant j <= |r| && forall k :: 0 <= k < j ==> r[k].base <= x.base
    {
      j := j + 1;
    }
  }

  /** Stands for `qsort` under `range_cmp`: some ascending permutation. */
  method SortByBase(raw: seq<Range>) returns (r: seq<Range>)
    ensures Sorted(r) && Permutation(raw, r)
  {
    r := [];
    var i := 0;
    while i < |raw|
      invariant i <= |raw| && Sorted(r) && Permutation(raw[..i], r)
    {
      var j := Place(r, raw[i]);
      assert raw[..i + 1] == raw[..i] + [raw[i]];
      assert r == r[..j] + r[j..];
      r := r[..j] + [raw[i]] + r[j..];
      i := i + 1;
    }
    assert raw[..i] == raw;
  }

  /** One more window that starts no earlier than any before it: it extends the last
      one, or stands apart. */
  function Join(out: seq<Range>, r: Range): seq<Range> {
    if out != [] && r.base <= out[|out| - 1].base + out[|out| - 1].n then
      var last := out[|out| - 1];
      var end, prev := r.base + r.n, last.base + last.n;
      out[|out| - 1 := Range(last.base, if end > prev then last.n + (end - prev) else last.n)]
    else out + [r]
  }

  lemma JoinCovers(out: seq<Range>, r: Range, p: int)
    requires out != [] ==> out[|out| - 1].base <= r.base
    ensures Covers(Join(out, r), p) <==> Covers(out, p) || Hit(r, p)
  {
    if out != [] && r.base <= out[|out| - 1].base + out[|out| - 1].n {
      var last := |out| - 1;
      var j := Join(out, r);
      CoversAppend(out[..last], out[last], p);
      CoversAppend(out[..last], j[last], p);
      assert out == out[..last] + [out[last]] && j == out[..last] + [j[last]];
    } else {
      CoversAppend(out, r, p);
    }
  }

  lemma JoinSame(out: seq<Range>, sorted: seq<Range>, i: nat)
    requires i < |sorted| && Same(out, sorted[..i])
    requires out != [] ==> out[|out| - 1].base <= sorted[i].base
    ensures Same(Join(out, sorted[i]), sorted[..i + 1])
  {
    assert sorted[..i + 1] == sorted[..i] + [sorted[i]];
    forall p
      ensures Covers(Join(out, sorted[i]), p) <==> Covers(sorted[..i + 1], p)
    {
      JoinCovers(out, sorted[i], p);
      CoversAppend(sorted[..i], sorted[i], p);
    }
  }

  predicate Tidy(out: seq<Range>, fsize: nat) {
    Separated(out) && Nonempty(out) && Inside(out, fsize)
  }

  lemma JoinTidy(out: seq<Range>, r: Range, fsize: nat)
    requires Tidy(out, fsize) && r.n > 0 && r.base + r.n <= fsize
    requires out != [] ==> out[|out| - 1].base <= r.base
    ensures Tidy(Join(out, r), fsize)
    ensures var j := Join(out, r); j != [] && j[|j| - 1].base <= r.base && |j| <= |out| + 1
  {
  }

  /** The body of the merge loop. */
  method Absorb(out: seq<Range>, r: Range) returns (now: seq<Range>)
    ensures now == Join(out, r)
  {
    now := out;
    if |out| > 0 && r.base <= out[|out| - 1].base + out[|out| - 1].n {
      var last := out[|out| - 1];
      var end, prev := r.base + r.n, last.base + last.n;
      if end > prev {
        now := out[|out| - 1 := Range(last.base, last.n + (end - prev))];
      }
    } else {
      now := out + [r];
    }
  }

  /** The merge loop of `parse_ranges`: the windows taken in before the output was
      full are covered exactly. */
  method Coalesce(sorted: seq<Range>, cap: nat, fsize: nat) returns (out: seq<Range>, ghost taken: nat)
    requires Sorted(sorted) && Nonempty(sorted) && Inside(sorted, fsize)
    ensures Tidy(out, fsize) && |out| <= cap && taken <= |sorted|
    ensures Same(out, sorted[..taken])
    ensures taken < |sorted| ==> |out| == cap <= taken
  {
    out := [];
    var i := 0;
    while i < |sorted| && |out| < cap
      invariant i <= |sorted| && |out| <= i && |out| <= cap && Tidy(out, fsize)
      invariant out != [] ==> i > 0 && out[|out| - 1].base <= sorted[i - 1].base
      invariant Same(out, sorted[..i])
    {
      JoinTidy(out, sorted[i], fsize);
      JoinSame(out, sorted, i);
      out := Absorb(out, sorted[i]);
      i := i + 1;
    }
    taken := i;
  }

  // ---------------------------------------------------------------------
  // The header
  // ---------------------------------------------------------------------

  /** The specs between commas; nothing follows a final comma. */
  function Specs(s: Text): seq<Text>
    decreases |s|
  {
    if s == [] then [] else [Before(s, COMMA)] + Specs(After(s, COMMA))
  }

  /** The windows of the satisfiable specs, in order. */
  function Satisfiable(specs: seq<Text>, fsize: nat): (rs: seq<Range>)
    ensures Nonempty(rs) && Inside(rs, fsize)
  {
    if specs == [] then []
    else
      match RangeSpec(specs[0], fsize)
      case None => Satisfiable(specs[1..], fsize)
      case Some(r) => [r] + Satisfiable(specs[1..], fsize)
  }

  function First(rs: seq<Range>, n: nat): seq<Range> {
    if |rs| <= n then rs else rs[..n]
  }

  datatype Answer = Whole | Unsatisfiable | Parts(ranges: seq<Range>)

  /** One turn of the collecting loop. */
  lemma CollectStep(raw: seq<Range>, rest: Text, fsize: nat)
    requires rest != [] && |raw| <= MAX_RANGES
    ensures Gathered(raw, rest, fsize)
            == Gathered(Kept(raw, RangeSpec(Before(rest, COMMA), fsize)), After(rest, COMMA), fsize)
  {
    SatisfiableStep(rest, fsize);
    KeptStep(raw, RangeSpec(Before(rest, COMMA), fsize), Satisfiable(Specs(After(rest, COMMA)), fsize));
  }

  function Listed(r: Option<Range>): seq<Range> {
    if r.Some? then [r.value] else []
  }

  lemma SatisfiableStep(rest: Text, fsize: nat)
    requires rest != []
    ensures Satisfiable(Specs(rest), fsize)
            == Listed(RangeSpec(Before(rest, COMMA), fsize)) + Satisfiable(Specs(After(rest, COMMA)), fsize)
  {
    var specs := Specs(rest);
    assert specs[0] == Before(rest, COMMA) && specs[1..] == Specs(After(rest, COMMA));
  }

  lemma KeptStep(raw: seq<Range>, r: Option<Range>, more: seq<Range>)
    requires |raw| <= MAX_RANGES
    ensures var k := Kept(raw, r);
            raw + First(Listed(r) + more, MAX_RANGES - |raw|) == k + First(more, MAX_RANGES - |k|)
  {
    var room := MAX_RANGES - |raw|;
    if r.None? {
      assert Listed(r) + more == more;
    } else if room == 0 {
      assert First(Listed(r) + more, 0) == [] && First(more, 0) == [];
    } else {
      FirstCons(r.value, more, room);
      assert raw + ([r.value] + First(more, room - 1)) == raw + [r.value] + First(more, room - 1);
    }
  }

  lemma FirstCons(r: Range, rs: seq<Range>, n: nat)
    requires n > 0
    ensures First([r] + rs, n) == [r] + First(rs, n - 1)
  {
    if |rs| >= n {
      assert ([r] + rs)[..n] == [r] + rs[..n - 1];
    }
  }

  function Kept(raw: seq<Range>, r: Option<Range>): (k: seq<Range>)
    requires |raw| <= MAX_RANGES
    ensures |k| <= MAX_RANGES
  {
    if r.Some? && |raw| < MAX_RANGES then raw + [r.value] else raw
  }

  /** What is kept in the end when `rest` is still to be read. */
  ghost function Gathered(raw: seq<Range>, rest: Text, fsize: nat): seq<Range>
    requires |raw| <= MAX_RANGES
  {
    raw + First(Satisfiable(Specs(rest), fsize), MAX_RANGES - |raw|)
  }

  /** The collecting loop of `parse_ranges`. */
  method Collect(header: Text, fsize: nat) returns (raw: seq<Range>)
    ensures raw == First(Satisfiable(Specs(header), fsize), MAX_RANGES)
  {
    raw := [];
    var rest := header;
    ghost var goal := First(Satisfiable(Specs(header), fsize), MAX_RANGES);
    assert [] + goal == goal;
    while rest != []
      invariant |raw| <= MAX_RANGES
      invariant goal == Gathered(raw, rest, fsize)
      decreases |rest|
    {
      CollectStep(raw, rest, fsize);
      var spec := Before(rest, COMMA);
      rest := After(rest, COMMA);
      if |raw| < MAX_RANGES {
        var r := RangeSpec(spec, fsize);
        if r.Some? {
          raw := raw + [r.value];
        }
      }
    }
    assert raw + [] == raw;
  }

  lemma SingleSpec(s: Text, fsize: nat)
    requires COMMA !in s
    ensures Satisfiable(Specs(s), fsize) == match RangeSpec(s, fsize) { case None => [] case Some(r) => [r] }
  {
    if s == [] {
      assert Trim(s) == [];
    } else {
      ChopWhole(s, COMMA);
      assert Specs(s) == [s] && [s][1..] == [];
    }
  }

  /** `parse_ranges`: the whole file when the unit is not bytes, 416 exactly when no
      spec is satisfiable, and otherwise the union of the first 64 satisfiable specs
      as ascending windows that neither overlap nor touch. */
  method ParseRanges(value: Text, fsize: nat, cap: nat) returns (answer: Answer)
    requires cap >= MAX_RANGES
    ensures answer.Whole? <==> !(UNIT <= Trim(value))
    ensures UNIT <= Trim(value) ==>
              var rs := First(Satisfiable(Specs(Trim(value)[|UNIT|..]), fsize), MAX_RANGES);
              && (answer.Unsatisfiable? <==> rs == [])
              && (answer.Parts? ==> Tidy(answer.ranges, fsize) && Same(answer.ranges, rs))
  {
    var header := Trim(value);
    if |header| < |UNIT| || header[..|UNIT|] != UNIT {
      return Whole;
    }
    header := header[|UNIT|..];
    if COMMA !in header {
      SingleSpec(header, fsize);
      var r := RangeSpec(header, fsize);
      answer := if r.None? then Unsatisfiable else Parts([r.value]);
      return;
    }
    var raw := Collect(header, fsize);
    if |raw| == 0 {
      return Unsatisfiable;
    }
    var sorted := SortByBase(raw);
    PermutationKeeps(raw, sorted, fsize);
    var out, taken := Coalesce(sorted, cap, fsize);
    assert sorted[..|sorted|] == sorted;
    answer := Parts(out);
  }
}
