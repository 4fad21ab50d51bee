/** The token-bucket rate limiter, over real arithmetic: one bucket for each key,
    refilled by elapsed milliseconds and capped at the burst. */
module RateLimit {
  import opened Bytes

  datatype Policy = Policy(rate: real, burst: real)

  datatype Account = Account(tokens: real, last: nat)

  datatype Call = Call(key: Text, now: nat)

  /** A key as `strcmp` sees it: up to its first NUL. */
  function CString(key: Text): Text {
    if key == [] || key[0] == 0 then [] else [key[0]] + CString(key[1..])
  }

  /** The clamped delta: a clock that steps back counts as one that stands still. */
  function Elapsed(last: nat, now: nat): nat {
    if now > last then now - last else 0
  }

  function Earned(p: Policy, ms: nat): real {
    ms as real / 1000.0 * p.rate
  }

  function Refill(p: Policy, a: Account, now: nat): real {
    var t := a.tokens + Earned(p, Elapsed(a.last, now));
    if t > p.burst then p.burst else t
  }

  /** `bucket_for`: a new bucket starts full. */
  function Opened(p: Policy, a: Option<Account>, now: nat): Account {
    if a.Some? then a.value else Account(p.burst, now)
  }

  function Level(p: Policy, a: Option<Account>, now: nat): real {
    Refill(p, Opened(p, a, now), now)
  }

  predicate Grants(p: Policy, a: Option<Account>, now: nat) {
    Level(p, a, now) >= 1.0
  }

  function Charge(p: Policy, a: Option<Account>, now: nat): Account {
    Account(Level(p, a, now) - if Grants(p, a, now) then 1.0 else 0.0, now)
  }

  // ---------------------------------------------------------------------
  // One key, called at a sequence of times
  // ---------------------------------------------------------------------

  function Drain(p: Policy, a: Option<Account>, times: seq<nat>): Option<Account> {
    if times == [] then a
    else Some(Charge(p, Drain(p, a, times[..|times| - 1]), times[|times| - 1]))
  }

  /** How many of the calls are allowed. */
  function Granted(p: Policy, a: Option<Account>, times: seq<nat>): nat {
    if times == [] then 0
    else
      var front := times[..|times| - 1];
      Granted(p, a, front) + if Grants(p, Drain(p, a, front), times[|times| - 1]) then 1 else 0
  }

  /** How far the clock moves forward from the first call to the last. */
  function Climb(times: seq<nat>): nat {
    if |times| <= 1 then 0
    else Climb(times[..|times| - 1]) + Elapsed(times[|times| - 2], times[|times| - 1])
  }

  predicate Sane(p: Policy) {
    p.rate >= 0.0 && p.burst >= 0.0
  }

  predicate Fit(p: Policy, a: Option<Account>) {
    a.Some? ==> 0.0 <= a.value.tokens <= p.burst
  }

  predicate NonDecreasing(times: seq<nat>) {
    forall i, j :: 0 <= i < j < |times| ==> times[i] <= times[j]
  }

  lemma {:induction false} EarnedAdds(p: Policy, a: nat, b: nat)
    ensures Earned(p, a + b) == Earned(p, a) + Earned(p, b)
  {
  }

  lemma {:induction false} EarnedPositive(p: Policy, ms: nat)
    requires Sane(p)
    ensures Earned(p, ms) >= 0.0
  {
  }

  /** A bucket never holds less than nothing or more than the burst. */
  lemma {:induction false} ChargeFits(p: Policy, a: Option<Account>, now: nat)
    requires Sane(p) && Fit(p, a)
    ensures Fit(p, Some(Charge(p, a, now)))
  {
    EarnedPositive(p, Elapsed(Opened(p, a, now).last, now));
  }

  lemma {:induction false} DrainFits(p: Policy, a: Option<Account>, times: seq<nat>)
    requires Sane(p) && Fit(p, a)
    ensures Fit(p, Drain(p, a, times))
    decreases |times|
  {
    if times != [] {
      DrainFits(p, a, times[..|times| - 1]);
      ChargeFits(p, Drain(p, a, times[..|times| - 1]), times[|times| - 1]);
    }
  }

  /** What was allowed and what is left never exceed a full bucket and what the
      forward movement of the clock earned, whatever the bucket held before. */
  lemma {:induction false} Ledger(p: Policy, a: Option<Account>, times: seq<nat>)
    requires Sane(p) && times != []
    ensures var d := Drain(p, a, times);
            && d.Some? && d.value.last == times[|times| - 1]
            && Granted(p, a, times) as real + d.value.tokens <= p.burst + Earned(p, Climb(times))
    decreases |times|
  {
    var front, now := times[..|times| - 1], times[|times| - 1];
    if front == [] {
      assert Drain(p, a, front) == a;
    } else {
      Ledger(p, a, front);
      EarnedAdds(p, Climb(front), Elapsed(times[|times| - 2], now));
    }
  }

  lemma {:induction false} ClimbSpan(times: seq<nat>)
    requires times != [] && NonDecreasing(times)
    ensures Climb(times) == times[|times| - 1] - times[0]
    decreases |times|
  {
    if |times| > 1 {
      ClimbSpan(times[..|times| - 1]);
    }
  }

  /** Of the calls one key makes, no more are allowed than the burst and the rate
      over the time the clock moved forward. */
  lemma {:induction false} GrantedBound(p: Policy, a: Option<Account>, times: seq<nat>)
    requires Sane(p) && Fit(p, a)
    ensures Granted(p, a, times) as real <= p.burst + Earned(p, Climb(times))
  {
    if times != [] {
      Ledger(p, a, times);
      DrainFits(p, a, times);
    }
  }

  /** A call made long enough after the one before to earn a token is allowed. */
  lemma {:induction false} SpacedIsGranted(p: Policy, a: Option<Account>, now: nat)
    requires Sane(p) && Fit(p, a) && p.burst >= 1.0
    requires a.Some? ==> Earned(p, Elapsed(a.value.last, now)) >= 1.0
    ensures Grants(p, a, now)
  {
  }

  predicate Spaced(p: Policy, times: seq<nat>) {
    forall i :: 0 < i < |times| ==> Earned(p, Elapsed(times[i - 1], times[i])) >= 1.0
  }

  /** A new caller that always waits for a token's worth of time is never refused. */
  lemma {:induction false} SpacedNeverRefused(p: Policy, times: seq<nat>)
    requires Sane(p) && p.burst >= 1.0 && Spaced(p, times)
    ensures Granted(p, None, times) == |times|
    decreases |times|
  {
    if times != [] {
      var front := times[..|times| - 1];
      SpacedNeverRefused(p, front);
      DrainFits(p, None, front);
      if front != [] {
        Ledger(p, None, front);
      }
      SpacedIsGranted(p, Drain(p, None, front), times[|times| - 1]);
    }
  }

  /** Calls at one instant: a new bucket allows as many as its burst holds whole
      tokens, and refuses the rest. */
  lemma {:induction false} BurstServed(p: Policy, n: nat, now: nat)
    requires Sane(p)
    ensures var times := seq(n, i => now);
            && Granted(p, None, times) == (if n <= p.burst.Floor then n else p.burst.Floor)
            && (n > 0 ==> Drain(p, None, times) == Some(Account(p.burst - Granted(p, None, times) as real, now)))
    decreases n
  {
    if n > 0 {
      var times := seq(n, i => now);
      assert times[..n - 1] == seq(n - 1, i => now);
      BurstServed(p, n - 1, now);
      var spent := Granted(p, None, times[..n - 1]);
      var level := Level(p, Drain(p, None, times[..n - 1]), now);
      assert level == p.burst - spent as real;
      assert level >= 1.0 <==> spent + 1 <= p.burst.Floor;
    }
  }

  // ---------------------------------------------------------------------
  // Every key
  // ---------------------------------------------------------------------

  function Lookup(m: map<Text, Account>, k: Text): Option<Account> {
    if k in m then Some(m[k]) else None
  }

  function Next(p: Policy, m: map<Text, Account>, c: Call): map<Text, Account> {
    var k := CString(c.key);
    m[k := Charge(p, Lookup(m, k), c.now)]
  }

  predicate Allowed(p: Policy, m: map<Text, Account>, c: Call) {
    Grants(p, Lookup(m, CString(c.key)), c.now)
  }

  function Serve(p: Policy, m: map<Text, Account>, calls: seq<Call>): map<Text, Account> {
    if calls == [] then m else Next(p, Serve(p, m, calls[..|calls| - 1]), calls[|calls| - 1])
  }

  /** How many calls of a run are allowed under the key k. */
  function AllowedTo(p: Policy, m: map<Text, Account>, calls: seq<Call>, k: Text): nat {
    if calls == [] then 0
    else
      var front, c := calls[..|calls| - 1], calls[|calls| - 1];
      AllowedTo(p, m, front, k)
      + if CString(c.key) == k && Allowed(p, Serve(p, m, front), c) then 1 else 0
  }

  function TimesOf(calls: seq<Call>, k: Text): seq<nat> {
    if calls == [] then []
    else
      var c := calls[|calls| - 1];
      TimesOf(calls[..|calls| - 1], k) + if CString(c.key) == k then [c.now] else []
  }

  /** What a key is granted depends on its own calls alone. */
  lemma {:induction false} KeysAreIndependent(p: Policy, m: map<Text, Account>, calls: seq<Call>, k: Text)
    ensures Lookup(Serve(p, m, calls), k) == Drain(p, Lookup(m, k), TimesOf(calls, k))
    ensures AllowedTo(p, m, calls, k) == Granted(p, Lookup(m, k), TimesOf(calls, k))
    decreases |calls|
  {
    if calls != [] {
      var front, c := calls[..|calls| - 1], calls[|calls| - 1];
      KeysAreIndependent(p, m, front, k);
      var before := TimesOf(front, k);
      if CString(c.key) == k {
        assert (before + [c.now])[..|before|] == before;
      } else {
        assert TimesOf(calls, k) == before;
      }
    }
  }

  lemma {:induction false} OrderedTimes(calls: seq<Call>, k: Text, from: nat, to: nat)
    requires forall i :: 0 <= i < |calls| ==> from <= calls[i].now <= to
    requires forall i, j :: 0 <= i < j < |calls| ==> calls[i].now <= calls[j].now
    ensures NonDecreasing(TimesOf(calls, k))
    ensures forall i :: 0 <= i < |TimesOf(calls, k)| ==> from <= TimesOf(calls, k)[i] <= to
    decreases |calls|
  {
    if calls != [] {
      var last := calls[|calls| - 1];
      OrderedTimes(calls[..|calls| - 1], k, from, last.now);
    }
  }

  ghost predicate AllFit(p: Policy, m: map<Text, Account>) {
    forall k :: k in m ==> Fit(p, Some(m[k]))
  }

  lemma {:induction false} ClimbWithin(p: Policy, times: seq<nat>, from: nat, to: nat)
    requires Sane(p) && NonDecreasing(times) && from <= to
    requires forall i :: 0 <= i < |times| ==> from <= times[i] <= to
    ensures Earned(p, Climb(times)) <= Earned(p, to - from)
  {
    if times != [] {
      ClimbSpan(times);
    }
    EarnedAdds(p, Climb(times), to - from - Climb(times));
    EarnedPositive(p, to - from - Climb(times));
  }

  /** In any window of `to - from` milliseconds of any run, whatever other callers
      do, a key is allowed at most the burst plus the rate over the window. */
  lemma {:induction false} WindowBound(p: Policy, m: map<Text, Account>, calls: seq<Call>, k: Text, from: nat, to: nat)
    requires Sane(p) && AllFit(p, m) && from <= to
    requires forall i :: 0 <= i < |calls| ==> from <= calls[i].now <= to
    requires forall i, j :: 0 <= i < j < |calls| ==> calls[i].now <= calls[j].now
    ensures AllowedTo(p, m, calls, k) as real <= p.burst + Earned(p, to - from)
  {
    KeysAreIndependent(p, m, calls, k);
    OrderedTimes(calls, k, from, to);
    ClimbWithin(p, TimesOf(calls, k), from, to);
    GrantedBound(p, Lookup(m, k), TimesOf(calls, k));
  }

  // ---------------------------------------------------------------------
  // The limiter object
  // ---------------------------------------------------------------------

  datatype Bucket = Bucket(key: Text, tokens: real, last: nat)

  ghost predicate Stored(items: seq<Bucket>, k: Text) {
    exists i :: 0 <= i < |items| && items[i].key == k
  }

  /** The buckets hold exactly the accounts of m. */
  ghost predicate Table(items: seq<Bucket>, m: map<Text, Account>) {
    && (forall i :: 0 <= i < |items| ==>
          items[i].key in m && m[items[i].key] == Account(items[i].tokens, items[i].last))
    && (forall i, j :: 0 <= i < j < |items| ==> items[i].key != items[j].key)
    && (forall k :: k in m ==> Stored(items, k))
  }

  lemma {:induction false} TableAppend(items: seq<Bucket>, m: map<Text, Account>, b: Bucket)
    requires Table(items, m) && b.key !in m
    ensures Table(items + [b], m[b.key := Account(b.tokens, b.last)])
  {
    var r := items + [b];
    forall k | k in m[b.key := Account(b.tokens, b.last)]
      ensures Stored(r, k)
    {
      if k == b.key {
        assert r[|items|].key == k;
      } else {
        var i :| 0 <= i < |items| && items[i].key == k;
        assert r[i].key == k;
      }
    }
  }

  lemma {:induction false} TableUpdate(items: seq<Bucket>, m: map<Text, Account>, i: nat, b: Bucket)
    requires Table(items, m) && i < |items| && b.key == items[i].key
    ensures Table(items[i := b], m[b.key := Account(b.tokens, b.last)])
  {
    var r := items[i := b];
    forall k | k in m[b.key := Account(b.tokens, b.last)]
      ensures Stored(r, k)
    {
      if k == b.key {
        assert r[i].key == k;
      } else {
        var j :| 0 <= j < |items| && items[j].key == k;
        assert r[j].key == k;
      }
    }
  }

  class Limiter {
    const policy: Policy
    var items: seq<Bucket>
    ghost var M: map<Text, Account>

    ghost predicate Valid()
      reads this
    {
      Table(items, M) && AllFit(policy, M)
    }

    /** `http_rate_limiter_init`. */
    constructor (policy: Policy)
      ensures Valid() && this.policy == policy && M == map[]
    {
      this.policy := policy;
      items, M := [], map[];
    }

    /** The scan of `bucket_for`. */
    method FindBucket(flat: Text) returns (i: nat)
      requires Valid()
      ensures i <= |items|
      ensures if flat in M then i < |items| && items[i].key == flat else i == |items|
    {
      i := 0;
      while i < |items| && items[i].key != flat
        invariant i <= |items| && forall j :: 0 <= j < i ==> items[j].key != flat
      {
        i := i + 1;
      }
      assert flat in M ==> Stored(items, flat);
    }

    /** `bucket_for`. */
    method BucketFor(key: Text, now: nat) returns (i: nat)
      requires Valid() && Sane(policy)
      modifies this
      ensures Valid() && i < |items| && items[i].key == CString(key)
      ensures var a := Opened(policy, Lookup(old(M), CString(key)), now);
              Account(items[i].tokens, items[i].last) == a && M == old(M)[CString(key) := a]
    {
      var flat := CString(key);
      i := FindBucket(flat);
      if i == |items| {
        var b := Bucket(flat, policy.burst, now);
        TableAppend(items, M, b);
        items := items + [b];
        M := M[flat := Account(policy.burst, now)];
      } else {
        assert M[flat := M[flat]] == M;
      }
    }

    /** The arithmetic of `http_rate_limiter_allow` on its bucket. */
    static method Take(policy: Policy, ghost a: Option<Account>, b: Bucket, now: nat)
      returns (tokens: real, rc: int)
      requires Account(b.tokens, b.last) == Opened(policy, a, now)
      ensures Account(tokens, now) == Charge(policy, a, now)
      ensures rc == if Grants(policy, a, now) then 0 else -1
    {
      var delta := if now > b.last then now - b.last else 0;
      var dt := delta as real / 1000.0;
      tokens := b.tokens + dt * policy.rate;
      if tokens > policy.burst {
        tokens := policy.burst;
      }
      rc := -1;
      if tokens >= 1.0 {
        tokens := tokens - 1.0;
        rc := 0;
      }
    }

    /** `http_rate_limiter_allow`. */
    method Allow(key: Text, now: nat) returns (rc: int)
      requires Valid() && Sane(policy)
      modifies this
      ensures Valid() && M == Next(policy, old(M), Call(key, now))
      ensures rc == if Allowed(policy, old(M), Call(key, now)) then 0 else -1
    {
      var i := BucketFor(key, now);
      ghost var a := Lookup(old(M), CString(key));
      ghost var before := M;
      var b := items[i];
      var tokens;
      tokens, rc := Take(policy, a, b, now);
      ChargeFits(policy, a, now);
      TableUpdate(items, before, i, Bucket(b.key, tokens, now));
      items := items[i := Bucket(b.key, tokens, now)];
      M := M[b.key := Account(tokens, now)];
    }

    /** `http_rate_limiter_clear`. */
    method Clear()
      modifies this
      ensures Valid() && M == map[]
    {
      items, M := [], map[];
    }
  }
}
