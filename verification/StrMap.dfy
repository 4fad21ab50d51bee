/** The open-addressing string map: linear probing from a hashed home slot, growth
    at half load, and deletion that re-inserts the cluster behind the gap. */
module StrMap {
  import opened Bytes

  datatype Slot = Empty | Full(key: CStr, value: CStr)

  type Hash = Text -> nat

  function Pow2(k: nat): (r: nat)
    ensures r >= 1
  {
    if k == 0 then 1 else 2 * Pow2(k - 1)
  }

  /** No table yet, or a power of two of at least 16 slots. */
  ghost predicate IsCapacity(n: nat) {
    n == 0 || exists k: nat :: n == 16 * Pow2(k)
  }

  // ---------------------------------------------------------------------
  // Probe paths
  // ---------------------------------------------------------------------

  /** Slot j lies on the probe path from h up to, not including, i. */
  predicate Between(h: nat, j: nat, i: nat) {
    if h <= i then h <= j < i else j >= h || j < i
  }

  /** The slot after k, wrapping at the end of the table. Capacities are powers of
      two, so this is the source's `(k + 1) & mask`. */
  function Next(k: nat, n: nat): (r: nat)
    requires k < n
    ensures r < n
  {
    if k + 1 == n then 0 else k + 1
  }

  /** The home slot: `hash & (n - 1)`, which for a power of two is the remainder. */
  function Home(hash: Hash, key: Text, n: nat): (r: nat)
    requires n > 0
    ensures r < n
  {
    hash(key) % n
  }

  /** No gap between a home slot and i. */
  ghost predicate PathFull(t: seq<Slot>, h: nat, i: nat) {
    forall j :: 0 <= j < |t| && Between(h, j, i) ==> t[j].Full?
  }

  /** Every entry can be reached from its home slot without meeting a gap. */
  ghost predicate Paths(hash: Hash, t: seq<Slot>) {
    forall i :: 0 <= i < |t| && t[i].Full? ==> PathFull(t, Home(hash, t[i].key, |t|), i)
  }

  ghost predicate Stored(t: seq<Slot>, key: Text) {
    exists i :: 0 <= i < |t| && t[i].Full? && t[i].key == key
  }

  /** The table holds exactly the pairs of m, each once. */
  ghost predicate Holds(t: seq<Slot>, m: map<CStr, CStr>) {
    && (forall i :: 0 <= i < |t| && t[i].Full? ==> t[i].key in m && m[t[i].key] == t[i].value)
    && (forall k :: k in m ==> Stored(t, k))
    && (forall i, j :: 0 <= i < j < |t| && t[i].Full? && t[j].Full? ==> t[i].key != t[j].key)
  }

  function Count(t: seq<Slot>): (r: nat)
    ensures r <= |t|
  {
    if t == [] then 0 else Count(t[..|t| - 1]) + (if t[|t| - 1].Full? then 1 else 0)
  }

  lemma {:induction false} CountUpdate(t: seq<Slot>, i: nat, x: Slot)
    requires i < |t|
    ensures Count(t[i := x]) == Count(t) + (if x.Full? then 1 else 0) - (if t[i].Full? then 1 else 0)
  {
    if i == |t| - 1 {
      assert t[i := x][..|t| - 1] == t[..|t| - 1];
    } else {
      assert t[i := x][..|t| - 1] == t[..|t| - 1][i := x];
      CountUpdate(t[..|t| - 1], i, x);
    }
  }

  lemma {:induction false} GapExists(t: seq<Slot>) returns (e: nat)
    requires Count(t) < |t|
    ensures e < |t| && t[e].Empty?
  {
    var last := |t| - 1;
    if t[last].Empty? {
      e := last;
    } else {
      e := GapExists(t[..last]);
    }
  }

  lemma {:induction false} CountEmpty(t: seq<Slot>)
    requires forall i :: 0 <= i < |t| ==> t[i].Empty?
    ensures Count(t) == 0
  {
    if t != [] {
      CountEmpty(t[..|t| - 1]);
    }
  }

  /** How far slot e is ahead of k. */
  ghost function Ahead(k: nat, e: nat, n: nat): int {
    if k <= e then e - k else e + n - k
  }

  /** A search that passed only other keys and met a gap has proved absence. */
  lemma GapMeansAbsent(hash: Hash, t: seq<Slot>, m: map<CStr, CStr>, key: Text, idx: nat)
    requires idx < |t| && t[idx].Empty? && Holds(t, m) && Paths(hash, t)
    requires forall j :: 0 <= j < |t| && Between(Home(hash, key, |t|), j, idx) ==> t[j].Full? && t[j].key != key
    ensures key !in m
  {
    var h := Home(hash, key, |t|);
    forall i | 0 <= i < |t| && t[i].Full?
      ensures t[i].key != key
    {
      assert PathFull(t, Home(hash, t[i].key, |t|), i);
      assert i == idx || Between(h, i, idx) || Between(h, idx, i);
    }
    assert key in m ==> Stored(t, key);
  }

  /** Filling a gap that ends a full path. */
  lemma InsertKeeps(hash: Hash, t: seq<Slot>, m: map<CStr, CStr>, idx: nat, key: CStr, value: CStr)
    requires idx < |t| && t[idx].Empty? && Holds(t, m) && Paths(hash, t) && key !in m
    requires PathFull(t, Home(hash, key, |t|), idx)
    ensures var u := t[idx := Full(key, value)];
            Holds(u, m[key := value]) && Paths(hash, u) && Count(u) == Count(t) + 1
  {
    var u := t[idx := Full(key, value)];
    CountUpdate(t, idx, Full(key, value));
    forall k | k in m[key := value]
      ensures Stored(u, k)
    {
      if k == key {
        assert u[idx].key == k;
      } else {
        var i :| 0 <= i < |t| && t[i].Full? && t[i].key == k;
        assert u[i].key == k;
      }
    }
    forall i | 0 <= i < |u| && u[i].Full?
      ensures PathFull(u, Home(hash, u[i].key, |u|), i)
    {
      assert i != idx ==> PathFull(t, Home(hash, t[i].key, |t|), i);
    }
  }

  lemma ReplaceKeeps(hash: Hash, t: seq<Slot>, m: map<CStr, CStr>, idx: nat, value: CStr)
    requires idx < |t| && t[idx].Full? && Holds(t, m) && Paths(hash, t)
    ensures var u := t[idx := Full(t[idx].key, value)];
            Holds(u, m[t[idx].key := value]) && Paths(hash, u) && Count(u) == Count(t)
  {
    var u := t[idx := Full(t[idx].key, value)];
    CountUpdate(t, idx, Full(t[idx].key, value));
    forall k | k in m[t[idx].key := value]
      ensures Stored(u, k)
    {
      var i :| 0 <= i < |t| && t[i].Full? && t[i].key == k;
      assert u[i].key == k;
    }
    forall i | 0 <= i < |u| && u[i].Full?
      ensures PathFull(u, Home(hash, u[i].key, |u|), i)
    {
      assert PathFull(t, Home(hash, t[i].key, |t|), i);
    }
  }

  /** Emptying a slot drops its pair; paths may break. */
  lemma ClearHolds(t: seq<Slot>, m: map<CStr, CStr>, k: nat)
    requires k < |t| && t[k].Full? && Holds(t, m)
    ensures var u := t[k := Empty]; Holds(u, m - {t[k].key}) && Count(u) == Count(t) - 1
  {
    var u := t[k := Empty];
    CountUpdate(t, k, Empty);
    forall key | key in m - {t[k].key}
      ensures Stored(u, key)
    {
      var i :| 0 <= i < |t| && t[i].Full? && t[i].key == key;
      assert u[i].key == key;
    }
  }

  /** Once the whole run of entries from idx up to the gap k is gone, no remaining
      path crossed it. */
  lemma ClearedClusterKeepsPaths(hash: Hash, t0: seq<Slot>, t: seq<Slot>, idx: nat, k: nat)
    requires |t| == |t0| && idx < |t| && k < |t| && k != idx && t0[k].Empty? && Paths(hash, t0)
    requires forall j :: 0 <= j < |t| ==> t[j] == if Between(idx, j, k) then Empty else t0[j]
    ensures Paths(hash, t)
  {
    forall i | 0 <= i < |t| && t[i].Full?
      ensures PathFull(t, Home(hash, t[i].key, |t|), i)
    {
      var h := Home(hash, t[i].key, |t|);
      assert PathFull(t0, h, i);
      forall j | 0 <= j < |t| && Between(h, j, i)
        ensures t[j].Full?
      {
        assert Between(idx, j, k) ==> Between(h, k, i);
      }
    }
  }

  /** The pairs held aside, as a map. */
  function Pairs(held: seq<(CStr, CStr)>): map<CStr, CStr> {
    if held == [] then map[] else Pairs(held[..|held| - 1])[held[|held| - 1].0 := held[|held| - 1].1]
  }

  lemma PairsAppend(held: seq<(CStr, CStr)>, key: CStr, value: CStr)
    ensures Pairs(held + [(key, value)]) == Pairs(held)[key := value]
  {
    assert (held + [(key, value)])[..|held|] == held;
  }

  /** A pair that leaves the map for the held ones is not lost. */
  lemma MovesToHeld(m: map<CStr, CStr>, held: seq<(CStr, CStr)>, key: CStr, value: CStr, m0: map<CStr, CStr>)
    requires key in m && m[key] == value && m.Keys !! Pairs(held).Keys && m + Pairs(held) == m0
    ensures var more := Pairs(held + [(key, value)]); (m - {key}).Keys !! more.Keys && m - {key} + more == m0
  {
    PairsAppend(held, key, value);
  }

  /** One slot further, one more slot lies between. */
  lemma NextGap(h: nat, k: nat, n: nat)
    requires h < n && k < n && k != h && Next(k, n) != h
    ensures forall j :: 0 <= j < n ==> (Between(h, j, Next(k, n)) <==> Between(h, j, k) || j == k)
  {
  }

  // ---------------------------------------------------------------------
  // The map object
  // ---------------------------------------------------------------------

  class StrMap {
    const hash: Hash
    var entries: array<Slot>
    var count: nat
    ghost var M: map<CStr, CStr>

    ghost predicate Valid()
      reads this, entries
    {
      && Holds(entries[..], M)
      && Paths(hash, entries[..])
      && count == Count(entries[..])
      && 2 * count <= entries.Length
      && IsCapacity(entries.Length)
    }

    /** `strmap_init`. */
    constructor (hash: Hash)
      ensures Valid() && M == map[] && this.hash == hash && fresh(entries)
    {
      this.hash := hash;
      entries := new Slot[0];
      count := 0;
      M := map[];
    }

    /** The probe loop shared by lookup, insertion and deletion: the slot of the
        key, or the gap that proves it absent. */
    method Locate(key: Text) returns (idx: nat)
      requires Valid() && entries.Length > 0
      ensures idx < entries.Length
      ensures entries[idx].Full? ==> entries[idx].key == key
      ensures entries[idx].Empty? ==> key !in M && PathFull(entries[..], Home(hash, key, entries.Length), idx)
    {
      ghost var t := entries[..];
      ghost var e := GapExists(t);
      var h := Home(hash, key, entries.Length);
      idx := h;
      while entries[idx].Full? && entries[idx].key != key
        invariant idx < entries.Length && (idx == e || Between(h, idx, e))
        invariant forall j :: 0 <= j < |t| && Between(h, j, idx) ==> t[j].Full? && t[j].key != key
        decreases Ahead(idx, e, |t|)
      {
        idx := Next(idx, entries.Length);
      }
      if entries[idx].Empty? {
        GapMeansAbsent(hash, t, M, key, idx);
      }
    }

    /** `strmap_get`. */
    method Get(key: Text) returns (r: Option<Text>)
      requires Valid()
      ensures r == if key in M then Some(M[key]) else None
    {
      if entries.Length == 0 {
        assert key in M ==> Stored(entries[..], key);
        return None;
      }
      var idx := Locate(key);
      r := if entries[idx].Empty? then None else Some(entries[idx].value);
    }

    /** The first gap from a home slot, for a key that is not in the table. */
    static method Place(hash: Hash, a: array<Slot>, key: CStr, value: CStr, ghost m: map<CStr, CStr>)
      requires a.Length > 0 && Count(a[..]) < a.Length
      requires Holds(a[..], m) && Paths(hash, a[..]) && key !in m
      modifies a
      ensures Holds(a[..], m[key := value]) && Paths(hash, a[..]) && Count(a[..]) == old(Count(a[..])) + 1
    {
      ghost var t := a[..];
      ghost var e := GapExists(t);
      var h := Home(hash, key, a.Length);
      var idx: nat := h;
      while a[idx].Full?
        invariant idx < a.Length && (idx == e || Between(h, idx, e))
        invariant PathFull(t, h, idx) && a[..] == t
        decreases Ahead(idx, e, |t|)
      {
        idx := Next(idx, a.Length);
      }
      InsertKeeps(hash, t, m, idx, key, value);
      a[idx] := Full(key, value);
      assert a[..] == t[idx := Full(key, value)];
    }

    /** The first i slots of `t` have new homes in `a`. */
    static ghost predicate Moved(hash: Hash, t: seq<Slot>, i: nat, a: seq<Slot>, moved: map<CStr, CStr>) {
      i <= |t| && Holds(a, moved) && Paths(hash, a) && Count(a) == Count(t[..i]) && Holds(t[..i], moved)
    }

    /** One turn of the re-homing loop. */
    static method Rehome(hash: Hash, ghost t: seq<Slot>, ghost m: map<CStr, CStr>, ghost i: nat, slot: Slot,
                         a: array<Slot>, ghost moved: map<CStr, CStr>)
      returns (ghost next: map<CStr, CStr>)
      requires i < |t| && t[i] == slot && Holds(t, m) && Moved(hash, t, i, a[..], moved) && |t| < a.Length
      modifies a
      ensures Moved(hash, t, i + 1, a[..], next)
    {
      CountPrefix(t, i);
      CountPrefix(t, i + 1);
      PrefixHolds(t, m, i, moved);
      assert t[..i + 1][..i] == t[..i];
      next := moved;
      if slot.Full? {
        Place(hash, a, slot.key, slot.value, moved);
        next := moved[slot.key := slot.value];
      }
    }

    /** `strmap_grow`: twice the slots, every entry re-homed. */
    method Grow()
      requires Valid()
      modifies this
      ensures Valid() && M == old(M) && count == old(count) && fresh(entries)
      ensures entries.Length == if old(entries.Length) == 0 then 16 else 2 * old(entries.Length)
    {
      var newCap := if entries.Length == 0 then 16 else entries.Length * 2;
      var a := new Slot[newCap](i => Empty);
      CapacityDoubles(entries.Length);
      CountEmpty(a[..]);
      ghost var t := entries[..];
      ghost var moved: map<CStr, CStr> := map[];
      var i := 0;
      assert t[..0] == [];
      while i < entries.Length
        invariant i <= entries.Length == |t| && fresh(a) && a.Length == newCap && entries[..] == t
        invariant entries == old(entries) && count == old(count) && M == old(M)
        invariant Moved(hash, t, i, a[..], moved)
      {
        moved := Rehome(hash, t, M, i, entries[i], a, moved);
        i := i + 1;
      }
      assert t[..i] == t;
      HoldsOnce(t, M, moved);
      entries := a;
    }

    /** `strmap_set`. */
    method Set(key: CStr, value: CStr)
      requires Valid()
      modifies this, entries
      ensures Valid() && M == old(M)[key := value]
      ensures entries == old(entries) || fresh(entries)
      ensures 2 * old(count) < old(entries.Length) ==> entries == old(entries)
      ensures count == old(count) + if key in old(M) then 0 else 1
    {
      if entries.Length == 0 || count * 2 >= entries.Length {
        Grow();
      }
      var idx := Locate(key);
      if entries[idx].Empty? {
        Fill(idx, key, value);
      } else {
        Replace(idx, value);
      }
    }

    method Fill(idx: nat, key: CStr, value: CStr)
      requires Valid() && idx < entries.Length && entries[idx].Empty?
      requires 2 * count < entries.Length && key !in M && PathFull(entries[..], Home(hash, key, entries.Length), idx)
      modifies entries, this`count, this`M
      ensures Valid() && M == old(M)[key := value] && count == old(count) + 1
    {
      InsertKeeps(hash, entries[..], M, idx, key, value);
      RoomForOne(entries.Length, count);
      entries[idx] := Full(key, value);
      assert entries[..] == old(entries[..])[idx := Full(key, value)];
      count := count + 1;
      M := M[key := value];
    }

    method Replace(idx: nat, value: CStr)
      requires Valid() && idx < entries.Length && entries[idx].Full?
      modifies entries, this`M
      ensures Valid() && M == old(M)[old(entries[idx].key) := value]
    {
      ReplaceKeeps(hash, entries[..], M, idx, value);
      M := M[entries[idx].key := value];
      entries[idx] := Full(entries[idx].key, value);
      assert entries[..] == old(entries[..])[idx := Full(old(entries[idx].key), value)];
    }

    /** Frees one slot and forgets its pair. */
    method ClearSlot(k: nat) returns (x: Slot)
      requires Holds(entries[..], M) && count == Count(entries[..]) && k < entries.Length && entries[k].Full?
      modifies entries, this`count, this`M
      ensures x == old(entries[k]) && M == old(M) - {x.key} && count == old(count) - 1
      ensures Holds(entries[..], M) && count == Count(entries[..])
      ensures entries[..] == old(entries[..])[k := Empty]
    {
      x := entries[k];
      ClearHolds(entries[..], M, k);
      entries[k] := Empty;
      assert entries[..] == old(entries[..])[k := Empty];
      count := count - 1;
      M := M - {x.key};
    }

    /** Between two turns of the clearing loop: the run from idx up to k is gone,
        its pairs but the first are held, and nothing else moved. */
    ghost predicate Pulling(t0: seq<Slot>, idx: nat, k: nat, m0: map<CStr, CStr>, held: seq<(CStr, CStr)>)
      reads this, entries
    {
      && idx < entries.Length == |t0| && k < |t0| && k != idx
      && (forall j :: 0 <= j < |t0| ==> entries[j] == if Between(idx, j, k) then Empty else t0[j])
      && Holds(entries[..], M) && count == Count(entries[..])
      && M.Keys !! Pairs(held).Keys && M + Pairs(held) == m0
    }

    /** One turn of the clearing loop. */
    method PullOne(ghost t0: seq<Slot>, ghost idx: nat, k: nat, ghost m0: map<CStr, CStr>, held: seq<(CStr, CStr)>)
      returns (held': seq<(CStr, CStr)>)
      requires Pulling(t0, idx, k, m0, held) && entries[k].Full? && Next(k, entries.Length) != idx
      modifies entries, this`count, this`M
      ensures Pulling(t0, idx, Next(k, entries.Length), m0, held')
      ensures count == old(count) - 1 && |held'| == |held| + 1
    {
      assert entries[..][k] == entries[k];
      ghost var was := M;
      NextGap(idx, k, entries.Length);
      var x := ClearSlot(k);
      held' := held + [(x.key, x.value)];
      MovesToHeld(was, held, x.key, x.value, m0);
    }

    /** The clearing loop of `strmap_delete`. A gap ahead stops it. */
    method PullRun(ghost t0: seq<Slot>, idx: nat, ghost m0: map<CStr, CStr>, ghost e: nat)
      returns (held: seq<(CStr, CStr)>, k: nat)
      requires idx < entries.Length && e < |t0| && t0[e].Empty? && e != idx
      requires Pulling(t0, idx, Next(idx, entries.Length), m0, [])
      modifies entries, this`count, this`M
      ensures Pulling(t0, idx, k, m0, held) && t0[k].Empty?
      ensures |held| + count == old(count)
    {
      held := [];
      k := Next(idx, entries.Length);
      while entries[k].Full?
        invariant Pulling(t0, idx, k, m0, held) && |held| + count == old(count)
        invariant k == e || Between(idx, k, e)
        decreases Ahead(k, e, |t0|)
      {
        held := PullOne(t0, idx, k, m0, held);
        k := Next(k, entries.Length);
      }
    }

    /** Takes out the entry at idx and the run behind it; the run is kept aside. */
    method PullCluster(idx: nat) returns (held: seq<(CStr, CStr)>)
      requires Valid() && idx < entries.Length && entries[idx].Full?
      modifies entries, this`count, this`M
      ensures Valid()
      ensures M + Pairs(held) == old(M) - {old(entries[idx].key)}
      ensures |held| + count < old(count)
    {
      ghost var t0 := entries[..];
      ghost var e := GapExists(t0);
      var first := ClearSlot(idx);
      OnlySlot(idx, |t0|);
      assert M + Pairs([]) == M;
      var k;
      held, k := PullRun(t0, idx, M, e);
      ClearedClusterKeepsPaths(hash, t0, entries[..], idx, k);
    }

    /** The re-insertion loop of `strmap_delete`. There is room, so the table never
        grows for it. */
    method Reinsert(held: seq<(CStr, CStr)>)
      requires Valid() && 2 * (count + |held|) < entries.Length
      modifies this, entries
      ensures Valid() && M == old(M) + Pairs(held) && entries == old(entries)
    {
      ghost var base := M;
      var i := 0;
      while i < |held|
        invariant i <= |held| && Valid() && entries == old(entries)
        invariant M == base + Pairs(held[..i]) && 2 * (count + |held| - i) < entries.Length
      {
        PairsAppend(held[..i], held[i].0, held[i].1);
        PushOnTop(base, Pairs(held[..i]), held[i].0, held[i].1);
        assert held[..i + 1] == held[..i] + [held[i]];
        Set(held[i].0, held[i].1);
        i := i + 1;
      }
      assert held[..i] == held;
    }

    /** `strmap_delete`. */
    method Delete(key: Text)
      requires Valid()
      modifies this, entries
      ensures Valid() && M == old(M) - {key} && entries == old(entries)
    {
      if entries.Length == 0 {
        assert key in M ==> Stored(entries[..], key);
        return;
      }
      var idx := Locate(key);
      if entries[idx].Empty? {
        return;
      }
      var held := PullCluster(idx);
      Reinsert(held);
    }
  }

  /** The path from a slot to the next one is that slot. */
  lemma OnlySlot(idx: nat, n: nat)
    requires idx < n && n >= 2
    ensures forall j: nat :: j < n ==> (Between(idx, j, Next(idx, n)) <==> j == idx)
  {
  }

  lemma PushOnTop(a: map<CStr, CStr>, b: map<CStr, CStr>, key: CStr, value: CStr)
    ensures a + b[key := value] == (a + b)[key := value]
  {
  }

  /** Capacities are even, so a table under half load has room for one more. */
  lemma RoomForOne(n: nat, count: nat)
    requires IsCapacity(n) && 2 * count < n
    ensures 2 * (count + 1) <= n
  {
    var k: nat :| n == 16 * Pow2(k);
    var half := 8 * Pow2(k);
    assert n == 2 * half;
    assert count < half;
  }

  lemma CapacityDoubles(n: nat)
    requires IsCapacity(n)
    ensures IsCapacity(if n == 0 then 16 else 2 * n)
  {
    if n == 0 {
      assert 16 == 16 * Pow2(0);
    } else {
      var k: nat :| n == 16 * Pow2(k);
      assert 2 * n == 16 * Pow2(k + 1);
    }
  }

  lemma {:induction false} CountPrefix(t: seq<Slot>, n: nat)
    requires n <= |t|
    ensures Count(t[..n]) <= Count(t)
    ensures n > 0 ==> Count(t[..n]) == Count(t[..n - 1]) + if t[n - 1].Full? then 1 else 0
    decreases |t| - n
  {
    if n > 0 {
      assert t[..n][..n - 1] == t[..n - 1];
    }
    if n < |t| {
      CountPrefix(t, n + 1);
    } else {
      assert t[..n] == t;
    }
  }

  /** The next entry of a prefix is new to the map of the prefix. */
  lemma PrefixHolds(t: seq<Slot>, m: map<CStr, CStr>, i: nat, moved: map<CStr, CStr>)
    requires i < |t| && Holds(t, m) && Holds(t[..i], moved)
    ensures t[i].Full? ==> t[i].key !in moved && Holds(t[..i + 1], moved[t[i].key := t[i].value])
    ensures t[i].Empty? ==> Holds(t[..i + 1], moved)
  {
    var u := t[..i + 1];
    var next := if t[i].Full? then moved[t[i].key := t[i].value] else moved;
    assert forall j :: 0 <= j < i ==> u[j] == t[..i][j];
    assert t[i].Full? ==> forall j :: 0 <= j < i && u[j].Full? ==> u[j].key != t[i].key;
    assert t[i].Full? && t[i].key in moved ==> Stored(t[..i], t[i].key);
    forall k | k in next
      ensures Stored(u, k)
    {
      if t[i].Full? && k == t[i].key {
        assert u[i].key == k;
      } else {
        var j :| 0 <= j < i && t[..i][j].Full? && t[..i][j].key == k;
        assert u[j].key == k;
      }
    }
  }

  /** A table determines its map. */
  lemma HoldsOnce(t: seq<Slot>, m: map<CStr, CStr>, m': map<CStr, CStr>)
    requires Holds(t, m) && Holds(t, m')
    ensures m == m'
  {
    forall k | k in m
      ensures k in m' && m'[k] == m[k]
    {
      var i :| 0 <= i < |t| && t[i].Full? && t[i].key == k;
    }
    forall k | k in m'
      ensures k in m
    {
      var i :| 0 <= i < |t| && t[i].Full? && t[i].key == k;
    }
  }

  /** All slots but the last hold what is left of the map. */
  lemma DropLast(t: seq<Slot>, m: map<CStr, CStr>)
    requires t != [] && Holds(t, m)
    ensures var x := t[|t| - 1]; Holds(t[..|t| - 1], if x.Full? then m - {x.key} else m)
  {
    var last := |t| - 1;
    var u := t[..last];
    var rest := if t[last].Full? then m - {t[last].key} else m;
    forall k | k in rest
      ensures Stored(u, k)
    {
      var i :| 0 <= i < |t| && t[i].Full? && t[i].key == k;
      assert u[i].key == k;
    }
  }

  /** The entry counter is the size of the map. */
  lemma {:induction false} CountIsSize(t: seq<Slot>, m: map<CStr, CStr>)
    requires Holds(t, m)
    ensures Count(t) == |m|
  {
    if t == [] {
      assert forall k :: k in m ==> Stored(t, k);
      assert m == map[];
    } else {
      var last := |t| - 1;
      var rest := if t[last].Full? then m - {t[last].key} else m;
      DropLast(t, m);
      CountIsSize(t[..last], rest);
      if t[last].Full? {
        assert m.Keys == rest.Keys + {t[last].key};
      }
    }
  }
}
