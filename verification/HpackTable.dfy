/** The dynamic table of HPACK. */
module HpackTable {
  // `hp_dyn_insert` and `hp_shrink_to` beside the table that section 4 of RFC 7541
  // prescribes.

  import opened Bytes

  datatype Field = Field(name: Text, value: Text)

  function EntrySize(f: Field): nat {
    |f.name| + |f.value| + 32
  }

  function Size(t: seq<Field>): nat {
    if t == [] then 0 else Size(t[..|t| - 1]) + EntrySize(t[|t| - 1])
  }

  /** Newest entry first; `used` is kept by addition and subtraction. */
  datatype Dyn = Dyn(entries: seq<Field>, used: int, max: nat)

  /** The byte count is exact and within the budget. */
  ghost predicate Sound(d: Dyn) {
    d.used == Size(d.entries) <= d.max
  }

  /** Drops the oldest entries until `need` more bytes fit, or none is left. */
  function Evict(d: Dyn, need: nat): Dyn
    decreases |d.entries|
  {
    if d.entries != [] && d.used + need > d.max then
      var last := |d.entries| - 1;
      Evict(Dyn(d.entries[..last], d.used - EntrySize(d.entries[last]), d.max), need)
    else d
  }

  /** `hp_dyn_insert` for a name in memory of its own. */
  function Insert(d: Dyn, f: Field): Dyn {
    if d.max != 0 && EntrySize(f) > d.max then d
    else
      var e := Evict(d, EntrySize(f));
      Dyn([f] + e.entries, e.used + EntrySize(f), e.max)
  }

  /** Where the name of a new entry is read from: memory of its own, or the name
      of the entry at this position of the table, which the insertion may free. */
  datatype View = Owned | Entry(position: nat)

  /** The insertion evicts, and frees, the entry its own name points into. */
  predicate Freed(d: Dyn, view: View, f: Field) {
    && view.Entry? && f.name != []
    && !(d.max != 0 && EntrySize(f) > d.max)
    && |Evict(d, EntrySize(f)).entries| <= view.position
  }

  /** `hp_dyn_insert` as it is called: the name is copied after the eviction, so a
      freed one is stored as `stale`, whatever its memory reads as by then. */
  function InsertView(d: Dyn, view: View, f: Field, stale: Text): Dyn {
    if d.max != 0 && EntrySize(f) > d.max then d
    else
      var e := Evict(d, EntrySize(f));
      var stored := if Freed(d, view, f) then f.(name := stale) else f;
      Dyn([stored] + e.entries, e.used + EntrySize(f), e.max)
  }

  /** `hp_shrink_to`. */
  function Shrink(d: Dyn, size: nat): Dyn {
    Evict(d.(max := size), 0)
  }

  // ---------------------------------------------------------------------
  // Section 4 of RFC 7541
  // ---------------------------------------------------------------------

  /** The table a conforming endpoint keeps. */
  datatype Peer = Peer(table: seq<Field>, max: nat)

  /** The longest prefix (newest entries) whose size is at most `room`. */
  function Trim(t: seq<Field>, room: nat): (r: seq<Field>)
    ensures Size(r) <= room && |r| <= |t|
  {
    if Size(t) <= room then t else Trim(t[..|t| - 1], room)
  }

  /** Section 4.4: an entry too large for the table empties it. */
  function PeerInsert(p: Peer, f: Field): Peer {
    if EntrySize(f) > p.max then p.(table := [])
    else p.(table := [f] + Trim(p.table, p.max - EntrySize(f)))
  }

  /** Section 4.3. */
  function PeerResize(p: Peer, size: nat): Peer {
    Peer(Trim(p.table, size), size)
  }

  /** The two tables hold the same entries under the same budget. */
  ghost predicate Tied(d: Dyn, p: Peer) {
    d.entries == p.table && d.max == p.max && Sound(d)
  }

  lemma {:induction false} SizeOfPrefix(t: seq<Field>, n: nat)
    requires n <= |t|
    ensures Size(t[..n]) <= Size(t)
    ensures n < |t| ==> Size(t[..n]) < Size(t)
    decreases |t| - n
  {
    if n < |t| {
      SizeOfPrefix(t, n + 1);
      assert t[..n + 1][..n] == t[..n];
    } else {
      assert t[..n] == t;
    }
  }

  /** `Trim` keeps a prefix, and no longer prefix fits. */
  lemma {:induction false} TrimIsLongest(t: seq<Field>, room: nat, n: nat)
    requires n <= |t|
    ensures Trim(t, room) <= t
    ensures Size(t[..n]) <= room ==> n <= |Trim(t, room)|
  {
    if Size(t) > room {
      SizeOfPrefix(t, n);
      if n < |t| {
        TrimIsLongest(t[..|t| - 1], room, n);
        assert t[..|t| - 1][..n] == t[..n];
      } else {
        assert t[..n] == t;
        TrimIsLongest(t[..|t| - 1], room, 0);
      }
    }
  }

  lemma {:induction false} SizeOfCons(f: Field, t: seq<Field>)
    ensures Size([f] + t) == EntrySize(f) + Size(t)
  {
    if t == [] {
      assert ([f] + t)[..0] == [] && [f] + t == [f];
    } else {
      assert ([f] + t)[..|t|] == [f] + t[..|t| - 1];
      SizeOfCons(f, t[..|t| - 1]);
    }
  }

  /** Eviction by running byte count keeps what fits beside `need` bytes. */
  lemma {:induction false} EvictIsTrim(d: Dyn, need: nat)
    requires d.used == Size(d.entries)
    ensures var e := Evict(d, need);
            && e.max == d.max && e.used == Size(e.entries)
            && e.entries == (if need <= d.max then Trim(d.entries, d.max - need) else [])
    decreases |d.entries|
  {
    if d.entries != [] && d.used + need > d.max {
      var last := |d.entries| - 1;
      EvictIsTrim(Dyn(d.entries[..last], d.used - EntrySize(d.entries[last]), d.max), need);
    }
  }

  lemma ShrinkMatches(d: Dyn, p: Peer, size: nat)
    requires Tied(d, p)
    ensures Tied(Shrink(d, size), PeerResize(p, size))
  {
    EvictIsTrim(d.(max := size), 0);
  }

  lemma OwnedInsertMatches(d: Dyn, p: Peer, f: Field)
    requires Tied(d, p)
    ensures Tied(Insert(d, f), PeerInsert(p, f))
            <==> EntrySize(f) <= d.max || (d.max != 0 && d.entries == [])
  {
    EvictIsTrim(d, EntrySize(f));
    if d.max == 0 || EntrySize(f) <= d.max {
      SizeOfCons(f, Evict(d, EntrySize(f)).entries);
    }
  }

  /** Other text of the same length. */
  function Spoil(t: Text): (r: Text)
    ensures |r| == |t| && (t != [] ==> r != t)
  {
    if t == [] then [] else [if t[0] == 0 then 1 else 0] + t[1..]
  }

  /** What the freed name reads as decides whether the tables stay equal. */
  lemma FreedName(d: Dyn, p: Peer, view: View, f: Field, stale: Text)
    requires Tied(d, p) && Freed(d, view, f) && EntrySize(f) <= d.max
    ensures Tied(InsertView(d, view, f, stale), PeerInsert(p, f)) <==> stale == f.name
  {
    OwnedInsertMatches(d, p, f);
    assert InsertView(d, view, f, stale).entries[0].name == stale;
    assert PeerInsert(p, f).table[0].name == f.name;
  }

  /** The source's insertion is sure to keep the tables equal exactly when the
      entry fits, or there was nothing to empty and the budget is not zero, and
      the eviction does not free the name on the way. */
  lemma InsertMatches(d: Dyn, p: Peer, view: View, f: Field)
    requires Tied(d, p)
    ensures (forall stale: Text :: |stale| == |f.name| ==>
               Tied(InsertView(d, view, f, stale), PeerInsert(p, f)))
            <==> (EntrySize(f) <= d.max || (d.max != 0 && d.entries == [])) && !Freed(d, view, f)
  {
    OwnedInsertMatches(d, p, f);
    if !Freed(d, view, f) {
      assert forall stale :: InsertView(d, view, f, stale) == Insert(d, f);
      assert |f.name| == |f.name| && InsertView(d, view, f, f.name) == Insert(d, f);
    } else {
      var stale := Spoil(f.name);
      if EntrySize(f) <= d.max {
        FreedName(d, p, view, f, stale);
      } else {
        assert InsertView(d, view, f, stale).entries != [] && PeerInsert(p, f).table == [];
      }
    }
  }

  /** A zero budget is the one that insertion overruns. */
  lemma InsertStaysSound(d: Dyn, f: Field)
    requires Sound(d)
    ensures Sound(Insert(d, f)) <==> d.max != 0
  {
    EvictIsTrim(d, EntrySize(f));
    if d.max == 0 || EntrySize(f) <= d.max {
      SizeOfCons(f, Evict(d, EntrySize(f)).entries);
    }
  }

  /** The two departures from section 4.4, on concrete tables. */
  lemma OversizedEntryIsIgnored(kept: Field, big: Field)
    requires EntrySize(kept) <= 64 < EntrySize(big)
    ensures var d := Dyn([kept], EntrySize(kept), 64);
            && Insert(d, big) == d
            && PeerInsert(Peer([kept], 64), big).table == []
            && Insert(Dyn([], 0, 0), big) == Dyn([big], EntrySize(big), 0)
  {
    assert [big] + [] == [big];
  }

  /** An insertion that frees its own name, at a table of one entry under the
      default budget: the new entry takes the value and loses the name. */
  lemma NameFreedByItsOwnInsertion(kept: Field, value: Text, stale: Text)
    requires |kept.name| == 1000 && |kept.value| == 3000 && |value| == 100
    ensures var d := Dyn([kept], EntrySize(kept), 4096); var f := Field(kept.name, value);
            && Tied(d, Peer([kept], 4096)) && EntrySize(f) <= 4096
            && Freed(d, Entry(0), f)
            && InsertView(d, Entry(0), f, stale).entries == [Field(stale, value)]
            && PeerInsert(Peer([kept], 4096), f).table == [f]
  {
    var d := Dyn([kept], EntrySize(kept), 4096);
    var f := Field(kept.name, value);
    assert Size([kept]) == Size([]) + EntrySize(kept);
    assert Evict(d, EntrySize(f)).entries == [];
    EvictIsTrim(d, EntrySize(f));
  }

  // ---------------------------------------------------------------------
  // A table with more at its end
  // ---------------------------------------------------------------------

  /** The decoder's table begins as the sender's: it may hold older entries besides. */
  ghost predicate Ahead(d: Dyn, p: Peer) {
    p.table <= d.entries && d.max == p.max && d.used == Size(d.entries)
  }

  lemma {:induction false} TrimExtends(t: seq<Field>, u: seq<Field>, room: nat)
    requires t <= u
    ensures Trim(t, room) <= Trim(u, room)
    decreases |u|
  {
    if Size(u) <= room {
      SizeOfPrefix(u, |t|);
      assert u[..|t|] == t;
    } else if |t| < |u| {
      TrimExtends(t, u[..|u| - 1], room);
    } else {
      assert t == u;
    }
  }

  lemma ShrinkStaysAhead(d: Dyn, p: Peer, size: nat)
    requires Ahead(d, p)
    ensures Ahead(Shrink(d, size), PeerResize(p, size))
  {
    EvictIsTrim(d.(max := size), 0);
    TrimExtends(p.table, d.entries, size);
  }

  /** What the sender's own eviction spares, the decoder's does. */
  lemma SparedAhead(d: Dyn, p: Peer, view: View, f: Field)
    requires Ahead(d, p) && !Freed(Dyn(p.table, Size(p.table), p.max), view, f)
    requires view.Entry? ==> view.position < |p.table|
    ensures !Freed(d, view, f)
  {
    var q := Dyn(p.table, Size(p.table), p.max);
    var need := EntrySize(f);
    EvictIsTrim(d, need);
    EvictIsTrim(q, need);
    if need <= p.max {
      TrimExtends(p.table, d.entries, p.max - need);
    }
  }

  /** Whatever the size of the entry, an insertion whose name the sender's own eviction
      spares leaves the decoder's table ahead. */
  lemma InsertStaysAhead(d: Dyn, p: Peer, view: View, f: Field, stale: Text)
    requires Ahead(d, p) && !Freed(Dyn(p.table, Size(p.table), p.max), view, f)
    requires view.Entry? ==> view.position < |p.table|
    ensures Ahead(InsertView(d, view, f, stale), PeerInsert(p, f))
    ensures !Freed(d, view, f)
  {
    var need := EntrySize(f);
    SparedAhead(d, p, view, f);
    EvictIsTrim(d, need);
    if need <= p.max {
      TrimExtends(p.table, d.entries, p.max - need);
    }
    SizeOfCons(f, Evict(d, need).entries);
  }
}
