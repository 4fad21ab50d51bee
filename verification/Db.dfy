/** The file-backed key-value store: an array of entries searched linearly, a
    running byte total, and a length-framed file image. */
module Db {
  import opened Bytes

  datatype Entry = Entry(key: Text, value: Text)

  /** Two 32-bit lengths and the payloads. */
  function EntrySize(e: Entry): nat {
    8 + |e.key| + |e.value|
  }

  function Total(es: seq<Entry>): nat {
    if es == [] then 0 else Total(es[..|es| - 1]) + EntrySize(es[|es| - 1])
  }

  // ---------------------------------------------------------------------
  // The file image
  // ---------------------------------------------------------------------

  /** The low `width` octets of n, least significant first. */
  function Le(n: nat, width: nat): (r: Text)
    ensures |r| == width
  {
    if width == 0 then [] else [n % 256] + Le(n / 256, width - 1)
  }

  function Number(d: Text): nat {
    if d == [] then 0 else d[0] + 256 * Number(d[1..])
  }

  /** `put_u32`, which keeps the low 32 bits. */
  function Le32(n: nat): (r: Text)
    ensures |r| == 4
  {
    Le(n, 4)
  }

  /** `get_u32`. */
  function Rd32(d: Text): nat
    requires |d| >= 4
  {
    Number(d[..4])
  }

  function Framed(e: Entry): Text {
    Le32(|e.key|) + e.key + Le32(|e.value|) + e.value
  }

  function Frames(es: seq<Entry>): Text {
    if es == [] then [] else Frames(es[..|es| - 1]) + Framed(es[|es| - 1])
  }

  /** What a sync writes: the version octet and the entries in order. */
  function Image(es: seq<Entry>): Text {
    [1] + Frames(es)
  }

  /** The first frame of `d`, if it is whole. */
  function TakeFrame(d: Text): (r: Parsed<Entry>)
    ensures r.Got? ==> |r.rest| < |d|
  {
    if |d| < 8 then Bad
    else
      var klen := Rd32(d);
      if klen > |d| - 4 || |d| - 4 - klen < 4 then Bad
      else
        var vlen := Rd32(d[4 + klen..]);
        if vlen > |d| - 8 - klen then Bad
        else Got(Entry(d[4..4 + klen], d[8 + klen..8 + klen + vlen]), d[8 + klen + vlen..])
  }

  /** The parse loop of `cweb_db_open`; trailing octets are refused. */
  function ParseFrames(d: Text): Option<seq<Entry>>
    decreases |d|
  {
    if d == [] then Some([])
    else
      match TakeFrame(d)
      case Bad => None
      case Got(e, rest) =>
        match ParseFrames(rest)
        case None => None
        case Some(es) => Some([e] + es)
  }

  function Parse(d: Text): Option<seq<Entry>> {
    if d == [] || d[0] != 1 then None else ParseFrames(d[1..])
  }

  /** Lengths that 32 bits can frame. */
  predicate Short(e: Entry) {
    |e.key| < U32 && |e.value| < U32
  }

  predicate AllShort(es: seq<Entry>) {
    forall i :: 0 <= i < |es| ==> Short(es[i])
  }

  function Span(width: nat): nat {
    if width == 0 then 1 else 256 * Span(width - 1)
  }

  lemma {:induction false} LeInverse(n: nat, width: nat)
    requires n < Span(width)
    ensures Number(Le(n, width)) == n
  {
    if width > 0 {
      LeInverse(n / 256, width - 1);
      assert Le(n, width)[1..] == Le(n / 256, width - 1);
    }
  }

  lemma {:induction false} NumberInverse(d: Text)
    ensures Number(d) < Span(|d|) && Le(Number(d), |d|) == d
  {
    if d != [] {
      NumberInverse(d[1..]);
      assert Number(d) % 256 == d[0] && Number(d) / 256 == Number(d[1..]);
    }
  }

  lemma {:induction false} Span4()
    ensures Span(4) == U32
  {
    assert Span(2) == 0x1_0000;
  }

  lemma {:induction false} Slices(a: Text, k: Text, b: Text, v: Text, rest: Text)
    requires |a| == 4 && |b| == 4
    ensures var d := a + k + b + v + rest;
            && d[..4] == a && d[4..4 + |k|] == k && d[4 + |k|..][..4] == b
            && d[8 + |k|..8 + |k| + |v|] == v && d[8 + |k| + |v|..] == rest
  {
  }

  lemma {:induction false} TakeFramed(e: Entry, rest: Text)
    requires Short(e)
    ensures TakeFrame(Framed(e) + rest) == Got(e, rest)
  {
    var a, b := Le32(|e.key|), Le32(|e.value|);
    var d := a + e.key + b + e.value + rest;
    Slices(a, e.key, b, e.value, rest);
    Span4();
    LeInverse(|e.key|, 4);
    LeInverse(|e.value|, 4);
    assert d == Framed(e) + rest;
  }

  lemma {:induction false} Pieces(d: Text, k: nat, v: nat)
    requires 8 + k + v <= |d|
    ensures d == d[..4] + d[4..4 + k] + d[4 + k..][..4] + d[8 + k..8 + k + v] + d[8 + k + v..]
  {
    assert d[4 + k..][..4] == d[4 + k..8 + k];
    assert d[..4] + d[4..4 + k] == d[..4 + k];
    assert d[..4 + k] + d[4 + k..8 + k] == d[..8 + k];
    assert d[..8 + k] + d[8 + k..8 + k + v] == d[..8 + k + v];
  }

  /** Four octets are the number they stand for. */
  lemma {:induction false} Le32Inverse(d: Text)
    requires |d| >= 4
    ensures Rd32(d) < U32 && Le32(Rd32(d)) == d[..4]
  {
    Span4();
    NumberInverse(d[..4]);
  }

  lemma {:induction false} TakenFramed(d: Text)
    requires TakeFrame(d).Got?
    ensures var r := TakeFrame(d); Short(r.value) && d == Framed(r.value) + r.rest
  {
    var k := Rd32(d);
    var v := Rd32(d[4 + k..]);
    Le32Inverse(d);
    Le32Inverse(d[4 + k..]);
    Pieces(d, k, v);
  }

  lemma {:induction false} FramesCons(e: Entry, es: seq<Entry>)
    ensures Frames([e] + es) == Framed(e) + Frames(es)
  {
    if es == [] {
      assert [e] + es == [e] && [e][..0] == [];
      assert Frames([e]) == [] + Framed(e);
    } else {
      var front := es[..|es| - 1];
      assert ([e] + es)[..|es|] == [e] + front;
      FramesCons(e, front);
      Associate(Framed(e), Frames(front), Framed(es[|es| - 1]));
    }
  }

  lemma {:induction false} ParseOfFrames(es: seq<Entry>)
    requires AllShort(es)
    ensures ParseFrames(Frames(es)) == Some(es)
    decreases |es|
  {
    if es != [] {
      var tail := es[1..];
      assert es == [es[0]] + tail;
      FramesCons(es[0], tail);
      TakeFramed(es[0], Frames(tail));
      ParseOfFrames(tail);
    }
  }

  lemma {:induction false} FramesOfParse(d: Text)
    requires ParseFrames(d).Some?
    ensures var es := ParseFrames(d).value; AllShort(es) && d == Frames(es)
    decreases |d|
  {
    if d != [] {
      var r := TakeFrame(d);
      TakenFramed(d);
      FramesOfParse(r.rest);
      FramesCons(r.value, ParseFrames(r.rest).value);
    }
  }

  /** Opening accepts exactly the images of short entries, each as its entries:
      nothing truncated, padded or otherwise altered is taken for a store. */
  lemma {:induction false} ParseIffImage(d: Text, es: seq<Entry>)
    ensures Parse(d) == Some(es) <==> d == Image(es) && AllShort(es)
  {
    if d == Image(es) && AllShort(es) {
      assert d[1..] == Frames(es);
      ParseOfFrames(es);
    }
    if Parse(d) == Some(es) {
      FramesOfParse(d[1..]);
      assert d == [1] + d[1..];
    }
  }

  lemma {:induction false} FramesLength(es: seq<Entry>)
    ensures |Frames(es)| == Total(es)
  {
    if es != [] {
      FramesLength(es[..|es| - 1]);
    }
  }

  // ---------------------------------------------------------------------
  // Contents
  // ---------------------------------------------------------------------

  /** Position of the first entry with the key, or the length. */
  function Find(es: seq<Entry>, key: Text, from: nat): (i: nat)
    requires from <= |es|
    ensures from <= i <= |es|
    ensures i < |es| ==> es[i].key == key
    ensures forall j :: from <= j < i ==> es[j].key != key
    decreases |es| - from
  {
    if from == |es| || es[from].key == key then from else Find(es, key, from + 1)
  }

  ghost predicate Distinct(es: seq<Entry>) {
    forall i, j :: 0 <= i < j < |es| ==> es[i].key != es[j].key
  }

  ghost function Contents(es: seq<Entry>): map<Text, Text> {
    if es == [] then map[]
    else Contents(es[..|es| - 1])[es[|es| - 1].key := es[|es| - 1].value]
  }

  /** The entries hold exactly the pairs of m, each once. */
  ghost predicate Holds(es: seq<Entry>, m: map<Text, Text>) {
    Distinct(es) && m == Contents(es)
  }

  lemma {:induction false} ContentsAt(es: seq<Entry>, i: nat)
    requires Distinct(es) && i < |es|
    ensures es[i].key in Contents(es) && Contents(es)[es[i].key] == es[i].value
  {
    var last := |es| - 1;
    if i < last {
      ContentsAt(es[..last], i);
    }
  }

  lemma {:induction false} ContentsFound(es: seq<Entry>, key: Text)
    requires key in Contents(es)
    ensures exists i :: 0 <= i < |es| && es[i].key == key
  {
    var last := |es| - 1;
    if es[last].key != key {
      ContentsFound(es[..last], key);
      var i :| 0 <= i < last && es[..last][i].key == key;
      assert es[i].key == key;
    }
  }

  lemma {:induction false} ContentsUpdate(es: seq<Entry>, i: nat, e: Entry)
    requires Distinct(es) && i < |es| && e.key == es[i].key
    ensures Contents(es[i := e]) == Contents(es)[e.key := e.value]
  {
    var last := |es| - 1;
    if i == last {
      assert es[i := e][..last] == es[..last];
    } else {
      ContentsUpdate(es[..last], i, e);
      assert es[i := e][..last] == es[..last][i := e];
      assert es[i].key != es[last].key;
    }
  }

  function Put(es: seq<Entry>, key: Text, value: Text): seq<Entry> {
    var i := Find(es, key, 0);
    if i < |es| then es[i := Entry(key, value)] else es + [Entry(key, value)]
  }

  lemma {:induction false} LookupHolds(es: seq<Entry>, m: map<Text, Text>, key: Text)
    requires Holds(es, m)
    ensures var i := Find(es, key, 0);
            if i < |es| then key in m && m[key] == es[i].value else key !in m
  {
    var i := Find(es, key, 0);
    if i < |es| {
      ContentsAt(es, i);
    } else if key in m {
      ContentsFound(es, key);
    }
  }

  lemma {:induction false} PutHolds(es: seq<Entry>, m: map<Text, Text>, key: Text, value: Text)
    requires Holds(es, m)
    ensures Holds(Put(es, key, value), m[key := value])
  {
    var i := Find(es, key, 0);
    if i < |es| {
      ContentsUpdate(es, i, Entry(key, value));
      DistinctUpdate(es, i, Entry(key, value));
    } else {
      ContentsAppend(es, Entry(key, value));
    }
  }

  lemma {:induction false} DistinctUpdate(es: seq<Entry>, i: nat, e: Entry)
    requires Distinct(es) && i < |es| && e.key == es[i].key
    ensures Distinct(es[i := e])
  {
  }

  lemma {:induction false} ContentsAppend(es: seq<Entry>, e: Entry)
    requires Distinct(es) && forall j :: 0 <= j < |es| ==> es[j].key != e.key
    ensures Distinct(es + [e]) && Contents(es + [e]) == Contents(es)[e.key := e.value]
  {
    assert (es + [e])[..|es|] == es;
  }

  lemma {:induction false} RemoveDistinct(es: seq<Entry>, i: nat)
    requires Distinct(es) && i < |es|
    ensures Distinct(SwapRemove(es, i))
  {
  }

  lemma {:induction false} RemoveHolds(es: seq<Entry>, m: map<Text, Text>, i: nat)
    requires Holds(es, m) && i < |es|
    ensures Holds(SwapRemove(es, i), m - {es[i].key})
  {
    RemoveDistinct(es, i);
    var last, r := |es| - 1, SwapRemove(es, i);
    var now := Contents(r);
    forall k | k in now
      ensures k in m && k != es[i].key && m[k] == now[k]
    {
      ContentsFound(r, k);
      var j :| 0 <= j < last && r[j].key == k;
      ContentsAt(r, j);
      ContentsAt(es, if j == i then last else j);
    }
    forall k | k in m && k != es[i].key
      ensures k in now
    {
      ContentsFound(es, k);
      var j :| 0 <= j < |es| && es[j].key == k;
      ContentsAt(r, if j == last then i else j);
    }
  }

  lemma {:induction false} TotalUpdate(es: seq<Entry>, i: nat, e: Entry)
    requires i < |es|
    ensures Total(es[i := e]) == Total(es) - EntrySize(es[i]) + EntrySize(e)
    ensures Total(es) >= EntrySize(es[i])
  {
    var last := |es| - 1;
    if i == last {
      assert es[i := e][..last] == es[..last];
    } else {
      assert es[i := e][..last] == es[..last][i := e];
      TotalUpdate(es[..last], i, e);
    }
  }

  lemma {:induction false} TotalRemove(es: seq<Entry>, i: nat)
    requires i < |es|
    ensures Total(SwapRemove(es, i)) == Total(es) - EntrySize(es[i])
  {
    var last := |es| - 1;
    if i < last {
      TotalUpdate(es, i, es[last]);
      assert SwapRemove(es, i) == es[i := es[last]][..last];
    }
  }

  lemma {:induction false} TotalAppend(es: seq<Entry>, e: Entry)
    ensures Total(es + [e]) == Total(es) + EntrySize(e)
  {
    assert (es + [e])[..|es|] == es;
  }

  // ---------------------------------------------------------------------
  // What a sync leaves on disk
  // ---------------------------------------------------------------------

  /** An empty store is no file. */
  function OnDisk(es: seq<Entry>): Option<Text> {
    if es == [] then None else Some(Image(es))
  }

  /** What opening finds: an absent file is an empty store. */
  function Open(file: Option<Text>): Option<seq<Entry>> {
    match file
    case None => Some([])
    case Some(d) => Parse(d)
  }

  /** A synced store opens as itself exactly when every length fits its field. */
  lemma {:induction false} ReopenIffShort(es: seq<Entry>)
    ensures Open(OnDisk(es)) == Some(es) <==> AllShort(es)
  {
    if es != [] {
      ParseIffImage(Image(es), es);
    }
  }

  // ---------------------------------------------------------------------
  // The store object
  // ---------------------------------------------------------------------

  class Store {
    var entries: seq<Entry>
    var total: int
    var dirty: bool
    var file: Option<Text>
    ghost var M: map<Text, Text>
    ghost var synced: seq<Entry>
    ghost var F: map<Text, Text>

    /** M is the map in memory. `synced` is the store as of the last sync, and F its
        map; the file is its image. */
    ghost predicate Valid()
      reads this
    {
      && Holds(entries, M)
      && total == Total(entries)
      && file == OnDisk(synced)
      && Holds(synced, F)
      && (!dirty ==> synced == entries)
    }

    /** `cweb_db_open` over a missing file. */
    constructor ()
      ensures Valid() && M == map[] && F == map[] && entries == [] && file == None && !dirty
    {
      entries, total, dirty, file, M, synced, F := [], 0, false, None, map[], [], map[];
    }

    /** `cweb_db_open` over a file whose entries are `es`. */
    constructor Reopen(file: Option<Text>, es: seq<Entry>, total: nat, ghost m: map<Text, Text>)
      requires Open(file) == Some(es) && file == OnDisk(es) && total == Total(es) && Holds(es, m)
      ensures Valid() && M == F == m && entries == es && !dirty && this.file == file
    {
      entries, this.total, dirty, this.file, M, synced, F := es, total, false, file, m, es, m;
    }

    /** The parse loop of `cweb_db_open`. */
    static method Load(data: Text) returns (r: Option<seq<Entry>>, total: nat)
      ensures r == Parse(data) && (r.Some? ==> total == Total(r.value))
    {
      total := 0;
      if data == [] || data[0] != 1 {
        return None, 0;
      }
      var es: seq<Entry> := [];
      var d := data[1..];
      ghost var goal := ParseFrames(d);
      assert goal.Some? ==> [] + goal.value == goal.value;
      while d != []
        invariant total == Total(es)
        invariant goal == match ParseFrames(d) { case None => None case Some(more) => Some(es + more) }
        decreases |d|
      {
        var f := TakeFrame(d);
        if f.Bad? {
          return None, 0;
        }
        ghost var more := ParseFrames(f.rest);
        assert more.Some? ==> es + ([f.value] + more.value) == es + [f.value] + more.value;
        TotalAppend(es, f.value);
        es := es + [f.value];
        total := total + EntrySize(f.value);
        d := f.rest;
      }
      assert es + [] == es;
      r := Some(es);
    }

    /** `db_find`. */
    method FindEntry(key: Text) returns (i: nat)
      ensures i == Find(entries, key, 0)
    {
      i := 0;
      while i < |entries| && entries[i].key != key
        invariant i <= |entries| && Find(entries, key, 0) == Find(entries, key, i)
      {
        i := i + 1;
      }
    }

    /** `cweb_db_get`. */
    method Get(key: Text) returns (r: Option<Text>)
      requires Valid()
      ensures r == if key in M then Some(M[key]) else None
    {
      var i := FindEntry(key);
      LookupHolds(entries, M, key);
      r := if i < |entries| then Some(entries[i].value) else None;
    }

    /** An entry for a key that is there, or one more. */
    method PutEntry(key: Text, value: Text)
      requires total == Total(entries)
      modifies this`entries, this`total
      ensures entries == Put(old(entries), key, value) && total == Total(entries)
    {
      var i := FindEntry(key);
      if i < |entries| {
        TotalUpdate(entries, i, Entry(key, value));
        total := total + (8 + |key| + |value|) - EntrySize(entries[i]);
        entries := entries[i := Entry(key, value)];
      } else {
        TotalAppend(entries, Entry(key, value));
        entries := entries + [Entry(key, value)];
        total := total + 8 + |key| + |value|;
      }
    }

    /** `cweb_db_put`. */
    method Insert(key: Text, value: Text)
      requires Valid()
      modifies this
      ensures Valid() && M == old(M)[key := value] && dirty && file == old(file) && F == old(F)
      ensures synced == old(synced)
    {
      PutHolds(entries, M, key, value);
      PutEntry(key, value);
      dirty := true;
      M := M[key := value];
    }

    /** The swap-remove of `cweb_db_delete`. */
    method RemoveEntry(i: nat)
      requires Valid() && i < |entries|
      modifies this`entries, this`total, this`dirty, this`M
      ensures Valid() && M == old(M) - {old(entries)[i].key} && dirty
    {
      RemoveHolds(entries, M, i);
      TotalRemove(entries, i);
      M := M - {entries[i].key};
      total := total - EntrySize(entries[i]);
      entries := SwapRemove(entries, i);
      dirty := true;
    }

    /** `cweb_db_delete`. */
    method Delete(key: Text) returns (rc: int)
      requires Valid()
      modifies this
      ensures Valid() && M == old(M) - {key} && file == old(file) && F == old(F)
      ensures synced == old(synced)
      ensures rc == if key in old(M) then 0 else -1
      ensures dirty == (old(dirty) || key in old(M))
    {
      var i := FindEntry(key);
      LookupHolds(entries, M, key);
      if i == |entries| {
        return -1;
      }
      RemoveEntry(i);
      rc := 0;
    }

    /** The loop of `cweb_db_sync` that lays the image out. */
    static method BuildImage(entries: seq<Entry>) returns (buf: Text)
      ensures buf == Image(entries)
    {
      buf := [1];
      var i := 0;
      assert entries[..0] == [];
      while i < |entries|
        invariant i <= |entries| && buf == Image(entries[..i])
      {
        assert entries[..i + 1][..i] == entries[..i];
        ghost var was := buf;
        buf := buf + Le32(|entries[i].key|);
        buf := buf + entries[i].key;
        buf := buf + Le32(|entries[i].value|);
        buf := buf + entries[i].value;
        assert buf == was + Framed(entries[i]);
        i := i + 1;
      }
      assert entries[..i] == entries;
    }

    /** `cweb_db_sync`: the image replaces the file in one rename, unless the write
        fails. The byte accounting is never what fails. */
    method Sync(written: bool) returns (rc: int)
      requires Valid()
      modifies this`dirty, this`file, this`synced, this`F
      ensures Valid()
      ensures if entries == [] || written then rc == 0 && !dirty && synced == entries && F == M
              else rc == -1 && dirty == old(dirty) && synced == old(synced) && F == old(F)
    {
      if |entries| == 0 {
        file := None;
        dirty := false;
        synced, F := [], M;
        return 0;
      }
      var buf := BuildImage(entries);
      FramesLength(entries);
      rc := -1;
      if |buf| == total + 1 && written {
        file := Some(buf);
        dirty := false;
        synced, F := entries, M;
        rc := 0;
      }
    }
  }
}
