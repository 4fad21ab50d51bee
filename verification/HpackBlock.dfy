/** Header blocks, against any conforming encoder. */
module HpackBlock {
  // The decoder of `hpack_decode_block`, as a function of the block and the table it
  // starts from.

  import opened Bytes
  import Int = HpackInteger
  import Huffman = HpackHuffman
  import opened HpackTable

  const MAX_STRING: nat := 65536

  /** The table limit of the protocol, which this server leaves at its default. */
  const TABLE_LIMIT: nat := 4096

  /** The constant tables, 61 static entries and the Huffman code, and what the
      memory of a freed name reads as, which is anything of the same length. */
  datatype Codec = Codec(statics: seq<Field>, codes: seq<Huffman.Bits>, stale: Text -> Text)

  predicate Sized(c: Codec) {
    |c.statics| == 61 && |c.codes| == 257
  }

  ghost predicate Good(c: Codec) {
    Sized(c) && Huffman.Good(c.codes) && forall t: Text :: |c.stale(t)| == |t|
  }

  // ---------------------------------------------------------------------
  // Decoding
  // ---------------------------------------------------------------------

  /** The combined index space, static entries first. */
  function Lookup(c: Codec, entries: seq<Field>, index: nat): Option<Field>
    requires Sized(c)
  {
    if 1 <= index <= 61 then Some(c.statics[index - 1])
    else if index >= 62 && index - 62 < |entries| then Some(entries[index - 62])
    else None
  }

  function ReadString(c: Codec, s: Text): (r: Parsed<Text>)
    requires Sized(c)
    ensures r.Got? ==> |r.rest| < |s|
  {
    if s == [] then Bad
    else
      match Int.Decode(s, 128)
      case Bad => Bad
      case Got(len, rest) =>
        if len > MAX_STRING || |rest| < len then Bad
        else if s[0] < 128 then Got(rest[..len], rest[len..])
        else
          match Huffman.Decode(c.codes, rest[..len])
          case None => Bad
          case Some(text) => Got(text, rest[len..])
  }

  function ReadName(c: Codec, entries: seq<Field>, s: Text, full: nat): (r: Parsed<Text>)
    requires Sized(c) && Int.IsPrefix(full)
    ensures r.Got? ==> |r.rest| < |s|
  {
    match Int.Decode(s, full)
    case Bad => Bad
    case Got(index, rest) =>
      if index == 0 then ReadString(c, rest)
      else
        match Lookup(c, entries, index)
        case None => Bad
        case Some(f) => Got(f.name, rest)
  }

  function ReadLiteral(c: Codec, entries: seq<Field>, s: Text, full: nat): (r: Parsed<Field>)
    requires Sized(c) && Int.IsPrefix(full)
    ensures r.Got? ==> |r.rest| < |s|
  {
    match ReadName(c, entries, s, full)
    case Bad => Bad
    case Got(name, rest) =>
      match ReadString(c, rest)
      case Bad => Bad
      case Got(value, rest') => Got(Field(name, value), rest')
  }

  function ReadIndexed(c: Codec, entries: seq<Field>, s: Text): (r: Parsed<Field>)
    requires Sized(c)
    ensures r.Got? ==> |r.rest| < |s|
  {
    match Int.Decode(s, 128)
    case Bad => Bad
    case Got(index, rest) =>
      match Lookup(c, entries, index)
      case None => Bad
      case Some(f) => Got(f, rest)
  }

  datatype Outcome = Fail | Done(fields: seq<Field>, dyn: Dyn)

  function Cons(f: Field, o: Outcome): Outcome {
    if o.Fail? then Fail else Done([f] + o.fields, o.dyn)
  }

  /** The representation kinds of section 6, told apart by the first octet. */
  datatype Kind = Resizing | Indexing | Adding | Plain

  function KindOf(b: byte): Kind {
    if 32 <= b < 64 then Resizing else if b >= 128 then Indexing else if b >= 64 then Adding else Plain
  }

  /** A field representation, of any of the three kinds. */
  function ReadField(c: Codec, entries: seq<Field>, s: Text): (r: Parsed<Field>)
    requires Sized(c) && s != []
    ensures r.Got? ==> |r.rest| < |s|
  {
    if KindOf(s[0]) == Indexing then ReadIndexed(c, entries, s)
    else ReadLiteral(c, entries, s, if KindOf(s[0]) == Adding then 64 else 16)
  }

  /** Where the name half of a literal that is to be added points to. */
  function ViewAt(s: Text): View {
    match Int.Decode(s, 64)
    case Bad => Owned
    case Got(index, _) => if index >= 62 then Entry(index - 62) else Owned
  }

  function Add(c: Codec, d: Dyn, view: View, f: Field): Dyn {
    InsertView(d, view, f, c.stale(f.name))
  }

  /** The loop of `hpack_decode_block`; `any` says that a field was seen, after
      which a size update is an error. */
  function DecodeFrom(c: Codec, d: Dyn, s: Text, any: bool): Outcome
    requires Sized(c)
    decreases |s|
  {
    if s == [] then Done([], d)
    else if KindOf(s[0]) == Resizing then
      match Int.Decode(s, 32)
      case Bad => Fail
      case Got(size, rest) =>
        if any || size > d.max then Fail else DecodeFrom(c, Shrink(d, size), rest, false)
    else
      match ReadField(c, d.entries, s)
      case Bad => Fail
      case Got(f, rest) =>
        Cons(f, DecodeFrom(c, if KindOf(s[0]) == Adding then Add(c, d, ViewAt(s), f) else d, rest, true))
  }

  // ---------------------------------------------------------------------
  // What an encoder may send
  // ---------------------------------------------------------------------

  /** A string literal, plain or Huffman coded. */
  datatype Str = Raw(text: Text) | Coded(text: Text)

  datatype Name = Ref(index: nat) | Lit(str: Str)

  datatype Rep =
    | Resize(size: nat)
    | Indexed(index: nat)
    | Incremental(name: Name, value: Str)
    | Unindexed(never: bool, name: Name, value: Str)

  function Payload(c: Codec, s: Str): Text
    requires Sized(c)
  {
    if s.Raw? then s.text else Huffman.Encode(c.codes, s.text)
  }

  function WriteString(c: Codec, s: Str): Text
    requires Sized(c)
  {
    Int.Encode(|Payload(c, s)|, 128, if s.Raw? then 0 else 128) + Payload(c, s)
  }

  function WriteName(c: Codec, n: Name, full: nat, pattern: byte): (r: Text)
    requires Sized(c) && Int.IsPattern(pattern, full)
    ensures |r| >= 1 && pattern <= r[0] < pattern + full
  {
    match n
    case Ref(index) => Int.Encode(index, full, pattern)
    case Lit(str) => Int.Encode(0, full, pattern) + WriteString(c, str)
  }

  function Write(c: Codec, r: Rep): (s: Text)
    requires Sized(c)
    ensures |s| >= 1
  {
    match r
    case Resize(size) => Int.Encode(size, 32, 32)
    case Indexed(index) => Int.Encode(index, 128, 128)
    case Incremental(name, value) => WriteName(c, name, 64, 64) + WriteString(c, value)
    case Unindexed(never, name, value) =>
      WriteName(c, name, 16, if never then 16 else 0) + WriteString(c, value)
  }

  /** The name a literal stands for, in the sender's own table. */
  function NameOf(c: Codec, p: Peer, n: Name): Text
    requires Sized(c)
  {
    match n
    case Ref(index) => (match Lookup(c, p.table, index) case None => [] case Some(f) => f.name)
    case Lit(str) => str.text
  }

  /** The field a representation stands for, if it is one. */
  function FieldOf(c: Codec, p: Peer, r: Rep): Option<Field>
    requires Sized(c)
  {
    match r
    case Resize(_) => None
    case Indexed(index) => Lookup(c, p.table, index)
    case Incremental(name, value) => Some(Field(NameOf(c, p, name), value.text))
    case Unindexed(_, name, value) => Some(Field(NameOf(c, p, name), value.text))
  }

  function NextPeer(c: Codec, p: Peer, r: Rep): Peer
    requires Sized(c)
  {
    match r
    case Resize(size) => PeerResize(p, size)
    case Incremental(name, value) => PeerInsert(p, Field(NameOf(c, p, name), value.text))
    case _ => p
  }

  predicate StringFits(c: Codec, s: Str)
    requires Sized(c)
  {
    |Payload(c, s)| <= MAX_STRING
  }

  /** A literal whose length the integer coding of the source can carry. */
  predicate Carried(c: Codec, s: Str)
    requires Sized(c)
  {
    |Payload(c, s)| < U32
  }

  predicate LegalName(c: Codec, p: Peer, n: Name)
    requires Sized(c)
  {
    match n
    case Ref(index) => index < U32 && Lookup(c, p.table, index).Some?
    case Lit(str) => Carried(c, str)
  }

  /** What sections 4 and 6 let the sender emit next: a new budget up to the limit of
      the protocol, and entries and strings of any size. */
  predicate Legal(c: Codec, p: Peer, r: Rep, any: bool)
    requires Sized(c)
  {
    match r
    case Resize(size) => !any && size <= TABLE_LIMIT
    case Indexed(index) => index < U32 && Lookup(c, p.table, index).Some?
    case Incremental(name, value) => LegalName(c, p, name) && Carried(c, value)
    case Unindexed(_, name, value) => LegalName(c, p, name) && Carried(c, value)
  }

  predicate NameFits(c: Codec, n: Name)
    requires Sized(c)
  {
    n.Lit? ==> StringFits(c, n.str)
  }

  /** The decoder accepts the representation: it does not raise the budget, and its
      strings are within the limit. */
  predicate Readable(c: Codec, p: Peer, r: Rep)
    requires Sized(c)
  {
    match r
    case Resize(size) => size <= p.max
    case Indexed(_) => true
    case Incremental(name, value) => NameFits(c, name) && StringFits(c, value)
    case Unindexed(_, name, value) => NameFits(c, name) && StringFits(c, value)
  }

  /** Where the receiver's copy of a name comes from. */
  function ViewOf(n: Name): View {
    if n.Ref? && n.index >= 62 then Entry(n.index - 62) else Owned
  }

  /** The representation does not name the entry that its own insertion evicts. */
  predicate NameKept(c: Codec, p: Peer, r: Rep)
    requires Sized(c)
  {
    r.Incremental? ==>
      !Freed(Dyn(p.table, Size(p.table), p.max), ViewOf(r.name), Field(NameOf(c, p, r.name), r.value.text))
  }

  /** An insertion that evicts from both tables alike: the entry fits, or empties a
      table that is empty already. */
  predicate EvictsAlike(c: Codec, p: Peer, r: Rep)
    requires Sized(c)
  {
    r.Incremental? ==>
      EntrySize(Field(NameOf(c, p, r.name), r.value.text)) <= p.max || (p.max != 0 && p.table == [])
  }

  /** What the decoder reads as it is meant, now and later. The sender can look all of
      this up in its own table. */
  predicate Meant(c: Codec, p: Peer, r: Rep)
    requires Sized(c)
  {
    Readable(c, p, r) && NameKept(c, p, r)
  }

  /** What leaves the two tables equal besides. */
  predicate Followed(c: Codec, p: Peer, r: Rep)
    requires Sized(c)
  {
    Meant(c, p, r) && EvictsAlike(c, p, r)
  }

  function WriteBlock(c: Codec, reps: seq<Rep>): Text
    requires Sized(c)
  {
    if reps == [] then [] else Write(c, reps[0]) + WriteBlock(c, reps[1..])
  }

  predicate LegalBlock(c: Codec, p: Peer, reps: seq<Rep>, any: bool)
    requires Sized(c)
    decreases |reps|
  {
    reps != [] ==>
      && Legal(c, p, reps[0], any)
      && LegalBlock(c, NextPeer(c, p, reps[0]), reps[1..], any || !reps[0].Resize?)
  }

  /** The header list a block stands for. */
  function Fields(c: Codec, p: Peer, reps: seq<Rep>): seq<Field>
    requires Sized(c)
    decreases |reps|
  {
    if reps == [] then []
    else
      var tail := Fields(c, NextPeer(c, p, reps[0]), reps[1..]);
      match FieldOf(c, p, reps[0])
      case None => tail
      case Some(f) => [f] + tail
  }

  function PeerAfter(c: Codec, p: Peer, reps: seq<Rep>): Peer
    requires Sized(c)
    decreases |reps|
  {
    if reps == [] then p else PeerAfter(c, NextPeer(c, p, reps[0]), reps[1..])
  }

  // ---------------------------------------------------------------------
  // Lock step
  // ---------------------------------------------------------------------

  lemma ReadWriteString(c: Codec, s: Str, rest: Text)
    requires Good(c) && |Payload(c, s)| < U32
    ensures ReadString(c, WriteString(c, s) + rest)
            == if StringFits(c, s) then Got(s.text, rest) else Bad
  {
    var pay := Payload(c, s);
    var head := Int.Encode(|pay|, 128, if s.Raw? then 0 else 128);
    var all := WriteString(c, s) + rest;
    assert all == head + (pay + rest);
    assert all[0] == head[0];
    Int.RoundTrip(|pay|, 128, if s.Raw? then 0 else 128, pay + rest);
    assert (pay + rest)[..|pay|] == pay && (pay + rest)[|pay|..] == rest;
    if s.Coded? {
      Huffman.DecodeIffEncoded(c.codes, pay, s.text);
    }
  }

  lemma ReadWriteName(c: Codec, entries: seq<Field>, p: Peer, n: Name, full: nat, pattern: byte, rest: Text)
    requires Good(c) && Int.IsPattern(pattern, full) && LegalName(c, p, n) && p.table <= entries
    ensures ReadName(c, entries, WriteName(c, n, full, pattern) + rest, full)
            == if NameFits(c, n) then Got(NameOf(c, p, n), rest) else Bad
  {
    match n
    case Ref(index) =>
      Int.RoundTrip(index, full, pattern, rest);
    case Lit(str) =>
      var tail := WriteString(c, str) + rest;
      assert WriteName(c, n, full, pattern) + rest == Int.Encode(0, full, pattern) + tail;
      Int.RoundTrip(0, full, pattern, tail);
      ReadWriteString(c, str, rest);
  }

  lemma ReadWriteLiteral(c: Codec, entries: seq<Field>, p: Peer, n: Name, v: Str, full: nat, pattern: byte,
                         rest: Text)
    requires Good(c) && Int.IsPattern(pattern, full) && LegalName(c, p, n) && p.table <= entries && Carried(c, v)
    ensures ReadLiteral(c, entries, WriteName(c, n, full, pattern) + WriteString(c, v) + rest, full)
            == if NameFits(c, n) && StringFits(c, v) then Got(Field(NameOf(c, p, n), v.text), rest) else Bad
  {
    var tail := WriteString(c, v) + rest;
    Associate(WriteName(c, n, full, pattern), WriteString(c, v), rest);
    ReadWriteName(c, entries, p, n, full, pattern, tail);
    ReadWriteString(c, v, rest);
  }

  /** The outcome of the rest of a block, put behind one representation. */
  ghost function Behind(f: Option<Field>, o: Outcome): Outcome {
    if f.None? then o else Cons(f.value, o)
  }

  ghost function NextDyn(c: Codec, d: Dyn, p: Peer, r: Rep): Dyn
    requires Sized(c)
  {
    match r
    case Resize(size) => Shrink(d, size)
    case Incremental(name, value) => Add(c, d, ViewOf(name), Field(NameOf(c, p, name), value.text))
    case _ => d
  }

  /** A freed name never happens to read as what it was. */
  ghost predicate Spoils(c: Codec) {
    forall t: Text :: t != [] ==> c.stale(t) != t
  }

  lemma ViewAtStart(c: Codec, p: Peer, n: Name, rest: Text)
    requires Good(c) && LegalName(c, p, n)
    ensures ViewAt(WriteName(c, n, 64, 64) + rest) == ViewOf(n)
  {
    match n
    case Ref(index) =>
      Int.RoundTrip(index, 64, 64, rest);
    case Lit(str) =>
      var tail := WriteString(c, str) + rest;
      assert WriteName(c, n, 64, 64) + rest == Int.Encode(0, 64, 64) + tail;
      Int.RoundTrip(0, 64, 64, tail);
  }

  /** The head of a representation that adds an entry. */
  lemma AddedHead(c: Codec, p: Peer, name: Name, value: Str, rest: Text)
    requires Good(c) && LegalName(c, p, name)
    ensures var s := WriteName(c, name, 64, 64) + WriteString(c, value) + rest;
            s != [] && KindOf(s[0]) == Adding && ViewAt(s) == ViewOf(name)
  {
    var tail := WriteString(c, value) + rest;
    Associate(WriteName(c, name, 64, 64), WriteString(c, value), rest);
    assert (WriteName(c, name, 64, 64) + tail)[0] == WriteName(c, name, 64, 64)[0];
    ViewAtStart(c, p, name, tail);
  }

  lemma AddedRead(c: Codec, entries: seq<Field>, p: Peer, name: Name, value: Str, rest: Text)
    requires Good(c) && LegalName(c, p, name) && Carried(c, value) && p.table <= entries
    ensures var s := WriteName(c, name, 64, 64) + WriteString(c, value) + rest;
            && s != [] && KindOf(s[0]) == Adding && ViewAt(s) == ViewOf(name)
            && ReadField(c, entries, s)
               == if NameFits(c, name) && StringFits(c, value) then Got(Field(NameOf(c, p, name), value.text), rest)
                  else Bad
  {
    AddedHead(c, p, name, value, rest);
    ReadWriteLiteral(c, entries, p, name, value, 64, 64, rest);
  }

  lemma AddedInLockStep(c: Codec, d: Dyn, p: Peer, name: Name, value: Str, rest: Text, any: bool)
    requires Good(c) && Ahead(d, p) && Legal(c, p, Incremental(name, value), any)
    ensures var r := Incremental(name, value); var f := Field(NameOf(c, p, name), value.text);
            DecodeFrom(c, d, Write(c, r) + rest, any)
            == if Readable(c, p, r) then Cons(f, DecodeFrom(c, Add(c, d, ViewOf(name), f), rest, true)) else Fail
  {
    AddedRead(c, d.entries, p, name, value, rest);
  }

  lemma PlainInLockStep(c: Codec, d: Dyn, p: Peer, r: Rep, rest: Text, any: bool)
    requires Good(c) && Ahead(d, p) && Legal(c, p, r, any) && r.Unindexed?
    ensures var f := Field(NameOf(c, p, r.name), r.value.text);
            DecodeFrom(c, d, Write(c, r) + rest, any)
            == if Readable(c, p, r) then Cons(f, DecodeFrom(c, d, rest, true)) else Fail
  {
    var s := Write(c, r) + rest;
    assert s[0] == Write(c, r)[0];
    ReadWriteLiteral(c, d.entries, p, r.name, r.value, 16, if r.never then 16 else 0, rest);
  }

  lemma ResizeInLockStep(c: Codec, d: Dyn, p: Peer, size: nat, rest: Text, any: bool)
    requires Good(c) && Ahead(d, p) && Legal(c, p, Resize(size), any)
    ensures DecodeFrom(c, d, Write(c, Resize(size)) + rest, any)
            == if size <= p.max then DecodeFrom(c, Shrink(d, size), rest, false) else Fail
  {
    Int.RoundTrip(size, 32, 32, rest);
  }

  lemma IndexedInLockStep(c: Codec, d: Dyn, p: Peer, index: nat, rest: Text, any: bool)
    requires Good(c) && Ahead(d, p) && Legal(c, p, Indexed(index), any)
    ensures DecodeFrom(c, d, Write(c, Indexed(index)) + rest, any)
            == Cons(Lookup(c, p.table, index).value, DecodeFrom(c, d, rest, true))
  {
    var s := Write(c, Indexed(index)) + rest;
    assert s[0] == Write(c, Indexed(index))[0];
    Int.RoundTrip(index, 128, 128, rest);
  }

  /** One representation that the decoder accepts is read as what it means, whatever
      becomes of the table; it refuses any other. */
  lemma StepInLockStep(c: Codec, d: Dyn, p: Peer, r: Rep, rest: Text, any: bool)
    requires Good(c) && Ahead(d, p) && Legal(c, p, r, any)
    ensures DecodeFrom(c, d, Write(c, r) + rest, any)
            == if Readable(c, p, r)
               then Behind(FieldOf(c, p, r), DecodeFrom(c, NextDyn(c, d, p, r), rest, any || !r.Resize?))
               else Fail
  {
    match r
    case Resize(size) => ResizeInLockStep(c, d, p, size, rest, any);
    case Indexed(index) => IndexedInLockStep(c, d, p, index, rest, any);
    case Incremental(name, value) => AddedInLockStep(c, d, p, name, value, rest, any);
    case Unindexed(_, _, _) => PlainInLockStep(c, d, p, r, rest, any);
  }

  /** Both tables move alike over one representation if it spares its name and evicts
      alike, and only then if a freed name never reads as what it was. */
  lemma TablesMoveAlike(c: Codec, d: Dyn, p: Peer, r: Rep, any: bool)
    requires Good(c) && Tied(d, p) && Legal(c, p, r, any)
    ensures NameKept(c, p, r) && EvictsAlike(c, p, r) ==> Tied(NextDyn(c, d, p, r), NextPeer(c, p, r))
    ensures Spoils(c) ==>
              (Tied(NextDyn(c, d, p, r), NextPeer(c, p, r)) <==> NameKept(c, p, r) && EvictsAlike(c, p, r))
  {
    match r
    case Resize(size) => ShrinkMatches(d, p, size);
    case Incremental(name, value) =>
      var f := Field(NameOf(c, p, name), value.text);
      OwnedInsertMatches(d, p, f);
      if Freed(d, ViewOf(name), f) && EntrySize(f) <= d.max {
        FreedName(d, p, ViewOf(name), f, c.stale(f.name));
      } else if Freed(d, ViewOf(name), f) {
        assert NextDyn(c, d, p, r).entries != [] && NextPeer(c, p, r).table == [];
      }
    case _ =>
  }

  /** The decoder's table stays ahead over any representation that spares its name. */
  lemma TableStaysAhead(c: Codec, d: Dyn, p: Peer, r: Rep, any: bool)
    requires Good(c) && Ahead(d, p) && Legal(c, p, r, any) && NameKept(c, p, r)
    ensures Ahead(NextDyn(c, d, p, r), NextPeer(c, p, r))
  {
    match r
    case Resize(size) => ShrinkStaysAhead(d, p, size);
    case Incremental(name, value) =>
      var f := Field(NameOf(c, p, name), value.text);
      InsertStaysAhead(d, p, ViewOf(name), f, c.stale(f.name));
    case _ =>
  }

  ghost predicate MeantBlock(c: Codec, p: Peer, reps: seq<Rep>)
    requires Sized(c)
    decreases |reps|
  {
    reps != [] ==> Meant(c, p, reps[0]) && MeantBlock(c, NextPeer(c, p, reps[0]), reps[1..])
  }

  ghost predicate FollowedBlock(c: Codec, p: Peer, reps: seq<Rep>)
    requires Sized(c)
    decreases |reps|
  {
    reps != [] ==> Followed(c, p, reps[0]) && FollowedBlock(c, NextPeer(c, p, reps[0]), reps[1..])
  }

  /** The decoder's table, after each representation of a block, is the sender's. */
  ghost predicate InStep(c: Codec, d: Dyn, p: Peer, reps: seq<Rep>, any: bool)
    requires Sized(c)
    decreases |reps|
  {
    reps != [] ==>
      var o := DecodeFrom(c, d, Write(c, reps[0]), any);
      && o.Done? && Tied(o.dyn, NextPeer(c, p, reps[0]))
      && InStep(c, o.dyn, NextPeer(c, p, reps[0]), reps[1..], any || !reps[0].Resize?)
  }

  /** The tables agree all through a block that is followed, and through no other if a
      freed name never reads as what it was. */
  lemma {:induction false} InStepIffFollowed(c: Codec, d: Dyn, p: Peer, reps: seq<Rep>, any: bool)
    requires Good(c) && Tied(d, p) && LegalBlock(c, p, reps, any)
    ensures FollowedBlock(c, p, reps) ==> InStep(c, d, p, reps, any)
    ensures Spoils(c) ==> (InStep(c, d, p, reps, any) <==> FollowedBlock(c, p, reps))
    decreases |reps|
  {
    if reps != [] {
      var r := reps[0];
      var next := NextDyn(c, d, p, r);
      StepInLockStep(c, d, p, r, [], any);
      assert Write(c, r) + [] == Write(c, r);
      TablesMoveAlike(c, d, p, r, any);
      if Tied(next, NextPeer(c, p, r)) {
        InStepIffFollowed(c, next, NextPeer(c, p, r), reps[1..], any || !r.Resize?);
      }
    }
  }

  /** One block: the encoded list comes out, and the decoder's table stays ahead. */
  lemma {:induction false} BlockAsMeant(c: Codec, d: Dyn, p: Peer, reps: seq<Rep>, any: bool)
    requires Good(c) && Ahead(d, p) && LegalBlock(c, p, reps, any) && MeantBlock(c, p, reps)
    ensures var o := DecodeFrom(c, d, WriteBlock(c, reps), any);
            o.Done? && o.fields == Fields(c, p, reps) && Ahead(o.dyn, PeerAfter(c, p, reps))
    decreases |reps|
  {
    if reps != [] {
      var r := reps[0];
      StepInLockStep(c, d, p, r, WriteBlock(c, reps[1..]), any);
      TableStaysAhead(c, d, p, r, any);
      BlockAsMeant(c, NextDyn(c, d, p, r), NextPeer(c, p, r), reps[1..], any || !r.Resize?);
    }
  }

  /** One block that is followed: the encoded list comes out, and the tables end up
      equal. */
  lemma {:induction false} BlockInLockStep(c: Codec, d: Dyn, p: Peer, reps: seq<Rep>, any: bool)
    requires Good(c) && Tied(d, p) && LegalBlock(c, p, reps, any) && FollowedBlock(c, p, reps)
    ensures var o := DecodeFrom(c, d, WriteBlock(c, reps), any);
            o.Done? && o.fields == Fields(c, p, reps) && Tied(o.dyn, PeerAfter(c, p, reps))
    decreases |reps|
  {
    if reps != [] {
      var r := reps[0];
      StepInLockStep(c, d, p, r, WriteBlock(c, reps[1..]), any);
      TablesMoveAlike(c, d, p, r, any);
      BlockInLockStep(c, NextDyn(c, d, p, r), NextPeer(c, p, r), reps[1..], any || !r.Resize?);
    }
  }

  // ---------------------------------------------------------------------
  // A whole connection
  // ---------------------------------------------------------------------

  datatype Session = Broken | Alive(lists: seq<seq<Field>>, dyn: Dyn)

  /** The decoder's table lives from block to block; an error ends the connection. */
  function DecodeAll(c: Codec, d: Dyn, blocks: seq<Text>): Session
    requires Sized(c)
    decreases |blocks|
  {
    if blocks == [] then Alive([], d)
    else
      match DecodeFrom(c, d, blocks[0], false)
      case Fail => Broken
      case Done(fields, d') =>
        match DecodeAll(c, d', blocks[1..])
        case Broken => Broken
        case Alive(lists, d'') => Alive([fields] + lists, d'')
  }

  function WriteAll(c: Codec, blocks: seq<seq<Rep>>): seq<Text>
    requires Sized(c)
  {
    if blocks == [] then [] else [WriteBlock(c, blocks[0])] + WriteAll(c, blocks[1..])
  }

  predicate LegalAll(c: Codec, p: Peer, blocks: seq<seq<Rep>>)
    requires Sized(c)
    decreases |blocks|
  {
    blocks != [] ==>
      LegalBlock(c, p, blocks[0], false) && LegalAll(c, PeerAfter(c, p, blocks[0]), blocks[1..])
  }

  function FieldsAll(c: Codec, p: Peer, blocks: seq<seq<Rep>>): seq<seq<Field>>
    requires Sized(c)
    decreases |blocks|
  {
    if blocks == [] then []
    else [Fields(c, p, blocks[0])] + FieldsAll(c, PeerAfter(c, p, blocks[0]), blocks[1..])
  }

  function PeerAfterAll(c: Codec, p: Peer, blocks: seq<seq<Rep>>): Peer
    requires Sized(c)
    decreases |blocks|
  {
    if blocks == [] then p else PeerAfterAll(c, PeerAfter(c, p, blocks[0]), blocks[1..])
  }

  ghost predicate MeantAll(c: Codec, p: Peer, blocks: seq<seq<Rep>>)
    requires Sized(c)
    decreases |blocks|
  {
    blocks != [] ==> MeantBlock(c, p, blocks[0]) && MeantAll(c, PeerAfter(c, p, blocks[0]), blocks[1..])
  }

  ghost predicate FollowedAll(c: Codec, p: Peer, blocks: seq<seq<Rep>>)
    requires Sized(c)
    decreases |blocks|
  {
    blocks != [] ==> FollowedBlock(c, p, blocks[0]) && FollowedAll(c, PeerAfter(c, p, blocks[0]), blocks[1..])
  }

  ghost predicate InStepAll(c: Codec, d: Dyn, p: Peer, blocks: seq<seq<Rep>>)
    requires Sized(c)
    decreases |blocks|
  {
    blocks != [] ==>
      var o := DecodeFrom(c, d, WriteBlock(c, blocks[0]), false);
      && InStep(c, d, p, blocks[0], false)
      && o.Done? && InStepAll(c, o.dyn, PeerAfter(c, p, blocks[0]), blocks[1..])
  }

  /** Over any connection that never raises its budget, sends no string over the limit
      and never names the entry that its own insertion evicts, every list is decoded as
      it was meant, whatever the sizes of its entries. */
  lemma {:induction false} AllAsMeant(c: Codec, d: Dyn, p: Peer, blocks: seq<seq<Rep>>)
    requires Good(c) && Ahead(d, p) && LegalAll(c, p, blocks) && MeantAll(c, p, blocks)
    ensures var o := DecodeAll(c, d, WriteAll(c, blocks));
            o.Alive? && o.lists == FieldsAll(c, p, blocks) && Ahead(o.dyn, PeerAfterAll(c, p, blocks))
    decreases |blocks|
  {
    if blocks != [] {
      BlockAsMeant(c, d, p, blocks[0], false);
      var wire := WriteAll(c, blocks);
      assert wire[0] == WriteBlock(c, blocks[0]) && wire[1..] == WriteAll(c, blocks[1..]);
      var o := DecodeFrom(c, d, wire[0], false);
      AllAsMeant(c, o.dyn, PeerAfter(c, p, blocks[0]), blocks[1..]);
    }
  }

  /** If its entries all evict alike, the two tables stay equal besides, and the byte
      count stays exact and within the budget. */
  lemma {:induction false} LockStep(c: Codec, d: Dyn, p: Peer, blocks: seq<seq<Rep>>)
    requires Good(c) && Tied(d, p) && LegalAll(c, p, blocks) && FollowedAll(c, p, blocks)
    ensures var o := DecodeAll(c, d, WriteAll(c, blocks));
            && o.Alive?
            && o.lists == FieldsAll(c, p, blocks)
            && Tied(o.dyn, PeerAfterAll(c, p, blocks))
    decreases |blocks|
  {
    if blocks != [] {
      BlockInLockStep(c, d, p, blocks[0], false);
      var wire := WriteAll(c, blocks);
      assert wire[0] == WriteBlock(c, blocks[0]) && wire[1..] == WriteAll(c, blocks[1..]);
      var o := DecodeFrom(c, d, wire[0], false);
      LockStep(c, o.dyn, PeerAfter(c, p, blocks[0]), blocks[1..]);
    }
  }

  /** The condition is exact: over anything that section 4 allows the tables agree at
      every step if every representation is followed, and only then if a freed name
      never reads as what it was. */
  lemma {:induction false} LockStepIffFollowed(c: Codec, d: Dyn, p: Peer, blocks: seq<seq<Rep>>)
    requires Good(c) && Tied(d, p) && LegalAll(c, p, blocks)
    ensures FollowedAll(c, p, blocks) ==> InStepAll(c, d, p, blocks)
    ensures Spoils(c) ==> (InStepAll(c, d, p, blocks) <==> FollowedAll(c, p, blocks))
    decreases |blocks|
  {
    if blocks != [] {
      InStepIffFollowed(c, d, p, blocks[0], false);
      if FollowedBlock(c, p, blocks[0]) {
        BlockInLockStep(c, d, p, blocks[0], false);
        var o := DecodeFrom(c, d, WriteBlock(c, blocks[0]), false);
        LockStepIffFollowed(c, o.dyn, PeerAfter(c, p, blocks[0]), blocks[1..]);
      }
    }
  }

  lemma IndexedAlone(c: Codec, d: Dyn, index: nat, f: Field)
    requires Good(c) && index < U32 && Lookup(c, d.entries, index) == Some(f)
    ensures DecodeFrom(c, d, WriteBlock(c, [Indexed(index)]), false) == Done([f], d)
  {
    var s := WriteBlock(c, [Indexed(index)]);
    Int.RoundTrip(index, 128, 128, []);
    assert [Indexed(index)][1..] == [] && WriteBlock(c, []) == [];
    assert s == Int.Encode(index, 128, 128) + [];
    assert DecodeFrom(c, d, [], true) == Done([], d);
  }

  /** A reference past the end of the table ends the connection. */
  lemma Unindexable(c: Codec, d: Dyn, index: nat)
    requires Good(c) && index < U32 && Lookup(c, d.entries, index).None?
    ensures DecodeAll(c, d, [WriteBlock(c, [Indexed(index)])]) == Broken
  {
    var s := WriteBlock(c, [Indexed(index)]);
    Int.RoundTrip(index, 128, 128, []);
    assert [Indexed(index)][1..] == [] && WriteBlock(c, []) == [];
    assert s == Int.Encode(index, 128, 128) + [];
  }

  lemma AddedAlone(c: Codec, d: Dyn, p: Peer, name: Name, value: Str)
    requires Good(c) && Tied(d, p) && Legal(c, p, Incremental(name, value), false)
    requires Readable(c, p, Incremental(name, value))
    ensures var f := Field(NameOf(c, p, name), value.text);
            DecodeFrom(c, d, WriteBlock(c, [Incremental(name, value)]), false) == Done([f], Add(c, d, ViewOf(name), f))
  {
    var f := Field(NameOf(c, p, name), value.text);
    AddedInLockStep(c, d, p, name, value, [], false);
    assert DecodeFrom(c, Add(c, d, ViewOf(name), f), [], true) == Done([], Add(c, d, ViewOf(name), f));
  }

  lemma TwoBlocks(c: Codec, d: Dyn, first: Text, second: Text, d': Dyn, f: seq<Field>, g: seq<Field>)
    requires Sized(c)
    requires DecodeFrom(c, d, first, false) == Done(f, d') && DecodeFrom(c, d', second, false) == Done(g, d')
    ensures DecodeAll(c, d, [first, second]) == Alive([f, g], d')
  {
    assert [first, second][1..] == [second] && [second][1..] == [];
    assert DecodeAll(c, d', []) == Alive([], d');
    assert DecodeAll(c, d', [second]) == Alive([g], d');
    assert [f] + [g] == [f, g];
  }

  lemma OneRep(c: Codec, p: Peer, r: Rep, f: Field)
    requires Sized(c) && Legal(c, p, r, false) && FieldOf(c, p, r) == Some(f)
    ensures Fields(c, p, [r]) == [f] && PeerAfter(c, p, [r]) == NextPeer(c, p, r)
    ensures LegalBlock(c, p, [r], false) && (FollowedBlock(c, p, [r]) <==> Followed(c, p, r))
  {
    var q := NextPeer(c, p, r);
    assert [r][1..] == [];
    assert Fields(c, q, []) == [] && PeerAfter(c, q, []) == q && LegalBlock(c, q, [], true) && FollowedBlock(c, q, []);
    assert [f] + [] == [f];
  }

  lemma TwoBlocksMeant(c: Codec, p: Peer, b: seq<Rep>, b': seq<Rep>)
    requires Sized(c) && LegalBlock(c, p, b, false) && LegalBlock(c, PeerAfter(c, p, b), b', false)
    ensures FieldsAll(c, p, [b, b']) == [Fields(c, p, b), Fields(c, PeerAfter(c, p, b), b')]
    ensures LegalAll(c, p, [b, b']) && (FollowedAll(c, p, [b, b']) ==> FollowedBlock(c, p, b))
    ensures WriteAll(c, [b, b']) == [WriteBlock(c, b), WriteBlock(c, b')]
  {
    var q := PeerAfter(c, p, b);
    var q' := PeerAfter(c, q, b');
    assert [b, b'][1..] == [b'] && [b'][1..] == [];
    assert FieldsAll(c, q', []) == [] && LegalAll(c, q', []) && WriteAll(c, []) == [];
    assert FieldsAll(c, q, [b']) == [Fields(c, q, b')] + [];
    assert LegalAll(c, q, [b']);
    assert WriteAll(c, [b']) == [WriteBlock(c, b')] + [];
  }

  /** A conforming pair of blocks that is misread: the first adds an entry under
      the name of the one it evicts, and the second, which refers to the new
      entry, comes out under whatever the freed memory held. */
  lemma FreedNameIsMisread(c: Codec, kept: Field, value: Text)
    requires Good(c) && Spoils(c)
    requires |kept.name| == 1000 && |kept.value| == 3000 && |value| == 100
    ensures var d := Dyn([kept], EntrySize(kept), 4096); var p := Peer([kept], 4096);
            var blocks := [[Incremental(Ref(62), Raw(value))], [Indexed(62)]];
            var o := DecodeAll(c, d, WriteAll(c, blocks));
            && Tied(d, p) && LegalAll(c, p, blocks) && !FollowedAll(c, p, blocks)
            && FieldsAll(c, p, blocks) == [[Field(kept.name, value)], [Field(kept.name, value)]]
            && o.Alive? && o.lists == [[Field(kept.name, value)], [Field(c.stale(kept.name), value)]]
            && c.stale(kept.name) != kept.name
  {
    var d := Dyn([kept], EntrySize(kept), 4096);
    var p := Peer([kept], 4096);
    var f := Field(kept.name, value);
    var misread := Field(c.stale(kept.name), value);
    NameFreedByItsOwnInsertion(kept, value, c.stale(kept.name));
    AddedAlone(c, d, p, Ref(62), Raw(value));
    var d' := Add(c, d, Entry(0), f);
    IndexedAlone(c, d', 62, misread);
    assert Size([kept]) == Size([]) + EntrySize(kept);
    OneRep(c, p, Incremental(Ref(62), Raw(value)), f);
    OneRep(c, Peer([f], 4096), Indexed(62), f);
    TwoBlocksMeant(c, p, [Incremental(Ref(62), Raw(value))], [Indexed(62)]);
    TwoBlocks(c, d, WriteBlock(c, [Incremental(Ref(62), Raw(value))]), WriteBlock(c, [Indexed(62)]), d', [f], [misread]);
  }

  /** A conforming block that ends the connection: the sender empties its table, as
      section 4.2 suggests, and takes its whole size again. */
  lemma RaiseIsRefused(c: Codec)
    requires Good(c)
    ensures var d := Dyn([], 0, TABLE_LIMIT); var p := Peer([], TABLE_LIMIT);
            var blocks := [[Resize(0), Resize(TABLE_LIMIT)]];
            && Tied(d, p) && LegalAll(c, p, blocks) && !FollowedAll(c, p, blocks)
            && DecodeAll(c, d, WriteAll(c, blocks)) == Broken
  {
    var d := Dyn([], 0, TABLE_LIMIT);
    var p := Peer([], TABLE_LIMIT);
    var empty := Peer([], 0);
    var reps := [Resize(0), Resize(TABLE_LIMIT)];
    assert reps[1..] == [Resize(TABLE_LIMIT)] && [Resize(TABLE_LIMIT)][1..] == [];
    assert NextPeer(c, p, Resize(0)) == empty && NextPeer(c, empty, Resize(TABLE_LIMIT)) == p;
    StepInLockStep(c, d, p, Resize(0), WriteBlock(c, reps[1..]), false);
    StepInLockStep(c, Dyn([], 0, 0), empty, Resize(TABLE_LIMIT), [], false);
    assert WriteBlock(c, reps[1..]) == Write(c, Resize(TABLE_LIMIT)) + WriteBlock(c, []);
    assert LegalBlock(c, p, [], false) && LegalBlock(c, empty, reps[1..], false);
    assert !FollowedBlock(c, empty, reps[1..]);
    assert [reps][1..] == [] && LegalAll(c, PeerAfter(c, p, reps), []);
  }
}
