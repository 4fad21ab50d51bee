/** Chunked transfer coding: the resumable decoder of the HTTP client against the
    chunked writer of the server. */
module Chunked {
  import opened Bytes
  import Digits

  const MAX_BODY: nat := 33554432
  const LINE_CAP: nat := 266
  const PIECE_CAP: nat := 8192

  const CR: byte := 13
  const LF: byte := 10
  const SEMICOLON: byte := 59

  datatype Reason = LineTooLong | Malformed | TooMuch | Missing | BodyTooLarge | NotTerminated | TrailerTooLong

  /** Where `Chunk_Reader` stands, and the body collected so far. */
  datatype Phase = SizeLine | Payload | Terminator | Trailers

  datatype Reader = Reader(phase: Phase, pending: nat, crlfSeen: nat, line: Text, body: Text)

  const Fresh: Reader := Reader(SizeLine, 0, 0, [], [])

  datatype Sized = Size(n: nat) | Refused(why: Reason)

  /** The digit loop over a size line: a carriage return or an extension ends it. */
  function SizeFrom(line: Text, n: nat, digits: nat): Sized {
    if line == [] || line[0] == CR || line[0] == SEMICOLON then
      if digits == 0 then Refused(Missing) else Size(n)
    else if Digits.HexValue(line[0]) == 16 then Refused(Malformed)
    else if n * 16 + Digits.HexValue(line[0]) > MAX_BODY then Refused(TooMuch)
    else SizeFrom(line[1..], n * 16 + Digits.HexValue(line[0]), digits + 1)
  }

  // ---------------------------------------------------------------------
  // One octet at a time
  // ---------------------------------------------------------------------

  datatype Move = Go(r: Reader) | Stop(r: Reader) | Refuse(why: Reason)

  function EndSizeLine(r: Reader): Move {
    match SizeFrom(r.line, 0, 0)
    case Refused(why) => Refuse(why)
    case Size(n) => Go(if n == 0 then r.(phase := Trailers, line := []) else r.(phase := Payload, pending := n, line := []))
  }

  function Step(r: Reader, b: byte): Move {
    match r.phase
    case SizeLine =>
      if b == LF then EndSizeLine(r)
      else if |r.line| >= LINE_CAP then Refuse(LineTooLong)
      else Go(r.(line := r.line + [b]))
    case Payload =>
      if |r.body| >= MAX_BODY then Refuse(BodyTooLarge)
      else
        var r1 := r.(body := r.body + [b]);
        Go(if r.pending <= 1 then r1.(phase := Terminator, pending := 0, crlfSeen := 0)
           else r1.(pending := r.pending - 1))
    case Terminator =>
      if b != (if r.crlfSeen == 0 then CR else LF) then Refuse(NotTerminated)
      else Go(if r.crlfSeen == 0 then r.(crlfSeen := 1) else r.(phase := SizeLine, crlfSeen := 2))
    case Trailers =>
      if b == LF then
        if r.line == [] || r.line == [CR] then Stop(r) else Go(r.(line := []))
      else if |r.line| >= LINE_CAP then Refuse(TrailerTooLong)
      else Go(r.(line := r.line + [b]))
  }

  /** What a stretch of input comes to: more is needed, the framing ended with
      `rest` behind it, or it is malformed. */
  datatype Verdict = More(r: Reader) | Finished(r: Reader, rest: Text) | Failed(why: Reason)

  function Run(r: Reader, s: Text): Verdict
    decreases |s|
  {
    if s == [] then More(r)
    else
      match Step(r, s[0])
      case Go(r') => Run(r', s[1..])
      case Stop(r') => Finished(r', s[1..])
      case Refuse(why) => Failed(why)
  }

  /** Arrival in two parts. */
  lemma {:induction false} RunSplit(r: Reader, a: Text, b: Text)
    ensures Run(r, a + b)
            == match Run(r, a)
               case More(r') => Run(r', b)
               case Finished(r', rest) => Finished(r', rest + b)
               case Failed(why) => Failed(why)
    decreases |a|
  {
    if a == [] {
      assert a + b == b;
    } else {
      assert (a + b)[1..] == a[1..] + b;
      match Step(r, a[0])
      case Go(r') => RunSplit(r', a[1..], b);
      case _ =>
    }
  }

  /** Feeding a stream part by part, as it arrives. */
  function RunParts(r: Reader, parts: seq<Text>): Verdict
    decreases |parts|
  {
    if parts == [] then More(r)
    else
      match Run(r, parts[0])
      case More(r') => RunParts(r', parts[1..])
      case Finished(r', rest) => Finished(r', rest + Flatten(parts[1..]))
      case Failed(why) => Failed(why)
  }

  /** Fragmentation is invisible: any split gives the verdict, the body and the
      octets left over of the whole. */
  lemma {:induction false} AnySplit(r: Reader, parts: seq<Text>)
    ensures RunParts(r, parts) == Run(r, Flatten(parts))
    decreases |parts|
  {
    if parts != [] {
      RunSplit(r, parts[0], Flatten(parts[1..]));
      var v := Run(r, parts[0]);
      if v.More? {
        AnySplit(v.r, parts[1..]);
      }
    }
  }

  // ---------------------------------------------------------------------
  // Stretches the decoder takes at once
  // ---------------------------------------------------------------------

  predicate Lined(p: Phase) { p == SizeLine || p == Trailers }

  /** Line octets up to the cap. */
  lemma {:induction false} RunLine(r: Reader, l: Text, s: Text)
    requires Lined(r.phase) && LF !in l && |r.line| + |l| <= LINE_CAP
    ensures Run(r, l + s) == Run(r.(line := r.line + l), s)
    decreases |l|
  {
    if l == [] {
      assert l + s == s && r.line + l == r.line;
    } else {
      assert (l + s)[1..] == l[1..] + s;
      RunLine(r.(line := r.line + [l[0]]), l[1..], s);
      assert r.line + [l[0]] + l[1..] == r.line + l;
    }
  }

  function AfterPayload(r: Reader, taken: Text): Reader
    requires |taken| <= r.pending
  {
    var r1 := r.(body := r.body + taken, pending := r.pending - |taken|);
    if r1.pending == 0 then r1.(phase := Terminator, crlfSeen := 0) else r1
  }

  /** A stretch of payload fits or is refused as a whole. */
  lemma {:induction false} RunPayload(r: Reader, p: Text, s: Text)
    requires r.phase == Payload && 1 <= |p| <= r.pending && |r.body| <= MAX_BODY
    ensures Run(r, p + s) == if |r.body| + |p| > MAX_BODY then Failed(BodyTooLarge) else Run(AfterPayload(r, p), s)
    decreases |p|
  {
    assert (p + s)[1..] == p[1..] + s;
    if |r.body| < MAX_BODY {
      var r1 := AfterPayload(r, [p[0]]);
      if |p| == 1 {
        assert p == [p[0]] && p[1..] + s == s;
      } else {
        RunPayload(r1, p[1..], s);
        assert r.body + [p[0]] + p[1..] == r.body + p;
      }
    }
  }

  // ---------------------------------------------------------------------
  // The writer
  // ---------------------------------------------------------------------

  /** "%zx" */
  function Hex(n: nat): (s: Text)
    ensures |s| >= 1
  {
    if n < 16 then [Digits.HexDigit(n)] else Hex(n / 16) + [Digits.HexDigit(n % 16)]
  }

  function Chunk(c: Text): Text {
    Hex(|c|) + [CR, LF] + c + [CR, LF]
  }

  const Last: Text := [48, CR, LF, CR, LF]

  /** Empty chunks are left out: they would end the body. */
  function Chunks(cs: seq<Text>): Text {
    if cs == [] then [] else (if cs[0] == [] then [] else Chunk(cs[0])) + Chunks(cs[1..])
  }

  /** What the producer contributes: its pieces up to the first that is empty or
      larger than the buffer it was given. */
  function Pieces(ps: seq<Text>): seq<Text> {
    if ps == [] || ps[0] == [] || |ps[0]| > PIECE_CAP then [] else [ps[0]] + Pieces(ps[1..])
  }

  function Encoding(chunks: seq<Text>, ps: seq<Text>): Text {
    Chunks(chunks) + Chunks(Pieces(ps)) + Last
  }

  lemma {:induction false} HexShape(n: nat, width: nat)
    requires n < Span(width) && width >= 1
    ensures |Hex(n)| <= width && LF !in Hex(n)
    decreases n
  {
    if n >= 16 {
      assert width >= 2;
      HexShape(n / 16, width - 1);
    }
  }

  function Span(width: nat): nat { if width == 0 then 1 else 16 * Span(width - 1) }

  lemma Span16()
    ensures Span(16) == U64
  {
    assert Span(4) == 0x1_0000;
    assert Span(8) == 0x1_0000_0000;
    assert Span(12) == 0x1_0000_0000_0000;
  }

  /** Reading the digits of a length. */
  lemma {:induction false} SizeOfHex(n: nat, t: Text)
    ensures SizeFrom(Hex(n) + t, 0, 0) == if n > MAX_BODY then Refused(TooMuch) else SizeFrom(t, n, |Hex(n)|)
    decreases n
  {
    var d := Digits.HexDigit(n % 16);
    if n < 16 {
      assert (Hex(n) + t)[1..] == t;
    } else {
      var u := [d] + t;
      assert Hex(n) + t == Hex(n / 16) + u;
      SizeOfHex(n / 16, u);
      assert u[1..] == t;
    }
  }

  lemma SizeLineOf(r: Reader, n: nat, s: Text)
    requires r.phase == SizeLine && r.line == [] && n < U64
    ensures Run(r, Hex(n) + [CR, LF] + s)
            == if n > MAX_BODY then Failed(TooMuch)
               else Run(if n == 0 then r.(phase := Trailers) else r.(phase := Payload, pending := n), s)
  {
    Span16();
    HexShape(n, 16);
    var l := Hex(n) + [CR];
    assert Hex(n) + [CR, LF] + s == l + ([LF] + s);
    RunLine(r, l, [LF] + s);
    assert [] + l == l;
    assert ([LF] + s)[1..] == s;
    SizeOfHex(n, [CR]);
  }

  /** One chunk, from one size line to the next. */
  lemma RunChunk(r: Reader, c: Text, s: Text)
    requires r.phase == SizeLine && r.line == [] && 1 <= |c| < U64 && |r.body| <= MAX_BODY
    ensures if |r.body| + |c| > MAX_BODY then Run(r, Chunk(c) + s).Failed?
            else Run(r, Chunk(c) + s) == Run(r.(body := r.body + c, pending := 0, crlfSeen := 2), s)
  {
    var tail := [CR, LF] + s;
    assert Chunk(c) + s == Hex(|c|) + [CR, LF] + (c + tail);
    SizeLineOf(r, |c|, c + tail);
    if |c| <= MAX_BODY {
      var r1 := r.(phase := Payload, pending := |c|);
      RunPayload(r1, c, tail);
      assert tail[1..] == [LF] + s && tail[1..][1..] == s;
    }
  }

  ghost predicate Sizeable(cs: seq<Text>) {
    forall i :: 0 <= i < |cs| ==> |cs[i]| < U64
  }

  ghost function AfterChunks(r: Reader, cs: seq<Text>): Reader
    decreases |cs|
  {
    if cs == [] then r
    else AfterChunks(if cs[0] == [] then r else r.(body := r.body + cs[0], pending := 0, crlfSeen := 2), cs[1..])
  }

  lemma {:induction false} AfterChunksShape(r: Reader, cs: seq<Text>)
    ensures var r' := AfterChunks(r, cs);
            r'.phase == r.phase && r'.line == r.line && r'.body == r.body + Flatten(cs)
    decreases |cs|
  {
    if cs == [] {
      NothingAfter(r.body);
    } else {
      AfterChunksShape(if cs[0] == [] then r else r.(body := r.body + cs[0], pending := 0, crlfSeen := 2), cs[1..]);
      Associate(r.body, cs[0], Flatten(cs[1..]));
      NothingAfter(r.body);
    }
  }

  lemma ChunksCons(cs: seq<Text>, s: Text)
    requires cs != []
    ensures var rest := Chunks(cs[1..]) + s;
            Chunks(cs) + s == if cs[0] == [] then rest else Chunk(cs[0]) + rest
    ensures |Flatten(cs)| == |cs[0]| + |Flatten(cs[1..])|
  {
    if cs[0] == [] {
      assert [] + Chunks(cs[1..]) == Chunks(cs[1..]);
    } else {
      Associate(Chunk(cs[0]), Chunks(cs[1..]), s);
    }
  }

  /** A series of chunks appends its contents, until the cap. */
  lemma {:induction false} RunChunks(r: Reader, cs: seq<Text>, s: Text)
    requires r.phase == SizeLine && r.line == [] && |r.body| <= MAX_BODY && Sizeable(cs)
    ensures var v := Run(r, Chunks(cs) + s);
            if |r.body| + |Flatten(cs)| > MAX_BODY then v.Failed? else v == Run(AfterChunks(r, cs), s)
    decreases |cs|
  {
    if cs == [] {
      assert Chunks(cs) + s == s;
    } else {
      var rest := Chunks(cs[1..]) + s;
      ChunksCons(cs, s);
      if cs[0] == [] {
        RunChunks(r, cs[1..], s);
      } else {
        RunChunk(r, cs[0], rest);
        if |r.body| + |cs[0]| <= MAX_BODY {
          RunChunks(r.(body := r.body + cs[0], pending := 0, crlfSeen := 2), cs[1..], s);
        }
      }
    }
  }

  lemma RunLast(r: Reader, rest: Text)
    requires r.phase == SizeLine && r.line == []
    ensures Run(r, Last + rest) == Finished(r.(phase := Trailers, line := [CR]), rest)
  {
    var tail := [CR, LF] + rest;
    assert Last + rest == Hex(0) + [CR, LF] + tail;
    SizeLineOf(r, 0, tail);
    assert tail[1..] == [LF] + rest && tail[1..][1..] == rest;
  }

  lemma {:induction false} ChunksTwice(a: seq<Text>, b: seq<Text>)
    ensures Chunks(a + b) == Chunks(a) + Chunks(b)
    decreases |a|
  {
    if a == [] {
      assert a + b == b;
      assert [] + Chunks(b) == Chunks(b);
    } else {
      var c, rest := a[0], a[1..];
      ChunksTwice(rest, b);
      ChunksCons(a, Chunks(b));
      HeadOf(a, b);
      ChunksOf(a + b, c, rest + b);
    }
  }

  lemma HeadOf<T>(a: seq<T>, b: seq<T>)
    requires a != []
    ensures a + b == [a[0]] + (a[1..] + b)
  {
  }

  lemma ChunksOf(cs: seq<Text>, c: Text, rest: seq<Text>)
    requires cs == [c] + rest
    ensures Chunks(cs) == if c == [] then Chunks(rest) else Chunk(c) + Chunks(rest)
  {
    assert cs[1..] == rest;
    assert [] + Chunks(rest) == Chunks(rest);
  }

  lemma NothingAfter(t: Text)
    ensures t + [] == t
  {
  }

  lemma {:induction false} FlattenTwice(a: seq<Text>, b: seq<Text>)
    ensures Flatten(a + b) == Flatten(a) + Flatten(b)
    decreases |a|
  {
    if a == [] {
      assert a + b == b;
    } else {
      assert (a + b)[1..] == a[1..] + b;
      FlattenTwice(a[1..], b);
      Associate(a[0], Flatten(a[1..]), Flatten(b));
    }
  }

  lemma {:induction false} PiecesSizeable(ps: seq<Text>)
    ensures Sizeable(Pieces(ps))
  {
    if ps != [] && ps[0] != [] && |ps[0]| <= PIECE_CAP {
      PiecesSizeable(ps[1..]);
    }
  }

  /** What the server streams, the client decodes: the body comes out whole and the
      decoder stops exactly at its end, as long as it is within the client's cap;
      beyond the cap it is refused. */
  lemma DecodeEncoding(chunks: seq<Text>, ps: seq<Text>, rest: Text)
    requires Sizeable(chunks)
    ensures var whole := Flatten(chunks) + Flatten(Pieces(ps));
            var v := Run(Fresh, Encoding(chunks, ps) + rest);
            if |whole| > MAX_BODY then v.Failed?
            else v.Finished? && v.r.body == whole && v.rest == rest
  {
    var cs := chunks + Pieces(ps);
    PiecesSizeable(ps);
    ChunksTwice(chunks, Pieces(ps));
    FlattenTwice(chunks, Pieces(ps));
    Associate(Chunks(cs), Last, rest);
    RunChunks(Fresh, cs, Last + rest);
    AfterChunksShape(Fresh, cs);
    assert [] + Flatten(cs) == Flatten(cs);
    RunLast(AfterChunks(Fresh, cs), rest);
  }

  // ---------------------------------------------------------------------
  // The writer's loops
  // ---------------------------------------------------------------------

  /** One chunk on the wire. */
  method SendChunk(wire: Text, c: Text) returns (r: Text)
    ensures r == wire + Chunk(c)
  {
    r := wire + Hex(|c|) + [CR, LF];
    r := r + c;
    r := r + [CR, LF];
  }

  lemma ChunksFrom(wire: Text, chunks: seq<Text>, i: nat)
    requires i < |chunks|
    ensures wire + Chunks(chunks[i..])
            == (if chunks[i] == [] then wire else wire + Chunk(chunks[i])) + Chunks(chunks[i + 1..])
    ensures |Flatten(chunks[i..])| == |chunks[i]| + |Flatten(chunks[i + 1..])|
  {
    assert chunks[i..][1..] == chunks[i + 1..];
    Associate(wire, Chunk(chunks[i]), Chunks(chunks[i + 1..]));
    assert [] + Chunks(chunks[i + 1..]) == Chunks(chunks[i + 1..]);
  }

  /** The loop of `send_stream` over the queued chunks. */
  method SendQueued(chunks: seq<Text>) returns (wire: Text, sent: nat)
    ensures wire == Chunks(chunks) && sent == |Flatten(chunks)|
  {
    wire, sent := [], 0;
    var i := 0;
    assert chunks[0..] == chunks;
    while i < |chunks|
      invariant i <= |chunks| && wire + Chunks(chunks[i..]) == Chunks(chunks)
      invariant sent + |Flatten(chunks[i..])| == |Flatten(chunks)|
    {
      ChunksFrom(wire, chunks, i);
      if |chunks[i]| != 0 {
        sent := sent + |chunks[i]|;
        wire := SendChunk(wire, chunks[i]);
      }
      i := i + 1;
    }
    assert chunks[i..] == [];
    NothingAfter(wire);
  }

  /** The loop of `send_stream` over the producer. */
  method SendProduced(ps: seq<Text>) returns (wire: Text, sent: nat)
    ensures wire == Chunks(Pieces(ps)) && sent == |Flatten(Pieces(ps))|
  {
    wire, sent := [], 0;
    var i := 0;
    assert ps[0..] == ps;
    while i < |ps| && ps[i] != [] && |ps[i]| <= PIECE_CAP
      invariant i <= |ps| && wire + Chunks(Pieces(ps[i..])) == Chunks(Pieces(ps))
      invariant sent + |Flatten(Pieces(ps[i..]))| == |Flatten(Pieces(ps))|
    {
      assert ps[i..][1..] == ps[i + 1..];
      assert Pieces(ps[i..])[1..] == Pieces(ps[i + 1..]);
      Associate(wire, Chunk(ps[i]), Chunks(Pieces(ps[i + 1..])));
      sent := sent + |ps[i]|;
      wire := SendChunk(wire, ps[i]);
      i := i + 1;
    }
  }

  /** `send_stream`, after the head: the wire octets and the entity count. */
  method SendStream(chunks: seq<Text>, ps: seq<Text>) returns (wire: Text, sent: nat)
    ensures wire == Encoding(chunks, ps)
    ensures sent == |Flatten(chunks)| + |Flatten(Pieces(ps))|
  {
    var queued, n := SendQueued(chunks);
    var produced, m := SendProduced(ps);
    wire, sent := queued + produced + Last, n + m;
  }

  // ---------------------------------------------------------------------
  // The decoder as it runs
  // ---------------------------------------------------------------------

  /** `Chunk_Reader` and the body it fills. */
  class ChunkReader {
    var phase: Phase
    var pending: nat
    var crlfSeen: nat
    var line: Text
    var body: Text

    ghost function Now(): Reader
      reads this
    {
      Reader(phase, pending, crlfSeen, line, body)
    }

    ghost predicate Valid()
      reads this
    {
      && |line| <= LINE_CAP && |body| <= MAX_BODY
      && (phase == Payload ==> pending >= 1)
      && (phase == Terminator ==> crlfSeen <= 1)
    }

    constructor ()
      ensures Valid() && Now() == Fresh
    {
      phase, pending, crlfSeen, line, body := SizeLine, 0, 0, [], [];
    }

    /** Collects line octets up to a line feed or the end of the buffer. */
    method TakeLine(buf: Text, start: nat) returns (ok: bool, p: nat)
      requires Valid() && Lined(phase) && start < |buf|
      modifies this`line
      ensures Valid() && start <= p <= |buf|
      ensures ok ==> Run(Now(), buf[p..]) == old(Run(Now(), buf[start..])) && (p == |buf| || buf[p] == LF)
      ensures !ok ==> old(Run(Now(), buf[start..]))
                      == Failed(if phase == SizeLine then LineTooLong else TrailerTooLong)
    {
      p := start;
      while p < |buf| && buf[p] != LF
        invariant start <= p <= |buf| && Valid()
        invariant Run(Now(), buf[p..]) == old(Run(Now(), buf[start..]))
      {
        if |line| >= LINE_CAP {
          return false, p;
        }
        assert buf[p..][1..] == buf[p + 1..];
        line := line + [buf[p]];
        p := p + 1;
      }
      ok := true;
    }

    /** The size-line branch of `chunk_feed`. */
    method FeedSizeLine(buf: Text, start: nat) returns (o: Outcome, p: nat)
      requires Valid() && phase == SizeLine && start < |buf|
      modifies this
      ensures !o.Wrong? ==> Valid() && start < p <= |buf|
      ensures p <= |buf| && Follows(old(Run(Now(), buf[start..])), o, Now(), buf[p..])
    {
      var ok;
      ok, p := TakeLine(buf, start);
      if !ok {
        return Wrong(LineTooLong), p;
      }
      if p >= |buf| {
        return Going, p;
      }
      assert buf[p..][1..] == buf[p + 1..];
      p := p + 1;
      var size := ParseSize(line);
      if size.Refused? {
        return Wrong(size.why), p;
      }
      if size.n == 0 {
        phase := Trailers;
      } else {
        phase, pending := Payload, size.n;
      }
      line := [];
      o := Going;
    }

    /** The payload branch: everything at hand, up to what is owed. */
    method FeedPayload(buf: Text, start: nat) returns (o: Outcome, p: nat)
      requires Valid() && phase == Payload && start < |buf|
      modifies this
      ensures !o.Wrong? ==> Valid() && start < p <= |buf|
      ensures p <= |buf| && Follows(old(Run(Now(), buf[start..])), o, Now(), buf[p..])
    {
      var take := |buf| - start;
      if take > pending {
        take := pending;
      }
      p := start;
      assert buf[start..] == buf[start..start + take] + buf[start + take..];
      RunPayload(Now(), buf[start..start + take], buf[start + take..]);
      if |body| + take > MAX_BODY {
        return Wrong(BodyTooLarge), p;
      }
      body := body + buf[start..start + take];
      p := start + take;
      pending := pending - take;
      if pending == 0 {
        phase, crlfSeen := Terminator, 0;
      }
      o := Going;
    }

    /** The branch for the line end behind a payload. */
    method FeedTerminator(buf: Text, start: nat) returns (o: Outcome, p: nat)
      requires Valid() && phase == Terminator && start < |buf|
      modifies this
      ensures !o.Wrong? ==> Valid() && start < p <= |buf|
      ensures p <= |buf| && Follows(old(Run(Now(), buf[start..])), o, Now(), buf[p..])
    {
      p := start;
      ghost var goal := Run(Now(), buf[start..]);
      while crlfSeen < 2 && p < |buf|
        invariant start <= p <= |buf| && |line| <= LINE_CAP && |body| <= MAX_BODY && crlfSeen <= 2
        invariant p > start || crlfSeen <= 1
        invariant phase == Terminator
        invariant goal == Run(if crlfSeen == 2 then Now().(phase := SizeLine) else Now(), buf[p..])
      {
        assert buf[p..][1..] == buf[p + 1..];
        if buf[p] != (if crlfSeen == 0 then CR else LF) {
          return Wrong(NotTerminated), p + 1;
        }
        crlfSeen := crlfSeen + 1;
        p := p + 1;
      }
      if crlfSeen == 2 {
        phase := SizeLine;
      }
      o := Going;
    }

    /** The trailer branch: lines up to the blank one. */
    method FeedTrailers(buf: Text, start: nat) returns (o: Outcome, p: nat)
      requires Valid() && phase == Trailers && start < |buf|
      modifies this
      ensures !o.Wrong? ==> Valid() && start < p <= |buf|
      ensures p <= |buf| && Follows(old(Run(Now(), buf[start..])), o, Now(), buf[p..])
    {
      var ok;
      ok, p := TakeLine(buf, start);
      if !ok {
        return Wrong(TrailerTooLong), p;
      }
      if p >= |buf| {
        return Going, p;
      }
      assert buf[p..][1..] == buf[p + 1..];
      p := p + 1;
      if |line| == 0 || (|line| == 1 && line[0] == CR) {
        return Ended, p;
      }
      line := [];
      o := Going;
    }

    /** `chunk_feed`: 1 at the end of the framing, 0 when the buffer ran out, -1 on
        malformed input. */
    method Feed(buf: Text, start: nat) returns (rc: int, why: Option<Reason>, p: nat)
      requires Valid() && start <= |buf|
      modifies this
      ensures start <= p <= |buf| || rc == -1
      ensures match old(Run(Now(), buf[start..]))
              case More(r) => rc == 0 && p == |buf| && Now() == r && Valid()
              case Finished(r, rest) => rc == 1 && Now() == r && p <= |buf| && buf[p..] == rest
              case Failed(w) => rc == -1 && why == Some(w)
    {
      p, why := start, None;
      ghost var goal := Run(Now(), buf[start..]);
      while p < |buf|
        invariant start <= p <= |buf| && Valid() && Run(Now(), buf[p..]) == goal
      {
        var o;
        match phase {
          case SizeLine => o, p := FeedSizeLine(buf, p);
          case Payload => o, p := FeedPayload(buf, p);
          case Terminator => o, p := FeedTerminator(buf, p);
          case Trailers => o, p := FeedTrailers(buf, p);
        }
        if o.Wrong? {
          return -1, Some(o.why), p;
        }
        if o.Ended? {
          return 1, None, p;
        }
      }
      assert buf[p..] == [];
      rc := 0;
    }
  }

  datatype Outcome = Going | Ended | Wrong(why: Reason)

  /** How a branch of the decoder leaves the verdict of the input. */
  ghost predicate Follows(goal: Verdict, o: Outcome, r: Reader, rest: Text) {
    match o
    case Going => Run(r, rest) == goal
    case Ended => goal == Finished(r, rest)
    case Wrong(why) => goal == Failed(why)
  }

  /** The digit loop as written. */
  method ParseSize(line: Text) returns (r: Sized)
    ensures r == SizeFrom(line, 0, 0)
  {
    var n: nat, digits: nat, i := 0, 0, 0;
    assert line[0..] == line;
    while i < |line| && line[i] != CR && line[i] != SEMICOLON
      invariant i <= |line| && SizeFrom(line[i..], n, digits) == SizeFrom(line, 0, 0)
    {
      assert line[i..][1..] == line[i + 1..];
      var d := Digits.HexValue(line[i]);
      if d == 16 {
        return Refused(Malformed);
      }
      n, digits := n * 16 + d, digits + 1;
      if n > MAX_BODY {
        return Refused(TooMuch);
      }
      i := i + 1;
    }
    r := if digits == 0 then Refused(Missing) else Size(n);
  }
}
