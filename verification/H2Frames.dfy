/** HTTP/2 frames, on the wire and in header blocks. */
module H2Frames {
  // The wire form (`h2_send_frame`, `h2_frame_peek`), the splitting of a header block
  // into frames (`h2_send_header_block`) and the reassembly on the other side
  // (`h2_on_headers_start`, `h2_on_cont`).

  import opened Bytes

  const DATA: byte := 0
  const HEADERS: byte := 1
  const PRIORITY: byte := 2
  const RST: byte := 3
  const SETTINGS: byte := 4
  const PUSH_PROMISE: byte := 5
  const PING: byte := 6
  const GOAWAY: byte := 7
  const WINDOW: byte := 8
  const CONT: byte := 9

  const NO_ERROR: nat := 0
  const PROTOCOL: nat := 1
  const FLOW: nat := 3
  const STREAM_CLOSED: nat := 5
  const FRAME_SIZE: nat := 6
  const REFUSED: nat := 7
  const CANCEL: nat := 8
  const COMPRESSION: nat := 9
  const CALM: nat := 11

  const MAX_FRAME: nat := 16384
  const BLOCK_CAP: nat := 262144
  const U31: nat := 0x8000_0000

  datatype Frame = Frame(typ: byte, flags: byte, id: nat, payload: Text)

  /** END_STREAM and ACK share bit 0. */
  predicate EndStream(f: Frame) { f.flags % 2 == 1 }
  predicate EndHeaders(f: Frame) { f.flags / 4 % 2 == 1 }
  predicate Padded(f: Frame) { f.flags / 8 % 2 == 1 }
  predicate HasPriority(f: Frame) { f.flags / 32 % 2 == 1 }

  function Be32(v: nat): (r: Text)
    ensures |r| == 4
  {
    [v / 0x100_0000 % 256, v / 0x1_0000 % 256, v / 0x100 % 256, v % 256]
  }

  function Rd32(p: Text): nat
    requires |p| >= 4
  {
    p[0] as nat * 0x100_0000 + p[1] as nat * 0x1_0000 + p[2] as nat * 0x100 + p[3]
  }

  // ---------------------------------------------------------------------
  // Wire form
  // ---------------------------------------------------------------------

  predicate Sendable(f: Frame) {
    |f.payload| <= MAX_FRAME && f.id < U31
  }

  function Wire(f: Frame): Text {
    var len := |f.payload|;
    [len / 0x1_0000 % 256, len / 0x100 % 256, len % 256, f.typ, f.flags] + Be32(f.id) + f.payload
  }

  datatype Peeked = NeedMore | TooBig | Whole(f: Frame, rest: Text)

  /** `h2_frame_peek`, then `rb_discard` of the frame it found. */
  function Peek(rb: Text): Peeked {
    if |rb| < 9 then NeedMore
    else
      var len := rb[0] as nat * 0x1_0000 + rb[1] as nat * 0x100 + rb[2];
      if len > MAX_FRAME then TooBig
      else if |rb| < 9 + len then NeedMore
      else Whole(Frame(rb[3], rb[4], Rd32(rb[5..9]) % U31, rb[9..9 + len]), rb[9 + len..])
  }

  lemma {:induction false} Be32Inverse(v: nat)
    requires v < U32
    ensures Rd32(Be32(v)) == v
  {
    assert v / 0x100 == v / 0x1_0000 * 0x100 + v / 0x100 % 256;
    assert v / 0x1_0000 == v / 0x100_0000 * 0x100 + v / 0x1_0000 % 256;
  }

  lemma {:induction false} Be24Inverse(v: nat)
    requires v <= MAX_FRAME
    ensures v / 0x1_0000 % 256 * 0x1_0000 + v / 0x100 % 256 * 0x100 + v % 256 == v
  {
  }

  /** A frame is read back whole, leaving exactly what follows it. */
  lemma {:induction false} PeekWire(f: Frame, rest: Text)
    requires Sendable(f)
    ensures Peek(Wire(f) + rest) == Whole(f, rest)
  {
    var rb := Wire(f) + rest;
    var len := |f.payload|;
    Be24Inverse(len);
    Be32Inverse(f.id);
    assert rb[5..9] == Be32(f.id);
    assert rb[9..9 + len] == f.payload;
    assert rb[9 + len..] == rest;
  }

  /** A frame cut short is waited for. */
  lemma {:induction false} PeekPartial(f: Frame, n: nat)
    requires Sendable(f) && n < |Wire(f)|
    ensures Peek(Wire(f)[..n]) == NeedMore
  {
    Be24Inverse(|f.payload|);
  }

  // ---------------------------------------------------------------------
  // Splitting a header block
  // ---------------------------------------------------------------------

  function HeadFlags(first: bool, last: bool, end: bool): byte {
    (if last then 4 else 0) + (if first && end then 1 else 0)
  }

  /** The frame at offset `off`; the first one opens the block. */
  function Fragment(id: nat, block: Text, off: nat, end: bool): Frame
    requires off <= |block|
  {
    var take := if |block| - off > MAX_FRAME then MAX_FRAME else |block| - off;
    Frame(if off == 0 then HEADERS else CONT,
          HeadFlags(off == 0, off + take == |block|, end), id, block[off..off + take])
  }

  /** The frames from offset `off` on. */
  function Fragments(id: nat, block: Text, off: nat, end: bool): (r: seq<Frame>)
    requires off <= |block|
    decreases |block| - off
  {
    if off == |block| then []
    else
      var f := Fragment(id, block, off, end);
      [f] + Fragments(id, block, off + |f.payload|, end)
  }

  lemma {:induction false} FragmentsFrom(out: seq<Frame>, id: nat, block: Text, off: nat, end: bool)
    requires off < |block|
    ensures var f := Fragment(id, block, off, end);
            out + Fragments(id, block, off, end) == out + [f] + Fragments(id, block, off + |f.payload|, end)
  {
    var f := Fragment(id, block, off, end);
    Associate(out, [f], Fragments(id, block, off + |f.payload|, end));
  }

  /** `h2_send_header_block`: an empty block is announced twice. */
  function HeadFrames(id: nat, block: Text, end: bool): seq<Frame> {
    if block == [] then
      var f := Frame(HEADERS, HeadFlags(true, true, end), id, []);
      [f, f]
    else Fragments(id, block, 0, end)
  }

  /** `h2_send_header_block` as written. */
  method SplitBlock(id: nat, block: Text, end: bool) returns (out: seq<Frame>)
    ensures out == HeadFrames(id, block, end)
  {
    out := [];
    var off := 0;
    var more := true;
    while more
      invariant off <= |block|
      invariant block != [] ==> out + Fragments(id, block, off, end) == Fragments(id, block, 0, end)
      invariant block != [] ==> (more <==> off < |block|)
      invariant block == [] ==> out == if more then [] else [Frame(HEADERS, HeadFlags(true, true, end), id, [])]
      decreases |block| - off, more
    {
      if block != [] {
        FragmentsFrom(out, id, block, off, end);
      }
      var take := if |block| - off > MAX_FRAME then MAX_FRAME else |block| - off;
      out := out + [Frame(if off == 0 then HEADERS else CONT,
                          HeadFlags(off == 0, off + take == |block|, end), id, block[off..off + take])];
      off := off + take;
      more := off < |block|;
    }
    if block == [] {
      out := out + [Frame(HEADERS, HeadFlags(true, true, end), id, [])];
    }
  }

  // ---------------------------------------------------------------------
  // Reassembly
  // ---------------------------------------------------------------------

  /** The header block being collected; stream 0 means none is. */
  datatype Assembly = Assembly(stream: nat, data: Text, end: bool, abort: bool)

  const NoBlock: Assembly := Assembly(0, [], false, false)

  /** What one HEADERS or CONTINUATION frame does: an error (the block state is what
      it was by then), more to come (with a stream error when the block just grew
      too large), a finished block, or the end of a block that was given up. */
  datatype Fed =
    | Err(code: nat, left: Assembly)
    | Hold(a: Assembly, cancel: bool)
    | Finished(id: nat, end: bool, block: Text)
    | GivenUp(cancel: bool)

  /** The fragment inside a HEADERS payload, once padding and priority are off. */
  function HeadersFragment(f: Frame): Option<Text> {
    if Padded(f) && |f.payload| < 1 then None
    else
      var pad := if Padded(f) then f.payload[0] else 0;
      var p := if Padded(f) then f.payload[1..] else f.payload;
      if HasPriority(f) && |p| < 5 then None
      else
        var q := if HasPriority(f) then p[5..] else p;
        if pad > |q| then None else Some(q[..|q| - pad])
  }

  /** `h2_on_headers_start`. */
  function FeedHeaders(a: Assembly, f: Frame): Fed {
    if f.id == 0 then Err(PROTOCOL, a)
    else
      match HeadersFragment(f)
      case None => Err(PROTOCOL, Assembly(f.id, [], EndStream(f), false))
      case Some(frag) =>
        if |frag| > BLOCK_CAP then Err(CALM, Assembly(f.id, [], EndStream(f), false))
        else if EndHeaders(f) then Finished(f.id, EndStream(f), frag)
        else Hold(Assembly(f.id, frag, EndStream(f), false), false)
  }

  /** `h2_on_cont`. */
  function FeedCont(a: Assembly, f: Frame): Fed {
    if a.stream == 0 || f.id != a.stream then Err(PROTOCOL, a)
    else
      var cancel := !a.abort && |a.data| + |f.payload| > BLOCK_CAP;
      var abort := a.abort || cancel;
      if EndHeaders(f) then
        if abort then GivenUp(cancel) else Finished(a.stream, a.end, a.data + f.payload)
      else Hold(a.(abort := abort, data := if abort then a.data else a.data + f.payload), cancel)
  }

  function Feed(a: Assembly, f: Frame): Fed {
    if f.typ == HEADERS then FeedHeaders(a, f) else FeedCont(a, f)
  }

  /** Feeding frames one after the other until one of them settles the block. */
  function FeedAll(a: Assembly, frames: seq<Frame>): Fed
    requires frames != []
    decreases |frames|
  {
    var r := Feed(a, frames[0]);
    if |frames| == 1 || !r.Hold? then r else FeedAll(r.a, frames[1..])
  }

  /** What has been collected when `off` octets of the block have arrived. */
  ghost predicate Collected(a: Assembly, id: nat, block: Text, off: nat, end: bool) {
    && off <= |block| && a.stream == id && a.end == end
    && (if off <= BLOCK_CAP then a.data == block[..off] && !a.abort else a.abort)
  }

  ghost predicate Settled(r: Fed, id: nat, block: Text, end: bool) {
    if |block| <= BLOCK_CAP then r == Finished(id, end, block) else r.GivenUp?
  }

  lemma {:induction false} ReassembleFrom(id: nat, block: Text, off: nat, end: bool, a: Assembly)
    requires 0 < id && 0 < off < |block| && Collected(a, id, block, off, end)
    ensures Fragments(id, block, off, end) != []
    ensures Settled(FeedAll(a, Fragments(id, block, off, end)), id, block, end)
    decreases |block| - off
  {
    var frames := Fragments(id, block, off, end);
    var f := frames[0];
    var next := off + |f.payload|;
    assert block[..off] + f.payload == block[..next];
    assert frames[1..] == Fragments(id, block, next, end);
    if next == |block| {
      assert block[..next] == block;
    } else {
      ReassembleFrom(id, block, next, end, FeedCont(a, f).a);
    }
  }

  /** A non-empty block arrives as it was sent, with its END_STREAM flag, however
      many frames it took; a block over the cap is given up, never cut short. */
  lemma {:induction false} Reassemble(id: nat, block: Text, end: bool)
    requires 0 < id && 0 < |block|
    ensures HeadFrames(id, block, end) != []
    ensures Settled(FeedAll(NoBlock, HeadFrames(id, block, end)), id, block, end)
  {
    var frames := HeadFrames(id, block, end);
    var f := frames[0];
    assert f.payload[..|f.payload|] == f.payload;
    assert f.flags <= 5 && HeadersFragment(f) == Some(f.payload);
    var next := |f.payload|;
    assert frames[1..] == Fragments(id, block, next, end);
    if next == |block| {
      assert f.payload == block;
    } else {
      ReassembleFrom(id, block, next, end, FeedHeaders(NoBlock, f).a);
    }
  }

  /** The frames sent are well formed, whole and stay within the frame size. */
  lemma {:induction false} FragmentsSendable(id: nat, block: Text, off: nat, end: bool)
    requires id < U31 && off <= |block|
    ensures forall f :: f in Fragments(id, block, off, end) ==> Sendable(f) && f.id == id
    decreases |block| - off
  {
    if off < |block| {
      var take := if |block| - off > MAX_FRAME then MAX_FRAME else |block| - off;
      FragmentsSendable(id, block, off + take, end);
    }
  }
}
