/** The serving loop over octets: the buffer is peeked for frames as octets arrive,
    however they are cut, until an error, the end of a connection that the client is
    leaving, or the last octet. */
module H2Wire {
  import opened Bytes
  import opened H2Frames
  import opened H2Conn
  import opened H2Safety
  import opened H2Delivery
  import opened H2Moves

  /** The client's connection preface, section 3.5 of RFC 7540. */
  const MAGIC: Text := [80, 82, 73, 32, 42, 32, 72, 84, 84, 80, 47, 50, 46, 48, 13, 10, 13, 10, 83, 77, 13, 10, 13, 10]

  /** The read buffer and the connection. */
  datatype Wired = Wired(rb: Text, conn: Conn)

  function SkipMagic(rb: Text): Text {
    if |rb| >= |MAGIC| && rb[..|MAGIC|] == MAGIC then rb[|MAGIC|..] else rb
  }

  /** `h2_client_goaway_done`. */
  predicate Done(c: Conn) {
    c.link.goaway && c.streams == []
  }

  predicate Closing(c: Conn) {
    c.error != NO_ERROR || Done(c)
  }

  /** The inner loop of `h2_serve`: every whole frame in the buffer. */
  function Drain(env: Env, w: Wired): Wired
    decreases |w.rb|
  {
    match Peek(w.rb)
    case NeedMore => w
    case TooBig => w.(conn := Fail(w.conn, FRAME_SIZE))
    case Whole(f, rest) =>
      var c := Step(env, w.conn, f);
      if c.error != NO_ERROR then Wired(rest, c) else Drain(env, Wired(rest, c))
  }

  /** One turn of the outer loop, up to the next read. */
  function Turn(env: Env, w: Wired): Wired {
    var c := Sweep(Pump(Dispatch(env, w.conn)));
    var w' := Wired(SkipMagic(w.rb), c);
    if Closing(c) then w' else Drain(env, w')
  }

  function Listen(env: Env, w: Wired, arrivals: seq<Text>): Wired
    decreases |arrivals|
  {
    var w' := Turn(env, w);
    if Closing(w'.conn) || arrivals == [] then w'
    else Listen(env, Wired(w'.rb + arrivals[0], w'.conn), arrivals[1..])
  }

  function WireAll(frames: seq<Frame>): Text {
    if frames == [] then [] else Wire(frames[0]) + WireAll(frames[1..])
  }

  ghost predicate AllSendable(frames: seq<Frame>) {
    forall i :: 0 <= i < |frames| ==> Sendable(frames[i])
  }

  // ---------------------------------------------------------------------
  // The inner loop
  // ---------------------------------------------------------------------

  lemma {:induction false} DrainOne(env: Env, seen: seq<Frame>, f: Frame, rest: Text) returns (next: seq<Frame>)
    requires Sendable(f)
    ensures next == seen + [f]
    ensures var c := Run(env, next);
            Drain(env, Wired(Wire(f) + rest, Run(env, seen)))
            == if c.error != NO_ERROR then Wired(rest, c) else Drain(env, Wired(rest, c))
  {
    next := seen + [f];
    PeekWire(f, rest);
    RunNext(env, seen, f);
  }

  lemma {:induction false} Shifted(seen: seq<Frame>, frames: seq<Frame>)
    requires frames != []
    ensures seen + frames == seen + [frames[0]] + frames[1..]
  {
  }

  lemma {:induction false} FirstOf(frames: seq<Frame>, part: Text)
    requires frames != []
    ensures WireAll(frames) + part == Wire(frames[0]) + (WireAll(frames[1..]) + part)
  {
    Associate(Wire(frames[0]), WireAll(frames[1..]), part);
  }

  /** Whole frames in the buffer are processed in order, and what is left of it waits. */
  lemma {:induction false} Drained(env: Env, seen: seq<Frame>, frames: seq<Frame>, part: Text) returns (all: seq<Frame>)
    requires AllSendable(frames) && Peek(part) == NeedMore
    requires Run(env, seen).error == NO_ERROR
    ensures all == seen + frames
    ensures var w := Drain(env, Wired(WireAll(frames) + part, Run(env, seen)));
            w.conn == Run(env, all) && (w.conn.error == NO_ERROR ==> w.rb == part)
    decreases |frames|
  {
    if frames == [] {
      all := seen;
      assert seen + frames == seen && WireAll(frames) + part == part;
    } else {
      FirstOf(frames, part);
      Shifted(seen, frames);
      var next := DrainOne(env, seen, frames[0], WireAll(frames[1..]) + part);
      if Run(env, next).error == NO_ERROR {
        all := Drained(env, next, frames[1..], part);
      } else {
        RunStuck(env, next, frames[1..]);
        all := next + frames[1..];
      }
    }
  }

  // ---------------------------------------------------------------------
  // The outer loop
  // ---------------------------------------------------------------------

  /** Whether more octets are needed does not depend on what is still to come. */
  lemma {:induction false} PeekPrefix(part: Text, n: nat)
    requires Peek(part) == NeedMore && n <= |part|
    ensures Peek(part[..n]) == NeedMore
  {
  }

  /** A buffer that holds the start of some frames: whole ones, then a part. */
  lemma {:induction false} Cut(rb: Text, later: Text, frames: seq<Frame>, tail: Text) returns (k: nat, part: Text)
    requires AllSendable(frames) && Peek(tail) == NeedMore && rb + later == WireAll(frames) + tail
    ensures k <= |frames| && Peek(part) == NeedMore
    ensures rb == WireAll(frames[..k]) + part && part + later == WireAll(frames[k..]) + tail
    decreases |frames|
  {
    if frames == [] {
      k, part := 0, rb;
      assert tail[..|rb|] == rb by {
        assert rb + later == tail;
      }
      PeekPrefix(tail, |rb|);
      assert frames[..0] == [] && frames[0..] == [] && [] + rb == rb;
    } else if |rb| < |Wire(frames[0])| {
      k, part := 0, rb;
      CutShort(rb, later, frames, tail);
      assert frames[..0] == [] && frames[0..] == frames && [] + rb == rb;
    } else {
      var head := Wire(frames[0]);
      CutFirst(rb, later, head, WireAll(frames[1..]), tail);
      var k', part' := Cut(rb[|head|..], later, frames[1..], tail);
      k, part := k' + 1, part';
      assert frames[..k][1..] == frames[1..][..k'] && frames[k..] == frames[1..][k'..];
      Associate(head, WireAll(frames[1..][..k']), part);
    }
  }

  lemma {:induction false} CutShort(rb: Text, later: Text, frames: seq<Frame>, tail: Text)
    requires frames != [] && Sendable(frames[0]) && rb + later == WireAll(frames) + tail && |rb| < |Wire(frames[0])|
    ensures Peek(rb) == NeedMore
  {
    var head := Wire(frames[0]);
    Associate(head, WireAll(frames[1..]), tail);
    assert rb == (rb + later)[..|rb|] == head[..|rb|];
    PeekPartial(frames[0], |rb|);
  }

  lemma {:induction false} CutFirst(rb: Text, later: Text, head: Text, rest: Text, tail: Text)
    requires rb + later == head + rest + tail && |rb| >= |head|
    ensures rb == head + rb[|head|..] && rb[|head|..] + later == rest + tail
  {
    Associate(head, rest, tail);
    assert rb[..|head|] == (rb + later)[..|head|] == head;
    assert rb[|head|..] + later == (rb + later)[|head|..] == rest + tail;
  }

  /** What begins like a frame of the permitted size does not begin like the preface. */
  lemma {:induction false} NoMagic(rb: Text, later: Text, frames: seq<Frame>, tail: Text)
    requires AllSendable(frames) && Peek(tail) == NeedMore && rb + later == WireAll(frames) + tail
    ensures SkipMagic(rb) == rb
  {
    if |rb| >= |MAGIC| {
      assert rb[0] == (rb + later)[0];
      if frames == [] {
        assert WireAll(frames) + tail == tail;
      } else {
        assert (WireAll(frames) + tail)[0] == Wire(frames[0])[0];
      }
      assert rb[..|MAGIC|][0] == rb[0] == 0;
    }
  }

  /** One turn on the start of some frames. */
  lemma {:induction false} TurnDrains(env: Env, seen: seq<Frame>, rb: Text, later: Text, frames: seq<Frame>, tail: Text)
    returns (k: nat, part: Text, next: seq<Frame>)
    requires GoodEnv(env) && !Closing(Run(env, seen))
    requires AllSendable(frames) && Peek(tail) == NeedMore && rb + later == WireAll(frames) + tail
    ensures k <= |frames| && part + later == WireAll(frames[k..]) + tail && Peek(part) == NeedMore
    ensures next == seen + frames[..k]
    ensures var w := Turn(env, Wired(rb, Run(env, seen)));
            w.conn == Run(env, next) && (w.conn.error == NO_ERROR ==> w.rb == part)
  {
    EveryRun(env, seen);
    SettleIdle(env, Run(env, seen));
    NoMagic(rb, later, frames, tail);
    k, part := Cut(rb, later, frames, tail);
    next := Drained(env, seen, frames[..k], part);
  }

  /** When nothing is left to read, no whole frame is left in the buffer. */
  lemma {:induction false} AllRead(part: Text, frames: seq<Frame>, tail: Text)
    requires AllSendable(frames) && part == WireAll(frames) + tail && Peek(part) == NeedMore
    ensures frames == []
  {
    if frames != [] {
      FirstOf(frames, tail);
      PeekWire(frames[0], WireAll(frames[1..]) + tail);
    }
  }

  lemma {:induction false} Joins(seen: seq<Frame>, frames: seq<Frame>, k: nat)
    requires k <= |frames|
    ensures seen + frames[..k] + frames[k..] == seen + frames
  {
  }

  /** The start of some frames, in the buffer of a connection that is open. */
  ghost predicate Reading(env: Env, seen: seq<Frame>, rb: Text, later: Text, frames: seq<Frame>, tail: Text) {
    && !Closing(Run(env, seen)) && AllSendable(frames) && Peek(tail) == NeedMore
    && rb + later == WireAll(frames) + tail
  }

  /** One turn that is not the last. */
  lemma {:induction false} ListenTurn(env: Env, seen: seq<Frame>, rb: Text, arrivals: seq<Text>, frames: seq<Frame>, tail: Text)
    returns (k: nat, rb': Text, next: seq<Frame>)
    requires GoodEnv(env) && Reading(env, seen, rb, Flatten(arrivals), frames, tail) && arrivals != []
    ensures k <= |frames| && next == seen + frames[..k]
    ensures var w := Wired(rb, Run(env, seen));
            Listen(env, w, arrivals)
            == if Closing(Run(env, next)) then Turn(env, w)
               else Listen(env, Wired(rb', Run(env, next)), arrivals[1..])
    ensures Turn(env, Wired(rb, Run(env, seen))).conn == Run(env, next)
    ensures !Closing(Run(env, next)) ==> Reading(env, next, rb', Flatten(arrivals[1..]), frames[k..], tail)
  {
    var part;
    k, part, next := TurnDrains(env, seen, rb, Flatten(arrivals), frames, tail);
    rb' := part + arrivals[0];
    Associate(part, arrivals[0], Flatten(arrivals[1..]));
  }

  lemma {:induction false} LastTurn(env: Env, seen: seq<Frame>, rb: Text, frames: seq<Frame>, tail: Text) returns (all: seq<Frame>)
    requires GoodEnv(env) && Reading(env, seen, rb, [], frames, tail)
    ensures seen <= all <= seen + frames
    ensures var c := Listen(env, Wired(rb, Run(env, seen)), []).conn;
            c == Run(env, all) && (|all| < |seen + frames| ==> Done(c))
  {
    var k, part, next := TurnDrains(env, seen, rb, [], frames, tail);
    all := next;
    if Run(env, next).error != NO_ERROR {
      Joins(seen, frames, k);
      RunStuck(env, next, frames[k..]);
      all := next + frames[k..];
    } else {
      assert part + [] == part;
      AllRead(part, frames[k..], tail);
    }
  }

  lemma {:induction false} Listens(env: Env, seen: seq<Frame>, rb: Text, arrivals: seq<Text>, frames: seq<Frame>, tail: Text)
    returns (all: seq<Frame>)
    requires GoodEnv(env) && Reading(env, seen, rb, Flatten(arrivals), frames, tail)
    ensures seen <= all <= seen + frames
    ensures var c := Listen(env, Wired(rb, Run(env, seen)), arrivals).conn;
            c == Run(env, all) && (|all| < |seen + frames| ==> Done(c))
    decreases |arrivals|
  {
    if arrivals == [] {
      all := LastTurn(env, seen, rb, frames, tail);
    } else {
      var k, rb', next := ListenTurn(env, seen, rb, arrivals, frames, tail);
      Joins(seen, frames, k);
      if Run(env, next).error != NO_ERROR {
        RunStuck(env, next, frames[k..]);
        all := next + frames[k..];
      } else if Done(Run(env, next)) {
        all := next;
      } else {
        all := Listens(env, next, rb', arrivals[1..], frames[k..], tail);
      }
    }
  }

  // ---------------------------------------------------------------------
  // The preface
  // ---------------------------------------------------------------------

  /** Some read leaves between 9 and 23 octets of the preface in the buffer, which holds
      n of them now. */
  predicate CutsPreface(n: nat, arrivals: seq<Text>)
    decreases |arrivals|
  {
    9 <= n < |MAGIC| || (n < 9 && arrivals != [] && CutsPreface(n + |arrivals[0]|, arrivals[1..]))
  }

  /** A preface that is not all there yet: fewer than 9 octets wait, and more are taken
      for a frame header. */
  lemma {:induction false} PrefaceInPieces(env: Env, c: Conn, n: nat)
    requires Idle(c) && !Closing(c) && n < |MAGIC|
    ensures Turn(env, Wired(MAGIC[..n], c)) == Wired(MAGIC[..n], if n < 9 then c else Fail(c, FRAME_SIZE))
  {
    SettleIdle(env, c);
    var rb := MAGIC[..n];
    if n >= 9 {
      assert rb[0] == 80;
    }
  }

  /** A whole preface is stepped over. */
  lemma {:induction false} PrefaceSkipped(env: Env, c: Conn, rest: Text, arrivals: seq<Text>)
    requires SkipMagic(rest) == rest
    ensures Listen(env, Wired(MAGIC + rest, c), arrivals) == Listen(env, Wired(rest, c), arrivals)
  {
    var rb := MAGIC + rest;
    assert rb[..|MAGIC|] == MAGIC && rb[|MAGIC|..] == rest;
    assert Turn(env, Wired(rb, c)) == Turn(env, Wired(rest, c));
  }

  /** The part of the octets that is in the buffer, against the preface. */
  lemma {:induction false} PrefaceSplit(rb: Text, later: Text, stream: Text)
    requires rb + later == MAGIC + stream
    ensures |rb| < |MAGIC| ==> rb == MAGIC[..|rb|]
    ensures |rb| >= |MAGIC| ==> rb == MAGIC + rb[|MAGIC|..] && rb[|MAGIC|..] + later == stream
  {
    var whole := MAGIC + stream;
    if |rb| < |MAGIC| {
      assert rb == whole[..|rb|];
    } else {
      assert rb[..|MAGIC|] == whole[..|MAGIC|] == MAGIC;
      assert rb[|MAGIC|..] + later == whole[|MAGIC|..] == stream;
    }
  }

  lemma {:induction false} ListenWaits(env: Env, rb: Text, c: Conn, arrivals: seq<Text>)
    requires arrivals != [] && Turn(env, Wired(rb, c)) == Wired(rb, c) && !Closing(c)
    ensures Listen(env, Wired(rb, c), arrivals) == Listen(env, Wired(rb + arrivals[0], c), arrivals[1..])
  {
  }

  /** All of it is there: the frames behind it are read. */
  lemma {:induction false} PrefaceThere(env: Env, rb: Text, arrivals: seq<Text>, frames: seq<Frame>, tail: Text)
    returns (seen: seq<Frame>)
    requires GoodEnv(env) && AllSendable(frames) && Peek(tail) == NeedMore && |rb| >= |MAGIC|
    requires rb + Flatten(arrivals) == MAGIC + (WireAll(frames) + tail)
    ensures seen <= frames
    ensures var c := Listen(env, Wired(rb, Init()), arrivals).conn;
            c == Run(env, seen) && (seen < frames ==> Done(c))
  {
    PrefaceSplit(rb, Flatten(arrivals), WireAll(frames) + tail);
    var rest := rb[|MAGIC|..];
    NoMagic(rest, Flatten(arrivals), frames, tail);
    PrefaceSkipped(env, Init(), rest, arrivals);
    seen := Listens(env, [], rest, arrivals, frames, tail);
    assert [] + frames == frames;
  }

  lemma {:induction false} PrefaceThenFrames(env: Env, rb: Text, arrivals: seq<Text>, frames: seq<Frame>, tail: Text)
    returns (seen: seq<Frame>)
    requires GoodEnv(env) && AllSendable(frames) && Peek(tail) == NeedMore
    requires rb + Flatten(arrivals) == MAGIC + (WireAll(frames) + tail)
    ensures seen <= frames
    ensures var c := Listen(env, Wired(rb, Init()), arrivals).conn;
            if CutsPreface(|rb|, arrivals) then c == Fail(Init(), FRAME_SIZE)
            else c == Run(env, seen) && (seen < frames ==> Done(c))
    decreases |arrivals|
  {
    seen := [];
    if |rb| >= |MAGIC| {
      seen := PrefaceThere(env, rb, arrivals, frames, tail);
    } else {
      PrefaceSplit(rb, Flatten(arrivals), WireAll(frames) + tail);
      PrefaceInPieces(env, Init(), |rb|);
      if |rb| < 9 {
        assert arrivals != [];
        ListenWaits(env, rb, Init(), arrivals);
        Associate(rb, arrivals[0], Flatten(arrivals[1..]));
        seen := PrefaceThenFrames(env, rb + arrivals[0], arrivals[1..], frames, tail);
      }
    }
  }

  // ---------------------------------------------------------------------
  // Any connection
  // ---------------------------------------------------------------------

  /** What a client sends: frames, behind a preface or not, and perhaps the start of one
      more. */
  function ClientOctets(prefaced: bool, frames: seq<Frame>, tail: Text): Text {
    (if prefaced then MAGIC else []) + (WireAll(frames) + tail)
  }

  /** However the octets of a client arrive, the connection ends up as the run over the
      frames it sent, in order; it goes on unless it has failed, or the client's GOAWAY
      is answered and no stream is left. The one exception is a preface of which some
      read leaves between 9 and 23 octets: that ends the connection. */
  lemma {:induction false} AnyReads(env: Env, rb: Text, arrivals: seq<Text>, prefaced: bool, frames: seq<Frame>, tail: Text)
    returns (seen: seq<Frame>)
    requires GoodEnv(env) && AllSendable(frames) && Peek(tail) == NeedMore
    requires rb + Flatten(arrivals) == ClientOctets(prefaced, frames, tail)
    ensures seen <= frames
    ensures var c := Listen(env, Wired(rb, Init()), arrivals).conn;
            if prefaced && CutsPreface(|rb|, arrivals) then c == Fail(Init(), FRAME_SIZE)
            else c == Run(env, seen) && (seen < frames ==> Done(c))
  {
    if prefaced {
      seen := PrefaceThenFrames(env, rb, arrivals, frames, tail);
    } else {
      assert [] + (WireAll(frames) + tail) == WireAll(frames) + tail;
      seen := Listens(env, [], rb, arrivals, frames, tail);
      assert [] + frames == frames;
    }
  }
}
