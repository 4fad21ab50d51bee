/** Which header blocks reach the HPACK decoder. */
module H2Blocks {
  // Every block the client sends must, for its table to follow the client's; the source
  // skips some, and this says what that costs.

  import opened Bytes
  import opened H2Frames
  import opened H2Log
  import opened H2Conn
  import opened H2Receive
  import opened H2Moves
  import opened H2Answers
  import Hp = HpackBlock
  import Table = HpackTable

  // ---------------------------------------------------------------------
  // The blocks a client sends
  // ---------------------------------------------------------------------

  /** The blocks sent so far, and what has been sent of the next. */
  datatype Told = Told(blocks: seq<Text>, part: Text)

  function Tell(t: Told, f: Frame): Told {
    if f.typ == HEADERS then
      match HeadersFragment(f)
      case None => t
      case Some(frag) => if EndHeaders(f) then Told(t.blocks + [frag], []) else t.(part := frag)
    else if f.typ == CONT then
      if EndHeaders(f) then Told(t.blocks + [t.part + f.payload], []) else t.(part := t.part + f.payload)
    else t
  }

  function TellEvent(t: Told, e: Event): Told {
    if e.Recv? then Tell(t, e.f) else t
  }

  function Blocks(log: seq<Event>): Told {
    if log == [] then Told([], []) else TellEvent(Blocks(log[..|log| - 1]), log[|log| - 1])
  }

  lemma {:induction false} SentTellsNothing(log: seq<Event>, log': seq<Event>)
    requires log <= log' && forall k :: |log| <= k < |log'| ==> !log'[k].Recv?
    ensures Blocks(log') == Blocks(log)
    decreases |log'|
  {
    if |log'| == |log| {
      assert log' == log;
    } else {
      SentTellsNothing(log, log'[..|log'| - 1]);
    }
  }

  lemma {:induction false} ReceivedTells(log: seq<Event>, f: Frame)
    ensures Blocks(log + [Recv(f)]) == Tell(Blocks(log), f)
  {
    assert (log + [Recv(f)])[..|log|] == log;
  }

  // ---------------------------------------------------------------------
  // The blocks the decoder takes
  // ---------------------------------------------------------------------

  /** The frame completes a header block. */
  predicate Completes(c: Conn, f: Frame) {
    (f.typ == HEADERS || f.typ == CONT) && (Feed(c.hb, f).Finished? || Feed(c.hb, f).GivenUp?)
  }

  /** It completes one that is not decoded: over the cap, or above the client's GOAWAY. */
  predicate Skips(c: Conn, f: Frame) {
    && Completes(c, f)
    && (Feed(c.hb, f).Finished? ==> c.link.goaway && f.id > c.link.goawayLast)
  }

  /** A block under way is what the client has sent of it, unless it is too large. */
  ghost predicate Collects(c: Conn) {
    c.hb.stream != 0 && !c.hb.abort ==> c.hb.data == Blocks(c.log).part
  }

  lemma {:induction false} FinishBlockTakes(env: Env, c: Conn, id: nat, end: bool, block: Text)
    requires FinishBlock(env, c, id, end, block).error == NO_ERROR
    ensures var r := FinishBlock(env, c, id, end, block);
            && r.hb == c.hb
            && r.link.blocks
               == if c.link.goaway && id > c.link.goawayLast then c.link.blocks else c.link.blocks + [block]
  {
  }

  lemma {:induction false} HeadersTake(env: Env, c: Conn, f: Frame)
    requires (f.typ == HEADERS || f.typ == CONT) && OnHeaders(env, c, f).error == NO_ERROR
    ensures var r := OnHeaders(env, c, f);
            && r.hb == (if Feed(c.hb, f).Hold? then Feed(c.hb, f).a else NoBlock)
            && r.link.blocks
               == if Completes(c, f) && !Skips(c, f) then c.link.blocks + [Feed(c.hb, f).block] else c.link.blocks
  {
    FeedKeepsEnd(c.hb, f);
    match Feed(c.hb, f)
    case Finished(id, end, block) => FinishBlockTakes(env, c.(hb := NoBlock), id, end, block);
    case _ =>
  }

  /** What the frame does to the block under way, on both sides. */
  lemma {:induction false} FedAsTold(c: Conn, f: Frame)
    requires Collects(c) && (f.typ == HEADERS || f.typ == CONT) && !Feed(c.hb, f).Err?
    ensures var t := Tell(Blocks(c.log), f); var r := Feed(c.hb, f);
            && (r.Hold? ==> t.blocks == Blocks(c.log).blocks && (!r.a.abort ==> r.a.data == t.part))
            && (!r.Hold? ==> |t.blocks| == |Blocks(c.log).blocks| + 1)
            && (r.Finished? ==> t.blocks == Blocks(c.log).blocks + [r.block])
  {
  }

  ghost predicate SameBlocks(c: Conn, r: Conn) {
    r.link.blocks == c.link.blocks && r.hb == c.hb
  }

  lemma {:induction false} SettingsTakeNothing(c: Conn, f: Frame)
    ensures SameBlocks(c, OnSettings(c, f))
  {
    ApplyKeepsLog(c.(link := c.link.(gotSettings := true)), f.payload);
    ApplyKeepsEntries(c.(link := c.link.(gotSettings := true)), f.payload);
  }

  lemma {:induction false} WindowTakesNothing(c: Conn, f: Frame)
    ensures SameBlocks(c, OnWindow(c, f))
  {
  }

  lemma {:induction false} DataTakesNothing(env: Env, c: Conn, f: Frame)
    ensures SameBlocks(c, OnData(env, c, f))
  {
  }

  lemma {:induction false} OtherTakesNothing(env: Env, c: Conn, f: Frame)
    requires f.typ != HEADERS && f.typ != CONT
    ensures SameBlocks(c, Process(env, c, f))
  {
    var c1 := c.(log := c.log + [Recv(f)]);
    if f.typ == DATA {
      DataTakesNothing(env, c1, f);
    } else if f.typ == SETTINGS {
      SettingsTakeNothing(c1, f);
    } else if f.typ == WINDOW {
      WindowTakesNothing(c1, f);
    }
  }

  lemma {:induction false} ProcessTakes(env: Env, c: Conn, f: Frame)
    requires Collects(c) && Process(env, c, f).error == NO_ERROR
    ensures var r := Process(env, c, f);
            && Collects(r)
            && (Skips(c, f) ==>
                  |Blocks(r.log).blocks| == |Blocks(c.log).blocks| + 1 && r.link.blocks == c.link.blocks)
            && (!Skips(c, f) ==>
                  exists b: seq<Text> ::
                    r.link.blocks == c.link.blocks + b && Blocks(r.log).blocks == Blocks(c.log).blocks + b)
  {
    var r := Process(env, c, f);
    ProcessLog(env, c, f);
    ReceivedTells(c.log, f);
    SentTellsNothing(c.log + [Recv(f)], r.log);
    var none: seq<Text> := [];
    assert c.link.blocks + none == c.link.blocks && Blocks(c.log).blocks + none == Blocks(c.log).blocks;
    if f.typ == HEADERS || f.typ == CONT {
      var c1 := c.(log := c.log + [Recv(f)]);
      HeadersTake(env, c1, f);
      FedAsTold(c, f);
      if Completes(c, f) && !Skips(c, f) {
        var b := [Feed(c.hb, f).block];
        assert r.link.blocks == c.link.blocks + b && Blocks(r.log).blocks == Blocks(c.log).blocks + b;
      }
    } else {
      OtherTakesNothing(env, c, f);
    }
  }

  lemma {:induction false} PumpKeepsBlock(env: Env, c: Conn)
    ensures var r := Sweep(Pump(Dispatch(env, c)));
            r.hb == c.hb && r.link.blocks == c.link.blocks && Blocks(r.log) == Blocks(c.log)
  {
    var d := Dispatch(env, c);
    DispatchMoves(env, c, 0);
    PumpMoves(d, 0);
    SentTellsNothing(c.log, Pump(d).log);
  }

  // ---------------------------------------------------------------------
  // Whole runs
  // ---------------------------------------------------------------------

  /** The decoder has had every block, or has missed some for good. */
  ghost predicate Taken(c: Conn, all: bool) {
    && Collects(c)
    && if all then c.link.blocks == Blocks(c.log).blocks else |c.link.blocks| < |Blocks(c.log).blocks|
  }

  lemma {:induction false} StepTakes(env: Env, c: Conn, f: Frame, all: bool)
    requires c.error == NO_ERROR && Taken(c, all) && Step(env, c, f).error == NO_ERROR
    ensures Taken(Step(env, c, f), all && !Skips(c, f))
  {
    var c1 := Process(env, c, f);
    if c1.error == NO_ERROR {
      ProcessTakes(env, c, f);
      PumpKeepsBlock(env, c1);
    }
  }

  /** Some frame of the run completed a block that was skipped. */
  ghost predicate Skipped(env: Env, frames: seq<Frame>) {
    exists n :: 0 <= n < |frames| && Skips(Run(env, frames[..n]), frames[n])
  }

  lemma {:induction false} SkippedBefore(env: Env, front: seq<Frame>, f: Frame)
    ensures Skipped(env, front + [f]) <==> Skipped(env, front) || Skips(Run(env, front), f)
  {
    var frames := front + [f];
    assert front[..|front|] == front;
    forall n | 0 <= n < |frames|
      ensures frames[..n] == front[..n] && frames[n] == if n < |front| then front[n] else f
    {
    }
    if Skipped(env, front) {
      var n :| 0 <= n < |front| && Skips(Run(env, front[..n]), front[n]);
      assert Skips(Run(env, frames[..n]), frames[n]);
    }
    if Skips(Run(env, front), f) {
      assert Skips(Run(env, frames[..|front|]), frames[|front|]);
    }
  }

  /** The decoder has had exactly the blocks the client sent, in order, if and only if
      none of them was over the cap or above the client's own GOAWAY. */
  lemma {:induction false} EveryBlockIffNoneSkipped(env: Env, frames: seq<Frame>)
    requires Run(env, frames).error == NO_ERROR
    ensures var r := Run(env, frames);
            && Taken(r, !Skipped(env, frames))
            && (r.link.blocks == Blocks(r.log).blocks <==> !Skipped(env, frames))
    decreases |frames|
  {
    if frames == [] {
      assert Init().log[..0] == [];
      assert Blocks([]) == Told([], []);
    } else {
      var front, f := frames[..|frames| - 1], frames[|frames| - 1];
      EveryBlockIffNoneSkipped(env, front);
      FrontAndLast(frames);
      SkippedBefore(env, front, f);
      StepTakes(env, Run(env, front), f, !Skipped(env, front));
    }
  }

  // ---------------------------------------------------------------------
  // What the decoder makes of them
  // ---------------------------------------------------------------------

  const EMPTY: Table.Dyn := Table.Dyn([], 0, 4096)
  const PEER: Table.Peer := Table.Peer([], 4096)

  /** Request construction over a decoder that starts with the connection. */
  function Building(codec: Hp.Codec, request: seq<Table.Field> -> Built, blocks: seq<Text>): Built
    requires Hp.Sized(codec)
  {
    match Hp.DecodeAll(codec, EMPTY, blocks)
    case Broken => Undecodable
    case Alive(lists, _) => if lists == [] then Malformed else request(lists[|lists| - 1])
  }

  lemma {:induction false} FirstBlocks(codec: Hp.Codec, p: Table.Peer, reps: seq<seq<Hp.Rep>>, n: nat)
    requires Hp.Sized(codec) && n <= |reps| && Hp.LegalAll(codec, p, reps) && Hp.MeantAll(codec, p, reps)
    ensures Hp.LegalAll(codec, p, reps[..n]) && Hp.MeantAll(codec, p, reps[..n])
    ensures |Hp.WriteAll(codec, reps)| == |reps| && Hp.WriteAll(codec, reps)[..n] == Hp.WriteAll(codec, reps[..n])
    ensures |Hp.FieldsAll(codec, p, reps)| == |reps| && Hp.FieldsAll(codec, p, reps)[..n] == Hp.FieldsAll(codec, p, reps[..n])
    decreases |reps|
  {
    if reps != [] {
      var next := Hp.PeerAfter(codec, p, reps[0]);
      FirstBlocks(codec, next, reps[1..], if n == 0 then 0 else n - 1);
      if n > 0 {
        assert reps[..n][1..] == reps[1..][..n - 1];
      }
    }
  }

  /** A request is built from the header list the client meant, whatever blocks came
      before it, as long as none of them was skipped and all are read as meant. */
  lemma {:induction false} BuiltAsMeant(env: Env, frames: seq<Frame>, codec: Hp.Codec, request: seq<Table.Field> -> Built,
                     reps: seq<seq<Hp.Rep>>, id: nat)
    requires GoodEnv(env) && Hp.Good(codec) && Run(env, frames).error == NO_ERROR
    requires forall blocks :: env.build(blocks) == Building(codec, request, blocks)
    requires Hp.LegalAll(codec, PEER, reps) && Hp.MeantAll(codec, PEER, reps)
    requires Blocks(Run(env, frames).log).blocks == Hp.WriteAll(codec, reps) && !Skipped(env, frames)
    requires id in Run(env, frames).served
    ensures var r := Run(env, frames);
            && Explained(env, r, id)
            && var n := r.link.trace.opener[id];
               && 0 < n <= |reps| && |Hp.FieldsAll(codec, PEER, reps)| == |reps|
               && Opening(env, r.link, id) == request(Hp.FieldsAll(codec, PEER, reps)[n - 1])
  {
    var r := Run(env, frames);
    ResponseDelivered(env, frames, id);
    EveryBlockIffNoneSkipped(env, frames);
    var n := r.link.trace.opener[id];
    FirstBlocks(codec, PEER, reps, 0);
    FirstBlocks(codec, PEER, reps, n);
    Hp.AllAsMeant(codec, EMPTY, PEER, reps[..n]);
    var lists := Hp.FieldsAll(codec, PEER, reps[..n]);
    assert |lists| == n;
    assert lists != [] by {
      assert Opening(env, r.link, id).Request?;
    }
    assert lists[|lists| - 1] == Hp.FieldsAll(codec, PEER, reps)[n - 1];
  }

  /** Two blocks, of which the second refers to the entry the first adds: what they mean,
      and what becomes of them if the decoder has both, or the second alone. */
  lemma {:induction false} MissedBlock(codec: Hp.Codec, name: Text, value: Text)
    requires Hp.Good(codec) && |name| <= 100 && |value| <= 100
    ensures var first, second := Adds(name, value), [Hp.Indexed(62)];
            var f := Table.Field(name, value);
            && Hp.LegalAll(codec, PEER, [first, second]) && Hp.FollowedAll(codec, PEER, [first, second])
            && Hp.FieldsAll(codec, PEER, [first, second]) == [[f], [f]]
            && Hp.WriteAll(codec, [first, second]) == [Hp.WriteBlock(codec, first), Hp.WriteBlock(codec, second)]
            && Hp.DecodeAll(codec, EMPTY, [Hp.WriteBlock(codec, second)]) == Hp.Broken
  {
    var f := Table.Field(name, value);
    var first := Adds(name, value)[0];
    var next := Table.Peer([f], 4096);
    assert Table.Trim([], 4096 - Table.EntrySize(f)) == [];
    assert Hp.NextPeer(codec, PEER, first) == next;
    Hp.OneRep(codec, PEER, first, f);
    Hp.OneRep(codec, next, Hp.Indexed(62), f);
    Hp.TwoBlocksMeant(codec, PEER, [first], [Hp.Indexed(62)]);
    Hp.Unindexable(codec, EMPTY, 62);
  }

  /** One header, which is to be added to the table. */
  function Adds(name: Text, value: Text): seq<Hp.Rep> {
    [Hp.Incremental(Hp.Lit(Hp.Raw(name)), Hp.Raw(value))]
  }

  lemma {:induction false} ShortBlocks(codec: Hp.Codec, name: Text, value: Text)
    requires Hp.Good(codec) && |name| <= 100 && |value| <= 100
    ensures |Hp.WriteBlock(codec, Adds(name, value))| == 3 + |name| + |value|
    ensures |Hp.WriteBlock(codec, [Hp.Indexed(62)])| == 1
  {
    assert Adds(name, value)[1..] == [] && [Hp.Indexed(62)][1..] == [];
    assert Hp.WriteBlock(codec, []) == [];
    assert |Hp.WriteString(codec, Hp.Raw(name))| == 1 + |name|;
    assert |Hp.WriteString(codec, Hp.Raw(value))| == 1 + |value|;
  }

  /** The client will take no streams above 1. */
  const LEAVING: Frame := Frame(GOAWAY, 0, 0, Be32(1) + Be32(0))

  lemma {:induction false} GoneAway(env: Env)
    ensures var r := Run(env, [HELLO, LEAVING]);
            && r.error == NO_ERROR && r.streams == [] && r.hb == NoBlock && r.lastId == 0
            && r.link == Link(true, true, 1, INITIAL_WINDOW, [], Trace(map[], map[]))
  {
    Greeted(env);
    assert Rd32(LEAVING.payload) == 1;
    OneFrame(env, [HELLO], LEAVING);
    assert [HELLO] + [LEAVING] == [HELLO, LEAVING];
  }

  /** A request above the client's GOAWAY is refused without a look at its block. */
  lemma {:induction false} RefusedAbove(env: Env, block: Text)
    requires |block| <= MAX_FRAME
    ensures var r := Run(env, [HELLO, LEAVING, FullRequest(3, block)]);
            && r.error == NO_ERROR && r.streams == [] && r.hb == NoBlock && r.lastId == 0
            && r.link == Link(true, true, 1, INITIAL_WINDOW, [], Trace(map[], map[]))
    ensures Skips(Run(env, [HELLO, LEAVING]), FullRequest(3, block))
  {
    GoneAway(env);
    FullRequestFed(3, block);
    OneFrame(env, [HELLO, LEAVING], FullRequest(3, block));
    assert [HELLO, LEAVING] + [FullRequest(3, block)] == [HELLO, LEAVING, FullRequest(3, block)];
  }

  /** On the wire: the client says it takes no streams above 1, sends a request on stream
      3 all the same, which is refused, and then one on stream 1 that refers to the entry
      the other's block has added. Both mean the same header; the decoder, which was not
      given the first, ends the connection. */
  lemma {:induction false} SkippedBlockIsMissed(env: Env, codec: Hp.Codec, request: seq<Table.Field> -> Built,
                                                name: Text, value: Text)
    requires Hp.Good(codec) && |name| <= 100 && |value| <= 100
    requires forall blocks :: env.build(blocks) == Building(codec, request, blocks)
    ensures var first, second := Adds(name, value), [Hp.Indexed(62)];
            var one, two := Hp.WriteBlock(codec, first), Hp.WriteBlock(codec, second);
            var frames := [HELLO, LEAVING, FullRequest(3, one)];
            && Hp.FollowedAll(codec, PEER, [first, second]) && Hp.WriteAll(codec, [first, second]) == [one, two]
            && Hp.FieldsAll(codec, PEER, [first, second]) == [[Table.Field(name, value)], [Table.Field(name, value)]]
            && Run(env, frames).error == NO_ERROR
            && Run(env, frames + [FullRequest(1, two)]).error == COMPRESSION
  {
    var one := Hp.WriteBlock(codec, Adds(name, value));
    var two := Hp.WriteBlock(codec, [Hp.Indexed(62)]);
    var frames := [HELLO, LEAVING, FullRequest(3, one)];
    MissedBlock(codec, name, value);
    ShortBlocks(codec, name, value);
    RefusedAbove(env, one);
    FullRequestFed(1, two);
    assert [] + [two] == [two];
    assert env.build([two]) == Undecodable;
    assert (frames + [FullRequest(1, two)])[..|frames|] == frames;
  }
}
