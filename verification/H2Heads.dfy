/** What a client makes of the response heads. */
module H2Heads {
  // The header blocks a client puts together from the frames it is sent, all streams in
  // one, are the heads of the planned responses, and decode to their header lists.

  import opened Bytes
  import opened H2Frames
  import opened H2Log
  import opened H2Conn
  import opened H2Safety
  import opened H2Receive
  import opened H2Delivery
  import opened H2Moves
  import Table = HpackTable
  import Hp = HpackBlock
  import Enc = HpackResponse
  import Digits

  // ---------------------------------------------------------------------
  // The client
  // ---------------------------------------------------------------------

  /** A client as sections 6.2 and 6.10 of RFC 7540 describe it: the blocks it has put
      together with the streams they were for, and the block being collected, which
      nothing may interrupt. Stream 0 means none is. */
  datatype Client =
    | Upset
    | Client(ids: seq<nat>, blocks: seq<Text>, stream: nat, part: Text)

  const Ready: Client := Client([], [], 0, [])

  function Collect(cl: Client, id: nat, part: Text, end: bool): Client
    requires cl.Client?
  {
    if end then Client(cl.ids + [id], cl.blocks + [part], 0, []) else cl.(stream := id, part := part)
  }

  function Receive(cl: Client, f: Frame): Client {
    if cl.Upset? then Upset
    else if cl.stream != 0 then
      if f.typ == CONT && f.id == cl.stream then Collect(cl, f.id, cl.part + f.payload, EndHeaders(f)) else Upset
    else if f.typ == CONT then Upset
    else if f.typ == HEADERS then
      match HeadersFragment(f)
      case None => Upset
      case Some(frag) => if f.id == 0 then Upset else Collect(cl, f.id, frag, EndHeaders(f))
    else cl
  }

  /** The client after everything it was sent. */
  function Heard(log: seq<Event>): Client {
    if log == [] then Ready
    else
      var e := log[|log| - 1];
      var cl := Heard(log[..|log| - 1]);
      if e.Sent? then Receive(cl, e.f) else cl
  }

  lemma {:induction false} HearsOne(log: seq<Event>, e: Event)
    ensures Heard(log + [e]) == if e.Sent? then Receive(Heard(log), e.f) else Heard(log)
  {
    assert (log + [e])[..|log|] == log;
  }

  /** No part of a header block was sent. */
  ghost predicate NoHeads(log: seq<Event>, log': seq<Event>) {
    log <= log' && forall k :: |log| <= k < |log'| && log'[k].Sent? ==> log'[k].f.typ != HEADERS && log'[k].f.typ != CONT
  }

  predicate Rested(cl: Client) {
    cl.Client? && cl.stream == 0 && cl.part == []
  }

  lemma {:induction false} HearsNothing(log: seq<Event>, log': seq<Event>)
    requires NoHeads(log, log') && Rested(Heard(log))
    ensures Heard(log') == Heard(log)
    decreases |log'|
  {
    if |log'| == |log| {
      assert log' == log;
    } else {
      var front := log'[..|log'| - 1];
      HearsNothing(log, front);
      HearsOne(front, log'[|log'| - 1]);
      assert front + [log'[|log'| - 1]] == log';
    }
  }

  lemma {:induction false} HeadsStay(log: seq<Event>, log': seq<Event>)
    requires NoHeads(log, log')
    ensures forall id: nat :: Follow(log', id).head == Follow(log, id).head
    decreases |log'|
  {
    if |log'| == |log| {
      assert log' == log;
    } else {
      HeadsStay(log, log'[..|log'| - 1]);
    }
  }

  // ---------------------------------------------------------------------
  // One head
  // ---------------------------------------------------------------------

  /** The client is about to be sent what follows the first `off` octets of a block. */
  predicate Awaits(cl: Client, id: nat, block: Text, off: nat) {
    && cl.Client? && id != 0 && off <= |block|
    && if off == 0 then Rested(cl) else cl.stream == id && cl.part == block[..off]
  }

  lemma {:induction false} FragmentHeard(cl: Client, id: nat, block: Text, off: nat, end: bool)
    requires off < |block| && Awaits(cl, id, block, off)
    ensures var f := Fragment(id, block, off, end); var next := off + |f.payload|;
            Receive(cl, f) == Collect(cl, id, block[..next], next == |block|)
  {
    var f := Fragment(id, block, off, end);
    var next := off + |f.payload|;
    assert block[..off] + f.payload == block[..next];
    if off == 0 {
      assert f.payload[..|f.payload|] == f.payload;
      assert HeadersFragment(f) == Some(f.payload);
    }
  }

  lemma {:induction false} FragmentsHeard(c: Conn, id: nat, block: Text, off: nat, end: bool)
    requires off < |block| && Awaits(Heard(c.log), id, block, off)
    ensures var cl := Heard(c.log);
            Heard(EmitAll(c, Fragments(id, block, off, end)).log)
            == Client(cl.ids + [id], cl.blocks + [block], 0, [])
    decreases |block| - off
  {
    var f := Fragment(id, block, off, end);
    var next := off + |f.payload|;
    var rest := Fragments(id, block, next, end);
    assert Fragments(id, block, off, end)[1..] == rest;
    FragmentHeard(Heard(c.log), id, block, off, end);
    HearsOne(c.log, Sent(f));
    if next < |block| {
      FragmentsHeard(Emit(c, f), id, block, next, end);
    } else {
      assert block[..next] == block;
    }
  }

  // ---------------------------------------------------------------------
  // Runs
  // ---------------------------------------------------------------------

  ghost predicate NoneTwice(ids: seq<nat>) {
    forall j, k :: 0 <= j < k < |ids| ==> ids[j] != ids[k]
  }

  /** The client has no block under way, and has had one for each stream whose head was
      sent, which is the planned head of its response. */
  ghost predicate Understood(c: Conn) {
    var cl := Heard(c.log);
    && Rested(cl) && |cl.ids| == |cl.blocks| && NoneTwice(cl.ids)
    && (forall id: nat :: id in cl.ids <==> Follow(c.log, id).head != [])
    && forall k :: 0 <= k < |cl.ids| ==> cl.ids[k] in c.served && cl.blocks[k] == c.served[cl.ids[k]].block
  }

  lemma {:induction false} StillUnderstood(c: Conn, r: Conn)
    requires Understood(c) && NoHeads(c.log, r.log)
    requires forall id :: id in c.served ==> id in r.served && r.served[id] == c.served[id]
    ensures Understood(r)
  {
    HearsNothing(c.log, r.log);
    HeadsStay(c.log, r.log);
  }

  lemma {:induction false} ProcessUnderstood(env: Env, c: Conn, f: Frame)
    requires Understood(c)
    ensures Understood(Process(env, c, f))
  {
    ProcessLog(env, c, f);
    ProcessMoves(env, c, f);
    StillUnderstood(c, Process(env, c, f));
  }

  lemma {:induction false} DispatchOneServes(env: Env, c: Conn, i: nat)
    requires Good(env, c) && i < |c.streams|
    ensures var r := DispatchOne(env, c, i); forall id :: id in c.served ==> id in r.served && r.served[id] == c.served[id]
  {
    assert EntryOk(env.maxBody, Books(c.log), Follow(c.log, c.streams[i].id), c.served, c.streams[i]);
  }

  lemma DispatchTurn(env: Env, c: Conn, i: nat) returns (d: Conn)
    requires GoodEnv(env) && Good(env, c) && Understood(c) && i < |c.streams|
    ensures Good(env, d) && Understood(d) && |d.streams| == |c.streams|
    ensures DispatchFrom(env, c, i) == DispatchFrom(env, d, i + 1)
  {
    d := DispatchOne(env, c, i);
    DispatchOneKeeps(env, c, i);
    DispatchOneServes(env, c, i);
    DispatchOneMoves(env, c, i);
    StillUnderstood(c, d);
  }

  lemma {:induction false} DispatchUnderstood(env: Env, c: Conn, i: nat)
    requires GoodEnv(env) && Good(env, c) && Understood(c) && i <= |c.streams|
    ensures Good(env, DispatchFrom(env, c, i)) && Understood(DispatchFrom(env, c, i))
    decreases |c.streams| - i
  {
    if i < |c.streams| {
      var d := DispatchTurn(env, c, i);
      DispatchUnderstood(env, d, i + 1);
    }
  }

  lemma {:induction false} DataLoopHeadless(c: Conn, i: nat)
    requires i < |c.streams|
    ensures NoHeads(c.log, DataLoop(c, i).log) && DataLoop(c, i).served == c.served
    decreases LeftCount(c.streams[i].out)
  {
    var s := c.streams[i];
    if Placed(s.out.res, s.out.at) {
      NextDataAdvances(s.out.res, s.out.at, Room(c, s));
      var n := NextData(s.out.res, s.out.at, Room(c, s));
      if n.Piece? && !n.eof {
        DataLoopHeadless(SendData(c, i, n.at, n.payload, n.eof), i);
      }
    }
  }

  lemma {:induction false} SendHeadUnderstood(env: Env, c: Conn, i: nat)
    requires Good(env, c) && Understood(c) && i < |c.streams|
    requires Pumpable(c.streams[i]) && !c.streams[i].out.headersSent
    ensures Understood(SendHead(c, i))
  {
    BeforeHead(env, c, i);
    var s := c.streams[i];
    var plan := c.served[s.id];
    var c1 := Set(c, i, HeadOut(s, plan));
    FragmentsHeard(c1, s.id, plan.block, 0, plan.last);
    FragmentsLawful(env.maxBody, c1, s.id, plan.block, 0, plan.last);
    FragmentsShape(s.id, plan.block, 0, plan.last);
    OneMoreHead(c, SendHead(c, i), s.id, plan.block);
  }

  lemma {:induction false} OneMoreHead(c: Conn, r: Conn, id: nat, block: Text)
    requires Understood(c) && r.served == c.served && id in c.served && block == c.served[id].block
    requires Follow(c.log, id).head == [] && Follow(r.log, id).head != []
    requires forall other: nat :: other != id ==> Follow(r.log, other) == Follow(c.log, other)
    requires var cl := Heard(c.log); Heard(r.log) == Client(cl.ids + [id], cl.blocks + [block], 0, [])
    ensures Understood(r)
  {
    var cl := Heard(c.log);
    var ids := cl.ids + [id];
    assert id !in cl.ids;
    forall other: nat
      ensures other in ids <==> Follow(r.log, other).head != []
    {
    }
  }

  lemma {:induction false} PumpOneUnderstood(env: Env, c: Conn, i: nat)
    requires Good(env, c) && Understood(c) && i < |c.streams|
    ensures Understood(PumpOne(c, i))
  {
    if Pumpable(c.streams[i]) {
      var c1 := c;
      if !c.streams[i].out.headersSent {
        SendHeadUnderstood(env, c, i);
        c1 := SendHead(c, i);
      }
      DataLoopHeadless(c1, i);
      StillUnderstood(c1, DataLoop(c1, i));
    }
  }

  lemma PumpTurn(env: Env, c: Conn, i: nat) returns (d: Conn)
    requires Good(env, c) && Understood(c) && i < |c.streams|
    ensures Good(env, d) && Understood(d) && |d.streams| == |c.streams|
    ensures PumpFrom(c, i) == PumpFrom(d, i + 1)
  {
    d := PumpOne(c, i);
    PumpOneKeeps(env, c, i);
    PumpOneUnderstood(env, c, i);
  }

  lemma {:induction false} PumpUnderstood(env: Env, c: Conn, i: nat)
    requires Good(env, c) && Understood(c) && i <= |c.streams|
    ensures Understood(PumpFrom(c, i))
    decreases |c.streams| - i
  {
    if i < |c.streams| {
      var d := PumpTurn(env, c, i);
      PumpUnderstood(env, d, i + 1);
    }
  }

  /** On every run, whatever becomes of it, no header block the client is sent is
      interrupted or cut short, and those it puts together are the heads of the planned
      responses. */
  lemma {:induction false} EveryHeadUnderstood(env: Env, frames: seq<Frame>)
    requires GoodEnv(env)
    ensures Understood(Run(env, frames))
    decreases |frames|
  {
    if frames == [] {
      assert Heard(Init().log[..0]) == Ready;
    } else {
      var front, f := frames[..|frames| - 1], frames[|frames| - 1];
      var c := Run(env, front);
      EveryHeadUnderstood(env, front);
      if c.error == NO_ERROR {
        EveryRun(env, front);
        ProcessUnderstood(env, c, f);
        SettleUnderstood(env, c, f);
      }
    }
  }

  lemma {:induction false} SettleUnderstood(env: Env, c: Conn, f: Frame)
    requires GoodEnv(env) && Good(env, c) && Understood(Process(env, c, f))
    ensures Understood(Step(env, c, f))
  {
    var c1 := Process(env, c, f);
    if c1.error == NO_ERROR {
      ProcessLive(env, c, f);
      ProcessSafe(env, c, f);
      DispatchUnderstood(env, c1, 0);
      PumpUnderstood(env, Dispatch(env, c1), 0);
    }
  }

  // ---------------------------------------------------------------------
  // What the client reads
  // ---------------------------------------------------------------------

  /** The status and the header fields of a response. */
  datatype Head = Head(status: nat, fields: seq<Table.Field>)

  /** The encoded head. */
  function Encoded(codec: Hp.Codec, h: Head): Text
    requires Hp.Sized(codec)
  {
    Hp.Write(codec, Enc.StatusRep(h.status)) + Enc.WriteFields(codec, h.fields)
  }

  predicate Readable(codec: Hp.Codec, h: Head)
    requires Hp.Sized(codec)
  {
    h.status < 65536 && Enc.AllEncodable(h.fields) && Enc.AllFit(codec, h.fields)
  }

  function Listed(h: Head): seq<Table.Field> {
    [Table.Field(Ascii(Enc.STATUS), Digits.Decimal(h.status))] + h.fields
  }

  /** The client's decoder, on the heads it was sent, in order. */
  lemma {:induction false} HeadsDecode(codec: Hp.Codec, d: Table.Dyn, blocks: seq<Text>, heads: seq<Head>)
    requires Hp.Good(codec) && Enc.StatusRows(codec) && |heads| == |blocks|
    requires forall k :: 0 <= k < |heads| ==> Readable(codec, heads[k]) && blocks[k] == Encoded(codec, heads[k])
    ensures Hp.DecodeAll(codec, d, blocks) == Hp.Alive(seq(|heads|, k requires 0 <= k < |heads| => Listed(heads[k])), d)
    decreases |blocks|
  {
    if blocks != [] {
      Enc.ResponseRoundTrip(codec, d, heads[0].status, heads[0].fields);
      HeadsDecode(codec, d, blocks[1..], heads[1..]);
      var lists := seq(|heads|, k requires 0 <= k < |heads| => Listed(heads[k]));
      var tail := seq(|heads[1..]|, k requires 0 <= k < |heads[1..]| => Listed(heads[1..][k]));
      assert lists == [Listed(heads[0])] + tail;
    }
  }

  /** On every run: if the heads of the responses were made by the encoder, the client's
      decoder, whose table they never touch, reads from all it was sent the status and
      the fields of each, in the order in which they were sent. */
  lemma {:induction false} ClientReadsHeads(env: Env, frames: seq<Frame>, codec: Hp.Codec, d: Table.Dyn, head: nat -> Head)
    requires GoodEnv(env) && Hp.Good(codec) && Enc.StatusRows(codec)
    requires var r := Run(env, frames);
             forall id :: id in r.served ==> Readable(codec, head(id)) && r.served[id].block == Encoded(codec, head(id))
    ensures var cl := Heard(Run(env, frames).log);
            && cl.Client? && NoneTwice(cl.ids)
            && (forall id: nat :: id in cl.ids <==> Follow(Run(env, frames).log, id).head != [])
            && Hp.DecodeAll(codec, d, cl.blocks)
               == Hp.Alive(seq(|cl.ids|, k requires 0 <= k < |cl.ids| => Listed(head(cl.ids[k]))), d)
  {
    EveryHeadUnderstood(env, frames);
    var cl := Heard(Run(env, frames).log);
    var heads := seq(|cl.ids|, k requires 0 <= k < |cl.ids| => head(cl.ids[k]));
    HeadsDecode(codec, d, cl.blocks, heads);
    assert seq(|heads|, k requires 0 <= k < |heads| => Listed(heads[k]))
        == seq(|cl.ids|, k requires 0 <= k < |cl.ids| => Listed(head(cl.ids[k])));
  }
}
