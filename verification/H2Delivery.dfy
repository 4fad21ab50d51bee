/** Every run of the connection is lawful. */
module H2Delivery {
  // Dispatching, pumping and sweeping keep the invariants of `H2Safety`, as receiving
  // does.

  import opened Bytes
  import opened H2Frames
  import opened H2Log
  import opened H2Conn
  import opened H2Safety
  import opened H2Receive

  ghost predicate Good(env: Env, c: Conn) {
    Live(env, c) && Safe(env, c)
  }

  // ---------------------------------------------------------------------
  // Dispatch
  // ---------------------------------------------------------------------

  ghost function Answered(s: Stream, res: Response): Stream {
    s.(out := s.out.(dispatched := true, ready := true, res := res))
  }

  lemma {:induction false} AnsweredOk(maxBody: nat, b: Ledger, t: Track, served: map<nat, Plan>, s: Stream,
                                      res: Response, handled: bool)
    requires StreamOk(maxBody, b, t, served, s) && Dispatchable(s)
    ensures StreamOk(maxBody, b, t.(handled := handled), served[s.id := PlanFor(res, s.req.head)], Answered(s, res))
  {
  }

  /** The log of an answered stream: its handler ran, or an error page stands in. */
  lemma {:induction false} AnswerLog(env: Env, c: Conn, log: seq<Event>, i: nat)
    requires Good(env, c) && i < |c.streams| && Dispatchable(c.streams[i])
    requires log == c.log
             || (log == c.log + [Handled(c.streams[i].id, c.streams[i].req.body)] && !c.streams[i].req.tooBig)
    ensures Lawful(env.maxBody, log) && Books(log) == Books(c.log)
    ensures var id := c.streams[i].id; var t := Follow(c.log, id);
            && t.head == [] && t.data == []
            && Follow(log, id) == t.(handled := Follow(log, id).handled)
            && forall other: nat :: other != id ==> Follow(log, other) == Follow(c.log, other)
  {
    var s := c.streams[i];
    assert EntryOk(env.maxBody, Books(c.log), Follow(c.log, s.id), c.served, s);
    assert IdOk(c.served, s.id, Follow(c.log, s.id));
    Append(env.maxBody, c.log, Handled(s.id, s.req.body));
  }

  lemma {:induction false} AnswerEntries(env: Env, c: Conn, log: seq<Event>, i: nat, res: Response, at: nat)
    requires Good(env, c) && i < |c.streams| && Dispatchable(c.streams[i])
    requires Books(log) == Books(c.log)
    requires var id := c.streams[i].id;
             && Follow(log, id) == Follow(c.log, id).(handled := Follow(log, id).handled)
             && forall other: nat :: other != id ==> Follow(log, other) == Follow(c.log, other)
    ensures var r := Answer(c.(log := log), i, res, at);
            forall j :: 0 <= j < |r.streams| ==>
              EntryOk(env.maxBody, Books(r.log), Follow(r.log, r.streams[j].id), r.served, r.streams[j])
  {
    var r := Answer(c.(log := log), i, res, at);
    var s := c.streams[i];
    forall j | 0 <= j < |r.streams|
      ensures EntryOk(env.maxBody, Books(r.log), Follow(r.log, r.streams[j].id), r.served, r.streams[j])
    {
      assert EntryOk(env.maxBody, Books(c.log), Follow(c.log, c.streams[j].id), c.served, c.streams[j]);
      if j == i {
        AnsweredOk(env.maxBody, Books(c.log), Follow(c.log, s.id), c.served, s, res, Follow(log, s.id).handled);
      }
    }
  }

  lemma {:induction false} AnswerIds(env: Env, c: Conn, log: seq<Event>, i: nat, res: Response, at: nat)
    requires Good(env, c) && i < |c.streams| && Dispatchable(c.streams[i]) && res.block != []
    requires var id := c.streams[i].id; var t := Follow(c.log, id);
             && t.head == [] && t.data == []
             && Follow(log, id) == t.(handled := Follow(log, id).handled)
             && forall other: nat :: other != id ==> Follow(log, other) == Follow(c.log, other)
    ensures var r := Answer(c.(log := log), i, res, at); forall id: nat :: IdOk(r.served, id, Follow(r.log, id))
  {
    var r := Answer(c.(log := log), i, res, at);
    forall id: nat
      ensures IdOk(r.served, id, Follow(r.log, id))
    {
      assert IdOk(c.served, id, Follow(c.log, id));
    }
  }

  /** A stream gets its response, after its handler ran or instead of it. */
  lemma {:induction false} AnswerKeeps(env: Env, c: Conn, log: seq<Event>, i: nat, res: Response, at: nat)
    requires Good(env, c) && i < |c.streams| && Dispatchable(c.streams[i]) && res.block != []
    requires log == c.log
             || (log == c.log + [Handled(c.streams[i].id, c.streams[i].req.body)] && !c.streams[i].req.tooBig)
    ensures Good(env, Answer(c.(log := log), i, res, at))
  {
    AnswerLog(env, c, log, i);
    AnswerEntries(env, c, log, i, res, at);
    AnswerIds(env, c, log, i, res, at);
  }

  lemma {:induction false} DispatchOneKeeps(env: Env, c: Conn, i: nat)
    requires GoodEnv(env) && Good(env, c) && i < |c.streams|
    ensures Good(env, DispatchOne(env, c, i))
  {
    var s := c.streams[i];
    if Dispatchable(s) {
      assert c.(log := c.log) == c;
      var called := c.log + [Handled(s.id, s.req.body)];
      if TooLarge(env, s.req) {
        AnswerKeeps(env, c, c.log, i, env.tooLarge, |c.log|);
      } else {
        match env.inflate(s.id, s.req.body)
        case Corrupt => AnswerKeeps(env, c, c.log, i, env.badRequest, |c.log|);
        case Swollen => AnswerKeeps(env, c, c.log, i, env.tooLarge, |c.log|);
        case Inflated(body) => AnswerKeeps(env, c, called, i, env.handler(s.id, body), |c.log|);
      }
    }
  }

  /** The first entries have all been dispatched that could be. */
  ghost predicate DispatchedTo(env: Env, c: Conn, i: nat) {
    Good(env, c) && i <= |c.streams| && forall j :: 0 <= j < i ==> !Dispatchable(c.streams[j])
  }

  lemma DispatchOneTurn(env: Env, c: Conn, i: nat) returns (d: Conn)
    requires GoodEnv(env) && DispatchedTo(env, c, i) && i < |c.streams|
    ensures DispatchedTo(env, d, i + 1) && |d.streams| == |c.streams|
    ensures DispatchFrom(env, c, i) == DispatchFrom(env, d, i + 1)
  {
    d := DispatchOne(env, c, i);
    DispatchOneKeeps(env, c, i);
  }

  /** Dispatching keeps the invariants, and leaves nothing that could be dispatched. */
  lemma {:induction false} DispatchKeeps(env: Env, c: Conn, i: nat)
    requires GoodEnv(env) && DispatchedTo(env, c, i)
    ensures var r := DispatchFrom(env, c, i);
            Good(env, r) && forall j :: 0 <= j < |r.streams| ==> !Dispatchable(r.streams[j])
    decreases |c.streams| - i
  {
    if i < |c.streams| {
      var d := DispatchOneTurn(env, c, i);
      DispatchKeeps(env, d, i + 1);
    }
  }

  // ---------------------------------------------------------------------
  // Heads
  // ---------------------------------------------------------------------

  /** The head opens with HEADERS, closes with END_HEADERS, and carries END_STREAM
      on its first frame only if nothing follows. */
  lemma {:induction false} FragmentsShape(id: nat, block: Text, off: nat, end: bool)
    requires off < |block|
    ensures var fs := Fragments(id, block, off, end);
            && fs != [] && EndHeaders(fs[|fs| - 1]) && fs[0].id == id
            && fs[0].typ == (if off == 0 then HEADERS else CONT)
            && (EndStream(fs[0]) <==> off == 0 && end)
            && (EndHeaders(fs[0]) <==> |fs| == 1)
    decreases |block| - off
  {
    var take := if |block| - off > MAX_FRAME then MAX_FRAME else |block| - off;
    if off + take < |block| {
      FragmentsShape(id, block, off + take, end);
    }
  }

  /** The next frame of a head may be sent. */
  lemma {:induction false} FragmentLawful(maxBody: nat, c: Conn, f: Frame)
    requires Lawful(maxBody, c.log) && Follow(c.log, f.id).data == []
    requires var h := Follow(c.log, f.id).head;
             if f.typ == HEADERS then h == [] else f.typ == CONT && h != [] && !EndHeaders(h[|h| - 1])
    ensures HeadGrew(maxBody, c, f.id, [f], Emit(c, f))
  {
    Append(maxBody, c.log, Sent(f));
  }

  /** Only the head of one stream has grown. */
  ghost predicate HeadGrew(maxBody: nat, c: Conn, id: nat, fs: seq<Frame>, r: Conn) {
    && r == c.(log := r.log)
    && Lawful(maxBody, r.log) && Books(r.log) == Books(c.log)
    && Follow(r.log, id) == Follow(c.log, id).(head := Follow(c.log, id).head + fs)
    && forall other: nat :: other != id ==> Follow(r.log, other) == Follow(c.log, other)
  }

  lemma {:induction false} HeadGrewTwice(maxBody: nat, c: Conn, id: nat, fs: seq<Frame>, c1: Conn,
                                         gs: seq<Frame>, r: Conn)
    requires HeadGrew(maxBody, c, id, fs, c1) && HeadGrew(maxBody, c1, id, gs, r)
    ensures HeadGrew(maxBody, c, id, fs + gs, r)
  {
    var h := Follow(c.log, id).head;
    assert h + fs + gs == h + (fs + gs);
  }

  /** Sending the fragments of a block, from one that may come next. */
  lemma {:induction false} FragmentsLawful(maxBody: nat, c: Conn, id: nat, block: Text, off: nat, end: bool)
    requires off < |block| && Lawful(maxBody, c.log) && Follow(c.log, id).data == []
    requires var h := Follow(c.log, id).head;
             if off == 0 then h == [] else h != [] && !EndHeaders(h[|h| - 1])
    ensures HeadGrew(maxBody, c, id, Fragments(id, block, off, end), EmitAll(c, Fragments(id, block, off, end)))
    decreases |block| - off
  {
    var fs := Fragments(id, block, off, end);
    FragmentsShape(id, block, off, end);
    var c1 := Emit(c, fs[0]);
    FragmentLawful(maxBody, c, fs[0]);
    var next := off + |fs[0].payload|;
    assert fs[1..] == Fragments(id, block, next, end);
    assert fs == [fs[0]] + fs[1..];
    if next < |block| {
      FragmentsLawful(maxBody, c1, id, block, next, end);
      HeadGrewTwice(maxBody, c, id, [fs[0]], c1, fs[1..], EmitAll(c1, fs[1..]));
    } else {
      assert fs[1..] == [] && fs == [fs[0]];
    }
  }

  lemma {:induction false} LeftAtStart(res: Response)
    ensures Placed(res, Start) && (Streaming(res) || res.body != [] ==> Left(res, Start) == WholeBody(res))
  {
    NextChunkFromStart(res.chunks, 0);
    assert res.chunks[0..] == res.chunks;
    assert res.body[0..] == res.body;
    if res.producer.Some? {
      assert res.producer.value.content[0..] == res.producer.value.content;
    }
  }

  /** The state of an entry right after its head went out. */
  lemma {:induction false} HeadSent(maxBody: nat, b: Ledger, t: Track, served: map<nat, Plan>, s: Stream,
                                    t': Track, s': Stream)
    requires StreamOk(maxBody, b, t, served, s) && Pumpable(s) && !s.out.headersSent && t.data == []
    requires var plan := served[s.id]; plan.block != [] && t' == t.(head := HeadFrames(s.id, plan.block, plan.last))
    requires s' == s.(out := s.out.(headersSent := true, at := s.out.at.(bodyOff := 0),
                                    ended := served[s.id].last, ready := !served[s.id].last))
    ensures StreamOk(maxBody, b, t', served, s')
  {
    var plan := served[s.id];
    FragmentsShape(s.id, plan.block, 0, plan.last);
    LeftAtStart(s.out.res);
    assert [] + WholeBody(s.out.res) == WholeBody(s.out.res);
  }

  /** Entry i and the log moved; everything else of the state is as before. */
  ghost predicate EntryMoved(env: Env, c: Conn, i: nat, s: Stream, r: Conn) {
    && i < |c.streams| && s.id == c.streams[i].id
    && r == c.(streams := c.streams[i := s], sendWindow := r.sendWindow, log := r.log)
    && Lawful(env.maxBody, r.log)
    && Books(r.log) == Books(c.log).(window := r.sendWindow)
    && (forall id: nat :: id != s.id ==> Follow(r.log, id) == Follow(c.log, id))
    && var t := Follow(r.log, s.id);
       && StreamOk(env.maxBody, Books(r.log), t, c.served, s)
       && s.id in c.served && Delivery(s.id, c.served[s.id], t)
       && t.ended == Follow(c.log, s.id).ended
  }

  lemma {:induction false} EntryKeepsEntries(env: Env, c: Conn, i: nat, s: Stream, r: Conn)
    requires Live(env, c) && EntryMoved(env, c, i, s, r)
    ensures Live(env, r)
  {
    forall j | 0 <= j < |r.streams|
      ensures EntryOk(env.maxBody, Books(r.log), Follow(r.log, r.streams[j].id), r.served, r.streams[j])
    {
      assert EntryOk(env.maxBody, Books(c.log), Follow(c.log, c.streams[j].id), c.served, c.streams[j]);
    }
  }

  lemma {:induction false} EntryKeeps(env: Env, c: Conn, i: nat, s: Stream, r: Conn)
    requires Good(env, c) && EntryMoved(env, c, i, s, r)
    ensures Good(env, r)
  {
    EntryKeepsEntries(env, c, i, s, r);
    forall id: nat
      ensures IdOk(r.served, id, Follow(r.log, id))
    {
      assert IdOk(c.served, id, Follow(c.log, id));
    }
  }

  ghost function HeadOut(s: Stream, plan: Plan): Stream {
    s.(out := s.out.(headersSent := true, at := s.out.at.(bodyOff := 0), ended := plan.last, ready := !plan.last))
  }

  /** A pumpable entry without a head has sent nothing. */
  lemma {:induction false} BeforeHead(env: Env, c: Conn, i: nat)
    requires Good(env, c) && i < |c.streams| && Pumpable(c.streams[i]) && !c.streams[i].out.headersSent
    ensures var s := c.streams[i]; var t := Follow(c.log, s.id);
            && StreamOk(env.maxBody, Books(c.log), t, c.served, s)
            && t.head == [] && t.data == []
            && s.id in c.served && c.served[s.id] == PlanFor(s.out.res, s.req.head) && c.served[s.id].block != []
  {
    var s := c.streams[i];
    assert EntryOk(env.maxBody, Books(c.log), Follow(c.log, s.id), c.served, s);
    assert IdOk(c.served, s.id, Follow(c.log, s.id));
  }

  lemma {:induction false} SendHeadKeeps(env: Env, c: Conn, i: nat)
    requires Good(env, c) && i < |c.streams| && Pumpable(c.streams[i]) && !c.streams[i].out.headersSent
    ensures var r := SendHead(c, i);
            && Good(env, r) && c.streams[i].id in c.served
            && r.streams == c.streams[i := HeadOut(c.streams[i], c.served[c.streams[i].id])]
            && r.sendWindow == c.sendWindow
  {
    BeforeHead(env, c, i);
    var s := c.streams[i];
    var plan := c.served[s.id];
    var c1 := Set(c, i, HeadOut(s, plan));
    var fs := HeadFrames(s.id, plan.block, plan.last);
    FragmentsLawful(env.maxBody, c1, s.id, plan.block, 0, plan.last);
    var r := EmitAll(c1, fs);
    assert r == SendHead(c, i);
    assert [] + fs == fs;
    HeadDelivered(env, c, i, plan, fs, c1, r);
  }

  lemma {:induction false} HeadDelivered(env: Env, c: Conn, i: nat, plan: Plan, fs: seq<Frame>, c1: Conn, r: Conn)
    requires Good(env, c) && i < |c.streams| && Pumpable(c.streams[i]) && !c.streams[i].out.headersSent
    requires c.streams[i].id in c.served && plan == c.served[c.streams[i].id]
    requires c1 == c.(streams := c.streams[i := HeadOut(c.streams[i], plan)])
    requires fs == HeadFrames(c.streams[i].id, plan.block, plan.last)
    requires HeadGrew(env.maxBody, c1, c.streams[i].id, fs, r)
    ensures Good(env, r)
  {
    BeforeHead(env, c, i);
    var s := c.streams[i];
    var t := Follow(c.log, s.id);
    assert [] + fs == fs;
    HeadSent(env.maxBody, Books(c.log), t, c.served, s, Follow(r.log, s.id), HeadOut(s, plan));
    EntryKeeps(env, c, i, HeadOut(s, plan), r);
  }

  // ---------------------------------------------------------------------
  // Bodies
  // ---------------------------------------------------------------------

  /** A response underway: its head is complete and open, its data unfinished. */
  lemma {:induction false} UnderwayOpen(env: Env, c: Conn, i: nat)
    requires Good(env, c) && i < |c.streams| && Pumpable(c.streams[i]) && c.streams[i].out.headersSent
    ensures var s := c.streams[i]; var t := Follow(c.log, s.id);
            && StreamOk(env.maxBody, Books(c.log), t, c.served, s)
            && t.head != [] && EndHeaders(t.head[|t.head| - 1]) && !Closed(t)
            && s.id in c.served && Delivery(s.id, c.served[s.id], t)
  {
    var s := c.streams[i];
    var t := Follow(c.log, s.id);
    assert EntryOk(env.maxBody, Books(c.log), t, c.served, s);
    assert IdOk(c.served, s.id, t);
    var plan := c.served[s.id];
    FragmentsShape(s.id, plan.block, 0, plan.last);
  }

  ghost function PieceFrame(s: Stream, n: Next): Frame
    requires n.Piece?
  {
    Frame(DATA, if n.eof then 1 else 0, s.id, n.payload)
  }

  ghost function PieceSent(s: Stream, n: Next): Stream
    requires n.Piece?
  {
    Widen(s, -|n.payload|)
      .(out := s.out.(at := n.at, sent := s.out.sent + |n.payload|, ended := n.eof, ready := !n.eof))
  }

  lemma {:induction false} PieceText(plan: Plan, sent: Text, payload: Text, left: Text, ended: bool)
    requires sent + (payload + left) == plan.body && (ended ==> left == [])
    ensures PrefixOk(plan, sent + payload, ended) && sent + payload + left == plan.body
  {
    assert sent + (payload + left) == sent + payload + left;
  }

  /** One more piece keeps the data a prefix of the body, closed only when whole. */
  lemma {:induction false} PieceData(id: nat, plan: Plan, data: seq<Frame>, f: Frame, left: Text)
    requires DataOk(id, plan, data) && !plan.last && forall k :: 0 <= k < |data| ==> data[k].flags == 0
    requires f.typ == DATA && f.id == id && f.flags <= 1
    requires Payloads(data) + (f.payload + left) == plan.body && (f.flags == 1 ==> left == [])
    ensures DataOk(id, plan, data + [f]) && Payloads(data + [f]) + left == plan.body
  {
    PayloadsAppend(data, f);
    PieceText(plan, Payloads(data), f.payload, left, f.flags == 1);
    assert (data + [f])[|data|] == f;
  }

  /** What has been sent of a body under way, after one more piece. */
  lemma {:induction false} PieceMoves(plan: Plan, t: Track, s: Stream, room: int, n: Next)
    requires Placed(s.out.res, s.out.at) && Underway(t, plan, s.out) && DataOk(s.id, plan, t.data)
    requires n.Piece? && Advances(s.out.res, s.out.at, room, n)
    ensures var t' := t.(data := t.data + [PieceFrame(s, n)]); var o := PieceSent(s, n).out;
            && DataOk(s.id, plan, t'.data) && Placed(o.res, o.at)
            && (!n.eof ==> Underway(t', plan, o))
            && |Payloads(t'.data)| == |Payloads(t.data)| + |n.payload|
  {
    var f := PieceFrame(s, n);
    PieceData(s.id, plan, t.data, f, Left(s.out.res, n.at));
    PayloadsAppend(t.data, f);
  }

  /** The piece that ends a body closes the stream, its producer asked to the end. */
  lemma {:induction false} PieceCloses(t: Track, s: Stream, n: Next, last: bool)
    requires n.Piece? && n.eof && (s.out.res.producer.Some? ==> n.at.fnEof)
    ensures Closed(t.(data := t.data + [PieceFrame(s, n)])) && FullyAsked(PieceSent(s, n).out, last)
  {
    var data := t.data + [PieceFrame(s, n)];
    assert data[|data| - 1] == PieceFrame(s, n);
  }

  lemma {:induction false} PieceResponse(t: Track, served: map<nat, Plan>, s: Stream, room: int, n: Next)
    requires ResponseOk(t, served, s) && Pumpable(s) && s.out.headersSent
    requires Delivery(s.id, served[s.id], t)
    requires n.Piece? && Advances(s.out.res, s.out.at, room, n)
    ensures var t' := t.(data := t.data + [PieceFrame(s, n)]);
            && ResponseOk(t', served, PieceSent(s, n)) && Delivery(s.id, served[s.id], t')
            && |Payloads(t'.data)| == |Payloads(t.data)| + |n.payload|
  {
    PieceMoves(served[s.id], t, s, room, n);
    if n.eof {
      PieceCloses(t, s, n, PlanFor(s.out.res, s.req.head).last);
    }
  }

  /** The account of a stream after one more piece of its body. */
  lemma {:induction false} PieceOk(maxBody: nat, b: Ledger, t: Track, served: map<nat, Plan>, s: Stream,
                                   room: int, n: Next)
    requires StreamOk(maxBody, b, t, served, s) && Pumpable(s) && s.out.headersSent
    requires Delivery(s.id, served[s.id], t)
    requires n.Piece? && Advances(s.out.res, s.out.at, room, n)
    ensures var t' := t.(data := t.data + [PieceFrame(s, n)]);
            var b' := b.(window := b.window - |n.payload|);
            StreamOk(maxBody, b', t', served, PieceSent(s, n)) && Delivery(s.id, served[s.id], t')
  {
    PieceResponse(t, served, s, room, n);
  }

  /** A piece that fits the room is allowed by both windows of the moment. */
  lemma {:induction false} SendDataLog(env: Env, c: Conn, i: nat, n: Next)
    requires Good(env, c) && i < |c.streams| && Pumpable(c.streams[i]) && c.streams[i].out.headersSent
    requires n.Piece? && |n.payload| <= MAX_FRAME && (n.payload != [] ==> |n.payload| <= Room(c, c.streams[i]))
    ensures var s := c.streams[i]; var t := Follow(c.log, s.id); var f := PieceFrame(s, n);
            var log := c.log + [Sent(f)];
            && Lawful(env.maxBody, log) && Books(log) == Books(c.log).(window := c.sendWindow - |n.payload|)
            && Follow(log, s.id) == t.(data := t.data + [f])
            && forall id: nat :: id != s.id ==> Follow(log, id) == Follow(c.log, id)
  {
    UnderwayOpen(env, c, i);
    Append(env.maxBody, c.log, Sent(PieceFrame(c.streams[i], n)));
  }

  lemma {:induction false} SendDataShape(c: Conn, i: nat, n: Next)
    requires i < |c.streams| && n.Piece?
    ensures SendData(c, i, n.at, n.payload, n.eof)
            == c.(streams := c.streams[i := PieceSent(c.streams[i], n)], sendWindow := c.sendWindow - |n.payload|,
                  log := c.log + [Sent(PieceFrame(c.streams[i], n))])
  {
  }

  lemma {:induction false} SendDataKeeps(env: Env, c: Conn, i: nat, n: Next)
    requires Good(env, c) && i < |c.streams| && Pumpable(c.streams[i]) && c.streams[i].out.headersSent
    requires n.Piece? && Placed(c.streams[i].out.res, c.streams[i].out.at)
    requires Advances(c.streams[i].out.res, c.streams[i].out.at, Room(c, c.streams[i]), n)
    ensures var r := SendData(c, i, n.at, n.payload, n.eof);
            && Good(env, r) && r.streams == c.streams[i := PieceSent(c.streams[i], n)]
            && r.sendWindow == c.sendWindow - |n.payload|
  {
    UnderwayOpen(env, c, i);
    var s := c.streams[i];
    SendDataLog(env, c, i, n);
    PieceOk(env.maxBody, Books(c.log), Follow(c.log, s.id), c.served, s, Room(c, s), n);
    SendDataShape(c, i, n);
    EntryKeeps(env, c, i, PieceSent(s, n), SendData(c, i, n.at, n.payload, n.eof));
  }

  lemma {:induction false} BlockedKeeps(env: Env, c: Conn, i: nat, at: Cursor)
    requires Good(env, c) && i < |c.streams| && Pumpable(c.streams[i]) && c.streams[i].out.headersSent
    requires var o := c.streams[i].out;
             Placed(o.res, o.at) && Placed(o.res, at) && Left(o.res, at) == Left(o.res, o.at)
    ensures Good(env, Set(c, i, c.streams[i].(out := c.streams[i].out.(at := at))))
  {
    UnderwayOpen(env, c, i);
    var s := c.streams[i];
    var s' := s.(out := s.out.(at := at));
    assert StreamOk(env.maxBody, Books(c.log), Follow(c.log, s.id), c.served, s');
    EntryKeeps(env, c, i, s', Set(c, i, s'));
  }

  /** The request side of an entry is as it was. */
  ghost predicate SameRequest(s: Stream, s': Stream) {
    s'.id == s.id && s'.reset == s.reset && s'.req == s.req && s'.out.dispatched == s.out.dispatched
  }

  /** Only the response of entry i moved, the connection window only shrank, and
      entry i stalls. */
  ghost predicate Pumped(c: Conn, i: nat, r: Conn) {
    && |r.streams| == |c.streams| && i < |c.streams|
    && (forall j :: 0 <= j < |c.streams| && j != i ==> r.streams[j] == c.streams[j])
    && SameRequest(c.streams[i], r.streams[i])
    && r.sendWindow <= c.sendWindow
    && Stalled(r, r.streams[i])
  }

  lemma {:induction false} DataLoopKeeps(env: Env, c: Conn, i: nat)
    requires Good(env, c) && i < |c.streams| && Pumpable(c.streams[i]) && c.streams[i].out.headersSent
    ensures Good(env, DataLoop(c, i)) && Pumped(c, i, DataLoop(c, i))
    decreases LeftCount(c.streams[i].out)
  {
    UnderwayOpen(env, c, i);
    var s := c.streams[i];
    NextDataAdvances(s.out.res, s.out.at, Room(c, s));
    var n := NextData(s.out.res, s.out.at, Room(c, s));
    match n
    case Blocked(at) =>
      BlockedIsHeld(s.out.res, s.out.at, Room(c, s));
      BlockedKeeps(env, c, i, at);
    case Piece(at, payload, eof) =>
      SendDataKeeps(env, c, i, n);
      if !eof {
        DataLoopKeeps(env, SendData(c, i, at, payload, eof), i);
      }
  }

  lemma {:induction false} PumpOneKeeps(env: Env, c: Conn, i: nat)
    requires Good(env, c) && i < |c.streams|
    ensures Good(env, PumpOne(c, i)) && Pumped(c, i, PumpOne(c, i))
  {
    if Pumpable(c.streams[i]) {
      var c1 := c;
      if !c.streams[i].out.headersSent {
        SendHeadKeeps(env, c, i);
        c1 := SendHead(c, i);
      }
      if !c1.streams[i].out.ended {
        DataLoopKeeps(env, c1, i);
      }
    }
  }

  lemma {:induction false} StallStays(c: Conn, i: nat, r: Conn, j: nat)
    requires Pumped(c, i, r) && j < |c.streams| && (j != i ==> Stalled(c, c.streams[j]))
    ensures Stalled(r, r.streams[j])
  {
  }

  /** Every entry keeps its request. */
  ghost predicate SameRequests(ss: seq<Stream>, ss': seq<Stream>) {
    |ss'| == |ss| && forall j :: 0 <= j < |ss| ==> SameRequest(ss[j], ss'[j])
  }

  lemma {:induction false} SameRequestsTwice(a: seq<Stream>, b: seq<Stream>, c: seq<Stream>)
    requires SameRequests(a, b) && SameRequests(b, c)
    ensures SameRequests(a, c)
  {
  }

  /** The first entries have been pumped. */
  ghost predicate PumpedTo(env: Env, c: Conn, i: nat) {
    Good(env, c) && i <= |c.streams| && forall j :: 0 <= j < i ==> Stalled(c, c.streams[j])
  }

  lemma {:induction false} PumpTurn(env: Env, c: Conn, i: nat) returns (d: Conn)
    requires PumpedTo(env, c, i) && i < |c.streams|
    ensures PumpedTo(env, d, i + 1) && SameRequests(c.streams, d.streams)
    ensures PumpFrom(c, i) == PumpFrom(d, i + 1)
  {
    d := PumpOne(c, i);
    PumpOneKeeps(env, c, i);
    forall j | 0 <= j < i + 1
      ensures Stalled(d, d.streams[j])
    {
      StallStays(c, i, d, j);
    }
  }

  lemma {:induction false} PumpReaches(env: Env, c: Conn, i: nat)
    requires PumpedTo(env, c, i)
    ensures var r := PumpFrom(c, i); PumpedTo(env, r, |r.streams|)
    decreases |c.streams| - i
  {
    if i < |c.streams| {
      var d := PumpTurn(env, c, i);
      PumpReaches(env, d, i + 1);
    }
  }

  lemma {:induction false} PumpSpares(env: Env, c: Conn, i: nat)
    requires PumpedTo(env, c, i)
    ensures SameRequests(c.streams, PumpFrom(c, i).streams)
    decreases |c.streams| - i
  {
    if i < |c.streams| {
      var d := PumpTurn(env, c, i);
      PumpSpares(env, d, i + 1);
      SameRequestsTwice(c.streams, d.streams, PumpFrom(d, i + 1).streams);
    }
  }

  /** After the pump every response is over or has no window left: a window update
      is never answered with idleness. */
  lemma {:induction false} PumpKeeps(env: Env, c: Conn, i: nat)
    requires PumpedTo(env, c, i)
    ensures var r := PumpFrom(c, i);
            && Good(env, r) && SameRequests(c.streams, r.streams)
            && forall j :: 0 <= j < |r.streams| ==> Stalled(r, r.streams[j])
  {
    PumpReaches(env, c, i);
    PumpSpares(env, c, i);
  }

  // ---------------------------------------------------------------------
  // The sweep
  // ---------------------------------------------------------------------

  ghost predicate Distinct(ss: seq<Stream>) {
    forall i, j :: 0 <= i < j < |ss| ==> ss[i].id != ss[j].id
  }

  lemma {:induction false} RemoveAtRemoves(ss: seq<Stream>, i: nat)
    requires i < |ss| && Distinct(ss)
    ensures var r := SwapRemove(ss, i);
            && |r| == |ss| - 1 && Distinct(r)
            && (forall s :: s in r <==> s in ss && s != ss[i])
  {
    var r := SwapRemove(ss, i);
    forall s
      ensures s in r <==> s in ss && s != ss[i]
    {
      if s in ss && s != ss[i] {
        var k :| 0 <= k < |ss| && ss[k] == s;
        assert r[if k == |ss| - 1 then i else k] == s;
      }
    }
  }

  /** Dropping an entry that is over loses none that is not. */
  lemma {:induction false} DropOver(ss: seq<Stream>, i: nat)
    requires i < |ss| && Distinct(ss) && Over(ss[i])
    requires forall j :: i < j < |ss| ==> !Over(ss[j])
    ensures var r := SwapRemove(ss, i);
            && Distinct(r) && |r| < |ss|
            && (forall j :: i <= j < |r| ==> !Over(r[j]))
            && (forall s :: s in r && !Over(s) <==> s in ss && !Over(s))
  {
    RemoveAtRemoves(ss, i);
  }

  /** One turn of the sweep. */
  lemma {:induction false} SweepTurn(ss: seq<Stream>, i: nat) returns (rest: seq<Stream>)
    requires 0 < i <= |ss| && Distinct(ss)
    requires forall j :: i <= j < |ss| ==> !Over(ss[j])
    ensures Distinct(rest) && i - 1 <= |rest| <= |ss| && SweepFrom(ss, i) == SweepFrom(rest, i - 1)
    ensures forall j :: i - 1 <= j < |rest| ==> !Over(rest[j])
    ensures forall s :: s in rest && !Over(s) <==> s in ss && !Over(s)
  {
    rest := ss;
    if Over(ss[i - 1]) {
      DropOver(ss, i - 1);
      rest := SwapRemove(ss, i - 1);
    }
  }

  /** The swap-remove sweep drops exactly the entries that are over. */
  lemma {:induction false} SweepExact(ss: seq<Stream>, i: nat)
    requires i <= |ss| && Distinct(ss)
    requires forall j :: i <= j < |ss| ==> !Over(ss[j])
    ensures var r := SweepFrom(ss, i);
            && Distinct(r) && |r| <= |ss|
            && (forall s :: s in r <==> s in ss && !Over(s))
    decreases i
  {
    if i > 0 {
      var rest := SweepTurn(ss, i);
      SweepExact(rest, i - 1);
    }
  }

  lemma {:induction false} SweptEntry(c: Conn, s: Stream)
    requires Distinct(c.streams) && s in Sweep(c).streams
    ensures exists k :: 0 <= k < |c.streams| && c.streams[k] == s
    ensures !Over(s)
  {
    SweepExact(c.streams, |c.streams|);
  }

  lemma {:induction false} SweepGood(env: Env, c: Conn)
    requires Good(env, c)
    ensures Good(env, Sweep(c))
  {
    var r := Sweep(c);
    SweepExact(c.streams, |c.streams|);
    forall j | 0 <= j < |r.streams|
      ensures && 0 < r.streams[j].id <= r.lastId && r.streams[j].id % 2 == 1
              && EntryOk(env.maxBody, Books(r.log), Follow(r.log, r.streams[j].id), r.served, r.streams[j])
    {
      SweptEntry(c, r.streams[j]);
      var k :| 0 <= k < |c.streams| && c.streams[k] == r.streams[j];
      assert EntryOk(env.maxBody, Books(c.log), Follow(c.log, c.streams[k].id), c.served, c.streams[k]);
    }
  }

  lemma {:induction false} SweepKeeps(env: Env, c: Conn)
    requires Good(env, c)
    requires forall j :: 0 <= j < |c.streams| ==> !Dispatchable(c.streams[j]) && Stalled(c, c.streams[j])
    ensures Good(env, Sweep(c)) && Idle(Sweep(c))
  {
    var r := Sweep(c);
    SweepGood(env, c);
    forall j | 0 <= j < |r.streams|
      ensures !Over(r.streams[j]) && !Dispatchable(r.streams[j]) && Stalled(r, r.streams[j])
    {
      SweptEntry(c, r.streams[j]);
      var k :| 0 <= k < |c.streams| && c.streams[k] == r.streams[j];
    }
  }

  // ---------------------------------------------------------------------
  // Whole runs
  // ---------------------------------------------------------------------

  lemma {:induction false} InitGood(env: Env)
    ensures Good(env, Init()) && Idle(Init())
  {
    var f := Frame(SETTINGS, 0, 0, [0, 3] + Be32(MAX_STREAMS));
    Append(env.maxBody, [], Sent(f));
    assert [] + [Sent(f)] == [Sent(f)];
  }

  /** What the serving loop does after a frame: dispatch, pump and sweep. */
  lemma {:induction false} SettleKeeps(env: Env, c: Conn)
    requires GoodEnv(env) && Good(env, c)
    ensures var r := Sweep(Pump(Dispatch(env, c)));
            Good(env, r) && Idle(r) && r.lastId == c.lastId
  {
    var d := Dispatch(env, c);
    DispatchKeeps(env, c, 0);
    PumpKeeps(env, d, 0);
    var p := Pump(d);
    forall j | 0 <= j < |p.streams|
      ensures !Dispatchable(p.streams[j])
    {
      assert SameRequest(d.streams[j], p.streams[j]);
    }
    SweepKeeps(env, p);
  }

  lemma {:induction false} StepKeeps(env: Env, c: Conn, f: Frame)
    requires GoodEnv(env) && Safe(env, c) && (c.error == NO_ERROR ==> Live(env, c))
    ensures var r := Step(env, c, f);
            && Safe(env, r)
            && (r.error == NO_ERROR ==> Live(env, r) && Idle(r) && r.lastId >= c.lastId)
  {
    if c.error == NO_ERROR {
      ProcessSafe(env, c, f);
      var c1 := Process(env, c, f);
      if c1.error == NO_ERROR {
        ProcessLive(env, c, f);
        SettleKeeps(env, c1);
        LastIdKept(env, c, f);
      }
    }
  }

  lemma {:induction false} LastIdKept(env: Env, c: Conn, f: Frame)
    requires c.error == NO_ERROR && Process(env, c, f).error == NO_ERROR
    ensures Process(env, c, f).lastId >= c.lastId
  {
    HandleQuiet(env, c.(log := c.log + [Recv(f)]), f);
  }

  /** Every run, whatever the client sends: the log is lawful and every response
      delivered in order, even after a connection error; without one the server's
      books are the observer's, no finished stream is left in the table, no complete
      request waits for its response, and no response waits but for a window. */
  lemma {:induction false} EveryRun(env: Env, frames: seq<Frame>)
    requires GoodEnv(env)
    ensures var r := Run(env, frames);
            && Safe(env, r)
            && (r.error == NO_ERROR ==> Live(env, r) && Idle(r))
    decreases |frames|
  {
    if frames == [] {
      InitGood(env);
    } else {
      EveryRun(env, frames[..|frames| - 1]);
      StepKeeps(env, Run(env, frames[..|frames| - 1]), frames[|frames| - 1]);
    }
  }

  // ---------------------------------------------------------------------
  // What this means for a client
  // ---------------------------------------------------------------------

  /** Send windows are conserved: the connection's is 65535 plus its increments
      less every DATA octet sent, and each open stream's is the client's current
      initial window plus its increments less its own DATA octets. */
  lemma {:induction false} WindowsConserved(env: Env, frames: seq<Frame>)
    requires GoodEnv(env) && Run(env, frames).error == NO_ERROR
    ensures var r := Run(env, frames);
            && r.sendWindow == Books(r.log).window
            && r.initWindow == Books(r.log).init
            && forall i :: 0 <= i < |r.streams| ==>
                 var s := r.streams[i];
                 && s.sendWindow == StreamWindow(Books(r.log), Follow(r.log, s.id))
                 && s.out.sent == |Payloads(Follow(r.log, s.id).data)|
  {
    EveryRun(env, frames);
    var r := Run(env, frames);
    forall i | 0 <= i < |r.streams|
      ensures var s := r.streams[i];
              && s.sendWindow == StreamWindow(Books(r.log), Follow(r.log, s.id))
              && s.out.sent == |Payloads(Follow(r.log, s.id).data)|
    {
      assert EntryOk(env.maxBody, Books(r.log), Follow(r.log, r.streams[i].id), r.served, r.streams[i]);
    }
  }

  /** Whatever the interleaving, no DATA frame was ever larger than a frame may be
      or than either window as it stood at that moment. */
  lemma {:induction false} NoOverrun(env: Env, frames: seq<Frame>, k: nat)
    requires GoodEnv(env) && k < |Run(env, frames).log|
    requires Run(env, frames).log[k].Sent? && Run(env, frames).log[k].f.typ == DATA
    ensures var log := Run(env, frames).log; var f := log[k].f;
            && |f.payload| <= MAX_FRAME
            && (f.payload != [] ==>
                  && |f.payload| <= Books(log[..k]).window
                  && |f.payload| <= StreamWindow(Books(log[..k]), Follow(log[..k], f.id)))
  {
    EveryRun(env, frames);
    LawfulAt(env.maxBody, Run(env, frames).log, k);
  }

  lemma {:induction false} HandledStays(log: seq<Event>, j: nat, id: nat)
    requires j < |log| && log[j].Handled? && log[j].id == id
    ensures Follow(log, id).handled
  {
    if j < |log| - 1 {
      HandledStays(log[..|log| - 1], j, id);
    }
  }

  /** A handler runs at most once for a stream, and only on the whole of what the
      peer sent before ending it. */
  lemma {:induction false} HandledOnce(env: Env, frames: seq<Frame>, k: nat)
    requires GoodEnv(env) && k < |Run(env, frames).log| && Run(env, frames).log[k].Handled?
    ensures var log := Run(env, frames).log; var e := log[k];
            && e.body == Follow(log[..k], e.id).received && |e.body| <= env.maxBody
            && Follow(log[..k], e.id).ended
            && forall j :: 0 <= j < |log| && j != k && log[j].Handled? ==> log[j].id != e.id
  {
    EveryRun(env, frames);
    var log := Run(env, frames).log;
    LawfulAt(env.maxBody, log, k);
    forall j | 0 <= j < |log| && j != k && log[j].Handled?
      ensures log[j].id != log[k].id
    {
      LawfulAt(env.maxBody, log, j);
      if log[j].id == log[k].id {
        var last := if j < k then k else j;
        HandledStays(log[..last], if j < k then j else k, log[k].id);
      }
    }
  }

  /** After a connection error nothing moves any more. */
  lemma {:induction false} RunStuck(env: Env, seen: seq<Frame>, more: seq<Frame>)
    requires Run(env, seen).error != NO_ERROR
    ensures Run(env, seen + more) == Run(env, seen)
    decreases |more|
  {
    if more == [] {
      assert seen + more == seen;
    } else {
      var front := more[..|more| - 1];
      RunStuck(env, seen, front);
      assert (seen + more)[..|seen + more| - 1] == seen + front;
    }
  }

  lemma RunNext(env: Env, seen: seq<Frame>, f: Frame)
    ensures Run(env, seen + [f]) == Step(env, Run(env, seen), f)
  {
    assert (seen + [f])[..|seen|] == seen;
  }

  /** Inside a header block any frame but its own CONTINUATION ends the connection:
      whatever comes later, nothing more is processed or sent. */
  lemma {:induction false} BlockNotInterrupted(env: Env, frames: seq<Frame>, f: Frame, more: seq<Frame>)
    requires var c := Run(env, frames);
             c.error == NO_ERROR && c.hb.stream != 0 && (f.typ != CONT || f.id != c.hb.stream)
    ensures Run(env, frames + [f] + more) == Run(env, frames).(error := PROTOCOL, log := Run(env, frames).log + [Recv(f)])
  {
    RunNext(env, frames, f);
    RunStuck(env, frames + [f], more);
  }

  /** The block being collected survives everything the serving loop does between
      two frames, so reassembly over a run is `FeedAll` over its header frames. */
  lemma {:induction false} BlockHeld(env: Env, c: Conn, f: Frame)
    requires c.error == NO_ERROR && !OutOfTurn(c, f) && (f.typ == HEADERS || f.typ == CONT)
    requires Feed(c.hb, f).Hold?
    ensures Step(env, c, f).error == NO_ERROR && Step(env, c, f).hb == Feed(c.hb, f).a
  {
    DispatchHolds(env, Process(env, c, f), 0);
    PumpHolds(Dispatch(env, Process(env, c, f)), 0);
  }

  lemma {:induction false} DispatchHolds(env: Env, c: Conn, i: nat)
    requires i <= |c.streams|
    ensures DispatchFrom(env, c, i).hb == c.hb && DispatchFrom(env, c, i).error == c.error
    decreases |c.streams| - i
  {
    if i < |c.streams| {
      DispatchHolds(env, DispatchOne(env, c, i), i + 1);
    }
  }

  lemma {:induction false} EmitHolds(c: Conn, frames: seq<Frame>)
    ensures EmitAll(c, frames) == c.(log := EmitAll(c, frames).log)
    decreases |frames|
  {
    if frames != [] {
      EmitHolds(Emit(c, frames[0]), frames[1..]);
    }
  }

  lemma {:induction false} DataLoopHolds(c: Conn, i: nat)
    requires i < |c.streams|
    ensures DataLoop(c, i).hb == c.hb && DataLoop(c, i).error == c.error
    decreases LeftCount(c.streams[i].out)
  {
    var s := c.streams[i];
    if Placed(s.out.res, s.out.at) {
      NextDataAdvances(s.out.res, s.out.at, Room(c, s));
      var n := NextData(s.out.res, s.out.at, Room(c, s));
      if n.Piece? && !n.eof {
        DataLoopHolds(SendData(c, i, n.at, n.payload, n.eof), i);
      }
    }
  }

  lemma {:induction false} PumpHolds(c: Conn, i: nat)
    requires i <= |c.streams|
    ensures PumpFrom(c, i).hb == c.hb && PumpFrom(c, i).error == c.error
    decreases |c.streams| - i
  {
    if i < |c.streams| {
      var s := c.streams[i];
      if Pumpable(s) {
        var plan := PlanFor(s.out.res, s.req.head);
        var o := s.out.(headersSent := true, at := s.out.at.(bodyOff := 0), ended := plan.last, ready := !plan.last);
        EmitHolds(Set(c, i, s.(out := o)), HeadFrames(s.id, plan.block, plan.last));
        var c1 := if s.out.headersSent then c else SendHead(c, i);
        DataLoopHolds(c1, i);
      }
      PumpHolds(PumpOne(c, i), i + 1);
    }
  }
}
