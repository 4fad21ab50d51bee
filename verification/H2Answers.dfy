/** Every client gets the reply its request calls for. */
module H2Answers {
  // The plan of every response is the reply that the request it sent calls for, and
  // the handler ran exactly when that reply is its.

  import opened Bytes
  import opened H2Frames
  import opened H2Log
  import opened H2Conn
  import opened H2Safety
  import opened H2Receive
  import opened H2Delivery
  import opened H2Moves

  /** The handler is asked about a request body of `body` octets on the wire, declared
      to be `declared` long (negative when nothing was declared). */
  predicate Calls(env: Env, id: nat, body: Text, declared: int) {
    |body| <= env.maxBody && declared <= env.maxBody && env.inflate(id, body).Inflated?
  }

  /** The reply such a request calls for. */
  function Reply(env: Env, id: nat, body: Text, declared: int): Response {
    if Calls(env, id, body, declared) then env.handler(id, env.inflate(id, body).body)
    else if |body| <= env.maxBody && declared <= env.maxBody && env.inflate(id, body).Corrupt? then env.badRequest
    else env.tooLarge
  }

  /** The header block that opened a stream was the last of these. */
  predicate HasOpener(link: Link, id: nat) {
    id in link.trace.opener && link.trace.opener[id] <= |link.blocks|
  }

  function Opening(env: Env, link: Link, id: nat): Built
    requires HasOpener(link, id)
  {
    env.build(link.blocks[..link.trace.opener[id]])
  }

  /** The stream as the client saw it when the server turned to its request. */
  function Asked(c: Conn, id: nat): Track
    requires id in c.link.trace.answered && c.link.trace.answered[id] <= |c.log|
  {
    Follow(c.log[..c.link.trace.answered[id]], id)
  }

  ghost predicate Explained(env: Env, c: Conn, id: nat) {
    && id in c.served && HasOpener(c.link, id)
    && id in c.link.trace.answered && c.link.trace.answered[id] <= |c.log|
    && var b := Opening(env, c.link, id); var t := Asked(c, id);
       && b.Request? && t.ended && !t.handled
       && c.served[id] == PlanFor(Reply(env, id, t.received, b.contentLength), b.head)
       && (Follow(c.log, id).handled <==> Calls(env, id, t.received, b.contentLength))
  }

  /** An open entry's request head is what its block was turned into. */
  ghost predicate Traceable(env: Env, link: Link, s: Stream) {
    HasOpener(link, s.id) && Opening(env, link, s.id) == Request(s.req.contentLength, s.req.head)
  }

  ghost predicate Traced(env: Env, c: Conn) {
    forall i :: 0 <= i < |c.streams| ==> Traceable(env, c.link, c.streams[i])
  }

  ghost predicate AllExplained(env: Env, c: Conn) {
    forall id: nat :: id in c.served ==> Explained(env, c, id)
  }

  // ---------------------------------------------------------------------
  // Explanations stay
  // ---------------------------------------------------------------------

  /** The history of one stream as before, in a state that has moved on. */
  ghost predicate SameHistory(c: Conn, r: Conn, id: nat) {
    && id in c.served && id in r.served && r.served[id] == c.served[id]
    && HasOpener(c.link, id) && HasOpener(r.link, id) && r.link.trace.opener[id] == c.link.trace.opener[id]
    && id in c.link.trace.answered && id in r.link.trace.answered
    && r.link.trace.answered[id] == c.link.trace.answered[id]
  }

  lemma {:induction false} ExplainedStays(env: Env, c: Conn, r: Conn, id: nat)
    requires Explained(env, c, id) && SameHistory(c, r, id)
    requires c.link.blocks <= r.link.blocks && c.log <= r.log
    requires Follow(r.log, id).handled == Follow(c.log, id).handled
    ensures Explained(env, r, id)
  {
    var n, at := c.link.trace.opener[id], c.link.trace.answered[id];
    assert r.link.blocks[..n] == c.link.blocks[..n];
    assert r.log[..at] == c.log[..at];
  }

  lemma {:induction false} TraceableStays(env: Env, l: Link, l': Link, s: Stream, s': Stream)
    requires Traceable(env, l, s) && l.blocks <= l'.blocks && s'.id == s.id
    requires s'.req.contentLength == s.req.contentLength && s'.req.head == s.req.head
    requires s.id in l'.trace.opener && l'.trace.opener[s.id] == l.trace.opener[s.id]
    ensures Traceable(env, l', s')
  {
    var n := l.trace.opener[s.id];
    assert l'.blocks[..n] == l.blocks[..n];
  }

  /** Nothing was served, and no handler ran. */
  lemma {:induction false} ExplanationsStay(env: Env, c: Conn, r: Conn)
    requires AllExplained(env, c) && r.served == c.served && c.link.blocks <= r.link.blocks && c.log <= r.log
    requires r.link.trace.answered == c.link.trace.answered
    requires forall id: nat :: Follow(r.log, id).handled == Follow(c.log, id).handled
    requires forall id: nat :: id in c.served ==>
               id in r.link.trace.opener && id in c.link.trace.opener
               && r.link.trace.opener[id] == c.link.trace.opener[id]
    ensures AllExplained(env, r)
  {
    forall id: nat | id in r.served
      ensures Explained(env, r, id)
    {
      ExplainedStays(env, c, r, id);
    }
  }

  // ---------------------------------------------------------------------
  // Receiving
  // ---------------------------------------------------------------------

  lemma {:induction false} ProcessExplains(env: Env, c: Conn, f: Frame)
    requires Live(env, c) && AllExplained(env, c)
    ensures AllExplained(env, Process(env, c, f))
  {
    ProcessMoves(env, c, f);
    ProcessLog(env, c, f);
    HandleAccounted(env, c, f);
    ExplanationsStay(env, c, Process(env, c, f));
  }

  lemma {:induction false} ProcessTraced(env: Env, c: Conn, f: Frame)
    requires Live(env, c) && Traced(env, c)
    ensures Traced(env, Process(env, c, f))
  {
    ProcessMoves(env, c, f);
    var r := Process(env, c, f);
    forall i | 0 <= i < |r.streams|
      ensures Traceable(env, r.link, r.streams[i])
    {
      if i < |c.streams| {
        TraceableStays(env, c.link, r.link, c.streams[i], r.streams[i]);
      } else {
        assert r.link.blocks[..|r.link.blocks|] == r.link.blocks;
      }
    }
  }

  // ---------------------------------------------------------------------
  // Dispatching
  // ---------------------------------------------------------------------

  /** Which reply the dispatcher picks. */
  function Picked(env: Env, s: Stream): Response {
    if TooLarge(env, s.req) then env.tooLarge
    else
      match env.inflate(s.id, s.req.body)
      case Corrupt => env.badRequest
      case Swollen => env.tooLarge
      case Inflated(body) => env.handler(s.id, body)
  }

  predicate Asks(env: Env, s: Stream) {
    !TooLarge(env, s.req) && env.inflate(s.id, s.req.body).Inflated?
  }

  lemma {:induction false} DispatchedAs(env: Env, c: Conn, i: nat)
    requires i < |c.streams| && Dispatchable(c.streams[i])
    ensures var s := c.streams[i];
            DispatchOne(env, c, i)
            == Answer(if Asks(env, s) then c.(log := c.log + [Handled(s.id, s.req.body)]) else c, i, Picked(env, s), |c.log|)
  {
  }

  /** The dispatcher sees the request the client sent. */
  lemma {:induction false} PicksTheReply(env: Env, c: Conn, i: nat)
    requires Good(env, c) && i < |c.streams| && Dispatchable(c.streams[i])
    ensures var s := c.streams[i]; var t := Follow(c.log, s.id);
            && s.id !in c.served && t.ended && !t.handled
            && Picked(env, s) == Reply(env, s.id, t.received, s.req.contentLength)
            && (Asks(env, s) <==> Calls(env, s.id, t.received, s.req.contentLength))
  {
    var s := c.streams[i];
    assert EntryOk(env.maxBody, Books(c.log), Follow(c.log, s.id), c.served, s);
    assert IdOk(c.served, s.id, Follow(c.log, s.id));
  }

  lemma {:induction false} AnswerExplains(env: Env, c: Conn, i: nat)
    requires Good(env, c) && AllExplained(env, c) && Traced(env, c) && i < |c.streams| && Dispatchable(c.streams[i])
    ensures Explained(env, DispatchOne(env, c, i), c.streams[i].id)
  {
    var s := c.streams[i];
    var r := DispatchOne(env, c, i);
    PicksTheReply(env, c, i);
    DispatchedAs(env, c, i);
    Append(env.maxBody, c.log, Handled(s.id, s.req.body));
    assert Traceable(env, c.link, s);
    assert r.log[..|c.log|] == c.log;
  }

  lemma {:induction false} DispatchOneExplains(env: Env, c: Conn, i: nat)
    requires Good(env, c) && AllExplained(env, c) && Traced(env, c) && i < |c.streams| && Dispatchable(c.streams[i])
    ensures AllExplained(env, DispatchOne(env, c, i))
  {
    var s := c.streams[i];
    var r := DispatchOne(env, c, i);
    AnswerExplains(env, c, i);
    PicksTheReply(env, c, i);
    DispatchedAs(env, c, i);
    Append(env.maxBody, c.log, Handled(s.id, s.req.body));
    forall id: nat | id in r.served
      ensures Explained(env, r, id)
    {
      if id != s.id {
        ExplainedStays(env, c, r, id);
      }
    }
  }

  lemma {:induction false} DispatchOneTraced(env: Env, c: Conn, i: nat)
    requires Traced(env, c) && i < |c.streams|
    ensures Traced(env, DispatchOne(env, c, i))
  {
    var r := DispatchOne(env, c, i);
    DispatchOneMoves(env, c, i);
    forall j | 0 <= j < |r.streams|
      ensures Traceable(env, r.link, r.streams[j])
    {
      TraceableStays(env, c.link, r.link, c.streams[j], r.streams[j]);
    }
  }

  /** The invariants of this module, between any two frames. */
  ghost predicate Told(env: Env, c: Conn) {
    Good(env, c) && AllExplained(env, c) && Traced(env, c)
  }

  lemma {:induction false} DispatchTurn(env: Env, c: Conn, i: nat) returns (d: Conn)
    requires GoodEnv(env) && Told(env, c) && i < |c.streams|
    ensures Told(env, d) && |d.streams| == |c.streams|
    ensures DispatchFrom(env, c, i) == DispatchFrom(env, d, i + 1)
  {
    d := DispatchOne(env, c, i);
    if Dispatchable(c.streams[i]) {
      DispatchOneExplains(env, c, i);
      DispatchOneTraced(env, c, i);
      DispatchOneKeeps(env, c, i);
    }
  }

  lemma {:induction false} DispatchExplains(env: Env, c: Conn, i: nat)
    requires GoodEnv(env) && Told(env, c) && i <= |c.streams|
    ensures Told(env, DispatchFrom(env, c, i))
    decreases |c.streams| - i
  {
    if i < |c.streams| {
      var d := DispatchTurn(env, c, i);
      DispatchExplains(env, d, i + 1);
    }
  }

  // ---------------------------------------------------------------------
  // Pumping and sweeping
  // ---------------------------------------------------------------------

  lemma {:induction false} ResponsesHandleNothing(log: seq<Event>, log': seq<Event>)
    requires ResponsesAfter(log, log')
    ensures forall id: nat :: Follow(log', id).handled == Follow(log, id).handled
    decreases |log'|
  {
    if |log'| == |log| {
      assert log' == log;
    } else {
      ResponsesHandleNothing(log, log'[..|log'| - 1]);
    }
  }

  lemma {:induction false} PumpExplains(env: Env, c: Conn)
    requires AllExplained(env, c) && Traced(env, c)
    ensures var r := PumpFrom(c, 0); AllExplained(env, r) && Traced(env, r)
  {
    var r := PumpFrom(c, 0);
    PumpMoves(c, 0);
    ResponsesHandleNothing(c.log, r.log);
    ExplanationsStay(env, c, r);
    forall j | 0 <= j < |r.streams|
      ensures Traceable(env, r.link, r.streams[j])
    {
      TraceableStays(env, c.link, r.link, c.streams[j], r.streams[j]);
    }
  }

  lemma {:induction false} SweepExplains(env: Env, c: Conn)
    requires AllExplained(env, c) && Traced(env, c) && Distinct(c.streams)
    ensures AllExplained(env, Sweep(c)) && Traced(env, Sweep(c))
  {
    var r := Sweep(c);
    ExplanationsStay(env, c, r);
    forall j | 0 <= j < |r.streams|
      ensures Traceable(env, r.link, r.streams[j])
    {
      SweptEntry(c, r.streams[j]);
      var k :| 0 <= k < |c.streams| && c.streams[k] == r.streams[j];
      assert Traceable(env, c.link, c.streams[k]);
    }
  }

  // ---------------------------------------------------------------------
  // Runs
  // ---------------------------------------------------------------------

  lemma {:induction false} SettleExplains(env: Env, c: Conn)
    requires GoodEnv(env) && Told(env, c)
    ensures var r := Sweep(Pump(Dispatch(env, c))); AllExplained(env, r) && Traced(env, r)
  {
    DispatchExplains(env, c, 0);
    var d := Dispatch(env, c);
    PumpExplains(env, d);
    PumpKeeps(env, d, 0);
    SweepExplains(env, Pump(d));
  }

  lemma {:induction false} EveryRunExplained(env: Env, frames: seq<Frame>)
    requires GoodEnv(env)
    ensures var r := Run(env, frames);
            AllExplained(env, r) && (r.error == NO_ERROR ==> Traced(env, r))
    decreases |frames|
  {
    if frames != [] {
      var front, f := frames[..|frames| - 1], frames[|frames| - 1];
      var c := Run(env, front);
      EveryRunExplained(env, front);
      EveryRun(env, front);
      if c.error == NO_ERROR {
        var c1 := Process(env, c, f);
        ProcessExplains(env, c, f);
        if c1.error == NO_ERROR {
          ProcessTraced(env, c, f);
          ProcessSafe(env, c, f);
          ProcessLive(env, c, f);
          SettleExplains(env, c1);
        }
      }
    }
  }

  /** On every run: the frames of a response are the head and a prefix of the body of
      the reply that the client's own request calls for, all of it once END_STREAM has
      been sent; the request is what the client had sent of the stream, and ended, when
      the server turned to it, and the head of the request is what its header block was
      turned into. The handler ran exactly if the reply is the handler's. */
  lemma {:induction false} ResponseDelivered(env: Env, frames: seq<Frame>, id: nat)
    requires GoodEnv(env)
    ensures var r := Run(env, frames); var t := Follow(r.log, id);
            if id in r.served then
              && Explained(env, r, id)
              && var asked := Asked(r, id); var b := Opening(env, r.link, id);
                 && asked.ended
                 && Delivery(id, PlanFor(Reply(env, id, asked.received, b.contentLength), b.head), t)
                 && (t.handled <==> Calls(env, id, asked.received, b.contentLength))
            else t.head == [] && t.data == [] && !t.handled
  {
    EveryRun(env, frames);
    EveryRunExplained(env, frames);
    assert IdOk(Run(env, frames).served, id, Follow(Run(env, frames).log, id));
  }

  /** A response whose body comes from a callback that always gives what it is asked for. */
  function Late(block: Text, content: Text): Response {
    Response(block, false, [], [], Some(Producer(content, (off, cap) => cap)))
  }

  lemma {:induction false} LateByte(block: Text, content: Text)
    requires 1 <= |content| <= MAX_FRAME
    ensures var res := Late(block, content); var n := NextData(res, Start, |content|);
            && WholeBody(res) == content
            && n == Piece(Start.(fnOff := |content|), content, false) && Held(res, n.at)
  {
    assert Flatten(Late(block, content).chunks) == [] && content[0..|content|] == content;
    assert [] + content == content;
  }

  /** Its content ends as the window closes: the sending loop stops short of asking again. */
  lemma {:induction false} LoopStopsShort(c: Conn, i: nat, block: Text, content: Text)
    requires i < |c.streams| && 1 <= |content| <= MAX_FRAME
    requires var s := c.streams[i];
             s.out.res == Late(block, content) && s.out.at == Start && Room(c, s) == |content|
    ensures DataLoop(c, i) == SendData(c, i, Start.(fnOff := |content|), content, false)
  {
    LateByte(block, content);
    var c1 := SendData(c, i, Start.(fnOff := |content|), content, false);
    HeldStays(Late(block, content), Start.(fnOff := |content|), Room(c1, c1.streams[i]));
    assert DataLoop(c1, i) == Set(c1, i, c1.streams[i]);
    assert c1.streams[i := c1.streams[i]] == c1.streams;
  }

  /** The client's whole initial window is `n` octets. */
  function Window(n: nat): Frame {
    Frame(SETTINGS, 0, 0, [0, 4] + Be32(n))
  }

  lemma {:induction false} AppliesWindow(c: Conn, n: nat)
    requires c.error == NO_ERROR && c.streams == [] && n <= MAX_FRAME
    ensures ApplyFrom(c, Window(n).payload) == c.(initWindow := n)
  {
    var payload := Window(n).payload;
    assert payload[0] as nat * 256 + payload[1] == 4;
    assert payload[2..6] == Be32(n) && payload[6..] == [];
    Be32Inverse(n);
    assert ApplyOne(c, 4, n) == c.(initWindow := n);
  }

  lemma {:induction false} GreetedWith(env: Env, n: nat)
    requires n <= MAX_FRAME
    ensures var r := Run(env, [Window(n)]);
            && r.error == NO_ERROR && r.streams == [] && r.hb == NoBlock && r.lastId == 0
            && r.initWindow == n && r.sendWindow == INITIAL_WINDOW
            && r.link == Link(true, false, 0, INITIAL_WINDOW, [], Trace(map[], map[]))
  {
    assert [] + [Window(n)] == [Window(n)];
    var c := Init().(log := Init().log + [Recv(Window(n))]);
    AppliesWindow(c.(link := c.link.(gotSettings := true)), n);
    OneFrame(env, [], Window(n));
  }

  lemma {:induction false} AskedAlone(env: Env, c: Conn, block: Text)
    requires c.error == NO_ERROR && c.streams == [] && c.hb == NoBlock && c.lastId == 0
    requires c.link == Link(true, false, 0, INITIAL_WINDOW, [], Trace(map[], map[]))
    requires |block| <= MAX_FRAME && env.build([block]).Request?
    ensures var r := Process(env, c, FullRequest(1, block));
            r.error == NO_ERROR && r.streams == [NewStream(c.initWindow, 1, true, env.build([block]))]
            && r.sendWindow == c.sendWindow
  {
    FullRequestFed(1, block);
    assert [] + [block] == [block];
  }

  /** The handler's reply to a request of one frame is what the pump is given. */
  lemma {:induction false} AnsweredAlone(env: Env, c: Conn, content: Text, block: Text, cl: int)
    requires GoodEnv(env) && c.error == NO_ERROR && 1 <= |content| <= MAX_FRAME && cl <= env.maxBody
    requires c.streams == [NewStream(|content|, 1, true, Request(cl, false))] && c.sendWindow == INITIAL_WINDOW
    requires env.inflate(1, []) == Inflated([]) && env.handler(1, []) == Late(block, content)
    ensures var r := Sweep(Pump(Dispatch(env, c)));
            && r.error == NO_ERROR && |r.streams| == 1 && r.streams[0].id == 1
            && !r.streams[0].req.head && Room(r, r.streams[0]) == 0
            && var o := r.streams[0].out;
               o.dispatched && !o.ended && o.res == Late(block, content) && o.sent == |content|
  {
    var d := Dispatch(env, c);
    assert DispatchFrom(env, DispatchOne(env, c, 0), 1) == DispatchOne(env, c, 0);
    assert d == DispatchOne(env, c, 0);
    LateByte(block, content);
    var s := d.streams[0];
    var h := SendHead(d, 0);
    var o := s.out.(headersSent := true, at := Start, ended := false, ready := true);
    EmitHolds(Set(d, 0, s.(out := o)), HeadFrames(1, block, false));
    assert h.streams[0] == s.(out := o);
    LoopStopsShort(h, 0, block, content);
    var p := DataLoop(h, 0);
    assert PumpOne(d, 0) == p;
    assert PumpFrom(p, 1) == p;
    SweepIdle(p.streams, 1);
  }

  /** Between frames, a response whose body is all out has been ended too, except exactly
      when its body comes from a producer that has not been asked once more; then a
      window is shut. */
  lemma {:induction false} EndedWhenWhole(env: Env, frames: seq<Frame>, i: nat)
    requires GoodEnv(env) && Run(env, frames).error == NO_ERROR && i < |Run(env, frames).streams|
    requires var r := Run(env, frames); var s := r.streams[i];
             && s.id in r.served && !r.served[s.id].last
             && Payloads(Follow(r.log, s.id).data) == r.served[s.id].body
    ensures var r := Run(env, frames); var s := r.streams[i]; var t := Follow(r.log, s.id);
            && (s.out.ended <==> Closed(t))
            && (!s.out.ended <==> s.out.res.producer.Some? && !s.out.at.fnEof)
            && (!s.out.ended ==> Room(r, s) <= 0)
  {
    EveryRun(env, frames);
    var r := Run(env, frames);
    var s := r.streams[i];
    var t := Follow(r.log, s.id);
    assert EntryOk(env.maxBody, Books(r.log), t, r.served, s);
    assert IdOk(r.served, s.id, t);
    if !s.out.ended {
      UnderwayOpen(env, r, i);
      assert |Left(s.out.res, s.out.at)| == 0;
      HeldAtTheEnd(s.out.res, s.out.at);
    }
  }

  /** A run that ends like that: the client's window is the size of the body, the whole
      body goes out, and END_STREAM waits for a window its empty frame would not need. */
  lemma {:induction false} ShutOnTheLastOctet(env: Env, request: Text, cl: int, block: Text, content: Text)
    requires GoodEnv(env) && |request| <= MAX_FRAME && 1 <= |content| <= MAX_FRAME && cl <= env.maxBody
    requires env.build([request]) == Request(cl, false)
    requires env.inflate(1, []) == Inflated([]) && env.handler(1, []) == Late(block, content)
    ensures var r := Run(env, [Window(|content|), FullRequest(1, request)]); var t := Follow(r.log, 1);
            && r.error == NO_ERROR && |r.streams| == 1 && r.streams[0].id == 1 && 1 in r.served
            && Payloads(t.data) == r.served[1].body == content && !Closed(t)
            && Room(r, r.streams[0]) == 0
  {
    var frames := [Window(|content|), FullRequest(1, request)];
    assert [Window(|content|)] + [FullRequest(1, request)] == frames;
    GreetedWith(env, |content|);
    RunNext(env, [Window(|content|)], FullRequest(1, request));
    var c := Run(env, [Window(|content|)]);
    AskedAlone(env, c, request);
    AnsweredAlone(env, Process(env, c, FullRequest(1, request)), content, block, cl);
    var r := Run(env, frames);
    EveryRun(env, frames);
    LateByte(block, content);
    WholeButOpen(env, frames, block, content);
  }

  lemma {:induction false} WholeButOpen(env: Env, frames: seq<Frame>, block: Text, content: Text)
    requires GoodEnv(env) && 1 <= |content| <= MAX_FRAME && Run(env, frames).error == NO_ERROR
    requires var r := Run(env, frames);
             && |r.streams| == 1 && r.streams[0].id == 1 && !r.streams[0].req.head
             && var o := r.streams[0].out;
                o.dispatched && !o.ended && o.res == Late(block, content) && o.sent == |content|
    ensures var r := Run(env, frames); var t := Follow(r.log, 1);
            && 1 in r.served && Payloads(t.data) == r.served[1].body == content && !Closed(t)
  {
    var r := Run(env, frames);
    EveryRun(env, frames);
    LateByte(block, content);
    assert EntryOk(env.maxBody, Books(r.log), Follow(r.log, 1), r.served, r.streams[0]);
    assert IdOk(r.served, 1, Follow(r.log, 1));
    EndedWhenWhole(env, frames, 0);
  }
}
