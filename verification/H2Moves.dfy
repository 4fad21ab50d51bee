/** What each phase of the serving loop can change: receiving a frame leaves every
    response alone and adds at most one stream, dispatching leaves the requests, and the
    pump only sends. An idle connection stays as it is until something arrives. */
module H2Moves {
  import opened Bytes
  import opened H2Frames
  import opened H2Log
  import opened H2Conn
  import opened H2Safety
  import opened H2Receive

  // ---------------------------------------------------------------------
  // Receiving
  // ---------------------------------------------------------------------

  /** An entry after a frame: the same stream, request head and response. */
  ghost predicate Kept(s: Stream, s': Stream) {
    && s'.id == s.id && s'.out == s.out
    && s'.req.contentLength == s.req.contentLength && s'.req.head == s.req.head
    && (s.reset ==> s'.reset)
  }

  /** Every entry is kept, and, where `whole` is set, its request is too. */
  ghost predicate AllKept(ss: seq<Stream>, ss': seq<Stream>, whole: bool) {
    && |ss'| == |ss|
    && forall j :: 0 <= j < |ss| ==> Kept(ss[j], ss'[j]) && (whole ==> ss'[j].req == ss[j].req)
  }

  lemma {:induction false} AllKeptTwice(a: seq<Stream>, b: seq<Stream>, c: seq<Stream>)
    requires AllKept(a, b, true) && AllKept(b, c, true)
    ensures AllKept(a, c, true)
  {
  }

  /** The table holds the same entries, and nothing was opened or served. */
  ghost predicate SameEntries(c: Conn, r: Conn, whole: bool) {
    && AllKept(c.streams, r.streams, whole) && r.lastId >= c.lastId
    && c.link.blocks <= r.link.blocks && r.link.trace == c.link.trace && r.served == c.served
  }

  /** One entry more, for a stream the last header block opened. */
  ghost predicate OneMore(env: Env, c: Conn, r: Conn, id: nat, end: bool) {
    var b := env.build(r.link.blocks);
    && b.Request? && r.streams == c.streams + [NewStream(c.initWindow, id, end, b)]
    && r.lastId == id > c.lastId && id % 2 == 1
    && c.link.blocks <= r.link.blocks && r.served == c.served
    && r.link.trace == Trace(c.link.trace.opener[id := |r.link.blocks|], c.link.trace.answered)
  }

  lemma {:induction false} ShiftKeeps(ss: seq<Stream>, i: nat, delta: int)
    requires i <= |ss|
    ensures AllKept(ss, Shift(ss, i, delta).streams, true)
    decreases |ss| - i
  {
    if i < |ss| {
      var next := ss[i := Widen(ss[i], delta)];
      ShiftKeeps(next, i + 1, delta);
      AllKeptTwice(ss, next, Shift(next, i + 1, delta).streams);
    }
  }

  lemma {:induction false} ApplyKeepsEntries(c: Conn, payload: Text)
    ensures var r := ApplyFrom(c, payload);
            AllKept(c.streams, r.streams, true) && r.lastId == c.lastId && r.link == c.link && r.served == c.served
    decreases |payload|
  {
    if |payload| >= 6 && c.error == NO_ERROR {
      var id := payload[0] as nat * 256 + payload[1];
      var val := Rd32(payload[2..6]);
      if id == 4 && val <= MAX_WINDOW {
        ShiftKeeps(c.streams, 0, val - c.initWindow);
      }
      var c1 := ApplyOne(c, id, val);
      ApplyKeepsEntries(c1, payload[6..]);
      AllKeptTwice(c.streams, c1.streams, ApplyFrom(c, payload).streams);
    }
  }

  lemma {:induction false} SettingsKeeps(c: Conn, f: Frame)
    ensures SameEntries(c, OnSettings(c, f), true)
  {
    ApplyKeepsEntries(c.(link := c.link.(gotSettings := true)), f.payload);
  }

  lemma {:induction false} WindowKeeps(c: Conn, f: Frame)
    ensures SameEntries(c, OnWindow(c, f), true)
  {
  }

  lemma {:induction false} StreamDataKeeps(env: Env, c: Conn, i: nat, f: Frame)
    requires i < |c.streams|
    ensures SameEntries(c, StreamData(env, c, i, f), false)
  {
  }

  lemma {:induction false} DataKeeps(env: Env, c: Conn, f: Frame)
    ensures SameEntries(c, OnData(env, c, f), false)
  {
    var i := Find(c.streams, f.id);
    if i < |c.streams| {
      StreamDataKeeps(env, ChargeConn(c, |f.payload|), i, f);
    }
  }

  lemma {:induction false} OtherKeeps(c: Conn, f: Frame)
    ensures SameEntries(c, OnOther(c, f), true)
  {
  }

  lemma {:induction false} TakeBlockMoves(env: Env, c: Conn, id: nat, end: bool, block: Text)
    requires id > c.lastId && id % 2 == 1
    ensures var r := TakeBlock(env, c, id, end, block);
            SameEntries(c, r, true) || OneMore(env, c, r, id, end)
  {
  }

  lemma {:induction false} FinishBlockMoves(env: Env, c: Conn, id: nat, end: bool, block: Text)
    ensures var r := FinishBlock(env, c, id, end, block);
            SameEntries(c, r, true) || OneMore(env, c, r, id, end)
  {
    if id > c.lastId && id % 2 == 1 {
      TakeBlockMoves(env, c, id, end, block);
    }
  }

  lemma {:induction false} HeadersMove(env: Env, c: Conn, f: Frame)
    requires f.typ == HEADERS || f.typ == CONT
    ensures var r := OnHeaders(env, c, f);
            SameEntries(c, r, true) || (Feed(c.hb, f).Finished? && OneMore(env, c, r, f.id, Feed(c.hb, f).end))
  {
    FeedKeepsEnd(c.hb, f);
    match Feed(c.hb, f)
    case Finished(id, end, block) => FinishBlockMoves(env, c.(hb := NoBlock), id, end, block);
    case _ =>
  }

  /** A frame leaves every entry its response, and adds at most its own stream. */
  lemma {:induction false} ProcessMoves(env: Env, c: Conn, f: Frame)
    ensures var r := Process(env, c, f);
            SameEntries(c, r, f.typ != DATA)
            || ((f.typ == HEADERS || f.typ == CONT) && Feed(c.hb, f).Finished?
                && OneMore(env, c, r, f.id, Feed(c.hb, f).end))
  {
    var c1 := c.(log := c.log + [Recv(f)]);
    if f.typ == DATA {
      DataKeeps(env, c1, f);
    } else if f.typ == HEADERS || f.typ == CONT {
      HeadersMove(env, c1, f);
    } else if f.typ == SETTINGS {
      SettingsKeeps(c1, f);
    } else if f.typ == WINDOW {
      WindowKeeps(c1, f);
    } else {
      OtherKeeps(c1, f);
    }
  }

  /** What it adds to the log is itself and control frames. */
  lemma {:induction false} ProcessLog(env: Env, c: Conn, f: Frame)
    ensures ControlsAfter(c.log + [Recv(f)], Process(env, c, f).log)
  {
    HandleQuiet(env, c.(log := c.log + [Recv(f)]), f);
  }

  // ---------------------------------------------------------------------
  // Dispatching
  // ---------------------------------------------------------------------

  /** Dispatching touches the response half of entries and the history only. */
  ghost predicate SameAsked(c: Conn, r: Conn) {
    && |r.streams| == |c.streams|
    && (forall j :: 0 <= j < |c.streams| ==>
          && r.streams[j] == c.streams[j].(out := r.streams[j].out)
          && r.streams[j].out.ended == c.streams[j].out.ended)
    && r == c.(streams := r.streams, served := r.served, log := r.log, link := c.link.(trace := r.link.trace))
    && r.link.trace.opener == c.link.trace.opener
    && c.log <= r.log && forall k :: |c.log| <= k < |r.log| ==> r.log[k].Handled?
  }

  lemma {:induction false} SameAskedTwice(a: Conn, b: Conn, c: Conn)
    requires SameAsked(a, b) && SameAsked(b, c)
    ensures SameAsked(a, c)
  {
  }

  lemma {:induction false} DispatchOneMoves(env: Env, c: Conn, i: nat)
    requires i < |c.streams|
    ensures SameAsked(c, DispatchOne(env, c, i))
  {
  }

  lemma {:induction false} DispatchMoves(env: Env, c: Conn, i: nat)
    requires i <= |c.streams|
    ensures SameAsked(c, DispatchFrom(env, c, i))
    decreases |c.streams| - i
  {
    if i < |c.streams| {
      var d := DispatchOne(env, c, i);
      DispatchOneMoves(env, c, i);
      DispatchMoves(env, d, i + 1);
      SameAskedTwice(c, d, DispatchFrom(env, d, i + 1));
    }
  }

  // ---------------------------------------------------------------------
  // Pumping
  // ---------------------------------------------------------------------

  /** The log went on with response frames. */
  ghost predicate ResponsesAfter(log: seq<Event>, log': seq<Event>) {
    && log <= log'
    && forall k :: |log| <= k < |log'| ==> log'[k].Sent? && !Control(log'[k].f)
  }

  /** The pump sends response frames, and touches nothing but responses and windows. */
  ghost predicate OnlySends(c: Conn, r: Conn) {
    && |r.streams| == |c.streams|
    && (forall j :: 0 <= j < |c.streams| ==>
          r.streams[j] == c.streams[j].(out := r.streams[j].out, sendWindow := r.streams[j].sendWindow))
    && r == c.(streams := r.streams, sendWindow := r.sendWindow, log := r.log)
    && ResponsesAfter(c.log, r.log)
  }

  lemma {:induction false} OnlySendsTwice(a: Conn, b: Conn, c: Conn)
    requires OnlySends(a, b) && OnlySends(b, c)
    ensures OnlySends(a, c)
  {
  }

  ghost predicate ResponseFrames(frames: seq<Frame>) {
    forall k :: 0 <= k < |frames| ==> !Control(frames[k])
  }

  lemma {:induction false} EmitMoves(c: Conn, frames: seq<Frame>)
    requires ResponseFrames(frames)
    ensures OnlySends(c, EmitAll(c, frames))
    decreases |frames|
  {
    if frames != [] {
      EmitMoves(Emit(c, frames[0]), frames[1..]);
      OnlySendsTwice(c, Emit(c, frames[0]), EmitAll(c, frames));
    }
  }

  lemma {:induction false} FragmentsAreResponse(id: nat, block: Text, off: nat, end: bool)
    requires off <= |block|
    ensures ResponseFrames(Fragments(id, block, off, end))
    decreases |block| - off
  {
    if off < |block| {
      FragmentsAreResponse(id, block, off + |Fragments(id, block, off, end)[0].payload|, end);
    }
  }

  lemma {:induction false} SendHeadMoves(c: Conn, i: nat)
    requires i < |c.streams|
    ensures OnlySends(c, SendHead(c, i))
  {
    var s := c.streams[i];
    var plan := PlanFor(s.out.res, s.req.head);
    var o := s.out.(headersSent := true, at := s.out.at.(bodyOff := 0), ended := plan.last, ready := !plan.last);
    FragmentsAreResponse(s.id, plan.block, 0, plan.last);
    var c1 := Set(c, i, s.(out := o));
    EmitMoves(c1, HeadFrames(s.id, plan.block, plan.last));
    OnlySendsTwice(c, c1, SendHead(c, i));
  }

  /** One turn of the sending loop. */
  lemma {:induction false} DataTurnMoves(c: Conn, i: nat) returns (d: Conn, more: bool)
    requires i < |c.streams|
    ensures OnlySends(c, d) && |d.streams| == |c.streams|
    ensures DataLoop(c, i) == if more then DataLoop(d, i) else d
    ensures more ==> LeftCount(d.streams[i].out) < LeftCount(c.streams[i].out)
  {
    var s := c.streams[i];
    d, more := c, false;
    if Placed(s.out.res, s.out.at) {
      NextDataAdvances(s.out.res, s.out.at, Room(c, s));
      match NextData(s.out.res, s.out.at, Room(c, s))
      case Blocked(at) => d := Set(c, i, s.(out := s.out.(at := at)));
      case Piece(at, payload, eof) => d, more := SendData(c, i, at, payload, eof), !eof;
    }
  }

  lemma {:induction false} DataLoopMoves(c: Conn, i: nat)
    requires i < |c.streams|
    ensures OnlySends(c, DataLoop(c, i))
    decreases LeftCount(c.streams[i].out)
  {
    var d, more := DataTurnMoves(c, i);
    if more {
      DataLoopMoves(d, i);
      OnlySendsTwice(c, d, DataLoop(d, i));
    }
  }

  lemma {:induction false} PumpMoves(c: Conn, i: nat)
    requires i <= |c.streams|
    ensures OnlySends(c, PumpFrom(c, i))
    decreases |c.streams| - i
  {
    if i < |c.streams| {
      var c2 := PumpOne(c, i);
      PumpOneMoves(c, i);
      PumpMoves(c2, i + 1);
      OnlySendsTwice(c, c2, PumpFrom(c2, i + 1));
    }
  }

  lemma {:induction false} PumpOneMoves(c: Conn, i: nat)
    requires i < |c.streams|
    ensures OnlySends(c, PumpOne(c, i))
  {
    if Pumpable(c.streams[i]) {
      SendHeadMoves(c, i);
      var c1 := if c.streams[i].out.headersSent then c else SendHead(c, i);
      DataLoopMoves(c1, i);
      OnlySendsTwice(c, c1, DataLoop(c1, i));
    }
  }

  // ---------------------------------------------------------------------
  // Nothing to do
  // ---------------------------------------------------------------------

  lemma {:induction false} DispatchIdle(env: Env, c: Conn, i: nat)
    requires i <= |c.streams| && forall j :: 0 <= j < |c.streams| ==> !Dispatchable(c.streams[j])
    ensures DispatchFrom(env, c, i) == c
    decreases |c.streams| - i
  {
    if i < |c.streams| {
      DispatchIdle(env, c, i + 1);
    }
  }

  /** A stalled entry is passed over. */
  lemma {:induction false} PumpOneIdle(c: Conn, i: nat)
    requires i < |c.streams| && Stalled(c, c.streams[i])
    ensures PumpOne(c, i) == c
  {
    var s := c.streams[i];
    if Pumpable(s) {
      HeldStays(s.out.res, s.out.at, Room(c, s));
      assert c.streams[i := s] == c.streams;
    }
  }

  lemma {:induction false} PumpIdle(c: Conn, i: nat, n: nat)
    requires i <= n <= |c.streams| && forall j :: i <= j < n ==> Stalled(c, c.streams[j])
    ensures PumpFrom(c, i) == PumpFrom(c, n)
    decreases n - i
  {
    if i < n {
      PumpOneIdle(c, i);
      PumpIdle(c, i + 1, n);
    }
  }

  lemma {:induction false} SweepIdle(ss: seq<Stream>, i: nat)
    requires i <= |ss| && forall j :: 0 <= j < |ss| ==> !Over(ss[j])
    ensures SweepFrom(ss, i) == ss
  {
    if i > 0 {
      SweepIdle(ss, i - 1);
    }
  }

  /** An idle connection stays as it is until something arrives. */
  lemma {:induction false} SettleIdle(env: Env, c: Conn)
    requires Idle(c)
    ensures Sweep(Pump(Dispatch(env, c))) == c
  {
    DispatchIdle(env, c, 0);
    PumpIdle(c, 0, |c.streams|);
    SweepIdle(c.streams, |c.streams|);
  }

  // ---------------------------------------------------------------------
  // The start of a connection
  // ---------------------------------------------------------------------

  const HELLO: Frame := Frame(SETTINGS, 0, 0, [])

  /** A request head on stream 1 whose body is still to come. */
  function Opens(block: Text): Frame {
    Frame(HEADERS, 4, 1, block)
  }

  /** A whole request without a body, in one frame. */
  function FullRequest(id: nat, block: Text): Frame {
    Frame(HEADERS, 5, id, block)
  }

  lemma {:induction false} FullRequestFed(id: nat, block: Text)
    requires id > 0 && |block| <= MAX_FRAME
    ensures Feed(NoBlock, FullRequest(id, block)) == Finished(id, true, block)
  {
    assert block[..|block|] == block;
    assert HeadersFragment(FullRequest(id, block)) == Some(block);
  }

  lemma {:induction false} OneFrame(env: Env, frames: seq<Frame>, f: Frame)
    requires Run(env, frames).error == NO_ERROR
    requires var r := Process(env, Run(env, frames), f); r.error == NO_ERROR && Idle(r)
    ensures Run(env, frames + [f]) == Process(env, Run(env, frames), f)
  {
    assert (frames + [f])[..|frames|] == frames;
    SettleIdle(env, Process(env, Run(env, frames), f));
  }

  lemma {:induction false} HelloTaken(env: Env)
    ensures var r := Process(env, Init(), HELLO);
            && r.error == NO_ERROR && r.streams == [] && r.hb == NoBlock && r.lastId == 0
            && r.link == Link(true, false, 0, INITIAL_WINDOW, [], Trace(map[], map[]))
  {
  }

  lemma {:induction false} Greeted(env: Env)
    ensures var r := Run(env, [HELLO]);
            && r.error == NO_ERROR && r.streams == [] && r.hb == NoBlock && r.lastId == 0
            && r.link == Link(true, false, 0, INITIAL_WINDOW, [], Trace(map[], map[]))
  {
    HelloTaken(env);
    assert Run(env, []) == Init();
    OneFrame(env, [], HELLO);
    assert [] + [HELLO] == [HELLO];
  }

  /** The connection after one such request. */
  lemma {:induction false} OneOpenStream(env: Env, block: Text)
    requires |block| <= MAX_FRAME && env.build([block]).Request?
    ensures var r := Run(env, [HELLO, Opens(block)]);
            && r.error == NO_ERROR && r.hb == NoBlock && r.lastId == 1
            && r.streams == [NewStream(r.initWindow, 1, false, env.build([block]))]
            && r.link.gotSettings && !r.link.goaway && r.link.recvWindow == INITIAL_WINDOW
  {
    Greeted(env);
    var c := Run(env, [HELLO]);
    var f := Opens(block);
    assert [HELLO] + [f] == [HELLO, f];
    assert block[..|block|] == block;
    assert HeadersFragment(f) == Some(block);
    assert Feed(c.hb, f) == Finished(1, false, block);
    assert [] + [block] == [block];
    OneFrame(env, [HELLO], f);
  }
}
