/** Which open streams a client can still be answered on: between two header blocks, some
    continuation of the run brings response frames on such a stream if and only if it
    waits for a window, or for a request body that the windows still admit. */
module H2Later {
  import opened Bytes
  import opened H2Frames
  import opened H2Log
  import opened H2Conn
  import opened H2Safety
  import opened H2Receive
  import opened H2Delivery
  import opened H2Moves
  import opened H2Silence
  import opened H2Credit

  /** The request can still be ended as it was declared. */
  predicate Completable(c: Conn, q: Inbound) {
    !q.ended && (q.contentLength < 0 || q.bytes <= q.contentLength <= q.bytes + c.link.recvWindow)
  }

  predicate Hopeful(c: Conn, s: Stream) {
    !s.reset && !s.out.ended && (s.out.dispatched || Completable(c, s.req))
  }

  /** The stream has an entry that waits for a window or for the rest of its request. */
  predicate Answerable(c: Conn, id: nat) {
    var i := Find(c.streams, id);
    i < |c.streams| && Hopeful(c, c.streams[i])
  }

  // ---------------------------------------------------------------------
  // Streams without hope
  // ---------------------------------------------------------------------

  /** A request that cannot end as declared: too long already, or the rest would not
      pass the window. */
  predicate Stuck(c: Conn, s: Stream) {
    && !s.out.dispatched && !s.out.ready && !s.req.ended && s.req.contentLength >= 0
    && (s.req.bytes > s.req.contentLength || s.req.bytes + c.link.recvWindow < s.req.contentLength)
  }

  ghost predicate Hopeless(c: Conn, id: nat) {
    && (forall j :: 0 <= j < |c.streams| && c.streams[j].id == id ==> c.streams[j].reset || Stuck(c, c.streams[j]))
    && !Unused(c, id)
  }

  lemma {:induction false} HopelessMeans(env: Env, c: Conn, id: nat)
    requires Good(env, c) && Idle(c)
    ensures Hopeless(c, id) <==> !Answerable(c, id) && !Unused(c, id)
  {
    forall j | 0 <= j < |c.streams| && c.streams[j].id == id
      ensures Find(c.streams, id) == j && (Hopeful(c, c.streams[j]) <==> !c.streams[j].reset && !Stuck(c, c.streams[j]))
    {
      FindEntry(c.streams, j);
      assert EntryOk(env.maxBody, Books(c.log), Follow(c.log, id), c.served, c.streams[j]);
    }
  }

  lemma {:induction false} UnpaddedFits(f: Frame)
    ensures |Unpadded(f)| <= |f.payload|
  {
  }

  /** DATA does not help a request that is stuck. */
  lemma {:induction false} StreamDataStuck(env: Env, c: Conn, w: int, i: nat, f: Frame)
    requires i < |c.streams| && c.link.recvWindow >= 0 && w == c.link.recvWindow + |f.payload|
    requires c.streams[i].reset || Stuck(c.(link := c.link.(recvWindow := w)), c.streams[i])
    ensures var r := StreamData(env, c, i, f); r.streams[i].reset || Stuck(r, r.streams[i])
  {
    UnpaddedFits(f);
    StreamDataCases(env, c, i, f);
  }

  lemma {:induction false} DataHopeless(env: Env, c: Conn, f: Frame, id: nat)
    requires IdsOk(c.streams, c.lastId) && f.typ == DATA && Hopeless(c, id) && Process(env, c, f).error == NO_ERROR
    ensures Hopeless(Process(env, c, f), id)
  {
    var c1 := ChargeConn(c.(log := c.log + [Recv(f)]), |f.payload|);
    var r := Process(env, c, f);
    assert r == RouteData(env, c1, f);
    var i := Find(c.streams, f.id);
    if i < |c.streams| {
      StreamDataCounted(env, c1, i, f);
      if f.id == id {
        StreamDataStuck(env, c1, c.link.recvWindow, i, f);
      }
    }
  }

  lemma {:induction false} OtherHopeless(env: Env, c: Conn, f: Frame, id: nat)
    requires f.typ != DATA && Hopeless(c, id)
    ensures Hopeless(Process(env, c, f), id)
  {
    ProcessMoves(env, c, f);
    ProcessUncounted(env, c, f);
    var r := Process(env, c, f);
    forall j | 0 <= j < |r.streams| && r.streams[j].id == id
      ensures r.streams[j].reset || Stuck(r, r.streams[j])
    {
      if j < |c.streams| {
        assert Kept(c.streams[j], r.streams[j]);
      }
    }
  }

  /** Neither the dispatcher nor the pump has anything to do for the entry. */
  predicate Muted(s: Stream) {
    !Dispatchable(s) && !Pumpable(s)
  }

  ghost predicate AllMuted(c: Conn, id: nat) {
    forall j :: 0 <= j < |c.streams| && c.streams[j].id == id ==> Muted(c.streams[j])
  }

  /** The entries of the stream are as they were, and nothing was sent on it. */
  ghost predicate Passed(c: Conn, r: Conn, id: nat) {
    && |r.streams| == |c.streams|
    && (forall j :: 0 <= j < |c.streams| ==>
          r.streams[j].id == c.streams[j].id && (c.streams[j].id == id ==> r.streams[j] == c.streams[j]))
    && r.lastId == c.lastId && r.link.recvWindow == c.link.recvWindow && QuietAfter(c.log, r.log, id)
  }

  lemma {:induction false} PassedTwice(a: Conn, b: Conn, c: Conn, id: nat)
    requires Passed(a, b, id) && Passed(b, c, id)
    ensures Passed(a, c, id)
  {
  }

  lemma {:induction false} DispatchOnePasses(env: Env, c: Conn, i: nat, id: nat)
    requires i < |c.streams| && AllMuted(c, id)
    ensures Passed(c, DispatchOne(env, c, i), id)
  {
    DispatchOneMoves(env, c, i);
  }

  lemma {:induction false} DispatchPasses(env: Env, c: Conn, i: nat, id: nat)
    requires i <= |c.streams| && AllMuted(c, id)
    ensures Passed(c, DispatchFrom(env, c, i), id)
    decreases |c.streams| - i
  {
    if i < |c.streams| {
      var d := DispatchOne(env, c, i);
      DispatchOnePasses(env, c, i, id);
      DispatchPasses(env, d, i + 1, id);
      PassedTwice(c, d, DispatchFrom(env, d, i + 1), id);
    }
  }

  lemma {:induction false} PumpOnePasses(c: Conn, i: nat, id: nat)
    requires i < |c.streams| && AllMuted(c, id)
    ensures Passed(c, PumpOne(c, i), id)
  {
    if Pumpable(c.streams[i]) {
      PumpOneMoves(c, i);
      PumpOneElsewhere(c, i);
      SendHeadQuiet(c, i, id);
      SendHeadMoves(c, i);
      var c1 := if c.streams[i].out.headersSent then c else SendHead(c, i);
      DataLoopQuiet(c1, i, id);
    }
  }

  lemma {:induction false} PumpPasses(c: Conn, i: nat, id: nat)
    requires i <= |c.streams| && AllMuted(c, id)
    ensures Passed(c, PumpFrom(c, i), id)
    decreases |c.streams| - i
  {
    if i < |c.streams| {
      var d := PumpOne(c, i);
      PumpOnePasses(c, i, id);
      PumpPasses(d, i + 1, id);
      PassedTwice(c, d, PumpFrom(d, i + 1), id);
    }
  }

  lemma {:induction false} SettleHopeless(env: Env, c: Conn, id: nat)
    requires Distinct(c.streams) && Hopeless(c, id)
    ensures var r := Sweep(Pump(Dispatch(env, c))); Hopeless(r, id) && QuietAfter(c.log, r.log, id)
  {
    var d := Dispatch(env, c);
    DispatchPasses(env, c, 0, id);
    DispatchMoves(env, c, 0);
    var p := Pump(d);
    PumpPasses(d, 0, id);
    PassedTwice(c, d, p, id);
    var r := Sweep(p);
    forall j | 0 <= j < |r.streams| && r.streams[j].id == id
      ensures r.streams[j].reset || Stuck(r, r.streams[j])
    {
      SweptEntry(p, r.streams[j]);
    }
  }

  lemma {:induction false} StepHopeless(env: Env, c: Conn, f: Frame, id: nat)
    requires GoodEnv(env) && Good(env, c) && Hopeless(c, id)
    ensures var r := Step(env, c, f);
            QuietAfter(c.log, r.log, id) && (r.error == NO_ERROR ==> Hopeless(r, id))
  {
    ProcessLog(env, c, f);
    var c1 := Process(env, c, f);
    if c1.error == NO_ERROR {
      ProcessLive(env, c, f);
      if f.typ == DATA {
        DataHopeless(env, c, f, id);
      } else {
        OtherHopeless(env, c, f, id);
      }
      SettleHopeless(env, c1, id);
      QuietTwice(c.log, c1.log, Step(env, c, f).log, id);
    }
  }

  lemma {:induction false} NextHopeless(env: Env, log: seq<Event>, c: Conn, f: Frame, id: nat)
    requires GoodEnv(env) && QuietAfter(log, c.log, id)
    requires c.error == NO_ERROR ==> Good(env, c) && Hopeless(c, id)
    ensures var r := Step(env, c, f);
            QuietAfter(log, r.log, id) && (r.error == NO_ERROR ==> Hopeless(r, id))
  {
    if c.error == NO_ERROR {
      StepHopeless(env, c, f, id);
      QuietTwice(log, c.log, Step(env, c, f).log, id);
    }
  }

  lemma {:induction false} RunLast(env: Env, frames: seq<Frame>, more: seq<Frame>)
    requires more != []
    ensures Run(env, frames + more) == Step(env, Run(env, frames + more[..|more| - 1]), more[|more| - 1])
  {
    RunNext(env, frames + more[..|more| - 1], more[|more| - 1]);
    Associate(frames, more[..|more| - 1], [more[|more| - 1]]);
    FrontAndLast(more);
  }

  /** Whatever the client sends, a stream without hope is never answered. */
  lemma {:induction false} NeverAnswered(env: Env, frames: seq<Frame>, more: seq<Frame>, id: nat)
    requires GoodEnv(env) && Run(env, frames).error == NO_ERROR && Hopeless(Run(env, frames), id)
    ensures var r := Run(env, frames + more);
            QuietAfter(Run(env, frames).log, r.log, id) && (r.error == NO_ERROR ==> Hopeless(r, id))
    decreases |more|
  {
    if more == [] {
      assert frames + more == frames;
    } else {
      var front := more[..|more| - 1];
      NeverAnswered(env, frames, front, id);
      EveryRun(env, frames + front);
      NextHopeless(env, Run(env, frames).log, Run(env, frames + front), more[|more| - 1], id);
      RunLast(env, frames, more);
    }
  }

  // ---------------------------------------------------------------------
  // Streams with hope
  // ---------------------------------------------------------------------

  /** A connection between two frames, ready for anything: what `EveryRun` and
      `EveryRunCredited` say of it. */
  ghost predicate Steady(env: Env, c: Conn) {
    && GoodEnv(env) && Good(env, c) && Idle(c) && Credited(c) && c.hb.stream == 0 && c.link.gotSettings
  }

  /** `more` brings response frames on the stream. */
  ghost predicate Brings(env: Env, frames: seq<Frame>, more: seq<Frame>, id: nat) {
    && (forall f :: f in more ==> Sendable(f))
    && AnswersAfter(Run(env, frames).log, Run(env, frames + more).log, id)
  }

  lemma {:induction false} LogGrows(env: Env, frames: seq<Frame>, f: Frame)
    ensures Run(env, frames).log <= Run(env, frames + [f]).log
  {
    var c := Run(env, frames);
    RunNext(env, frames, f);
    if c.error == NO_ERROR {
      ProcessLog(env, c, f);
      SettleLog(env, Process(env, c, f));
    }
  }

  /** One frame more in front. */
  lemma {:induction false} BringsLater(env: Env, frames: seq<Frame>, f: Frame, more: seq<Frame>, id: nat)
    requires Sendable(f) && Brings(env, frames + [f], more, id)
    ensures Brings(env, frames, [f] + more, id)
  {
    LogGrows(env, frames, f);
    Associate(frames, [f], more);
    var log, mid, end := Run(env, frames).log, Run(env, frames + [f]).log, Run(env, frames + [f] + more).log;
    var k :| |mid| <= k < |end| && Answers(end[k], id);
    assert |log| <= k;
  }

  /** The frame itself brings them. */
  lemma {:induction false} BringsNow(env: Env, frames: seq<Frame>, f: Frame, id: nat)
    requires Sendable(f) && Run(env, frames).error == NO_ERROR
    requires var c1 := Process(env, Run(env, frames), f);
             c1.error == NO_ERROR && AnswersAfter(c1.log, Sweep(Pump(Dispatch(env, c1))).log, id)
    ensures Brings(env, frames, [f], id)
  {
    var c := Run(env, frames);
    RunNext(env, frames, f);
    ProcessLog(env, c, f);
    var mid, end := Process(env, c, f).log, Run(env, frames + [f]).log;
    var k :| |mid| <= k < |end| && Answers(end[k], id);
    assert |c.log| <= k;
  }

  // ---------------------------------------------------------------------
  // The rest of a request
  // ---------------------------------------------------------------------

  /** `k` octets of a request body. */
  function Chunk(id: nat, k: nat): Frame {
    Frame(DATA, 0, id, seq(k, _ => 0))
  }

  /** Only the request of entry i has moved on. */
  ghost predicate Uploaded(c: Conn, i: nat, k: nat, r: Conn) {
    && r.error == NO_ERROR && r.hb == c.hb && r.link.gotSettings && |r.streams| == |c.streams| && i < |c.streams|
    && r.link.recvWindow == c.link.recvWindow - k
    && r.sendWindow == c.sendWindow
    && (forall j :: 0 <= j < |c.streams| && j != i ==> r.streams[j] == c.streams[j])
    && var s := c.streams[i]; var s' := r.streams[i];
       && s' == s.(req := s'.req)
       && !s'.req.ended && s'.req.contentLength == s.req.contentLength && s'.req.bytes == s.req.bytes + k
  }

  lemma {:induction false} ChunkStored(env: Env, c: Conn, i: nat, k: nat)
    requires i < |c.streams| && !c.streams[i].reset && !c.streams[i].req.ended && k <= c.streams[i].req.recvWindow
    ensures var s := c.streams[i]; var f := Chunk(s.id, k);
            StreamData(env, c, i, f)
            == Set(Emit(c, Frame(WINDOW, 0, s.id, Be32(k))), i, s.(req := Grow(Charge(s, k).req, env.maxBody, f.payload)))
  {
  }

  lemma {:induction false} ChunkRouted(env: Env, c: Conn, i: nat, k: nat)
    requires Steady(env, c) && i < |c.streams| && k <= c.link.recvWindow
    ensures var f := Chunk(c.streams[i].id, k);
            Process(env, c, f) == StreamData(env, ChargeConn(c.(log := c.log + [Recv(f)]), k), i, f)
  {
    var f := Chunk(c.streams[i].id, k);
    FindEntry(c.streams, i);
    assert f.id != 0;
    assert Process(env, c, f) == RouteData(env, ChargeConn(c.(log := c.log + [Recv(f)]), k), f);
  }

  lemma {:induction false} ChunkTaken(env: Env, c: Conn, i: nat, k: nat)
    requires Steady(env, c) && i < |c.streams| && !c.streams[i].reset && !c.streams[i].req.ended
    requires k <= c.link.recvWindow
    ensures Uploaded(c, i, k, Process(env, c, Chunk(c.streams[i].id, k)))
  {
    var f := Chunk(c.streams[i].id, k);
    assert DataFor(c.log, f.id) <= DataIn(c.log);
    ChunkRouted(env, c, i, k);
    ChunkStored(env, ChargeConn(c.(log := c.log + [Recv(f)]), k), i, k);
  }

  lemma {:induction false} UploadedIdle(c: Conn, i: nat, k: nat, r: Conn)
    requires Idle(c) && Uploaded(c, i, k, r)
    ensures Idle(r)
  {
  }

  lemma {:induction false} RunSteady(env: Env, frames: seq<Frame>)
    requires GoodEnv(env)
    requires var c := Run(env, frames); c.error == NO_ERROR && c.hb.stream == 0 && c.link.gotSettings
    ensures Steady(env, Run(env, frames))
  {
    EveryRun(env, frames);
    EveryRunCredited(env, frames);
  }

  lemma {:induction false} ChunkRun(env: Env, frames: seq<Frame>, i: nat, k: nat)
    requires var c := Run(env, frames);
             Steady(env, c) && i < |c.streams| && !c.streams[i].reset && !c.streams[i].req.ended && k <= c.link.recvWindow
    ensures var c := Run(env, frames); var r := Run(env, frames + [Chunk(c.streams[i].id, k)]);
            Steady(env, r) && Uploaded(c, i, k, r)
  {
    var c := Run(env, frames);
    var f := Chunk(c.streams[i].id, k);
    ChunkTaken(env, c, i, k);
    UploadedIdle(c, i, k, Process(env, c, f));
    OneFrame(env, frames, f);
    RunSteady(env, frames + [f]);
  }

  /** A request that is all there is ended, and answered. */
  lemma {:induction false} FinishesNow(env: Env, frames: seq<Frame>, i: nat)
    requires var c := Run(env, frames);
             && Steady(env, c) && i < |c.streams| && !c.streams[i].reset && c.streams[i].id < U31
             && var q := c.streams[i].req; !q.ended && (q.contentLength < 0 || q.bytes == q.contentLength)
    ensures var id := Run(env, frames).streams[i].id; Brings(env, frames, [Frame(DATA, 1, id, [])], id)
  {
    var c := Run(env, frames);
    var id := c.streams[i].id;
    var f := Frame(DATA, 1, id, []);
    assert DataFor(c.log, id) <= DataIn(c.log);
    EmptyEnd(env, c, i);
    GoodAfter(env, c, f);
    SettleAnswers(env, Process(env, c, f), i);
    BringsNow(env, frames, f, id);
  }

  /** The rest of a request, a frame at a time. */
  lemma {:induction false} Finishes(env: Env, frames: seq<Frame>, i: nat) returns (more: seq<Frame>)
    requires var c := Run(env, frames);
             && Steady(env, c) && i < |c.streams| && !c.streams[i].reset && c.streams[i].id < U31
             && Completable(c, c.streams[i].req)
    ensures Brings(env, frames, more, Run(env, frames).streams[i].id)
    decreases var q := Run(env, frames).streams[i].req; if q.contentLength < 0 then 0 else q.contentLength - q.bytes
  {
    var c := Run(env, frames);
    var id, q := c.streams[i].id, c.streams[i].req;
    if q.contentLength < 0 || q.bytes == q.contentLength {
      FinishesNow(env, frames, i);
      more := [Frame(DATA, 1, id, [])];
    } else {
      var rest := q.contentLength - q.bytes;
      var k := if rest < MAX_FRAME then rest else MAX_FRAME;
      ChunkRun(env, frames, i, k);
      more := Finishes(env, frames + [Chunk(id, k)], i);
      BringsLater(env, frames, Chunk(id, k), more, id);
      more := [Chunk(id, k)] + more;
    }
  }

  // ---------------------------------------------------------------------
  // Windows
  // ---------------------------------------------------------------------

  /** With room in both windows a response under way sends. */
  lemma {:induction false} SendsNow(env: Env, c: Conn, i: nat)
    requires Good(env, c) && i < |c.streams| && Pumpable(c.streams[i]) && c.streams[i].out.headersSent
    requires Room(c, c.streams[i]) > 0
    ensures var r := PumpOne(c, i);
            |r.streams| == |c.streams| && AnswersAfter(c.log, r.log, c.streams[i].id)
  {
    UnderwayOpen(env, c, i);
    var s := c.streams[i];
    NextDataAdvances(s.out.res, s.out.at, Room(c, s));
    var n := NextData(s.out.res, s.out.at, Room(c, s));
    var c1 := SendData(c, i, n.at, n.payload, n.eof);
    assert c1.log == c.log + [Sent(PieceFrame(s, n))];
    if !n.eof {
      DataLoopMoves(c1, i);
    }
    assert Answers(PumpOne(c, i).log[|c.log|], s.id);
  }

  lemma {:induction false} SettleSends(env: Env, c: Conn, i: nat)
    requires Good(env, c) && i < |c.streams| && Pumpable(c.streams[i]) && c.streams[i].out.headersSent
    requires Room(c, c.streams[i]) > 0
    requires forall j :: 0 <= j < |c.streams| ==> !Dispatchable(c.streams[j]) && (j != i ==> Stalled(c, c.streams[j]))
    ensures AnswersAfter(c.log, Sweep(Pump(Dispatch(env, c))).log, c.streams[i].id)
  {
    var id := c.streams[i].id;
    DispatchIdle(env, c, 0);
    PumpIdle(c, 0, i);
    SendsNow(env, c, i);
    var p := PumpOne(c, i);
    PumpMoves(p, i + 1);
    var k :| |c.log| <= k < |p.log| && Answers(p.log[k], id);
    assert Pump(c) == PumpFrom(p, i + 1);
    assert Answers(Pump(c).log[k], id);
  }

  lemma {:induction false} SweepOne(ss: seq<Stream>, i: nat, j: nat)
    requires i <= |ss| && j < |ss| && Over(ss[j]) && forall k :: 0 <= k < |ss| && k != j ==> !Over(ss[k])
    ensures SweepFrom(ss, i) == if j < i then SwapRemove(ss, j) else ss
    decreases i
  {
    if i > 0 {
      if i - 1 == j {
        SweepIdle(SwapRemove(ss, j), j);
      } else {
        SweepOne(ss, i - 1, j);
      }
    }
  }

  /** The client gives up one stream. */
  function Cancels(id: nat): Frame {
    Frame(RST, 0, id, Be32(CANCEL))
  }

  lemma {:induction false} CancelsOne(env: Env, c: Conn, j: nat)
    requires Steady(env, c) && j < |c.streams|
    ensures var f := Cancels(c.streams[j].id);
            && Process(env, c, f) == c.(log := c.log + [Recv(f)], streams := c.streams[j := c.streams[j].(reset := true)])
            && Step(env, c, f) == c.(log := c.log + [Recv(f)], streams := SwapRemove(c.streams, j))
  {
    var f := Cancels(c.streams[j].id);
    FindEntry(c.streams, j);
    var c1 := c.(log := c.log + [Recv(f)]);
    var r := Process(env, c, f);
    assert r == OnOther(c1, f);
    assert r.streams == c.streams[j := c.streams[j].(reset := true)];
    CancelledSettles(env, c, j, r);
  }

  lemma {:induction false} CancelledSettles(env: Env, c: Conn, j: nat, r: Conn)
    requires Idle(c) && j < |c.streams|
    requires r == c.(log := r.log, streams := c.streams[j := c.streams[j].(reset := true)])
    ensures Sweep(Pump(Dispatch(env, r))) == r.(streams := SwapRemove(c.streams, j))
  {
    forall k | 0 <= k < |r.streams|
      ensures !Dispatchable(r.streams[k]) && Stalled(r, r.streams[k])
    {
      assert Stalled(c, c.streams[k]);
    }
    DispatchIdle(env, r, 0);
    PumpIdle(r, 0, |r.streams|);
    SweepOne(r.streams, |r.streams|, j);
    assert SwapRemove(r.streams, j) == SwapRemove(c.streams, j);
  }

  lemma {:induction false} CancelRun(env: Env, frames: seq<Frame>, j: nat, s: Stream)
    requires var c := Run(env, frames);
             Steady(env, c) && j < |c.streams| && s in c.streams && s.id != c.streams[j].id
    ensures var c := Run(env, frames); var r := Run(env, frames + [Cancels(c.streams[j].id)]);
            && Steady(env, r) && s in r.streams && |r.streams| == |c.streams| - 1
            && r.sendWindow == c.sendWindow && r.lastId == c.lastId
  {
    var c := Run(env, frames);
    var f := Cancels(c.streams[j].id);
    CancelsOne(env, c, j);
    RunNext(env, frames, f);
    RunSteady(env, frames + [f]);
    RemoveAtRemoves(c.streams, j);
  }

  /** One octet more of window for the connection, or for a stream. */
  function Widens(id: nat): Frame {
    Frame(WINDOW, 0, id, Be32(1))
  }

  lemma {:induction false} WidensConn(env: Env, c: Conn)
    requires Steady(env, c) && c.sendWindow <= 0
    ensures Process(env, c, Widens(0)) == c.(log := c.log + [Recv(Widens(0))], sendWindow := c.sendWindow + 1)
  {
    Be32Inverse(1);
    var c1 := c.(log := c.log + [Recv(Widens(0))]);
    assert OnWindow(c1, Widens(0)) == WidenConn(c1, 1);
  }

  lemma {:induction false} WidensStream(env: Env, c: Conn, i: nat)
    requires Steady(env, c) && i < |c.streams| && !c.streams[i].reset && c.streams[i].sendWindow <= 0
    ensures var s := c.streams[i];
            Process(env, c, Widens(s.id))
            == c.(log := c.log + [Recv(Widens(s.id))], streams := c.streams[i := Widen(s, 1)])
  {
    var id := c.streams[i].id;
    var c1 := c.(log := c.log + [Recv(Widens(id))]);
    FindEntry(c.streams, i);
    WidensOne(c1, id);
    assert Process(env, c, Widens(id)) == OnWindow(c1, Widens(id));
  }

  lemma {:induction false} WidensOne(c: Conn, id: nat)
    requires id != 0
    ensures OnWindow(c, Widens(id)) == WidenStream(c, id, 1)
  {
    Be32Inverse(1);
  }

  /** One stream is left, and its response waits for a window. */
  ghost predicate Waits(env: Env, c: Conn, s: Stream) {
    Steady(env, c) && c.streams == [s] && Pumpable(s) && s.out.headersSent
  }

  function Gap(w: int): nat {
    if w > 0 then 0 else 1 - w
  }

  function Gaps(c: Conn, s: Stream): nat {
    Gap(c.sendWindow) + Gap(s.sendWindow)
  }

  /** The frame widens a window of the one stream that is left, or of the connection. */
  ghost predicate WidenedBy(env: Env, frames: seq<Frame>, s: Stream, f: Frame, s': Stream, w: int) {
    var c := Run(env, frames);
    && Waits(env, c, s) && Sendable(f) && (s' == s || s' == Widen(s, 1))
    && Process(env, c, f) == c.(log := c.log + [Recv(f)], streams := [s'], sendWindow := w)
  }

  lemma {:induction false} UsedAtOnce(env: Env, frames: seq<Frame>, s: Stream, f: Frame, s': Stream, w: int)
    requires WidenedBy(env, frames, s, f, s', w) && s'.sendWindow > 0 && w > 0
    ensures Brings(env, frames, [f], s.id)
  {
    var c := Run(env, frames);
    var c1 := Process(env, c, f);
    GoodAfter(env, c, f);
    assert c1.streams[0] == s' && !Dispatchable(c.streams[0]) && Room(c1, s') > 0;
    SettleSends(env, c1, 0);
    BringsNow(env, frames, f, s.id);
  }

  lemma {:induction false} StillShut(env: Env, frames: seq<Frame>, s: Stream, f: Frame, s': Stream, w: int)
    requires WidenedBy(env, frames, s, f, s', w) && (s'.sendWindow <= 0 || w <= 0)
    ensures Waits(env, Run(env, frames + [f]), s') && Run(env, frames + [f]).sendWindow == w
  {
    var c := Run(env, frames);
    assert Stalled(c, c.streams[0]);
    assert Idle(Process(env, c, f));
    OneFrame(env, frames, f);
    RunSteady(env, frames + [f]);
  }

  /** A wider window is used at once, or closes the gap by one. */
  lemma {:induction false} WidenedOnce(env: Env, frames: seq<Frame>, s: Stream, f: Frame, s': Stream, w: int)
    requires WidenedBy(env, frames, s, f, s', w)
    ensures Brings(env, frames, [f], s.id)
            || (Waits(env, Run(env, frames + [f]), s') && Run(env, frames + [f]).sendWindow == w)
  {
    if s'.sendWindow > 0 && w > 0 {
      UsedAtOnce(env, frames, s, f, s', w);
    } else {
      StillShut(env, frames, s, f, s', w);
    }
  }

  /** The frame brings response frames, or narrows what is missing of a window. */
  ghost predicate Narrows(env: Env, frames: seq<Frame>, s: Stream, f: Frame, s': Stream) {
    && Sendable(f) && s'.id == s.id
    && (Brings(env, frames, [f], s.id)
        || (Waits(env, Run(env, frames + [f]), s') && Gaps(Run(env, frames + [f]), s') < Gaps(Run(env, frames), s)))
  }

  lemma {:induction false} ConnNarrows(env: Env, frames: seq<Frame>, s: Stream)
    requires Waits(env, Run(env, frames), s) && Run(env, frames).sendWindow <= 0
    ensures Narrows(env, frames, s, Widens(0), s)
  {
    var c := Run(env, frames);
    WidensConn(env, c);
    WidenedOnce(env, frames, s, Widens(0), s, c.sendWindow + 1);
  }

  lemma {:induction false} StreamNarrows(env: Env, frames: seq<Frame>, s: Stream)
    requires Waits(env, Run(env, frames), s) && s.sendWindow <= 0 && s.id < U31
    ensures Narrows(env, frames, s, Widens(s.id), Widen(s, 1))
  {
    var c := Run(env, frames);
    WidensStream(env, c, 0);
    WidenedOnce(env, frames, s, Widens(s.id), Widen(s, 1), c.sendWindow);
  }

  lemma {:induction false} OneNarrows(env: Env, frames: seq<Frame>, s: Stream) returns (f: Frame, s': Stream)
    requires Waits(env, Run(env, frames), s) && s.id < U31
    ensures Narrows(env, frames, s, f, s')
  {
    var c := Run(env, frames);
    assert Stalled(c, c.streams[0]);
    if c.sendWindow <= 0 {
      ConnNarrows(env, frames, s);
      f, s' := Widens(0), s;
    } else {
      StreamNarrows(env, frames, s);
      f, s' := Widens(s.id), Widen(s, 1);
    }
  }

  /** The windows are opened an octet at a time until the response goes on. */
  lemma {:induction false} GoesOn(env: Env, frames: seq<Frame>, s: Stream) returns (more: seq<Frame>)
    requires Waits(env, Run(env, frames), s) && s.id < U31
    ensures Brings(env, frames, more, s.id)
    decreases Gaps(Run(env, frames), s)
  {
    var f, s' := OneNarrows(env, frames, s);
    more := [f];
    if !Brings(env, frames, [f], s.id) {
      more := GoesOn(env, frames + [f], s');
      BringsLater(env, frames, f, more, s.id);
      more := [f] + more;
    }
  }

  /** The other streams are given up first, so that none of them uses up the window. */
  lemma {:induction false} GoesOnAlone(env: Env, frames: seq<Frame>, s: Stream) returns (more: seq<Frame>)
    requires var c := Run(env, frames);
             Steady(env, c) && s in c.streams && Pumpable(s) && c.lastId < U31
    ensures Brings(env, frames, more, s.id)
    decreases |Run(env, frames).streams|
  {
    var c := Run(env, frames);
    if |c.streams| == 1 {
      assert Stalled(c, c.streams[0]);
      more := GoesOn(env, frames, s);
    } else {
      var j := if c.streams[0] == s then 1 else 0;
      var f := Cancels(c.streams[j].id);
      CancelRun(env, frames, j, s);
      more := GoesOnAlone(env, frames + [f], s);
      BringsLater(env, frames, f, more, s.id);
      more := [f] + more;
    }
  }

  // ---------------------------------------------------------------------
  // The condition
  // ---------------------------------------------------------------------

  lemma {:induction false} Brought(env: Env, frames: seq<Frame>, id: nat) returns (more: seq<Frame>)
    requires var c := Run(env, frames); Steady(env, c) && c.lastId < U31 && Answerable(c, id)
    ensures Brings(env, frames, more, id)
  {
    var c := Run(env, frames);
    var i := Find(c.streams, id);
    var s := c.streams[i];
    assert EntryOk(env.maxBody, Books(c.log), Follow(c.log, id), c.served, s);
    if s.out.dispatched {
      more := GoesOnAlone(env, frames, s);
    } else {
      more := Finishes(env, frames, i);
    }
  }

  /** Between two header blocks, on any run, a stream that is not still to be opened can be
      brought to send response frames if and only if it is answerable: it has an entry that
      was not reset and waits for a window, or whose request can still be ended as it was
      declared. That the server has reset it does not come into it. */
  lemma {:induction false} BroughtIffAnswerable(env: Env, frames: seq<Frame>, id: nat)
    requires GoodEnv(env)
    requires var c := Run(env, frames);
             && c.error == NO_ERROR && c.hb.stream == 0 && c.link.gotSettings && c.lastId < U31
             && !Unused(c, id)
    ensures (exists more :: Brings(env, frames, more, id)) <==> Answerable(Run(env, frames), id)
  {
    var c := Run(env, frames);
    RunSteady(env, frames);
    HopelessMeans(env, c, id);
    if Answerable(c, id) {
      var more := Brought(env, frames, id);
      assert Brings(env, frames, more, id);
    } else {
      forall more
        ensures !Brings(env, frames, more, id)
      {
        NeverAnswered(env, frames, more, id);
      }
    }
  }

  /** A stream that was reset and is answerable breaks its silence. */
  lemma {:induction false} SilenceBroken(env: Env, frames: seq<Frame>, id: nat) returns (more: seq<Frame>)
    requires GoodEnv(env)
    requires var c := Run(env, frames);
             && c.error == NO_ERROR && c.hb.stream == 0 && c.link.gotSettings && c.lastId < U31
             && Answerable(c, id) && WasReset(c.log, id)
    ensures (forall f :: f in more ==> Sendable(f)) && !Silent(Run(env, frames + more).log)
  {
    RunSteady(env, frames);
    more := Brought(env, frames, id);
    NotSilent(Run(env, frames).log, Run(env, frames + more).log, id);
  }
}
