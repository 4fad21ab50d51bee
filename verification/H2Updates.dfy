/** Lawful frames with unlawful answers. */
module H2Updates {
  // What the source makes of frames that the standard lets a client send: empty DATA
  // frames draw window updates of nothing; DATA frames that are all padding and trailing
  // header blocks end the connection.

  import opened Bytes
  import opened H2Frames
  import opened H2Log
  import opened H2Conn
  import opened H2Safety
  import opened H2Receive
  import opened H2Delivery
  import opened H2Moves
  import opened H2Credit

  // ---------------------------------------------------------------------
  // Window updates
  // ---------------------------------------------------------------------

  /** The frame is DATA that gets past the connection's own checks. */
  predicate Admitted(c: Conn, f: Frame) {
    && c.error == NO_ERROR && !OutOfTurn(c, f) && f.typ == DATA && f.id != 0 && !BadPadding(f)
    && |f.payload| <= c.link.recvWindow
  }

  ghost predicate UpdatesOf(log: seq<Event>, log': seq<Event>, size: nat) {
    log <= log' && forall k :: |log| <= k < |log'| && Update(log'[k]) ==> Increment(log'[k].f) == size
  }

  lemma {:induction false} OneUpdate(c: Conn, id: nat, size: nat)
    requires size < U31
    ensures UpdatesOf(c.log, Emit(c, Frame(WINDOW, 0, id, Be32(size))).log, size)
  {
    Be32Inverse(size);
  }

  lemma {:induction false} UpdatesTwice(a: seq<Event>, b: seq<Event>, c: seq<Event>, size: nat)
    requires UpdatesOf(a, b, size) && UpdatesOf(b, c, size)
    ensures UpdatesOf(a, c, size)
  {
  }

  lemma {:induction false} StreamDataUpdates(env: Env, c: Conn, i: nat, f: Frame)
    requires i < |c.streams| && |f.payload| < U31
    ensures UpdatesOf(c.log, StreamData(env, c, i, f).log, |f.payload|)
  {
    var c1 := Emit(c, Frame(WINDOW, 0, f.id, Be32(|f.payload|)));
    OneUpdate(c, f.id, |f.payload|);
    if !c.streams[i].reset && |f.payload| <= c.streams[i].req.recvWindow {
      assert c1.log <= StreamData(env, c, i, f).log;
      UpdatesTwice(c.log, c1.log, StreamData(env, c, i, f).log, |f.payload|);
    }
  }

  /** Every update a frame draws is of its size, and it draws one exactly if it is
      DATA that was let in. */
  lemma {:induction false} UpdatesDrawn(env: Env, c: Conn, f: Frame)
    requires c.error == NO_ERROR && c.link.recvWindow <= INITIAL_WINDOW
    ensures var r := Process(env, c, f);
            && UpdatesOf(c.log, r.log, |f.payload|)
            && (NoUpdates(c.log, r.log) <==> !Admitted(c, f))
  {
    var r := Process(env, c, f);
    var c1 := c.(log := c.log + [Recv(f)]);
    if f.typ != DATA {
      ProcessUncounted(env, c, f);
    } else if Admitted(c, f) {
      var c2 := ChargeConn(c1, |f.payload|);
      OneUpdate(c1.(link := c2.link), 0, |f.payload|);
      if Find(c.streams, f.id) < |c.streams| {
        StreamDataUpdates(env, c2, Find(c.streams, f.id), f);
      }
      assert r == RouteData(env, c2, f);
      assert UpdatesOf(c.log, c1.log, |f.payload|) && UpdatesOf(c2.log, r.log, |f.payload|);
      UpdatesTwice(c.log, c1.log, c2.log, |f.payload|);
      UpdatesTwice(c.log, c2.log, r.log, |f.payload|);
      assert Update(r.log[|c1.log|]);
    }
  }

  ghost predicate ZeroSent(log: seq<Event>) {
    exists k :: 0 <= k < |log| && Update(log[k]) && Increment(log[k].f) == 0
  }

  /** What the frame does to the log, for good or ill. */
  lemma {:induction false} ZeroDrawn(env: Env, c: Conn, f: Frame)
    requires c.error == NO_ERROR && c.link.recvWindow <= INITIAL_WINDOW
    ensures ZeroSent(Process(env, c, f).log) <==> ZeroSent(c.log) || (Admitted(c, f) && f.payload == [])
  {
    var r := Process(env, c, f);
    UpdatesDrawn(env, c, f);
    if ZeroSent(c.log) {
      var k :| 0 <= k < |c.log| && Update(c.log[k]) && Increment(c.log[k].f) == 0;
      assert Update(r.log[k]);
    }
    if Admitted(c, f) && f.payload == [] {
      var k :| |c.log| <= k < |r.log| && Update(r.log[k]);
      assert Increment(r.log[k].f) == 0;
    }
  }

  lemma {:induction false} NoneAdded(log: seq<Event>, log': seq<Event>)
    requires NoUpdates(log, log')
    ensures ZeroSent(log') <==> ZeroSent(log)
  {
    if ZeroSent(log) {
      var k :| 0 <= k < |log| && Update(log[k]) && Increment(log[k].f) == 0;
      assert Update(log'[k]);
    }
  }

  lemma {:induction false} SettleUpdates(env: Env, c: Conn)
    ensures NoUpdates(c.log, Sweep(Pump(Dispatch(env, c))).log)
  {
    DispatchMoves(env, c, 0);
    PumpMoves(Dispatch(env, c), 0);
  }

  lemma {:induction false} StepZero(env: Env, c: Conn, f: Frame)
    requires c.error == NO_ERROR && c.link.recvWindow <= INITIAL_WINDOW
    ensures ZeroSent(Step(env, c, f).log) <==> ZeroSent(c.log) || (Admitted(c, f) && f.payload == [])
  {
    ZeroDrawn(env, c, f);
    SettleUpdates(env, Process(env, c, f));
    NoneAdded(Process(env, c, f).log, Sweep(Pump(Dispatch(env, Process(env, c, f)))).log);
  }

  /** Some frame of the run was an empty DATA frame that was let in. */
  ghost predicate EmptyAdmitted(env: Env, frames: seq<Frame>) {
    exists n :: 0 <= n < |frames| && Admitted(Run(env, frames[..n]), frames[n]) && frames[n].payload == []
  }

  lemma {:induction false} EmptyBefore(env: Env, front: seq<Frame>, f: Frame)
    ensures EmptyAdmitted(env, front + [f])
            <==> EmptyAdmitted(env, front) || (Admitted(Run(env, front), f) && f.payload == [])
  {
    var frames := front + [f];
    assert front[..|front|] == front;
    forall n | 0 <= n < |frames|
      ensures frames[..n] == front[..n] && frames[n] == if n < |front| then front[n] else f
    {
    }
    if EmptyAdmitted(env, front) {
      var n :| 0 <= n < |front| && Admitted(Run(env, front[..n]), front[n]) && front[n].payload == [];
      assert Admitted(Run(env, frames[..n]), frames[n]);
    }
    if Admitted(Run(env, front), f) && f.payload == [] {
      assert Admitted(Run(env, frames[..|front|]), frames[|front|]);
    }
  }

  /** On every run, whatever becomes of it: every window update the server sent is of at
      least one octet if and only if no DATA frame it let in was empty. */
  lemma {:induction false} ZeroUpdateIffEmpty(env: Env, frames: seq<Frame>)
    requires GoodEnv(env)
    ensures ZeroSent(Run(env, frames).log) <==> EmptyAdmitted(env, frames)
    decreases |frames|
  {
    if frames != [] {
      var front, f := frames[..|frames| - 1], frames[|frames| - 1];
      var c := Run(env, front);
      ZeroUpdateIffEmpty(env, front);
      FrontAndLast(frames);
      EmptyBefore(env, front, f);
      if c.error == NO_ERROR {
        EveryRunCredited(env, front);
        StepZero(env, c, f);
      }
    }
  }

  /** On the wire: a request whose body ends in an empty DATA frame. */
  lemma {:induction false} EmptyEndDrawsZero(env: Env, block: Text, more: seq<Frame>)
    requires GoodEnv(env) && |block| <= MAX_FRAME && env.build([block]).Request?
    ensures ZeroSent(Run(env, [HELLO, Opens(block), Frame(DATA, 1, 1, [])] + more).log)
  {
    var frames := [HELLO, Opens(block)];
    var f := Frame(DATA, 1, 1, []);
    OneOpenStream(env, block);
    var all := [HELLO, Opens(block), f] + more;
    assert all[..2] == frames && all[2] == f;
    assert Admitted(Run(env, all[..2]), all[2]);
    ZeroUpdateIffEmpty(env, all);
  }

  // ---------------------------------------------------------------------
  // Padding
  // ---------------------------------------------------------------------

  /** Section 6.1 of RFC 7540: the padding is shorter than the payload. */
  predicate LawfulPadding(f: Frame) {
    Padded(f) ==> |f.payload| >= 1 && f.payload[0] < |f.payload|
  }

  /** The payload is its padding and the octet that tells how much there is. */
  predicate AllPadding(f: Frame) {
    Padded(f) && |f.payload| >= 1 && f.payload[0] == |f.payload| - 1
  }

  lemma {:induction false} StreamDataHolds(env: Env, c: Conn, i: nat, f: Frame)
    requires i < |c.streams|
    ensures StreamData(env, c, i, f).error == c.error
  {
  }

  lemma {:induction false} PaddingJudged(env: Env, c: Conn, f: Frame)
    requires c.error == NO_ERROR && !OutOfTurn(c, f) && f.typ == DATA && f.id != 0
    requires Find(c.streams, f.id) < |c.streams| && |f.payload| <= c.link.recvWindow
    ensures Process(env, c, f).error == NO_ERROR <==> !BadPadding(f)
  {
    var c1 := c.(log := c.log + [Recv(f)]);
    assert Process(env, c, f) == OnData(env, c1, f);
    if !BadPadding(f) {
      StreamDataHolds(env, ChargeConn(c1, |f.payload|), Find(c.streams, f.id), f);
    }
  }

  /** A DATA frame within the windows of an open stream leaves the connection in order
      exactly if its padding is lawful and not all there is. */
  lemma {:induction false} PaddingTolerated(env: Env, frames: seq<Frame>, f: Frame)
    requires GoodEnv(env)
    requires var c := Run(env, frames);
             && c.error == NO_ERROR && !OutOfTurn(c, f) && f.typ == DATA && f.id != 0
             && Find(c.streams, f.id) < |c.streams| && DataIn(c.log) + |f.payload| <= INITIAL_WINDOW
    ensures Process(env, Run(env, frames), f).error == NO_ERROR <==> LawfulPadding(f) && !AllPadding(f)
  {
    EveryRunCredited(env, frames);
    PaddingJudged(env, Run(env, frames), f);
  }

  lemma {:induction false} BadPaddingEnds(env: Env, c: Conn, f: Frame)
    requires c.error == NO_ERROR && !OutOfTurn(c, f) && f.typ == DATA && BadPadding(f)
    ensures Process(env, c, f).error == PROTOCOL
  {
  }

  /** On the wire: no data and padding of no octets, which section 6.1 allows. */
  lemma {:induction false} BarePaddingEndsIt(env: Env, block: Text, more: seq<Frame>)
    requires GoodEnv(env) && |block| <= MAX_FRAME && env.build([block]).Request?
    ensures LawfulPadding(Frame(DATA, 9, 1, [0]))
    ensures Run(env, [HELLO, Opens(block), Frame(DATA, 9, 1, [0])] + more).error == PROTOCOL
  {
    var frames := [HELLO, Opens(block)];
    var f := Frame(DATA, 9, 1, [0]);
    OneOpenStream(env, block);
    BadPaddingEnds(env, Run(env, frames), f);
    RunNext(env, frames, f);
    RunStuck(env, frames + [f], more);
    assert frames + [f] == [HELLO, Opens(block), f];
  }

  // ---------------------------------------------------------------------
  // Trailers
  // ---------------------------------------------------------------------

  lemma {:induction false} FinishRefused(env: Env, c: Conn, id: nat, end: bool, block: Text)
    requires c.error == NO_ERROR && id % 2 == 1 && !(c.link.goaway && id > c.link.goawayLast)
    requires id > c.lastId ==> Find(c.streams, id) == |c.streams|
    ensures FinishBlock(env, c, id, end, block).error == PROTOCOL <==> id <= c.lastId
  {
  }

  /** A block that is not above the client's GOAWAY ends the connection with a protocol
      error exactly if its stream was opened before, as a trailing block's was. */
  lemma {:induction false} BlockRefused(env: Env, frames: seq<Frame>, f: Frame)
    requires GoodEnv(env) && (f.typ == HEADERS || f.typ == CONT)
    requires var c := Run(env, frames);
             && c.error == NO_ERROR && !OutOfTurn(c, f) && Feed(c.hb, f).Finished?
             && f.id % 2 == 1 && !(c.link.goaway && f.id > c.link.goawayLast)
    ensures Process(env, Run(env, frames), f).error == PROTOCOL <==> f.id <= Run(env, frames).lastId
  {
    EveryRun(env, frames);
    var c := Run(env, frames);
    var x := Feed(c.hb, f);
    FeedKeepsEnd(c.hb, f);
    FinishRefused(env, c.(log := c.log + [Recv(f)], hb := NoBlock), f.id, x.end, x.block);
  }

  /** On the wire: a request, and a trailing block that ends it. The connection ends, and
      the request is never served. */
  lemma {:induction false} TrailersEndIt(env: Env, block: Text, trailer: Text, more: seq<Frame>)
    requires GoodEnv(env) && |block| <= MAX_FRAME && env.build([block]).Request? && |trailer| <= MAX_FRAME
    ensures var r := Run(env, [HELLO, Opens(block), FullRequest(1, trailer)] + more);
            r.error == PROTOCOL && 1 !in r.served
  {
    var frames := [HELLO, Opens(block)];
    var f := FullRequest(1, trailer);
    OneOpenStream(env, block);
    EveryRun(env, frames);
    var c := Run(env, frames);
    assert EntryOk(env.maxBody, Books(c.log), Follow(c.log, 1), c.served, c.streams[0]);
    FullRequestFed(1, trailer);
    BlockRefused(env, frames, f);
    RunNext(env, frames, f);
    RunStuck(env, frames + [f], more);
    assert frames + [f] == [HELLO, Opens(block), f];
    HandleAccounted(env, c, f);
  }
}
