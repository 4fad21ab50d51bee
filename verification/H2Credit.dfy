/** The receive windows, and who credits them. */
module H2Credit {
  // Every DATA frame is answered with a window update of its size, but the server never
  // credits itself, so it refuses what it has granted.

  import opened Bytes
  import opened H2Frames
  import opened H2Log
  import opened H2Conn
  import opened H2Safety
  import opened H2Receive
  import opened H2Delivery
  import opened H2Moves

  // ---------------------------------------------------------------------
  // What the client counts
  // ---------------------------------------------------------------------

  /** Octets of DATA received on the whole connection, padding included. */
  function DataIn(log: seq<Event>): nat {
    if log == [] then 0
    else
      var e := log[|log| - 1];
      DataIn(log[..|log| - 1]) + if e.Recv? && e.f.typ == DATA then |e.f.payload| else 0
  }

  /** Octets of DATA received for one stream. */
  function DataFor(log: seq<Event>, id: nat): nat {
    if log == [] then 0
    else
      var e := log[|log| - 1];
      DataFor(log[..|log| - 1], id) + if e.Recv? && e.f.typ == DATA && e.f.id == id then |e.f.payload| else 0
  }

  /** Increments of the connection window the server has sent. */
  function Granted(log: seq<Event>): nat {
    if log == [] then 0
    else
      var e := log[|log| - 1];
      Granted(log[..|log| - 1]) + if e.Sent? && e.f.typ == WINDOW && e.f.id == 0 then Increment(e.f) else 0
  }

  /** The window a client that counts as section 6.9 of RFC 7540 says may send into. */
  function ClientWindow(log: seq<Event>): int {
    INITIAL_WINDOW + Granted(log) - DataIn(log)
  }

  lemma {:induction false} One(log: seq<Event>, e: Event)
    ensures DataIn(log + [e]) == DataIn(log) + if e.Recv? && e.f.typ == DATA then |e.f.payload| else 0
    ensures forall id: nat ::
              DataFor(log + [e], id)
              == DataFor(log, id) + (if e.Recv? && e.f.typ == DATA && e.f.id == id then |e.f.payload| else 0)
    ensures Granted(log + [e]) == Granted(log) + if e.Sent? && e.f.typ == WINDOW && e.f.id == 0 then Increment(e.f) else 0
  {
    assert (log + [e])[..|log|] == log;
  }

  predicate Uncounted(e: Event) {
    !(e.Recv? && e.f.typ == DATA) && !(e.Sent? && e.f.typ == WINDOW && e.f.id == 0)
  }

  ghost predicate UncountedAfter(log: seq<Event>, log': seq<Event>) {
    log <= log' && forall k :: |log| <= k < |log'| ==> Uncounted(log'[k])
  }

  ghost predicate SameCounts(log: seq<Event>, log': seq<Event>) {
    && DataIn(log') == DataIn(log) && Granted(log') == Granted(log)
    && forall id: nat :: DataFor(log', id) == DataFor(log, id)
  }

  predicate Update(e: Event) {
    e.Sent? && e.f.typ == WINDOW
  }

  ghost predicate NoUpdates(log: seq<Event>, log': seq<Event>) {
    log <= log' && forall k :: |log| <= k < |log'| ==> !Update(log'[k])
  }

  lemma {:induction false} CountsStay(log: seq<Event>, log': seq<Event>)
    requires UncountedAfter(log, log')
    ensures SameCounts(log, log')
    decreases |log'|
  {
    if |log'| == |log| {
      assert log' == log;
    } else {
      var front := log'[..|log'| - 1];
      CountsStay(log, front);
      One(front, log'[|log'| - 1]);
      assert front + [log'[|log'| - 1]] == log';
    }
  }

  // ---------------------------------------------------------------------
  // The server's counters
  // ---------------------------------------------------------------------

  /** The client's window never moves, and the server's is 65535 less all it ever
      received; a stream's is 65535 less what the stream received. */
  ghost predicate Credited(c: Conn) {
    && Granted(c.log) == DataIn(c.log)
    && c.link.recvWindow == INITIAL_WINDOW - DataIn(c.log) >= 0
    && (forall i :: 0 <= i < |c.streams| && !c.streams[i].reset ==>
          c.streams[i].req.recvWindow == INITIAL_WINDOW - DataFor(c.log, c.streams[i].id))
    && (forall id: nat :: DataFor(c.log, id) <= DataIn(c.log))
    && (forall id: nat :: id > c.lastId ==> DataFor(c.log, id) == 0)
  }

  lemma {:induction false} SettingsUncounted(c: Conn, f: Frame)
    ensures NoUpdates(c.log, OnSettings(c, f).log)
    ensures UncountedAfter(c.log, OnSettings(c, f).log) && OnSettings(c, f).link.recvWindow == c.link.recvWindow
  {
    ApplyKeepsLog(c.(link := c.link.(gotSettings := true)), f.payload);
    ApplyKeepsEntries(c.(link := c.link.(gotSettings := true)), f.payload);
  }

  lemma {:induction false} WindowUncounted(c: Conn, f: Frame)
    ensures NoUpdates(c.log, OnWindow(c, f).log)
    ensures UncountedAfter(c.log, OnWindow(c, f).log) && OnWindow(c, f).link == c.link
  {
  }

  lemma {:induction false} OtherUncounted(c: Conn, f: Frame)
    ensures NoUpdates(c.log, OnOther(c, f).log)
    ensures UncountedAfter(c.log, OnOther(c, f).log) && OnOther(c, f).link.recvWindow == c.link.recvWindow
  {
  }

  lemma {:induction false} FinishBlockUncounted(env: Env, c: Conn, id: nat, end: bool, block: Text)
    ensures var r := FinishBlock(env, c, id, end, block);
            && NoUpdates(c.log, r.log)
            && UncountedAfter(c.log, r.log) && r.link.recvWindow == c.link.recvWindow
  {
  }

  lemma {:induction false} HeadersUncounted(env: Env, c: Conn, f: Frame)
    ensures NoUpdates(c.log, OnHeaders(env, c, f).log)
    ensures UncountedAfter(c.log, OnHeaders(env, c, f).log) && OnHeaders(env, c, f).link.recvWindow == c.link.recvWindow
  {
    match Feed(c.hb, f)
    case Finished(id, end, block) => FinishBlockUncounted(env, c.(hb := NoBlock), id, end, block);
    case _ =>
  }

  /** Only DATA frames are counted. */
  lemma {:induction false} ProcessUncounted(env: Env, c: Conn, f: Frame)
    requires f.typ != DATA
    ensures var r := Process(env, c, f);
            && NoUpdates(c.log, r.log)
            && SameCounts(c.log, r.log) && r.link.recvWindow == c.link.recvWindow
  {
    var c1 := c.(log := c.log + [Recv(f)]);
    if f.typ == HEADERS || f.typ == CONT {
      HeadersUncounted(env, c1, f);
    } else if f.typ == SETTINGS {
      SettingsUncounted(c1, f);
    } else if f.typ == WINDOW {
      WindowUncounted(c1, f);
    } else {
      OtherUncounted(c1, f);
    }
    One(c.log, Recv(f));
    CountsStay(c1.log, Process(env, c, f).log);
  }

  lemma {:induction false} OthersCredited(env: Env, c: Conn, f: Frame)
    requires Credited(c) && f.typ != DATA
    ensures Credited(Process(env, c, f))
  {
    ProcessUncounted(env, c, f);
    ProcessMoves(env, c, f);
    var r := Process(env, c, f);
    forall i | 0 <= i < |r.streams| && !r.streams[i].reset
      ensures r.streams[i].req.recvWindow == INITIAL_WINDOW - DataFor(r.log, r.streams[i].id)
    {
      if i < |c.streams| {
        assert Kept(c.streams[i], r.streams[i]);
      }
    }
  }

  /** A DATA frame that was let in is counted once, and granted once. */
  lemma {:induction false} StreamDataCounted(env: Env, c: Conn, i: nat, f: Frame)
    requires i < |c.streams| && c.streams[i].id == f.id != 0
    ensures var r := StreamData(env, c, i, f);
            && UncountedAfter(c.log, r.log) && r.link == c.link && r.lastId == c.lastId
            && |r.streams| == |c.streams| && (forall j :: 0 <= j < |c.streams| && j != i ==> r.streams[j] == c.streams[j])
            && r.streams[i].id == f.id
            && (!r.streams[i].reset ==>
                  !c.streams[i].reset && r.streams[i].req.recvWindow == c.streams[i].req.recvWindow - |f.payload|)
  {
  }

  lemma {:induction false} ChargeCounted(c: Conn, f: Frame)
    requires f.typ == DATA && |f.payload| < U31
    ensures var log := c.log + [Recv(f)]; var r := ChargeConn(c.(log := log), |f.payload|);
            && DataIn(r.log) == DataIn(c.log) + |f.payload|
            && Granted(r.log) == Granted(c.log) + |f.payload|
            && forall id: nat :: DataFor(r.log, id) == DataFor(c.log, id) + if f.id == id then |f.payload| else 0
  {
    One(c.log, Recv(f));
    One(c.log + [Recv(f)], Sent(Frame(WINDOW, 0, 0, Be32(|f.payload|))));
    Be32Inverse(|f.payload|);
  }

  /** The entries after a DATA frame: only that of its stream moved, by the size of the
      frame, and nothing more is counted. */
  ghost predicate Debited(c: Conn, f: Frame, r: Conn) {
    && UncountedAfter(c.log, r.log) && r.link == c.link && r.lastId == c.lastId
    && |r.streams| == |c.streams|
    && forall j :: 0 <= j < |c.streams| ==>
         && r.streams[j].id == c.streams[j].id
         && (!r.streams[j].reset ==>
               !c.streams[j].reset
               && r.streams[j].req.recvWindow
                  == c.streams[j].req.recvWindow - if c.streams[j].id == f.id then |f.payload| else 0)
  }

  lemma {:induction false} RouteDebits(env: Env, c: Conn, f: Frame)
    requires IdsOk(c.streams, c.lastId) && f.id != 0
    ensures Debited(c, f, RouteData(env, c, f))
  {
    var i := Find(c.streams, f.id);
    if i < |c.streams| {
      StreamDataCounted(env, c, i, f);
    }
  }

  lemma {:induction false} DataCredited(env: Env, c: Conn, f: Frame)
    requires Credited(c) && IdsOk(c.streams, c.lastId) && f.typ == DATA && Process(env, c, f).error == NO_ERROR
    ensures Credited(Process(env, c, f))
  {
    var r := Process(env, c, f);
    var c1 := ChargeConn(c.(log := c.log + [Recv(f)]), |f.payload|);
    ChargeCounted(c, f);
    RouteDebits(env, c1, f);
    CountsStay(c1.log, r.log);
    DebitedCredited(c, f, c1, r);
    assert r == RouteData(env, c1, f);
  }

  lemma {:induction false} DebitedCredited(c: Conn, f: Frame, c1: Conn, r: Conn)
    requires Credited(c) && Debited(c1, f, r) && SameCounts(c1.log, r.log) && |f.payload| <= c.link.recvWindow
    requires c1.streams == c.streams && c1.lastId == c.lastId && f.id <= c.lastId
    requires c1.link.recvWindow == c.link.recvWindow - |f.payload|
    requires DataIn(c1.log) == DataIn(c.log) + |f.payload| && Granted(c1.log) == Granted(c.log) + |f.payload|
    requires forall id: nat :: DataFor(c1.log, id) == DataFor(c.log, id) + (if f.id == id then |f.payload| else 0)
    ensures Credited(r)
  {
  }

  lemma {:induction false} HandledUncounted(log: seq<Event>, log': seq<Event>)
    requires log <= log' && forall k :: |log| <= k < |log'| ==> log'[k].Handled? || (log'[k].Sent? && !Control(log'[k].f))
    ensures UncountedAfter(log, log')
  {
  }

  lemma {:induction false} SettleCredited(env: Env, c: Conn)
    requires Credited(c) && Distinct(c.streams)
    ensures Credited(Sweep(Pump(Dispatch(env, c))))
  {
    var d := Dispatch(env, c);
    var p := Pump(d);
    DispatchMoves(env, c, 0);
    PumpMoves(d, 0);
    HandledUncounted(c.log, p.log);
    CountsStay(c.log, p.log);
    forall s | s in Sweep(p).streams && !s.reset
      ensures s.req.recvWindow == INITIAL_WINDOW - DataFor(p.log, s.id)
    {
      SweptEntry(p, s);
    }
  }

  lemma {:induction false} EveryRunCredited(env: Env, frames: seq<Frame>)
    requires GoodEnv(env) && Run(env, frames).error == NO_ERROR
    ensures Credited(Run(env, frames))
    decreases |frames|
  {
    if frames != [] {
      var front, f := frames[..|frames| - 1], frames[|frames| - 1];
      var c := Run(env, front);
      EveryRunCredited(env, front);
      EveryRun(env, front);
      var c1 := Process(env, c, f);
      if f.typ == DATA {
        DataCredited(env, c, f);
      } else {
        OthersCredited(env, c, f);
      }
      DistinctAfter(env, c, f);
      if c1.error == NO_ERROR {
        SettleCredited(env, c1);
      }
    }
  }

  lemma {:induction false} DistinctAfter(env: Env, c: Conn, f: Frame)
    requires GoodEnv(env) && Good(env, c)
    ensures Process(env, c, f).error == NO_ERROR ==> Distinct(Process(env, c, f).streams)
  {
    if Process(env, c, f).error == NO_ERROR {
      ProcessLive(env, c, f);
    }
  }

  // ---------------------------------------------------------------------
  // What this means for a client
  // ---------------------------------------------------------------------

  lemma {:induction false} NotRefused(env: Env, c: Conn, f: Frame)
    requires Credited(c) && c.error == NO_ERROR && f.typ == DATA && f.id != 0 && !BadPadding(f)
    requires |f.payload| <= c.link.recvWindow
    ensures var r := OnData(env, c.(log := c.log + [Recv(f)]), f);
            && r.error != FLOW && c.log <= r.log
            && Sent(Frame(RST, 0, f.id, Be32(FLOW))) !in r.log[|c.log|..]
  {
    var c2 := ChargeConn(c.(log := c.log + [Recv(f)]), |f.payload|);
    var r := RouteData(env, c2, f);
    var i := Find(c.streams, f.id);
    assert Be32(FLOW)[3] == 3 && Be32(STREAM_CLOSED)[3] == 5;
    if i < |c.streams| {
      assert DataFor(c.log, f.id) <= DataIn(c.log);
      StreamNotRefused(env, c2, i, f);
      assert r.log[|c.log|..] == [Recv(f), Sent(Frame(WINDOW, 0, 0, Be32(|f.payload|)))] + r.log[|c2.log|..];
    }
  }

  /** On every run the client may send 65535 octets of DATA at any time, as far as the
      updates it was sent go, and a well-formed DATA frame is refused for flow control
      exactly when all the DATA of the connection comes to more than that. The window
      of the stream is never what refuses it. */
  lemma {:induction false} RefusedForFlow(env: Env, frames: seq<Frame>, f: Frame)
    requires GoodEnv(env) && Run(env, frames).error == NO_ERROR
    requires f.typ == DATA && f.id != 0 && !BadPadding(f) && !OutOfTurn(Run(env, frames), f)
    ensures var c := Run(env, frames); var r := Process(env, c, f);
            && ClientWindow(c.log) == INITIAL_WINDOW
            && (r.error == FLOW <==> DataIn(c.log) + |f.payload| > INITIAL_WINDOW)
            && c.log <= r.log && Sent(Frame(RST, 0, f.id, Be32(FLOW))) !in r.log[|c.log|..]
  {
    EveryRunCredited(env, frames);
    var c := Run(env, frames);
    if |f.payload| <= c.link.recvWindow {
      NotRefused(env, c, f);
    }
  }

  lemma {:induction false} StreamNotRefused(env: Env, c: Conn, i: nat, f: Frame)
    requires i < |c.streams| && c.streams[i].id == f.id
    requires !c.streams[i].reset ==> |f.payload| <= c.streams[i].req.recvWindow
    ensures var r := StreamData(env, c, i, f);
            && r.error == c.error && c.log <= r.log
            && Sent(Frame(RST, 0, f.id, Be32(FLOW))) !in r.log[|c.log|..]
  {
    assert Be32(FLOW)[3] == 3 && Be32(STREAM_CLOSED)[3] == 5 && Be32(PROTOCOL)[3] == 1;
  }

  /** One stream, whose request body is coming in. */
  ghost predicate Uploading(c: Conn, id: nat) {
    && c.error == NO_ERROR && c.hb.stream == 0 && c.link.gotSettings && |c.streams| == 1
    && var s := c.streams[0];
       !s.req.ended && s == NewStream(0, id, false, Request(0, false)).(sendWindow := s.sendWindow, req := s.req)
  }

  lemma {:induction false} UploadsOne(env: Env, c: Conn, id: nat, payload: Text)
    requires Credited(c) && id != 0 && Uploading(c, id) && DataIn(c.log) + |payload| <= INITIAL_WINDOW
    ensures var r := Process(env, c, Frame(DATA, 0, id, payload));
            Uploading(r, id) && Idle(r) && DataIn(r.log) == DataIn(c.log) + |payload|
  {
    var f := Frame(DATA, 0, id, payload);
    assert DataFor(c.log, id) <= DataIn(c.log);
    var c1 := ChargeConn(c.(log := c.log + [Recv(f)]), |payload|);
    assert Find(c.streams, id) == 0;
    StreamDataCounted(env, c1, 0, f);
    ChargeCounted(c, f);
    CountsStay(c1.log, Process(env, c, f).log);
  }

  lemma {:induction false} Uploads(env: Env, frames: seq<Frame>, id: nat, payload: Text)
    requires GoodEnv(env) && id != 0 && Uploading(Run(env, frames), id)
    requires DataIn(Run(env, frames).log) + |payload| <= INITIAL_WINDOW
    ensures var r := Run(env, frames + [Frame(DATA, 0, id, payload)]);
            Uploading(r, id) && DataIn(r.log) == DataIn(Run(env, frames).log) + |payload|
  {
    EveryRunCredited(env, frames);
    UploadsOne(env, Run(env, frames), id, payload);
    OneFrame(env, frames, Frame(DATA, 0, id, payload));
  }

  /** The whole window has come in, as far as the server is concerned. */
  ghost predicate Full(env: Env, frames: seq<Frame>, id: nat, left: nat) {
    && GoodEnv(env) && id != 0 && Uploading(Run(env, frames), id)
    && DataIn(Run(env, frames).log) + left == INITIAL_WINDOW
  }

  lemma {:induction false} Fills(env: Env, frames: seq<Frame>, id: nat, part: Text, left: nat) returns (more: seq<Frame>)
    requires Full(env, frames, id, left + |part|)
    ensures more == frames + [Frame(DATA, 0, id, part)] && Full(env, more, id, left)
  {
    Uploads(env, frames, id, part);
    more := frames + [Frame(DATA, 0, id, part)];
  }

  /** Once 65535 octets have come in, one more ends the connection. */
  lemma {:induction false} RefusesMore(env: Env, frames: seq<Frame>, id: nat) returns (more: seq<Frame>)
    requires Full(env, frames, id, 0)
    ensures more == frames + [Frame(DATA, 0, id, [0])]
    ensures ClientWindow(Run(env, frames).log) == INITIAL_WINDOW && Run(env, more).error == FLOW
  {
    more := frames + [Frame(DATA, 0, id, [0])];
    RefusedForFlow(env, frames, Frame(DATA, 0, id, [0]));
    assert more[..|frames|] == frames;
  }

  lemma {:induction false} StartsEmpty(env: Env, block: Text)
    requires GoodEnv(env) && |block| <= MAX_FRAME && env.build([block]).Request?
    ensures Full(env, [HELLO, Opens(block)], 1, INITIAL_WINDOW)
  {
    OneOpenStream(env, block);
    EveryRunCredited(env, [HELLO, Opens(block)]);
  }

  /** On the wire: a body of 65535 octets, each of them granted again, and one octet
      more, which ends the connection although the client has a whole window left. */
  lemma {:induction false} GrantedThenRefused(env: Env, block: Text, part: Text) returns (frames: seq<Frame>, more: seq<Frame>)
    requires GoodEnv(env) && |block| <= MAX_FRAME && env.build([block]).Request? && |part| == 13107
    ensures var d := Frame(DATA, 0, 1, part);
            frames == [HELLO, Opens(block)] + [d] + [d] + [d] + [d] + [d]
    ensures more == frames + [Frame(DATA, 0, 1, [0])]
    ensures Run(env, frames).error == NO_ERROR && ClientWindow(Run(env, frames).log) == INITIAL_WINDOW
    ensures Run(env, more).error == FLOW
  {
    StartsEmpty(env, block);
    frames := Fills(env, [HELLO, Opens(block)], 1, part, 52428);
    frames := Fills(env, frames, 1, part, 39321);
    frames := Fills(env, frames, 1, part, 26214);
    frames := Fills(env, frames, 1, part, 13107);
    frames := Fills(env, frames, 1, part, 0);
    more := RefusesMore(env, frames, 1);
  }
}
