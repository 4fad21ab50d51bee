/** Receiving a frame keeps the invariants of `H2Safety`. First for any frame at all,
    which can send control frames only; then, type by type, for a frame that is not a
    connection error, after which the counters, windows and request bodies of the server
    are again what the log says they are. */
module H2Receive {
  import opened Bytes
  import opened H2Frames
  import opened H2Log
  import opened H2Conn
  import opened H2Safety

  // ---------------------------------------------------------------------
  // Receiving a frame
  // ---------------------------------------------------------------------

  lemma {:induction false} ApplyKeepsLog(c: Conn, payload: Text)
    ensures var r := ApplyFrom(c, payload);
            r.log == c.log && r.served == c.served && r.lastId == c.lastId && r.sendWindow == c.sendWindow && r.hb == c.hb
    decreases |payload|
  {
    if |payload| >= 6 && c.error == NO_ERROR {
      ApplyKeepsLog(ApplyOne(c, payload[0] as nat * 256 + payload[1], Rd32(payload[2..6])), payload[6..]);
    }
  }

  /** The state moves on without touching any response. */
  ghost predicate Quiet(c: Conn, r: Conn) {
    ControlsAfter(c.log, r.log) && r.served == c.served && r.lastId >= c.lastId
  }

  lemma {:induction false} QuietStep(c: Conn, f: Frame, r: Conn)
    requires Control(f) && Quiet(Emit(c, f), r)
    ensures Quiet(c, r)
  {
  }

  lemma {:induction false} OnSettingsQuiet(c: Conn, f: Frame)
    ensures Quiet(c, OnSettings(c, f))
  {
    ApplyKeepsLog(c.(link := c.link.(gotSettings := true)), f.payload);
  }

  lemma {:induction false} TakeDataQuiet(c: Conn, maxBody: nat, i: nat, s: Stream, f: Frame)
    requires i < |c.streams|
    ensures Quiet(c, TakeData(c, maxBody, i, s, f))
  {
  }

  lemma {:induction false} OnDataQuiet(env: Env, c: Conn, f: Frame)
    ensures Quiet(c, OnData(env, c, f))
  {
    var len := |f.payload|;
    if f.id != 0 && !BadPadding(f) && len <= c.link.recvWindow {
      var i := Find(c.streams, f.id);
      var update := Frame(WINDOW, 0, 0, Be32(len));
      var paid := c.(link := c.link.(recvWindow := c.link.recvWindow - len));
      if i < |c.streams| {
        StreamDataQuiet(env, Emit(paid, update), i, f);
      }
      QuietStep(paid, update, OnData(env, c, f));
    }
  }

  lemma {:induction false} StreamDataQuiet(env: Env, c: Conn, i: nat, f: Frame)
    requires i < |c.streams|
    ensures Quiet(c, StreamData(env, c, i, f))
  {
    var len := |f.payload|;
    var s := Charge(c.streams[i], len);
    if !c.streams[i].reset && len <= c.streams[i].req.recvWindow {
      var update := Frame(WINDOW, 0, f.id, Be32(len));
      TakeDataQuiet(Emit(c, update), env.maxBody, i, s, f);
      QuietStep(c, update, StreamData(env, c, i, f));
    }
  }

  lemma {:induction false} FinishBlockQuiet(env: Env, c: Conn, id: nat, end: bool, block: Text)
    ensures Quiet(c, FinishBlock(env, c, id, end, block))
  {
  }

  lemma {:induction false} OnHeadersQuiet(env: Env, c: Conn, f: Frame)
    ensures Quiet(c, OnHeaders(env, c, f))
  {
    match Feed(c.hb, f)
    case Err(_, _) =>
    case Hold(a, cancel) =>
    case Finished(id, end, block) => FinishBlockQuiet(env, c.(hb := NoBlock), id, end, block);
    case GivenUp(cancel) =>
  }

  lemma {:induction false} OnWindowQuiet(c: Conn, f: Frame)
    ensures Quiet(c, OnWindow(c, f))
  {
  }

  lemma {:induction false} OnOtherQuiet(c: Conn, f: Frame)
    ensures Quiet(c, OnOther(c, f))
  {
  }

  lemma {:induction false} HandleQuiet(env: Env, c: Conn, f: Frame)
    ensures Quiet(c, Handle(env, c, f))
  {
    if f.typ == DATA {
      OnDataQuiet(env, c, f);
    } else if f.typ == HEADERS || f.typ == CONT {
      OnHeadersQuiet(env, c, f);
    } else if f.typ == SETTINGS {
      OnSettingsQuiet(c, f);
    } else if f.typ == WINDOW {
      OnWindowQuiet(c, f);
    } else {
      OnOtherQuiet(c, f);
    }
  }

  /** The frame `f`, received in `c`, is all that the accounts of `r` add. */
  ghost predicate Accounted(env: Env, c: Conn, f: Frame, r: Conn) {
    && r.served == c.served
    && Books(r.log) == LedgerStep(Books(c.log), Recv(f))
    && (forall id: nat :: Follow(r.log, id) == TrackStep(Follow(c.log, id), Recv(f), id))
    && (Lawful(env.maxBody, r.log) <==> Lawful(env.maxBody, c.log))
  }

  lemma {:induction false} HandleAccounted(env: Env, c: Conn, f: Frame)
    ensures Accounted(env, c, f, Process(env, c, f))
  {
    var c1 := c.(log := c.log + [Recv(f)]);
    HandleQuiet(env, c1, f);
    ControlsKeep(env.maxBody, c1.log, Process(env, c, f).log);
    Append(env.maxBody, c.log, Recv(f));
  }

  /** Handling a frame neither sends nor spoils any part of a response, even when
      it ends the connection. */
  lemma {:induction false} ProcessSafe(env: Env, c: Conn, f: Frame)
    requires Safe(env, c)
    ensures Safe(env, Process(env, c, f))
  {
    HandleAccounted(env, c, f);
  }

  // ---------------------------------------------------------------------
  // Receiving a frame without a connection error
  // ---------------------------------------------------------------------

  /** The table after a frame: entry i replaced by an entry of the same stream. */
  ghost predicate OneEntry(c: Conn, i: nat, s: Stream, r: Conn) {
    && i < |c.streams| && s.id == c.streams[i].id
    && r.streams == c.streams[i := s]
    && r.lastId == c.lastId && r.error == c.error && r.initWindow == c.initWindow && r.sendWindow == c.sendWindow && r.hb == c.hb
  }

  lemma {:induction false} OneEntryLive(env: Env, c: Conn, f: Frame, i: nat, s: Stream, r: Conn)
    requires Live(env, c) && Accounted(env, c, f, r) && OneEntry(c, i, s, r)
    requires f.id == s.id && f.typ != SETTINGS
    requires EntryOk(env.maxBody, Books(c.log), TrackStep(Follow(c.log, f.id), Recv(f), f.id), c.served, s)
    ensures Live(env, r)
  {
    forall j | 0 <= j < |r.streams|
      ensures EntryOk(env.maxBody, Books(r.log), Follow(r.log, r.streams[j].id), r.served, r.streams[j])
    {
      if j != i {
        assert EntryOk(env.maxBody, Books(c.log), Follow(c.log, c.streams[j].id), c.served, c.streams[j]);
      }
    }
  }

  /** Nothing but fields without a bearing on responses changed. */
  ghost predicate SameTable(c: Conn, r: Conn) {
    && r.streams == c.streams && r.lastId == c.lastId && r.error == c.error && r.initWindow == c.initWindow
    && r.sendWindow == c.sendWindow
  }

  /** The frame does not concern the request or the window of an open stream. */
  lemma {:induction false} SameTableLive(env: Env, c: Conn, f: Frame, r: Conn)
    requires Live(env, c) && Accounted(env, c, f, r) && SameTable(c, r)
    requires f.typ != SETTINGS && !(f.typ == WINDOW && f.id == 0)
    requires (f.typ == DATA || (f.typ == WINDOW && Increment(f) != 0)) ==>
               f.id <= c.lastId && forall j :: 0 <= j < |c.streams| ==> c.streams[j].id != f.id
    requires r.hb.stream != 0 && r.hb.end ==> Follow(r.log, r.hb.stream).ended
    ensures Live(env, r)
  {
    forall j | 0 <= j < |r.streams|
      ensures EntryOk(env.maxBody, Books(r.log), Follow(r.log, r.streams[j].id), r.served, r.streams[j])
    {
      assert EntryOk(env.maxBody, Books(c.log), Follow(c.log, c.streams[j].id), c.served, c.streams[j]);
    }
  }

  lemma {:induction false} ConnWindowLive(env: Env, c: Conn, f: Frame, r: Conn)
    requires Live(env, c) && f.typ == WINDOW && f.id == 0 && Accounted(env, c, f, r)
    requires r.streams == c.streams && r.lastId == c.lastId && r.hb == c.hb && r.error == NO_ERROR
    requires r.initWindow == c.initWindow && r.sendWindow == c.sendWindow + Increment(f)
    ensures Live(env, r)
  {
    forall j | 0 <= j < |r.streams|
      ensures EntryOk(env.maxBody, Books(r.log), Follow(r.log, r.streams[j].id), r.served, r.streams[j])
    {
      assert EntryOk(env.maxBody, Books(c.log), Follow(c.log, c.streams[j].id), c.served, c.streams[j]);
    }
  }

  lemma {:induction false} WidenStreamLive(env: Env, c: Conn, f: Frame, c1: Conn, r: Conn)
    requires Live(env, c) && f.typ == WINDOW && f.id != 0 && Accounted(env, c, f, r)
    requires c1 == c.(log := c1.log) && r == WidenStream(c1, f.id, Increment(f)) && r.error == NO_ERROR
    ensures Live(env, r)
  {
    var i := Find(c.streams, f.id);
    if i == |c.streams| {
      SameTableLive(env, c, f, r);
    } else {
      assert EntryOk(env.maxBody, Books(c.log), Follow(c.log, c.streams[i].id), c.served, c.streams[i]);
      OneEntryLive(env, c, f, i, r.streams[i], r);
    }
  }

  lemma {:induction false} WindowLive(env: Env, c: Conn, f: Frame, r: Conn)
    requires Live(env, c) && f.typ == WINDOW && Accounted(env, c, f, r)
    requires r == OnWindow(c.(log := c.log + [Recv(f)]), f) && r.error == NO_ERROR
    ensures Live(env, r)
  {
    var c1 := c.(log := c.log + [Recv(f)]);
    if f.id == 0 {
      ConnWindowLive(env, c, f, r);
    } else if Increment(f) == 0 {
      SameTableLive(env, c, f, r);
    } else {
      WidenStreamLive(env, c, f, c1, r);
    }
  }

  // ---------------------------------------------------------------------
  // SETTINGS
  // ---------------------------------------------------------------------

  lemma {:induction false} ShiftMovesAll(ss: seq<Stream>, i: nat, delta: int)
    requires i <= |ss| && !Shift(ss, i, delta).overflow
    ensures var r := Shift(ss, i, delta).streams;
            forall j :: 0 <= j < |ss| ==> r[j] == if j < i then ss[j] else Widen(ss[j], delta)
    decreases |ss| - i
  {
    if i < |ss| {
      ShiftMovesAll(ss[i := Widen(ss[i], delta)], i + 1, delta);
    }
  }

  /** Same entries, every window moved by `delta`. */
  ghost predicate Moved(a: seq<Stream>, b: seq<Stream>, delta: int) {
    && |a| == |b|
    && forall i :: 0 <= i < |a| ==> b[i] == Widen(a[i], delta)
  }

  lemma {:induction false} ApplyOneMoves(c: Conn, id: nat, val: nat)
    requires c.error == NO_ERROR && ApplyOne(c, id, val).error == NO_ERROR
    ensures var r := ApplyOne(c, id, val);
            && r.initWindow == (if id == 4 then val else c.initWindow)
            && Moved(c.streams, r.streams, r.initWindow - c.initWindow)
  {
    if id == 4 {
      ShiftMovesAll(c.streams, 0, val - c.initWindow);
    }
  }

  /** All parameters of a payload together move the windows by the change of the
      initial window, as section 6.9.2 asks. */
  lemma {:induction false} ApplyMoves(c: Conn, payload: Text)
    requires c.error == NO_ERROR && ApplyFrom(c, payload).error == NO_ERROR
    ensures var r := ApplyFrom(c, payload);
            && r.initWindow == InitAfter(payload, c.initWindow)
            && Moved(c.streams, r.streams, r.initWindow - c.initWindow)
    decreases |payload|
  {
    if |payload| >= 6 {
      var id := payload[0] as nat * 256 + payload[1];
      var c1 := ApplyOne(c, id, Rd32(payload[2..6]));
      ApplyOneMoves(c, id, Rd32(payload[2..6]));
      ApplyMoves(c1, payload[6..]);
    }
  }

  lemma {:induction false} SettingsLive(env: Env, c: Conn, f: Frame, r: Conn)
    requires Live(env, c) && f.typ == SETTINGS && Accounted(env, c, f, r)
    requires r == OnSettings(c.(log := c.log + [Recv(f)]), f) && r.error == NO_ERROR
    ensures Live(env, r)
  {
    var c1 := c.(log := c.log + [Recv(f)], link := c.link.(gotSettings := true));
    ApplyKeepsLog(c1, f.payload);
    if !EndStream(f) {
      ApplyMoves(c1, f.payload);
    }
    SettingsEntries(env, c, f, r);
  }

  lemma {:induction false} SettingsEntries(env: Env, c: Conn, f: Frame, r: Conn)
    requires Live(env, c) && f.typ == SETTINGS && Accounted(env, c, f, r)
    requires Moved(c.streams, r.streams, Books(r.log).init - Books(c.log).init)
    ensures forall j :: 0 <= j < |r.streams| ==>
              EntryOk(env.maxBody, Books(r.log), Follow(r.log, r.streams[j].id), r.served, r.streams[j])
  {
    forall j | 0 <= j < |r.streams|
      ensures EntryOk(env.maxBody, Books(r.log), Follow(r.log, r.streams[j].id), r.served, r.streams[j])
    {
      assert EntryOk(env.maxBody, Books(c.log), Follow(c.log, c.streams[j].id), c.served, c.streams[j]);
    }
  }

  // ---------------------------------------------------------------------
  // DATA
  // ---------------------------------------------------------------------

  lemma {:induction false} GrowOk(maxBody: nat, t: Track, q: Inbound, data: Text, end: bool)
    requires RequestOk(maxBody, t, q) && !q.ended
    ensures var g := Grow(q, maxBody, data);
            RequestOk(maxBody, t.(received := t.received + data, ended := t.ended || end), g.(ended := end))
  {
  }

  lemma {:induction false} StreamDataCases(env: Env, c: Conn, i: nat, f: Frame)
    requires i < |c.streams|
    ensures var r := StreamData(env, c, i, f);
            && OneEntry(c, i, r.streams[i], r)
            && (r.streams[i].reset
                || (!c.streams[i].reset && !c.streams[i].req.ended
                    && r.streams[i] == c.streams[i].(req := Grow(Charge(c.streams[i], |f.payload|).req, env.maxBody,
                                                                 Unpadded(f)).(ended := EndStream(f)))))
  {
  }

  lemma {:induction false} DataLive(env: Env, c: Conn, f: Frame, r: Conn)
    requires Live(env, c) && f.typ == DATA && Accounted(env, c, f, r)
    requires r == OnData(env, c.(log := c.log + [Recv(f)]), f) && r.error == NO_ERROR
    ensures Live(env, r)
  {
    var i := Find(c.streams, f.id);
    if i == |c.streams| {
      SameTableLive(env, c, f, r);
    } else {
      var c1 := ChargeConn(c.(log := c.log + [Recv(f)]), |f.payload|);
      StreamDataCases(env, c1, i, f);
      DataEntry(env, c, f, i, r.streams[i]);
      OneEntryLive(env, c, f, i, r.streams[i], r);
    }
  }

  lemma {:induction false} DataEntry(env: Env, c: Conn, f: Frame, i: nat, s: Stream)
    requires Live(env, c) && f.typ == DATA && i < |c.streams| && c.streams[i].id == f.id
    requires s.reset
             || (!c.streams[i].reset && !c.streams[i].req.ended
                 && s == c.streams[i].(req := Grow(Charge(c.streams[i], |f.payload|).req, env.maxBody,
                                                   Unpadded(f)).(ended := EndStream(f))))
    ensures EntryOk(env.maxBody, Books(c.log), TrackStep(Follow(c.log, f.id), Recv(f), f.id), c.served, s)
  {
    var t := Follow(c.log, f.id);
    assert EntryOk(env.maxBody, Books(c.log), t, c.served, c.streams[i]);
    if !s.reset {
      GrowOk(env.maxBody, t, Charge(c.streams[i], |f.payload|).req, Unpadded(f), EndStream(f));
    }
  }

  // ---------------------------------------------------------------------
  // Header blocks and the rest
  // ---------------------------------------------------------------------

  lemma {:induction false} OtherLive(env: Env, c: Conn, f: Frame, r: Conn)
    requires Live(env, c) && Accounted(env, c, f, r)
    requires f.typ != DATA && f.typ != HEADERS && f.typ != CONT && f.typ != SETTINGS && f.typ != WINDOW
    requires r == OnOther(c.(log := c.log + [Recv(f)]), f) && r.error == NO_ERROR
    ensures Live(env, r)
  {
    var i := Find(c.streams, f.id);
    if f.typ == RST && i < |c.streams| {
      OneEntryLive(env, c, f, i, c.streams[i].(reset := true), r);
    } else {
      SameTableLive(env, c, f, r);
    }
  }

  /** A new entry has nothing behind it: its id was never used. */
  lemma {:induction false} NewEntryOk(env: Env, c: Conn, f: Frame, r: Conn, id: nat, end: bool, b: Built)
    requires Live(env, c) && Safe(env, c) && Accounted(env, c, f, r) && (f.typ == HEADERS || f.typ == CONT)
    requires b.Request? && id > c.lastId && (end ==> Follow(r.log, id).ended)
    ensures EntryOk(env.maxBody, Books(r.log), Follow(r.log, id), r.served, NewStream(c.initWindow, id, end, b))
  {
    assert IdOk(c.served, id, Follow(c.log, id));
  }

  lemma {:induction false} OpenEntries(env: Env, c: Conn, f: Frame, r: Conn, s: Stream)
    requires Live(env, c) && Accounted(env, c, f, r) && (f.typ == HEADERS || f.typ == CONT)
    requires r.streams == c.streams + [s]
    requires EntryOk(env.maxBody, Books(r.log), Follow(r.log, s.id), r.served, s)
    ensures forall j :: 0 <= j < |r.streams| ==>
              EntryOk(env.maxBody, Books(r.log), Follow(r.log, r.streams[j].id), r.served, r.streams[j])
  {
    forall j | 0 <= j < |r.streams|
      ensures EntryOk(env.maxBody, Books(r.log), Follow(r.log, r.streams[j].id), r.served, r.streams[j])
    {
      if j < |c.streams| {
        assert EntryOk(env.maxBody, Books(c.log), Follow(c.log, c.streams[j].id), c.served, c.streams[j]);
      }
    }
  }

  lemma {:induction false} OpenLive(env: Env, c: Conn, f: Frame, r: Conn, id: nat, end: bool, b: Built)
    requires Live(env, c) && Safe(env, c) && Accounted(env, c, f, r) && (f.typ == HEADERS || f.typ == CONT)
    requires b.Request? && id > c.lastId && id % 2 == 1 && (end ==> Follow(r.log, id).ended)
    requires |c.streams| < MAX_STREAMS && r.error == NO_ERROR && r.hb == NoBlock && r.lastId == id
    requires r.streams == c.streams + [NewStream(c.initWindow, id, end, b)]
    requires r.initWindow == c.initWindow && r.sendWindow == c.sendWindow
    ensures Live(env, r)
  {
    NewEntryOk(env, c, f, r, id, end, b);
    OpenEntries(env, c, f, r, NewStream(c.initWindow, id, end, b));
  }

  /** A header block leaves the table alone, or adds an entry for a new stream. */
  lemma {:induction false} FinishBlockCases(env: Env, c: Conn, id: nat, end: bool, block: Text)
    requires c.error == NO_ERROR && FinishBlock(env, c, id, end, block).error == NO_ERROR
    ensures var r := FinishBlock(env, c, id, end, block); var b := env.build(c.link.blocks + [block]);
            && r.hb == c.hb && r.initWindow == c.initWindow && r.sendWindow == c.sendWindow
            && (if r.streams == c.streams then r.lastId >= c.lastId
                else
                  && b.Request? && id > c.lastId && id % 2 == 1 && |c.streams| < MAX_STREAMS && r.lastId == id
                  && r.streams == c.streams + [NewStream(c.initWindow, id, end, b)])
  {
  }

  lemma {:induction false} FinishBlockLive(env: Env, c: Conn, f: Frame, c1: Conn, r: Conn, id: nat, end: bool, block: Text)
    requires Live(env, c) && Safe(env, c) && Accounted(env, c, f, r) && (f.typ == HEADERS || f.typ == CONT)
    requires c1 == c.(log := c1.log, hb := NoBlock)
    requires r == FinishBlock(env, c1, id, end, block) && r.error == NO_ERROR
    requires end ==> Follow(r.log, id).ended
    ensures Live(env, r)
  {
    FinishBlockCases(env, c1, id, end, block);
    if r.streams == c.streams {
      SameTableLive(env, c, f, r.(lastId := c.lastId));
    } else {
      OpenLive(env, c, f, r, id, end, env.build(c.link.blocks + [block]));
    }
  }

  /** A block belongs to the stream of its frames and ends it as its HEADERS said. */
  lemma {:induction false} FeedKeepsEnd(a: Assembly, f: Frame)
    requires f.typ == HEADERS || f.typ == CONT
    ensures var r := Feed(a, f); var end := if f.typ == HEADERS then EndStream(f) else a.end;
            && (f.typ == CONT && !r.Err? ==> a.stream == f.id != 0)
            && (r.Hold? ==> r.a.stream == f.id && r.a.end == end)
            && (r.Finished? ==> r.id == f.id && r.end == end)
  {
  }

  lemma {:induction false} HeldLive(env: Env, c: Conn, f: Frame, a: Assembly, r: Conn)
    requires Live(env, c) && Accounted(env, c, f, r) && (f.typ == HEADERS || f.typ == CONT)
    requires a.stream == 0 || (a.end ==> Follow(r.log, a.stream).ended)
    requires r == c.(log := r.log, hb := a)
    ensures Live(env, r)
  {
    SameTableLive(env, c, f, r);
  }

  /** The end that a block announces is one the client has sent. */
  lemma {:induction false} EndWasSent(env: Env, c: Conn, f: Frame, r: Conn)
    requires Live(env, c) && Accounted(env, c, f, r) && (f.typ == HEADERS || f.typ == CONT)
    ensures var x := Feed(c.hb, f);
            && (x.Hold? && x.a.end ==> Follow(r.log, x.a.stream).ended)
            && (x.Finished? && x.end ==> Follow(r.log, x.id).ended)
  {
    FeedKeepsEnd(c.hb, f);
    assert Follow(r.log, f.id) == TrackStep(Follow(c.log, f.id), Recv(f), f.id);
  }

  /** What a header frame comes to: a block under way, or a finished one. */
  ghost predicate Headed(env: Env, c: Conn, f: Frame, r: Conn) {
    match Feed(c.hb, f)
    case Err(_, _) => false
    case Hold(a, _) => r == c.(log := r.log, hb := a)
    case GivenUp(_) => r == c.(log := r.log, hb := NoBlock)
    case Finished(id, end, block) => r == FinishBlock(env, c.(log := c.log + [Recv(f)], hb := NoBlock), id, end, block)
  }

  lemma {:induction false} HeadersHead(env: Env, c: Conn, f: Frame)
    requires OnHeaders(env, c.(log := c.log + [Recv(f)]), f).error == NO_ERROR
    ensures Headed(env, c, f, OnHeaders(env, c.(log := c.log + [Recv(f)]), f))
  {
  }

  lemma {:induction false} HeadersLive(env: Env, c: Conn, f: Frame, r: Conn)
    requires Live(env, c) && Safe(env, c) && Accounted(env, c, f, r) && (f.typ == HEADERS || f.typ == CONT)
    requires Headed(env, c, f, r) && r.error == NO_ERROR
    ensures Live(env, r)
  {
    EndWasSent(env, c, f, r);
    var x := Feed(c.hb, f);
    if x.Hold? {
      HeldLive(env, c, f, x.a, r);
    } else if x.Finished? {
      FinishBlockLive(env, c, f, c.(log := c.log + [Recv(f)], hb := NoBlock), r, x.id, x.end, x.block);
    } else {
      HeldLive(env, c, f, NoBlock, r);
    }
  }

  /** A frame that is not a connection error keeps the server's books. */
  lemma {:induction false} ProcessLive(env: Env, c: Conn, f: Frame)
    requires Live(env, c) && Safe(env, c) && Process(env, c, f).error == NO_ERROR
    ensures Live(env, Process(env, c, f))
  {
    HandleAccounted(env, c, f);
    var r := Process(env, c, f);
    if f.typ == DATA {
      DataLive(env, c, f, r);
    } else if f.typ == HEADERS || f.typ == CONT {
      HeadersHead(env, c, f);
      HeadersLive(env, c, f, r);
    } else if f.typ == SETTINGS {
      SettingsLive(env, c, f, r);
    } else if f.typ == WINDOW {
      WindowLive(env, c, f, r);
    } else {
      OtherLive(env, c, f, r);
    }
  }
}
