/** After RST_STREAM a stream should stay silent. */
module H2Silence {
  // Nothing of a response should follow RST_STREAM on its stream. The source keeps to
  // that exactly for the stream errors it records in its table.

  import opened Bytes
  import opened H2Frames
  import opened H2Log
  import opened H2Conn
  import opened H2Safety
  import opened H2Receive
  import opened H2Delivery
  import opened H2Moves
  import H2Credit

  predicate Resets(e: Event, id: nat) {
    e.Sent? && e.f.typ == RST && e.f.id == id
  }

  predicate Answers(e: Event, id: nat) {
    e.Sent? && !Control(e.f) && e.f.id == id
  }

  /** The stream has an entry whose response is not over. */
  predicate Open(c: Conn, id: nat) {
    var i := Find(c.streams, id);
    i < |c.streams| && !c.streams[i].reset && !c.streams[i].out.ended
  }

  /** The client may still open the stream. */
  predicate Unused(c: Conn, id: nat) {
    id % 2 == 1 && id > c.lastId
  }

  /** The server may still send response frames on the stream. */
  predicate MayAnswer(c: Conn, id: nat) {
    Open(c, id) || Unused(c, id)
  }

  /** A header block above the client's GOAWAY, or one for a new stream that makes no
      request. */
  predicate LooseBlock(env: Env, c: Conn, id: nat, block: Text) {
    && id % 2 == 1
    && ((c.link.goaway && id > c.link.goawayLast)
        || (id > c.lastId && Find(c.streams, id) == |c.streams| && env.build(c.link.blocks + [block]).Malformed?))
  }

  /** The frame draws RST_STREAM for its stream, and the server keeps no record of it:
      a window update of nothing, PRIORITY of the wrong size on an open stream, a
      header block over the cap, above the client's GOAWAY, or malformed. */
  predicate Unrecorded(env: Env, c: Conn, f: Frame) {
    && !OutOfTurn(c, f)
    && if f.typ == WINDOW then f.id != 0 && |f.payload| == 4 && Increment(f) == 0
       else if f.typ == PRIORITY then f.id != 0 && |f.payload| != 5 && Find(c.streams, f.id) < |c.streams|
       else if f.typ == HEADERS || f.typ == CONT then
         match Feed(c.hb, f)
         case Err(_, _) => false
         case Hold(_, cancel) => cancel
         case GivenUp(cancel) => cancel
         case Finished(id, _, block) => LooseBlock(env, c, id, block)
       else false
  }

  // ---------------------------------------------------------------------
  // Which resets retire their stream
  // ---------------------------------------------------------------------

  ghost predicate Drawn(c: Conn, r: Conn, id: nat) {
    exists k :: |c.log| <= k < |r.log| && Resets(r.log[k], id)
  }

  /** Only the stream of the frame can be reset by it; that is so whenever the frame
      is of the unrecorded kind; and otherwise the stream is done with. */
  ghost predicate Judged(env: Env, c: Conn, f: Frame, r: Conn, loose: bool) {
    && c.log <= r.log
    && (forall k :: |c.log| <= k < |r.log| && r.log[k].Sent? && r.log[k].f.typ == RST ==>
          r.log[k].f.id == f.id && (!loose ==> !MayAnswer(r, f.id)))
    && (loose ==> Drawn(c, r, f.id) && r.streams == c.streams && r.lastId == c.lastId)
  }

  lemma {:induction false} SettingsJudged(env: Env, c: Conn, f: Frame)
    ensures Judged(env, c, f, OnSettings(c, f), false)
  {
    ApplyKeepsLog(c.(link := c.link.(gotSettings := true)), f.payload);
  }

  lemma {:induction false} FindUpdated(ss: seq<Stream>, i: nat, s: Stream)
    requires i < |ss| && i == Find(ss, s.id)
    ensures Find(ss[i := s], s.id) == i
    decreases i
  {
    if i > 0 {
      FindUpdated(ss[1..], i - 1, s);
      assert ss[i := s][1..] == ss[1..][i - 1 := s];
    }
  }

  /** A recorded reset retires its stream. */
  lemma {:induction false} ResetRetires(c: Conn, s: Stream, code: nat)
    requires Find(c.streams, s.id) < |c.streams| && s.id <= c.lastId
    ensures var r := Reset(c, Find(c.streams, s.id), s, code);
            && !MayAnswer(r, s.id)
            && r.log == c.log + [Sent(Frame(RST, 0, s.id, Be32(code)))]
  {
    var i := Find(c.streams, s.id);
    FindUpdated(c.streams, i, s.(reset := true));
  }

  lemma {:induction false} ErrorJudged(env: Env, c: Conn, f: Frame, code: nat)
    ensures Judged(env, c, f, StreamError(c, f.id, code), true)
    ensures !MayAnswer(c, f.id) ==> Judged(env, c, f, StreamError(c, f.id, code), false)
  {
    var r := StreamError(c, f.id, code);
    assert Resets(r.log[|c.log|], f.id);
  }

  lemma {:induction false} WindowJudged(env: Env, c: Conn, f: Frame)
    requires IdsOk(c.streams, c.lastId) && f.typ == WINDOW && OnWindow(c, f).error == NO_ERROR
    ensures Judged(env, c, f, OnWindow(c, f), f.id != 0 && |f.payload| == 4 && Increment(f) == 0)
  {
    if f.id != 0 && |f.payload| == 4 {
      if Increment(f) == 0 {
        ErrorJudged(env, c, f, PROTOCOL);
      } else {
        var i := Find(c.streams, f.id);
        if i < |c.streams| {
          ResetRetires(c, Widen(c.streams[i], Increment(f)), FLOW);
        }
      }
    }
  }

  lemma {:induction false} PriorityJudged(env: Env, c: Conn, f: Frame)
    requires f.typ == PRIORITY && OnPriority(c, f).error == NO_ERROR
    ensures Judged(env, c, f, OnPriority(c, f),
                   f.id != 0 && |f.payload| != 5 && Find(c.streams, f.id) < |c.streams|)
  {
    if f.id != 0 && |f.payload| != 5 && Find(c.streams, f.id) < |c.streams| {
      ErrorJudged(env, c, f, FRAME_SIZE);
    }
  }

  lemma {:induction false} OtherJudged(env: Env, c: Conn, f: Frame)
    requires f.typ != PRIORITY
    ensures Judged(env, c, f, OnOther(c, f), false)
  {
  }

  /** Emitting frames that are not resets, before what draws one, changes nothing. */
  lemma {:induction false} JudgedLater(env: Env, c: Conn, c1: Conn, f: Frame, r: Conn)
    requires Judged(env, c1, f, r, false) && c.log <= c1.log
    requires forall k :: |c.log| <= k < |c1.log| ==> !(c1.log[k].Sent? && c1.log[k].f.typ == RST)
    ensures Judged(env, c, f, r, false)
  {
  }

  lemma {:induction false} StreamDataJudged(env: Env, c: Conn, f: Frame)
    requires IdsOk(c.streams, c.lastId) && Find(c.streams, f.id) < |c.streams|
    ensures Judged(env, c, f, StreamData(env, c, Find(c.streams, f.id), f), false)
  {
    var i := Find(c.streams, f.id);
    var len := |f.payload|;
    var s := Charge(c.streams[i], len);
    if !c.streams[i].reset {
      ResetRetires(c, s, FLOW);
      var c1 := Emit(c, Frame(WINDOW, 0, f.id, Be32(len)));
      ResetRetires(c1, s, STREAM_CLOSED);
      ResetRetires(c1, s.(req := Grow(s.req, env.maxBody, Unpadded(f)).(ended := true)), PROTOCOL);
    }
  }

  lemma {:induction false} DataJudged(env: Env, c: Conn, f: Frame)
    requires IdsOk(c.streams, c.lastId) && OnData(env, c, f).error == NO_ERROR
    ensures Judged(env, c, f, OnData(env, c, f), false)
  {
    var c1 := ChargeConn(c, |f.payload|);
    if Find(c.streams, f.id) < |c.streams| {
      StreamDataJudged(env, c1, f);
    } else {
      ErrorJudged(env, c1, f, STREAM_CLOSED);
    }
    JudgedLater(env, c, c1, f, OnData(env, c, f));
  }

  lemma {:induction false} FinishBlockJudged(env: Env, c: Conn, f: Frame, end: bool, block: Text)
    requires FinishBlock(env, c, f.id, end, block).error == NO_ERROR
    ensures Judged(env, c, f, FinishBlock(env, c, f.id, end, block), LooseBlock(env, c, f.id, block))
  {
    var id := f.id;
    var c1 := c.(link := c.link.(blocks := c.link.blocks + [block]));
    var r := FinishBlock(env, c, id, end, block);
    if c.link.goaway && id > c.link.goawayLast {
      ErrorJudged(env, c, f, REFUSED);
    } else {
      match env.build(c1.link.blocks)
      case Malformed => ErrorJudged(env, c1, f, PROTOCOL);
      case Request(_, _) =>
        if |c.streams| + 1 > MAX_STREAMS {
          ErrorJudged(env, c1.(lastId := id), f, REFUSED);
        }
      case Undecodable =>
    }
  }

  lemma {:induction false} HeadersJudged(env: Env, c: Conn, f: Frame)
    requires f.typ == HEADERS || f.typ == CONT
    requires OnHeaders(env, c, f).error == NO_ERROR && !OutOfTurn(c, f)
    ensures Judged(env, c, f, OnHeaders(env, c, f), Unrecorded(env, c, f))
  {
    FeedKeepsEnd(c.hb, f);
    match Feed(c.hb, f)
    case Err(_, _) =>
    case Hold(a, cancel) => ErrorJudged(env, c.(hb := a), f, CANCEL);
    case GivenUp(cancel) => ErrorJudged(env, c.(hb := NoBlock), f, CANCEL);
    case Finished(id, end, block) => FinishBlockJudged(env, c.(hb := NoBlock), f, end, block);
  }

  lemma {:induction false} HandleJudged(env: Env, c: Conn, f: Frame)
    requires IdsOk(c.streams, c.lastId) && Handle(env, c, f).error == NO_ERROR && !OutOfTurn(c, f)
    ensures Judged(env, c, f, Handle(env, c, f), Unrecorded(env, c, f))
  {
    if f.typ == DATA {
      DataJudged(env, c, f);
    } else if f.typ == HEADERS || f.typ == CONT {
      HeadersJudged(env, c, f);
    } else if f.typ == SETTINGS {
      SettingsJudged(env, c, f);
    } else if f.typ == WINDOW {
      WindowJudged(env, c, f);
    } else if f.typ == PRIORITY {
      PriorityJudged(env, c, f);
    } else {
      OtherJudged(env, c, f);
    }
  }

  /** A frame that draws RST_STREAM does so for its own stream, and leaves it where no
      response can follow unless the reset goes unrecorded and a response could have
      followed before. */
  lemma {:induction false} RetiredUnlessLoose(env: Env, c: Conn, f: Frame, id: nat)
    requires Live(env, c) && Process(env, c, f).error == NO_ERROR && Drawn(c, Process(env, c, f), id)
    ensures id == f.id
    ensures MayAnswer(Process(env, c, f), id) <==> Unrecorded(env, c, f) && MayAnswer(c, id)
  {
    var c1 := c.(log := c.log + [Recv(f)]);
    HandleJudged(env, c1, f);
  }

  // ---------------------------------------------------------------------
  // A retired stream stays silent
  // ---------------------------------------------------------------------

  ghost predicate QuietAfter(log: seq<Event>, log': seq<Event>, id: nat) {
    log <= log' && forall k :: |log| <= k < |log'| ==> !Answers(log'[k], id)
  }

  lemma {:induction false} QuietTwice(a: seq<Event>, b: seq<Event>, c: seq<Event>, id: nat)
    requires QuietAfter(a, b, id) && QuietAfter(b, c, id)
    ensures QuietAfter(a, c, id)
  {
  }

  /** An entry of the table is the one `Find` finds. */
  lemma {:induction false} FindEntry(ss: seq<Stream>, j: nat)
    requires Distinct(ss) && j < |ss|
    ensures Find(ss, ss[j].id) == j
  {
  }

  ghost predicate Spent(s: Stream) {
    s.reset || s.out.ended
  }

  /** A retired stream: its entry, if any, is spent, and it cannot be opened. */
  ghost predicate Retired(c: Conn, id: nat) {
    && (forall j :: 0 <= j < |c.streams| && c.streams[j].id == id ==> Spent(c.streams[j]))
    && !Unused(c, id)
  }

  lemma {:induction false} RetiredMeans(c: Conn, id: nat)
    requires Distinct(c.streams)
    ensures Retired(c, id) <==> !MayAnswer(c, id)
  {
    forall j | 0 <= j < |c.streams| && c.streams[j].id == id
      ensures Find(c.streams, id) == j
    {
      FindEntry(c.streams, j);
    }
  }

  lemma {:induction false} ProcessRetired(env: Env, c: Conn, f: Frame, id: nat)
    requires Retired(c, id)
    ensures Retired(Process(env, c, f), id) && QuietAfter(c.log, Process(env, c, f).log, id)
  {
    ProcessMoves(env, c, f);
    ProcessLog(env, c, f);
    var r := Process(env, c, f);
    forall j | 0 <= j < |r.streams| && r.streams[j].id == id
      ensures Spent(r.streams[j])
    {
      if j < |c.streams| {
        assert Kept(c.streams[j], r.streams[j]);
      }
    }
  }

  lemma {:induction false} DispatchRetired(env: Env, c: Conn, id: nat)
    requires Retired(c, id)
    ensures var r := DispatchFrom(env, c, 0); Retired(r, id) && QuietAfter(c.log, r.log, id)
  {
    DispatchMoves(env, c, 0);
  }

  lemma {:induction false} FragmentsQuiet(c: Conn, frames: seq<Frame>, other: nat, id: nat)
    requires other != id && forall f :: f in frames ==> f.id == other
    ensures QuietAfter(c.log, EmitAll(c, frames).log, id)
    decreases |frames|
  {
    if frames != [] {
      FragmentsQuiet(Emit(c, frames[0]), frames[1..], other, id);
    }
  }

  lemma {:induction false} DataLoopQuiet(c: Conn, i: nat, id: nat)
    requires i < |c.streams| && c.streams[i].id != id
    ensures QuietAfter(c.log, DataLoop(c, i).log, id)
    decreases LeftCount(c.streams[i].out)
  {
    var s := c.streams[i];
    if Placed(s.out.res, s.out.at) {
      NextDataAdvances(s.out.res, s.out.at, Room(c, s));
      var n := NextData(s.out.res, s.out.at, Room(c, s));
      if n.Piece? && !n.eof {
        DataLoopQuiet(SendData(c, i, n.at, n.payload, n.eof), i, id);
      }
    }
  }

  lemma {:induction false} FragmentIds(id: nat, block: Text, off: nat, end: bool)
    requires off <= |block|
    ensures forall f :: f in Fragments(id, block, off, end) ==> f.id == id
    decreases |block| - off
  {
    if off < |block| {
      FragmentIds(id, block, off + |Fragments(id, block, off, end)[0].payload|, end);
    }
  }

  lemma {:induction false} SendHeadQuiet(c: Conn, i: nat, id: nat)
    requires i < |c.streams| && c.streams[i].id != id
    ensures QuietAfter(c.log, SendHead(c, i).log, id)
  {
    var s := c.streams[i];
    var plan := PlanFor(s.out.res, s.req.head);
    var o := s.out.(headersSent := true, at := s.out.at.(bodyOff := 0), ended := plan.last, ready := !plan.last);
    FragmentIds(s.id, plan.block, 0, plan.last);
    FragmentsQuiet(Set(c, i, s.(out := o)), HeadFrames(s.id, plan.block, plan.last), s.id, id);
  }

  /** The pump sends for the entries it can send for, and changes no others. */
  lemma {:induction false} PumpOneRetired(c: Conn, i: nat, id: nat)
    requires i < |c.streams| && Retired(c, id)
    ensures Retired(PumpOne(c, i), id) && QuietAfter(c.log, PumpOne(c, i).log, id)
  {
    if Pumpable(c.streams[i]) {
      PumpOneMoves(c, i);
      SendHeadMoves(c, i);
      SendHeadQuiet(c, i, id);
      var c1 := if c.streams[i].out.headersSent then c else SendHead(c, i);
      DataLoopQuiet(c1, i, id);
      PumpOneElsewhere(c, i);
    }
  }

  lemma {:induction false} DataLoopElsewhere(c: Conn, i: nat)
    requires i < |c.streams|
    ensures forall j :: 0 <= j < |c.streams| && j != i ==> DataLoop(c, i).streams[j] == c.streams[j]
    decreases LeftCount(c.streams[i].out)
  {
    var s := c.streams[i];
    if Placed(s.out.res, s.out.at) {
      NextDataAdvances(s.out.res, s.out.at, Room(c, s));
      var n := NextData(s.out.res, s.out.at, Room(c, s));
      if n.Piece? && !n.eof {
        DataLoopElsewhere(SendData(c, i, n.at, n.payload, n.eof), i);
      }
    }
  }

  lemma {:induction false} PumpOneElsewhere(c: Conn, i: nat)
    requires i < |c.streams|
    ensures forall j :: 0 <= j < |c.streams| && j != i ==> PumpOne(c, i).streams[j] == c.streams[j]
  {
    if Pumpable(c.streams[i]) {
      DataLoopElsewhere(if c.streams[i].out.headersSent then c else SendHead(c, i), i);
    }
  }

  lemma {:induction false} PumpRetired(c: Conn, i: nat, id: nat)
    requires i <= |c.streams| && Retired(c, id)
    ensures var r := PumpFrom(c, i); Retired(r, id) && QuietAfter(c.log, r.log, id)
    decreases |c.streams| - i
  {
    if i < |c.streams| {
      var c1 := PumpOne(c, i);
      PumpOneRetired(c, i, id);
      PumpRetired(c1, i + 1, id);
      QuietTwice(c.log, c1.log, PumpFrom(c1, i + 1).log, id);
    }
  }

  lemma {:induction false} SweepRetired(c: Conn, id: nat)
    requires Retired(c, id) && Distinct(c.streams)
    ensures Retired(Sweep(c), id)
  {
    var r := Sweep(c);
    forall j | 0 <= j < |r.streams| && r.streams[j].id == id
      ensures Spent(r.streams[j])
    {
      SweptEntry(c, r.streams[j]);
    }
  }

  /** Whatever arrives next, a retired stream stays retired, and nothing of a response
      is sent on it. */
  lemma {:induction false} SettleRetired(env: Env, c: Conn, id: nat)
    requires Retired(c, id) && Distinct(c.streams)
    ensures var r := Sweep(Pump(Dispatch(env, c))); Retired(r, id) && QuietAfter(c.log, r.log, id)
  {
    var d := Dispatch(env, c);
    DispatchRetired(env, c, id);
    PumpRetired(d, 0, id);
    var p := Pump(d);
    QuietTwice(c.log, d.log, p.log, id);
    DispatchMoves(env, c, 0);
    PumpMoves(d, 0);
    SweepRetired(p, id);
  }

  // ---------------------------------------------------------------------
  // Whole runs
  // ---------------------------------------------------------------------

  /** Nothing of a response follows a reset of its stream. */
  ghost predicate Silent(log: seq<Event>) {
    forall j, k, id: nat :: 0 <= j < k < |log| && Resets(log[j], id) ==> !Answers(log[k], id)
  }

  ghost predicate WasReset(log: seq<Event>, id: nat) {
    exists j :: 0 <= j < |log| && Resets(log[j], id)
  }

  /** The server draws attention to a stream that it may go on to answer. */
  predicate Loose(env: Env, c: Conn, f: Frame) {
    Process(env, c, f).error == NO_ERROR && Unrecorded(env, c, f) && MayAnswer(c, f.id)
  }

  ghost predicate AllRetired(c: Conn) {
    forall id: nat :: WasReset(c.log, id) ==> Retired(c, id)
  }

  lemma {:induction false} ProcessAllRetired(env: Env, c: Conn, f: Frame)
    requires Good(env, c) && AllRetired(c) && Process(env, c, f).error == NO_ERROR && !Loose(env, c, f)
    ensures AllRetired(Process(env, c, f))
  {
    ProcessLog(env, c, f);
    ProcessLive(env, c, f);
    var r := Process(env, c, f);
    forall id: nat | WasReset(r.log, id)
      ensures Retired(r, id)
    {
      var j :| 0 <= j < |r.log| && Resets(r.log[j], id);
      if j < |c.log| {
        assert Resets(c.log[j], id);
        ProcessRetired(env, c, f, id);
      } else {
        RetiredUnlessLoose(env, c, f, id);
        RetiredMeans(r, id);
      }
    }
  }

  lemma {:induction false} ProcessSilent(env: Env, c: Conn, f: Frame)
    requires Silent(c.log)
    ensures Silent(Process(env, c, f).log)
  {
    ProcessLog(env, c, f);
    var log := Process(env, c, f).log;
    forall j, k, id: nat | 0 <= j < k < |log| && Resets(log[j], id)
      ensures !Answers(log[k], id)
    {
      if k < |c.log| {
        assert Resets(c.log[j], id);
      }
    }
  }

  lemma {:induction false} SettleLog(env: Env, c: Conn)
    ensures var r := Sweep(Pump(Dispatch(env, c)));
            && c.log <= r.log
            && forall k, id: nat :: |c.log| <= k < |r.log| ==> !Resets(r.log[k], id)
  {
    DispatchMoves(env, c, 0);
    PumpMoves(Dispatch(env, c), 0);
  }

  lemma {:induction false} SettleSilent(env: Env, c: Conn)
    requires Distinct(c.streams) && Silent(c.log) && AllRetired(c)
    ensures var r := Sweep(Pump(Dispatch(env, c))); Silent(r.log) && AllRetired(r)
  {
    SettleLog(env, c);
    var r := Sweep(Pump(Dispatch(env, c)));
    forall j, id: nat | 0 <= j < |r.log| && Resets(r.log[j], id)
      ensures Retired(r, id) && QuietAfter(c.log, r.log, id) && WasReset(c.log, id)
    {
      assert Resets(c.log[j], id);
      SettleRetired(env, c, id);
    }
    forall j, k, id: nat | 0 <= j < k < |r.log| && Resets(r.log[j], id)
      ensures !Answers(r.log[k], id)
    {
      assert QuietAfter(c.log, r.log, id);
      if k < |c.log| {
        assert Resets(c.log[j], id) && r.log[k] == c.log[k];
        assert !Answers(c.log[k], id);
      }
    }
  }

  /** Over any run in which no frame is loose at its moment, no response frame follows
      a reset of its stream. */
  lemma {:induction false} SilentAfterReset(env: Env, frames: seq<Frame>)
    requires GoodEnv(env)
    requires forall n :: 0 <= n < |frames| ==> !LooseNow(env, Run(env, frames[..n]), frames[n])
    ensures var r := Run(env, frames); Silent(r.log) && (r.error == NO_ERROR ==> AllRetired(r))
    decreases |frames|
  {
    if frames != [] {
      var front, f := frames[..|frames| - 1], frames[|frames| - 1];
      forall n | 0 <= n < |front|
        ensures !LooseNow(env, Run(env, front[..n]), front[n])
      {
        assert front[..n] == frames[..n];
      }
      SilentAfterReset(env, front);
      SilentStep(env, front, f);
    }
  }

  lemma {:induction false} SilentStep(env: Env, front: seq<Frame>, f: Frame)
    requires GoodEnv(env)
    requires var c := Run(env, front);
             Silent(c.log) && (c.error == NO_ERROR ==> AllRetired(c) && !Loose(env, c, f))
    ensures var r := Step(env, Run(env, front), f); Silent(r.log) && (r.error == NO_ERROR ==> AllRetired(r))
  {
    var c := Run(env, front);
    EveryRun(env, front);
    if c.error == NO_ERROR {
      ProcessSilent(env, c, f);
      var c1 := Process(env, c, f);
      if c1.error == NO_ERROR {
        ProcessAllRetired(env, c, f);
        ProcessLive(env, c, f);
        SettleSilent(env, c1);
      }
    }
  }

  /** Every stream that the frame has reset is done with once it is processed. */
  ghost predicate Retires(env: Env, c: Conn, f: Frame) {
    var r := Process(env, c, f);
    c.error == NO_ERROR && r.error == NO_ERROR ==> forall id: nat :: Drawn(c, r, id) ==> !MayAnswer(r, id)
  }

  ghost predicate LooseNow(env: Env, c: Conn, f: Frame) {
    c.error == NO_ERROR && Loose(env, c, f)
  }

  lemma {:induction false} RetiresUnlessLoose(env: Env, c: Conn, f: Frame)
    requires c.error == NO_ERROR ==> Live(env, c)
    ensures Retires(env, c, f) <==> !LooseNow(env, c, f)
  {
    var r := Process(env, c, f);
    if c.error == NO_ERROR && r.error == NO_ERROR {
      forall id: nat | Drawn(c, r, id)
        ensures id == f.id && (MayAnswer(r, id) <==> Loose(env, c, f))
      {
        RetiredUnlessLoose(env, c, f, id);
      }
      if Loose(env, c, f) {
        LooseDraws(env, c, f);
      }
    }
  }

  lemma {:induction false} RetiresAt(env: Env, frames: seq<Frame>, n: nat)
    requires GoodEnv(env) && n < |frames|
    ensures var c := Run(env, frames[..n]); Retires(env, c, frames[n]) <==> !LooseNow(env, c, frames[n])
  {
    EveryRun(env, frames[..n]);
    RetiresUnlessLoose(env, Run(env, frames[..n]), frames[n]);
  }

  /** Over any run, the resets retire their streams if and only if no frame is loose at
      its moment. */
  lemma {:induction false} RetiredIffNoneLoose(env: Env, frames: seq<Frame>)
    requires GoodEnv(env)
    ensures (forall n :: 0 <= n < |frames| ==> Retires(env, Run(env, frames[..n]), frames[n]))
            <==> (forall n :: 0 <= n < |frames| ==> !LooseNow(env, Run(env, frames[..n]), frames[n]))
  {
    forall n | 0 <= n < |frames|
      ensures Retires(env, Run(env, frames[..n]), frames[n]) <==> !LooseNow(env, Run(env, frames[..n]), frames[n])
    {
      RetiresAt(env, frames, n);
    }
  }

  lemma {:induction false} LooseDraws(env: Env, c: Conn, f: Frame)
    requires Live(env, c) && Loose(env, c, f)
    ensures Drawn(c, Process(env, c, f), f.id)
  {
    var c1 := c.(log := c.log + [Recv(f)]);
    var r := Process(env, c, f);
    HandleJudged(env, c1, f);
    var k :| |c1.log| <= k < |r.log| && Resets(r.log[k], f.id);
    assert |c.log| <= k && Resets(r.log[k], f.id);
  }

  // ---------------------------------------------------------------------
  // What follows a loose frame
  // ---------------------------------------------------------------------

  lemma {:induction false} HeadCame(log: seq<Event>, log': seq<Event>, id: nat)
    requires log <= log' && Follow(log, id).head == [] && Follow(log', id).head != []
    ensures AnswersAfter(log, log', id)
    decreases |log'|
  {
    assert log != log';
    var front := log'[..|log'| - 1];
    if Follow(front, id).head != [] {
      HeadCame(log, front, id);
      var k :| |log| <= k < |front| && Answers(front[k], id);
      assert Answers(log'[k], id);
    } else {
      assert Answers(log'[|log'| - 1], id);
    }
  }

  lemma {:induction false} NothingYet(env: Env, c: Conn, i: nat)
    requires Good(env, c) && i < |c.streams| && Dispatchable(c.streams[i])
    ensures Follow(c.log, c.streams[i].id).head == []
  {
    var id := c.streams[i].id;
    assert EntryOk(env.maxBody, Books(c.log), Follow(c.log, id), c.served, c.streams[i]);
    assert IdOk(c.served, id, Follow(c.log, id));
  }

  /** A dispatched response that stalls has its head out. */
  lemma {:induction false} HeadIsOut(env: Env, c: Conn, i: nat)
    requires Good(env, c) && i < |c.streams| && !c.streams[i].reset
    requires c.streams[i].out.dispatched && Stalled(c, c.streams[i])
    ensures Follow(c.log, c.streams[i].id).head != []
  {
    var s := c.streams[i];
    assert EntryOk(env.maxBody, Books(c.log), Follow(c.log, s.id), c.served, s);
  }

  lemma {:induction false} PumpedNow(env: Env, c: Conn, i: nat)
    requires GoodEnv(env) && Good(env, c) && i < |c.streams| && Dispatchable(c.streams[i])
    ensures var p := Pump(Dispatch(env, c));
            && c.log <= p.log && i < |p.streams| && p.streams[i].id == c.streams[i].id
            && Follow(p.log, c.streams[i].id).head != []
  {
    var d := Dispatch(env, c);
    DispatchKeeps(env, c, 0);
    DispatchMoves(env, c, 0);
    PumpKeeps(env, d, 0);
    PumpMoves(d, 0);
    assert SameRequest(d.streams[i], Pump(d).streams[i]);
    HeadIsOut(env, Pump(d), i);
  }

  /** A complete request is answered at once. */
  lemma {:induction false} SettleAnswers(env: Env, c: Conn, i: nat)
    requires GoodEnv(env) && Good(env, c) && i < |c.streams| && Dispatchable(c.streams[i])
    ensures AnswersAfter(c.log, Sweep(Pump(Dispatch(env, c))).log, c.streams[i].id)
  {
    NothingYet(env, c, i);
    PumpedNow(env, c, i);
    HeadCame(c.log, Pump(Dispatch(env, c)).log, c.streams[i].id);
  }

  ghost predicate AnswersAfter(log: seq<Event>, log': seq<Event>, id: nat) {
    log <= log' && exists k :: |log| <= k < |log'| && Answers(log'[k], id)
  }

  lemma {:induction false} NotSilent(log: seq<Event>, log': seq<Event>, id: nat)
    requires WasReset(log, id) && AnswersAfter(log, log', id)
    ensures !Silent(log')
  {
    var j :| 0 <= j < |log| && Resets(log[j], id);
    var k :| |log| <= k < |log'| && Answers(log'[k], id);
    assert Resets(log'[j], id);
  }

  /** One frame more, and the stream that was reset is answered. */
  lemma {:induction false} BreaksSilence(env: Env, frames: seq<Frame>, g: Frame, id: nat)
    requires var c := Run(env, frames); var c1 := Process(env, c, g);
             && c.error == NO_ERROR && c1.error == NO_ERROR && WasReset(c.log, id)
             && AnswersAfter(c1.log, Sweep(Pump(Dispatch(env, c1))).log, id)
    ensures !Silent(Run(env, frames + [g]).log)
  {
    var c := Run(env, frames);
    ProcessLog(env, c, g);
    var c1 := Process(env, c, g);
    assert (frames + [g])[..|frames|] == frames;
    var j :| 0 <= j < |c.log| && Resets(c.log[j], id);
    assert Resets(c1.log[j], id);
    NotSilent(c1.log, Sweep(Pump(Dispatch(env, c1))).log, id);
  }

  /** A stream that was reset while its request was still coming in: the client ends
      the request, and it is answered. */
  lemma {:induction false} EndedLater(env: Env, frames: seq<Frame>, i: nat)
    requires GoodEnv(env)
    requires var r := Run(env, frames);
             && r.error == NO_ERROR && r.hb.stream == 0 && r.link.gotSettings
             && i < |r.streams| && WasReset(r.log, r.streams[i].id)
             && var q := r.streams[i].req; !q.ended && (q.contentLength < 0 || q.bytes == q.contentLength)
    ensures !Silent(Run(env, frames + [Frame(DATA, 1, Run(env, frames).streams[i].id, [])]).log)
  {
    var c := Run(env, frames);
    var g := Frame(DATA, 1, c.streams[i].id, []);
    EveryRun(env, frames);
    H2Credit.EveryRunCredited(env, frames);
    assert H2Credit.DataFor(c.log, g.id) <= H2Credit.DataIn(c.log);
    EmptyEnd(env, c, i);
    GoodAfter(env, c, g);
    SettleAnswers(env, Process(env, c, g), i);
    BreaksSilence(env, frames, g, g.id);
  }

  const NOTHING: Text := [0, 0, 0, 0]

  lemma {:induction false} ZeroIncrementStep(env: Env, c: Conn, id: nat)
    requires id != 0 && c.error == NO_ERROR && c.hb.stream == 0 && c.link.gotSettings && Idle(c)
    ensures var f := Frame(WINDOW, 0, id, NOTHING); var r := StreamError(c.(log := c.log + [Recv(f)]), id, PROTOCOL);
            Process(env, c, f) == r && Idle(r)
  {
    var f := Frame(WINDOW, 0, id, NOTHING);
    var c1 := c.(log := c.log + [Recv(f)]);
    assert Rd32(NOTHING) == 0;
    assert Process(env, c, f) == OnWindow(c1, f);
    var r := StreamError(c1, id, PROTOCOL);
    forall j | 0 <= j < |r.streams|
      ensures !Over(r.streams[j]) && !Dispatchable(r.streams[j]) && Stalled(r, r.streams[j])
    {
      assert Stalled(c, c.streams[j]);
    }
  }

  /** A zero increment draws RST_STREAM and changes nothing else. */
  lemma {:induction false} ZeroIncrement(env: Env, frames: seq<Frame>, id: nat)
    requires GoodEnv(env) && id != 0
    requires var c := Run(env, frames); c.error == NO_ERROR && c.hb.stream == 0 && c.link.gotSettings
    ensures var c := Run(env, frames); var f := Frame(WINDOW, 0, id, NOTHING);
            && Run(env, frames + [f]) == StreamError(c.(log := c.log + [Recv(f)]), id, PROTOCOL)
            && WasReset(Run(env, frames + [f]).log, id)
  {
    var c := Run(env, frames);
    EveryRun(env, frames);
    ZeroIncrementStep(env, c, id);
    OneFrame(env, frames, Frame(WINDOW, 0, id, NOTHING));
    var log := Process(env, c, Frame(WINDOW, 0, id, NOTHING)).log;
    assert Resets(log[|log| - 1], id);
  }

  /** On the wire: a stream is opened, its window is widened by nothing, which draws
      RST_STREAM, and then its request ends and is answered. */
  lemma {:induction false} ZeroIncrementThenAnswered(env: Env, block: Text)
    requires GoodEnv(env) && |block| <= MAX_FRAME && env.build([block]).Request?
    requires env.build([block]).contentLength < 0
    ensures !Silent(Run(env, [HELLO, Opens(block), Frame(WINDOW, 0, 1, NOTHING), Frame(DATA, 1, 1, [])]).log)
  {
    var f := Frame(WINDOW, 0, 1, NOTHING);
    var frames := [HELLO, Opens(block)];
    OneOpenStream(env, block);
    ZeroIncrement(env, frames, 1);
    EndedLater(env, frames + [f], 0);
    assert frames + [f] + [Frame(DATA, 1, 1, [])] == [HELLO, Opens(block), f, Frame(DATA, 1, 1, [])];
  }

  lemma {:induction false} GoodAfter(env: Env, c: Conn, f: Frame)
    requires GoodEnv(env) && Good(env, c) && Process(env, c, f).error == NO_ERROR
    ensures Good(env, Process(env, c, f))
  {
    ProcessLive(env, c, f);
    ProcessSafe(env, c, f);
  }

  lemma {:induction false} EmptyEnd(env: Env, c: Conn, i: nat)
    requires Good(env, c) && Idle(c) && c.hb.stream == 0 && c.link.gotSettings && c.link.recvWindow >= 0
    requires i < |c.streams|
    requires var q := c.streams[i].req;
             !q.ended && q.recvWindow >= 0 && (q.contentLength < 0 || q.bytes == q.contentLength)
    ensures var g := Frame(DATA, 1, c.streams[i].id, []); var r := Process(env, c, g);
            r.error == NO_ERROR && |r.streams| == |c.streams| && r.streams[i].id == g.id && Dispatchable(r.streams[i])
  {
    FindEntry(c.streams, i);
    assert EntryOk(env.maxBody, Books(c.log), Follow(c.log, c.streams[i].id), c.served, c.streams[i]);
  }

  /** A stream that was reset before it was opened: the client opens it, and it is
      answered. */
  lemma {:induction false} OpenedLater(env: Env, frames: seq<Frame>, id: nat, block: Text)
    requires GoodEnv(env) && |block| <= MAX_FRAME
    requires var r := Run(env, frames);
             && r.error == NO_ERROR && r.hb.stream == 0 && r.link.gotSettings
             && Unused(r, id) && WasReset(r.log, id) && |r.streams| < MAX_STREAMS
             && !(r.link.goaway && id > r.link.goawayLast)
             && env.build(r.link.blocks + [block]).Request?
    ensures !Silent(Run(env, frames + [FullRequest(id, block)]).log)
  {
    var c := Run(env, frames);
    var g := FullRequest(id, block);
    EveryRun(env, frames);
    FreshRequest(env, c, id, block);
    GoodAfter(env, c, g);
    SettleAnswers(env, Process(env, c, g), |c.streams|);
    BreaksSilence(env, frames, g, id);
  }

  lemma {:induction false} FreshRequest(env: Env, c: Conn, id: nat, block: Text)
    requires Good(env, c) && c.hb.stream == 0 && c.link.gotSettings && Unused(c, id) && |block| <= MAX_FRAME
    requires |c.streams| < MAX_STREAMS && !(c.link.goaway && id > c.link.goawayLast)
    requires env.build(c.link.blocks + [block]).Request?
    ensures var r := Process(env, c, FullRequest(id, block));
            && r.error == NO_ERROR && |r.streams| == |c.streams| + 1
            && r.streams[|c.streams|].id == id && Dispatchable(r.streams[|c.streams|])
  {
    FullRequestFed(id, block);
  }

  // ---------------------------------------------------------------------
  // Heads
  // ---------------------------------------------------------------------

  /** A head is announced once, and goes on in CONTINUATION frames only, exactly when
      its block is not empty. */
  lemma {:induction false} AnnouncedOnce(id: nat, block: Text, end: bool)
    ensures var fs := HeadFrames(id, block, end);
            && fs != [] && fs[0].typ == HEADERS
            && ((forall k :: 0 < k < |fs| ==> fs[k].typ == CONT) <==> block != [])
  {
    var fs := HeadFrames(id, block, end);
    if block == [] {
      assert fs[1].typ == HEADERS;
    } else {
      var take := if |block| > MAX_FRAME then MAX_FRAME else |block|;
      LaterFragments(id, block, take, end);
      assert fs[1..] == Fragments(id, block, take, end);
      assert forall k :: 0 < k < |fs| ==> fs[k] == fs[1..][k - 1];
    }
  }

  lemma {:induction false} LaterFragments(id: nat, block: Text, off: nat, end: bool)
    requires 0 < off <= |block|
    ensures forall f :: f in Fragments(id, block, off, end) ==> f.typ == CONT
    decreases |block| - off
  {
    if off < |block| {
      LaterFragments(id, block, off + |Fragments(id, block, off, end)[0].payload|, end);
    }
  }
}
