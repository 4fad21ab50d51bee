/** The HTTP/2 connection as the source runs it: an object whose fields the frame
    handlers, the dispatcher, the pump and the sweep update, proved against the
    functions of `H2Conn`. */
module H2Server {
  import opened Bytes
  import opened H2Frames
  import opened H2Log
  import opened H2Conn
  import opened H2Safety
  import opened H2Receive
  import opened H2Delivery
  import opened H2Wire

  /** Steps over used-up chunks. */
  method SkipChunks(res: Response, start: Cursor) returns (at: Cursor)
    requires Placed(res, start)
    ensures at == SkipUsed(res, start)
  {
    at := start;
    while at.queueI < |res.chunks| && at.queueOff == |res.chunks[at.queueI]|
      invariant Placed(res, at) && SkipUsed(res, at) == SkipUsed(res, start)
      decreases |res.chunks| - at.queueI
    {
      at := at.(queueI := at.queueI + 1, queueOff := 0);
    }
  }

  /** `h2_next_data`: a queued chunk, then the producer, or else the plain body. */
  method NextPiece(res: Response, start: Cursor, room: int) returns (n: Next)
    requires Placed(res, start)
    ensures n == NextData(res, start, room)
  {
    var cap: nat := if room > MAX_FRAME then MAX_FRAME else if room < 0 then 0 else room;
    if !Streaming(res) {
      var rem := |res.body| - start.bodyOff;
      if rem == 0 { return Piece(start, [], true); }
      if room <= 0 { return Blocked(start); }
      var take := if rem < cap then rem else cap;
      var src := res.body[start.bodyOff..start.bodyOff + take];
      return Piece(start.(bodyOff := start.bodyOff + take), src, start.bodyOff + take >= |res.body|);
    }
    var at := SkipChunks(res, start);
    if at.queueI < |res.chunks| {
      if room <= 0 { return Blocked(at); }
      n := TakeChunk(res, at, cap);
    } else if res.producer.None? || at.fnEof {
      n := Piece(at, [], true);
    } else if room <= 0 {
      n := Blocked(at);
    } else {
      var got := Produced(res.producer.value, at.fnOff, cap);
      n := if got == [] then Piece(at.(fnEof := true), [], true) else Piece(at.(fnOff := at.fnOff + |got|), got, false);
    }
  }

  /** As much of the current chunk as fits. */
  method TakeChunk(res: Response, start: Cursor, cap: nat) returns (n: Next)
    requires Placed(res, start) && start.queueI < |res.chunks| && start.queueOff < |res.chunks[start.queueI]|
    requires 1 <= cap <= MAX_FRAME
    ensures n == NextChunk(res, start, cap)
  {
    var ch := res.chunks[start.queueI];
    var rem := |ch| - start.queueOff;
    var take := if rem < cap then rem else cap;
    var src := ch[start.queueOff..start.queueOff + take];
    var at := start.(queueOff := start.queueOff + take);
    if at.queueOff == |ch| {
      at := at.(queueI := at.queueI + 1, queueOff := 0);
    }
    n := Piece(at, src, at.queueI >= |res.chunks| && res.producer.None?);
  }

  /** Midway through the sending loop, or done with it. */
  ghost predicate Sending(env: Env, c: Conn, i: nat, more: bool, goal: Conn) {
    if more then
      && Good(env, c) && i < |c.streams| && Pumpable(c.streams[i]) && c.streams[i].out.headersSent
      && DataLoop(c, i) == goal
    else c == goal
  }

  /** One turn of it leads on to the same goal. */
  lemma SendingGoesOn(env: Env, c: Conn, i: nat, goal: Conn)
    requires Sending(env, c, i, true, goal)
    ensures var s := c.streams[i]; Placed(s.out.res, s.out.at)
    ensures var s := c.streams[i];
            match NextData(s.out.res, s.out.at, Room(c, s))
            case Blocked(at) => Set(c, i, s.(out := s.out.(at := at))) == goal
            case Piece(at, payload, eof) =>
              var r := SendData(c, i, at, payload, eof);
              && Sending(env, r, i, !eof, goal)
              && (!eof ==> LeftCount(r.streams[i].out) < LeftCount(s.out))
  {
    UnderwayOpen(env, c, i);
    var s := c.streams[i];
    var n := NextData(s.out.res, s.out.at, Room(c, s));
    NextDataAdvances(s.out.res, s.out.at, Room(c, s));
    if n.Piece? {
      SendDataKeeps(env, c, i, n);
    }
  }

  class Server {
    const env: Env
    var rb: Text
    var streams: seq<Stream>
    var lastId: nat
    var sendWindow: int
    var initWindow: nat
    var error: nat
    var gotSettings: bool
    var goaway: bool
    var goawayLast: nat
    var recvWindow: int
    var blocks: seq<Text>
    var hb: Assembly
    ghost var opener: map<nat, nat>
    ghost var answered: map<nat, nat>
    ghost var served: map<nat, Plan>
    ghost var log: seq<Event>

    ghost function Now(): Conn
      reads this
    {
      Conn(streams, lastId, sendWindow, initWindow, error,
           Link(gotSettings, goaway, goawayLast, recvWindow, blocks, Trace(opener, answered)), hb, served, log)
    }

    ghost predicate Valid()
      reads this
    {
      GoodEnv(env) && Safe(env, Now()) && (error == NO_ERROR ==> Live(env, Now()))
    }

    /** The state `h2_serve` starts from, its SETTINGS sent and what was read ahead of it
        in the buffer. */
    constructor (env: Env, leftover: Text)
      requires GoodEnv(env)
      ensures this.env == env && Now() == Init() && rb == leftover && Valid()
    {
      this.env, rb := env, leftover;
      streams, lastId, sendWindow, initWindow, error := [], 0, INITIAL_WINDOW, INITIAL_WINDOW, NO_ERROR;
      gotSettings, goaway, goawayLast, recvWindow, blocks, hb := false, false, 0, INITIAL_WINDOW, [], NoBlock;
      opener, answered, served := map[], map[], map[];
      log := [Sent(Frame(SETTINGS, 0, 0, [0, 3] + Be32(MAX_STREAMS)))];
      new;
      InitGood(env);
    }

    /** `h2_send_frame`; the write itself is outside the model. */
    method SendFrame(f: Frame)
      modifies this`log
      ensures Now() == Emit(old(Now()), f)
    {
      log := log + [Sent(f)];
    }

    /** `h2_conn_error`: the first error stays. */
    method ConnError(code: nat)
      modifies this`error
      ensures Now() == Fail(old(Now()), code)
    {
      if error == NO_ERROR {
        error := code;
      }
    }

    method SendStreamError(id: nat, code: nat)
      modifies this`log
      ensures Now() == StreamError(old(Now()), id, code)
    {
      SendFrame(Frame(RST, 0, id, Be32(code)));
    }

    /** RST_STREAM for an entry that is then marked. */
    method ResetEntry(i: nat, s: Stream, code: nat)
      requires i < |streams|
      modifies this`log, this`streams
      ensures Now() == Reset(old(Now()), i, s, code)
    {
      SendStreamError(s.id, code);
      streams := streams[i := s.(reset := true)];
    }

    /** `h2_find_stream`. */
    method FindStream(id: nat) returns (i: nat)
      ensures i == Find(streams, id)
    {
      i := 0;
      assert streams[0..] == streams;
      while i < |streams| && streams[i].id != id
        invariant i <= |streams| && Find(streams, id) == i + Find(streams[i..], id)
      {
        assert streams[i..][1..] == streams[i + 1..];
        i := i + 1;
      }
    }

    /** The loop over open streams for a new initial window. */
    method ShiftWindows(delta: int) returns (overflow: bool)
      modifies this`streams
      ensures Shift(old(streams), 0, delta) == Shifted(streams, overflow)
    {
      var i := 0;
      overflow := false;
      while i < |streams| && !overflow
        invariant i <= |streams|
        invariant Shift(old(streams), 0, delta) == if overflow then Shifted(streams, true) else Shift(streams, i, delta)
        decreases |streams| - i, !overflow
      {
        streams := streams[i := Widen(streams[i], delta)];
        overflow := streams[i].sendWindow > MAX_WINDOW;
        i := i + 1;
      }
    }

    method ApplyParameter(id: nat, val: nat)
      modifies this`streams, this`initWindow, this`error
      ensures Now() == ApplyOne(old(Now()), id, val)
    {
      if id == 2 {
        if val > 1 { ConnError(PROTOCOL); }
      } else if id == 4 {
        if val > MAX_WINDOW {
          ConnError(FLOW);
        } else {
          var overflow := ShiftWindows(val - initWindow);
          initWindow := val;
          if overflow { ConnError(FLOW); }
        }
      } else if id == 5 {
        if val < MAX_FRAME || val > 0xff_ffff { ConnError(PROTOCOL); }
      }
    }

    /** The loop of `h2_apply_settings`. */
    method ApplySettings(payload: Text)
      modifies this`streams, this`initWindow, this`error
      ensures Now() == ApplyFrom(old(Now()), payload)
    {
      var off := 0;
      assert payload[0..] == payload;
      while off + 6 <= |payload| && error == NO_ERROR
        invariant off <= |payload|
        invariant ApplyFrom(Now(), payload[off..]) == ApplyFrom(old(Now()), payload)
      {
        ghost var left := payload[off..];
        assert left[2..6] == payload[off + 2..off + 6] && left[6..] == payload[off + 6..];
        ApplyParameter(payload[off] as nat * 256 + payload[off + 1], Rd32(payload[off + 2..off + 6]));
        off := off + 6;
      }
    }

    method HandleSettings(f: Frame)
      modifies this`streams, this`initWindow, this`error, this`gotSettings, this`log
      ensures Now() == OnSettings(old(Now()), f)
    {
      if f.id != 0 {
        ConnError(PROTOCOL);
      } else if EndStream(f) {
        if f.payload != [] { ConnError(FRAME_SIZE); }
      } else {
        gotSettings := true;
        if |f.payload| % 6 != 0 {
          ConnError(FRAME_SIZE);
        } else {
          ApplySettings(f.payload);
          if error == NO_ERROR { SendFrame(Frame(SETTINGS, 1, 0, [])); }
        }
      }
    }

    method HandleWindow(f: Frame)
      modifies this`streams, this`sendWindow, this`error, this`log
      ensures Now() == OnWindow(old(Now()), f)
    {
      if |f.payload| != 4 {
        ConnError(FRAME_SIZE);
        return;
      }
      var inc := Rd32(f.payload) % U31;
      if inc == 0 {
        if f.id == 0 { ConnError(PROTOCOL); } else { SendStreamError(f.id, PROTOCOL); }
      } else if f.id == 0 {
        sendWindow := sendWindow + inc;
        if sendWindow > MAX_WINDOW { ConnError(FLOW); }
      } else {
        WidenEntry(f.id, inc);
      }
    }

    method WidenEntry(id: nat, inc: nat)
      modifies this`streams, this`error, this`log
      ensures Now() == WidenStream(old(Now()), id, inc)
    {
      var i := FindStream(id);
      if i == |streams| {
        if id > lastId { ConnError(PROTOCOL); }
      } else if !streams[i].reset {
        var s := Widen(streams[i], inc);
        if s.sendWindow > MAX_WINDOW { ResetEntry(i, s, FLOW); } else { streams := streams[i := s]; }
      }
    }

    method HandleData(f: Frame)
      modifies this`streams, this`recvWindow, this`error, this`log
      ensures Now() == OnData(env, old(Now()), f)
    {
      if f.id == 0 || BadPadding(f) {
        ConnError(PROTOCOL);
      } else if |f.payload| > recvWindow {
        ConnError(FLOW);
      } else {
        Acknowledge(|f.payload|);
        DeliverData(f);
      }
    }

    /** The connection's receive window is charged, and an update sent for it. */
    method Acknowledge(len: nat)
      modifies this`recvWindow, this`log
      ensures Now() == ChargeConn(old(Now()), len)
    {
      recvWindow := recvWindow - len;
      SendFrame(Frame(WINDOW, 0, 0, Be32(len)));
    }

    method DeliverData(f: Frame)
      modifies this`streams, this`error, this`log
      ensures Now() == RouteData(env, old(Now()), f)
    {
      var i := FindStream(f.id);
      if i < |streams| {
        HandleStreamData(i, f);
      } else if f.id > lastId {
        ConnError(PROTOCOL);
      } else {
        SendStreamError(f.id, STREAM_CLOSED);
      }
    }

    method HandleStreamData(i: nat, f: Frame)
      requires i < |streams|
      modifies this`streams, this`log
      ensures Now() == StreamData(env, old(Now()), i, f)
    {
      if streams[i].reset { return; }
      var len := |f.payload|;
      var s := Charge(streams[i], len);
      if len > streams[i].req.recvWindow {
        ResetEntry(i, s, FLOW);
        return;
      }
      SendFrame(Frame(WINDOW, 0, f.id, Be32(len)));
      if s.req.ended {
        ResetEntry(i, s, STREAM_CLOSED);
      } else {
        StoreData(i, s, f);
      }
    }

    method StoreData(i: nat, s: Stream, f: Frame)
      requires i < |streams|
      modifies this`streams, this`log
      ensures Now() == TakeData(old(Now()), env.maxBody, i, s, f)
    {
      var q := Grow(s.req, env.maxBody, Unpadded(f));
      if !EndStream(f) {
        streams := streams[i := s.(req := q)];
      } else if q.contentLength >= 0 && q.bytes != q.contentLength {
        ResetEntry(i, s.(req := q.(ended := true)), PROTOCOL);
      } else {
        streams := streams[i := s.(req := q.(ended := true))];
      }
    }

    method HandleOther(f: Frame)
      modifies this`streams, this`goaway, this`goawayLast, this`error, this`log
      ensures Now() == OnOther(old(Now()), f)
    {
      var i := FindStream(f.id);
      if f.typ == PRIORITY {
        if f.id == 0 {
          ConnError(PROTOCOL);
        } else if |f.payload| != 5 {
          if i < |streams| { SendStreamError(f.id, FRAME_SIZE); } else { ConnError(PROTOCOL); }
        }
      } else if f.typ == RST {
        if |f.payload| != 4 {
          ConnError(FRAME_SIZE);
        } else if f.id == 0 {
          ConnError(PROTOCOL);
        } else if i == |streams| {
          if f.id > lastId { ConnError(PROTOCOL); }
        } else {
          streams := streams[i := streams[i].(reset := true)];
        }
      } else if f.typ == PING {
        if |f.payload| != 8 {
          ConnError(FRAME_SIZE);
        } else if f.id != 0 {
          ConnError(PROTOCOL);
        } else if !EndStream(f) {
          SendFrame(Frame(PING, 1, 0, f.payload));
        }
      } else if f.typ == GOAWAY {
        if |f.payload| < 8 {
          ConnError(FRAME_SIZE);
        } else if f.id != 0 {
          ConnError(PROTOCOL);
        } else {
          goaway, goawayLast := true, Rd32(f.payload) % U31;
        }
      } else if f.typ == PUSH_PROMISE {
        ConnError(PROTOCOL);
      }
    }

    /** `h2_on_headers_start`. */
    method StartBlock(f: Frame)
      requires f.typ == HEADERS
      modifies this`streams, this`lastId, this`blocks, this`hb, this`error, this`log, this`opener
      ensures Now() == OnHeaders(env, old(Now()), f)
    {
      if f.id == 0 {
        ConnError(PROTOCOL);
        return;
      }
      hb := Assembly(f.id, [], EndStream(f), false);
      var p, left, pad := 0, |f.payload|, 0;
      if Padded(f) {
        if left < 1 {
          ConnError(PROTOCOL);
          return;
        }
        pad, p, left := f.payload[0], 1, left - 1;
      }
      if HasPriority(f) {
        if left < 5 {
          ConnError(PROTOCOL);
          return;
        }
        p, left := p + 5, left - 5;
      }
      if pad > left {
        ConnError(PROTOCOL);
        return;
      }
      var frag := f.payload[p..p + (left - pad)];
      FragmentIs(f, pad, p, left);
      if |frag| > BLOCK_CAP {
        ConnError(CALM);
        return;
      }
      hb := hb.(data := hb.data + frag);
      assert [] + frag == frag;
      if EndHeaders(f) {
        CloseBlock();
      }
    }

    /** A whole block: its state is cleared before the stream is opened. */
    method CloseBlock()
      modifies this`streams, this`lastId, this`blocks, this`hb, this`error, this`log, this`opener
      ensures Now() == FinishBlock(env, old(Now()).(hb := NoBlock), old(hb.stream), old(hb.end), old(hb.data))
    {
      var id, end, block := hb.stream, hb.end, hb.data;
      hb := NoBlock;
      OpenStream(id, end, block);
    }

    /** `h2_on_cont`. */
    method ContinueBlock(f: Frame)
      requires f.typ == CONT
      modifies this`streams, this`lastId, this`blocks, this`hb, this`error, this`log, this`opener
      ensures Now() == OnHeaders(env, old(Now()), f)
    {
      if hb.stream == 0 || f.id != hb.stream {
        ConnError(PROTOCOL);
        return;
      }
      if !hb.abort && |hb.data| + |f.payload| > BLOCK_CAP {
        hb := hb.(abort := true);
        SendStreamError(f.id, CANCEL);
      }
      if !hb.abort {
        hb := hb.(data := hb.data + f.payload);
      }
      if EndHeaders(f) {
        if hb.abort {
          hb := NoBlock;
        } else {
          CloseBlock();
        }
      }
    }

    /** `h2_on_header_block_finish`. */
    method OpenStream(id: nat, end: bool, block: Text)
      modifies this`streams, this`lastId, this`blocks, this`error, this`log, this`opener
      ensures Now() == FinishBlock(env, old(Now()), id, end, block)
    {
      var i := FindStream(id);
      if id % 2 == 0 {
        ConnError(PROTOCOL);
      } else if goaway && id > goawayLast {
        SendStreamError(id, REFUSED);
      } else if id <= lastId || i < |streams| {
        ConnError(PROTOCOL);
      } else {
        TakeRequest(id, end, block);
      }
    }

    /** The part of it in which the block is decoded and the stream set up. */
    method TakeRequest(id: nat, end: bool, block: Text)
      modifies this`streams, this`lastId, this`blocks, this`error, this`log, this`opener
      ensures Now() == TakeBlock(env, old(Now()), id, end, block)
    {
      blocks := blocks + [block];
      match env.build(blocks)
      case Undecodable => ConnError(COMPRESSION);
      case Malformed => SendStreamError(id, PROTOCOL);
      case Request(cl, head) =>
        lastId := id;
        if |streams| + 1 > MAX_STREAMS {
          SendStreamError(id, REFUSED);
        } else {
          streams := streams + [NewStream(initWindow, id, end, Request(cl, head))];
          opener := opener[id := |blocks|];
        }
    }

    /** `h2_process_frame`. */
    method HandleFrame(f: Frame)
      modifies this`streams, this`lastId, this`sendWindow, this`initWindow, this`error, this`gotSettings, this`goaway,
        this`goawayLast, this`recvWindow, this`blocks, this`hb, this`opener, this`log
      ensures Now() == Process(env, old(Now()), f)
    {
      ghost var goal := Process(env, Now(), f);
      log := log + [Recv(f)];
      if !gotSettings && (f.typ != SETTINGS || EndStream(f)) {
        ConnError(PROTOCOL);
      } else if hb.stream != 0 && (f.typ != CONT || f.id != hb.stream) {
        ConnError(PROTOCOL);
      } else if f.typ == DATA {
        HandleData(f);
      } else if f.typ == HEADERS {
        StartBlock(f);
      } else if f.typ == CONT {
        ContinueBlock(f);
      } else if f.typ == SETTINGS {
        HandleSettings(f);
      } else if f.typ == WINDOW {
        HandleWindow(f);
      } else {
        HandleOther(f);
      }
      assert Now() == goal;
    }

    /** Whatever the frame, the invariants are kept. */
    method ProcessFrame(f: Frame)
      requires Valid() && error == NO_ERROR
      modifies this
      ensures Valid() && Now() == Process(env, old(Now()), f) && rb == old(rb)
    {
      ProcessSafe(env, Now(), f);
      if Process(env, Now(), f).error == NO_ERROR {
        ProcessLive(env, Now(), f);
      }
      HandleFrame(f);
    }

    /** Stores a response for an entry. */
    method Respond(i: nat, res: Response, ghost at: nat)
      requires i < |streams|
      modifies this`streams, this`served, this`answered
      ensures Now() == Answer(old(Now()), i, res, at)
    {
      var s := streams[i];
      answered := answered[s.id := at];
      served := served[s.id := PlanFor(res, s.req.head)];
      streams := streams[i := s.(out := s.out.(dispatched := true, ready := true, res := res))];
    }

    /** The body of the loop of `h2_dispatch_ready`. */
    method DispatchEntry(i: nat)
      requires i < |streams|
      modifies this`streams, this`served, this`answered, this`log
      ensures Now() == DispatchOne(env, old(Now()), i)
    {
      var s := streams[i];
      if s.out.dispatched || s.reset || !s.req.ended {
        return;
      }
      var tooBig := s.req.tooBig;
      if !tooBig && s.req.contentLength >= 0 && s.req.contentLength > env.maxBody {
        tooBig := true;
      }
      if tooBig {
        Respond(i, env.tooLarge, |log|);
        return;
      }
      match env.inflate(s.id, s.req.body)
      case Corrupt => Respond(i, env.badRequest, |log|);
      case Swollen => Respond(i, env.tooLarge, |log|);
      case Inflated(body) =>
        ghost var at := |log|;
        log := log + [Handled(s.id, s.req.body)];
        Respond(i, env.handler(s.id, body), at);
    }

    /** `h2_dispatch_ready`. */
    method DispatchReady()
      requires Valid() && error == NO_ERROR
      modifies this`streams, this`served, this`answered, this`log
      ensures Valid() && Now() == Dispatch(env, old(Now()))
      ensures forall j :: 0 <= j < |streams| ==> !Dispatchable(streams[j])
    {
      DispatchKeeps(env, Now(), 0);
      DispatchEntries();
    }

    method DispatchEntries()
      modifies this`streams, this`served, this`answered, this`log
      ensures Now() == DispatchFrom(env, old(Now()), 0)
    {
      var i := 0;
      while i < |streams|
        invariant i <= |streams|
        invariant DispatchFrom(env, Now(), i) == DispatchFrom(env, old(Now()), 0)
      {
        DispatchEntry(i);
        i := i + 1;
      }
    }

    /** The frames of a block, one after the other. */
    method SendFrames(frames: seq<Frame>)
      modifies this`log
      ensures Now() == EmitAll(old(Now()), frames)
    {
      var k := 0;
      assert frames[0..] == frames;
      while k < |frames|
        invariant k <= |frames| && EmitAll(Now(), frames[k..]) == EmitAll(old(Now()), frames)
      {
        assert frames[k..][1..] == frames[k + 1..];
        SendFrame(frames[k]);
        k := k + 1;
      }
    }

    /** The first half of the pump for an entry: its head. */
    method PumpHead(i: nat)
      requires i < |streams|
      modifies this`streams, this`log
      ensures Now() == SendHead(old(Now()), i)
    {
      var s := streams[i];
      var plan := PlanFor(s.out.res, s.req.head);
      var frames := SplitBlock(s.id, plan.block, plan.last);
      streams := streams[i := s.(out := s.out.(headersSent := true, at := s.out.at.(bodyOff := 0),
                                               ended := plan.last, ready := !plan.last))];
      SendFrames(frames);
    }

    /** `h2_send_data` and what follows it in the sending loop. */
    method PushData(i: nat, at: Cursor, payload: Text, eof: bool)
      requires i < |streams|
      modifies this`streams, this`sendWindow, this`log
      ensures Now() == SendData(old(Now()), i, at, payload, eof)
    {
      var s := streams[i];
      SendFrame(Frame(DATA, if eof then 1 else 0, s.id, payload));
      sendWindow := sendWindow - |payload|;
      streams := streams[i := Widen(s, -|payload|)
                           .(out := s.out.(at := at, sent := s.out.sent + |payload|, ended := eof, ready := !eof))];
    }

    /** One turn of the sending loop. */
    method PumpTurn(i: nat, ghost goal: Conn) returns (more: bool)
      requires Sending(env, Now(), i, true, goal)
      modifies this`streams, this`sendWindow, this`log
      ensures Sending(env, Now(), i, more, goal) && |streams| == |old(streams)|
      ensures more ==> LeftCount(streams[i].out) < old(LeftCount(streams[i].out))
    {
      SendingGoesOn(env, Now(), i, goal);
      var s := streams[i];
      var room := if s.sendWindow < sendWindow then s.sendWindow else sendWindow;
      var n := NextPiece(s.out.res, s.out.at, room);
      match n
      case Blocked(at) =>
        streams := streams[i := s.(out := s.out.(at := at))];
        more := false;
      case Piece(at, payload, eof) =>
        PushData(i, at, payload, eof);
        more := !eof;
    }

    /** The sending loop of the pump over one entry. */
    method PumpData(i: nat)
      requires Good(env, Now()) && i < |streams| && Pumpable(streams[i]) && streams[i].out.headersSent
      modifies this`streams, this`sendWindow, this`log
      ensures Now() == DataLoop(old(Now()), i)
    {
      var more := true;
      ghost var goal := DataLoop(Now(), i);
      while more
        invariant Sending(env, Now(), i, more, goal) && i < |streams|
        decreases if more then LeftCount(streams[i].out) + 1 else 0
      {
        more := PumpTurn(i, goal);
      }
    }

    /** The body of the loop of `h2_pump`. */
    method PumpEntry(i: nat)
      requires Good(env, Now()) && i < |streams|
      modifies this`streams, this`sendWindow, this`log
      ensures Good(env, Now()) && Now() == PumpOne(old(Now()), i)
    {
      PumpOneKeeps(env, Now(), i);
      if Pumpable(streams[i]) {
        if !streams[i].out.headersSent {
          SendHeadKeeps(env, Now(), i);
          PumpHead(i);
        }
        if !streams[i].out.ended {
          PumpData(i);
        }
      }
    }

    /** `h2_pump`. */
    method PumpAll()
      requires Valid() && error == NO_ERROR
      modifies this`streams, this`sendWindow, this`log
      ensures Valid() && Now() == Pump(old(Now()))
      ensures SameRequests(old(streams), streams)
      ensures forall j :: 0 <= j < |streams| ==> Stalled(Now(), streams[j])
    {
      PumpKeeps(env, Now(), 0);
      PumpEntries();
    }

    /** Midway through the loop of `h2_pump`. */
    ghost predicate Pumping(i: nat, goal: Conn)
      reads this
    {
      i <= |streams| && Good(env, Now()) && PumpFrom(Now(), i) == goal
    }

    /** One turn of the loop. */
    method PumpNext(i: nat, ghost goal: Conn)
      requires Pumping(i, goal) && i < |streams|
      modifies this`streams, this`sendWindow, this`log
      ensures Pumping(i + 1, goal) && |streams| == old(|streams|)
    {
      PumpEntry(i);
    }

    /** The loop of `h2_pump`. */
    method PumpEntries()
      requires Good(env, Now())
      modifies this`streams, this`sendWindow, this`log
      ensures Good(env, Now()) && Now() == PumpFrom(old(Now()), 0)
    {
      ghost var goal := PumpFrom(Now(), 0);
      var i := 0;
      while i < |streams|
        invariant Pumping(i, goal) && i <= |streams|
      {
        PumpNext(i, goal);
        i := i + 1;
      }
    }

    /** `h2_free_stream`: swap-remove. */
    method FreeStream(i: nat)
      requires i < |streams|
      modifies this`streams
      ensures streams == SwapRemove(old(streams), i)
    {
      if i + 1 < |streams| {
        streams := streams[i := streams[|streams| - 1]];
      }
      streams := streams[..|streams| - 1];
    }

    /** The loop of `h2_sweep`. */
    method SweepEntries()
      modifies this`streams
      ensures streams == SweepFrom(old(streams), |old(streams)|)
    {
      var i: nat := |streams|;
      while i > 0
        invariant i <= |streams|
        invariant SweepFrom(streams, i) == SweepFrom(old(streams), |old(streams)|)
      {
        i := i - 1;
        if Over(streams[i]) {
          FreeStream(i);
        }
      }
    }

    /** `h2_sweep`. */
    method SweepAll()
      requires Valid() && error == NO_ERROR
      requires forall j :: 0 <= j < |streams| ==> !Dispatchable(streams[j]) && Stalled(Now(), streams[j])
      modifies this`streams
      ensures Valid() && Now() == Sweep(old(Now())) && Idle(Now())
    {
      SweepKeeps(env, Now());
      SweepEntries();
    }

    /** Dispatch, pump and sweep, as after every frame. */
    method Settle()
      requires Valid() && error == NO_ERROR
      modifies this`streams, this`served, this`answered, this`log, this`sendWindow
      ensures Valid() && Now() == Sweep(Pump(Dispatch(env, old(Now())))) && Idle(Now())
    {
      DispatchReady();
      ghost var requests := streams;
      PumpAll();
      forall j | 0 <= j < |streams|
        ensures !Dispatchable(streams[j])
      {
        assert SameRequest(requests[j], streams[j]);
      }
      SweepAll();
    }

    ghost function Here(): Wired
      reads this
    {
      Wired(rb, Now())
    }

    /** Midway through the inner loop of `h2_serve`, or done with it. */
    ghost predicate Draining(more: bool, goal: Wired)
      reads this
    {
      Valid() && if more then error == NO_ERROR && Drain(env, Here()) == goal else Here() == goal
    }

    /** `h2_frame_peek`. */
    method PeekFrame() returns (p: Peeked)
      ensures p == Peek(rb)
    {
      if |rb| < 9 {
        return NeedMore;
      }
      var len := rb[0] as nat * 0x1_0000 + rb[1] as nat * 0x100 + rb[2];
      if len > MAX_FRAME {
        return TooBig;
      }
      if |rb| < 9 + len {
        return NeedMore;
      }
      p := Whole(Frame(rb[3], rb[4], Rd32(rb[5..9]) % U31, rb[9..9 + len]), rb[9 + len..]);
    }

    /** One frame off the buffer, processed and followed up. */
    method ReadFrame(ghost goal: Wired) returns (more: bool)
      requires Draining(true, goal)
      modifies this
      ensures Draining(more, goal) && |rb| <= |old(rb)| && (more ==> |rb| < |old(rb)|)
    {
      more := false;
      var p := PeekFrame();
      match p
      case NeedMore =>
      case TooBig => ConnError(FRAME_SIZE);
      case Whole(f, rest) =>
        TakeFrame(f);
        rb := rest;
        more := error == NO_ERROR;
    }

    method TakeFrame(f: Frame)
      requires Valid() && error == NO_ERROR
      modifies this
      ensures Valid() && Now() == Step(env, old(Now()), f) && rb == old(rb)
    {
      ProcessFrame(f);
      if error == NO_ERROR {
        Settle();
      }
    }

    /** The inner loop of `h2_serve`. */
    method ReadFrames()
      requires Valid() && error == NO_ERROR
      modifies this
      ensures Valid() && Here() == Drain(env, old(Here()))
    {
      ghost var goal := Drain(env, Here());
      var more := true;
      while more
        invariant Draining(more, goal)
        decreases |rb|, more
      {
        more := ReadFrame(goal);
      }
    }

    /** A preface at the head of the buffer is stepped over. */
    method SkipPreface()
      modifies this`rb
      ensures rb == SkipMagic(old(rb))
    {
      if |rb| >= |MAGIC| && rb[..|MAGIC|] == MAGIC {
        rb := rb[|MAGIC|..];
      }
    }

    /** The outer loop of `h2_serve`, up to its next read. */
    method ServeTurn()
      requires Valid() && error == NO_ERROR
      modifies this
      ensures Valid() && Here() == Turn(env, old(Here()))
    {
      SkipPreface();
      Settle();
      if error == NO_ERROR && !(goaway && |streams| == 0) {
        ReadFrames();
      }
    }

    /** Midway through the outer loop of `h2_serve`, or done with it. */
    ghost predicate Listening(over: bool, arrivals: seq<Text>, k: nat, goal: Wired)
      reads this
    {
      && Valid()
      && if over then Here() == goal
         else k <= |arrivals| && error == NO_ERROR && Listen(env, Here(), arrivals[k..]) == goal
    }

    /** One turn of the outer loop, and the read behind it. */
    method ServeNext(arrivals: seq<Text>, k: nat, ghost goal: Wired) returns (over: bool)
      requires Listening(false, arrivals, k, goal)
      modifies this
      ensures over || k < |arrivals|
      ensures Listening(over, arrivals, k + 1, goal)
    {
      ServeTurn();
      over := error != NO_ERROR || (goaway && |streams| == 0) || k == |arrivals|;
      if !over {
        assert arrivals[k..][1..] == arrivals[k + 1..];
        rb := rb + arrivals[k];
      }
    }

    /** The outer loop. */
    method ServeAll(arrivals: seq<Text>, ghost goal: Wired)
      requires Listening(false, arrivals, 0, goal)
      modifies this
      ensures Listening(true, arrivals, 0, goal)
    {
      var k, over := 0, false;
      while !over
        invariant Listening(over, arrivals, k, goal) && (!over ==> k <= |arrivals|)
        decreases if over then 0 else |arrivals| - k + 1
      {
        over := ServeNext(arrivals, k, goal);
        k := k + 1;
      }
    }

    /** `h2_serve` from its SETTINGS on, with what each read brings: it goes on until an
        error, the end of a connection the client is leaving, or the last octet. */
    method Serve(arrivals: seq<Text>)
      requires Valid() && error == NO_ERROR
      modifies this
      ensures Valid() && Here() == Listen(env, old(Here()), arrivals)
    {
      assert arrivals[0..] == arrivals;
      ServeAll(arrivals, Listen(env, Here(), arrivals));
    }

    /** A whole connection, whatever its octets are cut into: what the client sees is the
        run over the frames it sent, or over the first of them if it was leaving, unless
        a preface comes in the wrong pieces. */
    method ServeFrames(arrivals: seq<Text>, ghost prefaced: bool, ghost frames: seq<Frame>, ghost tail: Text)
      returns (ghost seen: seq<Frame>)
      requires Valid() && Now() == Init()
      requires AllSendable(frames) && Peek(tail) == NeedMore
      requires rb + Flatten(arrivals) == ClientOctets(prefaced, frames, tail)
      modifies this
      ensures Valid() && seen <= frames
      ensures if prefaced && CutsPreface(old(|rb|), arrivals) then Now() == Fail(Init(), FRAME_SIZE)
              else Now() == Run(env, seen) && (seen < frames ==> goaway && streams == [])
    {
      seen := AnyReads(env, rb, arrivals, prefaced, frames, tail);
      Serve(arrivals);
    }

    /** The way out: the last stream and the reason, whatever it was. */
    method Farewell()
      requires Valid()
      modifies this`log
      ensures Now() == Emit(old(Now()), Frame(GOAWAY, 0, 0, Be32(lastId % U31) + Be32(error)))
      ensures Safe(env, Now())
    {
      ghost var before := log;
      SendFrame(Frame(GOAWAY, 0, 0, Be32(lastId % U31) + Be32(error)));
      ControlsKeep(env.maxBody, before, log);
    }
  }

  /** What is left of a HEADERS payload once padding and priority are off. */
  lemma FragmentIs(f: Frame, pad: nat, p: nat, left: nat)
    requires pad <= left && p + left == |f.payload|
    requires if Padded(f) then |f.payload| >= 1 && pad == f.payload[0] else pad == 0
    requires p == (if Padded(f) then 1 else 0) + (if HasPriority(f) then 5 else 0)
    ensures HeadersFragment(f) == Some(f.payload[p..p + (left - pad)])
  {
    var a := if Padded(f) then f.payload[1..] else f.payload;
    var b := if HasPriority(f) then a[5..] else a;
    assert b == f.payload[p..];
    assert b[..|b| - pad] == f.payload[p..p + (left - pad)];
  }
}
