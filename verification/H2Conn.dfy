/** The HTTP/2 connection of `h2_serve` on values: what each frame handler, the
    dispatcher, the pump and the sweep make of the connection state. Every octet
    sent and received is kept in `log`. */
module H2Conn {
  import opened Bytes
  import opened H2Frames
  import opened H2Log

  const MAX_STREAMS: nat := 100
  const MAX_WINDOW: int := 0x7fff_ffff

  // ---------------------------------------------------------------------
  // Responses and their bodies
  // ---------------------------------------------------------------------

  /** A body callback: at each offset it hands out between one octet and what it
      is asked for, as `grant` decides, until its content is used up. */
  datatype Producer = Producer(content: Text, grant: (nat, nat) -> nat)

  function Produced(p: Producer, off: nat, cap: nat): (r: Text)
    requires off <= |p.content| && cap >= 1
    ensures |r| <= cap && r <= p.content[off..]
    ensures r == [] <==> off == |p.content|
  {
    var left := |p.content| - off;
    var most := if left < cap then left else cap;
    var want := p.grant(off, cap);
    var n := if want < 1 then (if most < 1 then most else 1) else if want > most then most else want;
    p.content[off..off + n]
  }

  /** `block` is the encoded head; `bare` says that the status or the handler
      forbids a body. */
  datatype Response = Response(block: Text, bare: bool, body: Text, chunks: seq<Text>, producer: Option<Producer>)

  predicate Streaming(r: Response) {
    r.producer.Some? || r.chunks != []
  }

  /** The whole body a response stands for. */
  function WholeBody(r: Response): Text {
    if Streaming(r) then Flatten(r.chunks) + (if r.producer.Some? then r.producer.value.content else [])
    else r.body
  }

  /** Position in a response body. */
  datatype Cursor = Cursor(queueI: nat, queueOff: nat, fnOff: nat, fnEof: bool, bodyOff: nat)

  const Start: Cursor := Cursor(0, 0, 0, false, 0)

  // ---------------------------------------------------------------------
  // State
  // ---------------------------------------------------------------------

  /** The request half of a stream. */
  datatype Inbound = Inbound(ended: bool, tooBig: bool, head: bool, contentLength: int, body: Text, bytes: nat,
                             recvWindow: int)

  /** The response half of a stream. */
  datatype Outbound = Outbound(dispatched: bool, ready: bool, headersSent: bool, ended: bool, res: Response,
                               at: Cursor, sent: nat)

  /** An entry of the stream table (`H2_Stream`); entries are always open. */
  datatype Stream = Stream(id: nat, reset: bool, sendWindow: int, req: Inbound, out: Outbound)

  /** What is to be sent for a stream, fixed when it is dispatched. */
  datatype Plan = Plan(block: Text, last: bool, body: Text)

  /** History: which header block opened a stream, and when it was answered. */
  datatype Trace = Trace(opener: map<nat, nat>, answered: map<nat, nat>)

  /** The fields of `H2_Conn` without a bearing on responses; `blocks` are the
      header blocks the HPACK decoder has taken. */
  datatype Link = Link(gotSettings: bool, goaway: bool, goawayLast: nat, recvWindow: int, blocks: seq<Text>,
                       trace: Trace)

  /** `H2_Conn`; `served` and `log` are history. */
  datatype Conn = Conn(
    streams: seq<Stream>,
    lastId: nat,
    sendWindow: int,
    initWindow: nat,
    error: nat,
    link: Link,
    hb: Assembly,
    served: map<nat, Plan>,
    log: seq<Event>)

  /** What a header block turns into, given the blocks before it. */
  datatype Built =
    | Undecodable
    | Malformed
    | Request(contentLength: int, head: bool)

  /** A request body once its content coding is off; without one it is itself. */
  datatype Inflated = Inflated(body: Text) | Corrupt | Swollen

  /** The code around the connection: request construction over the HPACK state, the
      gzip decoder, the application's handler, and the error pages. */
  datatype Env = Env(
    maxBody: nat,
    build: seq<Text> -> Built,
    inflate: (nat, Text) -> Inflated,
    handler: (nat, Text) -> Response,
    badRequest: Response,
    tooLarge: Response)

  /** An encoded head always holds at least the status. */
  ghost predicate GoodEnv(env: Env) {
    && env.badRequest.block != [] && env.tooLarge.block != []
    && forall id, body :: env.handler(id, body).block != []
  }

  function Init(): Conn {
    Conn([], 0, INITIAL_WINDOW, INITIAL_WINDOW, NO_ERROR, Link(false, false, 0, INITIAL_WINDOW, [], Trace(map[], map[])),
         NoBlock, map[], [Sent(Frame(SETTINGS, 0, 0, [0, 3] + Be32(MAX_STREAMS)))])
  }

  function Fail(c: Conn, code: nat): Conn {
    if c.error == NO_ERROR then c.(error := code) else c
  }

  function Emit(c: Conn, f: Frame): Conn {
    c.(log := c.log + [Sent(f)])
  }

  function StreamError(c: Conn, id: nat, code: nat): Conn {
    Emit(c, Frame(RST, 0, id, Be32(code)))
  }

  /** Position of a stream in the table, or its length. */
  function Find(ss: seq<Stream>, id: nat): (i: nat)
    ensures i <= |ss|
    ensures i < |ss| ==> ss[i].id == id
    ensures forall j :: 0 <= j < i ==> ss[j].id != id
  {
    if ss == [] || ss[0].id == id then 0 else 1 + Find(ss[1..], id)
  }

  function Set(c: Conn, i: nat, s: Stream): Conn
    requires i < |c.streams|
  {
    c.(streams := c.streams[i := s])
  }

  /** Sends RST_STREAM for an entry and marks it. */
  function Reset(c: Conn, i: nat, s: Stream, code: nat): Conn
    requires i < |c.streams|
  {
    StreamError(Set(c, i, s.(reset := true)), s.id, code)
  }

  // ---------------------------------------------------------------------
  // Settings and windows
  // ---------------------------------------------------------------------

  function Widen(s: Stream, delta: int): Stream {
    s.(sendWindow := s.sendWindow + delta)
  }

  datatype Shifted = Shifted(streams: seq<Stream>, overflow: bool)

  /** Moves every window from entry i on by `delta`, stopping at the first that
      overflows. */
  function Shift(ss: seq<Stream>, i: nat, delta: int): (r: Shifted)
    requires i <= |ss|
    ensures |r.streams| == |ss|
    decreases |ss| - i
  {
    if i == |ss| then Shifted(ss, false)
    else
      var s := Widen(ss[i], delta);
      if s.sendWindow > MAX_WINDOW then Shifted(ss[i := s], true) else Shift(ss[i := s], i + 1, delta)
  }

  /** One parameter of a SETTINGS payload. */
  function ApplyOne(c: Conn, id: nat, val: nat): Conn {
    if id == 2 then if val > 1 then Fail(c, PROTOCOL) else c
    else if id == 4 then
      if val > MAX_WINDOW then Fail(c, FLOW)
      else
        var r := Shift(c.streams, 0, val - c.initWindow);
        var c' := c.(initWindow := val, streams := r.streams);
        if r.overflow then Fail(c', FLOW) else c'
    else if id == 5 then if val < MAX_FRAME || val > 0xff_ffff then Fail(c, PROTOCOL) else c
    else c
  }

  function ApplyFrom(c: Conn, payload: Text): Conn
    decreases |payload|
  {
    if |payload| < 6 || c.error != NO_ERROR then c
    else
      ApplyFrom(ApplyOne(c, payload[0] as nat * 256 + payload[1], Rd32(payload[2..6])), payload[6..])
  }

  /** `h2_on_settings` with `h2_apply_settings`. */
  function OnSettings(c: Conn, f: Frame): Conn {
    if f.id != 0 then Fail(c, PROTOCOL)
    else if EndStream(f) then if f.payload != [] then Fail(c, FRAME_SIZE) else c
    else
      var c1 := c.(link := c.link.(gotSettings := true));
      if |f.payload| % 6 != 0 then Fail(c1, FRAME_SIZE)
      else
        var c2 := ApplyFrom(c1, f.payload);
        if c2.error != NO_ERROR then c2 else Emit(c2, Frame(SETTINGS, 1, 0, []))
  }

  /** A non-zero increment for a stream. */
  function WidenStream(c: Conn, id: nat, inc: nat): Conn {
    var i := Find(c.streams, id);
    if i == |c.streams| then if id > c.lastId then Fail(c, PROTOCOL) else c
    else if c.streams[i].reset then c
    else
      var s := Widen(c.streams[i], inc);
      if s.sendWindow > MAX_WINDOW then Reset(c, i, s, FLOW) else Set(c, i, s)
  }

  /** A non-zero increment for the connection. */
  function WidenConn(c: Conn, inc: nat): Conn {
    var c' := c.(sendWindow := c.sendWindow + inc);
    if c'.sendWindow > MAX_WINDOW then Fail(c', FLOW) else c'
  }

  /** `h2_on_window`. A zero increment draws RST_STREAM but resets nothing. */
  function OnWindow(c: Conn, f: Frame): Conn {
    if |f.payload| != 4 then Fail(c, FRAME_SIZE)
    else
      var inc := Rd32(f.payload) % U31;
      if inc == 0 then if f.id == 0 then Fail(c, PROTOCOL) else StreamError(c, f.id, PROTOCOL)
      else if f.id == 0 then WidenConn(c, inc)
      else WidenStream(c, f.id, inc)
  }

  // ---------------------------------------------------------------------
  // Request bodies
  // ---------------------------------------------------------------------

  predicate BadPadding(f: Frame) {
    Padded(f) && (|f.payload| < 1 || f.payload[0] >= |f.payload| - 1)
  }

  /** The octets of an accepted DATA frame join the request body. */
  function Grow(q: Inbound, maxBody: nat, data: Text): Inbound {
    var q1 := q.(bytes := q.bytes + |data|);
    if q1.tooBig then q1
    else if |q1.body| + |data| > maxBody then q1.(tooBig := true)
    else q1.(body := q1.body + data)
  }

  /** An accepted DATA frame of an open stream. */
  function TakeData(c: Conn, maxBody: nat, i: nat, s: Stream, f: Frame): Conn
    requires i < |c.streams|
  {
    var q := Grow(s.req, maxBody, Unpadded(f));
    if !EndStream(f) then Set(c, i, s.(req := q))
    else if q.contentLength >= 0 && q.bytes != q.contentLength then
      Reset(c, i, s.(req := q.(ended := true)), PROTOCOL)
    else Set(c, i, s.(req := q.(ended := true)))
  }

  /** The stream's receive window is charged with every frame. */
  function Charge(s: Stream, len: nat): Stream {
    s.(req := s.req.(recvWindow := s.req.recvWindow - len))
  }

  /** A DATA frame for an entry of the table, once the connection has accounted
      for it. */
  function StreamData(env: Env, c: Conn, i: nat, f: Frame): Conn
    requires i < |c.streams|
  {
    var len := |f.payload|;
    var s := Charge(c.streams[i], len);
    if c.streams[i].reset then c
    else if len > c.streams[i].req.recvWindow then Reset(c, i, s, FLOW)
    else
      var c1 := Emit(c, Frame(WINDOW, 0, f.id, Be32(len)));
      if s.req.ended then Reset(c1, i, s, STREAM_CLOSED) else TakeData(c1, env.maxBody, i, s, f)
  }

  /** A DATA frame finds its entry, if there is one. */
  function RouteData(env: Env, c: Conn, f: Frame): Conn {
    var i := Find(c.streams, f.id);
    if i < |c.streams| then StreamData(env, c, i, f)
    else if f.id > c.lastId then Fail(c, PROTOCOL)
    else StreamError(c, f.id, STREAM_CLOSED)
  }

  /** The connection's receive window is charged, and an update sent for it. */
  function ChargeConn(c: Conn, len: nat): Conn {
    Emit(c.(link := c.link.(recvWindow := c.link.recvWindow - len)), Frame(WINDOW, 0, 0, Be32(len)))
  }

  /** `h2_on_data`. */
  function OnData(env: Env, c: Conn, f: Frame): Conn {
    var len := |f.payload|;
    if f.id == 0 || BadPadding(f) then Fail(c, PROTOCOL)
    else if len > c.link.recvWindow then Fail(c, FLOW)
    else RouteData(env, ChargeConn(c, len), f)
  }

  // ---------------------------------------------------------------------
  // Other frames
  // ---------------------------------------------------------------------

  function OnPriority(c: Conn, f: Frame): Conn {
    if f.id == 0 then Fail(c, PROTOCOL)
    else if |f.payload| == 5 then c
    else if Find(c.streams, f.id) < |c.streams| then StreamError(c, f.id, FRAME_SIZE)
    else Fail(c, PROTOCOL)
  }

  function OnRst(c: Conn, f: Frame): Conn {
    if |f.payload| != 4 then Fail(c, FRAME_SIZE)
    else if f.id == 0 then Fail(c, PROTOCOL)
    else
      var i := Find(c.streams, f.id);
      if i == |c.streams| then if f.id > c.lastId then Fail(c, PROTOCOL) else c
      else Set(c, i, c.streams[i].(reset := true))
  }

  function OnPing(c: Conn, f: Frame): Conn {
    if |f.payload| != 8 then Fail(c, FRAME_SIZE)
    else if f.id != 0 then Fail(c, PROTOCOL)
    else if EndStream(f) then c
    else Emit(c, Frame(PING, 1, 0, f.payload))
  }

  function OnGoaway(c: Conn, f: Frame): Conn {
    if |f.payload| < 8 then Fail(c, FRAME_SIZE)
    else if f.id != 0 then Fail(c, PROTOCOL)
    else c.(link := c.link.(goaway := true, goawayLast := Rd32(f.payload) % U31))
  }

  // ---------------------------------------------------------------------
  // Header blocks
  // ---------------------------------------------------------------------

  function NewStream(window: nat, id: nat, end: bool, r: Built): Stream
    requires r.Request?
  {
    Stream(id, false, window, Inbound(end, false, r.head, r.contentLength, [], 0, INITIAL_WINDOW),
           Outbound(false, false, false, false, Response([], true, [], [], None), Start, 0))
  }

  /** The stream was opened by the last block taken. */
  function Opened(c: Conn, id: nat): Conn {
    c.(link := c.link.(trace := c.link.trace.(opener := c.link.trace.opener[id := |c.link.blocks|])))
  }

  /** A block for a stream that may be opened. */
  function TakeBlock(env: Env, c: Conn, id: nat, end: bool, block: Text): Conn {
    var c1 := c.(link := c.link.(blocks := c.link.blocks + [block]));
    match env.build(c1.link.blocks)
    case Undecodable => Fail(c1, COMPRESSION)
    case Malformed => StreamError(c1, id, PROTOCOL)
    case Request(cl, head) =>
      var c2 := c1.(lastId := id);
      if |c.streams| + 1 > MAX_STREAMS then StreamError(c2, id, REFUSED)
      else Opened(c2.(streams := c2.streams + [NewStream(c.initWindow, id, end, Request(cl, head))]), id)
  }

  /** `h2_on_header_block_finish`. */
  function FinishBlock(env: Env, c: Conn, id: nat, end: bool, block: Text): Conn {
    if id % 2 == 0 then Fail(c, PROTOCOL)
    else if c.link.goaway && id > c.link.goawayLast then StreamError(c, id, REFUSED)
    else if id <= c.lastId then Fail(c, PROTOCOL)
    else if Find(c.streams, id) < |c.streams| then Fail(c, PROTOCOL)
    else TakeBlock(env, c, id, end, block)
  }

  /** `h2_on_headers_start` and `h2_on_cont`. */
  function OnHeaders(env: Env, c: Conn, f: Frame): Conn {
    match Feed(c.hb, f)
    case Err(code, left) => Fail(c.(hb := left), code)
    case Hold(a, cancel) =>
      var c1 := c.(hb := a);
      if cancel then StreamError(c1, f.id, CANCEL) else c1
    case Finished(id, end, block) => FinishBlock(env, c.(hb := NoBlock), id, end, block)
    case GivenUp(cancel) =>
      var c1 := c.(hb := NoBlock);
      if cancel then StreamError(c1, f.id, CANCEL) else c1
  }

  /** The frames that touch neither windows nor bodies nor header blocks. */
  function OnOther(c: Conn, f: Frame): Conn {
    if f.typ == PRIORITY then OnPriority(c, f)
    else if f.typ == RST then OnRst(c, f)
    else if f.typ == PING then OnPing(c, f)
    else if f.typ == GOAWAY then OnGoaway(c, f)
    else if f.typ == PUSH_PROMISE then Fail(c, PROTOCOL)
    else c
  }

  /** The first frame must be SETTINGS, and nothing may interrupt a header block. */
  predicate OutOfTurn(c: Conn, f: Frame) {
    || (!c.link.gotSettings && (f.typ != SETTINGS || EndStream(f)))
    || (c.hb.stream != 0 && (f.typ != CONT || f.id != c.hb.stream))
  }

  function Handle(env: Env, c: Conn, f: Frame): Conn {
    if f.typ == DATA then OnData(env, c, f)
    else if f.typ == HEADERS || f.typ == CONT then OnHeaders(env, c, f)
    else if f.typ == SETTINGS then OnSettings(c, f)
    else if f.typ == WINDOW then OnWindow(c, f)
    else OnOther(c, f)
  }

  /** `h2_process_frame`. */
  function Process(env: Env, c0: Conn, f: Frame): Conn {
    var c := c0.(log := c0.log + [Recv(f)]);
    if OutOfTurn(c, f) then Fail(c, PROTOCOL) else Handle(env, c, f)
  }

  // ---------------------------------------------------------------------
  // Dispatch
  // ---------------------------------------------------------------------

  /** `last` of the pump: nothing but the head will be sent. */
  function PlanFor(res: Response, head: bool): Plan {
    var last := res.bare || head || !(Streaming(res) || res.body != []);
    Plan(res.block, last, if last then [] else WholeBody(res))
  }

  predicate Dispatchable(s: Stream) {
    !s.out.dispatched && !s.reset && s.req.ended
  }

  /** An entry gets its response; `at` is when the server turned to it. */
  function Answer(c: Conn, i: nat, res: Response, at: nat): Conn
    requires i < |c.streams|
  {
    var s := c.streams[i];
    Set(c, i, s.(out := s.out.(dispatched := true, ready := true, res := res)))
      .(served := c.served[s.id := PlanFor(res, s.req.head)],
        link := c.link.(trace := c.link.trace.(answered := c.link.trace.answered[s.id := at])))
  }

  predicate TooLarge(env: Env, q: Inbound) {
    q.tooBig || (q.contentLength >= 0 && q.contentLength > env.maxBody)
  }

  function DispatchOne(env: Env, c: Conn, i: nat): (r: Conn)
    requires i < |c.streams|
    ensures |r.streams| == |c.streams| && r.lastId == c.lastId
  {
    var s := c.streams[i];
    if !Dispatchable(s) then c
    else if TooLarge(env, s.req) then Answer(c, i, env.tooLarge, |c.log|)
    else
      match env.inflate(s.id, s.req.body)
      case Corrupt => Answer(c, i, env.badRequest, |c.log|)
      case Swollen => Answer(c, i, env.tooLarge, |c.log|)
      case Inflated(body) =>
        Answer(c.(log := c.log + [Handled(s.id, s.req.body)]), i, env.handler(s.id, body), |c.log|)
  }

  function DispatchFrom(env: Env, c: Conn, i: nat): (r: Conn)
    requires i <= |c.streams|
    ensures |r.streams| == |c.streams| && r.lastId == c.lastId
    decreases |c.streams| - i
  {
    if i == |c.streams| then c else DispatchFrom(env, DispatchOne(env, c, i), i + 1)
  }

  /** `h2_dispatch_ready`. */
  function Dispatch(env: Env, c: Conn): (r: Conn)
    ensures |r.streams| == |c.streams| && r.lastId == c.lastId
  {
    if c.error != NO_ERROR then c else DispatchFrom(env, c, 0)
  }

  // ---------------------------------------------------------------------
  // The pump
  // ---------------------------------------------------------------------

  predicate Placed(res: Response, at: Cursor) {
    && at.queueI <= |res.chunks|
    && (if at.queueI < |res.chunks| then at.queueOff <= |res.chunks[at.queueI]| else at.queueOff == 0)
    && at.bodyOff <= |res.body|
    && (res.producer.Some? ==> at.fnOff <= |res.producer.value.content|)
    && (at.fnEof ==> res.producer.Some? && at.fnOff == |res.producer.value.content|)
    && (at.fnOff > 0 || at.fnEof ==> at.queueI == |res.chunks|)
  }

  /** Steps over used-up chunks. */
  function SkipUsed(res: Response, at: Cursor): (r: Cursor)
    requires Placed(res, at)
    ensures Placed(res, r)
    ensures r.queueI < |res.chunks| ==> r.queueOff < |res.chunks[r.queueI]|
    decreases |res.chunks| - at.queueI
  {
    if at.queueI < |res.chunks| && at.queueOff == |res.chunks[at.queueI]|
    then SkipUsed(res, at.(queueI := at.queueI + 1, queueOff := 0))
    else at
  }

  /** `h2_next_data`: wait for room, or a payload and whether the body is over. */
  datatype Next = Blocked(at: Cursor) | Piece(at: Cursor, payload: Text, eof: bool)

  function Cap(room: int): nat {
    if room > MAX_FRAME then MAX_FRAME else if room < 0 then 0 else room
  }

  /** The cursor once `take` octets of the current chunk are gone. */
  function PastChunk(chunks: seq<Text>, at: Cursor, take: nat): Cursor
    requires at.queueI < |chunks|
  {
    var off := at.queueOff + take;
    if off == |chunks[at.queueI]| then at.(queueI := at.queueI + 1, queueOff := 0) else at.(queueOff := off)
  }

  function NextChunk(res: Response, at: Cursor, room: int): Next
    requires Placed(res, at) && at.queueI < |res.chunks| && at.queueOff < |res.chunks[at.queueI]|
  {
    var ch := res.chunks[at.queueI];
    var rem := |ch| - at.queueOff;
    if room <= 0 then Blocked(at)
    else
      var take := if rem < Cap(room) then rem else Cap(room);
      var at' := PastChunk(res.chunks, at, take);
      Piece(at', ch[at.queueOff..at.queueOff + take], at'.queueI >= |res.chunks| && res.producer.None?)
  }

  function NextProduced(p: Producer, at: Cursor, room: int): Next
    requires at.fnOff <= |p.content|
  {
    if at.fnEof then Piece(at, [], true)
    else if room <= 0 then Blocked(at)
    else
      var got := Produced(p, at.fnOff, Cap(room));
      if got == [] then Piece(at.(fnEof := true), [], true)
      else Piece(at.(fnOff := at.fnOff + |got|), got, false)
  }

  function NextBody(body: Text, at: Cursor, room: int): Next
    requires at.bodyOff <= |body|
  {
    var rem := |body| - at.bodyOff;
    if rem == 0 then Piece(at, [], true)
    else if room <= 0 then Blocked(at)
    else
      var take := if rem < Cap(room) then rem else Cap(room);
      var off := at.bodyOff + take;
      Piece(at.(bodyOff := off), body[at.bodyOff..off], off >= |body|)
  }

  function NextData(res: Response, at0: Cursor, room: int): Next
    requires Placed(res, at0)
  {
    if Streaming(res) then
      var at := SkipUsed(res, at0);
      if at.queueI < |res.chunks| then NextChunk(res, at, room)
      else if res.producer.None? then Piece(at, [], true)
      else NextProduced(res.producer.value, at, room)
    else NextBody(res.body, at0, room)
  }

  /** What a cursor has not handed out yet. */
  function Left(res: Response, at: Cursor): Text
    requires Placed(res, at)
  {
    if Streaming(res) then ChunksLeft(res.chunks, at) + ContentLeft(res.producer, at)
    else res.body[at.bodyOff..]
  }

  function ChunksLeft(chunks: seq<Text>, at: Cursor): Text
    requires at.queueI < |chunks| ==> at.queueOff <= |chunks[at.queueI]|
  {
    if at.queueI < |chunks| then chunks[at.queueI][at.queueOff..] + Flatten(chunks[at.queueI + 1..]) else []
  }

  function ContentLeft(producer: Option<Producer>, at: Cursor): Text
    requires producer.Some? ==> at.fnOff <= |producer.value.content|
  {
    if producer.Some? then producer.value.content[at.fnOff..] else []
  }

  function LeftCount(o: Outbound): nat {
    if Placed(o.res, o.at) then |Left(o.res, o.at)| else 0
  }

  lemma {:induction false} SkipUsedKeepsLeft(res: Response, at: Cursor)
    requires Placed(res, at)
    ensures ChunksLeft(res.chunks, SkipUsed(res, at)) == ChunksLeft(res.chunks, at)
    ensures SkipUsed(res, at).fnOff == at.fnOff && SkipUsed(res, at).fnEof == at.fnEof
    decreases |res.chunks| - at.queueI
  {
    if at.queueI < |res.chunks| && at.queueOff == |res.chunks[at.queueI]| {
      SkipUsedKeepsLeft(res, at.(queueI := at.queueI + 1, queueOff := 0));
      NextChunkFromStart(res.chunks, at.queueI + 1);
    }
  }

  lemma {:induction false} NextChunkFromStart(chunks: seq<Text>, k: nat)
    requires k <= |chunks|
    ensures Flatten(chunks[k..]) == if k == |chunks| then [] else chunks[k][0..] + Flatten(chunks[k + 1..])
  {
    if k < |chunks| {
      assert chunks[k..][1..] == chunks[k + 1..];
      assert chunks[k][0..] == chunks[k];
    }
  }

  /** The next piece is the front of what is left, fits the room, and is marked as
      the last one only when nothing remains; only a missing window blocks. */
  ghost predicate Advances(res: Response, at: Cursor, room: int, n: Next)
    requires Placed(res, at)
  {
    && Placed(res, n.at)
    && (n.Blocked? ==> room <= 0 && Left(res, n.at) == Left(res, at))
    && (n.Piece? ==>
          && n.payload + Left(res, n.at) == Left(res, at)
          && |n.payload| <= MAX_FRAME
          && (n.payload != [] ==> |n.payload| <= room)
          && (n.eof ==> Left(res, n.at) == [] && (res.producer.Some? ==> n.at.fnEof))
          && (!n.eof ==> n.payload != []))
  }

  lemma {:induction false} TakeFront(text: Text, a: nat, b: nat, more: Text, rest: Text)
    requires a <= b <= |text|
    ensures text[a..b] + (text[b..] + more + rest) == text[a..] + more + rest
  {
    assert text[a..b] + text[b..] == text[a..];
  }

  /** What is left of the chunks once some of the current one is taken. */
  lemma {:induction false} ChunkLeaves(chunks: seq<Text>, at: Cursor, take: nat)
    requires at.queueI < |chunks| && at.queueOff + take <= |chunks[at.queueI]|
    ensures ChunksLeft(chunks, PastChunk(chunks, at, take))
            == chunks[at.queueI][at.queueOff + take..] + Flatten(chunks[at.queueI + 1..])
  {
    if at.queueOff + take == |chunks[at.queueI]| {
      NextChunkFromStart(chunks, at.queueI + 1);
      assert chunks[at.queueI][at.queueOff + take..] == [];
    }
  }

  lemma {:induction false} ChunkText(res: Response, at: Cursor, take: nat)
    requires Placed(res, at) && at.queueI < |res.chunks| && at.queueOff + take <= |res.chunks[at.queueI]|
    ensures var at' := PastChunk(res.chunks, at, take);
            && Placed(res, at')
            && res.chunks[at.queueI][at.queueOff..at.queueOff + take] + Left(res, at') == Left(res, at)
  {
    var more := Flatten(res.chunks[at.queueI + 1..]);
    ChunkLeaves(res.chunks, at, take);
    TakeFront(res.chunks[at.queueI], at.queueOff, at.queueOff + take, more, ContentLeft(res.producer, at));
  }

  lemma {:induction false} ChunkAdvances(res: Response, at: Cursor, room: int)
    requires Placed(res, at) && at.queueI < |res.chunks| && at.queueOff < |res.chunks[at.queueI]|
    ensures Advances(res, at, room, NextChunk(res, at, room))
  {
    var n := NextChunk(res, at, room);
    if n.Piece? {
      ChunkText(res, at, |n.payload|);
    }
  }

  lemma {:induction false} ProducedAdvances(res: Response, at: Cursor, room: int)
    requires Placed(res, at) && at.queueI == |res.chunks| && res.producer.Some?
    ensures Advances(res, at, room, NextProduced(res.producer.value, at, room))
  {
    var p := res.producer.value;
    var n := NextProduced(p, at, room);
    if n.Piece? && !n.eof {
      assert n.payload + p.content[n.at.fnOff..] == p.content[at.fnOff..];
    }
  }

  lemma {:induction false} BodyAdvances(res: Response, at: Cursor, room: int)
    requires Placed(res, at) && !Streaming(res)
    ensures Advances(res, at, room, NextBody(res.body, at, room))
  {
    var n := NextBody(res.body, at, room);
    if n.Piece? {
      assert n.payload + res.body[n.at.bodyOff..] == res.body[at.bodyOff..];
    }
  }

  lemma {:induction false} NextDataAdvances(res: Response, at: Cursor, room: int)
    requires Placed(res, at)
    ensures Advances(res, at, room, NextData(res, at, room))
  {
    if Streaming(res) {
      SkipUsedKeepsLeft(res, at);
      var at1 := SkipUsed(res, at);
      assert Left(res, at1) == Left(res, at);
      if at1.queueI < |res.chunks| {
        ChunkAdvances(res, at1, room);
      } else if res.producer.Some? {
        ProducedAdvances(res, at1, room);
      }
    } else {
      BodyAdvances(res, at, room);
    }
  }

  /** A cursor at which sending stops for want of a window, whatever the shortage. */
  predicate Held(res: Response, at: Cursor) {
    Placed(res, at) && NextData(res, at, 0) == Blocked(at)
  }

  lemma {:induction false} SkipUsedTwice(res: Response, at: Cursor)
    requires Placed(res, at)
    ensures SkipUsed(res, SkipUsed(res, at)) == SkipUsed(res, at)
    decreases |res.chunks| - at.queueI
  {
    if at.queueI < |res.chunks| && at.queueOff == |res.chunks[at.queueI]| {
      SkipUsedTwice(res, at.(queueI := at.queueI + 1, queueOff := 0));
    }
  }

  /** Where sending blocks, it is held. */
  lemma {:induction false} BlockedIsHeld(res: Response, at: Cursor, room: int)
    requires Placed(res, at) && NextData(res, at, room).Blocked?
    ensures room <= 0 && Held(res, NextData(res, at, room).at)
  {
    if Streaming(res) {
      SkipUsedTwice(res, at);
    }
  }

  /** A cursor that is held stays so while there is no room. */
  lemma {:induction false} HeldStays(res: Response, at: Cursor, room: int)
    requires Held(res, at) && room <= 0
    ensures NextData(res, at, room) == Blocked(at)
  {
  }

  /** When the whole body is out, only a producer that has not yet said so is held. */
  lemma {:induction false} HeldAtTheEnd(res: Response, at: Cursor)
    requires Held(res, at) && Left(res, at) == []
    ensures res.producer.Some? && !at.fnEof
  {
  }

  function Room(c: Conn, s: Stream): int {
    if s.sendWindow < c.sendWindow then s.sendWindow else c.sendWindow
  }

  /** `h2_send_data`, and the end of the response when this was its last frame. */
  function SendData(c: Conn, i: nat, at: Cursor, payload: Text, eof: bool): (r: Conn)
    requires i < |c.streams|
    ensures |r.streams| == |c.streams| && r.lastId == c.lastId
  {
    var s := c.streams[i];
    var o := s.out.(at := at, sent := s.out.sent + |payload|, ended := eof, ready := !eof);
    Emit(Set(c, i, Widen(s, -|payload|).(out := o)).(sendWindow := c.sendWindow - |payload|),
         Frame(DATA, if eof then 1 else 0, s.id, payload))
  }

  /** The sending loop over one stream. Cursors are always placed; saying so here
      makes the loop's progress visible. */
  function DataLoop(c: Conn, i: nat): (r: Conn)
    requires i < |c.streams|
    ensures |r.streams| == |c.streams| && r.lastId == c.lastId
    decreases LeftCount(c.streams[i].out)
  {
    var s := c.streams[i];
    if !Placed(s.out.res, s.out.at) then c
    else
      NextDataAdvances(s.out.res, s.out.at, Room(c, s));
      match NextData(s.out.res, s.out.at, Room(c, s))
      case Blocked(at) => Set(c, i, s.(out := s.out.(at := at)))
      case Piece(at, payload, eof) =>
        var c' := SendData(c, i, at, payload, eof);
        if eof then c' else DataLoop(c', i)
  }

  function SendHead(c: Conn, i: nat): (r: Conn)
    requires i < |c.streams|
    ensures |r.streams| == |c.streams| && r.lastId == c.lastId
  {
    var s := c.streams[i];
    var plan := PlanFor(s.out.res, s.req.head);
    var o := s.out.(headersSent := true, at := s.out.at.(bodyOff := 0), ended := plan.last, ready := !plan.last);
    EmitAll(Set(c, i, s.(out := o)), HeadFrames(s.id, plan.block, plan.last))
  }

  function EmitAll(c: Conn, frames: seq<Frame>): (r: Conn)
    ensures r.streams == c.streams && r.lastId == c.lastId
    decreases |frames|
  {
    if frames == [] then c else EmitAll(Emit(c, frames[0]), frames[1..])
  }

  predicate Pumpable(s: Stream) {
    !s.reset && !s.out.ended && s.out.ready
  }

  function PumpOne(c: Conn, i: nat): (r: Conn)
    requires i < |c.streams|
    ensures |r.streams| == |c.streams| && r.lastId == c.lastId
  {
    if !Pumpable(c.streams[i]) then c
    else
      var c1 := if c.streams[i].out.headersSent then c else SendHead(c, i);
      if c1.streams[i].out.ended then c1 else DataLoop(c1, i)
  }

  function PumpFrom(c: Conn, i: nat): (r: Conn)
    requires i <= |c.streams|
    ensures |r.streams| == |c.streams| && r.lastId == c.lastId
    decreases |c.streams| - i
  {
    if i == |c.streams| then c else PumpFrom(PumpOne(c, i), i + 1)
  }

  /** `h2_pump`. */
  function Pump(c: Conn): (r: Conn)
    ensures |r.streams| == |c.streams| && r.lastId == c.lastId
  {
    if c.error != NO_ERROR then c else PumpFrom(c, 0)
  }

  // ---------------------------------------------------------------------
  // The sweep and the loop of h2_serve
  // ---------------------------------------------------------------------

  predicate Over(s: Stream) {
    s.reset || (s.out.ended && s.req.ended)
  }

  /** `h2_sweep`, from entry i - 1 down. */
  function SweepFrom(ss: seq<Stream>, i: nat): seq<Stream>
    requires i <= |ss|
    decreases i
  {
    if i == 0 then ss
    else SweepFrom(if Over(ss[i - 1]) then SwapRemove(ss, i - 1) else ss, i - 1)
  }

  function Sweep(c: Conn): Conn {
    c.(streams := SweepFrom(c.streams, |c.streams|))
  }

  /** One frame, then dispatch, pump and sweep, as the serving loop does. */
  function Step(env: Env, c: Conn, f: Frame): Conn {
    if c.error != NO_ERROR then c
    else
      var c1 := Process(env, c, f);
      if c1.error != NO_ERROR then c1 else Sweep(Pump(Dispatch(env, c1)))
  }

  function Run(env: Env, frames: seq<Frame>): Conn {
    if frames == [] then Init() else Step(env, Run(env, frames[..|frames| - 1]), frames[|frames| - 1])
  }
}
