/** What holds of every reachable HTTP/2 connection: the server's own counters
    agree with the windows an observer computes from the frames, responses are
    delivered in order, and whole by the time they are ended, handlers run once on
    what the peer sent, and the stream table stays small and free of duplicates. */
module H2Safety {
  import opened Bytes
  import opened H2Frames
  import opened H2Log
  import opened H2Conn

  // ---------------------------------------------------------------------
  // Invariants
  // ---------------------------------------------------------------------

  /** DATA frames carrying a prefix of the planned body; END_STREAM only on the
      last one, and only when the prefix is the whole body. */
  ghost predicate DataOk(id: nat, plan: Plan, data: seq<Frame>) {
    && (forall k :: 0 <= k < |data| ==> data[k].typ == DATA && data[k].id == id && data[k].flags <= 1)
    && (forall k :: 0 <= k < |data| - 1 ==> data[k].flags == 0)
    && PrefixOk(plan, Payloads(data), data != [] && data[|data| - 1].flags == 1)
    && (plan.last ==> data == [])
  }

  ghost predicate PrefixOk(plan: Plan, sent: Text, ended: bool) {
    sent <= plan.body && (ended ==> sent == plan.body)
  }

  /** The response frames of a stream: none yet, or the whole head and then data. */
  ghost predicate Delivery(id: nat, plan: Plan, t: Track) {
    || (t.head == [] && t.data == [])
    || (t.head == HeadFrames(id, plan.block, plan.last) && DataOk(id, plan, t.data))
  }

  ghost predicate IdOk(served: map<nat, Plan>, id: nat, t: Track) {
    if id in served then served[id].block != [] && Delivery(id, served[id], t)
    else t.head == [] && t.data == [] && !t.handled
  }

  /** True of every reachable state, failed connections included. */
  ghost predicate Safe(env: Env, c: Conn) {
    && Lawful(env.maxBody, c.log)
    && forall id: nat :: IdOk(c.served, id, Follow(c.log, id))
  }

  ghost predicate RequestOk(maxBody: nat, t: Track, q: Inbound) {
    && (q.ended ==> t.ended)
    && q.bytes == |t.received|
    && (q.tooBig <==> |t.received| > maxBody)
    && (!q.tooBig ==> q.body == t.received)
  }

  /** A response whose head is out and whose body is not over. */
  ghost predicate Underway(t: Track, plan: Plan, o: Outbound)
    requires Placed(o.res, o.at)
  {
    && !plan.last
    && (forall k :: 0 <= k < |t.data| ==> t.data[k].flags == 0)
    && Payloads(t.data) + Left(o.res, o.at) == plan.body
  }

  /** A body is over only when its producer has said so. */
  ghost predicate FullyAsked(o: Outbound, last: bool) {
    last || o.res.producer.None? || o.at.fnEof
  }

  ghost predicate ResponseOk(t: Track, served: map<nat, Plan>, s: Stream) {
    var o := s.out;
    && o.sent == |Payloads(t.data)|
    && (o.dispatched <==> s.id in served)
    && (o.dispatched ==> s.req.ended && served[s.id] == PlanFor(o.res, s.req.head))
    && (o.ready <==> o.dispatched && !o.ended)
    && Placed(o.res, o.at)
    && (!o.headersSent ==> !o.ended && t.head == [] && o.at == Start)
    && (o.headersSent ==> o.dispatched && t.head != [])
    && (o.headersSent && !o.ended ==> Underway(t, served[s.id], o))
    && (o.ended ==> Closed(t) && FullyAsked(o, PlanFor(o.res, s.req.head).last))
  }

  ghost predicate StreamOk(maxBody: nat, b: Ledger, t: Track, served: map<nat, Plan>, s: Stream) {
    s.sendWindow == StreamWindow(b, t) && RequestOk(maxBody, t, s.req) && ResponseOk(t, served, s)
  }

  /** Entries about to be swept are exempt. */
  ghost predicate EntryOk(maxBody: nat, b: Ledger, t: Track, served: map<nat, Plan>, s: Stream) {
    s.reset || StreamOk(maxBody, b, t, served, s)
  }

  /** A stream the client may still open. */
  ghost predicate Fresh(t: Track) {
    t.credit == 0 && t.received == []
  }

  ghost predicate IdsOk(ss: seq<Stream>, lastId: nat) {
    && (forall i :: 0 <= i < |ss| ==> 0 < ss[i].id <= lastId && ss[i].id % 2 == 1)
    && forall i, j :: 0 <= i < j < |ss| ==> ss[i].id != ss[j].id
  }

  /** True while no connection error has occurred. */
  ghost predicate Live(env: Env, c: Conn) {
    && c.error == NO_ERROR
    && c.sendWindow == Books(c.log).window
    && c.initWindow == Books(c.log).init
    && IdsOk(c.streams, c.lastId)
    && |c.streams| <= MAX_STREAMS
    && (forall i :: 0 <= i < |c.streams| ==>
          EntryOk(env.maxBody, Books(c.log), Follow(c.log, c.streams[i].id), c.served, c.streams[i]))
    && (forall id: nat :: id > c.lastId ==> id !in c.served && Fresh(Follow(c.log, id)))
    && (c.hb.stream != 0 && c.hb.end ==> Follow(c.log, c.hb.stream).ended)
  }

  /** Nothing more can be sent now: the response is over, or its head is out and its
      body waits for a window. */
  ghost predicate Stalled(c: Conn, s: Stream) {
    Pumpable(s) ==> s.out.headersSent && Room(c, s) <= 0 && Held(s.out.res, s.out.at)
  }

  /** Between two frames: no entry is over, none waits for its response, and none has
      anything to send that a window would let out. */
  ghost predicate Idle(c: Conn) {
    forall i :: 0 <= i < |c.streams| ==>
      !Over(c.streams[i]) && !Dispatchable(c.streams[i]) && Stalled(c, c.streams[i])
  }
}
