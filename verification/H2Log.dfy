/** What an observer of an HTTP/2 connection can say. */
module H2Log {
  // From the frames alone: the flow-control windows of section 6.9 of RFC 7540, what
  // each stream received and sent, and which behaviour is lawful. Nothing here looks at
  // the server's own counters.

  import opened Bytes
  import opened H2Frames

  const INITIAL_WINDOW: nat := 65535

  /** Frames in both directions and handler calls, oldest first. */
  datatype Event =
    | Recv(f: Frame)
    | Sent(f: Frame)
    | Handled(id: nat, body: Text)

  // ---------------------------------------------------------------------
  // The connection
  // ---------------------------------------------------------------------

  /** The connection's send window and the initial window of new streams. */
  datatype Ledger = Ledger(window: int, init: nat)

  function Increment(f: Frame): nat {
    if f.typ == WINDOW && |f.payload| == 4 then Rd32(f.payload) % U31 else 0
  }

  /** SETTINGS_INITIAL_WINDOW_SIZE after the parameters of one payload. */
  function InitAfter(payload: Text, init: nat): nat
    decreases |payload|
  {
    if |payload| < 6 then init
    else
      InitAfter(payload[6..],
                if payload[0] == 0 && payload[1] == 4 then Rd32(payload[2..6]) else init)
  }

  function LedgerStep(l: Ledger, e: Event): Ledger {
    match e
    case Recv(f) =>
      if f.typ == WINDOW && f.id == 0 then l.(window := l.window + Increment(f))
      else if f.typ == SETTINGS && !EndStream(f) then l.(init := InitAfter(f.payload, l.init))
      else l
    case Sent(f) => if f.typ == DATA then l.(window := l.window - |f.payload|) else l
    case Handled(_, _) => l
  }

  function Books(log: seq<Event>): Ledger {
    if log == [] then Ledger(INITIAL_WINDOW, INITIAL_WINDOW)
    else LedgerStep(Books(log[..|log| - 1]), log[|log| - 1])
  }

  // ---------------------------------------------------------------------
  // One stream
  // ---------------------------------------------------------------------

  /** Increments received for the stream, request octets received, whether the
      peer ended it, whether its handler ran, and the response frames sent. */
  datatype Track = Track(credit: nat, received: Text, ended: bool, handled: bool,
                         head: seq<Frame>, data: seq<Frame>)

  const Untouched: Track := Track(0, [], false, false, [], [])

  /** The octets of a DATA frame without its padding. */
  function Unpadded(f: Frame): Text {
    if !Padded(f) then f.payload
    else if |f.payload| >= 1 && f.payload[0] < |f.payload| - 1 then f.payload[1..|f.payload| - f.payload[0]]
    else []
  }

  function TrackStep(t: Track, e: Event, id: nat): Track {
    match e
    case Recv(f) =>
      if f.id != id then t
      else if f.typ == WINDOW then t.(credit := t.credit + Increment(f))
      else if f.typ == DATA then t.(received := t.received + Unpadded(f), ended := t.ended || EndStream(f))
      else if f.typ == HEADERS then t.(ended := t.ended || EndStream(f))
      else t
    case Sent(f) =>
      if f.id != id then t
      else if f.typ == DATA then t.(data := t.data + [f])
      else if f.typ == HEADERS || f.typ == CONT then t.(head := t.head + [f])
      else t
    case Handled(i, _) => if i == id then t.(handled := true) else t
  }

  function Follow(log: seq<Event>, id: nat): Track {
    if log == [] then Untouched
    else TrackStep(Follow(log[..|log| - 1], id), log[|log| - 1], id)
  }

  function Payloads(frames: seq<Frame>): Text {
    if frames == [] then [] else Payloads(frames[..|frames| - 1]) + frames[|frames| - 1].payload
  }

  /** The send window of a stream. */
  function StreamWindow(l: Ledger, t: Track): int {
    l.init + t.credit - |Payloads(t.data)|
  }

  // ---------------------------------------------------------------------
  // Lawful logs
  // ---------------------------------------------------------------------

  ghost predicate Closed(t: Track) {
    || (t.head != [] && EndStream(t.head[0]))
    || (t.data != [] && EndStream(t.data[|t.data| - 1]))
  }

  /** What may happen next. DATA follows a complete head, stays within the frame
      size and both windows, and nothing follows END_STREAM; a handler runs once,
      after the peer ended the stream, on exactly what the peer sent. */
  ghost predicate Allowed(maxBody: nat, l: Ledger, t: Track, e: Event) {
    match e
    case Recv(_) => true
    case Sent(f) =>
      if f.typ == DATA then
        && t.head != [] && EndHeaders(t.head[|t.head| - 1]) && !Closed(t)
        && |f.payload| <= MAX_FRAME
        && (f.payload != [] ==> |f.payload| <= l.window && |f.payload| <= StreamWindow(l, t))
      else if f.typ == HEADERS then t.head == [] && t.data == []
      else if f.typ == CONT then t.head != [] && t.data == [] && !EndHeaders(t.head[|t.head| - 1])
      else true
    case Handled(_, body) => !t.handled && t.ended && body == t.received && |body| <= maxBody
  }

  function Subject(e: Event): nat {
    match e
    case Recv(f) => f.id
    case Sent(f) => f.id
    case Handled(id, _) => id
  }

  /** Every event was allowed by everything before it. */
  ghost predicate Lawful(maxBody: nat, log: seq<Event>) {
    log != [] ==>
      var before := log[..|log| - 1];
      var e := log[|log| - 1];
      Lawful(maxBody, before) && Allowed(maxBody, Books(before), Follow(before, Subject(e)), e)
  }

  /** One more event. */
  lemma {:induction false} Append(maxBody: nat, log: seq<Event>, e: Event)
    ensures Books(log + [e]) == LedgerStep(Books(log), e)
    ensures forall id: nat :: Follow(log + [e], id) == TrackStep(Follow(log, id), e, id)
    ensures Lawful(maxBody, log + [e])
            <==> Lawful(maxBody, log) && Allowed(maxBody, Books(log), Follow(log, Subject(e)), e)
  {
    assert (log + [e])[..|log|] == log;
  }

  /** Lawfulness read at any point of the log: no DATA frame ever exceeded the
      windows of that moment. */
  lemma {:induction false} LawfulAt(maxBody: nat, log: seq<Event>, k: nat)
    requires Lawful(maxBody, log) && k < |log|
    ensures Allowed(maxBody, Books(log[..k]), Follow(log[..k], Subject(log[k])), log[k])
  {
    if k < |log| - 1 {
      LawfulAt(maxBody, log[..|log| - 1], k);
      assert log[..|log| - 1][..k] == log[..k];
    }
  }

  lemma {:induction false} PayloadsAppend(frames: seq<Frame>, f: Frame)
    ensures Payloads(frames + [f]) == Payloads(frames) + f.payload
  {
    assert (frames + [f])[..|frames|] == frames;
  }

  // ---------------------------------------------------------------------
  // Frames that carry no part of a response
  // ---------------------------------------------------------------------

  predicate Control(f: Frame) {
    f.typ != DATA && f.typ != HEADERS && f.typ != CONT
  }

  /** `log'` continues `log` with control frames sent. */
  ghost predicate ControlsAfter(log: seq<Event>, log': seq<Event>) {
    && log <= log'
    && forall k :: |log| <= k < |log'| ==> log'[k].Sent? && Control(log'[k].f)
  }

  /** Control frames change nobody's account. */
  lemma {:induction false} ControlsKeep(maxBody: nat, log: seq<Event>, log': seq<Event>)
    requires ControlsAfter(log, log')
    ensures Books(log') == Books(log)
    ensures forall id: nat :: Follow(log', id) == Follow(log, id)
    ensures Lawful(maxBody, log') <==> Lawful(maxBody, log)
    decreases |log'|
  {
    if |log'| == |log| {
      assert log' == log;
    } else {
      var front := log'[..|log'| - 1];
      ControlsKeep(maxBody, log, front);
      Append(maxBody, front, log'[|log'| - 1]);
      assert front + [log'[|log'| - 1]] == log';
    }
  }
}
