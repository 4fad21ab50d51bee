/** Server-side sessions: a write-through cache over the file-backed store. */
module Session {
  import opened Bytes
  import opened Views
  import Digits

  const NUL: byte := 0
  const LF: byte := 10
  const PREFIX: Text := [115, 101, 115, 115, 105, 111, 110, 45] // "session-"
  const TOKEN_LEN: nat := 40
  const KEY_CAP: nat := 63

  // ---------------------------------------------------------------------
  // Records
  // ---------------------------------------------------------------------

  /** Keys and values are appended as C strings, so each is cut at a NUL. */
  function Lines(pairs: seq<(Text, Text)>): Text {
    if pairs == [] then []
    else Before(pairs[0].0, NUL) + [LF] + (Before(pairs[0].1, NUL) + [LF] + Lines(pairs[1..]))
  }

  /** `session_to_db`: the expiry, then key and value lines in slot order. */
  function Encode(expires: int, pairs: seq<(Text, Text)>): Text {
    Digits.Signed(expires) + [LF] + Lines(pairs)
  }

  /** The loop of `session_from_db`. */
  function ReadPairs(s: Text, m: map<Text, Text>): map<Text, Text>
    decreases |s|
  {
    if s == [] then m
    else
      var rest := After(s, LF);
      if rest == [] then m else ReadPairs(After(rest, LF), m[Before(s, LF) := Before(rest, LF)])
  }

  datatype Session = Session(data: map<Text, Text>, expires: int)

  /** `session_from_db`; an expiry that does not parse counts as never. */
  function Decode(blob: Text): Session {
    var e := Digits.ToInt(Before(blob, LF));
    Session(ReadPairs(After(blob, LF), map[]), if e.Some? then e.value else 0)
  }

  function MapOf(pairs: seq<(Text, Text)>, m: map<Text, Text>): map<Text, Text> {
    if pairs == [] then m else MapOf(pairs[1..], m[pairs[0].0 := pairs[0].1])
  }

  /** The pairs list the map, each key once, in whatever order its slots are. */
  ghost predicate Enumerates(pairs: seq<(Text, Text)>, m: map<Text, Text>) {
    && MapOf(pairs, map[]) == m
    && forall i, j :: 0 <= i < j < |pairs| ==> pairs[i].0 != pairs[j].0
  }

  /** Text that a line of a record can hold. */
  predicate Plain(t: Text) {
    LF !in t && NUL !in t
  }

  ghost predicate OneLine(m: map<Text, Text>) {
    forall k :: k in m ==> Plain(k) && Plain(m[k])
  }

  lemma {:induction false} ReadLines(pairs: seq<(Text, Text)>, m: map<Text, Text>)
    requires forall i :: 0 <= i < |pairs| ==> Plain(pairs[i].0) && Plain(pairs[i].1)
    ensures ReadPairs(Lines(pairs), m) == MapOf(pairs, m)
    decreases |pairs|
  {
    if pairs != [] {
      var tail := pairs[0].1 + [LF] + Lines(pairs[1..]);
      ChopWhole(pairs[0].0, NUL);
      ChopWhole(pairs[0].1, NUL);
      ChopAt(pairs[0].0, LF, tail);
      ChopAt(pairs[0].1, LF, Lines(pairs[1..]));
      ReadLines(pairs[1..], m[pairs[0].0 := pairs[0].1]);
    }
  }

  lemma {:induction false} LinesHoldNoNul(pairs: seq<(Text, Text)>)
    ensures NUL !in Lines(pairs)
  {
    if pairs != [] {
      LinesHoldNoNul(pairs[1..]);
    }
  }

  lemma {:induction false} ChopHoldsNoNul(s: Text, delim: byte)
    requires NUL !in s
    ensures NUL !in Before(s, delim) && NUL !in After(s, delim)
  {
    if s != [] {
      ChopHoldsNoNul(s[1..], delim);
    }
  }

  lemma {:induction false} ReadOneLine(s: Text, m: map<Text, Text>)
    requires OneLine(m) && NUL !in s
    ensures OneLine(ReadPairs(s, m))
    decreases |s|
  {
    if s != [] && After(s, LF) != [] {
      var rest := After(s, LF);
      ChopHoldsNoNul(s, LF);
      ChopHoldsNoNul(rest, LF);
      ReadOneLine(After(rest, LF), m[Before(s, LF) := Before(rest, LF)]);
    }
  }

  lemma {:induction false} MapOfKeeps(pairs: seq<(Text, Text)>, m: map<Text, Text>, k: Text)
    requires k in m && forall i :: 0 <= i < |pairs| ==> pairs[i].0 != k
    ensures k in MapOf(pairs, m) && MapOf(pairs, m)[k] == m[k]
    decreases |pairs|
  {
    if pairs != [] {
      MapOfKeeps(pairs[1..], m[pairs[0].0 := pairs[0].1], k);
    }
  }

  lemma {:induction false} MapOfHas(pairs: seq<(Text, Text)>, m: map<Text, Text>, i: nat)
    requires i < |pairs| && forall i, j :: 0 <= i < j < |pairs| ==> pairs[i].0 != pairs[j].0
    ensures pairs[i].0 in MapOf(pairs, m) && MapOf(pairs, m)[pairs[i].0] == pairs[i].1
    decreases |pairs|
  {
    var next := m[pairs[0].0 := pairs[0].1];
    if i == 0 {
      MapOfKeeps(pairs[1..], next, pairs[0].0);
    } else {
      MapOfHas(pairs[1..], next, i - 1);
    }
  }

  lemma DecimalIsOneLine(n: int)
    ensures Plain(Digits.Signed(n))
  {
  }

  lemma RecordHoldsNoNul(expires: int, pairs: seq<(Text, Text)>)
    ensures NUL !in Encode(expires, pairs)
  {
    DecimalIsOneLine(expires);
    LinesHoldNoNul(pairs);
  }

  /** A record reads back as the session it was written from exactly when no key
      and no value holds a newline or a NUL. */
  lemma RecordRoundTrip(expires: int, pairs: seq<(Text, Text)>, m: map<Text, Text>)
    requires Enumerates(pairs, m) && 0 - Digits.I64_MAX <= expires <= Digits.I64_MAX
    ensures Decode(Encode(expires, pairs)) == Session(m, expires) <==> OneLine(m)
  {
    DecimalIsOneLine(expires);
    ChopAt(Digits.Signed(expires), LF, Lines(pairs));
    Digits.SignedRoundTrip(expires);
    if OneLine(m) {
      forall i | 0 <= i < |pairs|
        ensures Plain(pairs[i].0) && Plain(pairs[i].1)
      {
        MapOfHas(pairs, map[], i);
      }
      ReadLines(pairs, map[]);
    }
    LinesHoldNoNul(pairs);
    ReadOneLine(Lines(pairs), map[]);
  }

  // ---------------------------------------------------------------------
  // Keys
  // ---------------------------------------------------------------------

  /** `session_key`: the prefixed token, cut at the size of its buffer. */
  function Key(token: Text): Text {
    var k := PREFIX + token;
    if |k| > KEY_CAP then k[..KEY_CAP] else k
  }

  predicate IsSessionKey(k: Text) {
    PREFIX <= k
  }

  lemma KeyShape(token: Text)
    ensures IsSessionKey(Key(token))
    ensures |Key(token)| == |PREFIX| + TOKEN_LEN <==> |token| == TOKEN_LEN
    ensures |token| == TOKEN_LEN ==> Key(token)[|PREFIX|..] == token
  {
  }

  lemma KeyInjective(a: Text, b: Text)
    requires |a| == TOKEN_LEN && Key(a) == Key(b)
    ensures a == b
  {
    KeyShape(a);
    KeyShape(b);
  }

  // ---------------------------------------------------------------------
  // The slot table
  // ---------------------------------------------------------------------

  ghost predicate Unique(tokens: seq<Text>) {
    forall i, j :: 0 <= i < j < |tokens| ==> tokens[i] != tokens[j]
  }

  /** The sessions the parallel arrays hold, by token. */
  ghost function Live(tokens: seq<Text>, sessions: seq<Session>): map<Text, Session>
    requires |tokens| == |sessions|
  {
    if tokens == [] then map[]
    else
      var last := |tokens| - 1;
      Live(tokens[..last], sessions[..last])[tokens[last] := sessions[last]]
  }

  lemma {:induction false} LiveAt(tokens: seq<Text>, sessions: seq<Session>, i: nat)
    requires |tokens| == |sessions| && Unique(tokens) && i < |tokens|
    ensures tokens[i] in Live(tokens, sessions) && Live(tokens, sessions)[tokens[i]] == sessions[i]
  {
    var last := |tokens| - 1;
    if i < last {
      LiveAt(tokens[..last], sessions[..last], i);
    }
  }

  lemma {:induction false} LiveFound(tokens: seq<Text>, sessions: seq<Session>, t: Text)
    requires |tokens| == |sessions| && t in Live(tokens, sessions)
    ensures exists i :: 0 <= i < |tokens| && tokens[i] == t
  {
    var last := |tokens| - 1;
    if tokens[last] != t {
      LiveFound(tokens[..last], sessions[..last], t);
      var i :| 0 <= i < last && tokens[..last][i] == t;
      assert tokens[i] == t;
    }
  }

  lemma LiveAppend(tokens: seq<Text>, sessions: seq<Session>, t: Text, s: Session)
    requires |tokens| == |sessions| && Unique(tokens) && t !in Live(tokens, sessions)
    ensures Live(tokens + [t], sessions + [s]) == Live(tokens, sessions)[t := s]
    ensures Unique(tokens + [t])
  {
    assert (tokens + [t])[..|tokens|] == tokens && (sessions + [s])[..|tokens|] == sessions;
    forall i | 0 <= i < |tokens|
      ensures tokens[i] != t
    {
      LiveAt(tokens, sessions, i);
    }
  }

  lemma {:induction false} LiveUpdate(tokens: seq<Text>, sessions: seq<Session>, i: nat, s: Session)
    requires |tokens| == |sessions| && Unique(tokens) && i < |tokens|
    ensures Live(tokens, sessions[i := s]) == Live(tokens, sessions)[tokens[i] := s]
  {
    var last := |tokens| - 1;
    if i == last {
      assert sessions[i := s][..last] == sessions[..last];
    } else {
      LiveUpdate(tokens[..last], sessions[..last], i, s);
      assert sessions[i := s][..last] == sessions[..last][i := s];
      assert tokens[i] != tokens[last];
    }
  }

  lemma CutUnique(tokens: seq<Text>, i: nat)
    requires Unique(tokens) && i < |tokens|
    ensures Unique(SwapRemove(tokens, i))
  {
  }

  lemma LiveCutKeeps(tokens: seq<Text>, sessions: seq<Session>, i: nat, j: nat)
    requires |tokens| == |sessions| && Unique(tokens) && i < |tokens| && j < |tokens| && j != i
    ensures var now := Live(SwapRemove(tokens, i), SwapRemove(sessions, i));
            tokens[j] in now && now[tokens[j]] == sessions[j]
  {
    CutUnique(tokens, i);
    LiveAt(SwapRemove(tokens, i), SwapRemove(sessions, i), if j == |tokens| - 1 then i else j);
  }

  lemma LiveCutAdds(tokens: seq<Text>, sessions: seq<Session>, i: nat, t: Text) returns (j: nat)
    requires |tokens| == |sessions| && Unique(tokens) && i < |tokens|
    requires t in Live(SwapRemove(tokens, i), SwapRemove(sessions, i))
    ensures j < |tokens| && j != i && tokens[j] == t
  {
    LiveFound(SwapRemove(tokens, i), SwapRemove(sessions, i), t);
    var k :| 0 <= k < |tokens| - 1 && SwapRemove(tokens, i)[k] == t;
    j := if k == i then |tokens| - 1 else k;
  }

  lemma LiveCut(tokens: seq<Text>, sessions: seq<Session>, i: nat)
    requires |tokens| == |sessions| && Unique(tokens) && i < |tokens|
    ensures Live(SwapRemove(tokens, i), SwapRemove(sessions, i)) == Live(tokens, sessions) - {tokens[i]}
  {
    var was, now := Live(tokens, sessions), Live(SwapRemove(tokens, i), SwapRemove(sessions, i));
    forall t | t in now
      ensures t in was && t != tokens[i] && was[t] == now[t]
    {
      var j := LiveCutAdds(tokens, sessions, i, t);
      LiveAt(tokens, sessions, j);
      LiveCutKeeps(tokens, sessions, i, j);
    }
    forall t | t in was && t != tokens[i]
      ensures t in now
    {
      LiveFound(tokens, sessions, t);
      var j :| 0 <= j < |tokens| && tokens[j] == t;
      LiveCutKeeps(tokens, sessions, i, j);
    }
  }

  // ---------------------------------------------------------------------
  // Cache, records and file
  // ---------------------------------------------------------------------

  predicate Expired(s: Session, now: int) {
    s.expires != 0 && s.expires <= now
  }

  ghost predicate Bounded(s: Session) {
    0 - Digits.I64_MAX <= s.expires <= Digits.I64_MAX
  }

  /** The session's record decodes to it, unless a line of the record cannot hold its data. */
  ghost predicate Mirrored(t: Text, s: Session, records: map<Text, Text>) {
    && |t| == TOKEN_LEN && Bounded(s) && Key(t) in records
    && (Decode(records[Key(t)]) == s <==> OneLine(s.data))
  }

  ghost predicate Backed(live: map<Text, Session>, records: map<Text, Text>) {
    forall t :: t in live ==> Mirrored(t, live[t], records)
  }

  /** Session records as the store writes them: under whole tokens, without a NUL. */
  ghost predicate Keyed(records: map<Text, Text>) {
    forall k :: k in records && IsSessionKey(k) ==> |k| == |PREFIX| + TOKEN_LEN && NUL !in records[k]
  }

  lemma OtherKey(live: map<Text, Session>, records: map<Text, Text>, x: Text, t: Text)
    requires Backed(live, records) && x in live && x != t
    ensures Key(x) != Key(t)
  {
    if Key(x) == Key(t) {
      KeyInjective(x, t);
    }
  }

  lemma BackedPut(live: map<Text, Session>, records: map<Text, Text>, t: Text, s: Session, blob: Text)
    requires Backed(live, records) && |t| == TOKEN_LEN && Bounded(s) && (Decode(blob) == s <==> OneLine(s.data))
    ensures Backed(live[t := s], records[Key(t) := blob])
  {
    var l, r := live[t := s], records[Key(t) := blob];
    forall x | x in l
      ensures Mirrored(x, l[x], r)
    {
      if x != t {
        OtherKey(live, records, x, t);
      }
    }
  }

  /** Writing a session through keeps every session backed. */
  lemma PutBacked(live: map<Text, Session>, records: map<Text, Text>, t: Text, s: Session, order: seq<(Text, Text)>)
    requires Backed(live, records) && Keyed(records) && |t| == TOKEN_LEN && Bounded(s) && Enumerates(order, s.data)
    ensures var r := records[Key(t) := Encode(s.expires, order)]; Backed(live[t := s], r) && Keyed(r)
  {
    RecordRoundTrip(s.expires, order, s.data);
    RecordHoldsNoNul(s.expires, order);
    BackedPut(live, records, t, s, Encode(s.expires, order));
    KeyShape(t);
  }

  /** Dropping a session and its record leaves the others backed. */
  lemma DropBacked(live: map<Text, Session>, records: map<Text, Text>, t: Text)
    requires Backed(live, records)
    ensures Backed(live - {t}, records - {Key(t)})
  {
    var l, r := live - {t}, records - {Key(t)};
    forall x | x in l
      ensures Mirrored(x, l[x], r)
    {
      OtherKey(live, records, x, t);
    }
  }

  lemma {:induction false} AccumulateBound(s: Text, n: nat)
    requires Digits.Accumulate(s, n).Some? && n <= Digits.I64_MAX
    ensures Digits.Accumulate(s, n).value <= Digits.I64_MAX
    decreases |s|
  {
    if s != [] {
      var d := s[0] - Digits.ZERO;
      assert n * 10 + d <= Digits.I64_MAX;
      AccumulateBound(s[1..], n * 10 + d);
    }
  }

  /** Whatever a record says, the session it decodes to can be written again. */
  lemma DecodedIsSound(blob: Text)
    requires NUL !in blob
    ensures OneLine(Decode(blob).data) && Bounded(Decode(blob))
  {
    ChopHoldsNoNul(blob, LF);
    ReadOneLine(After(blob, LF), map[]);
    var l := Before(blob, LF);
    if Digits.ToInt(l).Some? {
      AccumulateBound(if l[0] == Digits.MINUS then l[1..] else l, 0);
    }
  }

  /** A record that is read back in becomes a backed session. */
  lemma AdoptBacked(live: map<Text, Session>, records: map<Text, Text>, t: Text)
    requires Backed(live, records) && Keyed(records) && Key(t) in records
    ensures Backed(live[t := Decode(records[Key(t)])], records)
  {
    KeyShape(t);
    DecodedIsSound(records[Key(t)]);
  }

  // ---------------------------------------------------------------------
  // Looking up and reaping
  // ---------------------------------------------------------------------

  /** What a token names: a cached session, or one its record still describes. */
  function Lookup(token: Text, live: map<Text, Session>, records: map<Text, Text>): Option<Session> {
    if token in live then Some(live[token])
    else if Key(token) in records then Some(Decode(records[Key(token)]))
    else None
  }

  /** The cache once a token has been looked up. */
  function Adopted(token: Text, live: map<Text, Session>, records: map<Text, Text>): map<Text, Session> {
    if token !in live && Key(token) in records then live[token := Decode(records[Key(token)])] else live
  }

  lemma AdoptedDrop(token: Text, live: map<Text, Session>, records: map<Text, Text>)
    ensures Adopted(token, live, records) - {token} == live - {token}
  {
  }

  ghost function Unexpired(live: map<Text, Session>, now: int): map<Text, Session> {
    map t | t in live && !Expired(live[t], now) :: live[t]
  }

  lemma UnexpiredDrop(live: map<Text, Session>, t: Text, now: int)
    requires t in live && Expired(live[t], now)
    ensures Unexpired(live - {t}, now) == Unexpired(live, now)
  {
  }

  lemma AllUnexpired(tokens: seq<Text>, sessions: seq<Session>, now: int)
    requires |tokens| == |sessions| && Unique(tokens)
    requires forall j :: 0 <= j < |sessions| ==> !Expired(sessions[j], now)
    ensures Unexpired(Live(tokens, sessions), now) == Live(tokens, sessions)
  {
    var live := Live(tokens, sessions);
    forall t | t in live
      ensures !Expired(live[t], now)
    {
      LiveFound(tokens, sessions, t);
      var j :| 0 <= j < |tokens| && tokens[j] == t;
      LiveAt(tokens, sessions, j);
    }
  }

  /** The records once those of the expired sessions are gone. */
  ghost function Reaped(live: map<Text, Session>, records: map<Text, Text>, now: int): map<Text, Text> {
    map k | k in records && !(exists t :: t in live && Expired(live[t], now) && Key(t) == k) :: records[k]
  }

  lemma ReapedDrop(live: map<Text, Session>, records: map<Text, Text>, t: Text, now: int)
    requires t in live && Expired(live[t], now)
    ensures Reaped(live - {t}, records - {Key(t)}, now) == Reaped(live, records, now)
  {
    var a, b := Reaped(live - {t}, records - {Key(t)}, now), Reaped(live, records, now);
    forall k
      ensures k in a <==> k in b
    {
      if k in b {
        assert k != Key(t);
      }
      if k in records && exists x :: x in live && Expired(live[x], now) && Key(x) == k {
        var x :| x in live && Expired(live[x], now) && Key(x) == k;
        if x != t {
          assert x in live - {t} && Expired((live - {t})[x], now);
        }
      }
    }
  }

  lemma NothingReaped(live: map<Text, Session>, records: map<Text, Text>, now: int)
    requires Unexpired(live, now) == live
    ensures Reaped(live, records, now) == records
  {
    forall t | t in live
      ensures !Expired(live[t], now)
    {
      assert t in Unexpired(live, now);
    }
  }

  /** The session `http_session_create` starts with: a negative lifetime asks for the
      store's own, and none at all never expires. */
  function Fresh(ttl: int, defaultTtl: int, now: int): Session {
    var t := if ttl < 0 then defaultTtl else ttl;
    Session(map[], if t > 0 then now + t else 0)
  }
}
