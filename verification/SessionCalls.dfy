/** Runs of calls on the session store. */
module SessionCalls {
  // On values: what every call keeps, what a crash loses, and what becomes of a destroyed
  // session.

  import opened Bytes
  import opened Session
  import Digits

  // ---------------------------------------------------------------------
  // One call
  // ---------------------------------------------------------------------

  /** The cache, the database in memory, and the database in its file. */
  datatype Store = Store(live: map<Text, Session>, records: map<Text, Text>, file: map<Text, Text>)

  /** The calls that change something, with what they take from the clock, the random
      source, the slot order of a map and the file system: whether a write succeeds. */
  datatype Call =
    | Create(token: Text, ttl: int, now: int, written: bool)
    | Set(token: Text, key: CStr, value: CStr, order: seq<(Text, Text)>, written: bool)
    | Del(token: Text, key: CStr, order: seq<(Text, Text)>, written: bool)
    | Destroy(token: Text)
    | Open(token: Text, now: int)
    | Reap(now: int)

  /** A changed session, its record, and the file, if that could be written. */
  function WriteThrough(st: Store, t: Text, s: Session, order: seq<(Text, Text)>, written: bool): Store {
    var records := st.records[Key(t) := Encode(s.expires, order)];
    Store(st.live[t := s], records, if written then records else st.file)
  }

  function Put(s: Session, key: Text, value: Text): Session {
    s.(data := s.data[key := value])
  }

  function Cut(s: Session, key: Text): Session {
    s.(data := s.data - {key})
  }

  /** What opening a token gives: an expired session is as good as none. */
  function Opened(st: Store, token: Text, now: int): Option<Session> {
    var found := Lookup(token, st.live, st.records);
    if found.Some? && Expired(found.value, now) then None else found
  }

  /** Destroying removes a cached session and its record, and nothing else. */
  function DestroyAt(st: Store, token: Text): Store {
    st.(live := st.live - {token}, records := if token in st.live then st.records - {Key(token)} else st.records)
  }

  ghost function ReapAll(st: Store, now: int): Store {
    st.(live := Unexpired(st.live, now), records := Reaped(st.live, st.records, now))
  }

  function OpenAt(st: Store, token: Text, now: int): Store {
    match Lookup(token, st.live, st.records)
    case None => st
    case Some(s) =>
      if Expired(s, now) then st.(live := st.live - {token}, records := st.records - {Key(token)})
      else st.(live := Adopted(token, st.live, st.records))
  }

  /** What the source asks of its callers, and of the random source. */
  ghost predicate Callable(st: Store, c: Call, defaultTtl: int) {
    match c
    case Create(token, ttl, now, _) =>
      && |token| == TOKEN_LEN && token !in st.live
      && 0 <= now && now + ttl <= Digits.I64_MAX && now + defaultTtl <= Digits.I64_MAX
    case Set(token, key, value, order, _) =>
      token in st.live && Enumerates(order, Put(st.live[token], key, value).data)
    case Del(token, key, order, _) => token in st.live && Enumerates(order, Cut(st.live[token], key).data)
    case _ => true
  }

  ghost function After(st: Store, c: Call, defaultTtl: int): Store
    requires Callable(st, c, defaultTtl)
  {
    match c
    case Create(token, ttl, now, written) => WriteThrough(st, token, Fresh(ttl, defaultTtl, now), [], written)
    case Set(token, key, value, order, written) =>
      WriteThrough(st, token, Put(st.live[token], key, value), order, written)
    case Del(token, key, order, written) =>
      if key in st.live[token].data then WriteThrough(st, token, Cut(st.live[token], key), order, written) else st
    case Destroy(token) => DestroyAt(st, token)
    case Open(token, now) => OpenAt(st, token, now)
    case Reap(now) => ReapAll(st, now)
  }

  /** Every cached session is backed by its record, and records are well keyed. */
  ghost predicate Kept(st: Store) {
    Backed(st.live, st.records) && Keyed(st.records) && Keyed(st.file)
  }

  lemma WriteThroughKeeps(st: Store, t: Text, s: Session, order: seq<(Text, Text)>, written: bool)
    requires Kept(st) && |t| == TOKEN_LEN && Bounded(s) && Enumerates(order, s.data)
    ensures Kept(WriteThrough(st, t, s, order, written))
  {
    PutBacked(st.live, st.records, t, s, order);
  }

  lemma OpenKeeps(st: Store, token: Text, now: int)
    requires Kept(st)
    ensures Kept(OpenAt(st, token, now))
  {
    DropBacked(st.live, st.records, token);
    if token !in st.live && Key(token) in st.records {
      AdoptBacked(st.live, st.records, token);
    }
  }

  lemma ReapKeeps(st: Store, now: int)
    requires Kept(st)
    ensures Backed(Unexpired(st.live, now), Reaped(st.live, st.records, now))
  {
    var l, r := Unexpired(st.live, now), Reaped(st.live, st.records, now);
    forall t | t in l
      ensures Mirrored(t, l[t], r)
    {
      forall x | x in st.live && Expired(st.live[x], now)
        ensures Key(x) != Key(t)
      {
        OtherKey(st.live, st.records, x, t);
      }
    }
  }

  /** Every call keeps what the store is built on. */
  lemma CallKeeps(st: Store, c: Call, defaultTtl: int)
    requires Kept(st) && Callable(st, c, defaultTtl)
    ensures Kept(After(st, c, defaultTtl))
  {
    match c
    case Create(token, ttl, now, written) => WriteThroughKeeps(st, token, Fresh(ttl, defaultTtl, now), [], written);
    case Set(token, key, value, order, written) =>
      WriteThroughKeeps(st, token, Put(st.live[token], key, value), order, written);
    case Del(token, key, order, written) =>
      WriteThroughKeeps(st, token, Cut(st.live[token], key), order, written);
    case Destroy(token) => DropBacked(st.live, st.records, token);
    case Open(token, now) => OpenKeeps(st, token, now);
    case Reap(now) => ReapKeeps(st, now);
  }

  // ---------------------------------------------------------------------
  // What is on file
  // ---------------------------------------------------------------------

  /** The call writes a record, and then the file, or fails to. */
  predicate Writes(st: Store, c: Call) {
    match c
    case Create(_, _, _, _) => true
    case Set(_, _, _, _, _) => true
    case Del(token, key, _, _) => token in st.live && key in st.live[token].data
    case _ => false
  }

  predicate Saves(st: Store, c: Call) {
    Writes(st, c) && c.written
  }

  /** Tokens whose record was changed since the file was last written: each write puts
      all of the database there. */
  function Owed(st: Store, c: Call, owed: set<Text>): set<Text> {
    if !Writes(st, c) then owed else if c.written then {} else owed + {c.token}
  }

  /** The file has the record of every token it is not owed. */
  ghost predicate OnFile(st: Store, owed: set<Text>) {
    forall t :: |t| == TOKEN_LEN && t !in owed && Key(t) in st.records ==>
      Key(t) in st.file && st.file[Key(t)] == st.records[Key(t)]
  }

  lemma WriteOnFile(st: Store, t: Text, s: Session, order: seq<(Text, Text)>, written: bool, owed: set<Text>)
    requires OnFile(st, owed) && |t| == TOKEN_LEN
    ensures OnFile(WriteThrough(st, t, s, order, written), if written then {} else owed + {t})
  {
    forall x | |x| == TOKEN_LEN && x != t
      ensures Key(x) != Key(t)
    {
      if Key(x) == Key(t) {
        KeyInjective(x, t);
      }
    }
  }

  lemma CallOnFile(st: Store, c: Call, defaultTtl: int, owed: set<Text>)
    requires Kept(st) && OnFile(st, owed) && Callable(st, c, defaultTtl)
    ensures OnFile(After(st, c, defaultTtl), Owed(st, c, owed))
  {
    match c
    case Create(token, ttl, now, written) =>
      WriteOnFile(st, token, Fresh(ttl, defaultTtl, now), [], written, owed);
    case Set(token, key, value, order, written) =>
      WriteOnFile(st, token, Put(st.live[token], key, value), order, written, owed);
    case Del(token, key, order, written) =>
      WriteOnFile(st, token, Cut(st.live[token], key), order, written, owed);
    case _ =>
  }

  // ---------------------------------------------------------------------
  // Runs
  // ---------------------------------------------------------------------

  ghost predicate Permitted(st: Store, calls: seq<Call>, defaultTtl: int)
    decreases |calls|
  {
    calls != [] ==>
      Callable(st, calls[0], defaultTtl) && Permitted(After(st, calls[0], defaultTtl), calls[1..], defaultTtl)
  }

  ghost function Run(st: Store, calls: seq<Call>, defaultTtl: int): Store
    requires Permitted(st, calls, defaultTtl)
    decreases |calls|
  {
    if calls == [] then st else Run(After(st, calls[0], defaultTtl), calls[1..], defaultTtl)
  }

  ghost function OwedAfter(st: Store, calls: seq<Call>, defaultTtl: int, owed: set<Text>): set<Text>
    requires Permitted(st, calls, defaultTtl)
    decreases |calls|
  {
    if calls == [] then owed
    else OwedAfter(After(st, calls[0], defaultTtl), calls[1..], defaultTtl, Owed(st, calls[0], owed))
  }

  lemma {:induction false} EveryRunKept(st: Store, calls: seq<Call>, defaultTtl: int, owed: set<Text>)
    requires Kept(st) && OnFile(st, owed) && Permitted(st, calls, defaultTtl)
    ensures var r := Run(st, calls, defaultTtl);
            Kept(r) && OnFile(r, OwedAfter(st, calls, defaultTtl, owed))
    decreases |calls|
  {
    if calls != [] {
      CallKeeps(st, calls[0], defaultTtl);
      CallOnFile(st, calls[0], defaultTtl, owed);
      EveryRunKept(After(st, calls[0], defaultTtl), calls[1..], defaultTtl, Owed(st, calls[0], owed));
    }
  }

  /** A store over a database that was just opened. */
  ghost predicate Started(st: Store) {
    st.live == map[] && st.records == st.file && Keyed(st.file)
  }

  /** After any run of calls, a process that finds the file gets a live session back as
      it was, unless a write of its record has failed since the last that did not: exactly
      if none of its keys and values holds a newline. */
  lemma {:induction false} RecoveredIffPlain(st: Store, calls: seq<Call>, defaultTtl: int, t: Text)
    requires Started(st) && Permitted(st, calls, defaultTtl)
    requires t in Run(st, calls, defaultTtl).live && t !in OwedAfter(st, calls, defaultTtl, {})
    ensures var r := Run(st, calls, defaultTtl);
            Lookup(t, map[], r.file) == Some(r.live[t]) <==> OneLine(r.live[t].data)
  {
    EveryRunKept(st, calls, defaultTtl, {});
  }

  /** Nothing is owed where no write has failed. */
  lemma {:induction false} NothingOwed(st: Store, calls: seq<Call>, defaultTtl: int)
    requires Permitted(st, calls, defaultTtl)
    requires forall i :: 0 <= i < |calls| && !calls[i].Destroy? && !calls[i].Open? && !calls[i].Reap? ==> calls[i].written
    ensures OwedAfter(st, calls, defaultTtl, {}) == {}
    decreases |calls|
  {
    if calls != [] {
      NothingOwed(After(st, calls[0], defaultTtl), calls[1..], defaultTtl);
    }
  }

  // ---------------------------------------------------------------------
  // What becomes of a destroyed session
  // ---------------------------------------------------------------------

  /** The file was written at some point of the run. */
  ghost predicate Saved(st: Store, calls: seq<Call>, defaultTtl: int)
    requires Permitted(st, calls, defaultTtl)
    decreases |calls|
  {
    calls != [] && (Saves(st, calls[0]) || Saved(After(st, calls[0], defaultTtl), calls[1..], defaultTtl))
  }

  /** Neither cached nor on record. */
  predicate Gone(st: Store, token: Text) {
    token !in st.live && Key(token) !in st.records
  }

  predicate Makes(c: Call, token: Text) {
    c.Create? && c.token == token
  }

  /** A token destroyed and then opened gives a session again exactly when that was on
      record, unexpired, and not cached. */
  lemma DestroyThenOpen(st: Store, token: Text, now: int)
    ensures var r := Opened(DestroyAt(st, token), token, now);
            && (r.Some? <==> token !in st.live && Key(token) in st.records
                             && !Expired(Decode(st.records[Key(token)]), now))
            && (r.Some? ==> r.value == Decode(st.records[Key(token)]))
  {
  }

  lemma WriteKeepsGone(st: Store, token: Text, t: Text, s: Session, order: seq<(Text, Text)>, written: bool)
    requires |token| == TOKEN_LEN && Gone(st, token) && |t| == TOKEN_LEN && t != token
    ensures var r := WriteThrough(st, t, s, order, written);
            Gone(r, token) && (Key(token) in r.file <==> Key(token) in st.file && !written)
  {
    if Key(token) == Key(t) {
      KeyInjective(token, t);
    }
  }

  lemma OpenKeepsGone(st: Store, token: Text, t: Text, now: int)
    requires Kept(st) && |token| == TOKEN_LEN && Gone(st, token)
    ensures Gone(OpenAt(st, t, now), token)
  {
  }

  /** No call brings a session back but one that makes it again, and the file loses its
      record with the first write. */
  lemma StaysGone(st: Store, c: Call, defaultTtl: int, token: Text)
    requires Kept(st) && Callable(st, c, defaultTtl) && |token| == TOKEN_LEN && Gone(st, token) && !Makes(c, token)
    ensures var r := After(st, c, defaultTtl);
            Gone(r, token) && (Key(token) in r.file <==> Key(token) in st.file && !Saves(st, c))
  {
    match c
    case Create(t, ttl, now, written) => WriteKeepsGone(st, token, t, Fresh(ttl, defaultTtl, now), [], written);
    case Set(t, key, value, order, written) =>
      WriteKeepsGone(st, token, t, Put(st.live[t], key, value), order, written);
    case Del(t, key, order, written) => WriteKeepsGone(st, token, t, Cut(st.live[t], key), order, written);
    case Open(t, now) => OpenKeepsGone(st, token, t, now);
    case _ =>
  }

  lemma {:induction false} FileForgets(st: Store, calls: seq<Call>, defaultTtl: int, token: Text)
    requires Kept(st) && Permitted(st, calls, defaultTtl) && |token| == TOKEN_LEN && Gone(st, token)
    requires forall i :: 0 <= i < |calls| ==> !Makes(calls[i], token)
    ensures var r := Run(st, calls, defaultTtl);
            Gone(r, token) && (Key(token) in r.file <==> Key(token) in st.file && !Saved(st, calls, defaultTtl))
    decreases |calls|
  {
    if calls != [] {
      CallKeeps(st, calls[0], defaultTtl);
      StaysGone(st, calls[0], defaultTtl, token);
      FileForgets(After(st, calls[0], defaultTtl), calls[1..], defaultTtl, token);
    }
  }

  /** A cached session is destroyed, and any calls follow that do not make it again: it
      cannot be opened, and the next process finds it exactly if the file held its record
      and was not written since. */
  lemma {:induction false} DestroyedUntilRestart(st: Store, calls: seq<Call>, defaultTtl: int, token: Text)
    requires Kept(st) && token in st.live
    requires Permitted(DestroyAt(st, token), calls, defaultTtl)
    requires forall i :: 0 <= i < |calls| ==> !Makes(calls[i], token)
    ensures var d := DestroyAt(st, token); var r := Run(d, calls, defaultTtl);
            && Lookup(token, r.live, r.records) == None
            && (Lookup(token, map[], r.file).Some? <==> Key(token) in st.file && !Saved(d, calls, defaultTtl))
  {
    CallKeeps(st, Destroy(token), defaultTtl);
    FileForgets(DestroyAt(st, token), calls, defaultTtl, token);
  }
}
