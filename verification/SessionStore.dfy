/** The session store object over its backing database. A handle is named by its
    session's token; the clock, fresh tokens, the order in which a session's map
    lists its slots, and whether the file can be written are arguments. */
module SessionStore {
  import opened Bytes
  import opened Session
  import opened SessionCalls
  import Db

  class SessionStore {
    const db: Db.Store
    const defaultTtl: int
    var tokens: seq<Text>
    var sessions: seq<Session>
    ghost var live: map<Text, Session>

    ghost predicate Slots()
      reads this
    {
      |tokens| == |sessions| && Unique(tokens) && live == Live(tokens, sessions)
    }

    /** What the store stands for. */
    ghost function Now(): Store
      reads this, db
    {
      Store(live, db.M, db.F)
    }

    ghost predicate Valid()
      reads this, db
    {
      db.Valid() && Slots() && Kept(Now())
    }

    /** `http_session_store_init` and `http_session_store_set_db`, over a database
        that was just opened. */
    constructor (db: Db.Store, defaultTtl: int)
      requires db.Valid() && db.M == db.F && Keyed(db.F)
      ensures Valid() && this.db == db && this.defaultTtl == defaultTtl && Started(Now())
    {
      this.db, this.defaultTtl := db, defaultTtl;
      tokens, sessions := [], [];
      live := map[];
    }

    /** `token_secret_eq`: both of full length and equal throughout. */
    static method SecretEq(a: Text, b: Text) returns (eq: bool)
      ensures eq <==> |a| == TOKEN_LEN && a == b
    {
      if |a| != TOKEN_LEN || |b| != TOKEN_LEN {
        return false;
      }
      var diff := false;
      for i := 0 to TOKEN_LEN
        invariant diff <==> a[..i] != b[..i]
      {
        assert a[..i + 1] == a[..i] + [a[i]] && b[..i + 1] == b[..i] + [b[i]];
        diff := diff || a[i] != b[i];
      }
      assert a[..TOKEN_LEN] == a && b[..TOKEN_LEN] == b;
      eq := !diff;
    }

    /** The scan of `find_token`. */
    static method Scan(tokens: seq<Text>, token: Text) returns (i: nat)
      requires forall j :: 0 <= j < |tokens| ==> |tokens[j]| == TOKEN_LEN
      ensures i <= |tokens| && (i < |tokens| ==> tokens[i] == token)
      ensures i == |tokens| ==> forall j :: 0 <= j < |tokens| ==> tokens[j] != token
    {
      i := 0;
      while i < |tokens|
        invariant i <= |tokens| && forall j :: 0 <= j < i ==> tokens[j] != token
      {
        var same := SecretEq(tokens[i], token);
        if same {
          return;
        }
        i := i + 1;
      }
    }

    /** `find_token`. */
    method FindToken(token: Text) returns (i: nat)
      requires Slots() && Backed(live, db.M)
      ensures i <= |tokens|
      ensures if token in live then i < |tokens| && tokens[i] == token && sessions[i] == live[token]
              else i == |tokens|
    {
      forall j | 0 <= j < |tokens|
        ensures |tokens[j]| == TOKEN_LEN
      {
        LiveAt(tokens, sessions, j);
      }
      i := Scan(tokens, token);
      if i < |tokens| {
        LiveAt(tokens, sessions, i);
      } else if token in live {
        LiveFound(tokens, sessions, token);
      }
    }

    /** `session_to_db` and `cweb_db_sync` once the slot of a session has changed. That a
        file could not be written goes unnoticed. */
    method Mirror(token: Text, s: Session, order: seq<(Text, Text)>, written: bool)
      requires db.Valid() && Kept(Store(live, db.M, db.F))
      requires |token| == TOKEN_LEN && Bounded(s) && Enumerates(order, s.data)
      modifies db
      ensures db.Valid() && Kept(Store(live[token := s], db.M, db.F))
      ensures Store(live[token := s], db.M, db.F)
              == WriteThrough(Store(live, old(db.M), old(db.F)), token, s, order, written)
    {
      WriteThroughKeeps(Store(live, db.M, db.F), token, s, order, written);
      db.Insert(Key(token), Encode(s.expires, order));
      assert Key(token) in Db.Contents(db.entries);
      var rc := db.Sync(written);
    }

    /** `http_session_create` with the token the random source gave. */
    method Create(token: Text, ttl: int, now: int, written: bool)
      requires Valid() && Callable(Now(), Call.Create(token, ttl, now, written), defaultTtl)
      modifies this, db
      ensures Valid() && Now() == After(old(Now()), Call.Create(token, ttl, now, written), defaultTtl)
      ensures live == old(live)[token := Fresh(ttl, defaultTtl, now)] && (written ==> db.F == db.M)
    {
      var s := Fresh(ttl, defaultTtl, now);
      LiveAppend(tokens, sessions, token, s);
      tokens := tokens + [token];
      sessions := sessions + [s];
      Mirror(token, s, [], written);
      live := live[token := s];
    }

    /** A session changed in place, then written through. */
    method Replace(i: nat, s: Session, order: seq<(Text, Text)>, written: bool)
      requires Valid() && i < |tokens| && |tokens[i]| == TOKEN_LEN && Bounded(s) && Enumerates(order, s.data)
      modifies this`sessions, this`live, db
      ensures Valid() && Now() == WriteThrough(old(Now()), tokens[i], s, order, written)
    {
      LiveUpdate(tokens, sessions, i, s);
      sessions := sessions[i := s];
      Mirror(tokens[i], s, order, written);
      live := live[tokens[i] := s];
    }

    /** `http_session_set` on a live handle. */
    method Set(token: Text, key: CStr, value: CStr, order: seq<(Text, Text)>, written: bool)
      requires Valid() && Callable(Now(), Call.Set(token, key, value, order, written), defaultTtl)
      modifies this, db
      ensures Valid() && Now() == After(old(Now()), Call.Set(token, key, value, order, written), defaultTtl)
      ensures live == old(live)[token := Put(old(live)[token], key, value)] && (written ==> db.F == db.M)
    {
      var i := FindToken(token);
      Replace(i, Session(sessions[i].data[key := value], sessions[i].expires), order, written);
    }

    /** `http_session_value`. */
    method Value(token: Text, key: Text) returns (r: Option<Text>)
      requires Valid() && token in live
      ensures r == if key in live[token].data then Some(live[token].data[key]) else None
    {
      var i := FindToken(token);
      r := if key in sessions[i].data then Some(sessions[i].data[key]) else None;
    }

    /** `http_session_del` on a live handle; nothing is written for a missing key. */
    method Del(token: Text, key: CStr, order: seq<(Text, Text)>, written: bool) returns (present: bool)
      requires Valid() && Callable(Now(), Call.Del(token, key, order, written), defaultTtl)
      modifies this, db
      ensures Valid() && Now() == After(old(Now()), Call.Del(token, key, order, written), defaultTtl)
      ensures present == (key in old(live)[token].data) && token in live && key !in live[token].data
    {
      var i := FindToken(token);
      present := key in sessions[i].data;
      if present {
        Replace(i, Session(sessions[i].data - {key}, sessions[i].expires), order, written);
      }
    }

    /** `remove_at`: the record goes from the database in memory, not from its
        file. */
    method RemoveAt(i: nat)
      requires Valid() && i < |tokens|
      modifies this`tokens, this`sessions, this`live, db
      ensures Valid() && tokens == SwapRemove(old(tokens), i) && sessions == SwapRemove(old(sessions), i)
      ensures live == old(live) - {old(tokens)[i]}
      ensures db.M == old(db.M) - {Key(old(tokens)[i])} && db.F == old(db.F) && db.synced == old(db.synced)
    {
      CutUnique(tokens, i);
      LiveCut(tokens, sessions, i);
      DropBacked(live, db.M, tokens[i]);
      var rc := db.Delete(Key(tokens[i]));
      live := live - {tokens[i]};
      tokens, sessions := SwapRemove(tokens, i), SwapRemove(sessions, i);
    }

    /** `http_session_destroy`. Only a cached session goes, and its record stays on
        file until the next write. */
    method Destroy(token: Text)
      requires Valid()
      modifies this, db
      ensures Valid() && Now() == DestroyAt(old(Now()), token)
      ensures db.synced == old(db.synced)
    {
      var i := FindToken(token);
      if i < |tokens| {
        RemoveAt(i);
      } else {
        assert live - {token} == live;
      }
    }

    /** A session destroyed, and the process gone before the file is written again: the
        next one finds it exactly when the file held its record. */
    method DestroyThenRestart(token: Text) returns (r: SessionStore)
      requires Valid() && Db.AllShort(db.synced)
      modifies this, db
      ensures r.Valid() && fresh(r) && fresh(r.db) && Started(r.Now())
      ensures Lookup(token, r.live, r.db.M).Some? <==> Key(token) in old(db.F)
      ensures Key(token) in old(db.F) ==> Lookup(token, r.live, r.db.M) == Some(Decode(old(db.F)[Key(token)]))
    {
      Destroy(token);
      r := Recover();
    }

    /** One removal of `http_session_reap`; the last slot moves into place. */
    method ReapAt(i: nat, now: int)
      requires Valid() && i < |tokens| && Expired(sessions[i], now)
      modifies this`tokens, this`sessions, this`live, db
      ensures Valid() && db.F == old(db.F)
      ensures tokens == SwapRemove(old(tokens), i) && sessions == SwapRemove(old(sessions), i)
      ensures Unexpired(live, now) == Unexpired(old(live), now)
      ensures Reaped(live, db.M, now) == Reaped(old(live), old(db.M), now)
    {
      LiveAt(tokens, sessions, i);
      UnexpiredDrop(live, tokens[i], now);
      ReapedDrop(live, db.M, tokens[i], now);
      RemoveAt(i);
    }

    /** Midway through reaping: the first i sessions stay, and what is left to reap leads
        to `goal`. */
    ghost predicate Reaping(i: nat, now: int, goal: Store)
      reads this, db
    {
      && Valid() && i <= |tokens|
      && (forall j :: 0 <= j < i ==> !Expired(sessions[j], now))
      && Store(Unexpired(live, now), Reaped(live, db.M, now), db.F) == goal
    }

    /** One turn of the reaping loop. */
    method ReapTurn(i: nat, now: int, ghost goal: Store) returns (next: nat)
      requires Reaping(i, now, goal) && i < |tokens|
      modifies this`tokens, this`sessions, this`live, db
      ensures Reaping(next, now, goal)
      ensures |tokens| - next < old(|tokens|) - i
    {
      next := i;
      if Expired(sessions[i], now) {
        ReapAt(i, now);
      } else {
        next := i + 1;
      }
    }

    /** `http_session_reap`. */
    method Reap(now: int)
      requires Valid()
      modifies this, db
      ensures Valid() && Now() == ReapAll(old(Now()), now)
    {
      ghost var goal := ReapAll(Now(), now);
      var i: nat := 0;
      while i < |tokens|
        invariant Reaping(i, now, goal)
        decreases |tokens| - i
      {
        i := ReapTurn(i, now, goal);
      }
      AllUnexpired(tokens, sessions, now);
      NothingReaped(live, db.M, now);
    }

    /** The load of `http_session_open`: an uncached record becomes a session. */
    method Load(token: Text, blob: Text)
      requires Valid() && token !in live && Key(token) in db.M && blob == db.M[Key(token)]
      modifies this`tokens, this`sessions, this`live
      ensures Valid() && live == old(live)[token := Decode(blob)]
      ensures tokens == old(tokens) + [token] && sessions == old(sessions) + [Decode(blob)]
    {
      AdoptBacked(live, db.M, token);
      var s := Decode(blob);
      LiveAppend(tokens, sessions, token, s);
      tokens, sessions := tokens + [token], sessions + [s];
      live := live[token := s];
    }

    /** The slot of a token, loading its record on a miss. */
    method Resolve(token: Text) returns (i: nat)
      requires Valid()
      modifies this`tokens, this`sessions, this`live
      ensures Valid()
      ensures live == Adopted(token, old(live), db.M)
      ensures match Lookup(token, old(live), db.M)
              case None => i == |tokens|
              case Some(s) => i < |tokens| && tokens[i] == token && sessions[i] == s
    {
      i := FindToken(token);
      if i == |tokens| {
        var blob := db.Get(Key(token));
        if blob.Some? {
          Load(token, blob.value);
        }
      }
    }

    /** `http_session_open`: the cached session, or the one its record holds;
        expired ones are dropped on contact. */
    method Open(token: Text, now: int) returns (r: Option<Session>)
      requires Valid()
      modifies this, db
      ensures Valid() && Now() == OpenAt(old(Now()), token, now)
      ensures r == Opened(old(Now()), token, now)
    {
      AdoptedDrop(token, live, db.M);
      var i := Resolve(token);
      if i == |tokens| {
        return None;
      }
      if Expired(sessions[i], now) {
        RemoveAt(i);
        return None;
      }
      r := Some(sessions[i]);
    }

    /** A process that finds this store's file, at any moment: it starts with what is
        there, and each live session whose record is there is as it was exactly if none of
        its keys and values holds a newline. */
    method Recover() returns (r: SessionStore)
      requires Valid() && Db.AllShort(db.synced)
      ensures r.Valid() && fresh(r) && fresh(r.db) && Started(r.Now()) && r.db.M == db.F
      ensures forall t :: t in live && Key(t) in db.F && db.F[Key(t)] == db.M[Key(t)] ==>
                (Lookup(t, r.live, r.db.M) == Some(live[t]) <==> OneLine(live[t].data))
    {
      Db.ReopenIffShort(db.synced);
      var es, total := [], 0;
      if db.file.Some? {
        var parsed;
        parsed, total := Db.Store.Load(db.file.value);
        es := parsed.value;
      }
      var again := new Db.Store.Reopen(db.file, es, total, db.F);
      r := new SessionStore(again, defaultTtl);
      forall t | t in live && Key(t) in db.F && db.F[Key(t)] == db.M[Key(t)]
        ensures Lookup(t, r.live, r.db.M) == Some(live[t]) <==> OneLine(live[t].data)
      {
        assert Mirrored(t, live[t], db.M);
      }
    }
  }
}
