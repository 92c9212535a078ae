/** `SessionService`: every session lives under a main key and a tracking key with the same time-to-live. */
module Sessions {
  import opened Text
  import opened Redis
  import opened SessionKeys

  datatype SessionFailure = EstablishFailed | ExtensionFailed

  // ---------- what each call does to the store ----------

  function Session(db: Db, sessionId: string): Option<SessionData> {
    match Lookup(db, MainKey(sessionId))
    case Some(SessionJson(data)) => Some(data)
    case _ => None
  }

  /** Both keys of one session, written at one moment. */
  function WithSession(db: Db, now: nat, timeout: nat, sessionId: string, data: SessionData): Db {
    Put(Put(db, now, MainKey(sessionId), SessionJson(data), timeout),
        now, TrackKey(data.dto.userId, sessionId), TrackFlag, timeout)
  }

  function Destroyed(db: Db, sessionId: string): Db {
    match Session(db, sessionId)
    case Some(data) => db - {MainKey(sessionId)} - {TrackKey(data.dto.userId, sessionId)}
    case None => db
  }

  function Extended(db: Db, now: nat, timeout: nat, sessionId: string): Db {
    match Session(db, sessionId)
    case Some(data) => WithSession(db, now, timeout, sessionId, data.(lastActivity := now))
    case None => db
  }

  /** The keys that deleting the sessions behind these tracking keys removes. */
  function DoomedBy(trackKeys: set<string>): set<string> {
    trackKeys + set k | k in trackKeys :: MainKey(SessionIdOf(k))
  }

  function Invalidated(db: Db, userId: string): Db {
    db - DoomedBy(Matching(db, ScanPattern(userId)))
  }

  // ---------- the invariant of a store that only whole calls have written ----------

  ghost predicate KnownKey(db: Db, k: string) {
    || (exists s :: k == MainKey(s) && Session(db, s).Some?)
    || (exists u, s :: k == TrackKey(u, s) && Session(db, s).Some? && Session(db, s).value.dto.userId == u)
    || (exists r :: k == PendingKey(r))
  }

  /** Each session owns exactly its two keys, both with one expiry; nothing else looks like a session key. */
  ghost predicate Agreed(db: Db) {
    && (forall k {:trigger KnownKey(db, k)} :: k in db ==> KnownKey(db, k))
    && (forall s :: Session(db, s).Some? ==>
          var u := Session(db, s).value.dto.userId;
          && ColonFree(s) && ColonFree(u) && GlobFree(u)
          && TrackKey(u, s) in db
          && db[TrackKey(u, s)].expiresAt == db[MainKey(s)].expiresAt)
  }

  /** Every key left is unchanged. */
  ghost predicate SubStore(db': Db, db: Db) {
    forall k :: k in db' ==> k in db && db'[k] == db[k]
  }

  class SessionService {
    const redis: RedisService
    const sessionTimeout: int

    constructor (redis: RedisService, sessionTimeout: int)
      ensures this.redis == redis && this.sessionTimeout == sessionTimeout
    {
      this.redis, this.sessionTimeout := redis, sessionTimeout;
    }

    /** `sessionId` is the value of `uuidv4()`; the login time is the store's clock. */
    method CreateSession(dto: SessionDto, sessionId: string) returns (r: Result<string, SessionFailure>)
      requires redis.Valid()
      modifies redis`db
      ensures redis.Valid()
      ensures r == if sessionTimeout > 0 then Ok(sessionId) else Err(EstablishFailed)
      ensures redis.db ==
              if sessionTimeout > 0
              then WithSession(old(redis.db), redis.now, sessionTimeout, sessionId,
                               SessionData(dto, redis.now, redis.now))
              else old(redis.db)
    {
      var timestamp := redis.now;
      var sessionData := SessionData(dto, timestamp, timestamp);
      var ok := redis.Setex(MainKey(sessionId), SessionJson(sessionData), sessionTimeout);
      if !ok {
        return Err(EstablishFailed);
      }
      ok := redis.Setex(TrackKey(sessionData.dto.userId, sessionId), TrackFlag, sessionTimeout);
      return Ok(sessionId);
    }

    method GetSession(sessionId: string) returns (session: Option<SessionData>)
      ensures session == Session(redis.db, sessionId)
    {
      var data := redis.Get(MainKey(sessionId));
      session := match data
        case Some(SessionJson(s)) => Some(s)
        case _ => None;
    }

    method ValidateSession(sessionId: string) returns (valid: bool)
      ensures valid <==> Session(redis.db, sessionId).Some?
    {
      var session := GetSession(sessionId);
      valid := session.Some?;
    }

    method DestroySession(sessionId: string)
      requires redis.Valid()
      modifies redis`db
      ensures redis.Valid()
      ensures redis.db == Destroyed(old(redis.db), sessionId)
    {
      var session := GetSession(sessionId);
      if session.Some? {
        var _ := redis.Del(MainKey(sessionId));
        var _ := redis.Del(TrackKey(session.value.dto.userId, sessionId));
      }
    }

    method ExtendSession(sessionId: string) returns (r: Result<Option<SessionData>, SessionFailure>)
      requires redis.Valid()
      modifies redis`db
      ensures redis.Valid()
      ensures Session(old(redis.db), sessionId).None? ==> r == Ok(None) && redis.db == old(redis.db)
      ensures Session(old(redis.db), sessionId).Some? && sessionTimeout <= 0 ==>
                r == Err(ExtensionFailed) && redis.db == old(redis.db)
      ensures Session(old(redis.db), sessionId).Some? && sessionTimeout > 0 ==>
                && r == Ok(Some(Session(old(redis.db), sessionId).value.(lastActivity := redis.now)))
                && redis.db == Extended(old(redis.db), redis.now, sessionTimeout, sessionId)
    {
      var session := GetSession(sessionId);
      if session.None? {
        return Ok(None);
      }
      var sessionData := session.value.(lastActivity := redis.now);
      var ok := redis.Setex(MainKey(sessionId), SessionJson(sessionData), sessionTimeout);
      if !ok {
        return Err(ExtensionFailed);
      }
      ok := redis.Setex(TrackKey(sessionData.dto.userId, sessionId), TrackFlag, sessionTimeout);
      return Ok(Some(sessionData));
    }

    /**
     The SCAN loop. Whatever batches, repetitions and cursors the server answers with, the store ends
     as if every matching tracking key and the session it names had been removed at once.
     */
    method InvalidateUserSessions(userId: string)
      requires redis.Valid()
      requires ScanIteration(redis.db, ScanPattern(userId), redis.scanReplies)
      modifies redis`db, redis`scanReplies
      ensures redis.Valid() && redis.scanReplies == []
      ensures redis.db == Invalidated(old(redis.db), userId)
    {
      var pattern := ScanPattern(userId);
      ghost var db0, replies := redis.db, redis.scanReplies;
      var scanCursor := "0";
      var first := true;
      while first || scanCursor != "0"
        invariant redis.Valid()
        invariant AfterReplies(redis.db, redis.scanReplies) == AfterReplies(db0, replies)
        invariant first ==> Terminated(redis.scanReplies)
        invariant !first && scanCursor == "0" ==> redis.scanReplies == []
        invariant !first && scanCursor != "0" ==> Terminated(redis.scanReplies)
        decreases first, |redis.scanReplies|
      {
        first := false;
        var nextCursor, keys := redis.Scan(scanCursor, pattern, 100);
        DeleteBatch(keys);
        scanCursor := nextCursor;
      }
      AfterRepliesIs(db0, replies);
    }

    /** The body of the loop: for each key of one SCAN reply, the session it names and then the key itself. */
    method DeleteBatch(keys: seq<string>)
      requires redis.Valid()
      modifies redis`db
      ensures redis.Valid()
      ensures redis.db == AfterBatch(old(redis.db), keys)
    {
      ghost var db0 := redis.db;
      for j := 0 to |keys|
        invariant redis.Valid()
        invariant AfterBatch(redis.db, keys[j..]) == AfterBatch(db0, keys)
      {
        var sessionId := SessionIdOf(keys[j]);
        var _ := redis.Del(MainKey(sessionId));
        var _ := redis.Del(keys[j]);
        assert keys[j..][1..] == keys[j + 1..];
      }
    }
  }

  function AfterBatch(db: Db, keys: seq<string>): Db
    decreases |keys|
  {
    if keys == [] then db
    else AfterBatch(db - {MainKey(SessionIdOf(keys[0]))} - {keys[0]}, keys[1..])
  }

  function AfterReplies(db: Db, replies: seq<ScanReply>): Db
    decreases |replies|
  {
    if replies == [] then db else AfterReplies(AfterBatch(db, replies[0].keys), replies[1..])
  }

  function KeySet(keys: seq<string>): set<string> {
    set k | k in keys
  }

  lemma {:induction false} AfterBatchIs(db: Db, keys: seq<string>)
    ensures AfterBatch(db, keys) == db - DoomedBy(KeySet(keys))
    decreases |keys|
  {
    if keys == [] {
      assert DoomedBy(KeySet(keys)) == {};
    } else {
      AfterBatchIs(db - {MainKey(SessionIdOf(keys[0]))} - {keys[0]}, keys[1..]);
      RemovalOne(db, keys[0], KeySet(keys[1..]));
      KeySetCons(keys);
    }
  }

  lemma KeySetCons(keys: seq<string>)
    requires keys != []
    ensures KeySet(keys) == {keys[0]} + KeySet(keys[1..])
  {
    assert keys == [keys[0]] + keys[1..];
  }

  lemma RemovalOne(db: Db, key: string, rest: set<string>)
    ensures db - {MainKey(SessionIdOf(key))} - {key} - DoomedBy(rest) == db - DoomedBy({key} + rest)
  {
    hide MainKey, SessionIdOf;
    DoomedBySum({key}, rest);
    assert DoomedBy({key}) == {key, MainKey(SessionIdOf(key))};
  }

  lemma {:induction false} AfterRepliesIs(db: Db, replies: seq<ScanReply>)
    ensures AfterReplies(db, replies) == db - DoomedBy(ReturnedKeys(replies))
    decreases |replies|
  {
    if replies == [] {
      assert DoomedBy(ReturnedKeys(replies)) == {};
    } else {
      AfterBatchIs(db, replies[0].keys);
      AfterRepliesIs(AfterBatch(db, replies[0].keys), replies[1..]);
      ReturnedKeysCons(replies);
      DoomedBySum(KeySet(replies[0].keys), ReturnedKeys(replies[1..]));
    }
  }

  lemma ReturnedKeysCons(replies: seq<ScanReply>)
    requires replies != []
    ensures ReturnedKeys(replies) == KeySet(replies[0].keys) + ReturnedKeys(replies[1..])
  {
    forall k | k in ReturnedKeys(replies[1..]) ensures k in ReturnedKeys(replies) {
      var i :| 0 <= i < |replies| - 1 && k in replies[1..][i].keys;
      assert k in replies[i + 1].keys;
    }
    forall k | k in ReturnedKeys(replies) ensures k in KeySet(replies[0].keys) || k in ReturnedKeys(replies[1..]) {
      var i :| 0 <= i < |replies| && k in replies[i].keys;
      if i > 0 {
        assert k in replies[1..][i - 1].keys;
      }
    }
  }

  lemma DoomedBySum(a: set<string>, b: set<string>)
    ensures DoomedBy(a + b) == DoomedBy(a) + DoomedBy(b)
  {
  }

  // ---------- the calls keep the invariant ----------

  lemma SessionAfterPut(db: Db, now: nat, timeout: nat, sessionId: string, data: SessionData, s: string)
    ensures Session(WithSession(db, now, timeout, sessionId, data), s)
         == if s == sessionId then Some(data) else Session(db, s)
  {
    NamespacesDisjoint(s, data.dto.userId, sessionId, "");
    if MainKey(s) == MainKey(sessionId) {
      MainKeyInjective(s, sessionId);
    }
  }

  /** Writing a session whose id is new, or whose user does not change, keeps both keys agreed. */
  lemma WithSessionAgreed(db: Db, now: nat, timeout: nat, sessionId: string, data: SessionData)
    requires Agreed(db)
    requires ColonFree(sessionId) && ColonFree(data.dto.userId) && GlobFree(data.dto.userId)
    requires Session(db, sessionId).Some? ==> Session(db, sessionId).value.dto.userId == data.dto.userId
    ensures Agreed(WithSession(db, now, timeout, sessionId, data))
    ensures forall s :: Session(WithSession(db, now, timeout, sessionId, data), s)
              == if s == sessionId then Some(data) else Session(db, s)
  {
    var db' := WithSession(db, now, timeout, sessionId, data);
    forall s ensures Session(db', s) == if s == sessionId then Some(data) else Session(db, s) {
      SessionAfterPut(db, now, timeout, sessionId, data, s);
    }
    forall k | k in db' ensures KnownKey(db', k) {
      WithSessionKnown(db, now, timeout, sessionId, data, k);
    }
    forall s | Session(db', s).Some?
      ensures
        var u := Session(db', s).value.dto.userId;
        && ColonFree(s) && ColonFree(u) && GlobFree(u) && TrackKey(u, s) in db'
        && db'[TrackKey(u, s)].expiresAt == db'[MainKey(s)].expiresAt
    {
      WithSessionPair(db, now, timeout, sessionId, data, s);
    }
  }

  lemma WithSessionKnown(db: Db, now: nat, timeout: nat, sessionId: string, data: SessionData, k: string)
    requires Agreed(db)
    requires Session(db, sessionId).Some? ==> Session(db, sessionId).value.dto.userId == data.dto.userId
    requires k in WithSession(db, now, timeout, sessionId, data)
    ensures KnownKey(WithSession(db, now, timeout, sessionId, data), k)
  {
    SessionAfterPut(db, now, timeout, sessionId, data, sessionId);
    if k != MainKey(sessionId) && k != TrackKey(data.dto.userId, sessionId) {
      assert KnownKey(db, k);
      if s :| k == MainKey(s) && Session(db, s).Some? {
        SessionAfterPut(db, now, timeout, sessionId, data, s);
      } else if u, s :| k == TrackKey(u, s) && Session(db, s).Some? && Session(db, s).value.dto.userId == u {
        SessionAfterPut(db, now, timeout, sessionId, data, s);
      }
    }
  }

  lemma WithSessionPair(db: Db, now: nat, timeout: nat, sessionId: string, data: SessionData, s: string)
    requires Agreed(db)
    requires ColonFree(sessionId) && ColonFree(data.dto.userId) && GlobFree(data.dto.userId)
    requires Session(WithSession(db, now, timeout, sessionId, data), s).Some?
    ensures
      var db' := WithSession(db, now, timeout, sessionId, data);
      var u := Session(db', s).value.dto.userId;
      && ColonFree(s) && ColonFree(u) && GlobFree(u) && TrackKey(u, s) in db'
      && db'[TrackKey(u, s)].expiresAt == db'[MainKey(s)].expiresAt
  {
    SessionAfterPut(db, now, timeout, sessionId, data, s);
    NamespacesDisjoint(s, data.dto.userId, sessionId, "");
    if s != sessionId {
      var u := Session(db, s).value.dto.userId;
      if MainKey(s) == MainKey(sessionId) {
        MainKeyInjective(s, sessionId);
      }
      if TrackKey(u, s) == TrackKey(data.dto.userId, sessionId) {
        TrackKeyInjective(u, s, data.dto.userId, sessionId);
      }
      NamespacesDisjoint(sessionId, u, s, "");
    }
  }

  lemma RemovalAgreed(db: Db, doomed: set<string>)
    requires Agreed(db)
    requires forall s :: Session(db, s).Some? ==>
               (MainKey(s) in doomed <==> TrackKey(Session(db, s).value.dto.userId, s) in doomed)
    ensures Agreed(db - doomed)
    ensures forall s :: Session(db - doomed, s) == if MainKey(s) in doomed then None else Session(db, s)
  {
    var db' := db - doomed;
    KeyFacts();
    forall s ensures Session(db', s) == if MainKey(s) in doomed then None else Session(db, s) {
    }
    forall k | k in db' ensures KnownKey(db', k) {
      assert KnownKey(db, k);
    }
  }

  lemma DestroyedAgreed(db: Db, sessionId: string)
    requires Agreed(db)
    ensures Agreed(Destroyed(db, sessionId))
    ensures forall s :: Session(Destroyed(db, sessionId), s) == if s == sessionId then None else Session(db, s)
    ensures SubStore(Destroyed(db, sessionId), db)
  {
    if Session(db, sessionId).Some? {
      var u := Session(db, sessionId).value.dto.userId;
      var doomed := {MainKey(sessionId), TrackKey(u, sessionId)};
      forall s ensures MainKey(s) in doomed <==> s == sessionId {
        NamespacesDisjoint(s, u, sessionId, "");
        if MainKey(s) == MainKey(sessionId) {
          MainKeyInjective(s, sessionId);
        }
      }
      forall s | Session(db, s).Some?
        ensures TrackKey(Session(db, s).value.dto.userId, s) in doomed <==> s == sessionId
      {
        var v := Session(db, s).value.dto.userId;
        NamespacesDisjoint(sessionId, v, s, "");
        if TrackKey(v, s) == TrackKey(u, sessionId) {
          TrackKeyInjective(v, s, u, sessionId);
        }
      }
      RemovalAgreed(db, doomed);
      assert Destroyed(db, sessionId) == db - doomed;
    }
  }

  /** Expiry removes both keys of a session together. */
  lemma SurvivingAgreed(db: Db, now: nat)
    requires Agreed(db)
    ensures Agreed(Surviving(db, now)) && SubStore(Surviving(db, now), db)
    ensures forall s :: Session(Surviving(db, now), s)
              == if Session(db, s).Some? && now < db[MainKey(s)].expiresAt then Session(db, s) else None
  {
    var doomed := set k | k in db && db[k].expiresAt <= now;
    assert Surviving(db, now) == db - doomed;
    RemovalAgreed(db, doomed);
  }

  /** Bulk invalidation removes exactly the user's sessions, and of every other key nothing. */
  lemma InvalidatedExactly(db: Db, userId: string)
    requires Agreed(db) && ColonFree(userId) && GlobFree(userId)
    ensures Agreed(Invalidated(db, userId)) && SubStore(Invalidated(db, userId), db)
    ensures forall s :: Session(Invalidated(db, userId), s)
              == if Session(db, s).Some? && Session(db, s).value.dto.userId == userId then None else Session(db, s)
    ensures forall s :: TrackKey(userId, s) !in Invalidated(db, userId)
    ensures forall k :: k in db && k !in Invalidated(db, userId) ==>
              exists s :: Session(db, s).Some? && Session(db, s).value.dto.userId == userId
                          && (k == MainKey(s) || k == TrackKey(userId, s))
  {
    var tracked := Matching(db, ScanPattern(userId));
    var doomed := DoomedBy(tracked);
    KeyFacts();
    forall k | k in tracked
      ensures exists s :: k == TrackKey(userId, s) && ColonFree(s) && Session(db, s).Some?
                          && Session(db, s).value.dto.userId == userId
    {
      TrackedIsOwned(db, userId, k);
    }
    forall s | Session(db, s).Some?
      ensures MainKey(s) in doomed <==> Session(db, s).value.dto.userId == userId
      ensures MainKey(s) in doomed <==> TrackKey(Session(db, s).value.dto.userId, s) in doomed
    {
      var u := Session(db, s).value.dto.userId;
      if u == userId {
        PatternMatchesExactly(userId, TrackKey(userId, s));
        assert TrackKey(userId, s) in tracked;
      }
    }
    RemovalAgreed(db, doomed);
    forall s ensures TrackKey(userId, s) !in Invalidated(db, userId) {
      PatternMatchesExactly(userId, TrackKey(userId, s));
    }
  }

  lemma TrackedIsOwned(db: Db, userId: string, k: string)
    requires Agreed(db) && ColonFree(userId) && GlobFree(userId) && k in Matching(db, ScanPattern(userId))
    ensures exists s :: k == TrackKey(userId, s) && ColonFree(s) && Session(db, s).Some?
                        && Session(db, s).value.dto.userId == userId
  {
    PatternMatchesExactly(userId, k);
    var t :| k == TrackKey(userId, t);
    assert KnownKey(db, k);
    NamespacesDisjoint("", userId, t, "");
    forall s, r ensures k != MainKey(s) && k != PendingKey(r) {
      NamespacesDisjoint(s, userId, t, r);
    }
    var u, s :| k == TrackKey(u, s) && Session(db, s).Some? && Session(db, s).value.dto.userId == u;
    TrackKeyInjective(u, s, userId, t);
  }
}
