/**
 The expiring key-value store behind `RedisService`. A key is dropped the moment the clock reaches its
 expiry, which is what every command can observe of Redis' own lazy expiry. Replies of SCAN are data
 the server chooses; `ScanIteration` is the documented guarantee of one full iteration.
 */
module Redis {
  import opened Text

  type Role = string

  datatype SessionDto = SessionDto(
    userId: string, username: string, roles: seq<Role>, ipAddress: string, userAgent: string)

  datatype SessionData = SessionData(dto: SessionDto, loginTime: nat, lastActivity: nat)

  /** The request codes that are ever stored. */
  datatype RequestCode = RequestDiscovery | RequestAssignDeviceFunction | RequestHardwareMetrics

  /** What the services store, after the JSON round trip. */
  datatype Payload =
    | SessionJson(session: SessionData)
    | TrackFlag
    | PendingJson(requestCode: Option<RequestCode>, requestId: Option<string>, userId: Option<string>)

  datatype Entry = Entry(value: Payload, expiresAt: nat)

  type Db = map<string, Entry>

  function Lookup(db: Db, key: string): Option<Payload> {
    if key in db then Some(db[key].value) else None
  }

  function Put(db: Db, now: nat, key: string, value: Payload, ttl: nat): Db {
    db[key := Entry(value, now + ttl)]
  }

  /** The keys that outlive the clock. */
  function Surviving(db: Db, now: nat): Db {
    map k | k in db && now < db[k].expiresAt :: db[k]
  }

  ghost predicate AllLive(db: Db, now: nat) {
    forall k :: k in db ==> now < db[k].expiresAt
  }

  datatype ScanReply = ScanReply(cursor: string, keys: seq<string>)

  // ---------- glob patterns, as Redis reads them ----------

  /** Where a character class whose members start at `i` ends; one without `]` runs to the end of the pattern. */
  function ClassEnd(p: string, i: nat): (e: nat)
    requires i <= |p|
    ensures i <= e <= |p|
    decreases |p| - i
  {
    if i == |p| then i
    else if i + 1 < |p| && p[i] == '\\' then ClassEnd(p, i + 2)
    else if p[i] == ']' then i + 1
    else if i + 2 < |p| && p[i + 1] == '-' then ClassEnd(p, i + 3)
    else ClassEnd(p, i + 1)
  }

  /** Members are characters, escaped characters, and ranges with their ends in either order. */
  predicate ClassHas(p: string, i: nat, c: char)
    requires i <= |p|
    decreases |p| - i
  {
    if i == |p| then false
    else if i + 1 < |p| && p[i] == '\\' then p[i + 1] == c || ClassHas(p, i + 2, c)
    else if p[i] == ']' then false
    else if i + 2 < |p| && p[i + 1] == '-' then
      p[i] <= c <= p[i + 2] || p[i + 2] <= c <= p[i] || ClassHas(p, i + 3, c)
    else p[i] == c || ClassHas(p, i + 1, c)
  }

  predicate Negated(p: string) {
    |p| >= 2 && p[1] == '^'
  }

  /** Whether the first item of a pattern, no `*`, takes the character. */
  predicate Takes(p: string, c: char)
    requires p != ""
  {
    if p[0] == '?' then true
    else if p[0] == '[' then (if Negated(p) then !ClassHas(p, 2, c) else ClassHas(p, 1, c))
    else if p[0] == '\\' && |p| >= 2 then p[1] == c
    else p[0] == c
  }

  /** Where the first item ends. */
  function ItemEnd(p: string): (e: nat)
    requires p != ""
    ensures 0 < e <= |p|
  {
    if p[0] == '[' then ClassEnd(p, if Negated(p) then 2 else 1)
    else if p[0] == '\\' && |p| >= 2 then 2
    else 1
  }

  predicate GlobMatch(pattern: string, text: string)
    decreases |pattern| + |text|
  {
    if pattern == "" then text == ""
    else if pattern[0] == '*' then
      GlobMatch(pattern[1..], text) || (text != "" && GlobMatch(pattern, text[1..]))
    else
      text != "" && Takes(pattern, text[0]) && GlobMatch(pattern[ItemEnd(pattern)..], text[1..])
  }

  /**
   One full iteration over a store whose matching keys are only removed meanwhile: it ends with the
   first cursor "0", returns only matching keys of the store, and returns each of them at least once.
   Repeated keys and any batch sizes are allowed.
   */
  ghost predicate ScanIteration(db: Db, pattern: string, replies: seq<ScanReply>) {
    && Terminated(replies)
    && ReturnedKeys(replies) == Matching(db, pattern)
  }

  predicate Terminated(replies: seq<ScanReply>) {
    replies != [] && (if replies[0].cursor == "0" then |replies| == 1 else Terminated(replies[1..]))
  }

  function ReturnedKeys(replies: seq<ScanReply>): set<string> {
    set i, k | 0 <= i < |replies| && k in replies[i].keys :: k
  }

  function Matching(db: Db, pattern: string): set<string> {
    set k | k in db && GlobMatch(pattern, k)
  }

  class RedisService {
    var now: nat
    var db: Db
    /** What the server will answer to the SCAN calls of the iteration under way. */
    var scanReplies: seq<ScanReply>

    ghost predicate Valid()
      reads this
    {
      AllLive(db, now)
    }

    constructor ()
      ensures Valid() && now == 0 && db == map[]
    {
      now, db, scanReplies := 0, map[], [];
    }

    /** Time passes; expired keys vanish. */
    method Tick(seconds: nat)
      requires Valid()
      modifies `now, `db
      ensures Valid()
      ensures now == old(now) + seconds && db == Surviving(old(db), now)
    {
      now := now + seconds;
      db := Surviving(db, now);
    }

    method Get(key: string) returns (value: Option<Payload>)
      ensures value == Lookup(db, key)
    {
      value := Lookup(db, key);
    }

    /** SETEX refuses a time-to-live below one second and stores nothing. */
    method Setex(key: string, value: Payload, ttlSeconds: int) returns (ok: bool)
      requires Valid()
      modifies `db
      ensures Valid()
      ensures ok <==> ttlSeconds > 0
      ensures db == if ok then Put(old(db), now, key, value, ttlSeconds) else old(db)
    {
      ok := ttlSeconds > 0;
      if ok {
        db := Put(db, now, key, value, ttlSeconds);
      }
    }

    method Del(key: string) returns (removed: nat)
      requires Valid()
      modifies `db
      ensures Valid()
      ensures db == old(db) - {key}
      ensures removed == if key in old(db) then 1 else 0
    {
      removed := if key in db then 1 else 0;
      db := db - {key};
    }

    method Scan(scanCursor: string, pattern: string, count: nat) returns (nextCursor: string, keys: seq<string>)
      requires |scanReplies| > 0
      modifies `scanReplies
      ensures nextCursor == old(scanReplies)[0].cursor && keys == old(scanReplies)[0].keys
      ensures scanReplies == old(scanReplies)[1..]
    {
      nextCursor, keys := scanReplies[0].cursor, scanReplies[0].keys;
      scanReplies := scanReplies[1..];
    }
  }
}
