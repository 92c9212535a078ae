/**
 The session store refines a history: what `getSession` returns is determined by the list of calls
 made so far, read without looking at any Redis key or at any state in between.
 */
module SessionHistory {
  import opened Text
  import opened Redis
  import opened SessionKeys
  import opened Sessions

  /** Whole calls; `sessionId` of a creation is the fresh uuid. */
  datatype Call =
    | Create(sessionId: string, dto: SessionDto)
    | Extend(sessionId: string)
    | Destroy(sessionId: string)
    | Invalidate(userId: string)
    | Tick(seconds: nat)

  datatype Server = Server(now: nat, db: Db)

  function Apply(timeout: nat, st: Server, call: Call): Server {
    match call
    case Create(s, dto) =>
      st.(db := WithSession(st.db, st.now, timeout, s, SessionData(dto, st.now, st.now)))
    case Extend(s) => st.(db := Extended(st.db, st.now, timeout, s))
    case Destroy(s) => st.(db := Destroyed(st.db, s))
    case Invalidate(u) => st.(db := Invalidated(st.db, u))
    case Tick(d) => Server(st.now + d, Surviving(st.db, st.now + d))
  }

  function Exec(timeout: nat, calls: seq<Call>): Server {
    if calls == [] then Server(0, map[])
    else Apply(timeout, Exec(timeout, calls[..|calls| - 1]), calls[|calls| - 1])
  }

  /** `getSession(s)` after the calls. */
  function Read(timeout: nat, calls: seq<Call>, s: string): Option<SessionData> {
    Session(Exec(timeout, calls).db, s)
  }

  /**
   uuids do not repeat; session ids have no colon, user ids neither a colon nor a pattern character
   (`*`, `?`, `[`, `\`).
   */
  ghost predicate ValidRun(calls: seq<Call>) {
    && (forall i :: 0 <= i < |calls| ==> ValidCall(calls[i]))
    && (forall i, j :: 0 <= i < j < |calls| && calls[i].Create? && calls[j].Create? ==>
          calls[i].sessionId != calls[j].sessionId)
  }

  predicate ValidCall(call: Call) {
    match call
    case Create(s, dto) => ColonFree(s) && ColonFree(dto.userId) && GlobFree(dto.userId)
    case Invalidate(u) => ColonFree(u) && GlobFree(u)
    case _ => true
  }

  // ---------- the history specification ----------

  function Clock(calls: seq<Call>): nat {
    if calls == [] then 0
    else
      var c := calls[|calls| - 1];
      Clock(calls[..|calls| - 1]) + if c.Tick? then c.seconds else 0
  }

  datatype Creation = Creation(index: nat, time: nat, dto: SessionDto)

  function CreationOf(calls: seq<Call>, s: string): Option<Creation> {
    if calls == [] then None
    else
      var n := |calls| - 1;
      if calls[n].Create? && calls[n].sessionId == s then Some(Creation(n, Clock(calls[..n]), calls[n].dto))
      else CreationOf(calls[..n], s)
  }

  datatype Touch = Touch(index: nat, time: nat)

  /** A creation, or an extension of a session that the history before it says is there. */
  predicate Touches(timeout: nat, before: seq<Call>, call: Call, s: string)
    decreases |before|, 2
  {
    || (call.Create? && call.sessionId == s)
    || (call == Extend(s) && HistorySession(timeout, before, s).Some?)
  }

  function LastTouch(timeout: nat, calls: seq<Call>, s: string): Option<Touch>
    decreases |calls|, 0
  {
    if calls == [] then None
    else
      var n := |calls| - 1;
      if Touches(timeout, calls[..n], calls[n], s) then Some(Touch(n, Clock(calls[..n])))
      else LastTouch(timeout, calls[..n], s)
  }

  predicate Kills(call: Call, s: string, userId: string) {
    call == Destroy(s) || call == Invalidate(userId)
  }

  predicate KilledAfter(calls: seq<Call>, index: nat, s: string, userId: string) {
    exists j :: index < j < |calls| && Kills(calls[j], s, userId)
  }

  /**
   Data exactly when the latest creation or successful extension is less than the timeout ago and no
   destroy of the session or invalidation of its user came after it; then the data of the creation,
   with the time of that latest touch as last activity.
   */
  function HistorySession(timeout: nat, calls: seq<Call>, s: string): Option<SessionData>
    decreases |calls|, 1
  {
    match (LastTouch(timeout, calls, s), CreationOf(calls, s))
    case (Some(touch), Some(creation)) =>
      if Clock(calls) < touch.time + timeout && !KilledAfter(calls, touch.index, s, creation.dto.userId)
      then Some(SessionData(creation.dto, creation.time, touch.time))
      else None
    case _ => None
  }

  // ---------- the refinement ----------

  ghost predicate Represents(timeout: nat, calls: seq<Call>, st: Server) {
    && st.now == Clock(calls)
    && Agreed(st.db) && AllLive(st.db, st.now)
    && (forall s :: Session(st.db, s) == HistorySession(timeout, calls, s))
    && (forall s :: Session(st.db, s).Some? ==>
          st.db[MainKey(s)].expiresAt == Session(st.db, s).value.lastActivity + timeout)
  }

  lemma {:induction false} HistoryIndices(timeout: nat, calls: seq<Call>, s: string)
    ensures LastTouch(timeout, calls, s).Some? ==>
              LastTouch(timeout, calls, s).value.index < |calls| && LastTouch(timeout, calls, s).value.time <= Clock(calls)
    ensures CreationOf(calls, s).Some? ==>
              var c := CreationOf(calls, s).value; c.index < |calls| && calls[c.index] == Create(s, c.dto)
    decreases |calls|
  {
    if calls != [] {
      HistoryIndices(timeout, calls[..|calls| - 1], s);
    }
  }

  /** A call that does not touch a session can only end it: by killing it or by letting it expire. */
  lemma UntouchedStep(timeout: nat, calls: seq<Call>, call: Call, s: string)
    requires !Touches(timeout, calls, call, s)
    ensures
      var before := HistorySession(timeout, calls, s);
      HistorySession(timeout, calls + [call], s) ==
      if && before.Some? && !Kills(call, s, before.value.dto.userId)
         && Clock(calls + [call]) < before.value.lastActivity + timeout
      then before else None
  {
    var all := calls + [call];
    assert all[..|all| - 1] == calls && all[|all| - 1] == call;
    HistoryIndices(timeout, calls, s);
    if LastTouch(timeout, calls, s).Some? && CreationOf(calls, s).Some? {
      var i := LastTouch(timeout, calls, s).value.index;
      var u := CreationOf(calls, s).value.dto.userId;
      assert KilledAfter(all, i, s, u) <==> KilledAfter(calls, i, s, u) || Kills(call, s, u) by {
        if KilledAfter(calls, i, s, u) {
          var j :| i < j < |calls| && Kills(calls[j], s, u);
          assert Kills(all[j], s, u);
        }
        if Kills(call, s, u) {
          assert Kills(all[|calls|], s, u);
        }
        if j :| i < j < |all| && Kills(all[j], s, u) {
          if j < |calls| {
            assert Kills(calls[j], s, u);
          }
        }
      }
      assert Clock(all) >= Clock(calls);
    }
  }

  lemma CreateStep(timeout: nat, calls: seq<Call>, s: string, dto: SessionDto)
    requires timeout > 0
    ensures HistorySession(timeout, calls + [Create(s, dto)], s) == Some(SessionData(dto, Clock(calls), Clock(calls)))
  {
    var all := calls + [Create(s, dto)];
    assert all[..|all| - 1] == calls;
    assert LastTouch(timeout, all, s) == Some(Touch(|calls|, Clock(calls)));
  }

  lemma ExtendStep(timeout: nat, calls: seq<Call>, s: string)
    requires timeout > 0 && HistorySession(timeout, calls, s).Some?
    ensures HistorySession(timeout, calls + [Extend(s)], s)
         == Some(HistorySession(timeout, calls, s).value.(lastActivity := Clock(calls)))
  {
    var all := calls + [Extend(s)];
    assert all[..|all| - 1] == calls;
    assert LastTouch(timeout, all, s) == Some(Touch(|calls|, Clock(calls)));
  }

  lemma {:induction false} NeverCreatedNeverLive(timeout: nat, calls: seq<Call>, s: string)
    requires forall i :: 0 <= i < |calls| ==> !(calls[i].Create? && calls[i].sessionId == s)
    ensures HistorySession(timeout, calls, s).None?
  {
    HistoryIndices(timeout, calls, s);
  }

  lemma ApplyRepresents(timeout: nat, calls: seq<Call>, call: Call)
    requires timeout > 0 && ValidRun(calls + [call])
    requires Represents(timeout, calls, Exec(timeout, calls))
    ensures Represents(timeout, calls + [call], Apply(timeout, Exec(timeout, calls), call))
  {
    var all := calls + [call];
    assert all[..|all| - 1] == calls && all[|all| - 1] == call;
    assert ValidCall(all[|calls|]);
    match call {
      case Create(s, dto) =>
        forall i | 0 <= i < |calls| ensures !(calls[i].Create? && calls[i].sessionId == s) {
          assert all[i] == calls[i];
        }
        CreateRepresents(timeout, calls, s, dto);
      case Extend(s) =>
        ExtendRepresents(timeout, calls, s);
      case _ =>
        var st := Exec(timeout, calls);
        RemovingCallEndsOnly(timeout, st, call);
        SameClock(calls, call);
        EndsOnlyRepresents(timeout, calls, call, st, Apply(timeout, st, call));
    }
  }

  lemma CreateRepresents(timeout: nat, calls: seq<Call>, s: string, dto: SessionDto)
    requires timeout > 0 && Represents(timeout, calls, Exec(timeout, calls))
    requires ColonFree(s) && ColonFree(dto.userId) && GlobFree(dto.userId)
    requires forall i :: 0 <= i < |calls| ==> !(calls[i].Create? && calls[i].sessionId == s)
    ensures Represents(timeout, calls + [Create(s, dto)], Apply(timeout, Exec(timeout, calls), Create(s, dto)))
  {
    var st := Exec(timeout, calls);
    var data := SessionData(dto, st.now, st.now);
    NeverCreatedNeverLive(timeout, calls, s);
    WithSessionAgreed(st.db, st.now, timeout, s, data);
    CreateStep(timeout, calls, s, dto);
    OthersUntouched(timeout, calls, Create(s, dto), s);
    ExpiryOfWritten(timeout, st, s, data);
    SameClock(calls, Create(s, dto));
  }

  lemma ExtendRepresents(timeout: nat, calls: seq<Call>, s: string)
    requires timeout > 0 && Represents(timeout, calls, Exec(timeout, calls))
    ensures Represents(timeout, calls + [Extend(s)], Apply(timeout, Exec(timeout, calls), Extend(s)))
  {
    var st := Exec(timeout, calls);
    SameClock(calls, Extend(s));
    OthersUntouched(timeout, calls, Extend(s), s);
    if Session(st.db, s).Some? {
      var data := Session(st.db, s).value.(lastActivity := st.now);
      WithSessionAgreed(st.db, st.now, timeout, s, data);
      ExtendStep(timeout, calls, s);
      ExpiryOfWritten(timeout, st, s, data);
    } else {
      UntouchedStep(timeout, calls, Extend(s), s);
    }
  }

  lemma SameClock(calls: seq<Call>, call: Call)
    ensures Clock(calls + [call]) == Clock(calls) + if call.Tick? then call.seconds else 0
  {
    assert (calls + [call])[..|calls|] == calls;
  }

  /** What a call that only removes keys leaves of each session. */
  ghost predicate EndsOnly(st: Server, call: Call, st': Server) {
    && Agreed(st'.db) && AllLive(st'.db, st'.now) && SubStore(st'.db, st.db)
    && forall t :: Session(st'.db, t) ==
         if && Session(st.db, t).Some?
            && !Kills(call, t, Session(st.db, t).value.dto.userId)
            && st'.now < st.db[MainKey(t)].expiresAt
         then Session(st.db, t) else None
  }

  lemma DestroyEndsOnly(st: Server, db': Db, s: string)
    requires Agreed(st.db) && AllLive(st.db, st.now) && db' == Destroyed(st.db, s)
    ensures EndsOnly(st, Destroy(s), Server(st.now, db'))
  {
    DestroyedAgreed(st.db, s);
  }

  lemma InvalidateEndsOnly(st: Server, db': Db, u: string)
    requires Agreed(st.db) && AllLive(st.db, st.now) && ColonFree(u) && GlobFree(u)
    requires db' == Invalidated(st.db, u)
    ensures EndsOnly(st, Invalidate(u), Server(st.now, db'))
  {
    InvalidatedExactly(st.db, u);
  }

  lemma TickEndsOnly(st: Server, d: nat)
    requires Agreed(st.db) && AllLive(st.db, st.now)
    ensures EndsOnly(st, Tick(d), Server(st.now + d, Surviving(st.db, st.now + d)))
  {
    SurvivingAgreed(st.db, st.now + d);
  }

  lemma RemovingCallEndsOnly(timeout: nat, st: Server, call: Call)
    requires Agreed(st.db) && AllLive(st.db, st.now)
    requires ValidCall(call) && !call.Create? && !call.Extend?
    ensures EndsOnly(st, call, Apply(timeout, st, call))
  {
    match call {
      case Destroy(s) => DestroyEndsOnly(st, Destroyed(st.db, s), s);
      case Invalidate(u) => InvalidateEndsOnly(st, Invalidated(st.db, u), u);
      case Tick(d) => TickEndsOnly(st, d);
    }
  }

  lemma EndsOnlyRepresents(timeout: nat, calls: seq<Call>, call: Call, st: Server, st': Server)
    requires Represents(timeout, calls, st) && EndsOnly(st, call, st')
    requires !call.Create? && !call.Extend? && st'.now == Clock(calls + [call])
    ensures Represents(timeout, calls + [call], st')
  {
    forall t ensures Session(st'.db, t) == HistorySession(timeout, calls + [call], t) {
      UntouchedStep(timeout, calls, call, t);
    }
    forall t | Session(st'.db, t).Some?
      ensures st'.db[MainKey(t)].expiresAt == Session(st'.db, t).value.lastActivity + timeout
    {
      assert MainKey(t) in st'.db;
    }
  }

  lemma LiveWithin(timeout: nat, calls: seq<Call>, t: string)
    ensures HistorySession(timeout, calls, t).Some? ==>
              Clock(calls) < HistorySession(timeout, calls, t).value.lastActivity + timeout
  {
  }

  lemma OthersUntouched(timeout: nat, calls: seq<Call>, call: Call, s: string)
    requires (call.Create? && call.sessionId == s) || call == Extend(s)
    ensures forall t :: t != s ==>
              HistorySession(timeout, calls + [call], t) == HistorySession(timeout, calls, t)
  {
    var all := calls + [call];
    assert all[..|all| - 1] == calls && all[|all| - 1] == call;
    forall t | t != s ensures HistorySession(timeout, all, t) == HistorySession(timeout, calls, t) {
      UntouchedStep(timeout, calls, call, t);
      LiveWithin(timeout, calls, t);
    }
  }

  lemma ExpiryOfWritten(timeout: nat, st: Server, s: string, data: SessionData)
    requires AllLive(st.db, st.now) && timeout > 0
    ensures
      var db' := WithSession(st.db, st.now, timeout, s, data);
      && AllLive(db', st.now) && MainKey(s) in db' && db'[MainKey(s)].expiresAt == st.now + timeout
      && forall t :: t != s && MainKey(t) in st.db ==> MainKey(t) in db' && db'[MainKey(t)] == st.db[MainKey(t)]
  {
    NamespacesDisjoint(s, data.dto.userId, s, "");
    forall t | t != s ensures MainKey(t) != MainKey(s) && MainKey(t) != TrackKey(data.dto.userId, s) {
      NamespacesDisjoint(t, data.dto.userId, s, "");
      if MainKey(t) == MainKey(s) {
        MainKeyInjective(t, s);
      }
    }
  }

  lemma {:induction false} RunRepresents(timeout: nat, calls: seq<Call>)
    requires timeout > 0 && ValidRun(calls)
    ensures Represents(timeout, calls, Exec(timeout, calls))
    decreases |calls|
  {
    if calls == [] {
      forall s ensures Session(map[], s) == HistorySession(timeout, calls, s) {
      }
    } else {
      var n := |calls| - 1;
      assert calls == calls[..n] + [calls[n]];
      RunRepresents(timeout, calls[..n]);
      ApplyRepresents(timeout, calls[..n], calls[n]);
    }
  }

  /** In every run the store answers `getSession` exactly as the history says. */
  lemma StoreRefinesHistory(timeout: nat, calls: seq<Call>, s: string)
    requires timeout > 0 && ValidRun(calls)
    ensures Read(timeout, calls, s) == HistorySession(timeout, calls, s)
  {
    RunRepresents(timeout, calls);
  }

  // ---------- consequences over runs ----------

  lemma {:induction false} TouchesAdvance(timeout: nat, calls: seq<Call>, n: nat, s: string)
    requires n <= |calls| && ValidRun(calls)
    ensures LastTouch(timeout, calls[..n], s).Some? ==>
              && LastTouch(timeout, calls, s).Some?
              && LastTouch(timeout, calls[..n], s).value.time <= LastTouch(timeout, calls, s).value.time
    ensures CreationOf(calls[..n], s).Some? ==> CreationOf(calls, s) == CreationOf(calls[..n], s)
    decreases |calls|
  {
    if n == |calls| {
      assert calls[..n] == calls;
    } else {
      var m := |calls| - 1;
      TouchesAdvance(timeout, calls[..m], n, s);
      assert calls[..m][..n] == calls[..n];
      HistoryIndices(timeout, calls[..m], s);
      HistoryIndices(timeout, calls[..n], s);
    }
  }

  /**
   As long as a session lives, its user, name, roles, addresses and login time are those given at
   its creation, and its last activity never goes back.
   */
  lemma SessionContentFixed(timeout: nat, calls: seq<Call>, n: nat, s: string)
    requires timeout > 0 && ValidRun(calls) && n <= |calls|
    requires Read(timeout, calls[..n], s).Some? && Read(timeout, calls, s).Some?
    ensures exists i, dto :: 0 <= i < n && calls[i] == Create(s, dto)
              && Read(timeout, calls, s).value.dto == Read(timeout, calls[..n], s).value.dto == dto
              && Read(timeout, calls, s).value.loginTime == Read(timeout, calls[..n], s).value.loginTime == Clock(calls[..i])
    ensures Read(timeout, calls[..n], s).value.lastActivity <= Read(timeout, calls, s).value.lastActivity
  {
    StoreRefinesHistory(timeout, calls, s);
    StoreRefinesHistory(timeout, calls[..n], s);
    TouchesAdvance(timeout, calls, n, s);
    HistoryIndices(timeout, calls[..n], s);
    CreationTime(calls[..n], s);
    var c := CreationOf(calls[..n], s).value;
    assert calls[..n][..c.index] == calls[..c.index];
    assert calls[c.index] == Create(s, c.dto);
  }

  lemma {:induction false} CreationTime(calls: seq<Call>, s: string)
    requires CreationOf(calls, s).Some?
    ensures
      var c := CreationOf(calls, s).value; c.index < |calls| && c.time == Clock(calls[..c.index])
    decreases |calls|
  {
    var n := |calls| - 1;
    if !(calls[n].Create? && calls[n].sessionId == s) {
      CreationTime(calls[..n], s);
      var c := CreationOf(calls, s).value;
      assert calls[..n][..c.index] == calls[..c.index];
    }
  }

  /** A session that is gone does not come back unless it is created. */
  lemma {:induction false} GoneStaysGone(timeout: nat, calls: seq<Call>, n: nat, s: string)
    requires timeout > 0 && ValidRun(calls) && n <= |calls|
    requires Read(timeout, calls[..n], s).None?
    requires forall i :: n <= i < |calls| ==> !(calls[i].Create? && calls[i].sessionId == s)
    ensures Read(timeout, calls, s).None?
    decreases |calls|
  {
    if n == |calls| {
      assert calls[..n] == calls;
    } else {
      var m := |calls| - 1;
      assert calls[..m][..n] == calls[..n];
      GoneStaysGone(timeout, calls[..m], n, s);
      StoreRefinesHistory(timeout, calls, s);
      StoreRefinesHistory(timeout, calls[..m], s);
      UntouchedStep(timeout, calls[..m], calls[m], s);
      assert calls == calls[..m] + [calls[m]];
    }
  }

  /** An invalidation leaves no session of its user. */
  lemma InvalidationEnds(timeout: nat, calls: seq<Call>, j: nat, s: string, u: string)
    requires timeout > 0 && j < |calls| && ValidRun(calls[..j]) && ValidRun(calls[..j + 1]) && calls[j] == Invalidate(u)
    ensures Read(timeout, calls[..j + 1], s).Some? ==> Read(timeout, calls[..j + 1], s).value.dto.userId != u
  {
    hide Exec, Read, ValidRun, HistorySession;
    assert calls[..j + 1] == calls[..j] + [calls[j]];
    StoreRefinesHistory(timeout, calls[..j + 1], s);
    StoreRefinesHistory(timeout, calls[..j], s);
    UntouchedStep(timeout, calls[..j], calls[j], s);
  }

  /** Whoever is live after an invalidation of its user was created after it. */
  lemma LiveAfterInvalidationIsNewer(timeout: nat, calls: seq<Call>, j: nat, s: string)
    requires timeout > 0 && ValidRun(calls) && j < |calls|
    requires Read(timeout, calls, s).Some? && calls[j] == Invalidate(Read(timeout, calls, s).value.dto.userId)
    ensures exists i :: j < i < |calls| && calls[i].Create? && calls[i].sessionId == s
  {
    hide Exec, Read;
    if forall i :: j + 1 <= i < |calls| ==> !(calls[i].Create? && calls[i].sessionId == s) {
      InvalidationEnds(timeout, calls, j, s, Read(timeout, calls, s).value.dto.userId);
      if Read(timeout, calls[..j + 1], s).Some? {
        SessionContentFixed(timeout, calls, j + 1, s);
      } else {
        GoneStaysGone(timeout, calls, j + 1, s);
      }
      assert false;
    }
  }
}
