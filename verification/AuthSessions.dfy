/** What each call on the authentication service does to every session, and what becomes of a session over a run. */
module AuthSessions {
  import opened Text
  import opened Sessions
  import opened SessionHistory
  import opened AuthFlow
  import opened AuthRuns
  import opened Redis

  /** The session an accepted sign-up opens, or an accepted login for the user in row `i`. */
  function Opened(user: User, client: Client, now: nat): SessionData {
    SessionData(SessionDto(user.userId, user.username, user.roles, client.ip, client.agent), now, now)
  }

  /**
   What a call makes of session `x`, whose content before it is `before`: only the sign-up or login of that id opens
   it, with the user's own data; only the guard renews it; its logout, a password change of its user and time end it.
   */
  ghost predicate SessionStep(hash: string -> string, timeout: int, st: AuthState, call: AuthCall, x: string,
                              before: Option<SessionData>, after: Option<SessionData>)
  {
    match call
    case Signup(email, username, password, userId, sid, client) =>
      if sid == x && timeout > 0 && SignsUp(st, call)
      then after == Some(Opened(User(userId, email, username, hash(password), ["viewer"], true), client, st.server.now))
      else after == before
    case Login(_, _, sid, client) =>
      if sid == x && timeout > 0 && exists i :: LogsIn(hash, st, call, i)
      then forall i :: LogsIn(hash, st, call, i) ==> after == Some(Opened(st.users[i], client, st.server.now))
      else after == before
    case Guard(sid) =>
      after == if sid == x && sid != "" && timeout > 0 && before.Some?
               then Some(before.value.(lastActivity := st.server.now)) else before
    case Logout(sid) => after == if sid == x && sid != "" then None else before
    case ChangePassword(u, _, _, _) =>
      after == if before.Some? && before.value.dto.userId == u && Changes(hash, st, call) then None else before
    case Wait(d) => after == if before.Some? && st.server.now + d < before.value.lastActivity + timeout then before else None
  }

  // ---------- one call ----------

  /** A call of the session store at moment `now` of a history: what it makes of session `x`. */
  ghost predicate StoreStep(timeout: nat, now: nat, c: Call, x: string,
                            before: Option<SessionData>, after: Option<SessionData>)
  {
    match c
    case Create(s, dto) => after == if s == x then Some(SessionData(dto, now, now)) else before
    case Extend(s) => after == if s == x && before.Some? then Some(before.value.(lastActivity := now)) else before
    case Destroy(s) => after == if s == x then None else before
    case Invalidate(u) => after == if before.Some? && before.value.dto.userId == u then None else before
    case Tick(d) => after == if before.Some? && now + d < before.value.lastActivity + timeout then before else None
  }

  lemma StoreSteps(timeout: nat, p: seq<Call>, c: Call, x: string)
    requires timeout > 0
    ensures StoreStep(timeout, Clock(p), c, x, HistorySession(timeout, p, x), HistorySession(timeout, p + [c], x))
  {
    hide HistorySession, Clock;
    SameClock(p, c);
    TouchedOrNot(timeout, p, c, x);
    LiveWithinNow(timeout, p, x);
    if c == Extend(x) && HistorySession(timeout, p, x).Some? {
      ExtendStep(timeout, p, x);
    } else if c.Create? && c.sessionId == x {
      CreateStep(timeout, p, x, c.dto);
    } else {
      UntouchedStep(timeout, p, c, x);
    }
  }

  lemma TouchedOrNot(timeout: nat, p: seq<Call>, c: Call, x: string)
    ensures Touches(timeout, p, c, x)
       <==> (c.Create? && c.sessionId == x) || (c == Extend(x) && HistorySession(timeout, p, x).Some?)
  {
  }

  lemma LiveWithinNow(timeout: nat, p: seq<Call>, x: string)
    ensures HistorySession(timeout, p, x).Some? ==> Clock(p) < HistorySession(timeout, p, x).value.lastActivity + timeout
  {
    LiveWithin(timeout, p, x);
  }

  lemma CallStep(hash: string -> string, timeout: int, st: AuthState, call: AuthCall, x: string,
                 before: Option<SessionData>, after: Option<SessionData>)
    requires timeout > 0 && StoreStep(timeout, st.server.now, SessionCall(hash, timeout, st, call), x, before, after)
    requires before == Session(st.server.db, x)
    requires before.Some? ==> st.server.now < before.value.lastActivity + timeout
    ensures SessionStep(hash, timeout, st, call, x, before, after)
  {
    hide SignsUp, Changes, FirstWithEmail, Session;
    var i := PassesIff(hash, st, call);
    CallKinds(hash, st, call);
    if call.Login? {
      OneLogin(hash, st, call, i);
    }
  }

  lemma OneLogin(hash: string -> string, st: AuthState, call: AuthCall, i: int)
    requires call.Login? && (Passes(hash, st, call) <==> LogsIn(hash, st, call, i))
    ensures (exists j :: LogsIn(hash, st, call, j)) <==> Passes(hash, st, call)
    ensures forall j :: LogsIn(hash, st, call, j) ==> j == i
  {
    forall j | LogsIn(hash, st, call, j) ensures Passes(hash, st, call) && j == i {
      var k := PassesIff(hash, st, call);
      var f := FindsByEmail(st.users, call.email);
      OneFirst(st.users, call.email, f, j);
      if Passes(hash, st, call) {
        OneFirst(st.users, call.email, i, j);
      }
    }
  }

  // ---------- over runs ----------

  lemma AlwaysRepresents(hash: string -> string, timeout: int, calls: seq<AuthCall>, states: seq<AuthState>, k: nat)
    requires timeout > 0 && AuthTrace(hash, timeout, calls, states) && ValidAuthRun(calls) && k <= |calls|
    ensures states[k].server.now == Clock(Project(hash, timeout, calls, states, k))
    ensures forall x :: Session(states[k].server.db, x) == HistorySession(timeout, Project(hash, timeout, calls, states, k), x)
  {
    hide AuthApply, Project, Exec;
    ProjectRuns(hash, timeout, calls, states, k);
    ProjectValid(hash, timeout, calls, states, k);
    RunRepresents(timeout, Project(hash, timeout, calls, states, k));
  }

  lemma ProjectStep(hash: string -> string, timeout: int, calls: seq<AuthCall>, states: seq<AuthState>, k: nat)
    requires k < |calls| < |states|
    ensures Project(hash, timeout, calls, states, k + 1)
         == Project(hash, timeout, calls, states, k) + [SessionCall(hash, timeout, states[k], calls[k])]
  {
    hide SessionCall;
  }

  /** With an invalid timeout there is never a session. */
  lemma {:induction false} NoSessions(hash: string -> string, timeout: int, calls: seq<AuthCall>, states: seq<AuthState>, k: nat)
    requires timeout <= 0 && AuthTrace(hash, timeout, calls, states) && k <= |calls|
    ensures states[k].server.db == map[]
    decreases k
  {
    hide UsersAfter, Passes;
    if k > 0 {
      NoSessions(hash, timeout, calls, states, k - 1);
      assert Answered(hash, timeout, calls, states, k - 1);
    }
  }

  /** In every run each call treats every session as `SessionStep` says. */
  lemma SessionsTold(hash: string -> string, timeout: int, calls: seq<AuthCall>, states: seq<AuthState>, k: nat, x: string)
    requires AuthTrace(hash, timeout, calls, states) && ValidAuthRun(calls) && k < |calls|
    ensures SessionStep(hash, timeout, states[k], calls[k], x,
                        Session(states[k].server.db, x), Session(states[k + 1].server.db, x))
  {
    hide AuthApply, SessionCall, StoreStep, HistorySession, Clock, Project, Session, Changes, SignsUp, LogsIn;
    if timeout > 0 {
      AlwaysRepresents(hash, timeout, calls, states, k);
      AlwaysRepresents(hash, timeout, calls, states, k + 1);
      ProjectStep(hash, timeout, calls, states, k);
      var p := Project(hash, timeout, calls, states, k);
      StoreSteps(timeout, p, SessionCall(hash, timeout, states[k], calls[k]), x);
      LiveWithinNow(timeout, p, x);
      CallStep(hash, timeout, states[k], calls[k], x, Session(states[k].server.db, x), Session(states[k + 1].server.db, x));
    } else {
      NoSessions(hash, timeout, calls, states, k);
      NoSessions(hash, timeout, calls, states, k + 1);
      NothingIn(x);
    }
  }

  lemma NothingIn(x: string)
    ensures Session(map[], x).None?
  {
  }

  /** A logout ends its session and no other, and it stays ended unless a later sign-up or login is given its id. */
  lemma {:induction false} LogoutEnds(hash: string -> string, timeout: int, calls: seq<AuthCall>, states: seq<AuthState>,
                                      j: nat, k: nat, sid: string)
    requires AuthTrace(hash, timeout, calls, states) && ValidAuthRun(calls) && j < k <= |calls|
    requires calls[j] == AuthCall.Logout(sid) && sid != ""
    requires forall i :: j < i < k ==> !Opens(calls[i], sid)
    ensures Session(states[k].server.db, sid).None?
    ensures forall x :: x != sid ==> Session(states[j + 1].server.db, x) == Session(states[j].server.db, x)
    decreases k
  {
    hide Session, Answered, ValidAuthRun;
    forall x ensures SessionStep(hash, timeout, states[j], calls[j], x,
                                 Session(states[j].server.db, x), Session(states[j + 1].server.db, x))
    {
      SessionsTold(hash, timeout, calls, states, j, x);
    }
    SessionsTold(hash, timeout, calls, states, j, sid);
    if k > j + 1 {
      LogoutEnds(hash, timeout, calls, states, j, k - 1, sid);
      SessionsTold(hash, timeout, calls, states, k - 1, sid);
    }
  }

  /** A password change that goes through ends every session of its user and no other; one that does not, none. */
  lemma ChangeEndsSessions(hash: string -> string, timeout: int, calls: seq<AuthCall>, states: seq<AuthState>, k: nat, x: string)
    requires AuthTrace(hash, timeout, calls, states) && ValidAuthRun(calls) && k < |calls| && calls[k].ChangePassword?
    ensures
      var before := Session(states[k].server.db, x);
      Session(states[k + 1].server.db, x)
      == if before.Some? && before.value.dto.userId == calls[k].userId && Changes(hash, states[k], calls[k]) then None else before
  {
    hide Session, Answered, ValidAuthRun, Changes;
    SessionsTold(hash, timeout, calls, states, k, x);
  }

  /** The seconds waited in the first `k` calls. */
  function Waited(calls: seq<AuthCall>, k: nat): nat
    requires k <= |calls|
  {
    if k == 0 then 0 else Waited(calls, k - 1) + if calls[k - 1].Wait? then calls[k - 1].seconds else 0
  }

  /** The clock of a run is what has been waited. */
  lemma {:induction false} ClockTold(hash: string -> string, timeout: int, calls: seq<AuthCall>, states: seq<AuthState>, k: nat)
    requires AuthTrace(hash, timeout, calls, states) && k <= |calls|
    ensures states[k].server.now == Waited(calls, k)
    decreases k
  {
    hide UsersAfter, SignupError, LoginError, ChangeError;
    if k > 0 {
      ClockTold(hash, timeout, calls, states, k - 1);
      assert Answered(hash, timeout, calls, states, k - 1);
    }
  }
}
