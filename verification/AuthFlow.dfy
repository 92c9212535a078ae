/** `AuthService` and `SessionAuthGuard` as clients of the session store and of the user table. */
module AuthFlow {
  import opened Text
  import opened Redis
  import opened SessionKeys
  import opened Sessions
  import opened SessionHistory

  datatype User = User(
    userId: string, email: string, username: string, password: string, roles: seq<Role>, isActive: bool)

  datatype AuthError =
    | InvalidRequest
    | EmailAlreadyExists
    | InvalidCredentials
    | PasswordsDoNotMatch
    | UserNotFound
    | EncryptionFailed
    | SessionMissing
    | SessionEstablishFailed

  datatype Client = Client(ip: string, agent: string)

  // ---------- the user table ----------

  function FindByEmail(users: seq<User>, email: string): Option<User> {
    if users == [] then None
    else if users[0].email == email && users[0].isActive then Some(users[0])
    else FindByEmail(users[1..], email)
  }

  function FindById(users: seq<User>, userId: string): Option<User> {
    if users == [] then None
    else if users[0].userId == userId && users[0].isActive then Some(users[0])
    else FindById(users[1..], userId)
  }

  function WithPassword(users: seq<User>, userId: string, password: string): seq<User> {
    if users == [] then []
    else [if users[0].userId == userId then users[0].(password := password) else users[0]]
         + WithPassword(users[1..], userId, password)
  }

  /** `hash` stands for bcrypt with the process' salt: a string function nobody can invert or collide. */
  ghost predicate Injective(hash: string -> string) {
    forall a, b :: hash(a) == hash(b) ==> a == b
  }

  class Request {
    var cookie: string
    var user: Option<SessionData>
    var roles: seq<Role>
    var sessionId: string
    constructor (cookie: string)
      ensures this.cookie == cookie && user == None && roles == [] && sessionId == ""
    {
      this.cookie, user, roles, sessionId := cookie, None, [], "";
    }
  }

  class SessionAuthGuard {
    const sessionService: SessionService

    constructor (sessionService: SessionService)
      ensures this.sessionService == sessionService
    {
      this.sessionService := sessionService;
    }

    /**
     Passes exactly the requests whose cookie names a live session, unless the timeout is invalid; then
     both keys live a full timeout again and the request carries the session's own content.
     */
    method CanActivate(request: Request) returns (r: Result<(), AuthError>)
      requires sessionService.redis.Valid()
      modifies request, sessionService.redis`db
      ensures sessionService.redis.Valid() && request.cookie == old(request.cookie)
      ensures r.Ok? <==> request.cookie != "" && Session(old(sessionService.redis.db), request.cookie).Some?
                         && sessionService.sessionTimeout > 0
      ensures r.Err? ==> r.error == SessionMissing && sessionService.redis.db == old(sessionService.redis.db)
                         && request.user == old(request.user) && request.roles == old(request.roles)
                         && request.sessionId == old(request.sessionId)
      ensures r.Ok? ==>
                var stored := Session(old(sessionService.redis.db), request.cookie).value;
                && sessionService.redis.db == Extended(old(sessionService.redis.db), sessionService.redis.now,
                                                       sessionService.sessionTimeout, request.cookie)
                && request.user == Some(stored.(lastActivity := sessionService.redis.now))
                && request.roles == stored.dto.roles && request.sessionId == request.cookie
    {
      var sessionId := request.cookie;
      if sessionId == "" {
        return Err(SessionMissing);
      }
      var sessionData := sessionService.GetSession(sessionId);
      if sessionData.None? {
        return Err(SessionMissing);
      }
      var extended := sessionService.ExtendSession(sessionId);
      if extended.Err? || extended.value.None? {
        return Err(SessionMissing);
      }
      sessionData := extended.value;
      request.user := sessionData;
      request.roles := sessionData.value.dto.roles;
      request.sessionId := sessionId;
      return Ok(());
    }
  }

  // ---------- one call on the whole state ----------

  datatype AuthCall =
    | Signup(email: string, username: string, password: string, userId: string, sid: string, client: Client)
    | Login(email: string, password: string, sid: string, client: Client)
    | Guard(sid: string)
    | Logout(sid: string)
    | ChangePassword(userId: string, oldPassword: string, newPassword: string, retypePassword: string)
    | Wait(seconds: nat)

  datatype AuthState = AuthState(server: Server, users: seq<User>)

  function SessionDtoOf(user: User, client: Client): SessionDto {
    SessionDto(user.userId, user.username, user.roles, client.ip, client.agent)
  }

  const DEFAULT_ROLES: seq<Role> := ["viewer"]

  function NewUser(email: string, username: string, password: string, roles: seq<Role>, userId: string): User {
    User(userId, email, username, password, roles, true)
  }

  function SignupError(users: seq<User>, email: string, username: string, password: string): Option<AuthError> {
    if email == "" || username == "" || password == "" then Some(InvalidRequest)
    else if FindByEmail(users, email).Some? then Some(EmailAlreadyExists)
    else None
  }

  function LoginError(hash: string -> string, users: seq<User>, email: string, password: string): Option<AuthError> {
    match FindByEmail(users, email)
    case None => Some(InvalidCredentials)
    case Some(user) => if user.password == hash(password) then None else Some(InvalidCredentials)
  }

  function ChangeError(hash: string -> string, users: seq<User>, userId: string,
                       oldPassword: string, newPassword: string, retypePassword: string): Option<AuthError>
  {
    if newPassword != retypePassword then Some(PasswordsDoNotMatch)
    else if userId == "" then Some(UserNotFound)
    else
      match FindById(users, userId)
      case None => Some(UserNotFound)
      case Some(user) =>
        if user.password != hash(oldPassword) then Some(InvalidCredentials)
        else if newPassword == "" then Some(EncryptionFailed)
        else None
  }

  /** The call's own checks pass. */
  predicate Passes(hash: string -> string, st: AuthState, call: AuthCall) {
    match call
    case Signup(email, username, password, _, _, _) => SignupError(st.users, email, username, password).None?
    case Login(email, password, _, _) => LoginError(hash, st.users, email, password).None?
    case Guard(sid) => sid != "" && Session(st.server.db, sid).Some?
    case Logout(sid) => sid != ""
    case ChangePassword(u, o, n, r) => ChangeError(hash, st.users, u, o, n, r).None?
    case Wait(_) => true
  }

  /** The call succeeds: what writes a session also needs a valid timeout. */
  predicate Succeeds(hash: string -> string, timeout: int, st: AuthState, call: AuthCall) {
    Passes(hash, st, call) && (call.Signup? || call.Login? || call.Guard? ==> timeout > 0)
  }

  /** The call on the session store behind a call on the service; a refused call reaches it as no time passing. */
  function SessionCall(hash: string -> string, timeout: int, st: AuthState, call: AuthCall): Call {
    if !Succeeds(hash, timeout, st, call) then Tick(0)
    else
      match call
      case Signup(email, username, password, userId, sid, client) =>
        Create(sid, SessionDtoOf(NewUser(email, username, hash(password), DEFAULT_ROLES, userId), client))
      case Login(email, password, sid, client) =>
        Create(sid, SessionDtoOf(FindByEmail(st.users, email).value, client))
      case Guard(sid) => Extend(sid)
      case Logout(sid) => Destroy(sid)
      case ChangePassword(u, _, _, _) => Invalidate(u)
      case Wait(d) => Tick(d)
  }

  /** Signup stores the password hashed; changing it hashes twice, once here and once in `updateUser`. */
  function UsersAfter(hash: string -> string, st: AuthState, call: AuthCall): seq<User> {
    if !Passes(hash, st, call) then st.users
    else
      match call
      case Signup(email, username, password, userId, _, _) =>
        st.users + [NewUser(email, username, hash(password), DEFAULT_ROLES, userId)]
      case ChangePassword(u, _, n, _) => WithPassword(st.users, u, hash(hash(n)))
      case _ => st.users
  }

  function Seconds(timeout: int): nat {
    if timeout > 0 then timeout else 0
  }

  function AuthApply(hash: string -> string, timeout: int, st: AuthState, call: AuthCall): AuthState {
    AuthState(Apply(Seconds(timeout), st.server, SessionCall(hash, timeout, st, call)), UsersAfter(hash, st, call))
  }

  // ---------- the service ----------

  class UsersService {
    var users: seq<User>
    const hash: string -> string

    constructor (users: seq<User>, hash: string -> string)
      ensures this.users == users && this.hash == hash
    {
      this.users, this.hash := users, hash;
    }

    method FindUserByEmail(email: string) returns (user: Option<User>)
      ensures user == FindByEmail(users, email)
    {
      var i := 0;
      while i < |users|
        invariant 0 <= i <= |users| && FindByEmail(users[i..], email) == FindByEmail(users, email)
      {
        if users[i].email == email && users[i].isActive {
          return Some(users[i]);
        }
        i := i + 1;
      }
      return None;
    }

    method FindUserById(userId: string) returns (user: Option<User>)
      ensures user == FindById(users, userId)
    {
      var i := 0;
      while i < |users|
        invariant 0 <= i <= |users| && FindById(users[i..], userId) == FindById(users, userId)
      {
        if users[i].userId == userId && users[i].isActive {
          return Some(users[i]);
        }
        i := i + 1;
      }
      return None;
    }

    /** Refuses an email in use; otherwise appends the record with the id given to it on insert. */
    method CreateUser(email: string, username: string, password: string, roles: seq<Role>, userId: string)
      returns (r: Result<User, AuthError>)
      modifies this`users
      ensures r.Ok? <==> FindByEmail(old(users), email).None?
      ensures r.Ok? ==> r.value == NewUser(email, username, password, roles, userId) && users == old(users) + [r.value]
      ensures r.Err? ==> r.error == EmailAlreadyExists && users == old(users)
    {
      var existing := FindUserByEmail(email);
      if existing.Some? {
        return Err(EmailAlreadyExists);
      }
      var record := NewUser(email, username, password, roles, userId);
      users := users + [record];
      return Ok(record);
    }

    /** Hashes the password it is given. */
    method UpdatePassword(userId: string, password: string) returns (ok: bool)
      modifies this`users
      ensures ok <==> FindById(old(users), userId).Some?
      ensures users == if ok then WithPassword(old(users), userId, hash(password)) else old(users)
    {
      var user := FindUserById(userId);
      ok := user.Some?;
      if ok {
        users := WithPassword(users, userId, hash(password));
      }
    }
  }

  class AuthService {
    const usersService: UsersService
    const sessionService: SessionService

    constructor (usersService: UsersService, sessionService: SessionService)
      ensures this.usersService == usersService && this.sessionService == sessionService
    {
      this.usersService, this.sessionService := usersService, sessionService;
    }

    ghost function State(): AuthState
      reads this, usersService, sessionService, sessionService.redis
    {
      AuthState(Server(sessionService.redis.now, sessionService.redis.db), usersService.users)
    }

    method Signup(email: string, username: string, password: string, userId: string, sid: string, client: Client)
      returns (r: Result<string, AuthError>)
      requires sessionService.redis.Valid()
      modifies usersService`users, sessionService.redis`db
      ensures sessionService.redis.Valid()
      ensures State() == AuthApply(usersService.hash, sessionService.sessionTimeout, old(State()),
                                   AuthCall.Signup(email, username, password, userId, sid, client))
      ensures r == match SignupError(old(usersService.users), email, username, password)
                   case None => if sessionService.sessionTimeout > 0 then Ok(sid) else Err(SessionEstablishFailed)
                   case Some(e) => Err(e)
    {
      if email == "" || username == "" || password == "" {
        return Err(InvalidRequest);
      }
      var existingUser := usersService.FindUserByEmail(email);
      if existingUser.Some? {
        return Err(EmailAlreadyExists);
      }
      var created := usersService.CreateUser(email, username, usersService.hash(password), DEFAULT_ROLES, userId);
      var session := sessionService.CreateSession(SessionDtoOf(created.value, client), sid);
      if session.Err? {
        return Err(SessionEstablishFailed);
      }
      return Ok(session.value);
    }

    /** The cookie set on success is the session id returned. */
    method Login(email: string, password: string, sid: string, client: Client) returns (r: Result<string, AuthError>)
      requires sessionService.redis.Valid()
      modifies usersService`users, sessionService.redis`db
      ensures sessionService.redis.Valid()
      ensures State() == AuthApply(usersService.hash, sessionService.sessionTimeout, old(State()),
                                   AuthCall.Login(email, password, sid, client))
      ensures r == match LoginError(usersService.hash, old(usersService.users), email, password)
                   case None => if sessionService.sessionTimeout > 0 then Ok(sid) else Err(SessionEstablishFailed)
                   case Some(e) => Err(e)
    {
      var user := usersService.FindUserByEmail(email);
      if user.None? {
        return Err(InvalidCredentials);
      }
      if user.value.password != usersService.hash(password) {
        return Err(InvalidCredentials);
      }
      var session := sessionService.CreateSession(SessionDtoOf(user.value, client), sid);
      if session.Err? {
        return Err(SessionEstablishFailed);
      }
      return Ok(session.value);
    }

    method Logout(request: Request) returns (r: Result<(), AuthError>)
      requires sessionService.redis.Valid()
      modifies sessionService.redis`db
      ensures sessionService.redis.Valid()
      ensures State() == AuthApply(usersService.hash, sessionService.sessionTimeout, old(State()),
                                   AuthCall.Logout(request.sessionId))
      ensures r == if request.sessionId == "" then Err(SessionMissing) else Ok(())
    {
      if request.sessionId == "" {
        return Err(SessionMissing);
      }
      sessionService.DestroySession(request.sessionId);
      return Ok(());
    }

    method ChangePassword(request: Request, oldPassword: string, newPassword: string, retypePassword: string)
      returns (r: Result<(), AuthError>)
      requires sessionService.redis.Valid()
      requires request.user.Some? ==>
                 ScanIteration(sessionService.redis.db, ScanPattern(request.user.value.dto.userId),
                               sessionService.redis.scanReplies)
      modifies usersService`users, sessionService.redis`db, sessionService.redis`scanReplies
      ensures sessionService.redis.Valid()
      ensures
        var u := if request.user.Some? then request.user.value.dto.userId else "";
        && State() == AuthApply(usersService.hash, sessionService.sessionTimeout, old(State()),
                                AuthCall.ChangePassword(u, oldPassword, newPassword, retypePassword))
        && r == match ChangeError(usersService.hash, old(usersService.users), u, oldPassword, newPassword, retypePassword)
                case None => Ok(())
                case Some(e) => Err(e)
    {
      if newPassword != retypePassword {
        return Err(PasswordsDoNotMatch);
      }
      if request.user.None? || request.user.value.dto.userId == "" {
        return Err(UserNotFound);
      }
      var userId := request.user.value.dto.userId;
      var user := usersService.FindUserById(userId);
      if user.None? {
        return Err(UserNotFound);
      }
      if user.value.password != usersService.hash(oldPassword) {
        return Err(InvalidCredentials);
      }
      if newPassword == "" {
        return Err(EncryptionFailed);
      }
      var hashedPassword := usersService.hash(newPassword);
      var updated := usersService.UpdatePassword(userId, hashedPassword);
      sessionService.InvalidateUserSessions(userId);
      return Ok(());
    }
  }

  // ---------- runs ----------

  /** `states[i]` is the state before call `i` of a run that starts with no user and no session. */
  ghost predicate AuthTrace(hash: string -> string, timeout: int, calls: seq<AuthCall>, states: seq<AuthState>) {
    && |states| == |calls| + 1 && states[0] == AuthState(Server(0, map[]), [])
    && forall i {:trigger Answered(hash, timeout, calls, states, i)} :: 0 <= i < |calls| ==> Answered(hash, timeout, calls, states, i)
  }

  ghost predicate Answered(hash: string -> string, timeout: int, calls: seq<AuthCall>, states: seq<AuthState>, i: int)
    requires 0 <= i < |calls| < |states|
  {
    states[i + 1] == AuthApply(hash, timeout, states[i], calls[i])
  }

  function AuthStates(hash: string -> string, timeout: int, calls: seq<AuthCall>): (states: seq<AuthState>)
    ensures |states| == |calls| + 1
  {
    if calls == [] then [AuthState(Server(0, map[]), [])]
    else
      var n := |calls| - 1;
      var before := AuthStates(hash, timeout, calls[..n]);
      before + [AuthApply(hash, timeout, before[n], calls[n])]
  }

  /** Every sequence of calls has its trace. */
  lemma {:induction false} StatesAreTrace(hash: string -> string, timeout: int, calls: seq<AuthCall>)
    ensures AuthTrace(hash, timeout, calls, AuthStates(hash, timeout, calls))
    decreases |calls|
  {
    hide AuthApply;
    if calls != [] {
      var n := |calls| - 1;
      StatesAreTrace(hash, timeout, calls[..n]);
      var before, states := AuthStates(hash, timeout, calls[..n]), AuthStates(hash, timeout, calls);
      forall i | 0 <= i < n ensures Answered(hash, timeout, calls, states, i) {
        assert Answered(hash, timeout, calls[..n], before, i);
      }
    }
  }

  /** The run up to call `n` as the session store sees it. */
  function Project(hash: string -> string, timeout: int, calls: seq<AuthCall>, states: seq<AuthState>, n: nat): seq<Call>
    requires n <= |calls| < |states|
  {
    seq(n, i requires 0 <= i < n => SessionCall(hash, timeout, states[i], calls[i]))
  }

  lemma {:induction false} ProjectRuns(hash: string -> string, timeout: int, calls: seq<AuthCall>, states: seq<AuthState>, n: nat)
    requires AuthTrace(hash, timeout, calls, states) && n <= |calls|
    ensures states[n].server == Exec(Seconds(timeout), Project(hash, timeout, calls, states, n))
    decreases n
  {
    hide SessionCall, Apply, UsersAfter;
    if n > 0 {
      ProjectRuns(hash, timeout, calls, states, n - 1);
      assert Answered(hash, timeout, calls, states, n - 1);
      assert Project(hash, timeout, calls, states, n)[..n - 1] == Project(hash, timeout, calls, states, n - 1);
    }
  }

  predicate Opens(call: AuthCall, sid: string) {
    (call.Login? || call.Signup?) && call.sid == sid
  }

  /**
   Session ids are fresh and have no colon; user ids have neither a colon nor a pattern character
   (`*`, `?`, `[`, `\`).
   */
  ghost predicate ValidAuthRun(calls: seq<AuthCall>) {
    && (forall i :: 0 <= i < |calls| ==> ValidAuthCall(calls[i]))
    && (forall i, j :: 0 <= i < j < |calls| && (calls[i].Login? || calls[i].Signup?) && (calls[j].Login? || calls[j].Signup?) ==>
          calls[i].sid != calls[j].sid)
  }

  predicate ValidAuthCall(call: AuthCall) {
    && (call.Login? || call.Signup? ==> ColonFree(call.sid))
    && (call.Signup? || call.ChangePassword? ==> ColonFree(call.userId) && GlobFree(call.userId))
  }

  lemma {:induction false} UserIdsPlain(hash: string -> string, timeout: int, calls: seq<AuthCall>, states: seq<AuthState>, n: nat)
    requires AuthTrace(hash, timeout, calls, states) && ValidAuthRun(calls) && n <= |calls|
    ensures forall user :: user in states[n].users ==> ColonFree(user.userId) && GlobFree(user.userId)
    decreases n
  {
    hide SessionCall, Apply, Passes, IsGlob;
    if n > 0 {
      UserIdsPlain(hash, timeout, calls, states, n - 1);
      var call := calls[n - 1];
      assert ValidAuthCall(call) && Answered(hash, timeout, calls, states, n - 1);
      if call.ChangePassword? {
        IdsKept(states[n - 1].users, call.userId, hash(hash(call.newPassword)));
      }
    }
  }

  lemma {:induction false} IdsKept(users: seq<User>, userId: string, password: string)
    ensures |WithPassword(users, userId, password)| == |users|
    ensures forall i :: 0 <= i < |users| ==> WithPassword(users, userId, password)[i].userId == users[i].userId
  {
    if users != [] {
      IdsKept(users[1..], userId, password);
    }
  }

  lemma {:induction false} FoundIsStored(users: seq<User>, email: string)
    requires FindByEmail(users, email).Some?
    ensures FindByEmail(users, email).value in users
  {
    if !(users[0].email == email && users[0].isActive) {
      FoundIsStored(users[1..], email);
    }
  }

  lemma ProjectValid(hash: string -> string, timeout: int, calls: seq<AuthCall>, states: seq<AuthState>, n: nat)
    requires AuthTrace(hash, timeout, calls, states) && ValidAuthRun(calls) && n <= |calls|
    ensures ValidRun(Project(hash, timeout, calls, states, n))
  {
    hide AuthApply, IsGlob, SessionCall;
    var session := Project(hash, timeout, calls, states, n);
    forall i | 0 <= i < n
      ensures ValidCall(session[i])
      ensures session[i].Create? ==> Opens(calls[i], session[i].sessionId)
    {
      UserIdsPlain(hash, timeout, calls, states, i);
      assert ValidAuthCall(calls[i]);
      SessionCallValid(hash, timeout, states[i], calls[i]);
    }
  }

  lemma SessionCallValid(hash: string -> string, timeout: int, st: AuthState, call: AuthCall)
    requires ValidAuthCall(call) && forall user :: user in st.users ==> ColonFree(user.userId) && GlobFree(user.userId)
    ensures
      var session := SessionCall(hash, timeout, st, call);
      && ValidCall(session)
      && (session.Create? ==> Opens(call, session.sessionId) && Succeeds(hash, timeout, st, call))
      && (call.ChangePassword? && Succeeds(hash, timeout, st, call) ==> session == Invalidate(call.userId))
  {
    hide IsGlob;
    if call.Login? && Succeeds(hash, timeout, st, call) {
      FoundIsStored(st.users, call.email);
    }
  }

  /**
   End to end: whoever passes the guard as user `u` after a successful password change of `u` does so
   with a session opened by a login or signup that came after the change.
   */
  lemma OnlyNewSessionsAfterPasswordChange(hash: string -> string, timeout: int, calls: seq<AuthCall>, states: seq<AuthState>,
                                           j: nat, k: nat)
    requires AuthTrace(hash, timeout, calls, states) && ValidAuthRun(calls) && j < k < |calls|
    requires calls[j].ChangePassword? && Succeeds(hash, timeout, states[j], calls[j])
    requires calls[k].Guard? && Succeeds(hash, timeout, states[k], calls[k])
    requires Session(states[k].server.db, calls[k].sid).value.dto.userId == calls[j].userId
    ensures exists i :: j < i < k && Opens(calls[i], calls[k].sid) && Succeeds(hash, timeout, states[i], calls[i])
  {
    hide AuthApply, Apply, SessionCall, IsGlob;
    var session := Project(hash, timeout, calls, states, k);
    ProjectRuns(hash, timeout, calls, states, k);
    ProjectValid(hash, timeout, calls, states, k);
    UserIdsPlain(hash, timeout, calls, states, j);
    assert ValidAuthCall(calls[j]);
    SessionCallValid(hash, timeout, states[j], calls[j]);
    LiveAfterInvalidationIsNewer(Seconds(timeout), session, j, calls[k].sid);
    var i :| j < i < |session| && session[i].Create? && session[i].sessionId == calls[k].sid;
    UserIdsPlain(hash, timeout, calls, states, i);
    assert ValidAuthCall(calls[i]);
    SessionCallValid(hash, timeout, states[i], calls[i]);
  }

  lemma {:induction false} FindAfterChange(users: seq<User>, email: string, userId: string, password: string)
    requires FindByEmail(users, email).Some? && FindByEmail(users, email).value.userId == userId
    ensures FindByEmail(WithPassword(users, userId, password), email)
         == Some(FindByEmail(users, email).value.(password := password))
  {
    if !(users[0].email == email && users[0].isActive) {
      FindAfterChange(users[1..], email, userId, password);
      assert WithPassword(users, userId, password)[1..] == WithPassword(users[1..], userId, password);
    }
  }

  /**
   Because a changed password is hashed twice, the next login accepts exactly the hash text of the new
   password: the new password itself works if and only if it is its own hash.
   */
  lemma LoginAfterPasswordChange(hash: string -> string, timeout: int, st: AuthState, change: AuthCall,
                                 email: string, password: string)
    requires Injective(hash) && change.ChangePassword? && Succeeds(hash, timeout, st, change)
    requires FindByEmail(st.users, email).Some? && FindByEmail(st.users, email).value.userId == change.userId
    ensures LoginError(hash, AuthApply(hash, timeout, st, change).users, email, password).None?
       <==> password == hash(change.newPassword)
    ensures LoginError(hash, AuthApply(hash, timeout, st, change).users, email, change.newPassword).None?
       <==> hash(change.newPassword) == change.newPassword
  {
    FindAfterChange(st.users, email, change.userId, hash(hash(change.newPassword)));
  }
}
