/**
 What each call on the authentication service does to users and sessions, field by field, and what that
 makes of whole runs: who can log in with what, and which sessions there are.
 */
module AuthRuns {
  import opened Text
  import opened SessionHistory
  import opened AuthFlow

  // ---------- when a call goes through, told from the table ----------

  ghost predicate FirstWithEmail(users: seq<User>, i: int, email: string) {
    && 0 <= i < |users| && users[i].email == email && users[i].isActive
    && forall j :: 0 <= j < i ==> !(users[j].email == email && users[j].isActive)
  }

  ghost predicate FirstWithId(users: seq<User>, i: int, userId: string) {
    && 0 <= i < |users| && users[i].userId == userId && users[i].isActive
    && forall j :: 0 <= j < i ==> !(users[j].userId == userId && users[j].isActive)
  }

  ghost predicate AddressInUse(users: seq<User>, email: string) {
    exists i :: 0 <= i < |users| && users[i].email == email && users[i].isActive
  }

  /** A sign-up that is accepted. */
  ghost predicate SignsUp(st: AuthState, call: AuthCall) {
    && call.Signup? && call.email != "" && call.username != "" && call.password != ""
    && !AddressInUse(st.users, call.email)
  }

  /** A login accepted for the user in row `i`. */
  ghost predicate LogsIn(hash: string -> string, st: AuthState, call: AuthCall, i: int) {
    call.Login? && FirstWithEmail(st.users, i, call.email) && st.users[i].password == hash(call.password)
  }

  /** A password change that is accepted. */
  ghost predicate Changes(hash: string -> string, st: AuthState, call: AuthCall) {
    && call.ChangePassword? && call.newPassword == call.retypePassword != "" && call.userId != ""
    && exists i :: FirstWithId(st.users, i, call.userId) && st.users[i].password == hash(call.oldPassword)
  }

  /** The look-up by address finds the first active user that has it. */
  lemma {:induction false} FindsByEmail(users: seq<User>, email: string) returns (i: int)
    ensures FindByEmail(users, email).Some? <==> AddressInUse(users, email)
    ensures FindByEmail(users, email).Some? ==> FirstWithEmail(users, i, email) && users[i] == FindByEmail(users, email).value
  {
    i := 0;
    if users != [] && !(users[0].email == email && users[0].isActive) {
      i := FindsByEmail(users[1..], email);
      i := i + 1;
      assert forall j :: 0 < j < |users| ==> users[j] == users[1..][j - 1];
    }
  }

  /** The look-up by id finds the first active user that has it. */
  lemma {:induction false} FindsById(users: seq<User>, userId: string) returns (i: int)
    ensures FindById(users, userId).Some? <==> exists j :: 0 <= j < |users| && users[j].userId == userId && users[j].isActive
    ensures FindById(users, userId).Some? ==> FirstWithId(users, i, userId) && users[i] == FindById(users, userId).value
  {
    i := 0;
    if users != [] && !(users[0].userId == userId && users[0].isActive) {
      i := FindsById(users[1..], userId);
      i := i + 1;
      assert forall j :: 0 < j < |users| ==> users[j] == users[1..][j - 1];
    }
  }

  lemma {:induction false} PasswordWritten(users: seq<User>, userId: string, password: string)
    ensures |WithPassword(users, userId, password)| == |users|
    ensures forall i :: 0 <= i < |users| ==>
              WithPassword(users, userId, password)[i] == if users[i].userId == userId then users[i].(password := password) else users[i]
  {
    if users != [] {
      PasswordWritten(users[1..], userId, password);
    }
  }

  lemma PassesIff(hash: string -> string, st: AuthState, call: AuthCall) returns (i: int)
    ensures call.Signup? ==> (Passes(hash, st, call) <==> SignsUp(st, call))
    ensures call.Login? ==> (Passes(hash, st, call) <==> LogsIn(hash, st, call, i))
    ensures call.Login? && Passes(hash, st, call) ==> st.users[i] == FindByEmail(st.users, call.email).value
    ensures call.ChangePassword? ==> (Passes(hash, st, call) <==> Changes(hash, st, call))
  {
    i := 0;
    match call {
      case Signup(email, _, _, _, _, _) => i := FindsByEmail(st.users, email);
      case Login(email, _, _, _) => i := FindsByEmail(st.users, email);
      case ChangePassword(u, _, _, _) => i := FindsById(st.users, u);
      case _ =>
    }
  }

  lemma OneFirst(users: seq<User>, email: string, i: int, j: int)
    requires FirstWithEmail(users, i, email) && FirstWithEmail(users, j, email)
    ensures i == j
  {
  }

  /** What a refused call answers, told from the table: the first of its reasons. */
  lemma RefusalsTold(hash: string -> string, users: seq<User>, email: string, username: string, password: string,
                     u: string, o: string, n: string, r: string)
    ensures SignupError(users, email, username, password)
         == if email == "" || username == "" || password == "" then Some(AuthError.InvalidRequest)
            else if AddressInUse(users, email) then Some(EmailAlreadyExists) else None
    ensures LoginError(hash, users, email, password)
         == if exists i :: FirstWithEmail(users, i, email) && users[i].password == hash(password) then None
            else Some(InvalidCredentials)
    ensures ChangeError(hash, users, u, o, n, r)
         == if n != r then Some(PasswordsDoNotMatch)
            else if u == "" || !(exists i :: FirstWithId(users, i, u)) then Some(UserNotFound)
            else if !(exists i :: FirstWithId(users, i, u) && users[i].password == hash(o)) then Some(InvalidCredentials)
            else if n == "" then Some(EncryptionFailed) else None
  {
    var i := FindsByEmail(users, email);
    var j := FindsById(users, u);
  }

  // ---------- the user table ----------

  /**
   What a call does to the user table: an accepted sign-up appends its user with the password hashed, an accepted
   change writes the twice hashed password to every record of that id, and nothing else happens.
   */
  ghost predicate UsersStep(hash: string -> string, st: AuthState, call: AuthCall, after: seq<User>) {
    if SignsUp(st, call) then
      after == st.users + [User(call.userId, call.email, call.username, hash(call.password), ["viewer"], true)]
    else if Changes(hash, st, call) then
      && |after| == |st.users|
      && forall i :: 0 <= i < |after| ==>
           after[i] == if st.users[i].userId == call.userId then st.users[i].(password := hash(hash(call.newPassword))) else st.users[i]
    else after == st.users
  }

  lemma UsersWritten(hash: string -> string, timeout: int, st: AuthState, call: AuthCall)
    ensures UsersStep(hash, st, call, AuthApply(hash, timeout, st, call).users)
  {
    hide Passes, SignsUp, Changes, SessionCall, SessionHistory.Apply;
    var i := PassesIff(hash, st, call);
    CallKinds(hash, st, call);
    if call.ChangePassword? {
      PasswordWritten(st.users, call.userId, hash(hash(call.newPassword)));
    }
  }

  lemma CallKinds(hash: string -> string, st: AuthState, call: AuthCall)
    ensures SignsUp(st, call) ==> call.Signup?
    ensures Changes(hash, st, call) ==> call.ChangePassword?
  {
  }

  /** In every run each call writes the user table as `UsersStep` says. */
  lemma UsersTold(hash: string -> string, timeout: int, calls: seq<AuthCall>, states: seq<AuthState>, k: nat)
    requires AuthTrace(hash, timeout, calls, states) && k < |calls|
    ensures UsersStep(hash, states[k], calls[k], states[k + 1].users)
  {
    hide AuthApply, UsersStep;
    assert Answered(hash, timeout, calls, states, k);
    UsersWritten(hash, timeout, states[k], calls[k]);
  }

  /**
   A password change needs the old password: the table changes to the new hash in exactly the records of that id
   if the two new passwords agree and are not empty and the first active user of the id holds the hash of the old
   one; otherwise the table stays as it is.
   */
  lemma ChangeNeedsOldPassword(hash: string -> string, timeout: int, calls: seq<AuthCall>, states: seq<AuthState>, k: nat,
                               u: string, o: string, n: string, r: string)
    requires AuthTrace(hash, timeout, calls, states) && k < |calls| && calls[k] == ChangePassword(u, o, n, r)
    ensures
      var before, after := states[k].users, states[k + 1].users;
      if n == r != "" && u != "" && exists i :: FirstWithId(before, i, u) && before[i].password == hash(o) then
        |after| == |before| && forall i :: 0 <= i < |before| ==>
          after[i] == if before[i].userId == u then before[i].(password := hash(hash(n))) else before[i]
      else after == before
  {
    hide FirstWithId;
    UsersTold(hash, timeout, calls, states, k);
  }

  /** No two users of a run share an address, and all of them are active. */
  ghost predicate OneUserPerAddress(users: seq<User>) {
    && (forall i :: 0 <= i < |users| ==> users[i].isActive)
    && (forall i, j :: 0 <= i < j < |users| ==> users[i].email != users[j].email)
  }

  lemma {:induction false} AddressesUnique(hash: string -> string, timeout: int, calls: seq<AuthCall>, states: seq<AuthState>, k: nat)
    requires AuthTrace(hash, timeout, calls, states) && k <= |calls|
    ensures OneUserPerAddress(states[k].users)
    decreases k
  {
    hide Changes;
    if k > 0 {
      AddressesUnique(hash, timeout, calls, states, k - 1);
      UsersTold(hash, timeout, calls, states, k - 1);
      CallKinds(hash, states[k - 1], calls[k - 1]);
    }
  }

  // ---------- who can log in, with what ----------

  /** The password column of the user signed up by call `j`, at moment `k`: the sign-up's, or the latest accepted change's. */
  ghost function PasswordSince(hash: string -> string, calls: seq<AuthCall>, states: seq<AuthState>, j: nat, k: nat): string
    requires j < k <= |calls| < |states| && calls[j].Signup?
  {
    if k == j + 1 then hash(calls[j].password)
    else if Changes(hash, states[k - 1], calls[k - 1]) && calls[k - 1].userId == calls[j].userId
    then hash(hash(calls[k - 1].newPassword))
    else PasswordSince(hash, calls, states, j, k - 1)
  }

  /** The row of the user signed up by call `j`: it stays where it is, and only its password ever changes. */
  lemma {:induction false} SignedUpRow(hash: string -> string, timeout: int, calls: seq<AuthCall>, states: seq<AuthState>,
                                       j: nat, k: nat)
    requires AuthTrace(hash, timeout, calls, states) && j < k <= |calls| && SignsUp(states[j], calls[j])
    ensures
      var row := |states[j].users|;
      && row < |states[k].users|
      && states[k].users[row] == User(calls[j].userId, calls[j].email, calls[j].username,
                                      PasswordSince(hash, calls, states, j, k), ["viewer"], true)
    decreases k
  {
    hide Changes;
    UsersTold(hash, timeout, calls, states, k - 1);
    CallKinds(hash, states[k - 1], calls[k - 1]);
    if k > j + 1 {
      SignedUpRow(hash, timeout, calls, states, j, k - 1);
    }
  }

  /** Every row is that of an accepted sign-up. */
  lemma {:induction false} RowHasSignup(hash: string -> string, timeout: int, calls: seq<AuthCall>, states: seq<AuthState>,
                                        k: nat, i: nat) returns (j: nat)
    requires AuthTrace(hash, timeout, calls, states) && k <= |calls| && i < |states[k].users|
    ensures j < k && SignsUp(states[j], calls[j]) && i == |states[j].users|
    decreases k
  {
    hide Changes, UsersStep;
    if k > 0 {
      UsersTold(hash, timeout, calls, states, k - 1);
      RowsGrow(hash, states[k - 1], calls[k - 1], states[k].users);
      if i < |states[k - 1].users| {
        j := RowHasSignup(hash, timeout, calls, states, k - 1, i);
      } else {
        j := k - 1;
      }
    }
  }

  lemma RowsGrow(hash: string -> string, st: AuthState, call: AuthCall, after: seq<User>)
    requires UsersStep(hash, st, call, after)
    ensures |after| == |st.users| + if SignsUp(st, call) then 1 else 0
  {
  }

  lemma AcceptedIff(hash: string -> string, users: seq<User>, email: string, password: string, i: int)
    requires OneUserPerAddress(users) && 0 <= i < |users| && users[i].email == email
    ensures LoginError(hash, users, email, password).None? <==> hash(password) == users[i].password
  {
    var f := FindsByEmail(users, email);
  }

  lemma AcceptedFor(hash: string -> string, timeout: int, calls: seq<AuthCall>, states: seq<AuthState>, j: nat, k: nat,
                    password: string)
    requires AuthTrace(hash, timeout, calls, states) && j < k <= |calls| && SignsUp(states[j], calls[j])
    ensures LoginError(hash, states[k].users, calls[j].email, password).None?
       <==> hash(password) == PasswordSince(hash, calls, states, j, k)
  {
    hide SignsUp, PasswordSince, LoginError, OneUserPerAddress, Answered;
    CallKinds(hash, states[j], calls[j]);
    AddressesUnique(hash, timeout, calls, states, k);
    SignedUpRow(hash, timeout, calls, states, j, k);
    AcceptedIff(hash, states[k].users, calls[j].email, password, |states[j].users|);
  }

  /**
   At every moment of every run a login is accepted exactly for an address that was signed up, with a password whose
   hash is the one stored last: the sign-up's, or that of the latest accepted change of that user.
   */
  lemma LoginAcceptedIff(hash: string -> string, timeout: int, calls: seq<AuthCall>, states: seq<AuthState>, k: nat,
                         email: string, password: string)
    requires AuthTrace(hash, timeout, calls, states) && k <= |calls|
    ensures LoginError(hash, states[k].users, email, password).None?
       <==> exists j :: 0 <= j < k && SignsUp(states[j], calls[j]) && calls[j].email == email
                        && hash(password) == PasswordSince(hash, calls, states, j, k)
  {
    hide PasswordSince, LoginError, Answered, AddressInUse;
    forall j | 0 <= j < k && SignsUp(states[j], calls[j]) && calls[j].email == email
      ensures LoginError(hash, states[k].users, email, password).None?
         <==> hash(password) == PasswordSince(hash, calls, states, j, k)
    {
      AcceptedFor(hash, timeout, calls, states, j, k, password);
    }
    if LoginError(hash, states[k].users, email, password).None? {
      var i := AcceptedRow(hash, states[k].users, email, password);
      var j := RowHasSignup(hash, timeout, calls, states, k, i);
      SignedUpRow(hash, timeout, calls, states, j, k);
    }
  }

  lemma AcceptedRow(hash: string -> string, users: seq<User>, email: string, password: string) returns (i: nat)
    requires LoginError(hash, users, email, password).None?
    ensures i < |users| && users[i].email == email
  {
    i := FindsByEmail(users, email);
  }

  /** Who has signed up and not changed the password since logs in with any password of the same hash and no other. */
  lemma SignedUpLogsIn(hash: string -> string, timeout: int, calls: seq<AuthCall>, states: seq<AuthState>, j: nat, k: nat,
                       q: string)
    requires AuthTrace(hash, timeout, calls, states) && j < k <= |calls| && SignsUp(states[j], calls[j])
    requires forall i :: j < i < k ==> !(Changes(hash, states[i], calls[i]) && calls[i].userId == calls[j].userId)
    ensures LoginError(hash, states[k].users, calls[j].email, q).None? <==> hash(q) == hash(calls[j].password)
    ensures Injective(hash) ==> (LoginError(hash, states[k].users, calls[j].email, q).None? <==> q == calls[j].password)
  {
    hide SignsUp, Changes, LoginError, Answered, PasswordSince;
    CallKinds(hash, states[j], calls[j]);
    FirstPassword(hash, calls, states, j, k);
    AcceptedFor(hash, timeout, calls, states, j, k, q);
  }

  lemma {:induction false} FirstPassword(hash: string -> string, calls: seq<AuthCall>, states: seq<AuthState>, j: nat, k: nat)
    requires j < k <= |calls| < |states| && calls[j].Signup?
    requires forall i :: j < i < k ==> !(Changes(hash, states[i], calls[i]) && calls[i].userId == calls[j].userId)
    ensures PasswordSince(hash, calls, states, j, k) == hash(calls[j].password)
    decreases k
  {
    hide Changes;
    if k > j + 1 {
      FirstPassword(hash, calls, states, j, k - 1);
    }
  }
}
