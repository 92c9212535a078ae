/** `TokenService`: refresh and reset tokens in one table, told apart by the suffix of the token text. */
module Tokens {
  import opened Text

  datatype TokenType = Access | Refresh | Reset

  function TypeText(t: TokenType): string {
    match t
    case Access => "accessToken"
    case Refresh => "refreshToken"
    case Reset => "resetToken"
  }

  datatype Token = Token(userId: string, token: string)

  datatype TokenError = InvalidRefreshToken | InvalidResetToken

  const REFRESH_SUFFIX := ".refreshToken"
  const RESET_SUFFIX := ".reset"

  /** `Like('%.refreshToken')`. */
  predicate IsRefresh(t: Token) {
    EndsWith(t.token, REFRESH_SUFFIX)
  }

  predicate IsReset(t: Token) {
    EndsWith(t.token, RESET_SUFFIX)
  }

  function Keep(tokens: seq<Token>, keep: Token -> bool): seq<Token> {
    if tokens == [] then []
    else (if keep(tokens[0]) then [tokens[0]] else []) + Keep(tokens[1..], keep)
  }

  function DropRefreshOf(tokens: seq<Token>, userId: string): seq<Token> {
    Keep(tokens, (t: Token) => !(t.userId == userId && IsRefresh(t)))
  }

  function DropText(tokens: seq<Token>, text: string): seq<Token> {
    Keep(tokens, (t: Token) => t.token != text)
  }

  predicate Has(tokens: seq<Token>, text: string) {
    exists t :: t in tokens && t.token == text
  }

  function FirstWith(tokens: seq<Token>, text: string): (t: Option<Token>)
    ensures t.Some? <==> Has(tokens, text)
    ensures t.Some? ==> t.value in tokens && t.value.token == text
  {
    if tokens == [] then None
    else if tokens[0].token == text then Some(tokens[0])
    else FirstWith(tokens[1..], text)
  }

  /** What a new refresh-style token does to the table: `type` need not be the refresh type. */
  function Stored(tokens: seq<Token>, userId: string, text: string): seq<Token> {
    DropRefreshOf(tokens, userId) + [Token(userId, text)]
  }

  class TokenService {
    var tokens: seq<Token>

    constructor ()
      ensures tokens == []
    {
      tokens := [];
    }

    method StoreRefreshToken(userId: string, token: string)
      modifies this
      ensures tokens == Stored(old(tokens), userId, token)
    {
      tokens := DropRefreshOf(tokens, userId);
      var record := Token(userId, token);
      tokens := tokens + [record];
    }

    method GenerateRefreshToken(userId: string, kind: TokenType, uuid: string) returns (token: string)
      modifies this
      ensures token == uuid + "." + TypeText(kind)
      ensures tokens == Stored(old(tokens), userId, token)
    {
      token := uuid + "." + TypeText(kind);
      StoreRefreshToken(userId, token);
    }

    method ValidateRefreshToken(token: string) returns (r: Result<(), TokenError>)
      ensures r == if Has(tokens, token) then Ok(()) else Err(InvalidRefreshToken)
    {
      var record := FirstWith(tokens, token);
      r := if record.None? then Err(InvalidRefreshToken) else Ok(());
    }

    /** Rotation: the raw token returned is the uuid again, cut out of the stored text at the first dot. */
    method RefreshTheToken(userId: string, refreshToken: string, uuid: string) returns (r: Result<string, TokenError>)
      requires '.' !in uuid
      modifies this
      ensures r == if Has(old(tokens), refreshToken + REFRESH_SUFFIX) then Ok(uuid) else Err(InvalidRefreshToken)
      ensures tokens == if r.Ok? then Stored(old(tokens), userId, uuid + REFRESH_SUFFIX) else old(tokens)
    {
      hide Keep, DropRefreshOf, EndsWith, Split;
      assert refreshToken + "." + TypeText(Refresh) == refreshToken + REFRESH_SUFFIX;
      var valid := ValidateRefreshToken(refreshToken + "." + TypeText(Refresh));
      if valid.Err? {
        return Err(valid.error);
      }
      var newToken := GenerateRefreshToken(userId, Refresh, uuid);
      assert newToken == uuid + REFRESH_SUFFIX;
      RawPartRoundTrip(uuid, Refresh);
      return Ok(Split(newToken, '.')[0]);
    }

    method InvalidateRefreshToken(refreshToken: string)
      modifies this
      ensures tokens == DropText(old(tokens), refreshToken + REFRESH_SUFFIX)
    {
      assert refreshToken + "." + TypeText(Refresh) == refreshToken + REFRESH_SUFFIX;
      tokens := DropText(tokens, refreshToken + "." + TypeText(Refresh));
    }

    method GeneratePasswordResetToken(userId: string, uuid: string) returns (raw: string)
      modifies this
      ensures raw == uuid && tokens == old(tokens) + [Token(userId, uuid + RESET_SUFFIX)]
    {
      tokens := tokens + [Token(userId, uuid + RESET_SUFFIX)];
      raw := uuid;
    }

    method ValidatePasswordResetToken(token: string) returns (r: Result<string, TokenError>)
      ensures r.Ok? <==> Has(tokens, token + RESET_SUFFIX)
      ensures r.Ok? ==> Token(r.value, token + RESET_SUFFIX) in tokens
      ensures r.Err? ==> r.error == InvalidResetToken
    {
      var record := FirstWith(tokens, token + RESET_SUFFIX);
      r := if record.None? then Err(InvalidResetToken) else Ok(record.value.userId);
    }

    method InvalidatePasswordResetToken(token: string)
      modifies this
      ensures tokens == DropText(old(tokens), token + RESET_SUFFIX)
    {
      tokens := DropText(tokens, token + RESET_SUFFIX);
    }

    method InvalidateAllRefreshTokensForUser(userId: string)
      modifies this
      ensures tokens == DropRefreshOf(old(tokens), userId)
    {
      tokens := DropRefreshOf(tokens, userId);
    }
  }

  // ---------- runs ----------

  datatype Call =
    | Generate(userId: string, kind: TokenType, uuid: string)
    | Rotate(userId: string, raw: string, uuid: string)
    | Revoke(raw: string)
    | RevokeAll(userId: string)
    | GenerateReset(userId: string, uuid: string)
    | RevokeReset(raw: string)

  function Apply(tokens: seq<Token>, call: Call): seq<Token> {
    match call
    case Generate(u, kind, uuid) => Stored(tokens, u, uuid + "." + TypeText(kind))
    case Rotate(u, raw, uuid) =>
      if Has(tokens, raw + REFRESH_SUFFIX) then Stored(tokens, u, uuid + REFRESH_SUFFIX) else tokens
    case Revoke(raw) => DropText(tokens, raw + REFRESH_SUFFIX)
    case RevokeAll(u) => DropRefreshOf(tokens, u)
    case GenerateReset(u, uuid) => tokens + [Token(u, uuid + RESET_SUFFIX)]
    case RevokeReset(raw) => DropText(tokens, raw + RESET_SUFFIX)
  }

  predicate IsRefreshCall(call: Call) {
    !call.GenerateReset? && !call.RevokeReset?
  }

  function Exec(calls: seq<Call>): seq<Token> {
    if calls == [] then [] else Apply(Exec(calls[..|calls| - 1]), calls[|calls| - 1])
  }

  /** The refresh tokens of a user, in table order. */
  function RefreshOf(tokens: seq<Token>, userId: string): seq<Token> {
    Keep(tokens, (t: Token) => t.userId == userId && IsRefresh(t))
  }

  function Refreshes(tokens: seq<Token>): seq<Token> {
    Keep(tokens, (t: Token) => IsRefresh(t))
  }

  function Resets(tokens: seq<Token>): seq<Token> {
    Keep(tokens, (t: Token) => IsReset(t))
  }

  lemma {:induction false} KeepSum(a: seq<Token>, b: seq<Token>, keep: Token -> bool)
    ensures Keep(a + b, keep) == Keep(a, keep) + Keep(b, keep)
    decreases |a|
  {
    if a == [] {
      assert a + b == b;
    } else {
      assert (a + b)[1..] == a[1..] + b;
      KeepSum(a[1..], b, keep);
    }
  }

  /** Filtering by a property that the first filter never decides differently. */
  lemma {:induction false} KeepKeep(tokens: seq<Token>, first: Token -> bool, second: Token -> bool)
    requires forall t :: t in tokens && second(t) ==> first(t)
    ensures Keep(Keep(tokens, first), second) == Keep(tokens, second)
  {
    if tokens != [] {
      KeepKeep(tokens[1..], first, second);
      KeepSum(if first(tokens[0]) then [tokens[0]] else [], Keep(tokens[1..], first), second);
    }
  }

  lemma {:induction false} KeepNone(tokens: seq<Token>, first: Token -> bool, second: Token -> bool)
    requires forall t :: t in tokens && second(t) ==> !first(t)
    ensures Keep(Keep(tokens, first), second) == []
  {
    if tokens != [] {
      KeepNone(tokens[1..], first, second);
      KeepSum(if first(tokens[0]) then [tokens[0]] else [], Keep(tokens[1..], first), second);
    }
  }

  lemma {:induction false} KeepMembers(tokens: seq<Token>, keep: Token -> bool)
    ensures forall t :: t in Keep(tokens, keep) <==> t in tokens && keep(t)
    ensures |Keep(tokens, keep)| <= |tokens|
  {
    if tokens != [] {
      KeepMembers(tokens[1..], keep);
    }
  }

  lemma {:induction false} KeepShrinks(tokens: seq<Token>, first: Token -> bool, second: Token -> bool)
    ensures |Keep(Keep(tokens, first), second)| <= |Keep(tokens, second)|
  {
    if tokens != [] {
      KeepShrinks(tokens[1..], first, second);
      KeepSum(if first(tokens[0]) then [tokens[0]] else [], Keep(tokens[1..], first), second);
    }
  }

  /** No text is both a refresh and a reset token, whatever its raw part. */
  lemma SuffixesApart(text: string)
    ensures !(EndsWith(text, REFRESH_SUFFIX) && EndsWith(text, RESET_SUFFIX))
  {
    if EndsWith(text, REFRESH_SUFFIX) {
      LastOfSuffix(text, REFRESH_SUFFIX);
    }
    if EndsWith(text, RESET_SUFFIX) {
      LastOfSuffix(text, RESET_SUFFIX);
    }
  }

  lemma GeneratedIsNoReset(uuid: string, kind: TokenType)
    ensures !EndsWith(uuid + "." + TypeText(kind), RESET_SUFFIX)
  {
    var text := uuid + "." + TypeText(kind);
    assert text[|text| - 1] == 'n';
    assert RESET_SUFFIX[5] == 't';
  }

  lemma RawPartRoundTrip(uuid: string, kind: TokenType)
    requires '.' !in uuid
    ensures Split(uuid + "." + TypeText(kind), '.')[0] == uuid
  {
    SplitHead(uuid, TypeText(kind), '.');
    assert uuid + "." + TypeText(kind) == uuid + ['.'] + TypeText(kind);
  }

  /** Cutting at the first dot gives the raw token back exactly when the raw token has no dot. */
  lemma RawPartRoundTripIff(raw: string, kind: TokenType)
    ensures Split(raw + "." + TypeText(kind), '.')[0] == raw <==> '.' !in raw
  {
    var text := raw + "." + TypeText(kind);
    if '.' !in raw {
      RawPartRoundTrip(raw, kind);
    } else {
      assert Split(text, '.')[0] in Split(text, '.');
    }
  }

  /** In every run each user has at most one refresh token. */
  lemma {:induction false} AtMostOneRefreshToken(calls: seq<Call>, userId: string)
    ensures |RefreshOf(Exec(calls), userId)| <= 1
    decreases |calls|
  {
    if calls != [] {
      var n := |calls| - 1;
      AtMostOneRefreshToken(calls[..n], userId);
      StepKeepsOne(Exec(calls[..n]), calls[n], userId);
    }
  }

  lemma StepKeepsOne(tokens: seq<Token>, call: Call, userId: string)
    requires |RefreshOf(tokens, userId)| <= 1
    ensures |RefreshOf(Apply(tokens, call), userId)| <= 1
  {
    var mine := (t: Token) => t.userId == userId && IsRefresh(t);
    match call {
      case Generate(u, kind, uuid) => StoredKeepsOne(tokens, u, uuid + "." + TypeText(kind), userId);
      case Rotate(u, raw, uuid) => StoredKeepsOne(tokens, u, uuid + REFRESH_SUFFIX, userId);
      case Revoke(raw) => KeepShrinks(tokens, (t: Token) => t.token != raw + REFRESH_SUFFIX, mine);
      case RevokeAll(u) => KeepShrinks(tokens, (t: Token) => !(t.userId == u && IsRefresh(t)), mine);
      case GenerateReset(u, uuid) =>
        KeepSum(tokens, [Token(u, uuid + RESET_SUFFIX)], mine);
        EndsWithAppend(uuid, RESET_SUFFIX);
        SuffixesApart(uuid + RESET_SUFFIX);
      case RevokeReset(raw) => KeepShrinks(tokens, (t: Token) => t.token != raw + RESET_SUFFIX, mine);
    }
  }

  lemma StoredKeepsOne(tokens: seq<Token>, u: string, text: string, userId: string)
    requires |RefreshOf(tokens, userId)| <= 1
    ensures |RefreshOf(Stored(tokens, u, text), userId)| <= 1
  {
    var mine := (t: Token) => t.userId == userId && IsRefresh(t);
    var kept := (t: Token) => !(t.userId == u && IsRefresh(t));
    KeepSum(DropRefreshOf(tokens, u), [Token(u, text)], mine);
    if u == userId {
      KeepNone(tokens, kept, mine);
    } else {
      KeepShrinks(tokens, kept, mine);
    }
  }

  /** Refresh operations leave the reset tokens alone, and reset operations the refresh tokens. */
  lemma KindsDoNotInterfere(tokens: seq<Token>, call: Call)
    ensures IsRefreshCall(call) ==> Resets(Apply(tokens, call)) == Resets(tokens)
    ensures !IsRefreshCall(call) ==> Refreshes(Apply(tokens, call)) == Refreshes(tokens)
  {
    match call {
      case Generate(u, kind, uuid) =>
        GeneratedIsNoReset(uuid, kind);
        StoredKeepsResets(tokens, u, uuid + "." + TypeText(kind));
      case Rotate(u, raw, uuid) =>
        EndsWithAppend(uuid, REFRESH_SUFFIX);
        SuffixesApart(uuid + REFRESH_SUFFIX);
        StoredKeepsResets(tokens, u, uuid + REFRESH_SUFFIX);
      case Revoke(raw) =>
        EndsWithAppend(raw, REFRESH_SUFFIX);
        SuffixesApart(raw + REFRESH_SUFFIX);
        KeepKeep(tokens, (t: Token) => t.token != raw + REFRESH_SUFFIX, (t: Token) => IsReset(t));
      case RevokeAll(u) =>
        DropKeepsResets(tokens, u);
      case GenerateReset(u, uuid) =>
        KeepSum(tokens, [Token(u, uuid + RESET_SUFFIX)], (t: Token) => IsRefresh(t));
        EndsWithAppend(uuid, RESET_SUFFIX);
        SuffixesApart(uuid + RESET_SUFFIX);
      case RevokeReset(raw) =>
        EndsWithAppend(raw, RESET_SUFFIX);
        SuffixesApart(raw + RESET_SUFFIX);
        KeepKeep(tokens, (t: Token) => t.token != raw + RESET_SUFFIX, (t: Token) => IsRefresh(t));
    }
  }

  lemma DropKeepsResets(tokens: seq<Token>, u: string)
    ensures Resets(DropRefreshOf(tokens, u)) == Resets(tokens)
  {
    forall t | t in tokens && IsReset(t) ensures !IsRefresh(t) {
      SuffixesApart(t.token);
    }
    KeepKeep(tokens, (t: Token) => !(t.userId == u && IsRefresh(t)), (t: Token) => IsReset(t));
  }

  lemma StoredKeepsResets(tokens: seq<Token>, u: string, text: string)
    requires !EndsWith(text, RESET_SUFFIX)
    ensures Resets(Stored(tokens, u, text)) == Resets(tokens)
  {
    KeepSum(DropRefreshOf(tokens, u), [Token(u, text)], (t: Token) => IsReset(t));
    DropKeepsResets(tokens, u);
  }

  /**
   Rotation: the returned token is valid afterwards; the presented one stays valid exactly when some
   other user owns it, so for its owner it is dead.
   */
  lemma RotationReplaces(tokens: seq<Token>, userId: string, raw: string, uuid: string)
    requires Has(tokens, raw + REFRESH_SUFFIX) && uuid != raw
    ensures
      var tokens' := Apply(tokens, Rotate(userId, raw, uuid));
      && Has(tokens', uuid + REFRESH_SUFFIX)
      && (Has(tokens', raw + REFRESH_SUFFIX) <==>
            exists t :: t in tokens && t.token == raw + REFRESH_SUFFIX && t.userId != userId)
  {
    var oldText, newText := raw + REFRESH_SUFFIX, uuid + REFRESH_SUFFIX;
    var kept := (t: Token) => !(t.userId == userId && IsRefresh(t));
    var tokens' := Stored(tokens, userId, newText);
    KeepMembers(tokens, kept);
    EndsWithAppend(raw, REFRESH_SUFFIX);
    assert Token(userId, newText) in tokens';
    assert oldText != newText by {
      assert oldText[..|raw|] == raw && newText[..|uuid|] == uuid;
    }
    if t :| t in tokens && t.token == oldText && t.userId != userId {
      assert t in tokens';
    }
    if t :| t in tokens' && t.token == oldText {
      assert t in Keep(tokens, kept);
    }
  }

  // ---------- which tokens there are ----------

  /** The token a call stores, if it comes to that. */
  predicate Stores(tokens: seq<Token>, call: Call, t: Token) {
    match call
    case Generate(u, kind, uuid) => t == Token(u, uuid + "." + TypeText(kind))
    case Rotate(u, raw, uuid) => Has(tokens, raw + REFRESH_SUFFIX) && t == Token(u, uuid + REFRESH_SUFFIX)
    case GenerateReset(u, uuid) => t == Token(u, uuid + RESET_SUFFIX)
    case _ => false
  }

  /** The tokens a call deletes. */
  predicate Deletes(tokens: seq<Token>, call: Call, t: Token) {
    match call
    case Generate(u, _, _) => t.userId == u && EndsWith(t.token, REFRESH_SUFFIX)
    case Rotate(u, raw, _) => Has(tokens, raw + REFRESH_SUFFIX) && t.userId == u && EndsWith(t.token, REFRESH_SUFFIX)
    case Revoke(raw) => t.token == raw + REFRESH_SUFFIX
    case RevokeAll(u) => t.userId == u && EndsWith(t.token, REFRESH_SUFFIX)
    case GenerateReset(_, _) => false
    case RevokeReset(raw) => t.token == raw + RESET_SUFFIX
  }

  /** A call deletes what it deletes and then stores what it stores; every other token stays. */
  lemma CallTold(tokens: seq<Token>, call: Call, t: Token)
    ensures t in Apply(tokens, call) <==> Stores(tokens, call, t) || (t in tokens && !Deletes(tokens, call, t))
  {
    hide Keep, EndsWith, Has;
    match call {
      case Generate(u, _, _) => KeepMembers(tokens, (t: Token) => !(t.userId == u && IsRefresh(t)));
      case Rotate(u, _, _) => KeepMembers(tokens, (t: Token) => !(t.userId == u && IsRefresh(t)));
      case Revoke(raw) => KeepMembers(tokens, (t: Token) => t.token != raw + REFRESH_SUFFIX);
      case RevokeAll(u) => KeepMembers(tokens, (t: Token) => !(t.userId == u && IsRefresh(t)));
      case GenerateReset(_, _) =>
      case RevokeReset(raw) => KeepMembers(tokens, (t: Token) => t.token != raw + RESET_SUFFIX);
    }
  }

  predicate StoredAt(calls: seq<Call>, i: int, t: Token)
    requires 0 <= i < |calls|
  {
    Stores(Exec(calls[..i]), calls[i], t)
  }

  predicate DeletedAt(calls: seq<Call>, i: int, t: Token)
    requires 0 <= i < |calls|
  {
    Deletes(Exec(calls[..i]), calls[i], t)
  }

  /** After every run a token is in the table exactly if some call stored it and none has deleted it since. */
  lemma {:induction false} TokensTold(calls: seq<Call>, t: Token)
    ensures t in Exec(calls)
       <==> exists i :: 0 <= i < |calls| && StoredAt(calls, i, t) && forall j :: i < j < |calls| ==> !DeletedAt(calls, j, t)
    decreases |calls|
  {
    hide Apply, Stores, Deletes;
    if calls != [] {
      var n := |calls| - 1;
      TokensTold(calls[..n], t);
      CallTold(Exec(calls[..n]), calls[n], t);
      forall i | 0 <= i < n
        ensures StoredAt(calls[..n], i, t) == StoredAt(calls, i, t) && DeletedAt(calls[..n], i, t) == DeletedAt(calls, i, t)
      {
        assert calls[..n][..i] == calls[..i];
      }
      if i :| 0 <= i < n && StoredAt(calls[..n], i, t) && forall j :: i < j < n ==> !DeletedAt(calls[..n], j, t) {
        assert StoredAt(calls, i, t);
        assert !DeletedAt(calls, n, t) ==> forall j :: i < j < |calls| ==> !DeletedAt(calls, j, t);
      }
      if i :| 0 <= i < |calls| && StoredAt(calls, i, t) && forall j :: i < j < |calls| ==> !DeletedAt(calls, j, t) {
        assert i < n ==> StoredAt(calls[..n], i, t) && !DeletedAt(calls, n, t);
      }
      assert Stores(Exec(calls[..n]), calls[n], t) ==> StoredAt(calls, n, t);
    }
  }

  /** A revoked token is valid no longer, and no other text loses or gains validity. */
  lemma RevokedIsInvalid(tokens: seq<Token>, raw: string, text: string)
    ensures Has(Apply(tokens, Revoke(raw)), text) <==> Has(tokens, text) && text != raw + REFRESH_SUFFIX
    ensures Has(Apply(tokens, RevokeReset(raw)), text) <==> Has(tokens, text) && text != raw + RESET_SUFFIX
  {
    hide Apply;
    forall t: Token
      ensures t in Apply(tokens, Revoke(raw)) <==> t in tokens && t.token != raw + REFRESH_SUFFIX
      ensures t in Apply(tokens, RevokeReset(raw)) <==> t in tokens && t.token != raw + RESET_SUFFIX
    {
      CallTold(tokens, Revoke(raw), t);
      CallTold(tokens, RevokeReset(raw), t);
    }
  }
}
