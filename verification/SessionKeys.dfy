/** The Redis key strings of sessions and pending requests, and the way session ids are read back out. */
module SessionKeys {
  import opened Text
  import opened Redis

  function MainKey(sessionId: string): string {
    "session:" + sessionId
  }

  function TrackKey(userId: string, sessionId: string): string {
    "user:sessions:" + userId + ":" + sessionId
  }

  function PendingKey(requestId: string): string {
    "pending:" + requestId
  }

  function ScanPattern(userId: string): string {
    "user:sessions:" + userId + ":*"
  }

  /** `key.split(':')[3]`, and the text JavaScript prints when that field is missing. */
  function SessionIdOf(key: string): string {
    var parts := Split(key, ':');
    if |parts| > 3 then parts[3] else "undefined"
  }

  predicate ColonFree(s: string) {
    ':' !in s
  }

  /** No character that starts something else than itself in a pattern. */
  predicate GlobFree(s: string) {
    forall c :: c in s ==> !IsGlob(c)
  }

  predicate IsGlob(c: char) {
    c == '*' || c == '?' || c == '[' || c == '\\'
  }

  // ---------- reading the session id back ----------

  lemma TrackKeyInFields(userId: string, sessionId: string)
    ensures TrackKey(userId, sessionId) == "user" + [':'] + ("sessions" + [':'] + (userId + [':'] + sessionId))
  {
    var rest := userId + [':'] + sessionId;
    assert "user:sessions:" == "user" + [':'] + "sessions" + [':'];
    assert TrackKey(userId, sessionId) == "user:sessions:" + rest;
  }

  lemma SplitTwice(a: string, b: string, rest: string, sep: char)
    requires sep !in a && sep !in b
    ensures Split(a + [sep] + (b + [sep] + rest), sep) == [a, b] + Split(rest, sep)
  {
    SplitHead(a, b + [sep] + rest, sep);
    SplitHead(b, rest, sep);
  }

  lemma FieldsOfTrackKey(userId: string, sessionId: string)
    ensures Split(TrackKey(userId, sessionId), ':') == ["user", "sessions"] + Split(userId + [':'] + sessionId, ':')
  {
    TrackKeyInFields(userId, sessionId);
    SplitTwice("user", "sessions", userId + [':'] + sessionId, ':');
  }

  lemma SessionIdRoundTrip(userId: string, sessionId: string)
    requires ColonFree(userId) && ColonFree(sessionId)
    ensures SessionIdOf(TrackKey(userId, sessionId)) == sessionId
  {
    FieldsOfTrackKey(userId, sessionId);
    SplitHead(userId, sessionId, ':');
  }

  /** Field 3 gives back every colon-free session id exactly for the user ids without a colon. */
  lemma FieldThreeIsSessionIdIff(userId: string)
    ensures (forall s :: ColonFree(s) ==> SessionIdOf(TrackKey(userId, s)) == s) <==> ColonFree(userId)
  {
    if ColonFree(userId) {
      forall s | ColonFree(s) ensures SessionIdOf(TrackKey(userId, s)) == s {
        SessionIdRoundTrip(userId, s);
      }
    } else {
      var s := OtherFieldThree(userId);
    }
  }

  /** With a colon in the user id, field 3 is the second colon-separated part of the user id. */
  lemma FieldThreeOfSplitUser(head: string, tail: string, sessionId: string)
    requires ColonFree(head)
    ensures SessionIdOf(TrackKey(head + ":" + tail, sessionId)) == Split(tail, ':')[0]
  {
    var userId := head + ":" + tail;
    FieldsOfTrackKey(userId, sessionId);
    SplitUser(head, tail, sessionId);
    HeadOfSplit(tail, sessionId, ':');
  }

  lemma SplitUser(head: string, tail: string, sessionId: string)
    requires ColonFree(head)
    ensures Split(head + ":" + tail + [':'] + sessionId, ':') == [head] + Split(tail + [':'] + sessionId, ':')
  {
    assert head + ":" + tail + [':'] + sessionId == head + [':'] + (tail + [':'] + sessionId);
    SplitHead(head, tail + [':'] + sessionId, ':');
  }

  lemma OtherFieldThree(userId: string) returns (s: string)
    requires !ColonFree(userId)
    ensures ColonFree(s) && SessionIdOf(TrackKey(userId, s)) != s
  {
    var i := IndexOf(userId, ':');
    var head, tail := userId[..i], userId[i + 1..];
    assert userId == head + ":" + tail;
    var parts := Split(tail, ':');
    assert parts[0] in parts;
    s := parts[0] + "x";
    FieldThreeOfSplitUser(head, tail, s);
  }

  lemma HeadOfSplit(s: string, more: string, sep: char)
    ensures Split(s + [sep] + more, sep)[0] == Split(s, sep)[0]
  {
    var t := s + [sep] + more;
    var i := if sep in s then IndexOf(s, sep) else |s|;
    assert t[..i] == s[..i];
    IndexOfFirst(t, sep, i);
    FirstPart(t, sep);
    FirstPart(s, sep);
  }

  lemma FirstPart(s: string, sep: char)
    ensures Split(s, sep)[0] == if sep in s then s[..IndexOf(s, sep)] else s
  {
  }

  // ---------- keys are injective and the namespaces are disjoint ----------

  lemma MainKeyInjective(s: string, t: string)
    requires MainKey(s) == MainKey(t)
    ensures s == t
  {
    assert s == MainKey(s)[8..];
    assert t == MainKey(t)[8..];
  }

  lemma TrackKeyInjective(u: string, s: string, v: string, t: string)
    requires ColonFree(u) && ColonFree(v)
    requires TrackKey(u, s) == TrackKey(v, t)
    ensures u == v && s == t
  {
    assert u + [':'] + s == TrackKey(u, s)[14..];
    assert v + [':'] + t == TrackKey(v, t)[14..];
    CutUnique(u, v, s, t, ':');
  }

  lemma NamespacesDisjoint(s: string, u: string, t: string, r: string)
    ensures MainKey(s) != TrackKey(u, t)
    ensures MainKey(s) != PendingKey(r)
    ensures TrackKey(u, t) != PendingKey(r)
  {
    assert MainKey(s)[0] == 's' && TrackKey(u, t)[0] == 'u' && PendingKey(r)[0] == 'p';
  }

  lemma PendingKeyInjective(r: string, q: string)
    requires PendingKey(r) == PendingKey(q)
    ensures r == q
  {
    assert r == PendingKey(r)[8..];
    assert q == PendingKey(q)[8..];
  }

  /** Everything the store proofs need about keys, in quantified form. */
  lemma KeyFacts()
    ensures forall s, t {:trigger MainKey(s), MainKey(t)} :: MainKey(s) == MainKey(t) ==> s == t
    ensures forall s, u, t {:trigger MainKey(s), TrackKey(u, t)} :: MainKey(s) != TrackKey(u, t)
    ensures forall u, s, v, t {:trigger TrackKey(u, s), TrackKey(v, t)} ::
              ColonFree(u) && ColonFree(v) && TrackKey(u, s) == TrackKey(v, t) ==> u == v && s == t
    ensures forall u, s {:trigger TrackKey(u, s)} ::
              ColonFree(u) && ColonFree(s) ==> SessionIdOf(TrackKey(u, s)) == s
  {
    forall s, t | MainKey(s) == MainKey(t) ensures s == t {
      MainKeyInjective(s, t);
    }
    forall s, u, t ensures MainKey(s) != TrackKey(u, t) {
      NamespacesDisjoint(s, u, t, "");
    }
    forall u, s, v, t | ColonFree(u) && ColonFree(v) && TrackKey(u, s) == TrackKey(v, t) ensures u == v && s == t {
      TrackKeyInjective(u, s, v, t);
    }
    forall u, s | ColonFree(u) && ColonFree(s) ensures SessionIdOf(TrackKey(u, s)) == s {
      SessionIdRoundTrip(u, s);
    }
  }

  // ---------- the scan pattern ----------

  lemma {:induction false} GlobLiteral(literal: string, pattern: string, text: string)
    requires GlobFree(literal)
    ensures GlobMatch(literal + pattern, text) <==> literal <= text && GlobMatch(pattern, text[|literal|..])
    decreases |literal|
  {
    if literal == "" {
      assert literal + pattern == pattern && text[|literal|..] == text;
    } else {
      var p := literal + pattern;
      assert p[0] == literal[0] && p[1..] == literal[1..] + pattern && !IsGlob(literal[0]);
      if text != "" {
        GlobLiteral(literal[1..], pattern, text[1..]);
        if literal[0] == text[0] {
          assert literal <= text <==> literal[1..] <= text[1..];
          if literal <= text {
            assert text[1..][|literal| - 1..] == text[|literal|..];
          }
        }
      }
    }
  }

  lemma {:induction false} GlobStar(text: string)
    ensures GlobMatch("*", text)
    decreases |text|
  {
    assert "*"[1..] == "";
    if text != "" {
      GlobStar(text[1..]);
    }
  }

  /** For a user id without special characters the pattern matches that user's tracking keys and nothing else. */
  lemma PatternMatchesExactly(userId: string, key: string)
    requires GlobFree(userId)
    ensures GlobMatch(ScanPattern(userId), key) <==> exists s :: key == TrackKey(userId, s)
  {
    hide GlobMatch, IsGlob;
    var literal := "user:sessions:" + userId + ":";
    PlainKey(userId);
    GlobLiteral(literal, "*", key);
    if literal <= key {
      GlobStar(key[|literal|..]);
      assert key == TrackKey(userId, key[|literal|..]);
    }
    forall s | key == TrackKey(userId, s) ensures literal <= key {
      assert key[..|literal|] == literal;
    }
  }

  // ---------- which user ids the pattern is exact for ----------

  predicate EndsInColonStar(p: string) {
    |p| >= 2 && p[|p| - 2] == ':' && p[|p| - 1] == '*'
  }

  /** A class in a pattern that ends in `:*` ends before that ending or swallows it whole. */
  lemma {:induction false} ClassKeepsEnd(p: string, i: nat)
    requires EndsInColonStar(p) && i <= |p|
    ensures ClassEnd(p, i) != |p| - 1
    decreases |p| - i
  {
    if i < |p| && p[i] != ']' {
      if i + 1 < |p| && p[i] == '\\' {
        ClassKeepsEnd(p, i + 2);
      } else if i + 2 < |p| && p[i + 1] == '-' {
        ClassKeepsEnd(p, i + 3);
      } else {
        ClassKeepsEnd(p, i + 1);
      }
    }
  }

  /** The item that starts `b:*` ends inside `b`, or is an escape that takes the colon, or swallows the ending. */
  lemma ItemEnds(b: string)
    requires b != ""
    ensures
      var p := b + ":*";
      var e := ItemEnd(p);
      || (e <= |b| && p[e..] == b[e..] + ":*")
      || (e == |b| + 1 && forall c :: Takes(p, c) ==> c == ':')
      || e == |p|
  {
    hide ClassEnd, ClassHas;
    var p := b + ":*";
    if p[0] == '[' {
      ClassKeepsEnd(p, if Negated(p) then 2 else 1);
    }
  }

  /** One item that takes a character, then a match of the rest. */
  lemma ItemMatches(pattern: string, c: char, text: string)
    requires pattern != "" && pattern[0] != '*'
    ensures GlobMatch(pattern, [c] + text) <==> Takes(pattern, c) && GlobMatch(pattern[ItemEnd(pattern)..], text)
  {
    assert ([c] + text)[1..] == text;
  }

  /** A pattern `b:*` that matches a colon-free text longer than `b` before the colon has a star to stretch. */
  lemma {:induction false} Stretch(b: string, t: string) returns (longer: string)
    requires GlobMatch(b + ":*", t + ":") && ColonFree(t) && |t| > |b|
    ensures ColonFree(longer) && |longer| == |t| + 1 && GlobMatch(b + ":*", longer + ":")
    decreases |b|
  {
    hide GlobMatch, Takes, ItemEnd;
    var p := b + ":*";
    assert t + ":" == [t[0]] + (t[1..] + ":");
    if b != "" && b[0] == '*' {
      longer := "x" + t;
      assert longer + ":" == ['x'] + (t + ":");
      StarTakes(p, 'x', t + ":");
    } else {
      ItemMatches(p, t[0], t[1..] + ":");
      LongTextEnds(b, t[0], t[1..]);
      var tail := Stretch(b[ItemEnd(p)..], t[1..]);
      longer := [t[0]] + tail;
      ItemMatches(p, t[0], tail + ":");
      assert longer + ":" == [t[0]] + (tail + ":");
    }
  }

  /** The first item of such a pattern ends inside `b`. */
  lemma LongTextEnds(b: string, c: char, t: string)
    requires c != ':' && ColonFree(t) && |t| >= |b| && (b == "" || b[0] != '*')
    requires Takes(b + ":*", c) && GlobMatch((b + ":*")[ItemEnd(b + ":*")..], t + ":")
    ensures var e := ItemEnd(b + ":*"); b != "" && e <= |b| && (b + ":*")[e..] == b[e..] + ":*"
  {
    hide GlobMatch;
    assert (b + ":*")[|b| + 2..] == "";
    NothingMatchesEmpty(t + ":");
    ColonTakesColon(c);
    if b != "" {
      ItemEnds(b);
    }
  }

  lemma ColonTakesColon(c: char)
    ensures Takes("" + ":*", c) ==> c == ':'
  {
    assert ("" + ":*")[0] == ':';
  }

  lemma NothingMatchesEmpty(text: string)
    ensures GlobMatch("", text) ==> text == ""
  {
  }

  /** Where a special character starts what is left of a user id, the pattern matches another text up to the colon. */
  lemma OtherTextMatched(b: string) returns (v: string)
    requires ColonFree(b) && b != "" && IsGlob(b[0]) && GlobMatch(b + ":*", b + ":")
    ensures ColonFree(v) && v != b && GlobMatch(b + ":*", v + ":")
  {
    hide GlobMatch, Takes, ItemEnd;
    var p, tail := b + ":*", b[1..];
    assert b + ":" == [b[0]] + (tail + ":");
    if b[0] == '*' {
      v := "x" + b;
      assert v + ":" == ['x'] + (b + ":");
      StarTakes(p, 'x', b + ":");
    } else {
      ItemMatches(p, b[0], tail + ":");
      if b[0] == '?' {
        v := "x" + tail;
        AnyTakes(p, 'x');
        ItemMatches(p, 'x', tail + ":");
        assert v + ":" == ['x'] + (tail + ":");
      } else {
        SpecialEnds(b);
        var longer := Stretch(b[ItemEnd(p)..], tail);
        v := [b[0]] + longer;
        ItemMatches(p, b[0], longer + ":");
        assert v + ":" == [b[0]] + (longer + ":");
      }
    }
  }

  lemma StarTakes(pattern: string, c: char, text: string)
    requires pattern != "" && pattern[0] == '*' && GlobMatch(pattern, text)
    ensures GlobMatch(pattern, [c] + text)
  {
    assert ([c] + text)[1..] == text;
  }

  lemma AnyTakes(pattern: string, c: char)
    requires pattern != "" && pattern[0] == '?'
    ensures Takes(pattern, c)
  {
  }

  /** An escape or a class that starts a matching `b:*` ends inside `b` and is longer than what it takes. */
  lemma SpecialEnds(b: string)
    requires ColonFree(b) && b != "" && (b[0] == '[' || b[0] == '\\')
    requires Takes(b + ":*", b[0]) && GlobMatch((b + ":*")[ItemEnd(b + ":*")..], b[1..] + ":")
    ensures var e := ItemEnd(b + ":*"); 2 <= e <= |b| && (b + ":*")[e..] == b[e..] + ":*"
  {
    hide GlobMatch;
    assert (b + ":*")[|b| + 2..] == "";
    NothingMatchesEmpty(b[1..] + ":");
    ItemEnds(b);
    SpecialIsLong(b + ":*");
  }

  lemma SpecialIsLong(p: string)
    requires |p| >= 2 && (p[0] == '[' || p[0] == '\\')
    ensures ItemEnd(p) >= 2
  {
  }

  /**
   The pattern finds all of the user's own keys and no other user's exactly when the user id has neither
   a colon nor a character that is special in patterns.
   */
  lemma PatternIsolatesUserIff(userId: string)
    ensures && (forall s :: GlobMatch(ScanPattern(userId), TrackKey(userId, s)))
            && (forall v, s :: ColonFree(v) && GlobMatch(ScanPattern(userId), TrackKey(v, s)) ==> v == userId)
       <==> ColonFree(userId) && GlobFree(userId)
  {
    if ColonFree(userId) && GlobFree(userId) {
      forall s ensures GlobMatch(ScanPattern(userId), TrackKey(userId, s)) {
        PatternMatchesExactly(userId, TrackKey(userId, s));
      }
      forall v, s | ColonFree(v) && GlobMatch(ScanPattern(userId), TrackKey(v, s)) ensures v == userId {
        PatternMatchesExactly(userId, TrackKey(v, s));
        var t :| TrackKey(v, s) == TrackKey(userId, t);
        TrackKeyInjective(v, s, userId, t);
      }
    } else if GlobMatch(ScanPattern(userId), TrackKey(userId, "")) {
      var v, s := SomeOtherKeyMatched(userId);
    }
  }

  lemma SomeOtherKeyMatched(userId: string) returns (v: string, s: string)
    requires !ColonFree(userId) || !GlobFree(userId)
    requires GlobMatch(ScanPattern(userId), TrackKey(userId, ""))
    ensures ColonFree(v) && v != userId && GlobMatch(ScanPattern(userId), TrackKey(v, s))
  {
    hide GlobMatch, IsGlob, ScanPattern, TrackKey;
    if !ColonFree(userId) {
      v, s := OwnerBeforeColon(userId);
    } else {
      var a := PlainPart(userId);
      var b := userId[|a|..];
      PrefixMatches(userId, a, b, b);
      var w := OtherTextMatched(b);
      PrefixMatches(userId, a, b, w);
      v, s := a + w, "";
    }
  }

  /** With a colon in it, a user id's own keys are also keys of what comes before the colon. */
  lemma OwnerBeforeColon(userId: string) returns (v: string, s: string)
    requires !ColonFree(userId)
    ensures ColonFree(v) && v != userId && TrackKey(v, s) == TrackKey(userId, "")
  {
    var i := IndexOf(userId, ':');
    v, s := userId[..i], userId[i + 1..] + ":";
    assert userId + ":" == v + ":" + s;
  }

  lemma {:induction false} PlainPart(userId: string) returns (a: string)
    requires !GlobFree(userId)
    ensures a < userId && GlobFree(a) && IsGlob(userId[|a|])
  {
    if IsGlob(userId[0]) {
      a := "";
    } else {
      a := PlainPart(userId[1..]);
      a := [userId[0]] + a;
    }
  }

  lemma PrefixMatches(userId: string, a: string, b: string, w: string)
    requires userId == a + b && GlobFree(a)
    ensures GlobMatch(ScanPattern(userId), TrackKey(a + w, "")) <==> GlobMatch(b + ":*", w + ":")
  {
    hide GlobMatch, IsGlob;
    PrefixSplits(a, b, w);
    PlainLiteral(a);
    GlobAfterLiteral("user:sessions:" + a, b + ":*", w + ":");
  }

  lemma GlobAfterLiteral(literal: string, pattern: string, text: string)
    requires GlobFree(literal)
    ensures GlobMatch(literal + pattern, literal + text) <==> GlobMatch(pattern, text)
  {
    GlobLiteral(literal, pattern, literal + text);
    assert (literal + text)[|literal|..] == text;
  }

  lemma PrefixSplits(a: string, b: string, w: string)
    ensures ScanPattern(a + b) == "user:sessions:" + a + (b + ":*")
    ensures TrackKey(a + w, "") == "user:sessions:" + a + (w + ":")
  {
  }

  lemma PlainKey(userId: string)
    requires GlobFree(userId)
    ensures GlobFree("user:sessions:" + userId + ":") && ScanPattern(userId) == "user:sessions:" + userId + ":" + "*"
  {
    PlainLiteral(userId);
  }

  lemma PlainLiteral(a: string)
    requires GlobFree(a)
    ensures GlobFree("user:sessions:" + a)
  {
  }
}
