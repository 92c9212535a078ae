/** `topic-builder`: the topic printers and the placeholder matcher. */
module TopicPatterns {
  import opened Text

  datatype Kind =
    | DiscoverUnicast
    | DiagUnicast
    | FirmwareUpgrade
    | HeartbeatTopic
    | RebootTopic
    | Config
    | Assign
    | TelemetryTopic
    | Metrics

  function KindText(k: Kind): string {
    match k
    case DiscoverUnicast => "discover"
    case DiagUnicast => "diagnose"
    case FirmwareUpgrade => "firmware/upgrade"
    case HeartbeatTopic => "heartbeat"
    case RebootTopic => "reboot"
    case Config => "config"
    case Assign => "assign"
    case TelemetryTopic => "telemetry"
    case Metrics => "metrics"
  }

  /** The device printers of `buildTopic`. */
  function BuildTopic(k: Kind, topicPrefix: string, deviceId: string): string {
    topicPrefix + "/" + deviceId + "/" + KindText(k)
  }

  const DEVICE_HOLE := "{deviceId}"
  const CLIENT_HOLE := "{clientId}"
  const TYPE_HOLE := "{type}"
  const SEGMENT := "([^/]+)"

  /** The device pattern of a kind, with its topic prefix filled in. */
  function Pattern(k: Kind, topicPrefix: string): string {
    topicPrefix + "/" + DEVICE_HOLE + "/" + KindText(k)
  }

  // ---------- the matcher ----------

  /** `s.replace(from, to)` with a string: the first occurrence only. */
  function ReplaceFirst(s: string, from: string, to: string): string {
    if from <= s then to + s[|from|..]
    else if s == "" then s
    else [s[0]] + ReplaceFirst(s[1..], from, to)
  }

  datatype Item = Literal(c: char) | Segment

  /** Characters with a meaning of their own in a regular expression. */
  predicate IsMeta(c: char) {
    c in "^$\\.*+?()[]{}|"
  }

  predicate MetaFree(s: string) {
    forall c :: c in s ==> !IsMeta(c)
  }

  /** Reads a regular expression made of literal characters and `([^/]+)`; any other one is not read. */
  function Parse(regex: string): Option<seq<Item>>
    decreases |regex|
  {
    if regex == "" then Some([])
    else if SEGMENT <= regex then
      match Parse(regex[|SEGMENT|..])
      case None => None
      case Some(items) => Some([Segment] + items)
    else if IsMeta(regex[0]) then None
    else
      match Parse(regex[1..])
      case None => None
      case Some(items) => Some([Literal(regex[0])] + items)
  }

  /** The anchored match: some way to give every segment a non-empty run of characters other than a slash. */
  ghost predicate Matches(items: seq<Item>, topic: string)
    decreases |items|
  {
    if items == [] then topic == ""
    else
      match items[0]
      case Literal(c) => topic != "" && topic[0] == c && Matches(items[1..], topic[1..])
      case Segment => exists n: nat :: 1 <= n <= |topic| && SlashFree(topic[..n]) && Matches(items[1..], topic[n..])
  }

  function RegexOf(pattern: string): string {
    ReplaceFirst(ReplaceFirst(ReplaceFirst(pattern, DEVICE_HOLE, SEGMENT), CLIENT_HOLE, SEGMENT), TYPE_HOLE, SEGMENT)
  }

  /** `matchesTopic`, for patterns whose other text has no regular-expression meaning. */
  ghost predicate MatchesTopic(pattern: string, topic: string) {
    Parse(RegexOf(pattern)).Some? && Matches(Parse(RegexOf(pattern)).value, topic)
  }

  // ---------- reading patterns ----------

  function Literals(s: string): seq<Item> {
    seq(|s|, i requires 0 <= i < |s| => Literal(s[i]))
  }

  lemma {:induction false} ReplaceAbsent(s: string, from: string, to: string)
    requires from != "" && from[0] !in s
    ensures ReplaceFirst(s, from, to) == s
  {
    if s != "" {
      assert s[0] in s;
      ReplaceAbsent(s[1..], from, to);
    }
  }

  lemma {:induction false} ReplaceAfter(a: string, from: string, b: string, to: string)
    requires from != "" && from[0] !in a
    ensures ReplaceFirst(a + from + b, from, to) == a + to + b
  {
    var s := a + from + b;
    if a == "" {
      assert s == from + b;
    } else {
      assert s[0] == a[0] && a[0] in a;
      assert s[1..] == a[1..] + from + b;
      ReplaceAfter(a[1..], from, b, to);
      assert [a[0]] + (a[1..] + to + b) == a + to + b;
    }
  }

  lemma {:induction false} ParseLiterals(s: string, rest: string)
    requires MetaFree(s) && Parse(rest).Some?
    ensures Parse(s + rest) == Some(Literals(s) + Parse(rest).value)
    decreases |s|
  {
    if s == "" {
      assert s + rest == rest && Literals(s) + Parse(rest).value == Parse(rest).value;
    } else {
      var t := s + rest;
      assert s[0] in s && !IsMeta(s[0]);
      assert t[0] == s[0] && SEGMENT[0] == '(' && IsMeta('(');
      assert t[1..] == s[1..] + rest;
      ParseLiterals(s[1..], rest);
      assert Literals(s) == [Literal(s[0])] + Literals(s[1..]);
      assert Literals(s) + Parse(rest).value == [Literal(s[0])] + (Literals(s[1..]) + Parse(rest).value);
    }
  }

  lemma ParseHole(a: string, b: string)
    requires MetaFree(a) && MetaFree(b)
    ensures Parse(a + SEGMENT + b) == Some(Literals(a) + [Segment] + Literals(b))
  {
    ParseLiterals(b, "");
    assert b + "" == b && Literals(b) + [] == Literals(b);
    var rest := SEGMENT + b;
    assert SEGMENT <= rest && rest[|SEGMENT|..] == b;
    assert Parse(rest) == Some([Segment] + Literals(b));
    ParseLiterals(a, rest);
    assert a + SEGMENT + b == a + rest;
    assert Literals(a) + ([Segment] + Literals(b)) == Literals(a) + [Segment] + Literals(b);
  }

  lemma RegexOfHole(a: string, b: string)
    requires MetaFree(a) && MetaFree(b)
    ensures RegexOf(a + DEVICE_HOLE + b) == a + SEGMENT + b
  {
    ReplaceAfter(a, DEVICE_HOLE, b, SEGMENT);
    var r := a + SEGMENT + b;
    forall c | c in r ensures c != '{' {
      assert c in a || c in SEGMENT || c in b;
    }
    ReplaceAbsent(r, CLIENT_HOLE, SEGMENT);
    ReplaceAbsent(r, TYPE_HOLE, SEGMENT);
  }

  // ---------- what is accepted ----------

  lemma {:induction false} MatchesLiterals(s: string, items: seq<Item>, topic: string)
    ensures Matches(Literals(s) + items, topic) <==> s <= topic && Matches(items, topic[|s|..])
    decreases |s|
  {
    var all := Literals(s) + items;
    if s == "" {
      assert all == items && topic[0..] == topic;
    } else {
      assert all[0] == Literal(s[0]) && all[1..] == Literals(s[1..]) + items;
      if topic != "" {
        MatchesLiterals(s[1..], items, topic[1..]);
        if topic[0] == s[0] {
          assert s <= topic <==> s[1..] <= topic[1..];
          if s <= topic {
            assert topic[1..][|s| - 1..] == topic[|s|..];
          }
        }
      }
    }
  }

  lemma MatchesExactly(s: string, topic: string)
    ensures Matches(Literals(s), topic) <==> topic == s
  {
    assert Literals(s) + [] == Literals(s);
    MatchesLiterals(s, [], topic);
  }

  lemma MatchesSegment(b: string, topic: string)
    ensures Matches([Segment] + Literals(b), topic) <==>
              exists segment :: segment != "" && SlashFree(segment) && topic == segment + b
  {
    var items := [Segment] + Literals(b);
    assert items[1..] == Literals(b);
    if Matches(items, topic) {
      var n: nat :| 1 <= n <= |topic| && SlashFree(topic[..n]) && Matches(items[1..], topic[n..]);
      MatchesExactly(b, topic[n..]);
      assert topic == topic[..n] + b && topic[..n] != "";
    }
    if segment :| segment != "" && SlashFree(segment) && topic == segment + b {
      var n := |segment|;
      assert topic[..n] == segment && topic[n..] == b;
      MatchesExactly(b, topic[n..]);
    }
  }

  /**
   The matcher accepts exactly the strings obtained by filling the device placeholder with a non-empty
   segment without a slash.
   */
  lemma MatchesFilledHole(a: string, b: string, topic: string)
    requires MetaFree(a) && MetaFree(b)
    ensures MatchesTopic(a + DEVICE_HOLE + b, topic) <==>
              exists segment :: segment != "" && SlashFree(segment) && topic == a + segment + b
  {
    RegexOfHole(a, b);
    ParseHole(a, b);
    var items := [Segment] + Literals(b);
    assert Literals(a) + [Segment] + Literals(b) == Literals(a) + items;
    MatchesLiterals(a, items, topic);
    if a <= topic {
      MatchesSegment(b, topic[|a|..]);
      if segment :| segment != "" && SlashFree(segment) && topic[|a|..] == segment + b {
        assert topic == a + segment + b;
      }
    }
    forall segment | segment != "" && SlashFree(segment) && topic == a + segment + b
      ensures a <= topic && topic[|a|..] == segment + b
    {
      assert topic == a + (segment + b);
    }
  }

  /** A pattern without placeholders accepts itself only. */
  lemma MatchesPlainText(pattern: string, topic: string)
    requires MetaFree(pattern)
    ensures MatchesTopic(pattern, topic) <==> topic == pattern
  {
    assert '{' !in pattern by {
      assert IsMeta('{');
    }
    ReplaceAbsent(pattern, DEVICE_HOLE, SEGMENT);
    ReplaceAbsent(pattern, CLIENT_HOLE, SEGMENT);
    ReplaceAbsent(pattern, TYPE_HOLE, SEGMENT);
    ParseLiterals(pattern, "");
    assert pattern + "" == pattern && Literals(pattern) + [] == Literals(pattern);
    MatchesExactly(pattern, topic);
  }

  lemma KindTextsDistinct(j: Kind, k: Kind)
    requires KindText(j) == KindText(k)
    ensures j == k
  {
    var x, y := KindText(j), KindText(k);
    assert |x| == |y| && x[0] == y[0] && x[2] == y[2];
  }

  predicate LowerCase(s: string) {
    forall i :: 0 <= i < |s| ==> 'a' <= s[i] <= 'z' || s[i] == '/'
  }

  lemma LowerCaseIsPlain(s: string)
    requires LowerCase(s)
    ensures MetaFree(s)
  {
    forall c | c in s ensures !IsMeta(c) {
      var i :| 0 <= i < |s| && s[i] == c;
    }
  }

  lemma KindTextLower(k: Kind)
    ensures LowerCase(KindText(k))
  {
  }

  lemma KindTextsPlain(k: Kind)
    ensures MetaFree(KindText(k))
  {
    KindTextLower(k);
    LowerCaseIsPlain(KindText(k));
  }

  lemma SameAfterPrefix(p: string, x: string, y: string)
    requires p + x == p + y
    ensures x == y
  {
    assert x == (p + x)[|p|..] && y == (p + y)[|p|..];
  }

  /**
   A printed device topic matches the pattern of its own kind exactly for a non-empty id without a
   slash, and then the pattern of no other kind.
   */
  lemma PrinterMatchesOwnPattern(j: Kind, k: Kind, topicPrefix: string, deviceId: string)
    requires MetaFree(topicPrefix)
    ensures MatchesTopic(Pattern(k, topicPrefix), BuildTopic(k, topicPrefix, deviceId)) <==> deviceId != "" && SlashFree(deviceId)
    ensures deviceId != "" && SlashFree(deviceId) ==>
              (MatchesTopic(Pattern(j, topicPrefix), BuildTopic(k, topicPrefix, deviceId)) <==> j == k)
  {
    PatternMatchesTopic(k, k, topicPrefix, deviceId);
    PatternMatchesTopic(j, k, topicPrefix, deviceId);
    if deviceId != "" && SlashFree(deviceId) {
      forall segment | SlashFree(segment) && segment + "/" + KindText(j) == deviceId + "/" + KindText(k) ensures j == k {
        CutUnique(segment, deviceId, KindText(j), KindText(k), '/');
        KindTextsDistinct(j, k);
      }
    }
    forall segment | segment + "/" + KindText(k) == deviceId + "/" + KindText(k) ensures segment == deviceId {
      var t := segment + "/" + KindText(k);
      assert segment == t[..|t| - |KindText(k)| - 1] == deviceId;
    }
  }

  lemma PatternMatchesTopic(j: Kind, k: Kind, topicPrefix: string, deviceId: string)
    requires MetaFree(topicPrefix)
    ensures MatchesTopic(Pattern(j, topicPrefix), BuildTopic(k, topicPrefix, deviceId)) <==>
              exists segment :: segment != "" && SlashFree(segment)
                && segment + "/" + KindText(j) == deviceId + "/" + KindText(k)
  {
    KindTextsPlain(j);
    FilledDeviceHole(topicPrefix, KindText(j), deviceId, KindText(k));
  }

  lemma FilledDeviceHole(topicPrefix: string, x: string, deviceId: string, y: string)
    requires MetaFree(topicPrefix) && MetaFree(x)
    ensures MatchesTopic(topicPrefix + "/" + DEVICE_HOLE + "/" + x, topicPrefix + "/" + deviceId + "/" + y) <==>
              exists segment :: segment != "" && SlashFree(segment) && segment + "/" + x == deviceId + "/" + y
  {
    var a, b := topicPrefix + "/", "/" + x;
    var topic := topicPrefix + "/" + deviceId + "/" + y;
    MatchesFilledHole(a, b, topic);
    assert topicPrefix + "/" + DEVICE_HOLE + "/" + x == a + DEVICE_HOLE + b;
    assert topic == a + (deviceId + "/" + y);
    forall segment
      ensures topic == a + segment + b <==> segment + "/" + x == deviceId + "/" + y
    {
      assert a + segment + b == a + (segment + "/" + x);
      if topic == a + segment + b {
        SameAfterPrefix(a, segment + "/" + x, deviceId + "/" + y);
      }
    }
  }
}
