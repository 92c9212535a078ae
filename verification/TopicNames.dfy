/** Topic strings: the use cases, the strings printed from them, and the events they are routed to. */
module TopicNames {
  import opened Text
  import opened MessageRouter

  datatype UseCase =
    | AssignDeviceFunction
    | NetworkConfiguration
    | SetSensorConfiguration
    | GetSensorConfiguration
    | HardwareStatus
    | FirmwareStatus
    | FirmwareUpdate
    | TelemetryQueue
    | RebootCommand
    | DeviceBase
    | Diagnostics
    | Discovery
    | Telemetry
    | Heartbeat
    | Broadcast

  function UseCaseText(uc: UseCase): string {
    match uc
    case AssignDeviceFunction => "assign"
    case NetworkConfiguration => "netconfig"
    case SetSensorConfiguration => "config/set"
    case GetSensorConfiguration => "config/get"
    case HardwareStatus => "hardware-status"
    case FirmwareStatus => "firmware/status"
    case FirmwareUpdate => "firmware/upgrade"
    case TelemetryQueue => "telemetry-queue"
    case RebootCommand => "reboot"
    case DeviceBase => "base"
    case Diagnostics => "diagnose"
    case Discovery => "discovery"
    case Telemetry => "telemetry"
    case Heartbeat => "heartbeat"
    case Broadcast => "broadcast"
  }

  /** `Object.values(TopicUseCase)`, in declaration order. */
  const USE_CASES: seq<UseCase> := [
    AssignDeviceFunction, NetworkConfiguration, SetSensorConfiguration, GetSensorConfiguration,
    HardwareStatus, FirmwareStatus, FirmwareUpdate, TelemetryQueue, RebootCommand, DeviceBase,
    Diagnostics, Discovery, Telemetry, Heartbeat, Broadcast]

  function BaseTopic(base: string, deviceId: string): string {
    base + "/" + deviceId
  }

  function DeviceTopic(base: string, deviceId: string, uc: UseCase): string {
    base + "/" + deviceId + "/" + UseCaseText(uc)
  }

  // ---------- the default handlers ----------

  const DISCOVERY := Handler("DiscoveryMessageHandler", "/discovery", 10, "mqtt/message/discovery")
  const ASSIGN := Handler("AssignmentMessageHandler", "/assign", 10, "mqtt/message/assign")
  const CONFIG_GET := Handler("ConfigurationGetMessageHandler", "/config/get", 10, "mqtt/message/config/get")
  const CONFIG_SET := Handler("ConfigurationSetMessageHandler", "/config/set", 10, "mqtt/message/config/set")
  const ACK := Handler("AcknowledgeMessageHandler", "/ack", 10, "mqtt/message/ack")
  const UPGRADE := Handler("FirmwareUpgradeMessageHandler", "/upgrade", 10, "mqtt/message/upgrade")
  const HEARTBEAT := Handler("HeartbeatMessageHandler", "/heartbeat", 5, "mqtt/message/heartbeat")
  const REBOOT := Handler("RebootMessageHandler", "/reboot", 10, "mqtt/message/reboot")
  const TELEMETRY := Handler("TelemetryMessageHandler", "/telemetry", 8, "mqtt/message/telemetry")
  const HARDWARE := Handler("HardwareStatusMessageHandler", "/hardware_status", 8, "mqtt/message/hardware-status")
  const ALERT := Handler("AlertMessageHandler", "/alert", 15, "mqtt/message/alert")

  const DEFAULT_HANDLERS: seq<Handler> := [
    DISCOVERY, ASSIGN, CONFIG_GET, CONFIG_SET, ACK, UPGRADE, HEARTBEAT, REBOOT, TELEMETRY, HARDWARE, ALERT]

  /** `initializeMessageRouter` leaves the eleven handlers in registration order. */
  method InitializeMessageRouter() returns (router: MqttMessageRouter)
    ensures fresh(router) && router.Valid() && router.handlers == DEFAULT_HANDLERS
  {
    router := new MqttMessageRouter();
    RegisterNext(router, DISCOVERY, 0);
    RegisterNext(router, ASSIGN, 1);
    RegisterNext(router, CONFIG_GET, 2);
    RegisterNext(router, CONFIG_SET, 3);
    RegisterNext(router, ACK, 4);
    RegisterNext(router, UPGRADE, 5);
    RegisterNext(router, HEARTBEAT, 6);
    RegisterNext(router, REBOOT, 7);
    RegisterNext(router, TELEMETRY, 8);
    RegisterNext(router, HARDWARE, 9);
    RegisterNext(router, ALERT, 10);
  }

  method RegisterNext(router: MqttMessageRouter, h: Handler, ghost i: nat)
    requires router.Valid() && i < |DEFAULT_HANDLERS| && h == DEFAULT_HANDLERS[i]
    requires router.handlers == DEFAULT_HANDLERS[..i]
    modifies router
    ensures router.Valid() && router.handlers == DEFAULT_HANDLERS[..i + 1]
  {
    DefaultNamesDistinct();
    MapSetNew(router.handlers, h);
    router.Register(h);
  }

  lemma DefaultNamesDistinct()
    ensures DistinctNames(DEFAULT_HANDLERS)
  {
  }

  // ---------- the last word of a topic decides ----------

  /** What follows the last slash. */
  function Word(s: string): (w: string)
    ensures '/' !in w && |w| <= |s|
  {
    if s == "" || s[|s| - 1] == '/' then "" else Word(s[..|s| - 1]) + [s[|s| - 1]]
  }

  lemma {:induction false} WordAfterSlash(prefix: string, w: string)
    requires SlashFree(w)
    ensures Word(prefix + "/" + w) == w
    decreases |w|
  {
    var s := prefix + "/" + w;
    if w != "" {
      var n := |w| - 1;
      assert s[..|s| - 1] == prefix + "/" + w[..n];
      WordAfterSlash(prefix, w[..n]);
      assert w == w[..n] + [w[n]];
    }
  }

  /** A suffix that contains a slash has the last word of the whole. */
  lemma WordOfSuffix(s: string, prefix: string, w: string)
    requires SlashFree(w) && EndsWith(s, prefix + "/" + w)
    ensures Word(s) == w
  {
    var suffix := prefix + "/" + w;
    var rest := s[..|s| - |suffix|];
    assert s == rest + suffix;
    assert s == (rest + prefix) + "/" + w;
    WordAfterSlash(rest + prefix, w);
  }

  /** The text of a use case before its last slash, if it has one. */
  function Lead(uc: UseCase): string {
    match uc
    case SetSensorConfiguration => "config"
    case GetSensorConfiguration => "config"
    case FirmwareStatus => "firmware"
    case FirmwareUpdate => "firmware"
    case _ => ""
  }

  function LastWord(uc: UseCase): string {
    match uc
    case SetSensorConfiguration => "set"
    case GetSensorConfiguration => "get"
    case FirmwareStatus => "status"
    case FirmwareUpdate => "upgrade"
    case _ => UseCaseText(uc)
  }

  lemma UseCaseParts(uc: UseCase)
    ensures UseCaseText(uc) == if Lead(uc) == "" then LastWord(uc) else Lead(uc) + "/" + LastWord(uc)
    ensures SlashFree(LastWord(uc))
  {
    TwoPartTexts();
  }

  lemma TwoPartTexts()
    ensures "config" + "/" + "set" == "config/set" && "config" + "/" + "get" == "config/get"
    ensures "firmware" + "/" + "status" == "firmware/status" && "firmware" + "/" + "upgrade" == "firmware/upgrade"
  {
  }

  lemma WordOfText(before: string, lead: string, w: string)
    requires SlashFree(w)
    ensures Word(before + "/" + (if lead == "" then w else lead + "/" + w)) == w
  {
    if lead == "" {
      WordAfterSlash(before, w);
    } else {
      assert before + "/" + (lead + "/" + w) == (before + "/" + lead) + "/" + w;
      WordAfterSlash(before + "/" + lead, w);
    }
  }

  lemma WordOfDeviceTopic(base: string, deviceId: string, uc: UseCase)
    ensures Word(DeviceTopic(base, deviceId, uc)) == LastWord(uc)
  {
    UseCaseParts(uc);
    WordOfText(base + "/" + deviceId, Lead(uc), LastWord(uc));
  }

  lemma LastWordsDistinct(a: UseCase, b: UseCase)
    requires LastWord(a) == LastWord(b)
    ensures a == b
  {
    var x, y := LastWord(a), LastWord(b);
    assert |x| == |y| && x[0] == y[0];
  }

  // ---------- topic strings are injective ----------

  /** For one base, a device topic determines device and use case, even for device ids with slashes. */
  lemma DeviceTopicInjective(base: string, d: string, u: UseCase, e: string, v: UseCase)
    requires DeviceTopic(base, d, u) == DeviceTopic(base, e, v)
    ensures d == e && u == v
  {
    WordOfDeviceTopic(base, d, u);
    WordOfDeviceTopic(base, e, v);
    LastWordsDistinct(u, v);
    DeviceOf(base, d, u);
    DeviceOf(base, e, v);
  }

  lemma DeviceOf(base: string, d: string, u: UseCase)
    ensures
      var t := DeviceTopic(base, d, u);
      |base| + 1 <= |t| - |UseCaseText(u)| - 1 && t[|base| + 1..|t| - |UseCaseText(u)| - 1] == d
  {
  }

  /** No use case ends in a slash and another use case. */
  lemma NoUseCaseEndsInAnother(u: UseCase, v: UseCase)
    ensures !EndsWith(UseCaseText(u), "/" + UseCaseText(v))
  {
    if EndsWith(UseCaseText(u), "/" + UseCaseText(v)) {
      SpelledInside(UseCaseText(u), UseCaseText(v));
      var rest := UseCaseText(u)[..|UseCaseText(u)| - |UseCaseText(v)| - 1];
      DeviceTopicInjective("", "", u, "/" + rest, v);
    }
  }

  lemma SpelledInside(t: string, u: string)
    requires EndsWith(t, "/" + u)
    ensures "" + "/" + "" + "/" + t == "" + "/" + ("/" + t[..|t| - |u| - 1]) + "/" + u
  {
    assert t == t[..|t| - |u| - 1] + ("/" + u);
  }

  lemma BaseTopicInjective(base: string, d: string, e: string)
    requires BaseTopic(base, d) == BaseTopic(base, e)
    ensures d == e
  {
    assert d == BaseTopic(base, d)[|base| + 1..];
    assert e == BaseTopic(base, e)[|base| + 1..];
  }

  /** A device's base topic is another device's use-case topic exactly when its id spells that out. */
  lemma BaseMeetsDeviceTopicIff(base: string, d: string, e: string, u: UseCase)
    ensures BaseTopic(base, d) == DeviceTopic(base, e, u) <==> d == e + "/" + UseCaseText(u)
  {
    assert d == BaseTopic(base, d)[|base| + 1..];
    assert DeviceTopic(base, e, u) == base + "/" + (e + "/" + UseCaseText(u));
    assert e + "/" + UseCaseText(u) == DeviceTopic(base, e, u)[|base| + 1..];
  }

  // ---------- routing of topics ----------

  /** The event the router answers with for an object payload. */
  function EventFor(hs: seq<Handler>, topic: string): string {
    match FirstMatch(SortByPriority(hs), topic)
    case None => UNKNOWN_EVENT
    case Some(h) => h.event
  }

  /** The last word of each default suffix. */
  const HANDLER_WORDS: seq<string> := [
    "discovery", "assign", "get", "set", "ack", "upgrade", "heartbeat", "reboot", "telemetry", "hardware_status", "alert"]

  const HANDLER_LEADS: seq<string> := ["", "", "/config", "/config", "", "", "", "", "", "", ""]

  predicate SuffixSplits(i: nat)
    requires i < |DEFAULT_HANDLERS|
  {
    DEFAULT_HANDLERS[i].suffix == HANDLER_LEADS[i] + "/" + HANDLER_WORDS[i] && SlashFree(HANDLER_WORDS[i])
  }

  lemma HandlerParts(i: nat)
    requires i < |DEFAULT_HANDLERS|
    ensures SuffixSplits(i)
  {
    if i < 4 {
      FirstHandlerParts();
    } else if i < 8 {
      MiddleHandlerParts();
    } else {
      LastHandlerParts();
      FinalHandlerParts();
    }
  }

  lemma FirstHandlerParts()
    ensures SuffixSplits(0) && SuffixSplits(1) && SuffixSplits(2) && SuffixSplits(3)
  {
  }

  lemma MiddleHandlerParts()
    ensures SuffixSplits(4) && SuffixSplits(5) && SuffixSplits(6) && SuffixSplits(7)
  {
  }

  lemma LastHandlerParts()
    ensures SuffixSplits(8)
  {
  }

  lemma FinalHandlerParts()
    ensures SuffixSplits(9)
    ensures SuffixSplits(10)
  {
  }

  lemma HandlerWordsDistinct(i: nat, j: nat)
    requires i < |HANDLER_WORDS| && j < |HANDLER_WORDS| && HANDLER_WORDS[i] == HANDLER_WORDS[j]
    ensures i == j
  {
    var x, y := HANDLER_WORDS[i], HANDLER_WORDS[j];
    assert |x| == |y| && x[0] == y[0];
  }

  /** No default suffix ends another, and no string ends in two of them. */
  lemma AtMostOneHandler(topic: string, i: nat, j: nat)
    requires i < |DEFAULT_HANDLERS| && j < |DEFAULT_HANDLERS|
    requires CanHandle(DEFAULT_HANDLERS[i], topic) && CanHandle(DEFAULT_HANDLERS[j], topic)
    ensures i == j
  {
    HandlerParts(i);
    HandlerParts(j);
    WordOfSuffix(topic, HANDLER_LEADS[i], HANDLER_WORDS[i]);
    WordOfSuffix(topic, HANDLER_LEADS[j], HANDLER_WORDS[j]);
    HandlerWordsDistinct(i, j);
  }

  predicate SameButPriority(h: Handler, g: Handler) {
    h.suffix == g.suffix && h.event == g.event
  }

  /** Whatever the priorities, the default handlers route every string alike. */
  lemma PrioritiesDoNotMatter(hs: seq<Handler>, topic: string)
    requires |hs| == |DEFAULT_HANDLERS|
    requires forall i :: 0 <= i < |hs| ==> SameButPriority(hs[i], DEFAULT_HANDLERS[i])
    ensures EventFor(hs, topic) == EventFor(DEFAULT_HANDLERS, topic)
  {
    var i := SortedFirstMatchIsChosen(hs, topic);
    var j := SortedFirstMatchIsChosen(DEFAULT_HANDLERS, topic);
    forall k | 0 <= k < |hs| ensures CanHandle(hs[k], topic) <==> CanHandle(DEFAULT_HANDLERS[k], topic) {
      assert SameButPriority(hs[k], DEFAULT_HANDLERS[k]);
    }
    if FirstMatch(SortByPriority(hs), topic).Some? {
      assert hs[i] in hs && DEFAULT_HANDLERS[i] in DEFAULT_HANDLERS;
      AtMostOneHandler(topic, i, j);
    } else {
      assert forall k :: 0 <= k < |hs| ==> hs[k] in hs;
    }
  }

  lemma OnlyHandlerRoutes(topic: string, i: nat)
    requires i < |DEFAULT_HANDLERS| && CanHandle(DEFAULT_HANDLERS[i], topic)
    ensures EventFor(DEFAULT_HANDLERS, topic) == DEFAULT_HANDLERS[i].event
  {
    var j := SortedFirstMatchIsChosen(DEFAULT_HANDLERS, topic);
    assert DEFAULT_HANDLERS[i] in DEFAULT_HANDLERS;
    AtMostOneHandler(topic, i, j);
  }

  lemma NoHandlerRoutes(topic: string)
    requires Word(topic) !in HANDLER_WORDS
    ensures EventFor(DEFAULT_HANDLERS, topic) == UNKNOWN_EVENT
  {
    forall j | 0 <= j < |DEFAULT_HANDLERS| ensures !CanHandle(DEFAULT_HANDLERS[j], topic) {
      assert HANDLER_WORDS[j] in HANDLER_WORDS;
      HandlerParts(j);
      if CanHandle(DEFAULT_HANDLERS[j], topic) {
        WordOfSuffix(topic, HANDLER_LEADS[j], HANDLER_WORDS[j]);
      }
    }
    var i := SortedFirstMatchIsChosen(DEFAULT_HANDLERS, topic);
  }

  /** The handler position that serves a use case, if any. */
  function ServedBy(uc: UseCase): Option<nat> {
    match uc
    case Discovery => Some(0)
    case AssignDeviceFunction => Some(1)
    case GetSensorConfiguration => Some(2)
    case SetSensorConfiguration => Some(3)
    case FirmwareUpdate => Some(5)
    case Heartbeat => Some(6)
    case RebootCommand => Some(7)
    case Telemetry => Some(8)
    case _ => None
  }

  /** The event a use case is meant for. */
  function EventOf(uc: UseCase): string {
    match uc
    case Discovery => "mqtt/message/discovery"
    case AssignDeviceFunction => "mqtt/message/assign"
    case GetSensorConfiguration => "mqtt/message/config/get"
    case SetSensorConfiguration => "mqtt/message/config/set"
    case FirmwareUpdate => "mqtt/message/upgrade"
    case Heartbeat => "mqtt/message/heartbeat"
    case RebootCommand => "mqtt/message/reboot"
    case Telemetry => "mqtt/message/telemetry"
    case _ => UNKNOWN_EVENT
  }

  lemma ServedParts(uc: UseCase)
    requires ServedBy(uc).Some?
    ensures
      var i := ServedBy(uc).value;
      && DEFAULT_HANDLERS[i].event == EventOf(uc) && HANDLER_WORDS[i] == LastWord(uc)
      && HANDLER_LEADS[i] == (if Lead(uc) == "config" then "/config" else "")
      && (Lead(uc) == "" || Lead(uc) == "config" || Lead(uc) == "firmware")
  {
  }

  lemma ServedSuffix(before: string, uc: UseCase)
    requires ServedBy(uc).Some?
    ensures EndsWith(before + "/" + UseCaseText(uc), DEFAULT_HANDLERS[ServedBy(uc).value].suffix)
    ensures DEFAULT_HANDLERS[ServedBy(uc).value].event == EventOf(uc)
  {
    ServedParts(uc);
    UseCaseParts(uc);
    HandlerParts(ServedBy(uc).value);
    SuffixInTopic(before, Lead(uc), LastWord(uc));
  }

  lemma SuffixInTopic(before: string, lead: string, w: string)
    requires lead == "" || lead == "config" || lead == "firmware"
    ensures EndsWith(before + "/" + (if lead == "" then w else lead + "/" + w),
                     (if lead == "config" then "/config" else "") + "/" + w)
  {
    if lead == "" {
      assert "" + "/" + w == "/" + w && before + "/" + w == before + ("/" + w);
      EndsWithAppend(before, "/" + w);
    } else if lead == "config" {
      assert "/config" + "/" + w == "/" + ("config" + "/" + w);
      assert before + "/" + ("config" + "/" + w) == before + ("/" + ("config" + "/" + w));
      EndsWithAppend(before, "/" + ("config" + "/" + w));
    } else {
      assert "" + "/" + w == "/" + w;
      assert before + "/" + (lead + "/" + w) == (before + "/" + lead) + ("/" + w);
      EndsWithAppend(before + "/" + lead, "/" + w);
    }
  }

  lemma UnservedWord(uc: UseCase)
    requires ServedBy(uc).None?
    ensures LastWord(uc) !in HANDLER_WORDS
  {
    forall i | 0 <= i < |HANDLER_WORDS| ensures HANDLER_WORDS[i] != LastWord(uc) {
      var x, y := HANDLER_WORDS[i], LastWord(uc);
      if |x| == |y| {
        assert x[0] != y[0] || x[1] != y[1] || x[|x| - 1] != y[|y| - 1] || x[8] != y[8];
      }
    }
  }

  /**
   From topic to event and back: whatever the base and the device id, the topic of a use case reaches
   the event of that use case. Hardware status is among those that reach none, because its topic is
   spelt with a hyphen and its handler's suffix with an underscore.
   */
  lemma TopicReachesItsEvent(base: string, deviceId: string, uc: UseCase)
    ensures EventFor(DEFAULT_HANDLERS, DeviceTopic(base, deviceId, uc)) == EventOf(uc)
  {
    var topic := DeviceTopic(base, deviceId, uc);
    if ServedBy(uc).Some? {
      ServedSuffix(base + "/" + deviceId, uc);
      OnlyHandlerRoutes(topic, ServedBy(uc).value);
    } else {
      WordOfDeviceTopic(base, deviceId, uc);
      UnservedWord(uc);
      NoHandlerRoutes(topic);
    }
  }

  /** The connection's message callback: the router names the event to emit; a payload no object is refused by its handler. */
  method OnMessage(router: MqttMessageRouter, topic: string, payload: Payload) returns (r: Result<string, HandlerError>)
    requires router.handlers == DEFAULT_HANDLERS
    ensures payload == PObject || EventFor(DEFAULT_HANDLERS, topic) == UNKNOWN_EVENT ==>
              r == Ok(EventFor(DEFAULT_HANDLERS, topic))
    ensures payload != PObject && EventFor(DEFAULT_HANDLERS, topic) != UNKNOWN_EVENT ==> r.Err?
    ensures forall base, deviceId, uc :: topic == DeviceTopic(base, deviceId, uc) && payload == PObject ==> r == Ok(EventOf(uc))
  {
    r := router.Route(topic, payload);
    ghost var i := SortedFirstMatchIsChosen(router.handlers, topic);
    ChosenIsFirst(router.handlers, topic);
    forall base, deviceId, uc | topic == DeviceTopic(base, deviceId, uc)
      ensures EventFor(DEFAULT_HANDLERS, topic) == EventOf(uc)
    {
      TopicReachesItsEvent(base, deviceId, uc);
    }
    DefaultEventsKnown();
  }

  lemma DefaultEventsKnown()
    ensures forall j :: 0 <= j < |DEFAULT_HANDLERS| ==> DEFAULT_HANDLERS[j].event != UNKNOWN_EVENT
  {
    forall j | 0 <= j < |DEFAULT_HANDLERS| ensures DEFAULT_HANDLERS[j].event != UNKNOWN_EVENT {
      assert |DEFAULT_HANDLERS[j].event| == |UNKNOWN_EVENT| ==> DEFAULT_HANDLERS[j].event[14] != UNKNOWN_EVENT[14];
    }
  }
}
