/** What every device call answers, told from the tables alone: whether it goes through, and if not, why. */
module DeviceAnswers {
  import opened Text
  import opened Redis
  import opened SessionKeys
  import opened TopicNames
  import opened TopicRegistry
  import opened DeviceFlow
  import opened DeviceCorrelation
  import opened DeviceLifecycle
  import opened DeviceTopics
  import opened DeviceRecords

  predicate HasBroadcast(reg: Registry) {
    exists t :: t in reg && t.useCase == Broadcast && t.deviceId == BROKER_DEVICE && t.isSubscribed
  }

  predicate HasAssigned(sensors: seq<Sensor>, d: string) {
    exists i :: 0 <= i < |sensors| && sensors[i].deviceId == d && sensors[i].provisionState == Assigned && !sensors[i].isDeleted
  }

  predicate IsKnown(sensors: seq<Sensor>, d: string) {
    exists i :: 0 <= i < |sensors| && sensors[i].deviceId == d
  }

  function DiscoveryRefusal(hub: Hub, st: Step): Option<Failure> {
    if !HasBroadcast(hub.registry) then Some(NoBroadcastTopic)
    else if !st.online then Some(BrokerOffline)
    else if st.granted == 0 then Some(SubscriptionRefused) else None
  }

  function CapabilityRefusal(hub: Hub, d: string, f: seq<string>): Option<Failure> {
    if !HasLive(hub.sensors, d) then Some(NotFound)
    else if !Able(hub.sensors, d, f) then Some(FunctionalityRefused) else None
  }

  /** Why an answer's payload is turned away before its handler. */
  function ShapeRefusal(db: Db, env: Envelope): Option<Failure> {
    if !env.wellFormed || env.requestId == "" then Some(PayloadInvalid)
    else if PendingKey(env.requestId) !in db then Some(NoPendingRequest)
    else
      var stored := db[PendingKey(env.requestId)].value;
      if stored.PendingJson? && stored.requestId == Some(env.requestId) && stored.userId == Some(env.userId)
      then None else Some(IdMismatch)
  }

  /** Why the handler refuses the answer to a request still pending. */
  function HandlerRefusal(hub: Hub, st: Step, env: Envelope, b: Body): Option<Failure> {
    match b
    case DiscoveryBody(_, data) =>
      if data.None? then Some(NoSensorData)
      else if !IsKnown(hub.sensors, data.value.deviceId) && !(st.online && st.granted >= 2) then Some(DiscoveryMalformed)
      else None
    case AssignBody(d, f, accepted) =>
      if env.code != NumberCode(201) then Some(InvalidResponse)
      else if !accepted then Some(NotAccepted) else CapabilityRefusal(hub, d, f)
    case AckBody => Some(NotImplemented)
    case UpgradeBody(_, _, _) => None
    case HeartbeatBody(d, _) =>
      if (env.code == NumberCode(210) || env.code == StringCode(Some(210))) && !IsKnown(hub.sensors, d)
      then Some(NotFound) else None
    case RebootBody(_, _) => None
    case TelemetryBody(_, _) => if env.code != NumberCode(212) then Some(InvalidResponse) else None
    case HardwareBody(d, _) =>
      if env.code != NumberCode(211) then Some(InvalidResponse)
      else if !HasLive(hub.sensors, d) then Some(NotFound) else None
  }

  /** Whether an entry point looks at the message at all. */
  predicate Enters(topic: string, env: Envelope, b: Body) {
    match b
    case DiscoveryBody(_, _) => EndsWith(topic, "/discovery") && env.responseId != ""
    case AssignBody(_, _, _) => EndsWith(topic, "/assign") && env.responseId != ""
    case AckBody => EndsWith(topic, "/ack") || env.responseId != ""
    case UpgradeBody(_, _, _) => EndsWith(topic, "/upgrade") || env.responseId != ""
    case HeartbeatBody(_, _) => EndsWith(topic, "/heartbeat") || env.responseId != ""
    case RebootBody(_, _) => EndsWith(topic, "/reboot") || env.responseId != ""
    case TelemetryBody(_, _) => EndsWith(topic, "/telemetry") || env.responseId != ""
    case HardwareBody(_, _) => EndsWith(topic, "/hardware_status") || env.responseId != ""
  }

  /** The first reason to refuse a call, if any. */
  function Refusal(hub: Hub, st: Step): Option<Failure> {
    match st.call
    case AskBroadcast(_, _) => DiscoveryRefusal(hub, st)
    case AskUnicast(_, _) => DiscoveryRefusal(hub, st)
    case AskAssign(_, d, f, codeOk, _) =>
      if !codeOk then Some(InvalidRequest)
      else if !HasTopic(hub.registry, d, AssignDeviceFunction) then Some(NotFound) else CapabilityRefusal(hub, d, f)
    case AskHardware(_, d, _) =>
      if !HasLive(hub.sensors, d) then Some(NotFound) else if !st.online then Some(InvalidRequest) else None
    case AskTelemetry(d, codeOk) =>
      if !codeOk then Some(InvalidRequest)
      else if !HasAssigned(hub.sensors, d) || !HasTopic(hub.registry, d, Telemetry) then Some(NotFound)
      else if !st.online then Some(BrokerOffline) else None
    case SetConfig(d, _) =>
      if !HasLive(hub.sensors, d) || !HasTopic(hub.registry, d, SetSensorConfiguration) then Some(NotFound)
      else if !st.online then Some(BrokerOffline) else None
    case Delete(d) => if HasLive(hub.sensors, d) then None else Some(NotFound)
    case Respond(topic, env, b) =>
      if !Enters(topic, env, b) then None
      else if ShapeRefusal(hub.db, env).Some? then ShapeRefusal(hub.db, env)
      else HandlerRefusal(hub, st, env, b)
    case _ => None
  }

  lemma ChecksTold(sensors: seq<Sensor>, d: string, f: seq<string>)
    requires Sane(sensors)
    ensures CheckTypes(sensors, d, f)
         == if !HasLive(sensors, d) then Some(NotFound)
            else if !Able(sensors, d, f) then Some(FunctionalityRefused) else None
  {
    hide Able, HasLive, Within, Sane;
    ChecksAgree(sensors, d, f);
  }

  lemma FindsTold(sensors: seq<Sensor>, d: string)
    requires Sane(sensors)
    ensures FindAny(sensors, d).Some? <==> IsKnown(sensors, d)
    ensures FindAssigned(sensors, d).Some? <==> HasAssigned(sensors, d)
    ensures FindLive(sensors, d).Some? <==> HasLive(sensors, d)
  {
    ChecksAgree(sensors, d, []);
    FindFinds(sensors, d);
    forall i | 0 <= i < |sensors| ensures sensors[i] in sensors {
    }
  }

  lemma RequestRefusal(ttl: int, base: string, hub: Hub, st: Step)
    requires !st.call.Respond? && Sane(hub.sensors)
    ensures Apply(ttl, base, hub, st).failure == Refusal(hub, st)
  {
    hide StoredTopic, CreatedTopic, ByDeviceAndUseCase, FindLive, FindAssigned, CheckTypes, Update, Within,
      Able, HasLive, HasTopic, Sane, HasAssigned, IsKnown;
    match st.call {
      case AskAssign(_, d, f, _, _) =>
        ChecksTold(hub.sensors, d, f);
        HasTopicIff(hub.registry, d, AssignDeviceFunction);
      case AskHardware(_, d, _) => FindsTold(hub.sensors, d);
      case AskTelemetry(d, _) =>
        FindsTold(hub.sensors, d);
        HasTopicIff(hub.registry, d, Telemetry);
      case SetConfig(d, _) =>
        FindsTold(hub.sensors, d);
        HasTopicIff(hub.registry, d, SetSensorConfiguration);
      case Delete(d) => FindsTold(hub.sensors, d);
      case _ =>
    }
  }

  lemma ShapeTold(db: Db, env: Envelope)
    ensures Validate(db, env) == ShapeRefusal(db, env)
  {
  }

  lemma EntersTold(topic: string, env: Envelope, b: Body)
    ensures Admitted(topic, env, b) <==> Enters(topic, env, b)
  {
    hide EndsWith;
  }

  lemma AnswerRefusal(ttl: int, base: string, hub: Hub, st: Step)
    requires st.call.Respond? && Sane(hub.sensors)
    ensures Apply(ttl, base, hub, st).failure == Refusal(hub, st)
  {
    hide StoredTopic, CreatedAll, CreatedBase, FindLive, FindAny, Update, Validate, CheckTypes, Within, Able, HasLive, Sane,
      IsKnown, Admitted, Enters, ShapeRefusal;
    var Respond(topic, env, b) := st.call;
    ShapeTold(hub.db, env);
    EntersTold(topic, env, b);
    match b {
      case DiscoveryBody(_, Some(data)) => FindsTold(hub.sensors, data.deviceId);
      case AssignBody(d, f, _) => ChecksTold(hub.sensors, d, f);
      case HeartbeatBody(d, _) => FindsTold(hub.sensors, d);
      case HardwareBody(d, _) => FindsTold(hub.sensors, d);
      case _ =>
    }
  }

  /** At every moment of every run a call answers with the first reason to refuse it, or goes through if there is none. */
  lemma AnswersTold(ttl: int, base: string, steps: seq<Step>, hubs: seq<Hub>, n: nat)
    requires Trace(ttl, base, steps, hubs) && n < |steps|
    ensures Apply(ttl, base, hubs[n], steps[n]).failure == Refusal(hubs[n], steps[n])
  {
    hide Apply, Refusal;
    AlwaysSane(ttl, base, steps, hubs, n);
    if steps[n].call.Respond? {
      AnswerRefusal(ttl, base, hubs[n], steps[n]);
    } else {
      RequestRefusal(ttl, base, hubs[n], steps[n]);
    }
  }

  /** The seconds waited in the first `n` steps. */
  function Waited(steps: seq<Step>, n: nat): nat
    requires n <= |steps|
  {
    if n == 0 then 0 else Waited(steps, n - 1) + if steps[n - 1].call.Wait? then steps[n - 1].call.seconds else 0
  }

  /** The clock of a run is what has been waited. */
  lemma {:induction false} ClockTold(ttl: int, base: string, steps: seq<Step>, hubs: seq<Hub>, n: nat)
    requires Trace(ttl, base, steps, hubs) && n <= |steps|
    ensures hubs[n].now == Waited(steps, n)
    decreases n
  {
    hide Apply;
    if n > 0 {
      ClockTold(ttl, base, steps, hubs, n - 1);
      assert Stepped(ttl, base, steps, hubs, n - 1);
      ClockStep(ttl, base, hubs[n - 1], steps[n - 1]);
    }
  }

  lemma ClockStep(ttl: int, base: string, hub: Hub, st: Step)
    ensures Apply(ttl, base, hub, st).hub.now == hub.now + if st.call.Wait? then st.call.seconds else 0
  {
    if st.call.Respond? {
      RespondOnDb(ttl, base, hub, st);
    } else if !st.call.Wait? {
      var value := AskOnDb(ttl, base, hub, st);
    }
  }

  /** What a request that passes its checks caches: its own code, id and user, or nothing but blanks for telemetry. */
  lemma EntryTold(ttl: int, base: string, hub: Hub, st: Step)
    requires Stores(ttl, hub, st).Some?
    ensures
      var key := PendingKey(Stores(ttl, hub, st).value.rid);
      var db := Apply(ttl, base, hub, st).hub.db;
      && key in db && db[key].expiresAt == hub.now + ttl
      && db[key].value == match st.call
                          case AskBroadcast(u, rid) => PendingJson(Some(RequestDiscovery), Some(rid), Some(u))
                          case AskUnicast(u, rid) => PendingJson(Some(RequestDiscovery), Some(rid), Some(u))
                          case AskAssign(u, _, _, _, rid) => PendingJson(Some(RequestAssignDeviceFunction), Some(rid), Some(u))
                          case AskHardware(u, _, rid) => PendingJson(Some(RequestHardwareMetrics), Some(rid), Some(u))
                          case _ => PendingJson(None, None, None)
  {
    hide PendingKey, StoredTopic, CreatedTopic, BroadcastTopic, ByDeviceAndUseCase, CheckTypes, FindLive, FindAssigned, Update;
  }
}
