/**
 Requests to devices and their answers: `DeviceService` caches what it asked under the request id,
 `ListenerService` matches an answer against it, `ResponserService` writes and consumes it.
 */
module DeviceFlow {
  import opened Text
  import opened Redis
  import opened SessionKeys
  import opened TopicNames
  import opened TopicRegistry
  import TopicRuns

  datatype Provision = Discovered | Unassigned | Assigned | Active | Error

  datatype Sensor = Sensor(
    deviceId: string,
    capabilities: seq<string>,
    assignedFunctionality: Option<seq<string>>,
    provisionState: Provision,
    connectionState: string,
    isActuator: bool,
    isDeleted: bool,
    lastReboot: Option<nat>,
    lastUpgrade: Option<nat>,
    configuration: Option<string>)

  datatype Reading = Reading(deviceId: string, value: string)

  datatype Failure =
    | InvalidRequest | NotFound | NoBroadcastTopic | FunctionalityRefused | BrokerOffline | SubscriptionRefused
    | PayloadInvalid | NoPendingRequest | IdMismatch | InvalidResponse | NotAccepted | NoSensorData
    | DiscoveryMalformed | NotImplemented

  // ---------- the sensor table ----------

  function FindAny(sensors: seq<Sensor>, d: string): Option<Sensor> {
    FindOne(sensors, (s: Sensor) => s.deviceId == d)
  }

  function FindLive(sensors: seq<Sensor>, d: string): Option<Sensor> {
    FindOne(sensors, (s: Sensor) => s.deviceId == d && !s.isDeleted)
  }

  function FindAssigned(sensors: seq<Sensor>, d: string): Option<Sensor> {
    FindOne(sensors, (s: Sensor) => s.deviceId == d && s.provisionState == Assigned && !s.isDeleted)
  }

  /** A partial update, as `sensorRepo.update` takes it. */
  datatype Change =
    | ToAssigned(functionality: seq<string>)
    | ToDeleted(isDeleted: bool)
    | ToConnection(connectionState: string)
    | ToReboot(at: nat)
    | ToUpgrade(at: nat)
    | ToConfiguration(configuration: string)

  function Changed(s: Sensor, c: Change): Sensor {
    match c
    case ToAssigned(f) => s.(assignedFunctionality := Some(f), provisionState := Assigned)
    case ToDeleted(b) => s.(isDeleted := b)
    case ToConnection(x) => s.(connectionState := x)
    case ToReboot(at) => s.(lastReboot := Some(at))
    case ToUpgrade(at) => s.(lastUpgrade := Some(at))
    case ToConfiguration(x) => s.(configuration := Some(x))
  }

  /** `update({ deviceId }, change)` reaches every record of the device. */
  function Update(sensors: seq<Sensor>, d: string, c: Change): (r: seq<Sensor>)
    ensures |r| == |sensors|
    ensures forall i :: 0 <= i < |sensors| ==> r[i] == if sensors[i].deviceId == d then Changed(sensors[i], c) else sensors[i]
  {
    if sensors == [] then []
    else [if sensors[0].deviceId == d then Changed(sensors[0], c) else sensors[0]] + Update(sensors[1..], d, c)
  }

  /** What a first discovery stores of the data a device sends about itself. */
  function NewRecord(data: Sensor): Sensor {
    data.(provisionState := Discovered, isActuator := false, isDeleted := false)
  }

  predicate Within(functionality: seq<string>, capabilities: seq<string>) {
    forall f :: f in functionality ==> f in capabilities
  }

  function CheckTypes(sensors: seq<Sensor>, d: string, functionality: seq<string>): Option<Failure> {
    match FindLive(sensors, d)
    case None => Some(NotFound)
    case Some(s) => if Within(functionality, s.capabilities) then None else Some(FunctionalityRefused)
  }

  // ---------- answers ----------

  /** A response code as it arrives: a number, or a string with the integer it converts to if it converts to one. */
  datatype Code = NumberCode(n: int) | StringCode(converted: Option<int>)

  datatype Envelope = Envelope(requestId: string, userId: string, responseId: string, code: Code, wellFormed: bool)

  datatype UpgradeStatus = UpgradeSuccess | UpgradeFailure | UpgradeProcessing | UpgradeScheduled

  datatype Body =
    | DiscoveryBody(isBroadcast: bool, data: Option<Sensor>)
    | AssignBody(deviceId: string, functionality: seq<string>, accepted: bool)
    | AckBody
    | UpgradeBody(deviceId: string, status: UpgradeStatus, timestamp: nat)
    | HeartbeatBody(deviceId: string, connectionState: string)
    | RebootBody(deviceId: string, timestamp: nat)
    | TelemetryBody(deviceId: string, value: string)
    | HardwareBody(deviceId: string, value: string)

  function EventSuffix(b: Body): string {
    match b
    case DiscoveryBody(_, _) => "/discovery"
    case AssignBody(_, _, _) => "/assign"
    case AckBody => "/ack"
    case UpgradeBody(_, _, _) => "/upgrade"
    case HeartbeatBody(_, _) => "/heartbeat"
    case RebootBody(_, _) => "/reboot"
    case TelemetryBody(_, _) => "/telemetry"
    case HardwareBody(_, _) => "/hardware_status"
  }

  /** The first line of each event entry point: discovery and assign need both signs, the others either. */
  predicate Admitted(topic: string, env: Envelope, b: Body) {
    if b.DiscoveryBody? || b.AssignBody? then EndsWith(topic, EventSuffix(b)) && env.responseId != ""
    else EndsWith(topic, EventSuffix(b)) || env.responseId != ""
  }

  /** `transformAndValidate`: the declared shape, a pending request, and the same request and user id. */
  function Validate(db: Db, env: Envelope): Option<Failure> {
    if !env.wellFormed || env.requestId == "" then Some(PayloadInvalid)
    else
      match Lookup(db, PendingKey(env.requestId))
      case None => Some(NoPendingRequest)
      case Some(PendingJson(_, rid, uid)) =>
        if rid == Some(env.requestId) && uid == Some(env.userId) then None else Some(IdMismatch)
      case Some(_) => Some(IdMismatch)
  }

  function CodeOf(b: Body): int {
    match b
    case DiscoveryBody(_, _) => 200
    case AssignBody(_, _, _) => 201
    case UpgradeBody(_, _, _) => 205
    case RebootBody(_, _) => 206
    case HeartbeatBody(_, _) => 210
    case HardwareBody(_, _) => 211
    case TelemetryBody(_, _) => 212
    case AckBody => 0
  }

  /** Whether the handler lets the code pass: discovery does not look, heartbeat compares with `!=`, the rest with `!==`. */
  predicate CodePasses(code: Code, b: Body) {
    || b.DiscoveryBody?
    || code == NumberCode(CodeOf(b))
    || (b.HeartbeatBody? && code == StringCode(Some(210)))
  }

  // ---------- one call on the whole state ----------

  datatype Hub = Hub(
    now: nat, db: Db, sensors: seq<Sensor>, registry: Registry,
    telemetry: seq<Reading>, hardware: seq<Reading>, sent: seq<string>)

  const EMPTY := Hub(0, map[], [], [], [], [], [])

  datatype Call =
    | Wait(seconds: nat)
    | Connect
    | Disconnect
    | AskBroadcast(userId: string, rid: string)
    | AskUnicast(userId: string, rid: string)
    | AskAssign(userId: string, deviceId: string, functionality: seq<string>, codeOk: bool, rid: string)
    | AskHardware(userId: string, deviceId: string, rid: string)
    | AskTelemetry(deviceId: string, codeOk: bool)
    | SetConfig(deviceId: string, configuration: string)
    | Delete(deviceId: string)
    | Respond(topic: string, env: Envelope, body: Body)

  /** A call under the configured broker URL, with the broker reachable or not and granting so many subscriptions. */
  datatype Step = Step(call: Call, url: string, online: bool, granted: nat)

  /** The first subscription of the call succeeds. */
  predicate Subscribes(st: Step) {
    st.online && st.granted > 0
  }

  /** What a call leaves: the state, and the failure it answers with if any. */
  datatype Outcome = Outcome(hub: Hub, failure: Option<Failure>)

  /** `setCache`: the store refuses a time-to-live below one second. */
  function Cached(hub: Hub, ttl: int, userId: string, rid: string, code: RequestCode): Hub {
    if ttl <= 0 then hub
    else hub.(db := Put(hub.db, hub.now, PendingKey(rid), PendingJson(Some(code), Some(rid), Some(userId)), ttl))
  }

  /** What caching the request class stores: no id, no user, under the word a missing id prints. */
  function CachedClass(hub: Hub, ttl: int): Hub {
    if ttl <= 0 then hub
    else hub.(db := Put(hub.db, hub.now, PendingKey("undefined"), PendingJson(None, None, None), ttl))
  }

  function Consumed(hub: Hub, env: Envelope): Hub {
    hub.(db := hub.db - {PendingKey(env.requestId)})
  }

  function Published(hub: Hub, online: bool, topic: string): Hub {
    if online then hub.(sent := hub.sent + [topic]) else hub
  }

  function Offline(online: bool): Option<Failure> {
    if online then None else Some(BrokerOffline)
  }

  /** A discovery request: stores the topic it prints under the broadcast use case, then publishes there. */
  function AskDiscovery(ttl: int, hub: Hub, st: Step, userId: string, rid: string, printed: string): Outcome {
    var (reg, t) := StoredTopic(hub.registry, st.url, BROKER_DEVICE, TopicRuns.DiscoveryOf(printed), Broadcast);
    Outcome(Published(Cached(hub, ttl, userId, rid, RequestDiscovery).(registry := reg), st.online, t.topic),
            if !st.online then Some(BrokerOffline) else if st.granted == 0 then Some(SubscriptionRefused) else None)
  }

  function Ask(ttl: int, base: string, hub: Hub, st: Step): Outcome
    requires st.call.AskBroadcast? || st.call.AskUnicast? || st.call.AskAssign? || st.call.AskHardware? || st.call.AskTelemetry?
  {
    match st.call
    case AskBroadcast(u, rid) =>
      (match BroadcastTopic(hub.registry)
       case None => Outcome(hub, Some(NoBroadcastTopic))
       case Some(t) => AskDiscovery(ttl, hub, st, u, rid, t.topic))
    case AskUnicast(u, rid) =>
      (match BroadcastTopic(hub.registry)
       case None => Outcome(hub, Some(NoBroadcastTopic))
       case Some(_) => AskDiscovery(ttl, hub, st, u, rid, TopicRuns.PRINTED_OBJECT))
    case AskAssign(u, d, f, codeOk, rid) =>
      if !codeOk then Outcome(hub, Some(InvalidRequest))
      else
        (match ByDeviceAndUseCase(hub.registry, d, AssignDeviceFunction)
         case None => Outcome(hub, Some(NotFound))
         case Some(t) =>
           match CheckTypes(hub.sensors, d, f)
           case Some(e) => Outcome(hub, Some(e))
           case None =>
             var cached := Cached(hub, ttl, u, rid, RequestAssignDeviceFunction);
             Outcome(Published(cached.(sensors := Update(hub.sensors, d, ToAssigned(f))), st.online, t.topic), None))
    case AskHardware(u, d, rid) =>
      if FindLive(hub.sensors, d).None? then Outcome(hub, Some(NotFound))
      else
        var (reg, t) := CreatedTopic(hub.registry, base, st.url, d, HardwareStatus);
        Outcome(Published(Cached(hub, ttl, u, rid, RequestHardwareMetrics).(registry := reg), st.online, t.topic),
                if st.online then None else Some(InvalidRequest))
    case AskTelemetry(d, codeOk) =>
      if !codeOk then Outcome(hub, Some(InvalidRequest))
      else if FindAssigned(hub.sensors, d).None? then Outcome(hub, Some(NotFound))
      else
        match ByDeviceAndUseCase(hub.registry, d, Telemetry)
        case None => Outcome(hub, Some(NotFound))
        case Some(t) => Outcome(Published(CachedClass(hub, ttl), st.online, t.topic), Offline(st.online))
  }

  function Discover(base: string, hub: Hub, st: Step, env: Envelope, isBroadcast: bool, data: Sensor): Outcome {
    var d := data.deviceId;
    var stored := FindAny(hub.sensors, d);
    var revived := if stored.Some? && stored.value.isDeleted then Update(hub.sensors, d, ToDeleted(false)) else hub.sensors;
    var found := hub.(sensors := revived, registry := CreatedBase(hub.registry, base, st.url, d).0);
    var saved := if stored.None? then found.(sensors := hub.sensors + [NewRecord(data)]) else found;
    if stored.None? && !Subscribes(st) then Outcome(saved, Some(DiscoveryMalformed))
    else
      var done := if stored.None? then saved.(registry := CreatedAll(found.registry, base, st.url, d).0) else saved;
      if stored.None? && st.granted < 2 then Outcome(done, Some(DiscoveryMalformed))
      else Outcome(if isBroadcast then done else Consumed(done, env), None)
  }

  /** The handler of a validated answer. */
  function Handle(base: string, hub: Hub, st: Step, env: Envelope, b: Body): Outcome {
    match b
    case DiscoveryBody(isBroadcast, data) =>
      if data.None? then Outcome(hub, Some(NoSensorData)) else Discover(base, hub, st, env, isBroadcast, data.value)
    case AckBody => Outcome(hub, Some(NotImplemented))
    case AssignBody(d, f, accepted) =>
      if !CodePasses(env.code, b) then Outcome(hub, Some(InvalidResponse))
      else if !accepted then Outcome(hub, Some(NotAccepted))
      else
        (match CheckTypes(hub.sensors, d, f)
         case Some(e) => Outcome(hub, Some(e))
         case None => Outcome(Consumed(hub.(sensors := Update(hub.sensors, d, ToAssigned(f))), env), None))
    case UpgradeBody(d, status, at) =>
      if !CodePasses(env.code, b) || status != UpgradeSuccess then Outcome(hub, None)
      else Outcome(Consumed(hub.(sensors := Update(hub.sensors, d, ToUpgrade(at))), env), None)
    case HeartbeatBody(d, x) =>
      if !CodePasses(env.code, b) then Outcome(hub, None)
      else if FindAny(hub.sensors, d).None? then Outcome(hub, Some(NotFound))
      else Outcome(Consumed(hub.(sensors := Update(hub.sensors, d, ToConnection(x))), env), None)
    case RebootBody(d, at) =>
      if !CodePasses(env.code, b) then Outcome(hub, None)
      else Outcome(Consumed(hub.(sensors := Update(hub.sensors, d, ToReboot(at))), env), None)
    case TelemetryBody(d, x) =>
      if !CodePasses(env.code, b) then Outcome(hub, Some(InvalidResponse))
      else Outcome(Consumed(hub.(telemetry := hub.telemetry + [Reading(d, x)]), env), None)
    case HardwareBody(d, x) =>
      if !CodePasses(env.code, b) then Outcome(hub, Some(InvalidResponse))
      else if FindLive(hub.sensors, d).None? then Outcome(hub, Some(NotFound))
      else Outcome(Consumed(hub.(hardware := hub.hardware + [Reading(d, x)]), env), None)
  }

  function Receive(base: string, hub: Hub, st: Step): Outcome
    requires st.call.Respond?
  {
    var Respond(topic, env, b) := st.call;
    if !Admitted(topic, env, b) then Outcome(hub, None)
    else
      match Validate(hub.db, env)
      case Some(e) => Outcome(hub, Some(e))
      case None => Handle(base, hub, st, env, b)
  }

  function Configure(hub: Hub, online: bool, d: string, x: string): Outcome {
    if FindLive(hub.sensors, d).None? then Outcome(hub, Some(NotFound))
    else
      match ByDeviceAndUseCase(hub.registry, d, SetSensorConfiguration)
      case None => Outcome(hub, Some(NotFound))
      case Some(t) =>
        if !online then Outcome(hub, Some(BrokerOffline))
        else Outcome(Published(hub.(sensors := Update(hub.sensors, d, ToConfiguration(x))), true, t.topic), None)
  }

  function Remove(hub: Hub, d: string): Outcome {
    if FindLive(hub.sensors, d).None? then Outcome(hub, Some(NotFound))
    else Outcome(hub.(sensors := Update(hub.sensors, d, ToDeleted(true))), None)
  }

  function Apply(ttl: int, base: string, hub: Hub, st: Step): Outcome {
    match st.call
    case Wait(d) => Outcome(hub.(now := hub.now + d, db := Surviving(hub.db, hub.now + d)), None)
    case Connect => Outcome(hub.(registry := CreatedTopic(hub.registry, base, st.url, BROKER_DEVICE, Broadcast).0), None)
    case Disconnect => Outcome(hub.(registry := Unsubscribe(hub.registry)), None)
    case SetConfig(d, x) => Configure(hub, st.online, d, x)
    case Delete(d) => Remove(hub, d)
    case Respond(_, _, _) => Receive(base, hub, st)
    case _ => Ask(ttl, base, hub, st)
  }
}
