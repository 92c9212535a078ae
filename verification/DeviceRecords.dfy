/**
 The sensor records told from the run: each field of a stored record is the one its storing discovery brought, or
 what the latest accepted call of one kind has written to it since, and nothing else ever touches it.
 */
module DeviceRecords {
  import opened Text
  import opened TopicNames
  import opened TopicRegistry
  import opened DeviceFlow
  import opened DeviceCorrelation
  import opened DeviceLifecycle
  import opened DeviceTopics

  // ---------- the calls that write each field ----------

  predicate HasLive(sensors: seq<Sensor>, d: string) {
    exists i :: 0 <= i < |sensors| && sensors[i].deviceId == d && !sensors[i].isDeleted
  }

  /** A live record of the device can do all that is asked. */
  predicate Able(sensors: seq<Sensor>, d: string, functionality: seq<string>) {
    exists i :: 0 <= i < |sensors| && sensors[i].deviceId == d && !sensors[i].isDeleted
      && forall f :: f in functionality ==> f in sensors[i].capabilities
  }

  /** An answer that reaches its handler by its topic or its response id. */
  predicate Reaches(hub: Hub, topic: string, env: Envelope, suffix: string) {
    (EndsWith(topic, suffix) || env.responseId != "") && Validate(hub.db, env).None?
  }

  /** One that needs both. */
  predicate ReachesStrictly(hub: Hub, topic: string, env: Envelope, suffix: string) {
    EndsWith(topic, suffix) && env.responseId != "" && Validate(hub.db, env).None?
  }

  /** The functionality the step assigns to the device: a request that passes, or an accepted answer. */
  function AssignmentOf(hub: Hub, st: Step, d: string): Option<Option<seq<string>>> {
    match st.call
    case AskAssign(_, x, f, codeOk, _) =>
      if x == d && codeOk && HasTopic(hub.registry, d, AssignDeviceFunction) && Able(hub.sensors, d, f)
      then Some(Some(f)) else None
    case Respond(topic, env, AssignBody(x, f, accepted)) =>
      if && x == d && ReachesStrictly(hub, topic, env, "/assign") && env.code == NumberCode(201) && accepted
         && Able(hub.sensors, d, f)
      then Some(Some(f)) else None
    case _ => None
  }

  function ConfigurationOf(hub: Hub, st: Step, d: string): Option<Option<string>> {
    match st.call
    case SetConfig(x, c) =>
      if x == d && st.online && HasLive(hub.sensors, d) && HasTopic(hub.registry, d, SetSensorConfiguration)
      then Some(Some(c)) else None
    case _ => None
  }

  function ConnectionOf(hub: Hub, st: Step, d: string): Option<string> {
    match st.call
    case Respond(topic, env, HeartbeatBody(x, state)) =>
      if x == d && Reaches(hub, topic, env, "/heartbeat") && (env.code == NumberCode(210) || env.code == StringCode(Some(210)))
      then Some(state) else None
    case _ => None
  }

  function RebootOf(hub: Hub, st: Step, d: string): Option<Option<nat>> {
    match st.call
    case Respond(topic, env, RebootBody(x, at)) =>
      if x == d && Reaches(hub, topic, env, "/reboot") && env.code == NumberCode(206) then Some(Some(at)) else None
    case _ => None
  }

  function UpgradeOf(hub: Hub, st: Step, d: string): Option<Option<nat>> {
    match st.call
    case Respond(topic, env, UpgradeBody(x, status, at)) =>
      if x == d && Reaches(hub, topic, env, "/upgrade") && env.code == NumberCode(205) && status == UpgradeSuccess
      then Some(Some(at)) else None
    case _ => None
  }

  function DeletionOf(hub: Hub, st: Step, d: string): Option<bool> {
    match st.call
    case Delete(x) => if x == d then Some(true) else None
    case Respond(topic, env, DiscoveryBody(_, Some(data))) =>
      if data.deviceId == d && ReachesStrictly(hub, topic, env, "/discovery") then Some(false) else None
    case _ => None
  }

  function Or<T>(written: Option<T>, kept: T): T {
    match written case Some(v) => v case None => kept
  }

  /** A stored record after a step: every field by its own kind of call, for its own device. */
  function Written(s: Sensor, hub: Hub, st: Step): Sensor {
    var d := s.deviceId;
    Sensor(
      s.deviceId,
      s.capabilities,
      Or(AssignmentOf(hub, st, d), s.assignedFunctionality),
      if AssignmentOf(hub, st, d).Some? then Assigned else s.provisionState,
      Or(ConnectionOf(hub, st, d), s.connectionState),
      s.isActuator,
      Or(DeletionOf(hub, st, d), s.isDeleted),
      Or(RebootOf(hub, st, d), s.lastReboot),
      Or(UpgradeOf(hub, st, d), s.lastUpgrade),
      Or(ConfigurationOf(hub, st, d), s.configuration))
  }

  /** The record a discovery of an unknown device adds. */
  function Added(data: Sensor): Sensor {
    Sensor(data.deviceId, data.capabilities, data.assignedFunctionality, Discovered, data.connectionState,
           false, false, data.lastReboot, data.lastUpgrade, data.configuration)
  }

  // ---------- one step ----------

  lemma ChecksAgree(sensors: seq<Sensor>, d: string, f: seq<string>)
    requires Sane(sensors)
    ensures CheckTypes(sensors, d, f).None? <==> Able(sensors, d, f)
    ensures FindLive(sensors, d).Some? <==> HasLive(sensors, d)
  {
    hide Within, SensorOk;
    FindFinds(sensors, d);
    if FindLive(sensors, d).Some? {
      var s := FindLive(sensors, d).value;
      var k :| 0 <= k < |sensors| && sensors[k] == s;
      WithinIs(f, s.capabilities);
    }
  }

  lemma WithinIs(f: seq<string>, capabilities: seq<string>)
    ensures Within(f, capabilities) <==> forall g :: g in f ==> g in capabilities
  {
  }

  lemma KnownIs(sensors: seq<Sensor>, x: nat)
    requires x < |sensors|
    ensures FindAny(sensors, sensors[x].deviceId).Some?
  {
    FindFinds(sensors, sensors[x].deviceId);
  }

  lemma RequestWrites(ttl: int, base: string, hub: Hub, st: Step, x: nat)
    requires !st.call.Respond? && Sane(hub.sensors) && x < |hub.sensors|
    ensures
      var after := Apply(ttl, base, hub, st).hub.sensors;
      |after| == |hub.sensors| && after[x] == Written(hub.sensors[x], hub, st)
  {
    hide StoredTopic, CreatedTopic, BroadcastTopic, ByDeviceAndUseCase, FindLive, FindAssigned, CheckTypes, Update, Within,
      Able, HasLive, HasTopic, Sane;
    match st.call {
      case AskAssign(_, d, f, _, _) =>
        ChecksAgree(hub.sensors, d, f);
        HasTopicIff(hub.registry, d, AssignDeviceFunction);
      case SetConfig(d, _) =>
        ChecksAgree(hub.sensors, d, []);
        HasTopicIff(hub.registry, d, SetSensorConfiguration);
      case Delete(d) => DeleteWrites(hub.sensors, d, x);
      case _ =>
    }
  }

  lemma DeleteWrites(sensors: seq<Sensor>, d: string, x: nat)
    requires Sane(sensors) && x < |sensors|
    ensures FindLive(sensors, d).None? && sensors[x].deviceId == d ==> sensors[x].isDeleted
  {
    FindFinds(sensors, d);
  }

  lemma ReachesIff(hub: Hub, topic: string, env: Envelope, b: Body)
    ensures Admitted(topic, env, b) && Validate(hub.db, env).None?
       <==> match b
            case DiscoveryBody(_, _) => ReachesStrictly(hub, topic, env, "/discovery")
            case AssignBody(_, _, _) => ReachesStrictly(hub, topic, env, "/assign")
            case AckBody => Reaches(hub, topic, env, "/ack")
            case UpgradeBody(_, _, _) => Reaches(hub, topic, env, "/upgrade")
            case HeartbeatBody(_, _) => Reaches(hub, topic, env, "/heartbeat")
            case RebootBody(_, _) => Reaches(hub, topic, env, "/reboot")
            case TelemetryBody(_, _) => Reaches(hub, topic, env, "/telemetry")
            case HardwareBody(_, _) => Reaches(hub, topic, env, "/hardware_status")
  {
    hide Validate, EndsWith;
  }

  lemma AnswerWrites(ttl: int, base: string, hub: Hub, st: Step, x: nat)
    requires st.call.Respond? && Sane(hub.sensors) && x < |hub.sensors|
    ensures
      var after := Apply(ttl, base, hub, st).hub.sensors;
      x < |after| && after[x] == Written(hub.sensors[x], hub, st)
  {
    hide Validate, Sane, Admitted, Written, Handle;
    if Admitted(st.call.topic, st.call.env, st.call.body) && Validate(hub.db, st.call.env).None? {
      HandlerWrites(base, hub, st, x);
    } else {
      UnreachedWrites(hub, st, hub.sensors[x]);
    }
  }

  lemma UnreachedWrites(hub: Hub, st: Step, s: Sensor)
    requires st.call.Respond? && !(Admitted(st.call.topic, st.call.env, st.call.body) && Validate(hub.db, st.call.env).None?)
    ensures Written(s, hub, st) == s
  {
    hide Validate, Admitted, Reaches, ReachesStrictly;
    ReachesIff(hub, st.call.topic, st.call.env, st.call.body);
  }

  /** What the handler of an answer that reaches it writes. */
  lemma HandlerWrites(base: string, hub: Hub, st: Step, x: nat)
    requires st.call.Respond? && Sane(hub.sensors) && x < |hub.sensors|
    requires Admitted(st.call.topic, st.call.env, st.call.body) && Validate(hub.db, st.call.env).None?
    ensures
      var after := Handle(base, hub, st, st.call.env, st.call.body).hub.sensors;
      x < |after| && after[x] == Written(hub.sensors[x], hub, st)
  {
    hide Handle, Written, Sane, Admitted, Validate;
    if st.call.body.DiscoveryBody? {
      DiscoveryWrites(base, hub, st, x);
    } else {
      ReportWrites(base, hub, st, x);
    }
  }

  lemma DiscoveryWrites(base: string, hub: Hub, st: Step, x: nat)
    requires st.call.Respond? && st.call.body.DiscoveryBody?
    requires Sane(hub.sensors) && x < |hub.sensors|
    requires Admitted(st.call.topic, st.call.env, st.call.body) && Validate(hub.db, st.call.env).None?
    ensures
      var after := Handle(base, hub, st, st.call.env, st.call.body).hub.sensors;
      x < |after| && after[x] == Written(hub.sensors[x], hub, st)
  {
    hide StoredTopic, CreatedAll, CreatedBase, FindLive, FindAny, Update, Validate, CheckTypes, Within, Able, HasLive, Sane,
      Admitted, Reaches, ReachesStrictly;
    ReachesIff(hub, st.call.topic, st.call.env, st.call.body);
    if st.call.body.data.Some? {
      Revives(hub.sensors, st.call.body.data.value.deviceId, x);
    }
  }

  lemma ReportWrites(base: string, hub: Hub, st: Step, x: nat)
    requires st.call.Respond? && !st.call.body.DiscoveryBody?
    requires Sane(hub.sensors) && x < |hub.sensors|
    requires Admitted(st.call.topic, st.call.env, st.call.body) && Validate(hub.db, st.call.env).None?
    ensures
      var after := Handle(base, hub, st, st.call.env, st.call.body).hub.sensors;
      x < |after| && after[x] == Written(hub.sensors[x], hub, st)
  {
    hide StoredTopic, CreatedAll, CreatedBase, FindLive, FindAny, Update, Validate, CheckTypes, Within, Able, HasLive, Sane,
      Admitted, Reaches, ReachesStrictly, Discover;
    ReachesIff(hub, st.call.topic, st.call.env, st.call.body);
    KnownIs(hub.sensors, x);
    if st.call.body.AssignBody? {
      ChecksAgree(hub.sensors, st.call.body.deviceId, st.call.body.functionality);
    }
  }

  lemma Revives(sensors: seq<Sensor>, d: string, x: nat)
    requires Sane(sensors) && x < |sensors|
    ensures sensors[x].deviceId == d ==> FindAny(sensors, d) == Some(sensors[x])
  {
    FindFinds(sensors, d);
  }

  /** Every step writes to every record what its own calls say, by field, and to no other field. */
  lemma StepWrites(ttl: int, base: string, hub: Hub, st: Step, x: nat)
    requires Sane(hub.sensors) && x < |hub.sensors|
    ensures
      var after := Apply(ttl, base, hub, st).hub.sensors;
      x < |after| && after[x] == Written(hub.sensors[x], hub, st)
  {
    hide Apply, Written, Sane;
    if st.call.Respond? {
      AnswerWrites(ttl, base, hub, st, x);
    } else {
      RequestWrites(ttl, base, hub, st, x);
    }
  }

  /** Only a first discovery adds a record, one, with the data the device sent about itself. */
  lemma StepAdds(ttl: int, base: string, hub: Hub, st: Step)
    ensures
      var after := Apply(ttl, base, hub, st).hub.sensors;
      match AcceptedDiscovery(hub, st)
      case Some(d) =>
        if FindAny(hub.sensors, d).None?
        then after == hub.sensors + [Added(st.call.body.data.value)] && st.call.body.data.value.deviceId == d
        else |after| == |hub.sensors|
      case None => |after| == |hub.sensors|
  {
    if st.call.Respond? {
      AnswerAdds(ttl, base, hub, st);
    } else {
      RequestAdds(ttl, base, hub, st);
    }
  }

  lemma RequestAdds(ttl: int, base: string, hub: Hub, st: Step)
    requires !st.call.Respond?
    ensures |Apply(ttl, base, hub, st).hub.sensors| == |hub.sensors| && AcceptedDiscovery(hub, st).None?
  {
    hide StoredTopic, CreatedTopic, BroadcastTopic, ByDeviceAndUseCase, FindLive, FindAssigned, CheckTypes, Update, Within;
  }

  lemma AnswerAdds(ttl: int, base: string, hub: Hub, st: Step)
    requires st.call.Respond?
    ensures
      var after := Apply(ttl, base, hub, st).hub.sensors;
      match AcceptedDiscovery(hub, st)
      case Some(d) =>
        if FindAny(hub.sensors, d).None?
        then after == hub.sensors + [Added(st.call.body.data.value)] && st.call.body.data.value.deviceId == d
        else |after| == |hub.sensors|
      case None => |after| == |hub.sensors|
  {
    hide StoredTopic, CreatedAll, CreatedBase, FindLive, FindAny, Update, Validate, CheckTypes, Within, EndsWith;
  }

  // ---------- over runs ----------

  /** The value some step from `from` on has written last before moment `n`, or else `initial`. */
  function Latest<T>(steps: seq<Step>, hubs: seq<Hub>, from: nat, n: nat, written: (Hub, Step) -> Option<T>, initial: T): T
    requires from <= n <= |steps| < |hubs|
  {
    if n == from then initial
    else Or(written(hubs[n - 1], steps[n - 1]), Latest(steps, hubs, from, n - 1, written, initial))
  }

  /** What `Latest` says: nothing was written, or the value of one step after which nothing was written. */
  lemma {:induction false} LatestIs<T>(steps: seq<Step>, hubs: seq<Hub>, from: nat, n: nat,
                                       written: (Hub, Step) -> Option<T>, initial: T)
    requires from <= n <= |steps| < |hubs|
    ensures
      var v := Latest(steps, hubs, from, n, written, initial);
      || (v == initial && forall i :: from <= i < n ==> written(hubs[i], steps[i]).None?)
      || exists j :: from <= j < n && written(hubs[j], steps[j]) == Some(v)
                     && forall i :: j < i < n ==> written(hubs[i], steps[i]).None?
    decreases n
  {
    if n > from {
      LatestIs(steps, hubs, from, n - 1, written, initial);
      assert written(hubs[n - 1], steps[n - 1]).Some? ==>
        written(hubs[n - 1], steps[n - 1]) == Some(Latest(steps, hubs, from, n, written, initial));
    }
  }

  /** The record of the device that step `k` has stored, at moment `n`: field by field, by the latest call for it. */
  function Told(steps: seq<Step>, hubs: seq<Hub>, k: nat, n: nat, data: Sensor): Sensor
    requires k < n <= |steps| < |hubs|
  {
    var d := data.deviceId;
    Sensor(
      d,
      data.capabilities,
      Latest(steps, hubs, k + 1, n, (h: Hub, st: Step) => AssignmentOf(h, st, d), data.assignedFunctionality),
      if exists i :: k < i < n && AssignmentOf(hubs[i], steps[i], d).Some? then Assigned else Discovered,
      Latest(steps, hubs, k + 1, n, (h: Hub, st: Step) => ConnectionOf(h, st, d), data.connectionState),
      false,
      Latest(steps, hubs, k + 1, n, (h: Hub, st: Step) => DeletionOf(h, st, d), false),
      Latest(steps, hubs, k + 1, n, (h: Hub, st: Step) => RebootOf(h, st, d), data.lastReboot),
      Latest(steps, hubs, k + 1, n, (h: Hub, st: Step) => UpgradeOf(h, st, d), data.lastUpgrade),
      Latest(steps, hubs, k + 1, n, (h: Hub, st: Step) => ConfigurationOf(h, st, d), data.configuration))
  }

  lemma ToldAtFirst(steps: seq<Step>, hubs: seq<Hub>, k: nat, data: Sensor)
    requires k < |steps| < |hubs|
    ensures Told(steps, hubs, k, k + 1, data) == Added(data)
  {
  }

  lemma ToldStep(steps: seq<Step>, hubs: seq<Hub>, k: nat, n: nat, data: Sensor)
    requires k + 1 < n <= |steps| < |hubs|
    ensures Told(steps, hubs, k, n, data) == Written(Told(steps, hubs, k, n - 1, data), hubs[n - 1], steps[n - 1])
  {
    hide AssignmentOf, ConnectionOf, DeletionOf, RebootOf, UpgradeOf, ConfigurationOf;
  }

  /**
   In every run the record of each stored device is told by the run: functionality and provision state by the latest
   assignment that passed, configuration by the latest one set, connection and dates by the latest accepted reports,
   deletion by the latest deletion or discovery, and whatever none of them has written as it was first stored.
   */
  lemma {:induction false} RecordTold(ttl: int, base: string, steps: seq<Step>, hubs: seq<Hub>, k: nat, n: nat, d: string)
    requires Trace(ttl, base, steps, hubs) && k < n <= |steps| && StoredAt(steps, hubs, k, d)
    ensures
      var x := |hubs[k].sensors|;
      x < |hubs[n].sensors| && hubs[n].sensors[x] == Told(steps, hubs, k, n, steps[k].call.body.data.value)
    decreases n
  {
    hide Apply, Told, Written, FindAny, AcceptedDiscovery, Added;
    var data := DiscoveredData(steps, hubs, k, d);
    assert Stepped(ttl, base, steps, hubs, n - 1);
    if n == k + 1 {
      StepAdds(ttl, base, hubs[k], steps[k]);
      ToldAtFirst(steps, hubs, k, data);
    } else {
      RecordTold(ttl, base, steps, hubs, k, n - 1, d);
      AlwaysSane(ttl, base, steps, hubs, n - 1);
      StepWrites(ttl, base, hubs[n - 1], steps[n - 1], |hubs[k].sensors|);
      ToldStep(steps, hubs, k, n, data);
    }
  }

  lemma DiscoveredData(steps: seq<Step>, hubs: seq<Hub>, k: nat, d: string) returns (data: Sensor)
    requires k < |steps| < |hubs| && DiscoveredAt(steps, hubs, k, d)
    ensures steps[k].call.Respond? && steps[k].call.body.DiscoveryBody? && steps[k].call.body.data == Some(data)
    ensures data.deviceId == d
  {
    data := steps[k].call.body.data.value;
  }

  /** And there are no other records: each is that of a device some step has stored, in the order of those steps. */
  lemma {:induction false} TableTold(ttl: int, base: string, steps: seq<Step>, hubs: seq<Hub>, n: nat, x: nat)
    returns (k: nat)
    requires Trace(ttl, base, steps, hubs) && n <= |steps| && x < |hubs[n].sensors|
    ensures k < n && x == |hubs[k].sensors| && StoredAt(steps, hubs, k, hubs[n].sensors[x].deviceId)
    ensures hubs[n].sensors[x] == Told(steps, hubs, k, n, steps[k].call.body.data.value)
    decreases n
  {
    hide Apply, Told, FindAny, AcceptedDiscovery, Added;
    k := StoringStep(ttl, base, steps, hubs, n, x);
    var d := AcceptedDiscovery(hubs[k], steps[k]).value;
    assert StoredAt(steps, hubs, k, d);
    RecordTold(ttl, base, steps, hubs, k, n, d);
    var data := DiscoveredData(steps, hubs, k, d);
    ToldDevice(steps, hubs, k, n, data);
  }

  lemma ToldDevice(steps: seq<Step>, hubs: seq<Hub>, k: nat, n: nat, data: Sensor)
    requires k < n <= |steps| < |hubs|
    ensures Told(steps, hubs, k, n, data).deviceId == data.deviceId
  {
  }

  lemma {:induction false} StoringStep(ttl: int, base: string, steps: seq<Step>, hubs: seq<Hub>, n: nat, x: nat)
    returns (k: nat)
    requires Trace(ttl, base, steps, hubs) && n <= |steps| && x < |hubs[n].sensors|
    ensures k < n && x == |hubs[k].sensors| && AcceptedDiscovery(hubs[k], steps[k]).Some?
    ensures FindAny(hubs[k].sensors, AcceptedDiscovery(hubs[k], steps[k]).value).None?
    decreases n
  {
    hide Apply, FindAny, AcceptedDiscovery, Added;
    assert n > 0;
    assert Stepped(ttl, base, steps, hubs, n - 1);
    StepAdds(ttl, base, hubs[n - 1], steps[n - 1]);
    if x < |hubs[n - 1].sensors| {
      k := StoringStep(ttl, base, steps, hubs, n - 1, x);
    } else {
      k := n - 1;
    }
  }

  /** So whatever is assigned was assigned by the latest assignment of its device that passed. */
  lemma AssignedByLatest(ttl: int, base: string, steps: seq<Step>, hubs: seq<Hub>, n: nat, x: nat) returns (j: nat)
    requires Trace(ttl, base, steps, hubs) && n <= |steps| && x < |hubs[n].sensors|
    requires hubs[n].sensors[x].provisionState == Assigned
    ensures j < n
    ensures AssignmentOf(hubs[j], steps[j], hubs[n].sensors[x].deviceId) == Some(hubs[n].sensors[x].assignedFunctionality)
    ensures forall i :: j < i < n ==> AssignmentOf(hubs[i], steps[i], hubs[n].sensors[x].deviceId).None?
  {
    hide Apply, AssignmentOf, ConnectionOf, DeletionOf, RebootOf, UpgradeOf, ConfigurationOf, AcceptedDiscovery, Latest;
    var k := TableTold(ttl, base, steps, hubs, n, x);
    var data := DiscoveredData(steps, hubs, k, hubs[n].sensors[x].deviceId);
    var d := data.deviceId;
    LatestIs(steps, hubs, k + 1, n, (h: Hub, st: Step) => AssignmentOf(h, st, d), data.assignedFunctionality);
    var i :| k < i < n && AssignmentOf(hubs[i], steps[i], d).Some?;
    j :| k + 1 <= j < n && AssignmentOf(hubs[j], steps[j], d) == Some(hubs[n].sensors[x].assignedFunctionality)
      && forall i :: j < i < n ==> AssignmentOf(hubs[i], steps[i], d).None?;
  }
}
