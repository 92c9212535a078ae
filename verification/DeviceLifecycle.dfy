/** What every run of device requests and answers keeps of the sensor records. */
module DeviceLifecycle {
  import opened Text
  import opened SessionKeys
  import opened TopicNames
  import opened TopicRegistry
  import opened DeviceFlow
  import opened DeviceCorrelation

  /** What a step does to the sensor table. */
  datatype Edit = Nothing | Updates(deviceId: string, change: Change) | Adds(record: Sensor)

  function Edited(sensors: seq<Sensor>, e: Edit): seq<Sensor> {
    match e
    case Nothing => sensors
    case Updates(d, c) => Update(sensors, d, c)
    case Adds(r) => sensors + [r]
  }

  /** The device whose discovery answer the step accepts. */
  function AcceptedDiscovery(hub: Hub, st: Step): Option<string> {
    match st.call
    case Respond(topic, env, DiscoveryBody(_, Some(data))) =>
      if Admitted(topic, env, st.call.body) && Validate(hub.db, env).None? then Some(data.deviceId) else None
    case _ => None
  }

  /** Every step edits the table once, and only as its own checks allow. */
  lemma EditOfStep(ttl: int, base: string, hub: Hub, st: Step) returns (e: Edit)
    ensures Apply(ttl, base, hub, st).hub.sensors == Edited(hub.sensors, e)
    ensures e.Updates? && e.change.ToAssigned? ==> CheckTypes(hub.sensors, e.deviceId, e.change.functionality).None?
    ensures e.Adds? ==> FindAny(hub.sensors, e.record.deviceId).None? && e.record.provisionState == Discovered
    ensures
      match AcceptedDiscovery(hub, st)
      case Some(d) =>
        (match FindAny(hub.sensors, d)
         case None => e.Adds? && e.record == NewRecord(st.call.body.data.value) && e.record.deviceId == d
         case Some(s) => e == if s.isDeleted then Updates(d, ToDeleted(false)) else Nothing)
      case None =>
        if st.call.Delete? && FindLive(hub.sensors, st.call.deviceId).Some? then e == Updates(st.call.deviceId, ToDeleted(true))
        else !e.Adds? && (e.Updates? ==> !e.change.ToDeleted?)
  {
    if st.call.Respond? {
      e := EditOfAnswer(ttl, base, hub, st);
    } else {
      e := EditOfRequest(ttl, base, hub, st);
    }
  }

  lemma EditOfRequest(ttl: int, base: string, hub: Hub, st: Step) returns (e: Edit)
    requires !st.call.Respond?
    ensures Apply(ttl, base, hub, st).hub.sensors == Edited(hub.sensors, e) && !e.Adds?
    ensures e.Updates? && e.change.ToAssigned? ==> CheckTypes(hub.sensors, e.deviceId, e.change.functionality).None?
    ensures
      if st.call.Delete? && FindLive(hub.sensors, st.call.deviceId).Some? then e == Updates(st.call.deviceId, ToDeleted(true))
      else e.Updates? ==> !e.change.ToDeleted?
  {
    hide PendingKey, StoredTopic, CreatedTopic, BroadcastTopic, ByDeviceAndUseCase, CheckTypes, FindLive,
      FindAssigned, Update;
    match st.call {
      case AskAssign(_, d, f, codeOk, _) =>
        var passes :=
          codeOk && ByDeviceAndUseCase(hub.registry, d, AssignDeviceFunction).Some? && CheckTypes(hub.sensors, d, f).None?;
        e := if passes then Updates(d, ToAssigned(f)) else Nothing;
      case SetConfig(d, x) =>
        var passes :=
          st.online && FindLive(hub.sensors, d).Some? && ByDeviceAndUseCase(hub.registry, d, SetSensorConfiguration).Some?;
        e := if passes then Updates(d, ToConfiguration(x)) else Nothing;
      case Delete(d) => e := if FindLive(hub.sensors, d).Some? then Updates(d, ToDeleted(true)) else Nothing;
      case _ => e := Nothing;
    }
  }

  lemma EditOfAnswer(ttl: int, base: string, hub: Hub, st: Step) returns (e: Edit)
    requires st.call.Respond?
    ensures Apply(ttl, base, hub, st).hub.sensors == Edited(hub.sensors, e)
    ensures e.Updates? && e.change.ToAssigned? ==> CheckTypes(hub.sensors, e.deviceId, e.change.functionality).None?
    ensures
      match AcceptedDiscovery(hub, st)
      case Some(d) =>
        (match FindAny(hub.sensors, d)
         case None => e.Adds? && e.record == NewRecord(st.call.body.data.value) && e.record.deviceId == d
         case Some(s) => e == if s.isDeleted then Updates(d, ToDeleted(false)) else Nothing)
      case None => !e.Adds? && (e.Updates? ==> !e.change.ToDeleted?)
  {
    hide PendingKey, StoredTopic, CreatedAll, CreatedBase, CheckTypes, FindLive, FindAny, Update, Admitted, Validate;
    var Respond(topic, env, b) := st.call;
    e := Nothing;
    if Admitted(topic, env, b) && Validate(hub.db, env).None? {
      match b {
        case DiscoveryBody(_, Some(data)) =>
          e := match FindAny(hub.sensors, data.deviceId)
            case None => Adds(NewRecord(data))
            case Some(s) => if s.isDeleted then Updates(data.deviceId, ToDeleted(false)) else Nothing;
        case AssignBody(d, f, accepted) =>
          var passes := CodePasses(env.code, b) && accepted && CheckTypes(hub.sensors, d, f).None?;
          e := if passes then Updates(d, ToAssigned(f)) else Nothing;
        case UpgradeBody(d, status, at) =>
          e := if CodePasses(env.code, b) && status == UpgradeSuccess then Updates(d, ToUpgrade(at)) else Nothing;
        case HeartbeatBody(d, x) =>
          e := if CodePasses(env.code, b) && FindAny(hub.sensors, d).Some? then Updates(d, ToConnection(x)) else Nothing;
        case RebootBody(d, at) => e := if CodePasses(env.code, b) then Updates(d, ToReboot(at)) else Nothing;
        case _ =>
      }
    }
  }

  // ---------- the records of a run ----------

  /** An assigned record is assigned within its capabilities. */
  predicate SensorOk(s: Sensor) {
    && s.provisionState in {Discovered, Assigned}
    && (s.provisionState == Assigned ==> s.assignedFunctionality.Some? && Within(s.assignedFunctionality.value, s.capabilities))
  }

  ghost predicate Sane(sensors: seq<Sensor>) {
    && (forall i, j :: 0 <= i < j < |sensors| ==> sensors[i].deviceId != sensors[j].deviceId)
    && (forall i :: 0 <= i < |sensors| ==> SensorOk(sensors[i]))
  }

  /** The same device later: its data fixed, its provision state at most moved from discovered to assigned. */
  predicate SameDevice(a: Sensor, b: Sensor) {
    && a.deviceId == b.deviceId && a.capabilities == b.capabilities && a.isActuator == b.isActuator
    && (a.provisionState == b.provisionState || (a.provisionState == Discovered && b.provisionState == Assigned))
  }

  ghost predicate Evolves(before: seq<Sensor>, after: seq<Sensor>) {
    |before| <= |after| && forall i :: 0 <= i < |before| ==> SameDevice(before[i], after[i])
  }

  lemma FindFinds(sensors: seq<Sensor>, d: string)
    ensures FindAny(sensors, d).Some? ==> FindAny(sensors, d).value in sensors && FindAny(sensors, d).value.deviceId == d
    ensures FindAny(sensors, d).Some? <==> exists i :: 0 <= i < |sensors| && sensors[i].deviceId == d
    ensures FindLive(sensors, d).Some? <==> exists i :: 0 <= i < |sensors| && sensors[i].deviceId == d && !sensors[i].isDeleted
  {
    forall i | 0 <= i < |sensors| ensures sensors[i] in sensors {
    }
  }

  lemma EditKeepsSane(sensors: seq<Sensor>, e: Edit)
    requires Sane(sensors)
    requires e.Updates? && e.change.ToAssigned? ==> CheckTypes(sensors, e.deviceId, e.change.functionality).None?
    requires e.Adds? ==> FindAny(sensors, e.record.deviceId).None? && e.record.provisionState == Discovered
    ensures Sane(Edited(sensors, e)) && Evolves(sensors, Edited(sensors, e))
  {
    hide FindAny, FindLive, Update, CheckTypes, Within;
    match e {
      case Nothing =>
      case Adds(r) => FindFinds(sensors, r.deviceId);
      case Updates(d, c) =>
        if c.ToAssigned? {
          CheckedWithin(sensors, d, c.functionality);
        }
        forall i | 0 <= i < |sensors|
          ensures SensorOk(Update(sensors, d, c)[i]) && SameDevice(sensors[i], Update(sensors, d, c)[i])
        {
          assert SensorOk(sensors[i]);
        }
    }
  }

  /** With one record per device, what the check looked at is what the update reaches. */
  lemma CheckedWithin(sensors: seq<Sensor>, d: string, functionality: seq<string>)
    requires Sane(sensors) && CheckTypes(sensors, d, functionality).None?
    ensures forall i :: 0 <= i < |sensors| && sensors[i].deviceId == d ==> Within(functionality, sensors[i].capabilities)
  {
    var s := FindLive(sensors, d).value;
    var k :| 0 <= k < |sensors| && sensors[k] == s;
  }

  lemma {:induction false} AlwaysSane(ttl: int, base: string, steps: seq<Step>, hubs: seq<Hub>, n: int)
    requires Trace(ttl, base, steps, hubs) && 0 <= n <= |steps|
    ensures Sane(hubs[n].sensors)
    decreases n
  {
    hide Apply, SensorOk;
    if n > 0 {
      AlwaysSane(ttl, base, steps, hubs, n - 1);
      var e := TraceEdit(ttl, base, steps, hubs, n - 1);
      EditKeepsSane(hubs[n - 1].sensors, e);
    }
  }

  lemma TraceEdit(ttl: int, base: string, steps: seq<Step>, hubs: seq<Hub>, i: int) returns (e: Edit)
    requires Trace(ttl, base, steps, hubs) && 0 <= i < |steps|
    ensures hubs[i + 1].sensors == Edited(hubs[i].sensors, e)
    ensures e.Updates? && e.change.ToAssigned? ==> CheckTypes(hubs[i].sensors, e.deviceId, e.change.functionality).None?
    ensures e.Adds? ==> FindAny(hubs[i].sensors, e.record.deviceId).None? && e.record.provisionState == Discovered
  {
    hide Apply, AcceptedDiscovery, CheckTypes, FindAny, Edited;
    assert Stepped(ttl, base, steps, hubs, i);
    e := EditOfStep(ttl, base, hubs[i], steps[i]);
  }

  /** At every moment of every run there is one record per device, and an assigned one is assigned within its capabilities. */
  lemma AssignedWithinCapabilities(ttl: int, base: string, steps: seq<Step>, hubs: seq<Hub>, n: int, s: Sensor)
    requires Trace(ttl, base, steps, hubs) && 0 <= n <= |steps|
    requires s in hubs[n].sensors && s.provisionState == Assigned
    ensures s.assignedFunctionality.Some? && forall f :: f in s.assignedFunctionality.value ==> f in s.capabilities
    ensures forall t :: t in hubs[n].sensors && t.deviceId == s.deviceId ==> t == s
  {
    hide Apply;
    AlwaysSane(ttl, base, steps, hubs, n);
  }

  /** No record is ever removed, and its provision state only moves from discovered to assigned. */
  lemma {:induction false} RecordsEvolve(ttl: int, base: string, steps: seq<Step>, hubs: seq<Hub>, k: int, n: int)
    requires Trace(ttl, base, steps, hubs) && 0 <= k <= n <= |steps|
    ensures Evolves(hubs[k].sensors, hubs[n].sensors)
    decreases n
  {
    hide Apply, SensorOk;
    if k < n {
      RecordsEvolve(ttl, base, steps, hubs, k, n - 1);
      AlwaysSane(ttl, base, steps, hubs, n - 1);
      var e := TraceEdit(ttl, base, steps, hubs, n - 1);
      EditKeepsSane(hubs[n - 1].sensors, e);
    }
  }

  // ---------- live and deleted ----------

  ghost predicate DiscoveredAt(steps: seq<Step>, hubs: seq<Hub>, k: int, d: string)
    requires 0 <= k < |steps| < |hubs|
  {
    AcceptedDiscovery(hubs[k], steps[k]) == Some(d)
  }

  lemma LiveStep(ttl: int, base: string, hub: Hub, st: Step, d: string)
    requires Sane(hub.sensors)
    ensures FindLive(Apply(ttl, base, hub, st).hub.sensors, d).Some?
       <==> AcceptedDiscovery(hub, st) == Some(d) || (FindLive(hub.sensors, d).Some? && st.call != Delete(d))
  {
    hide Apply, AcceptedDiscovery;
    var e := EditOfStep(ttl, base, hub, st);
    var after := Edited(hub.sensors, e);
    FindFinds(hub.sensors, d);
    FindFinds(after, d);
    if e.Updates? && e.change == ToDeleted(false) {
      FindFinds(hub.sensors, e.deviceId);
    }
    EditLiveness(hub.sensors, e, d);
    if st.call.Delete? {
      DiscoveredIsNoDelete(hub, st);
    }
  }

  lemma DiscoveredIsNoDelete(hub: Hub, st: Step)
    requires st.call.Delete?
    ensures AcceptedDiscovery(hub, st).None?
  {
  }

  lemma EditLiveness(sensors: seq<Sensor>, e: Edit, d: string)
    ensures
      var after := Edited(sensors, e);
      match e
      case Nothing => FindLive(after, d).Some? <==> FindLive(sensors, d).Some?
      case Adds(r) => FindLive(after, d).Some? <==> FindLive(sensors, d).Some? || (r.deviceId == d && !r.isDeleted)
      case Updates(x, c) =>
        if c.ToDeleted? && x == d then FindLive(after, d).Some? <==> FindAny(sensors, d).Some? && !c.isDeleted
        else FindLive(after, d).Some? <==> FindLive(sensors, d).Some?
  {
    hide FindAny, FindLive, Update;
    var after := Edited(sensors, e);
    FindFinds(sensors, d);
    FindFinds(after, d);
    if e.Adds? {
      assert after[|sensors|] == e.record;
      assert forall i :: 0 <= i < |sensors| ==> after[i] == sensors[i];
    }
    if e.Updates? {
      assert forall i :: 0 <= i < |sensors| ==> after[i].deviceId == sensors[i].deviceId;
    }
  }

  /** At every moment a device is live exactly when it has been discovered and not deleted since. */
  lemma {:induction false} LiveIff(ttl: int, base: string, steps: seq<Step>, hubs: seq<Hub>, n: int, d: string)
    requires Trace(ttl, base, steps, hubs) && 0 <= n <= |steps|
    ensures FindLive(hubs[n].sensors, d).Some?
       <==> exists k :: 0 <= k < n && DiscoveredAt(steps, hubs, k, d) && NotDeletedSince(steps, k, n, d)
    decreases n
  {
    hide Apply, AcceptedDiscovery, FindLive;
    if n == 0 {
      assert FindLive([], d).None? by { FindFinds([], d); }
    } else {
      var m := n - 1;
      LiveIff(ttl, base, steps, hubs, m, d);
      AlwaysSane(ttl, base, steps, hubs, m);
      assert Stepped(ttl, base, steps, hubs, m);
      LiveStep(ttl, base, hubs[m], steps[m], d);
      if k :| 0 <= k < m && DiscoveredAt(steps, hubs, k, d) && NotDeletedSince(steps, k, m, d) {
        assert steps[m].call != Delete(d) ==> NotDeletedSince(steps, k, n, d);
      }
      if k :| 0 <= k < n && DiscoveredAt(steps, hubs, k, d) && NotDeletedSince(steps, k, n, d) {
        assert k < m ==> NotDeletedSince(steps, k, m, d);
      }
      assert NotDeletedSince(steps, m, n, d);
    }
  }

  predicate NotDeletedSince(steps: seq<Step>, k: int, n: int, d: string)
    requires 0 <= k && n <= |steps|
  {
    forall i :: k < i < n ==> steps[i].call != Delete(d)
  }
}
