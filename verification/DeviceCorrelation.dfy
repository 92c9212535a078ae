/**
 Which answers are accepted, over every run: an answer matches exactly when a request with its id and
 user was stored less than the time-to-live ago and neither replaced nor consumed since.
 */
module DeviceCorrelation {
  import opened Text
  import opened Redis
  import opened SessionKeys
  import opened TopicNames
  import opened TopicRegistry
  import opened DeviceFlow

  /** `hubs[i]` is the state before step `i` of a run that starts empty. */
  ghost predicate Trace(ttl: int, base: string, steps: seq<Step>, hubs: seq<Hub>) {
    && |hubs| == |steps| + 1 && hubs[0] == EMPTY
    && forall i {:trigger Stepped(ttl, base, steps, hubs, i)} :: 0 <= i < |steps| ==> Stepped(ttl, base, steps, hubs, i)
  }

  ghost predicate Stepped(ttl: int, base: string, steps: seq<Step>, hubs: seq<Hub>, i: int)
    requires 0 <= i < |steps| < |hubs|
  {
    hubs[i + 1] == Apply(ttl, base, hubs[i], steps[i]).hub
  }

  function Hubs(ttl: int, base: string, steps: seq<Step>): (hubs: seq<Hub>)
    ensures |hubs| == |steps| + 1
  {
    if steps == [] then [EMPTY]
    else
      var n := |steps| - 1;
      var before := Hubs(ttl, base, steps[..n]);
      before + [Apply(ttl, base, before[n], steps[n]).hub]
  }

  /** Every sequence of steps has its trace. */
  lemma {:induction false} HubsIsTrace(ttl: int, base: string, steps: seq<Step>)
    ensures Trace(ttl, base, steps, Hubs(ttl, base, steps))
  {
    hide Apply;
    if steps != [] {
      var n := |steps| - 1;
      HubsIsTrace(ttl, base, steps[..n]);
      var before, hubs := Hubs(ttl, base, steps[..n]), Hubs(ttl, base, steps);
      forall i | 0 <= i < n ensures Stepped(ttl, base, steps, hubs, i) {
        assert Stepped(ttl, base, steps[..n], before, i);
      }
    }
  }

  // ---------- what a step stores and consumes ----------

  /** A stored request; the telemetry request is stored without a user under the word a missing id prints. */
  datatype Pending = Pending(rid: string, userId: Option<string>)

  /** What the step stores: nothing unless the time-to-live is valid and the call's own checks pass. */
  function Stores(ttl: int, hub: Hub, st: Step): Option<Pending> {
    if ttl <= 0 then None
    else
      match st.call
      case AskBroadcast(u, rid) => if BroadcastTopic(hub.registry).None? then None else Some(Pending(rid, Some(u)))
      case AskUnicast(u, rid) => if BroadcastTopic(hub.registry).None? then None else Some(Pending(rid, Some(u)))
      case AskAssign(u, d, f, codeOk, rid) =>
        if codeOk && ByDeviceAndUseCase(hub.registry, d, AssignDeviceFunction).Some? && CheckTypes(hub.sensors, d, f).None?
        then Some(Pending(rid, Some(u))) else None
      case AskHardware(u, d, rid) => if FindLive(hub.sensors, d).None? then None else Some(Pending(rid, Some(u)))
      case AskTelemetry(d, codeOk) =>
        if codeOk && FindAssigned(hub.sensors, d).Some? && ByDeviceAndUseCase(hub.registry, d, Telemetry).Some?
        then Some(Pending("undefined", None)) else None
      case _ => None
  }

  predicate Records(value: Payload, p: Pending) {
    value.PendingJson? && value.userId == p.userId && value.requestId == (if p.userId.Some? then Some(p.rid) else None)
  }

  /** The step takes the stored request away, before its time. */
  predicate Consumes(st: Step, before: Hub, after: Hub, rid: string) {
    st.call.Respond? && PendingKey(rid) in before.db && PendingKey(rid) !in after.db
  }

  /** A request puts one entry into the store, or leaves it alone. */
  lemma AskOnDb(ttl: int, base: string, hub: Hub, st: Step) returns (value: Payload)
    requires !st.call.Respond? && !st.call.Wait?
    ensures Apply(ttl, base, hub, st).hub.now == hub.now
    ensures
      match Stores(ttl, hub, st)
      case None => Apply(ttl, base, hub, st).hub.db == hub.db
      case Some(p) =>
        Records(value, p) && ttl > 0 && Apply(ttl, base, hub, st).hub.db == Put(hub.db, hub.now, PendingKey(p.rid), value, ttl)
  {
    hide PendingKey, StoredTopic, CreatedTopic, BroadcastTopic, ByDeviceAndUseCase, CheckTypes, FindLive,
      FindAssigned;
    value := match st.call
      case AskBroadcast(u, rid) => PendingJson(Some(RequestDiscovery), Some(rid), Some(u))
      case AskUnicast(u, rid) => PendingJson(Some(RequestDiscovery), Some(rid), Some(u))
      case AskAssign(u, _, _, _, rid) => PendingJson(Some(RequestAssignDeviceFunction), Some(rid), Some(u))
      case AskHardware(u, _, rid) => PendingJson(Some(RequestHardwareMetrics), Some(rid), Some(u))
      case _ => PendingJson(None, None, None);
  }

  lemma AskOnKey(ttl: int, base: string, hub: Hub, st: Step, rid: string)
    requires !st.call.Respond? && !st.call.Wait?
    ensures
      var after := Apply(ttl, base, hub, st).hub;
      var key := PendingKey(rid);
      && after.now == hub.now && (AllLive(hub.db, hub.now) ==> AllLive(after.db, hub.now))
      && match Stores(ttl, hub, st)
         case Some(p) =>
           if p.rid == rid
           then key in after.db && after.db[key].expiresAt == hub.now + ttl && Records(after.db[key].value, p)
           else (key in after.db <==> key in hub.db) && (key in hub.db ==> after.db[key] == hub.db[key])
         case None => after.db == hub.db
  {
    hide Apply, Stores, PendingKey;
    var value := AskOnDb(ttl, base, hub, st);
    match Stores(ttl, hub, st) {
      case Some(p) =>
        if PendingKey(p.rid) == PendingKey(rid) {
          PendingKeyInjective(p.rid, rid);
        }
      case None =>
    }
  }

  lemma WaitOnDb(ttl: int, base: string, hub: Hub, st: Step)
    requires st.call.Wait?
    ensures
      var after := Apply(ttl, base, hub, st).hub;
      hub.now <= after.now && after.db == Surviving(hub.db, after.now) && Stores(ttl, hub, st).None?
  {
  }

  lemma RespondOnDb(ttl: int, base: string, hub: Hub, st: Step)
    requires st.call.Respond?
    ensures Stores(ttl, hub, st).None?
    ensures
      var after := Apply(ttl, base, hub, st).hub;
      after.now == hub.now && (after.db == hub.db || after.db == hub.db - {PendingKey(st.call.env.requestId)})
  {
    hide PendingKey, StoredTopic, CreatedAll, CreatedBase, CheckTypes, FindLive, FindAny, Update, Admitted,
      Validate, CodePasses, BroadcastTopic, ByDeviceAndUseCase, FindAssigned;
  }

  /** One step on one key: stored anew, or kept exactly when neither consumed nor expired. */
  predicate OnKey(ttl: int, before: Hub, st: Step, after: Hub, rid: string) {
    var key := PendingKey(rid);
    && before.now <= after.now
    && if StoresUnder(ttl, before, st, rid)
       then
         && key in after.db && after.db[key].expiresAt == before.now + ttl
         && Records(after.db[key].value, Stores(ttl, before, st).value)
       else
         && (key in after.db <==> key in before.db && !Consumes(st, before, after, rid) && after.now < before.db[key].expiresAt)
         && (key in after.db ==> after.db[key] == before.db[key])
  }

  predicate StoresUnder(ttl: int, hub: Hub, st: Step, rid: string) {
    match Stores(ttl, hub, st) case Some(p) => p.rid == rid case None => false
  }

  lemma StepOnKey(ttl: int, base: string, hub: Hub, st: Step, rid: string)
    requires AllLive(hub.db, hub.now)
    ensures AllLive(Apply(ttl, base, hub, st).hub.db, Apply(ttl, base, hub, st).hub.now)
    ensures OnKey(ttl, hub, st, Apply(ttl, base, hub, st).hub, rid)
  {
    hide Apply, Stores;
    if st.call.Respond? {
      RespondOnDb(ttl, base, hub, st);
    } else if st.call.Wait? {
      WaitOnDb(ttl, base, hub, st);
    } else {
      AskOnKey(ttl, base, hub, st, rid);
    }
  }

  // ---------- the history of a request ----------

  /** At moment `n`: step `j` stored the request, it is within its time, and no step since replaced or consumed it. */
  ghost predicate Outstanding(ttl: int, steps: seq<Step>, hubs: seq<Hub>, n: int, j: int, rid: string, userId: Option<string>)
    requires 0 <= n <= |steps| < |hubs|
  {
    && 0 <= j < n && Stores(ttl, hubs[j], steps[j]) == Some(Pending(rid, userId))
    && hubs[n].now < hubs[j].now + ttl
    && forall i :: j < i < n ==> Untouched(ttl, steps, hubs, i, rid)
  }

  ghost predicate Untouched(ttl: int, steps: seq<Step>, hubs: seq<Hub>, i: int, rid: string)
    requires 0 <= i < |steps| < |hubs|
  {
    !Consumes(steps[i], hubs[i], hubs[i + 1], rid) && !StoresUnder(ttl, hubs[i], steps[i], rid)
  }

  lemma {:induction false} AlwaysLive(ttl: int, base: string, steps: seq<Step>, hubs: seq<Hub>, n: int)
    requires Trace(ttl, base, steps, hubs) && 0 <= n <= |steps|
    ensures AllLive(hubs[n].db, hubs[n].now)
    decreases n
  {
    hide Apply, OnKey;
    if n > 0 {
      AlwaysLive(ttl, base, steps, hubs, n - 1);
      assert Stepped(ttl, base, steps, hubs, n - 1);
      StepOnKey(ttl, base, hubs[n - 1], steps[n - 1], "");
    }
  }

  lemma TraceOnKey(ttl: int, base: string, steps: seq<Step>, hubs: seq<Hub>, i: int, rid: string)
    requires Trace(ttl, base, steps, hubs) && 0 <= i < |steps|
    ensures AllLive(hubs[i].db, hubs[i].now) && AllLive(hubs[i + 1].db, hubs[i + 1].now)
    ensures OnKey(ttl, hubs[i], steps[i], hubs[i + 1], rid)
  {
    hide Apply, OnKey;
    AlwaysLive(ttl, base, steps, hubs, i);
    AlwaysLive(ttl, base, steps, hubs, i + 1);
    assert Stepped(ttl, base, steps, hubs, i);
    StepOnKey(ttl, base, hubs[i], steps[i], rid);
  }

  /** A stored entry is an outstanding request. */
  lemma {:induction false} EntryIsOutstanding(ttl: int, base: string, steps: seq<Step>, hubs: seq<Hub>, n: int, rid: string)
    returns (j: int, userId: Option<string>)
    requires Trace(ttl, base, steps, hubs) && 0 <= n <= |steps| && PendingKey(rid) in hubs[n].db
    ensures Outstanding(ttl, steps, hubs, n, j, rid, userId)
    ensures Records(hubs[n].db[PendingKey(rid)].value, Pending(rid, userId))
    ensures hubs[n].db[PendingKey(rid)].expiresAt == hubs[j].now + ttl
    decreases n
  {
    hide Apply, Stores, PendingKey;
    var m := n - 1;
    TraceOnKey(ttl, base, steps, hubs, m, rid);
    if StoresUnder(ttl, hubs[m], steps[m], rid) {
      j, userId := m, Stores(ttl, hubs[m], steps[m]).value.userId;
    } else {
      j, userId := EntryIsOutstanding(ttl, base, steps, hubs, m, rid);
    }
  }

  /** An outstanding request is a stored entry. */
  lemma {:induction false} OutstandingIsEntry(ttl: int, base: string, steps: seq<Step>, hubs: seq<Hub>, n: int, j: int,
                                              rid: string, userId: Option<string>)
    requires Trace(ttl, base, steps, hubs) && 0 <= n <= |steps| && Outstanding(ttl, steps, hubs, n, j, rid, userId)
    ensures PendingKey(rid) in hubs[n].db
    ensures Records(hubs[n].db[PendingKey(rid)].value, Pending(rid, userId))
    ensures hubs[n].db[PendingKey(rid)].expiresAt == hubs[j].now + ttl
    decreases n
  {
    hide Apply, Stores, PendingKey;
    var m := n - 1;
    TraceOnKey(ttl, base, steps, hubs, m, rid);
    if j < m {
      assert Untouched(ttl, steps, hubs, m, rid);
      OutstandingIsEntry(ttl, base, steps, hubs, m, j, rid, userId);
    }
  }

  // ---------- main results ----------

  /** At every moment of every run, exactly the answers to an outstanding request of the same user match. */
  lemma AnswerMatchesIff(ttl: int, base: string, steps: seq<Step>, hubs: seq<Hub>, n: int, env: Envelope)
    requires Trace(ttl, base, steps, hubs) && 0 <= n <= |steps|
    ensures Validate(hubs[n].db, env).None?
       <==> && env.wellFormed && env.requestId != ""
            && exists j :: Outstanding(ttl, steps, hubs, n, j, env.requestId, Some(env.userId))
  {
    hide Apply, Stores;
    if PendingKey(env.requestId) in hubs[n].db {
      var j, u := EntryIsOutstanding(ttl, base, steps, hubs, n, env.requestId);
    }
    if j :| Outstanding(ttl, steps, hubs, n, j, env.requestId, Some(env.userId)) {
      OutstandingIsEntry(ttl, base, steps, hubs, n, j, env.requestId, Some(env.userId));
    }
  }

  /** Causality: whatever an answer changes, an outstanding request with its id and user came before it. */
  lemma EffectHasRequest(ttl: int, base: string, steps: seq<Step>, hubs: seq<Hub>, n: int)
    requires Trace(ttl, base, steps, hubs) && 0 <= n < |steps| && steps[n].call.Respond? && hubs[n + 1] != hubs[n]
    ensures exists j :: Outstanding(ttl, steps, hubs, n, j, steps[n].call.env.requestId, Some(steps[n].call.env.userId))
  {
    hide Apply, Validate, Outstanding;
    assert Stepped(ttl, base, steps, hubs, n);
    EffectValidated(ttl, base, hubs[n], steps[n]);
    AnswerMatchesIff(ttl, base, steps, hubs, n, steps[n].call.env);
  }

  lemma EffectValidated(ttl: int, base: string, hub: Hub, st: Step)
    requires st.call.Respond? && Apply(ttl, base, hub, st).hub != hub
    ensures Validate(hub.db, st.call.env).None?
  {
    hide Handle, Admitted, Validate;
  }

  /** An answer consumes its request exactly when its handler succeeds, except broadcast discovery and unfinished upgrades. */
  lemma ConsumesIff(ttl: int, base: string, hub: Hub, st: Step)
    requires st.call.Respond?
    ensures
      var Respond(topic, env, b) := st.call;
      var outcome := Apply(ttl, base, hub, st);
      Consumes(st, hub, outcome.hub, env.requestId)
      <==> && Admitted(topic, env, b) && Validate(hub.db, env).None? && CodePasses(env.code, b) && outcome.failure.None?
           && !(b.DiscoveryBody? && b.isBroadcast) && !(b.UpgradeBody? && b.status != UpgradeSuccess)
  {
    hide PendingKey, StoredTopic, CreatedAll, CreatedBase, CheckTypes, FindLive, FindAny, Update, Admitted;
  }

  /** Apart from discovery, an answer that changes anything consumes its request. */
  lemma EffectConsumes(ttl: int, base: string, hub: Hub, st: Step)
    requires st.call.Respond? && !st.call.body.DiscoveryBody?
    requires Apply(ttl, base, hub, st).hub != hub
    ensures Consumes(st, hub, Apply(ttl, base, hub, st).hub, st.call.env.requestId)
  {
    hide PendingKey, CheckTypes, FindLive, FindAny, Update, Admitted;
  }

  /** Between two consumptions of one id lies a step that stored it again. */
  lemma ConsumedTwiceStoredBetween(ttl: int, base: string, steps: seq<Step>, hubs: seq<Hub>, i: int, k: int, rid: string)
    requires Trace(ttl, base, steps, hubs) && 0 <= i < k < |steps|
    requires Consumes(steps[i], hubs[i], hubs[i + 1], rid) && Consumes(steps[k], hubs[k], hubs[k + 1], rid)
    ensures exists j :: i < j < k && StoresUnder(ttl, hubs[j], steps[j], rid)
  {
    hide Apply, Stores, PendingKey;
    var j, u := EntryIsOutstanding(ttl, base, steps, hubs, k, rid);
    RespondStoresNothing(ttl, hubs[i], steps[i]);
    StoredSince(ttl, steps, hubs, k, j, i, rid, u);
  }

  /** An outstanding request is no older than the last consumption under its id. */
  lemma StoredSince(ttl: int, steps: seq<Step>, hubs: seq<Hub>, n: int, j: int, i: int, rid: string, userId: Option<string>)
    requires 0 <= i < n <= |steps| < |hubs| && Outstanding(ttl, steps, hubs, n, j, rid, userId)
    requires Consumes(steps[i], hubs[i], hubs[i + 1], rid)
    ensures i <= j
  {
    assert j < i ==> !Untouched(ttl, steps, hubs, i, rid);
  }

  lemma RespondStoresNothing(ttl: int, hub: Hub, st: Step)
    requires st.call.Respond?
    ensures Stores(ttl, hub, st).None?
  {
  }

  function RidOf(call: Call): Option<string> {
    match call
    case AskBroadcast(_, rid) => Some(rid)
    case AskUnicast(_, rid) => Some(rid)
    case AskAssign(_, _, _, _, rid) => Some(rid)
    case AskHardware(_, _, rid) => Some(rid)
    case _ => None
  }

  /** The ids are uuids: none comes twice. */
  ghost predicate FreshIds(steps: seq<Step>) {
    forall i, j :: 0 <= i < j < |steps| && RidOf(steps[i].call).Some? ==> RidOf(steps[i].call) != RidOf(steps[j].call)
  }

  /** What is consumed carries its own id and a user, so it was a request with that id, not the telemetry class. */
  lemma ConsumedHasUser(ttl: int, base: string, hub: Hub, st: Step)
    requires st.call.Respond? && Consumes(st, hub, Apply(ttl, base, hub, st).hub, st.call.env.requestId)
    ensures
      var value := hub.db[PendingKey(st.call.env.requestId)].value;
      value.PendingJson? && value.requestId == Some(st.call.env.requestId) && value.userId == Some(st.call.env.userId)
  {
    hide Apply, PendingKey, Admitted, CodePasses;
    ConsumesIff(ttl, base, hub, st);
  }

  lemma OutstandingId(ttl: int, base: string, steps: seq<Step>, hubs: seq<Hub>, n: int) returns (j: int)
    requires Trace(ttl, base, steps, hubs) && 0 <= n < |steps| && steps[n].call.Respond?
    requires Consumes(steps[n], hubs[n], hubs[n + 1], steps[n].call.env.requestId)
    ensures Outstanding(ttl, steps, hubs, n, j, steps[n].call.env.requestId, Some(steps[n].call.env.userId))
    ensures RidOf(steps[j].call) == Some(steps[n].call.env.requestId)
  {
    hide Apply, Stores, PendingKey;
    var u;
    j, u := EntryIsOutstanding(ttl, base, steps, hubs, n, steps[n].call.env.requestId);
    assert Stepped(ttl, base, steps, hubs, n);
    ConsumedHasUser(ttl, base, hubs[n], steps[n]);
    StoredRequestId(ttl, hubs[j], steps[j]);
  }

  lemma StoredRequestId(ttl: int, hub: Hub, st: Step)
    ensures match Stores(ttl, hub, st) case Some(p) => p.userId.Some? ==> RidOf(st.call) == Some(p.rid) case None => true
  {
    hide CheckTypes, FindAssigned, FindLive, BroadcastTopic, ByDeviceAndUseCase;
  }

  /** With fresh ids every request is consumed at most once, and so changes the stores at most once outside discovery. */
  lemma ConsumedAtMostOnce(ttl: int, base: string, steps: seq<Step>, hubs: seq<Hub>, i: int, k: int)
    requires Trace(ttl, base, steps, hubs) && FreshIds(steps)
    requires 0 <= i < k < |steps| && steps[i].call.Respond? && steps[k].call.Respond?
    requires steps[i].call.env.requestId == steps[k].call.env.requestId
    requires Consumes(steps[i], hubs[i], hubs[i + 1], steps[i].call.env.requestId)
    ensures !Consumes(steps[k], hubs[k], hubs[k + 1], steps[k].call.env.requestId)
    ensures !steps[k].call.body.DiscoveryBody? ==> hubs[k + 1] == hubs[k]
  {
    hide Apply, Stores, PendingKey, Consumes;
    if Consumes(steps[k], hubs[k], hubs[k + 1], steps[k].call.env.requestId) {
      var j := OutstandingId(ttl, base, steps, hubs, i);
      var m := OutstandingId(ttl, base, steps, hubs, k);
      StoredSince(ttl, steps, hubs, k, m, i, steps[i].call.env.requestId, Some(steps[k].call.env.userId));
    }
    assert Stepped(ttl, base, steps, hubs, k);
    if !steps[k].call.body.DiscoveryBody? && hubs[k + 1] != hubs[k] {
      EffectConsumes(ttl, base, hubs[k], steps[k]);
    }
  }

  /** A telemetry request makes no answer acceptable: afterwards the same answers match, but for the id "undefined". */
  lemma TelemetryRequestMatchesNothing(ttl: int, base: string, hub: Hub, st: Step, env: Envelope)
    requires st.call.AskTelemetry?
    ensures
      var after := Apply(ttl, base, hub, st).hub;
      Validate(after.db, env).None?
      <==> Validate(hub.db, env).None? && !(env.requestId == "undefined" && Stores(ttl, hub, st).Some?)
  {
    hide Apply, Stores;
    AskOnKey(ttl, base, hub, st, env.requestId);
    TelemetryStores(ttl, hub, st);
  }

  lemma TelemetryStores(ttl: int, hub: Hub, st: Step)
    requires st.call.AskTelemetry?
    ensures Stores(ttl, hub, st) in {None, Some(Pending("undefined", None))}
  {
  }

  /** If codes arrive as strings, as the declared shape demands, only discovery and heartbeat answers ever change anything. */
  lemma StringCodesChangeLittle(ttl: int, base: string, hub: Hub, st: Step)
    requires st.call.Respond? && st.call.env.code.StringCode?
    requires !st.call.body.DiscoveryBody? && !st.call.body.HeartbeatBody?
    ensures Apply(ttl, base, hub, st).hub == hub
  {
  }

  // ---------- stored readings ----------

  /** The reading of a telemetry answer the step consumes. */
  function TelemetryOf(st: Step, before: Hub, after: Hub): seq<Reading> {
    match st.call
    case Respond(_, env, TelemetryBody(d, x)) => if Consumes(st, before, after, env.requestId) then [Reading(d, x)] else []
    case _ => []
  }

  function HardwareOf(st: Step, before: Hub, after: Hub): seq<Reading> {
    match st.call
    case Respond(_, env, HardwareBody(d, x)) => if Consumes(st, before, after, env.requestId) then [Reading(d, x)] else []
    case _ => []
  }

  function AllTelemetry(steps: seq<Step>, hubs: seq<Hub>, n: nat): seq<Reading>
    requires n <= |steps| < |hubs|
  {
    if n == 0 then [] else AllTelemetry(steps, hubs, n - 1) + TelemetryOf(steps[n - 1], hubs[n - 1], hubs[n])
  }

  function AllHardware(steps: seq<Step>, hubs: seq<Hub>, n: nat): seq<Reading>
    requires n <= |steps| < |hubs|
  {
    if n == 0 then [] else AllHardware(steps, hubs, n - 1) + HardwareOf(steps[n - 1], hubs[n - 1], hubs[n])
  }

  lemma ReadingsStep(ttl: int, base: string, hub: Hub, st: Step)
    ensures
      var after := Apply(ttl, base, hub, st).hub;
      && after.telemetry == hub.telemetry + TelemetryOf(st, hub, after)
      && after.hardware == hub.hardware + HardwareOf(st, hub, after)
  {
    hide Apply, Consumes;
    if st.call.Respond? {
      AnswerReadings(ttl, base, hub, st);
    } else {
      RequestReadings(ttl, base, hub, st);
    }
  }

  lemma RequestReadings(ttl: int, base: string, hub: Hub, st: Step)
    requires !st.call.Respond?
    ensures Apply(ttl, base, hub, st).hub.telemetry == hub.telemetry && Apply(ttl, base, hub, st).hub.hardware == hub.hardware
  {
    hide PendingKey, StoredTopic, CreatedTopic, BroadcastTopic, ByDeviceAndUseCase, CheckTypes, FindLive,
      FindAssigned, Update;
  }

  lemma AnswerReadings(ttl: int, base: string, hub: Hub, st: Step)
    requires st.call.Respond?
    ensures
      var after := Apply(ttl, base, hub, st).hub;
      && after.telemetry == hub.telemetry + TelemetryOf(st, hub, after)
      && after.hardware == hub.hardware + HardwareOf(st, hub, after)
  {
    hide PendingKey, StoredTopic, CreatedAll, CreatedBase, CheckTypes, FindLive, FindAny, Update, Admitted, Consumes;
    ConsumesIff(ttl, base, hub, st);
  }

  /** The stored readings are those of the consumed answers, one each and in order: none lost, none made up. */
  lemma {:induction false} ReadingsAreConsumedAnswers(ttl: int, base: string, steps: seq<Step>, hubs: seq<Hub>, n: nat)
    requires Trace(ttl, base, steps, hubs) && n <= |steps|
    ensures hubs[n].telemetry == AllTelemetry(steps, hubs, n) && hubs[n].hardware == AllHardware(steps, hubs, n)
    decreases n
  {
    hide Apply, TelemetryOf, HardwareOf;
    if n > 0 {
      ReadingsAreConsumedAnswers(ttl, base, steps, hubs, n - 1);
      assert Stepped(ttl, base, steps, hubs, n - 1);
      ReadingsStep(ttl, base, hubs[n - 1], steps[n - 1]);
    }
  }

  /** So with string codes throughout, no reading is ever stored, whatever is asked and answered. */
  lemma {:induction false} StringCodesStoreNoReading(ttl: int, base: string, steps: seq<Step>, hubs: seq<Hub>, n: nat)
    requires Trace(ttl, base, steps, hubs) && n <= |steps|
    requires forall i :: 0 <= i < n && steps[i].call.Respond? ==> steps[i].call.env.code.StringCode?
    ensures hubs[n].telemetry == [] && hubs[n].hardware == []
    decreases n
  {
    hide Apply, Consumes;
    if n > 0 {
      StringCodesStoreNoReading(ttl, base, steps, hubs, n - 1);
      assert Stepped(ttl, base, steps, hubs, n - 1);
      ReadingsStep(ttl, base, hubs[n - 1], steps[n - 1]);
      var st := steps[n - 1];
      if st.call.Respond? && !st.call.body.DiscoveryBody? && !st.call.body.HeartbeatBody? {
        StringCodesChangeLittle(ttl, base, hubs[n - 1], st);
      }
    }
  }
}
