/** The topic registry under device requests and answers: where requests go, and which devices can be asked. */
module DeviceTopics {
  import opened Text
  import opened TopicNames
  import opened TopicRegistry
  import opened DeviceFlow
  import opened DeviceCorrelation
  import opened DeviceLifecycle
  import MessageRouter
  import TopicRuns

  /** The registry calls behind a step: at most two. */
  function RegistryCalls(hub: Hub, st: Step): (calls: seq<TopicRuns.Call>)
    ensures |calls| <= 2
  {
    match st.call
    case Connect => [TopicRuns.Connect(st.url)]
    case Disconnect => [TopicRuns.Disconnect]
    case AskBroadcast(_, _) => [TopicRuns.DiscoverBroadcast(st.url)]
    case AskUnicast(_, _) => [TopicRuns.DiscoverUnicast(st.url)]
    case AskHardware(_, d, _) =>
      if FindLive(hub.sensors, d).None? then [] else [TopicRuns.CreateOne(st.url, d, HardwareStatus)]
    case Respond(_, _, _) =>
      (match AcceptedDiscovery(hub, st)
       case None => []
       case Some(d) =>
         if FindAny(hub.sensors, d).None? && Subscribes(st)
         then [TopicRuns.CreateBase(st.url, d), TopicRuns.CreateAllFor(st.url, d)]
         else [TopicRuns.CreateBase(st.url, d)])
    case _ => []
  }

  function Applied(base: string, reg: Registry, calls: seq<TopicRuns.Call>): Registry
    requires |calls| <= 2
  {
    if calls == [] then reg
    else
      var reg1 := TopicRuns.Apply(reg, base, calls[0]);
      if |calls| == 1 then reg1 else TopicRuns.Apply(reg1, base, calls[1])
  }

  lemma RegistryStep(ttl: int, base: string, hub: Hub, st: Step)
    ensures Apply(ttl, base, hub, st).hub.registry == Applied(base, hub.registry, RegistryCalls(hub, st))
  {
    if st.call.Respond? {
      RegistryOfAnswer(ttl, base, hub, st);
    } else {
      RegistryOfRequest(ttl, base, hub, st);
    }
  }

  lemma RegistryOfRequest(ttl: int, base: string, hub: Hub, st: Step)
    requires !st.call.Respond?
    ensures Apply(ttl, base, hub, st).hub.registry == Applied(base, hub.registry, RegistryCalls(hub, st))
  {
    hide StoredTopic, CreatedTopic, CreatedAll, CreatedBase, BroadcastTopic, ByDeviceAndUseCase, FindLive, FindAny, FindAssigned,
      CheckTypes, TopicRuns.DiscoveryOf;
  }

  lemma RegistryOfAnswer(ttl: int, base: string, hub: Hub, st: Step)
    requires st.call.Respond?
    ensures Apply(ttl, base, hub, st).hub.registry == Applied(base, hub.registry, RegistryCalls(hub, st))
  {
    hide StoredTopic, CreatedTopic, CreatedAll, CreatedBase, FindLive, FindAny, CheckTypes, Admitted, Validate,
      CodePasses;
  }

  function AllCalls(steps: seq<Step>, hubs: seq<Hub>, n: nat): seq<TopicRuns.Call>
    requires n <= |steps| < |hubs|
  {
    if n == 0 then [] else AllCalls(steps, hubs, n - 1) + RegistryCalls(hubs[n - 1], steps[n - 1])
  }

  /** The registry of a device run is the registry of a run of registry calls, so all that holds of those holds here. */
  lemma {:induction false} RegistryIsRun(ttl: int, base: string, steps: seq<Step>, hubs: seq<Hub>, n: nat)
    requires Trace(ttl, base, steps, hubs) && n <= |steps|
    ensures hubs[n].registry == TopicRuns.Run(base, AllCalls(steps, hubs, n))
    ensures TopicRuns.Inv(base, hubs[n].registry)
    decreases n
  {
    hide Apply, TopicRuns.Apply, RegistryCalls, TopicRuns.Inv;
    TopicRuns.RunKeepsInv(base, AllCalls(steps, hubs, n));
    if n > 0 {
      RegistryIsRun(ttl, base, steps, hubs, n - 1);
      assert Stepped(ttl, base, steps, hubs, n - 1);
      RegistryStep(ttl, base, hubs[n - 1], steps[n - 1]);
      RunAppend(base, AllCalls(steps, hubs, n - 1), RegistryCalls(hubs[n - 1], steps[n - 1]));
    }
  }

  lemma RunAppend(base: string, calls: seq<TopicRuns.Call>, more: seq<TopicRuns.Call>)
    requires |more| <= 2
    ensures TopicRuns.Run(base, calls + more) == Applied(base, TopicRuns.Run(base, calls), more)
  {
    hide TopicRuns.Apply;
    var all := calls + more;
    if |more| == 0 {
      assert all == calls;
    } else if |more| == 1 {
      assert all[..|calls|] == calls;
    } else {
      assert all[..|calls| + 1] == calls + [more[0]];
      assert (calls + [more[0]])[..|calls|] == calls;
    }
  }

  // ---------- where requests go ----------

  /** The topic a request is published on; broadcast discovery below the broadcast topic, unicast below a printed object. */
  function Target(base: string, call: Call): string {
    match call
    case AskBroadcast(_, _) => TopicRuns.DiscoveryOf(TopicRuns.Plain(base))
    case AskUnicast(_, _) => TopicRuns.DiscoveryOf(TopicRuns.PRINTED_OBJECT)
    case AskAssign(_, d, _, _, _) => DeviceTopic(base, d, AssignDeviceFunction)
    case AskHardware(_, d, _) => DeviceTopic(base, d, HardwareStatus)
    case AskTelemetry(d, _) => DeviceTopic(base, d, Telemetry)
    case SetConfig(d, _) => DeviceTopic(base, d, SetSensorConfiguration)
    case _ => ""
  }

  /** The call's own checks pass: the request gets as far as being stored, or for a configuration, published. */
  predicate Passes(hub: Hub, call: Call) {
    match call
    case SetConfig(d, _) => FindLive(hub.sensors, d).Some? && ByDeviceAndUseCase(hub.registry, d, SetSensorConfiguration).Some?
    case _ => Stores(1, hub, Step(call, "", true, 1)).Some?
  }

  lemma FoundTopicText(base: string, reg: Registry, d: string, uc: UseCase)
    requires TopicRuns.Inv(base, reg) && uc != DeviceBase && uc != Broadcast && ByDeviceAndUseCase(reg, d, uc).Some?
    ensures ByDeviceAndUseCase(reg, d, uc).value.topic == DeviceTopic(base, d, uc)
  {
    hide DeviceTopic, BaseTopic;
    assert TopicRuns.Shaped(base, ByDeviceAndUseCase(reg, d, uc).value);
  }

  lemma CreatedTopicText(reg: Registry, base: string, url: string, d: string, uc: UseCase)
    ensures CreatedTopic(reg, base, url, d, uc).1.topic == DeviceTopic(base, d, uc)
  {
    hide DeviceTopic;
  }

  lemma SentStep(ttl: int, base: string, hub: Hub, st: Step)
    requires TopicRuns.Inv(base, hub.registry)
    ensures Apply(ttl, base, hub, st).hub.sent
         == if st.online && Passes(hub, st.call) then hub.sent + [Target(base, st.call)] else hub.sent
  {
    hide DeviceTopic, TopicRuns.DiscoveryOf, TopicRuns.Inv, BroadcastTopic, ByDeviceAndUseCase, FindLive, FindAssigned, FindAny,
      CheckTypes, CreatedTopic, CreatedAll, CreatedBase, Update, Admitted, Validate, CodePasses;
    match st.call {
      case AskBroadcast(_, _) => TopicRuns.BroadcastIsPlain(base, hub.registry);
      case AskAssign(_, d, _, _, _) =>
        if ByDeviceAndUseCase(hub.registry, d, AssignDeviceFunction).Some? {
          FoundTopicText(base, hub.registry, d, AssignDeviceFunction);
        }
      case AskHardware(_, d, _) => CreatedTopicText(hub.registry, base, st.url, d, HardwareStatus);
      case AskTelemetry(d, _) =>
        if ByDeviceAndUseCase(hub.registry, d, Telemetry).Some? {
          FoundTopicText(base, hub.registry, d, Telemetry);
        }
      case SetConfig(d, _) =>
        if ByDeviceAndUseCase(hub.registry, d, SetSensorConfiguration).Some? {
          FoundTopicText(base, hub.registry, d, SetSensorConfiguration);
        }
      case _ =>
    }
  }

  /** In every run a request is published exactly when its checks pass and the broker is there, always on its own topic. */
  lemma RequestsGoToTarget(ttl: int, base: string, steps: seq<Step>, hubs: seq<Hub>, n: nat)
    requires Trace(ttl, base, steps, hubs) && n < |steps|
    ensures hubs[n + 1].sent
         == if steps[n].online && Passes(hubs[n], steps[n].call) then hubs[n].sent + [Target(base, steps[n].call)]
            else hubs[n].sent
  {
    hide Apply, TopicRuns.Inv, Target, Passes;
    RegistryIsRun(ttl, base, steps, hubs, n);
    assert Stepped(ttl, base, steps, hubs, n);
    SentStep(ttl, base, hubs[n], steps[n]);
  }

  // ---------- which devices have their topics ----------

  /** The step stores a newly discovered device and creates all its topics: the broker must take the first subscription. */
  ghost predicate CompletedAt(steps: seq<Step>, hubs: seq<Hub>, k: int, d: string)
    requires 0 <= k < |steps| < |hubs|
  {
    DiscoveredAt(steps, hubs, k, d) && FindAny(hubs[k].sensors, d).None? && Subscribes(steps[k])
  }

  /** The use cases no call creates a topic for on its own. */
  predicate CreatedTogether(uc: UseCase) {
    uc != DeviceBase && uc != Broadcast && uc != HardwareStatus
  }

  predicate HasTopic(reg: Registry, d: string, uc: UseCase) {
    exists t :: t in reg && t.deviceId == d && t.useCase == uc
  }

  lemma HasTopicIff(reg: Registry, d: string, uc: UseCase)
    ensures HasTopic(reg, d, uc) <==> ByDeviceAndUseCase(reg, d, uc).Some?
  {
  }

  lemma StoredAdds(reg: Registry, url: string, d: string, text: string, uc: UseCase, x: string, use: UseCase)
    requires d != x || uc != use
    ensures HasTopic(StoredTopic(reg, url, d, text, uc).0, x, use) <==> HasTopic(reg, x, use)
  {
    hide ByUseCaseKey;
    var t := Topic(url, d, text, uc, true);
    if StoredTopic(reg, url, d, text, uc).0 != reg {
      assert forall r :: r in reg ==> r in reg + [t];
    }
  }

  lemma {:induction false} CreatedEachAdds(reg: Registry, base: string, url: string, d: string, ucs: seq<UseCase>,
                                           x: string, use: UseCase)
    requires d != x
    ensures HasTopic(CreatedEach(reg, base, url, d, ucs).0, x, use) <==> HasTopic(reg, x, use)
    decreases |ucs|
  {
    hide HasTopic, StoredTopic, ByBrokerKey, DeviceTopic;
    if ucs != [] {
      StoredAdds(reg, url, d, DeviceTopic(base, d, ucs[0]), ucs[0], x, use);
      CreatedEachAdds(CreatedTopic(reg, base, url, d, ucs[0]).0, base, url, d, ucs[1..], x, use);
    }
  }

  lemma CreatedAllAdds(reg: Registry, base: string, url: string, d: string, x: string, use: UseCase)
    requires d != x
    ensures HasTopic(CreatedAll(reg, base, url, d).0, x, use) <==> HasTopic(reg, x, use)
  {
    hide HasTopic, StoredTopic, CreatedEach, BaseTopic;
    StoredAdds(reg, url, d, BaseTopic(base, d), DeviceBase, x, use);
    CreatedEachAdds(CreatedBase(reg, base, url, d).0, base, url, d, USE_CASES, x, use);
  }

  lemma UnsubscribeTopics(reg: Registry, x: string, use: UseCase)
    ensures HasTopic(Unsubscribe(reg), x, use) <==> HasTopic(reg, x, use)
  {
    hide Unsubscribe;
    if t :| t in reg && t.deviceId == x && t.useCase == use {
      var i :| 0 <= i < |reg| && reg[i] == t;
      assert Unsubscribe(reg)[i] in Unsubscribe(reg);
    }
    if t :| t in Unsubscribe(reg) && t.deviceId == x && t.useCase == use {
      var i :| 0 <= i < |reg| && Unsubscribe(reg)[i] == t;
      assert reg[i] in reg;
    }
  }

  /** Of all registry calls only creating all topics of the device itself gives it such a topic. */
  lemma RegistryCallTopics(reg: Registry, base: string, call: TopicRuns.Call, x: string, use: UseCase)
    requires TopicRuns.Inv(base, reg) && CreatedTogether(use) && !call.CreateOne?
    ensures HasTopic(TopicRuns.Apply(reg, base, call), x, use)
       <==> HasTopic(reg, x, use) || (call.CreateAllFor? && call.deviceId == x)
  {
    hide HasTopic, StoredTopic, CreatedAll, BroadcastTopic, DeviceTopic, BaseTopic, ByBrokerKey,
      TopicRuns.DiscoveryOf, TopicRuns.Inv;
    match call {
      case Connect(url) => StoredAdds(reg, url, BROKER_DEVICE, DeviceTopic(base, BROKER_DEVICE, Broadcast), Broadcast, x, use);
      case CreateBase(url, d) => StoredAdds(reg, url, d, BaseTopic(base, d), DeviceBase, x, use);
      case CreateAllFor(url, d) =>
        if d != x {
          CreatedAllAdds(reg, base, url, d, x, use);
        } else {
          TopicRuns.CreateAllGivesAll(base, reg, url, d);
          HasTopicIff(CreatedAll(reg, base, url, d).0, d, use);
        }
      case DiscoverBroadcast(url) =>
        if BroadcastTopic(reg).Some? {
          StoredAdds(reg, url, BROKER_DEVICE, TopicRuns.DiscoveryOf(BroadcastTopic(reg).value.topic), Broadcast, x, use);
        }
      case DiscoverUnicast(url) =>
        StoredAdds(reg, url, BROKER_DEVICE, TopicRuns.DiscoveryOf(TopicRuns.PRINTED_OBJECT), Broadcast, x, use);
      case Disconnect => UnsubscribeTopics(reg, x, use);
    }
  }

  lemma HardwareTopics(reg: Registry, base: string, url: string, d: string, x: string, use: UseCase)
    requires CreatedTogether(use)
    ensures HasTopic(TopicRuns.Apply(reg, base, TopicRuns.CreateOne(url, d, HardwareStatus)), x, use) <==> HasTopic(reg, x, use)
  {
    hide HasTopic, StoredTopic, ByBrokerKey, DeviceTopic;
    StoredAdds(reg, url, d, DeviceTopic(base, d, HardwareStatus), HardwareStatus, x, use);
  }

  lemma TopicStep(ttl: int, base: string, hub: Hub, st: Step, d: string, uc: UseCase)
    requires TopicRuns.Inv(base, hub.registry) && CreatedTogether(uc)
    ensures HasTopic(Apply(ttl, base, hub, st).hub.registry, d, uc)
       <==> || HasTopic(hub.registry, d, uc)
            || (AcceptedDiscovery(hub, st) == Some(d) && FindAny(hub.sensors, d).None? && Subscribes(st))
  {
    hide Apply, HasTopic, TopicRuns.Apply, TopicRuns.Inv, AcceptedDiscovery, FindAny, FindLive, CreatedTogether;
    RegistryStep(ttl, base, hub, st);
    var calls := RegistryCalls(hub, st);
    if !st.call.Respond? {
      RequestIsNoDiscovery(hub, st);
    }
    if st.call.AskHardware? && calls != [] {
      HardwareTopics(hub.registry, base, st.url, st.call.deviceId, d, uc);
    } else if calls != [] {
      RegistryCallTopics(hub.registry, base, calls[0], d, uc);
      if |calls| == 2 {
        TopicRuns.ApplyKeepsInv(base, hub.registry, calls[0]);
        RegistryCallTopics(TopicRuns.Apply(hub.registry, base, calls[0]), base, calls[1], d, uc);
      }
    }
  }

  lemma RequestIsNoDiscovery(hub: Hub, st: Step)
    requires !st.call.Respond?
    ensures AcceptedDiscovery(hub, st).None?
  {
  }

  /**
   A device can be assigned, configured or asked for telemetry exactly when the answer that stored it
   came while the broker took the first subscription; a first discovery without it is never made up for.
   */
  lemma {:induction false} TopicsIff(ttl: int, base: string, steps: seq<Step>, hubs: seq<Hub>, n: nat, d: string, uc: UseCase)
    requires Trace(ttl, base, steps, hubs) && n <= |steps| && CreatedTogether(uc)
    ensures ByDeviceAndUseCase(hubs[n].registry, d, uc).Some? <==> exists k :: 0 <= k < n && CompletedAt(steps, hubs, k, d)
    decreases n
  {
    hide Apply, HasTopic, CompletedAt, TopicRuns.Inv, CreatedTogether, TopicRuns.Run;
    HasTopicIff(hubs[n].registry, d, uc);
    if n == 0 {
      assert !HasTopic([], d, uc) by { HasTopicIff([], d, uc); }
    } else {
      HasTopicIff(hubs[n - 1].registry, d, uc);
      TopicsIff(ttl, base, steps, hubs, n - 1, d, uc);
      TraceTopic(ttl, base, steps, hubs, n - 1, d, uc);
    }
  }

  lemma TraceTopic(ttl: int, base: string, steps: seq<Step>, hubs: seq<Hub>, n: nat, d: string, uc: UseCase)
    requires Trace(ttl, base, steps, hubs) && n < |steps| && CreatedTogether(uc)
    ensures HasTopic(hubs[n + 1].registry, d, uc) <==> HasTopic(hubs[n].registry, d, uc) || CompletedAt(steps, hubs, n, d)
  {
    hide Apply, HasTopic, AcceptedDiscovery, FindAny, TopicRuns.Inv, CreatedTogether, TopicRuns.Run;
    RegistryIsRun(ttl, base, steps, hubs, n);
    assert Stepped(ttl, base, steps, hubs, n);
    TopicStep(ttl, base, hubs[n], steps[n], d, uc);
  }

  // ---------- the discovery that stored a device ----------

  ghost predicate StoredAt(steps: seq<Step>, hubs: seq<Hub>, k: int, d: string)
    requires 0 <= k < |steps| < |hubs|
  {
    DiscoveredAt(steps, hubs, k, d) && FindAny(hubs[k].sensors, d).None?
  }

  lemma KnownStep(ttl: int, base: string, hub: Hub, st: Step, d: string)
    ensures FindAny(Apply(ttl, base, hub, st).hub.sensors, d).Some?
       <==> FindAny(hub.sensors, d).Some? || AcceptedDiscovery(hub, st) == Some(d)
  {
    hide Apply, AcceptedDiscovery, FindAny, Update;
    var e := EditOfStep(ttl, base, hub, st);
    EditKnown(hub.sensors, e, d);
    if !st.call.Respond? {
      RequestIsNoDiscovery(hub, st);
    }
  }

  lemma EditKnown(sensors: seq<Sensor>, e: Edit, d: string)
    ensures FindAny(Edited(sensors, e), d).Some? <==> FindAny(sensors, d).Some? || (e.Adds? && e.record.deviceId == d)
  {
    hide FindAny, FindLive, Update;
    var after := Edited(sensors, e);
    FindFinds(sensors, d);
    FindFinds(after, d);
    assert forall i :: 0 <= i < |sensors| ==> after[i].deviceId == sensors[i].deviceId;
    if e.Adds? {
      assert after[|sensors|] == e.record;
    }
  }

  /** A known device was stored by one accepted discovery, and by one only. */
  lemma {:induction false} KnownIff(ttl: int, base: string, steps: seq<Step>, hubs: seq<Hub>, n: nat, d: string)
    requires Trace(ttl, base, steps, hubs) && n <= |steps|
    ensures FindAny(hubs[n].sensors, d).Some? <==> exists k :: 0 <= k < n && StoredAt(steps, hubs, k, d)
    ensures forall k, m :: 0 <= k < n && 0 <= m < n && StoredAt(steps, hubs, k, d) && StoredAt(steps, hubs, m, d) ==> k == m
    decreases n
  {
    hide Apply, AcceptedDiscovery, FindAny;
    if n == 0 {
      assert FindAny([], d).None? by { FindFinds([], d); }
    } else {
      KnownIff(ttl, base, steps, hubs, n - 1, d);
      assert Stepped(ttl, base, steps, hubs, n - 1);
      KnownStep(ttl, base, hubs[n - 1], steps[n - 1], d);
      assert StoredAt(steps, hubs, n - 1, d)
        <==> AcceptedDiscovery(hubs[n - 1], steps[n - 1]) == Some(d) && FindAny(hubs[n - 1].sensors, d).None?;
    }
  }

  lemma HasAllStep(ttl: int, base: string, hub: Hub, st: Step, d: string)
    requires TopicRuns.Inv(base, hub.registry)
    requires TopicRuns.HasAllTopics(hub.registry, d)
          || (AcceptedDiscovery(hub, st) == Some(d) && FindAny(hub.sensors, d).None? && Subscribes(st))
    ensures TopicRuns.HasAllTopics(Apply(ttl, base, hub, st).hub.registry, d)
  {
    hide Apply, TopicRuns.Apply, TopicRuns.Inv, AcceptedDiscovery, FindAny, FindLive, TopicRuns.HasAllTopics;
    RegistryStep(ttl, base, hub, st);
    var calls := RegistryCalls(hub, st);
    var reg1 := if calls == [] then hub.registry else TopicRuns.Apply(hub.registry, base, calls[0]);
    if calls != [] {
      TopicRuns.ApplyKeepsInv(base, hub.registry, calls[0]);
    }
    if TopicRuns.HasAllTopics(hub.registry, d) {
      if calls != [] {
        AllTopicsStay(base, hub.registry, calls[0], d);
      }
      if |calls| == 2 {
        AllTopicsStay(base, reg1, calls[1], d);
      }
    } else {
      if !st.call.Respond? {
        RequestIsNoDiscovery(hub, st);
      }
      CreateAllCall(base, reg1, st.url, d);
    }
  }

  lemma AllTopicsStay(base: string, reg: Registry, call: TopicRuns.Call, d: string)
    requires TopicRuns.Inv(base, reg) && TopicRuns.HasAllTopics(reg, d)
    ensures TopicRuns.HasAllTopics(TopicRuns.Apply(reg, base, call), d)
  {
    hide TopicRuns.Apply, TopicRuns.Inv, ByDeviceAndUseCase;
    forall uc ensures ByDeviceAndUseCase(TopicRuns.Apply(reg, base, call), d, uc).Some? {
      TopicRuns.TopicsStay(base, reg, call, d, uc);
    }
  }

  lemma CreateAllCall(base: string, reg: Registry, url: string, d: string)
    requires TopicRuns.Inv(base, reg)
    ensures TopicRuns.HasAllTopics(TopicRuns.Apply(reg, base, TopicRuns.CreateAllFor(url, d)), d)
  {
    hide TopicRuns.Inv, TopicRuns.HasAllTopics, CreatedAll;
    TopicRuns.CreateAllGivesAll(base, reg, url, d);
  }

  lemma {:induction false} CompletedHasAll(ttl: int, base: string, steps: seq<Step>, hubs: seq<Hub>, n: nat, k: nat, d: string)
    requires Trace(ttl, base, steps, hubs) && k < n <= |steps| && CompletedAt(steps, hubs, k, d)
    ensures TopicRuns.HasAllTopics(hubs[n].registry, d)
    decreases n
  {
    hide Apply, AcceptedDiscovery, FindAny, TopicRuns.Inv, TopicRuns.HasAllTopics, TopicRuns.Run;
    RegistryIsRun(ttl, base, steps, hubs, n - 1);
    assert Stepped(ttl, base, steps, hubs, n - 1);
    if k < n - 1 {
      CompletedHasAll(ttl, base, steps, hubs, n - 1, k, d);
    }
    HasAllStep(ttl, base, hubs[n - 1], steps[n - 1], d);
  }

  /**
   A stored device has all its topics exactly when the discovery that stored it came while the broker took
   its first subscription; otherwise none of those its requests need will ever be found.
   */
  lemma StoredOnlineIffAllTopics(ttl: int, base: string, steps: seq<Step>, hubs: seq<Hub>, n: nat, k: nat, d: string)
    requires Trace(ttl, base, steps, hubs) && k < n <= |steps| && StoredAt(steps, hubs, k, d)
    ensures Subscribes(steps[k]) <==> TopicRuns.HasAllTopics(hubs[n].registry, d)
    ensures !Subscribes(steps[k]) ==> forall uc :: CreatedTogether(uc) ==> ByDeviceAndUseCase(hubs[n].registry, d, uc).None?
  {
    hide Apply, AcceptedDiscovery, FindAny, ByDeviceAndUseCase;
    if Subscribes(steps[k]) {
      CompletedHasAll(ttl, base, steps, hubs, n, k, d);
    } else {
      KnownIff(ttl, base, steps, hubs, n, d);
      forall uc | CreatedTogether(uc) ensures ByDeviceAndUseCase(hubs[n].registry, d, uc).None? {
        TopicsIff(ttl, base, steps, hubs, n, d, uc);
        assert forall m :: 0 <= m < n && CompletedAt(steps, hubs, m, d) ==> StoredAt(steps, hubs, m, d);
      }
      assert CreatedTogether(AssignDeviceFunction);
    }
  }

  /** In a run without broker failures every stored device has all its topics. */
  lemma EveryDeviceHasAllTopics(ttl: int, base: string, steps: seq<Step>, hubs: seq<Hub>, n: nat, s: Sensor)
    requires Trace(ttl, base, steps, hubs) && n <= |steps| && forall i :: 0 <= i < n ==> Subscribes(steps[i])
    requires s in hubs[n].sensors
    ensures TopicRuns.HasAllTopics(hubs[n].registry, s.deviceId)
  {
    hide Apply, AcceptedDiscovery, FindAny, TopicRuns.HasAllTopics;
    FindFinds(hubs[n].sensors, s.deviceId);
    KnownIff(ttl, base, steps, hubs, n, s.deviceId);
    var k :| 0 <= k < n && StoredAt(steps, hubs, k, s.deviceId);
    StoredOnlineIffAllTopics(ttl, base, steps, hubs, n, k, s.deviceId);
  }

  // ---------- deletion and rediscovery ----------

  ghost predicate HasBase(base: string, reg: Registry, d: string) {
    ByUseCaseKey(reg, BaseTopic(base, d), DeviceBase, d).Some?
  }

  lemma BaseStep(ttl: int, base: string, hub: Hub, st: Step, d: string)
    requires TopicRuns.Inv(base, hub.registry)
    requires HasBase(base, hub.registry, d) || AcceptedDiscovery(hub, st) == Some(d)
    ensures HasBase(base, Apply(ttl, base, hub, st).hub.registry, d)
  {
    hide Apply, TopicRuns.Apply, TopicRuns.Inv, AcceptedDiscovery, FindAny, FindLive, HasBase;
    RegistryStep(ttl, base, hub, st);
    var calls := RegistryCalls(hub, st);
    if !st.call.Respond? {
      RequestIsNoDiscovery(hub, st);
    }
    if calls != [] {
      TopicRuns.ApplyKeepsInv(base, hub.registry, calls[0]);
      BaseCall(base, hub.registry, calls[0], d);
      if |calls| == 2 {
        BaseCall(base, TopicRuns.Apply(hub.registry, base, calls[0]), calls[1], d);
      }
    }
  }

  lemma BaseCall(base: string, reg: Registry, call: TopicRuns.Call, d: string)
    requires TopicRuns.Inv(base, reg)
    requires HasBase(base, reg, d) || (call.CreateBase? && call.deviceId == d)
    ensures HasBase(base, TopicRuns.Apply(reg, base, call), d)
  {
    hide TopicRuns.Inv, TopicRuns.Apply, BaseTopic;
    var reg' := TopicRuns.Apply(reg, base, call);
    if HasBase(base, reg, d) {
      var t := ByUseCaseKey(reg, BaseTopic(base, d), DeviceBase, d).value;
      var i :| 0 <= i < |reg| && reg[i] == t;
      TopicRuns.KeysStay(base, reg, call, i);
      assert reg'[i] in reg';
    } else {
      BaseCreated(base, reg, call.url, d);
    }
  }

  lemma BaseCreated(base: string, reg: Registry, url: string, d: string)
    ensures HasBase(base, TopicRuns.Apply(reg, base, TopicRuns.CreateBase(url, d)), d)
  {
    hide BaseTopic;
    var t := Topic(url, d, BaseTopic(base, d), DeviceBase, true);
    assert t in reg + [t];
  }

  lemma BaseAgain(base: string, reg: Registry, url: string, d: string)
    requires HasBase(base, reg, d)
    ensures TopicRuns.Apply(reg, base, TopicRuns.CreateBase(url, d)) == reg
  {
    hide BaseTopic;
  }

  lemma {:induction false} KnownHasBase(ttl: int, base: string, steps: seq<Step>, hubs: seq<Hub>, n: nat, d: string)
    requires Trace(ttl, base, steps, hubs) && n <= |steps| && FindAny(hubs[n].sensors, d).Some?
    ensures HasBase(base, hubs[n].registry, d)
    decreases n
  {
    hide Apply, AcceptedDiscovery, FindAny, TopicRuns.Inv, TopicRuns.Run, HasBase;
    if n == 0 {
      FindFinds([], d);
    } else {
      RegistryIsRun(ttl, base, steps, hubs, n - 1);
      assert Stepped(ttl, base, steps, hubs, n - 1);
      KnownStep(ttl, base, hubs[n - 1], steps[n - 1], d);
      if FindAny(hubs[n - 1].sensors, d).Some? {
        KnownHasBase(ttl, base, steps, hubs, n - 1, d);
      }
      BaseStep(ttl, base, hubs[n - 1], steps[n - 1], d);
    }
  }

  /** What an accepted answer reports of a device's connection, reboot or upgrade. */
  function ReportOf(hub: Hub, st: Step, d: string): Option<Change> {
    match st.call
    case Respond(topic, env, b) =>
      if !Admitted(topic, env, b) || Validate(hub.db, env).Some? || !CodePasses(env.code, b) then None
      else
        (match b
         case HeartbeatBody(x, state) => if x == d then Some(ToConnection(state)) else None
         case RebootBody(x, at) => if x == d then Some(ToReboot(at)) else None
         case UpgradeBody(x, status, at) => if x == d && status == UpgradeSuccess then Some(ToUpgrade(at)) else None
         case _ => None)
    case _ => None
  }

  function Applying(s: Sensor, c: Option<Change>): Sensor {
    match c case None => s case Some(change) => Changed(s, change)
  }

  /** The record with everything reported of its device from step `from` on, up to step `n`. */
  function Reported(steps: seq<Step>, hubs: seq<Hub>, from: nat, n: nat, d: string, s: Sensor): Sensor
    requires from <= n <= |steps| < |hubs|
  {
    if n == from then s
    else Applying(Reported(steps, hubs, from, n - 1, d, s), ReportOf(hubs[n - 1], steps[n - 1], d))
  }

  ghost predicate DeletedRecord(sensors: seq<Sensor>, x: nat, d: string) {
    Sane(sensors) && x < |sensors| && sensors[x].deviceId == d && sensors[x].isDeleted
  }

  lemma DeletedIsNotFound(sensors: seq<Sensor>, x: nat, d: string)
    requires DeletedRecord(sensors, x, d)
    ensures FindLive(sensors, d).None? && FindAny(sensors, d) == Some(sensors[x])
  {
    FindFinds(sensors, d);
  }

  /** A step leaves a deleted device's record alone but for what the device reports, unless it accepts a discovery of it. */
  lemma DeletedRecordStep(ttl: int, base: string, hub: Hub, st: Step, x: nat, d: string)
    requires DeletedRecord(hub.sensors, x, d) && AcceptedDiscovery(hub, st) != Some(d)
    ensures
      var after := Apply(ttl, base, hub, st).hub.sensors;
      x < |after| && after[x] == Applying(hub.sensors[x], ReportOf(hub, st, d))
  {
    hide Apply, AcceptedDiscovery, ReportOf, Sane;
    DeletedIsNotFound(hub.sensors, x, d);
    if st.call.Respond? {
      AnswerOnDeleted(ttl, base, hub, st, x, d);
    } else {
      RequestOnDeleted(ttl, base, hub, st, x, d);
    }
  }

  lemma RequestOnDeleted(ttl: int, base: string, hub: Hub, st: Step, x: nat, d: string)
    requires !st.call.Respond? && x < |hub.sensors| && hub.sensors[x].deviceId == d && FindLive(hub.sensors, d).None?
    ensures ReportOf(hub, st, d).None?
    ensures
      var after := Apply(ttl, base, hub, st).hub.sensors;
      x < |after| && after[x] == hub.sensors[x]
  {
    hide StoredTopic, CreatedTopic, BroadcastTopic, ByDeviceAndUseCase, FindLive, FindAssigned, Update, Within;
  }

  lemma AnswerOnDeleted(ttl: int, base: string, hub: Hub, st: Step, x: nat, d: string)
    requires st.call.Respond? && AcceptedDiscovery(hub, st) != Some(d)
    requires x < |hub.sensors| && hub.sensors[x].deviceId == d
    requires FindLive(hub.sensors, d).None? && FindAny(hub.sensors, d).Some?
    ensures
      var after := Apply(ttl, base, hub, st).hub.sensors;
      x < |after| && after[x] == Applying(hub.sensors[x], ReportOf(hub, st, d))
  {
    hide StoredTopic, CreatedAll, CreatedBase, FindLive, FindAny, Update, Admitted, Validate, Within;
  }

  /** Live at step `i`, deleted by it, and not accepted again before step `n`, whatever else runs in between. */
  ghost predicate DeletedSince(steps: seq<Step>, hubs: seq<Hub>, i: nat, n: nat, x: nat, d: string) {
    && i < n <= |steps| < |hubs| && steps[i].call == Delete(d)
    && x < |hubs[i].sensors| && hubs[i].sensors[x].deviceId == d && !hubs[i].sensors[x].isDeleted
    && forall m :: i < m < n ==> !DiscoveredAt(steps, hubs, m, d)
  }

  lemma {:induction false} DeletedRecordKept(ttl: int, base: string, steps: seq<Step>, hubs: seq<Hub>,
                                             i: nat, n: nat, x: nat, d: string)
    requires Trace(ttl, base, steps, hubs) && DeletedSince(steps, hubs, i, n, x, d)
    ensures x < |hubs[n].sensors|
    ensures hubs[n].sensors[x] == Reported(steps, hubs, i + 1, n, d, hubs[i].sensors[x]).(isDeleted := true)
    ensures DeletedRecord(hubs[n].sensors, x, d)
    decreases n
  {
    hide Apply, AcceptedDiscovery, FindLive, FindAny, Update, ReportOf, Sane;
    AlwaysSane(ttl, base, steps, hubs, n);
    if n == i + 1 {
      FindFinds(hubs[i].sensors, d);
      DeletedSensors(ttl, base, steps, hubs, i, d);
    } else {
      DeletedRecordKept(ttl, base, steps, hubs, i, n - 1, x, d);
      assert Stepped(ttl, base, steps, hubs, n - 1) && !DiscoveredAt(steps, hubs, n - 1, d);
      DeletedRecordStep(ttl, base, hubs[n - 1], steps[n - 1], x, d);
      ReportKeeps(hubs[n - 1], steps[n - 1], d);
    }
  }

  /** A report changes the connection state or one of the two dates, nothing else. */
  lemma ReportKeeps(hub: Hub, st: Step, d: string)
    ensures var c := ReportOf(hub, st, d); c.None? || c.value.ToConnection? || c.value.ToReboot? || c.value.ToUpgrade?
  {
    hide Admitted, Validate, CodePasses;
  }

  /** Everything of a record but the connection state and the two dates a device reports. */
  predicate SameSettings(a: Sensor, b: Sensor) {
    && a.deviceId == b.deviceId && a.capabilities == b.capabilities && a.assignedFunctionality == b.assignedFunctionality
    && a.provisionState == b.provisionState && a.isActuator == b.isActuator && a.isDeleted == b.isDeleted
    && a.configuration == b.configuration
  }

  lemma {:induction false} ReportedSettings(steps: seq<Step>, hubs: seq<Hub>, from: nat, n: nat, d: string, s: Sensor)
    requires from <= n <= |steps| < |hubs|
    ensures SameSettings(s, Reported(steps, hubs, from, n, d, s))
    decreases n
  {
    hide ReportOf;
    if n > from {
      ReportedSettings(steps, hubs, from, n - 1, d, s);
      ReportKeeps(hubs[n - 1], steps[n - 1], d);
    }
  }

  /** A deleted device is not found until it is accepted again. */
  lemma DeletedIsHidden(ttl: int, base: string, steps: seq<Step>, hubs: seq<Hub>, i: nat, n: nat, x: nat, d: string)
    requires Trace(ttl, base, steps, hubs) && DeletedSince(steps, hubs, i, n, x, d)
    ensures FindLive(hubs[n].sensors, d).None?
  {
    hide Apply, AcceptedDiscovery, FindLive, FindAny, Sane;
    DeletedRecordKept(ttl, base, steps, hubs, i, n, x, d);
    DeletedIsNotFound(hubs[n].sensors, x, d);
  }

  /**
   A deleted device accepted again, whatever ran in between: its record is live with all its settings as
   before the deletion, and its connection state and dates are the last it reported meanwhile, whatever it
   now says of itself. Accepting it changes no other record and adds no topic.
   */
  lemma DeleteThenRediscover(ttl: int, base: string, steps: seq<Step>, hubs: seq<Hub>, i: nat, k: nat, x: nat, d: string)
    requires Trace(ttl, base, steps, hubs) && k < |steps|
    requires DeletedSince(steps, hubs, i, k, x, d) && DiscoveredAt(steps, hubs, k, d)
    ensures
      var restored := Reported(steps, hubs, i + 1, k, d, hubs[i].sensors[x]);
      && SameSettings(hubs[i].sensors[x], restored)
      && x < |hubs[k].sensors| && hubs[k + 1].sensors == hubs[k].sensors[x := restored]
      && hubs[k + 1].registry == hubs[k].registry
  {
    hide Apply, AcceptedDiscovery, FindLive, FindAny, Update, HasBase, ReportOf, Reported, Sane;
    DeletedRecordKept(ttl, base, steps, hubs, i, k, x, d);
    DeletedIsNotFound(hubs[k].sensors, x, d);
    ReportedSettings(steps, hubs, i + 1, k, d, hubs[i].sensors[x]);
    assert Stepped(ttl, base, steps, hubs, k);
    var e := EditOfStep(ttl, base, hubs[k], steps[k]);
    OthersAreOthers(hubs[k].sensors, x, d);
    KnownHasBase(ttl, base, steps, hubs, k, d);
    RestoredTopics(ttl, base, hubs[k], steps[k], d);
  }

  lemma OthersAreOthers(sensors: seq<Sensor>, x: nat, d: string)
    requires DeletedRecord(sensors, x, d)
    ensures forall y :: 0 <= y < |sensors| && y != x ==> sensors[y].deviceId != d
  {
  }

  lemma DeletedSensors(ttl: int, base: string, steps: seq<Step>, hubs: seq<Hub>, i: nat, d: string)
    requires Trace(ttl, base, steps, hubs) && i < |steps| && steps[i].call == Delete(d) && FindLive(hubs[i].sensors, d).Some?
    ensures hubs[i + 1].sensors == Update(hubs[i].sensors, d, ToDeleted(true))
  {
    hide Apply, AcceptedDiscovery, FindLive, FindAny, Update;
    assert Stepped(ttl, base, steps, hubs, i);
    DiscoveredIsNoDelete(hubs[i], steps[i]);
    var e := EditOfStep(ttl, base, hubs[i], steps[i]);
  }

  lemma RestoredTopics(ttl: int, base: string, hub: Hub, back: Step, d: string)
    requires HasBase(base, hub.registry, d) && FindAny(hub.sensors, d).Some? && AcceptedDiscovery(hub, back) == Some(d)
    ensures Apply(ttl, base, hub, back).hub.registry == hub.registry
  {
    hide Apply, AcceptedDiscovery, FindAny, HasBase, TopicRuns.Apply, FindLive;
    BaseAgain(base, hub.registry, back.url, d);
    RegistryStep(ttl, base, hub, back);
    if !back.call.Respond? {
      RequestIsNoDiscovery(hub, back);
    }
  }

  // ---------- from the router to the entry points ----------

  /** The default handler whose event the entry point for the payload listens to. */
  function HandlerFor(b: Body): (i: nat)
    ensures i < |DEFAULT_HANDLERS|
  {
    match b
    case DiscoveryBody(_, _) => 0
    case AssignBody(_, _, _) => 1
    case AckBody => 4
    case UpgradeBody(_, _, _) => 5
    case HeartbeatBody(_, _) => 6
    case RebootBody(_, _) => 7
    case TelemetryBody(_, _) => 8
    case HardwareBody(_, _) => 9
  }

  lemma EventsDistinct(i: nat, j: nat)
    requires i < |DEFAULT_HANDLERS| && j < |DEFAULT_HANDLERS| && DEFAULT_HANDLERS[i].event == DEFAULT_HANDLERS[j].event
    ensures i == j
  {
    var x, y := DEFAULT_HANDLERS[i].event, DEFAULT_HANDLERS[j].event;
    assert |x| == |y| && x[13] == y[13] && x[14] == y[14] && x[|x| - 3] == y[|y| - 3];
  }

  lemma EntrySuffix(b: Body)
    ensures DEFAULT_HANDLERS[HandlerFor(b)].suffix == EventSuffix(b)
  {
  }

  /**
   Every message the router sends to an entry point ends in the suffix the entry point asks for; so
   discovery and assignment turn away exactly the messages without a response id, and the other six none.
   */
  lemma RoutedIsAdmittedIff(topic: string, env: Envelope, b: Body)
    requires EventFor(DEFAULT_HANDLERS, topic) == DEFAULT_HANDLERS[HandlerFor(b)].event
    ensures Admitted(topic, env, b) <==> (b.DiscoveryBody? || b.AssignBody? ==> env.responseId != "")
  {
    hide MessageRouter.SortByPriority, MessageRouter.FirstMatch;
    var i := MessageRouter.SortedFirstMatchIsChosen(DEFAULT_HANDLERS, topic);
    RoutedBy(topic, i, HandlerFor(b));
    EntrySuffix(b);
  }

  lemma RoutedBy(topic: string, i: int, j: nat)
    requires j < |DEFAULT_HANDLERS| && EventFor(DEFAULT_HANDLERS, topic) == DEFAULT_HANDLERS[j].event
    requires MessageRouter.FirstMatch(MessageRouter.SortByPriority(DEFAULT_HANDLERS), topic).Some? ==>
               0 <= i < |DEFAULT_HANDLERS| && MessageRouter.CanHandle(DEFAULT_HANDLERS[i], topic)
               && EventFor(DEFAULT_HANDLERS, topic) == DEFAULT_HANDLERS[i].event
    ensures MessageRouter.CanHandle(DEFAULT_HANDLERS[j], topic)
  {
    hide MessageRouter.SortByPriority, MessageRouter.FirstMatch, MessageRouter.CanHandle;
    DefaultEventsKnown();
    if MessageRouter.FirstMatch(MessageRouter.SortByPriority(DEFAULT_HANDLERS), topic).Some? {
      EventsDistinct(i, j);
    }
  }
}
