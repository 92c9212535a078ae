/** The topic registry of a device run, told from its steps: which topics there are, and when broadcast discovery works. */
module DeviceRegistry {
  import opened Text
  import opened TopicNames
  import opened TopicRegistry
  import opened TopicCalls
  import opened DeviceFlow
  import opened DeviceCorrelation
  import opened DeviceLifecycle
  import opened DeviceTopics
  import opened DeviceRecords
  import opened DeviceAnswers
  import TopicRuns

  /** The step asks the registry for a topic of this kind. */
  predicate Registers(hub: Hub, st: Step, m: Kind) {
    match st.call
    case Connect => m == UseOf(BROKER_DEVICE, Broadcast)
    case AskBroadcast(_, _) => m.Discovered? && HasBroadcast(hub.registry)
    case AskUnicast(_, _) => m.Printed? && HasBroadcast(hub.registry)
    case AskHardware(_, d, _) => m == UseOf(d, HardwareStatus) && HasLive(hub.sensors, d)
    case Respond(topic, env, DiscoveryBody(_, Some(data))) =>
      && ReachesStrictly(hub, topic, env, "/discovery")
      && (|| m == BaseOf(data.deviceId)
          || (m.UseOf? && m.deviceId == data.deviceId && !IsKnown(hub.sensors, data.deviceId) && st.online && st.granted > 0))
    case _ => false
  }

  ghost predicate AnyMakes(reg: Registry, calls: seq<TopicRuns.Call>, m: Kind) {
    exists i :: 0 <= i < |calls| && Makes(calls[i], HasBroadcast(reg), m)
  }

  lemma BroadcastIs(reg: Registry)
    ensures BroadcastTopic(reg).Some? <==> HasBroadcast(reg)
  {
  }

  /** The registry calls behind a step ask for what the step does. */
  lemma CallsRegister(hub: Hub, st: Step, m: Kind)
    requires Sane(hub.sensors)
    ensures AnyMakes(hub.registry, RegistryCalls(hub, st), m) <==> Registers(hub, st, m)
  {
    hide FindLive, FindAny, HasLive, IsKnown, Sane, HasBroadcast, Validate, EndsWith;
    var calls := RegistryCalls(hub, st);
    assert |calls| == 1 ==> (AnyMakes(hub.registry, calls, m) <==> Makes(calls[0], HasBroadcast(hub.registry), m));
    assert |calls| == 2 ==> (AnyMakes(hub.registry, calls, m)
                        <==> Makes(calls[0], HasBroadcast(hub.registry), m) || Makes(calls[1], HasBroadcast(hub.registry), m));
    match st.call {
      case AskHardware(_, d, _) => FindsTold(hub.sensors, d);
      case Respond(topic, env, DiscoveryBody(_, Some(data))) => FindsTold(hub.sensors, data.deviceId);
      case _ =>
    }
  }

  lemma AppliedAdds(base: string, reg: Registry, calls: seq<TopicRuns.Call>, m: Kind)
    requires TopicRuns.Inv(base, reg) && |calls| <= 2
    requires |calls| == 2 ==> calls[0].CreateBase? && calls[1].CreateAllFor?
    ensures Holds(base, Applied(base, reg, calls), m) <==> Holds(base, reg, m) || AnyMakes(reg, calls, m)
  {
    hide TopicRuns.Inv, TopicRuns.Apply, Holds, HasBroadcast, BroadcastTopic;
    BroadcastIs(reg);
    if calls != [] {
      ApplyAdds(base, reg, calls[0]);
      if |calls| == 2 {
        TopicRuns.ApplyKeepsInv(base, reg, calls[0]);
        ApplyAdds(base, TopicRuns.Apply(reg, base, calls[0]), calls[1]);
      }
    }
  }

  lemma RegistersStep(ttl: int, base: string, hub: Hub, st: Step, m: Kind)
    requires Sane(hub.sensors) && TopicRuns.Inv(base, hub.registry)
    ensures Holds(base, Apply(ttl, base, hub, st).hub.registry, m) <==> Holds(base, hub.registry, m) || Registers(hub, st, m)
  {
    hide Apply, TopicRuns.Inv, Holds, Applied, Registers, AnyMakes, FindLive, FindAny, AcceptedDiscovery, Sane;
    RegistryStep(ttl, base, hub, st);
    AppliedAdds(base, hub.registry, RegistryCalls(hub, st), m);
    CallsRegister(hub, st, m);
  }

  lemma TraceRegisters(ttl: int, base: string, steps: seq<Step>, hubs: seq<Hub>, n: nat, m: Kind)
    requires Trace(ttl, base, steps, hubs) && n < |steps|
    ensures Holds(base, hubs[n + 1].registry, m) <==> Holds(base, hubs[n].registry, m) || Registers(hubs[n], steps[n], m)
  {
    hide Apply, TopicRuns.Inv, Holds, Registers, Sane, TopicRuns.Run;
    AlwaysSane(ttl, base, steps, hubs, n);
    RegistryIsRun(ttl, base, steps, hubs, n);
    assert Stepped(ttl, base, steps, hubs, n);
    RegistersStep(ttl, base, hubs[n], steps[n], m);
  }

  /** At every moment of every run the registry holds a topic of a kind exactly if some step has asked for it. */
  lemma {:induction false} TopicsTold(ttl: int, base: string, steps: seq<Step>, hubs: seq<Hub>, n: nat, m: Kind)
    requires Trace(ttl, base, steps, hubs) && n <= |steps|
    ensures Holds(base, hubs[n].registry, m) <==> exists i :: 0 <= i < n && Registers(hubs[i], steps[i], m)
    decreases n
  {
    hide Stepped, Holds, Registers;
    if n == 0 {
      NothingHeld(base, m);
    } else {
      TopicsTold(ttl, base, steps, hubs, n - 1, m);
      TraceRegisters(ttl, base, steps, hubs, n - 1, m);
    }
  }

  // ---------- when broadcast discovery works ----------

  /** The step introduces the broadcast topic: a connection, or a first discovery of a device that has the broker's id. */
  ghost predicate IntroducedAt(steps: seq<Step>, hubs: seq<Hub>, i: int)
    requires 0 <= i < |steps| < |hubs|
  {
    Registers(hubs[i], steps[i], UseOf(BROKER_DEVICE, Broadcast))
  }

  ghost predicate IntroducedBy(steps: seq<Step>, hubs: seq<Hub>, n: nat)
    requires n <= |steps| < |hubs|
  {
    exists i :: 0 <= i < n && IntroducedAt(steps, hubs, i)
  }

  /** A disconnect has come after the topic was introduced. */
  ghost predicate LostBy(steps: seq<Step>, hubs: seq<Hub>, n: nat)
    requires n <= |steps| < |hubs|
  {
    exists i, j :: 0 <= i < j < n && IntroducedAt(steps, hubs, i) && steps[j].call.Disconnect?
  }

  lemma AppliedAvailable(base: string, reg: Registry, calls: seq<TopicRuns.Call>, introduced: bool, lost: bool)
    requires TopicRuns.Inv(base, reg) && TopicRuns.Available(base, reg, introduced, lost) && (lost ==> introduced)
    requires |calls| <= 2 && (|calls| == 2 ==> calls[0].CreateBase? && calls[1].CreateAllFor?)
    ensures TopicRuns.Available(base, Applied(base, reg, calls),
                                introduced || exists i :: 0 <= i < |calls| && TopicRuns.Introduces(calls[i]),
                                lost || (introduced && |calls| == 1 && calls[0].Disconnect?))
  {
    hide TopicRuns.Inv, TopicRuns.Apply, TopicRuns.Available;
    if calls != [] {
      TopicRuns.AvailableStep(base, reg, calls[0], introduced, lost);
      if |calls| == 2 {
        TopicRuns.ApplyKeepsInv(base, reg, calls[0]);
        TopicRuns.AvailableStep(base, TopicRuns.Apply(reg, base, calls[0]), calls[1], introduced, lost);
      }
    }
  }

  lemma CallsIntroduce(hub: Hub, st: Step)
    requires Sane(hub.sensors)
    ensures
      var calls := RegistryCalls(hub, st);
      && (|calls| == 2 ==> calls[0].CreateBase? && calls[1].CreateAllFor?)
      && ((exists i :: 0 <= i < |calls| && TopicRuns.Introduces(calls[i])) <==> Registers(hub, st, UseOf(BROKER_DEVICE, Broadcast)))
      && (st.call.Disconnect? <==> |calls| == 1 && calls[0].Disconnect?)
  {
    hide FindLive, FindAny, HasLive, IsKnown, Sane, HasBroadcast, Validate, EndsWith;
    var calls := RegistryCalls(hub, st);
    assert |calls| == 1 ==> ((exists i :: 0 <= i < |calls| && TopicRuns.Introduces(calls[i])) <==> TopicRuns.Introduces(calls[0]));
    assert |calls| == 2 ==> ((exists i :: 0 <= i < |calls| && TopicRuns.Introduces(calls[i]))
                        <==> TopicRuns.Introduces(calls[0]) || TopicRuns.Introduces(calls[1]));
    match st.call {
      case AskHardware(_, d, _) => FindsTold(hub.sensors, d);
      case Respond(topic, env, DiscoveryBody(_, Some(data))) => FindsTold(hub.sensors, data.deviceId);
      case _ =>
    }
  }

  lemma {:induction false} AvailableTold(ttl: int, base: string, steps: seq<Step>, hubs: seq<Hub>, n: nat)
    requires Trace(ttl, base, steps, hubs) && n <= |steps|
    ensures TopicRuns.Available(base, hubs[n].registry, IntroducedBy(steps, hubs, n), LostBy(steps, hubs, n))
    decreases n
  {
    hide Apply, TopicRuns.Inv, TopicRuns.Apply, IntroducedAt, Sane, TopicRuns.Run, Applied, RegistryCalls, Registers;
    if n > 0 {
      hide TopicRuns.Available;
      var hub, st := hubs[n - 1], steps[n - 1];
      AvailableTold(ttl, base, steps, hubs, n - 1);
      AlwaysSane(ttl, base, steps, hubs, n - 1);
      RegistryIsRun(ttl, base, steps, hubs, n - 1);
      assert Stepped(ttl, base, steps, hubs, n - 1);
      RegistryStep(ttl, base, hub, st);
      CallsIntroduce(hub, st);
      IntroducedNow(steps, hubs, n - 1);
      AppliedAvailable(base, hub.registry, RegistryCalls(hub, st), IntroducedBy(steps, hubs, n - 1), LostBy(steps, hubs, n - 1));
      assert IntroducedBy(steps, hubs, n) <==> IntroducedBy(steps, hubs, n - 1) || IntroducedAt(steps, hubs, n - 1);
      LostStep(steps, hubs, n);
    }
  }

  lemma IntroducedNow(steps: seq<Step>, hubs: seq<Hub>, i: nat)
    requires i < |steps| < |hubs|
    ensures IntroducedAt(steps, hubs, i) <==> Registers(hubs[i], steps[i], UseOf(BROKER_DEVICE, Broadcast))
  {
  }

  lemma LostStep(steps: seq<Step>, hubs: seq<Hub>, n: nat)
    requires 0 < n <= |steps| < |hubs|
    ensures LostBy(steps, hubs, n)
       <==> LostBy(steps, hubs, n - 1) || (IntroducedBy(steps, hubs, n - 1) && steps[n - 1].call.Disconnect?)
  {
    hide IntroducedAt;
  }

  /**
   At every moment of every run broadcast discovery finds its topic exactly if the backend has connected, or stored a
   device under the broker's id, and has not disconnected since it first did.
   */
  lemma BroadcastTold(ttl: int, base: string, steps: seq<Step>, hubs: seq<Hub>, n: nat)
    requires Trace(ttl, base, steps, hubs) && n <= |steps|
    ensures HasBroadcast(hubs[n].registry)
       <==> && (exists i :: 0 <= i < n && IntroducedAt(steps, hubs, i))
            && !(exists i, j :: 0 <= i < j < n && IntroducedAt(steps, hubs, i) && steps[j].call.Disconnect?)
  {
    hide IntroducedAt, HasBroadcast, BroadcastTopic;
    AvailableTold(ttl, base, steps, hubs, n);
    BroadcastIs(hubs[n].registry);
  }
}
