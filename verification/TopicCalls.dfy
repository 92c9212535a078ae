/** Which records a run of registry calls leaves, and when their topic strings differ, told from the calls alone. */
module TopicCalls {
  import opened TopicNames
  import opened TopicRegistry
  import opened TopicRuns

  /** The kinds of record, with the ids a call gives them. */
  datatype Kind = BaseOf(deviceId: string) | UseOf(deviceId: string, uc: UseCase) | Discovered | Printed

  /** The call asks for a record of this kind; a discovery only does when there is a broadcast topic. */
  predicate Makes(call: Call, available: bool, m: Kind) {
    match call
    case Connect(_) => m == UseOf(BROKER_DEVICE, Broadcast)
    case CreateOne(_, d, uc) => m == UseOf(d, uc)
    case CreateBase(_, d) => m == BaseOf(d)
    case CreateAllFor(_, d) => !m.Discovered? && !m.Printed? && m.deviceId == d
    case DiscoverBroadcast(_) => available && m.Discovered?
    case DiscoverUnicast(_) => available && m.Printed?
    case Disconnect => false
  }

  /** A broadcast topic has been introduced and no disconnect has followed. */
  ghost predicate Broadcasting(calls: seq<Call>) {
    Introduced(calls) && !LostSince(calls)
  }

  ghost predicate MadeAt(calls: seq<Call>, i: nat, m: Kind)
    requires i < |calls|
  {
    Makes(calls[i], Broadcasting(calls[..i]), m)
  }

  ghost predicate Made(calls: seq<Call>, m: Kind) {
    exists i: nat :: i < |calls| && MadeAt(calls, i, m)
  }

  /** One kind's device id spells out what the other's topic appends. */
  predicate Spells(base: string, m: Kind, other: Kind) {
    match other
    case BaseOf(_) => false
    case UseOf(d, uc) => m == BaseOf(d + "/" + UseCaseText(uc))
    case Discovered =>
      m == BaseOf(BroadcastPath() + "/" + UseCaseText(Discovery)) || m == UseOf(BroadcastPath(), Discovery)
    case Printed => base == PRINTED_OBJECT && m == BaseOf(UseCaseText(Discovery))
  }

  /** A record of this kind under its key. */
  predicate IsKind(base: string, m: Kind, t: Topic) {
    match m
    case BaseOf(d) => t.deviceId == d && IsBaseRecord(base, t)
    case UseOf(d, uc) => t.deviceId == d && t.useCase == uc && IsDeviceRecord(base, t)
    case Discovered => IsDiscoveryRecord(base, t)
    case Printed => IsPrintedRecord(t)
  }

  ghost predicate Holds(base: string, reg: Registry, m: Kind) {
    exists t :: t in reg && IsKind(base, m, t)
  }

  /** Every shaped record is of one kind. */
  lemma OneKind(base: string, t: Topic, m: Kind, m': Kind)
    requires IsKind(base, m, t) && IsKind(base, m', t)
    ensures m == m'
  {
    hide DeviceTopic, BaseTopic, DiscoveryOf, Plain, BroadcastPath;
    BaseMeetsDeviceTopicIff(base, t.deviceId, t.deviceId, t.useCase);
    DeepDiscovery(base);
    PrintedIsNoDeviceTopic(base, t.deviceId, t.useCase);
    PrintedIsNoDeviceTopic(base, BroadcastPath(), Discovery);
    if IsDeviceRecord(base, t) && IsDiscoveryRecord(base, t) {
      DeviceTopicInjective(base, t.deviceId, t.useCase, BroadcastPath(), Discovery);
      BroadcastPathIsLong();
    }
  }

  lemma SomeKind(base: string, t: Topic) returns (m: Kind)
    requires Shaped(base, t)
    ensures IsKind(base, m, t)
  {
    m := if IsDeviceRecord(base, t) then UseOf(t.deviceId, t.useCase)
         else if IsBaseRecord(base, t) then BaseOf(t.deviceId)
         else if IsDiscoveryRecord(base, t) then Discovered else Printed;
  }

  lemma SpellsIsCollides(base: string, a: Topic, b: Topic, m: Kind, n: Kind)
    requires IsKind(base, m, a) && IsKind(base, n, b)
    ensures Collides(base, a, b) <==> Spells(base, m, n)
  {
    hide DeviceTopic, BaseTopic, DiscoveryOf, Plain, BroadcastPath,
      IsDeviceRecord, IsBaseRecord, IsDiscoveryRecord, IsPrintedRecord;
    if IsDeviceRecord(base, a) { OneKind(base, a, m, UseOf(a.deviceId, a.useCase)); }
    if IsBaseRecord(base, a) { OneKind(base, a, m, BaseOf(a.deviceId)); }
    if IsDeviceRecord(base, b) { OneKind(base, b, n, UseOf(b.deviceId, b.useCase)); }
    if IsDiscoveryRecord(base, b) { OneKind(base, b, n, Discovered); }
    if IsPrintedRecord(b) { OneKind(base, b, n, Printed); }
  }

  // ---------- what each call adds ----------

  /** `reg'` holds what `reg` does and the kinds asked for. */
  ghost predicate Adds(base: string, reg: Registry, reg': Registry, kinds: iset<Kind>) {
    forall m :: Holds(base, reg', m) <==> Holds(base, reg, m) || m in kinds
  }

  lemma StoreAdds(base: string, reg: Registry, url: string, d: string, text: string, uc: UseCase, m: Kind)
    requires IsKind(base, m, Topic(url, d, text, uc, true))
    ensures Adds(base, reg, StoredTopic(reg, url, d, text, uc).0, iset{m})
  {
    hide DeviceTopic, BaseTopic, DiscoveryOf, Plain;
    var reg' := StoredTopic(reg, url, d, text, uc).0;
    var t := StoredTopic(reg, url, d, text, uc).1;
    assert t in reg' && IsKind(base, m, t);
    forall k ensures Holds(base, reg', k) <==> Holds(base, reg, k) || k == m {
      if x :| x in reg' && IsKind(base, k, x) {
        if x !in reg {
          OneKind(base, x, k, m);
        }
      }
      if x :| x in reg && IsKind(base, k, x) {
        assert x in reg';
      }
    }
  }

  lemma CreateAdds(base: string, reg: Registry, url: string, d: string, uc: UseCase)
    requires Inv(base, reg)
    ensures Adds(base, reg, CreatedTopic(reg, base, url, d, uc).0, iset{UseOf(d, uc)})
  {
    hide DeviceTopic, BaseTopic, DiscoveryOf, Plain;
    var text := DeviceTopic(base, d, uc);
    match ByBrokerKey(reg, url, text, d) {
      case Some(t) =>
        KeyDeterminesUseCase(base, t, uc);
        assert t in reg && IsKind(base, UseOf(d, uc), t);
      case None => StoreAdds(base, reg, url, d, text, uc, UseOf(d, uc));
    }
  }

  ghost function UsesOf(d: string, ucs: seq<UseCase>): iset<Kind> {
    iset m: Kind | m.UseOf? && m.deviceId == d && m.uc in ucs
  }

  lemma {:induction false} CreateEachAdds(base: string, reg: Registry, url: string, d: string, ucs: seq<UseCase>)
    requires Inv(base, reg)
    ensures Adds(base, reg, CreatedEach(reg, base, url, d, ucs).0, UsesOf(d, ucs))
    decreases |ucs|
  {
    hide Inv, IsKind, CreatedTopic, Holds;
    if ucs != [] {
      var reg1 := CreatedTopic(reg, base, url, d, ucs[0]).0;
      CreateAdds(base, reg, url, d, ucs[0]);
      CreateKeepsInv(base, reg, url, d, ucs[0]);
      CreateEachAdds(base, reg1, url, d, ucs[1..]);
      assert ucs == [ucs[0]] + ucs[1..];
    }
  }

  lemma CreateAllAdds(base: string, reg: Registry, url: string, d: string)
    requires Inv(base, reg)
    ensures Adds(base, reg, CreatedAll(reg, base, url, d).0, iset m: Kind | Makes(CreateAllFor(url, d), true, m))
  {
    hide Inv, IsKind, StoredTopic, Holds, Makes, UsesOf;
    var reg1 := CreatedBase(reg, base, url, d).0;
    BaseIsKind(base, url, d);
    StoreAdds(base, reg, url, d, BaseTopic(base, d), DeviceBase, BaseOf(d));
    CreateBaseKeepsInv(base, reg, url, d);
    CreateEachAdds(base, reg1, url, d, USE_CASES);
    AllKinds(url, d);
  }

  lemma AllKinds(url: string, d: string)
    ensures forall m: Kind :: Makes(CreateAllFor(url, d), true, m) <==> m == BaseOf(d) || m in UsesOf(d, USE_CASES)
  {
    forall uc ensures uc in USE_CASES {
      var i := UseCaseIndex(uc);
    }
  }

  lemma BaseIsKind(base: string, url: string, d: string)
    ensures IsKind(base, BaseOf(d), Topic(url, d, BaseTopic(base, d), DeviceBase, true))
  {
  }

  lemma MarkedKind(base: string, m: Kind, t: Topic)
    ensures IsKind(base, m, t.(isSubscribed := false)) <==> IsKind(base, m, t)
  {
  }

  lemma UnsubscribeAdds(base: string, reg: Registry)
    ensures Adds(base, reg, Unsubscribe(reg), iset{})
  {
    hide IsKind;
    var reg' := Unsubscribe(reg);
    forall m ensures Holds(base, reg', m) <==> Holds(base, reg, m) {
      if t :| t in reg && IsKind(base, m, t) {
        var i :| 0 <= i < |reg| && reg[i] == t;
        MarkedKind(base, m, t);
        assert reg'[i] in reg' && IsKind(base, m, reg'[i]);
      }
      if t :| t in reg' && IsKind(base, m, t) {
        var i :| 0 <= i < |reg'| && reg'[i] == t;
        MarkedKind(base, m, reg[i]);
        assert reg[i] in reg && IsKind(base, m, reg[i]);
      }
    }
  }

  lemma ApplyAdds(base: string, reg: Registry, call: Call)
    requires Inv(base, reg)
    ensures Adds(base, reg, Apply(reg, base, call), iset m: Kind | Makes(call, BroadcastTopic(reg).Some?, m))
  {
    hide Inv, Holds, StoredTopic, BroadcastTopic, DeviceTopic, BaseTopic, DiscoveryOf, Plain,
      CreatedAll, CreatedTopic, Unsubscribe;
    match call {
      case Connect(url) => CreateAdds(base, reg, url, BROKER_DEVICE, Broadcast);
      case CreateOne(url, d, uc) => CreateAdds(base, reg, url, d, uc);
      case CreateBase(url, d) => StoreAdds(base, reg, url, d, BaseTopic(base, d), DeviceBase, BaseOf(d));
      case CreateAllFor(url, d) => CreateAllAdds(base, reg, url, d);
      case DiscoverBroadcast(url) =>
        if BroadcastTopic(reg).Some? {
          BroadcastIsPlain(base, reg);
          StoreAdds(base, reg, url, BROKER_DEVICE, DiscoveryOf(Plain(base)), Broadcast, Discovered);
        }
      case DiscoverUnicast(url) =>
        if BroadcastTopic(reg).Some? {
          StoreAdds(base, reg, url, BROKER_DEVICE, DiscoveryOf(PRINTED_OBJECT), Broadcast, Printed);
        }
      case Disconnect => UnsubscribeAdds(base, reg);
    }
  }

  // ---------- over runs ----------

  lemma MadeStep(calls: seq<Call>, m: Kind)
    requires calls != []
    ensures
      var n := |calls| - 1;
      Made(calls, m) <==> Made(calls[..n], m) || Makes(calls[n], Broadcasting(calls[..n]), m)
  {
    var n := |calls| - 1;
    if i: nat :| i < n && MadeAt(calls[..n], i, m) {
      assert calls[..n][..i] == calls[..i];
      assert MadeAt(calls, i, m);
    }
    if i: nat :| i < |calls| && MadeAt(calls, i, m) {
      if i < n {
        assert calls[..n][..i] == calls[..i];
        assert MadeAt(calls[..n], i, m);
      }
    }
    if Makes(calls[n], Broadcasting(calls[..n]), m) {
      assert MadeAt(calls, n, m);
    }
  }

  /** The registry holds a record of a kind exactly when some call of the run has asked for it. */
  lemma {:induction false} HoldsIff(base: string, calls: seq<Call>, m: Kind)
    ensures Holds(base, Run(base, calls), m) <==> Made(calls, m)
    decreases |calls|
  {
    hide Inv, Holds, Apply, Made, Makes, BroadcastTopic, Introduced, LostSince;
    if calls == [] {
      NothingHeld(base, m);
    } else {
      var n := |calls| - 1;
      HoldsIff(base, calls[..n], m);
      RunKeepsInv(base, calls[..n]);
      ApplyAdds(base, Run(base, calls[..n]), calls[n]);
      PlainIff(base, calls[..n]);
      MadeStep(calls, m);
    }
  }

  lemma NothingHeld(base: string, m: Kind)
    ensures !Holds(base, [], m) && !Made([], m)
  {
  }

  /**
   The declared unique column holds in a run exactly when no two of its calls ask for records of which one's
   device id spells out what the other's topic appends.
   */
  lemma UniqueByCallsIff(base: string, calls: seq<Call>)
    ensures (forall i, j :: 0 <= i < j < |Run(base, calls)| ==> Run(base, calls)[i].topic != Run(base, calls)[j].topic)
       <==> forall m, n :: Made(calls, m) && Made(calls, n) ==> !Spells(base, m, n)
  {
    hide Inv, Collides, Made, IsKind, Spells, Run, Shaped;
    var reg := Run(base, calls);
    TopicColumnUniqueIff(base, calls);
    forall a, b | a in reg && b in reg && Collides(base, a, b)
      ensures exists m, n :: Made(calls, m) && Made(calls, n) && Spells(base, m, n)
    {
      var m := StoredKind(base, calls, a);
      var n := StoredKind(base, calls, b);
      SpellsIsCollides(base, a, b, m, n);
    }
    forall m, n | Made(calls, m) && Made(calls, n) && Spells(base, m, n)
      ensures exists a, b :: a in reg && b in reg && Collides(base, a, b)
    {
      HoldsIff(base, calls, m);
      HoldsIff(base, calls, n);
      var a :| a in reg && IsKind(base, m, a);
      var b :| b in reg && IsKind(base, n, b);
      SpellsIsCollides(base, a, b, m, n);
    }
  }

  lemma StoredKind(base: string, calls: seq<Call>, t: Topic) returns (m: Kind)
    requires t in Run(base, calls)
    ensures IsKind(base, m, t) && Made(calls, m)
  {
    hide IsKind, Made, Run, Shaped;
    RunKeepsInv(base, calls);
    m := SomeKind(base, t);
    HoldsIff(base, calls, m);
  }

  // ---------- broker and subscription of a record ----------

  /** The rows from `from` on are new: subscribed, under the call's broker URL. */
  predicate NewRows(reg: Registry, from: nat, url: string) {
    forall x :: from <= x < |reg| ==> reg[x].isSubscribed && reg[x].brokerUrl == url
  }

  lemma {:induction false} CreatedEachRows(reg: Registry, base: string, url: string, d: string, ucs: seq<UseCase>, from: nat)
    requires NewRows(reg, from, url)
    ensures NewRows(CreatedEach(reg, base, url, d, ucs).0, from, url)
    decreases |ucs|
  {
    hide DeviceTopic, ByBrokerKey, ByUseCaseKey;
    if ucs != [] {
      CreatedEachRows(CreatedTopic(reg, base, url, d, ucs[0]).0, base, url, d, ucs[1..], from);
    }
  }

  lemma ApplyRows(base: string, reg: Registry, call: Call)
    requires !call.Disconnect?
    ensures NewRows(Apply(reg, base, call), |reg|, call.url)
  {
    hide DeviceTopic, BaseTopic, DiscoveryOf, ByBrokerKey, ByUseCaseKey, BroadcastTopic;
    if call.CreateAllFor? {
      CreatedEachRows(CreatedBase(reg, base, call.url, call.deviceId).0, base, call.url, call.deviceId, USE_CASES, |reg|);
    }
  }

  /** Call `i` of the run has stored row `x`. */
  predicate RowStoredBy(base: string, calls: seq<Call>, i: nat, x: nat)
    requires i < |calls|
  {
    !calls[i].Disconnect? && |Run(base, calls[..i])| <= x < |Run(base, calls[..i + 1])|
  }

  /** Every record was stored by one call, keeps its broker URL, and is subscribed exactly until the next disconnect. */
  lemma {:induction false} RowTold(base: string, calls: seq<Call>, x: nat) returns (i: nat)
    requires x < |Run(base, calls)|
    ensures i < |calls| && RowStoredBy(base, calls, i, x) && Run(base, calls)[x].brokerUrl == calls[i].url
    ensures Run(base, calls)[x].isSubscribed <==> forall j :: i < j < |calls| ==> !calls[j].Disconnect?
    decreases |calls|
  {
    hide Apply, Inv;
    assert |calls| > 0;
    var n := |calls| - 1;
    var before := Run(base, calls[..n]);
    RunKeepsInv(base, calls[..n]);
    ApplyKeepsInv(base, before, calls[n]);
    assert calls[..n + 1] == calls;
    if x < |before| || calls[n].Disconnect? {
      DisconnectRows(base, before, calls[n]);
      i := RowTold(base, calls[..n], x);
      assert calls[..n][..i] == calls[..i] && calls[..n][..i + 1] == calls[..i + 1];
    } else {
      i := n;
      ApplyRows(base, before, calls[n]);
    }
  }

  lemma DisconnectRows(base: string, reg: Registry, call: Call)
    ensures call.Disconnect? ==>
      && |Apply(reg, base, call)| == |reg|
      && forall x :: 0 <= x < |reg| ==> Apply(reg, base, call)[x] == reg[x].(isSubscribed := false)
  {
  }
}
