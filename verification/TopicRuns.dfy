/** What every run of registry calls keeps, whatever broker URL each call is configured with. */
module TopicRuns {
  import opened Text
  import opened TopicNames
  import opened TopicRegistry

  datatype Call =
    | Connect(url: string)
    | CreateOne(url: string, deviceId: string, uc: UseCase)
    | CreateBase(url: string, deviceId: string)
    | CreateAllFor(url: string, deviceId: string)
    | DiscoverBroadcast(url: string)
    | DiscoverUnicast(url: string)
    | Disconnect

  /** `${broadcastTopic}` of a record object, as the unicast discovery prints it. */
  const PRINTED_OBJECT := "[object Object]"

  function DiscoveryOf(text: string): string {
    text + "/" + UseCaseText(Discovery)
  }

  function Apply(reg: Registry, base: string, call: Call): Registry {
    match call
    case Connect(url) => CreatedTopic(reg, base, url, BROKER_DEVICE, Broadcast).0
    case CreateOne(url, d, uc) => CreatedTopic(reg, base, url, d, uc).0
    case CreateBase(url, d) => CreatedBase(reg, base, url, d).0
    case CreateAllFor(url, d) => CreatedAll(reg, base, url, d).0
    case DiscoverBroadcast(url) =>
      (match BroadcastTopic(reg)
       case None => reg
       case Some(t) => StoredTopic(reg, url, BROKER_DEVICE, DiscoveryOf(t.topic), Broadcast).0)
    case DiscoverUnicast(url) =>
      (match BroadcastTopic(reg)
       case None => reg
       case Some(t) => StoredTopic(reg, url, BROKER_DEVICE, DiscoveryOf(PRINTED_OBJECT), Broadcast).0)
    case Disconnect => Unsubscribe(reg)
  }

  function Run(base: string, calls: seq<Call>): Registry {
    if calls == [] then [] else Apply(Run(base, calls[..|calls| - 1]), base, calls[|calls| - 1])
  }

  function Plain(base: string): string {
    DeviceTopic(base, BROKER_DEVICE, Broadcast)
  }

  // ---------- one record at a time ----------

  ghost predicate SameKey(a: Topic, b: Topic) {
    a.topic == b.topic && a.useCase == b.useCase && a.deviceId == b.deviceId
  }

  /** A device's use-case topic, its base topic, or a discovery topic kept under the broadcast use case. */
  ghost predicate Shaped(base: string, t: Topic) {
    || t.topic == DeviceTopic(base, t.deviceId, t.useCase)
    || (t.topic == BaseTopic(base, t.deviceId) && t.useCase == DeviceBase)
    || (IsBroadcast(t) && (t.topic == DiscoveryOf(Plain(base)) || t.topic == DiscoveryOf(PRINTED_OBJECT)))
  }

  /** The registry invariant: no two records share a key, every record is shaped, and among the broadcast
   records the plain one comes first and is subscribed if any is. */
  ghost predicate Inv(base: string, reg: Registry) {
    && (forall i, j :: 0 <= i < j < |reg| ==> !SameKey(reg[i], reg[j]))
    && (forall t :: t in reg ==> Shaped(base, t))
    && (forall i :: 0 <= i < |reg| && IsBroadcast(reg[i]) ==> PlainBefore(base, reg, i))
  }

  ghost predicate PlainBefore(base: string, reg: Registry, i: int)
    requires 0 <= i < |reg|
  {
    exists p :: 0 <= p <= i && IsPlain(base, reg[p]) && (reg[i].isSubscribed ==> reg[p].isSubscribed)
  }

  predicate IsPlain(base: string, t: Topic) {
    IsBroadcast(t) && t.topic == Plain(base)
  }

  lemma {:induction false} FindOneFirst(reg: Registry, p: Topic -> bool, i: nat)
    requires i < |reg| && p(reg[i]) && forall j :: 0 <= j < i ==> !p(reg[j])
    ensures FindOne(reg, p) == Some(reg[i])
  {
    if i > 0 {
      FindOneFirst(reg[1..], p, i - 1);
    }
  }

  lemma {:induction false} FindOneAppend(reg: Registry, p: Topic -> bool, more: Registry)
    ensures FindOne(reg + more, p) == if FindOne(reg, p).Some? then FindOne(reg, p) else FindOne(more, p)
  {
    if reg == [] {
      assert reg + more == more;
    } else {
      assert (reg + more)[1..] == reg[1..] + more;
      FindOneAppend(reg[1..], p, more);
    }
  }

  /** In a registry with the invariant, the broadcast topic found is the plain one. */
  lemma BroadcastIsPlain(base: string, reg: Registry)
    requires Inv(base, reg)
    ensures BroadcastTopic(reg).Some? ==> IsPlain(base, BroadcastTopic(reg).value)
    ensures BroadcastTopic(reg).Some? <==> exists t :: t in reg && IsPlain(base, t) && t.isSubscribed
  {
    if BroadcastTopic(reg).Some? {
      var t := BroadcastTopic(reg).value;
      var i :| 0 <= i < |reg| && reg[i] == t;
      assert PlainBefore(base, reg, i);
      var p :| 0 <= p <= i && IsPlain(base, reg[p]) && reg[p].isSubscribed;
      PlainComesFirst(base, reg, p);
      FindOneFirst(reg, (t: Topic) => IsBroadcast(t) && t.isSubscribed, p);
      assert BroadcastTopic(reg) == Some(reg[p]);
      assert reg[p] in reg;
    }
  }

  lemma PlainComesFirst(base: string, reg: Registry, p: nat)
    requires Inv(base, reg) && p < |reg| && IsPlain(base, reg[p])
    ensures forall j :: 0 <= j < p ==> !IsBroadcast(reg[j])
  {
    forall j | 0 <= j < p ensures !IsBroadcast(reg[j]) {
      if IsBroadcast(reg[j]) {
        assert PlainBefore(base, reg, j);
        var q :| 0 <= q <= j && IsPlain(base, reg[q]);
        assert SameKey(reg[q], reg[p]);
      }
    }
  }

  // ---------- the creating calls keep the invariant ----------

  lemma StoreKeepsInv(base: string, reg: Registry, url: string, d: string, text: string, uc: UseCase)
    requires Inv(base, reg)
    requires Shaped(base, Topic(url, d, text, uc, true))
    requires uc == Broadcast && d == BROKER_DEVICE && text != Plain(base) ==> BroadcastTopic(reg).Some?
    ensures Inv(base, StoredTopic(reg, url, d, text, uc).0)
    ensures reg <= StoredTopic(reg, url, d, text, uc).0
  {
    if ByUseCaseKey(reg, text, uc, d).None? {
      var t := Topic(url, d, text, uc, true);
      var reg' := reg + [t];
      forall i | 0 <= i < |reg| ensures !SameKey(reg[i], t) {
        assert reg[i] in reg;
      }
      forall i | 0 <= i < |reg'| && IsBroadcast(reg'[i]) ensures PlainBefore(base, reg', i) {
        if i < |reg| {
          assert PlainBefore(base, reg, i);
          var p :| 0 <= p <= i && IsPlain(base, reg[p]) && (reg[i].isSubscribed ==> reg[p].isSubscribed);
          assert reg'[p] == reg[p];
        } else if text == Plain(base) {
          assert IsPlain(base, reg'[i]);
        } else {
          BroadcastIsPlain(base, reg);
          var s :| s in reg && IsPlain(base, s) && s.isSubscribed;
          var p :| 0 <= p < |reg| && reg[p] == s;
          assert reg'[p] == s;
        }
      }
    }
  }

  lemma CreateKeepsInv(base: string, reg: Registry, url: string, d: string, uc: UseCase)
    requires Inv(base, reg)
    ensures Inv(base, CreatedTopic(reg, base, url, d, uc).0)
    ensures reg <= CreatedTopic(reg, base, url, d, uc).0
  {
    StoreKeepsInv(base, reg, url, d, DeviceTopic(base, d, uc), uc);
  }

  lemma CreateBaseKeepsInv(base: string, reg: Registry, url: string, d: string)
    requires Inv(base, reg)
    ensures Inv(base, CreatedBase(reg, base, url, d).0)
    ensures reg <= CreatedBase(reg, base, url, d).0
  {
    StoreKeepsInv(base, reg, url, d, BaseTopic(base, d), DeviceBase);
  }

  lemma {:induction false} CreateEachKeepsInv(base: string, reg: Registry, url: string, d: string, ucs: seq<UseCase>)
    requires Inv(base, reg)
    ensures Inv(base, CreatedEach(reg, base, url, d, ucs).0)
    ensures reg <= CreatedEach(reg, base, url, d, ucs).0
    decreases |ucs|
  {
    if ucs != [] {
      CreateKeepsInv(base, reg, url, d, ucs[0]);
      CreateEachKeepsInv(base, CreatedTopic(reg, base, url, d, ucs[0]).0, url, d, ucs[1..]);
    }
  }

  lemma CreateAllKeepsInv(base: string, reg: Registry, url: string, d: string)
    requires Inv(base, reg)
    ensures Inv(base, CreatedAll(reg, base, url, d).0)
    ensures reg <= CreatedAll(reg, base, url, d).0
  {
    CreateBaseKeepsInv(base, reg, url, d);
    CreateEachKeepsInv(base, CreatedBase(reg, base, url, d).0, url, d, USE_CASES);
  }

  lemma UnsubscribeKeepsInv(base: string, reg: Registry)
    requires Inv(base, reg)
    ensures Inv(base, Unsubscribe(reg))
  {
    var reg' := Unsubscribe(reg);
    forall t | t in reg' ensures Shaped(base, t) {
      var i :| 0 <= i < |reg'| && reg'[i] == t;
      assert reg[i] in reg && Shaped(base, reg[i]);
    }
    forall i, j | 0 <= i < j < |reg'| ensures !SameKey(reg'[i], reg'[j]) {
      assert !SameKey(reg[i], reg[j]);
    }
    forall i | 0 <= i < |reg'| && IsBroadcast(reg'[i]) ensures PlainBefore(base, reg', i) {
      assert PlainBefore(base, reg, i);
      var p :| 0 <= p <= i && IsPlain(base, reg[p]);
      assert IsPlain(base, reg'[p]);
    }
  }

  lemma ApplyKeepsInv(base: string, reg: Registry, call: Call)
    requires Inv(base, reg)
    ensures Inv(base, Apply(reg, base, call))
    ensures !call.Disconnect? ==> reg <= Apply(reg, base, call)
  {
    match call {
      case Connect(url) => CreateKeepsInv(base, reg, url, BROKER_DEVICE, Broadcast);
      case CreateOne(url, d, uc) => CreateKeepsInv(base, reg, url, d, uc);
      case CreateBase(url, d) => CreateBaseKeepsInv(base, reg, url, d);
      case CreateAllFor(url, d) => CreateAllKeepsInv(base, reg, url, d);
      case DiscoverBroadcast(url) =>
        if BroadcastTopic(reg).Some? {
          BroadcastIsPlain(base, reg);
          StoreKeepsInv(base, reg, url, BROKER_DEVICE, DiscoveryOf(BroadcastTopic(reg).value.topic), Broadcast);
        }
      case DiscoverUnicast(url) =>
        if BroadcastTopic(reg).Some? {
          StoreKeepsInv(base, reg, url, BROKER_DEVICE, DiscoveryOf(PRINTED_OBJECT), Broadcast);
        }
      case Disconnect => UnsubscribeKeepsInv(base, reg);
    }
  }

  lemma {:induction false} RunKeepsInv(base: string, calls: seq<Call>)
    ensures Inv(base, Run(base, calls))
    decreases |calls|
  {
    if calls != [] {
      RunKeepsInv(base, calls[..|calls| - 1]);
      ApplyKeepsInv(base, Run(base, calls[..|calls| - 1]), calls[|calls| - 1]);
    }
  }

  // ---------- main results ----------

  /** No run ever holds two records with the same topic, use case and device. */
  lemma NoDuplicateRecords(base: string, calls: seq<Call>, i: nat, j: nat)
    requires i < j < |Run(base, calls)|
    ensures !SameKey(Run(base, calls)[i], Run(base, calls)[j])
  {
    RunKeepsInv(base, calls);
  }

  /** Whenever there is a broadcast topic it is the plain one: repeated discovery never makes it grow. */
  lemma BroadcastTopicStable(base: string, calls: seq<Call>)
    ensures BroadcastTopic(Run(base, calls)).Some? ==> BroadcastTopic(Run(base, calls)).value.topic == Plain(base)
  {
    RunKeepsInv(base, calls);
    BroadcastIsPlain(base, Run(base, calls));
  }

  /** The calls that create the plain broadcast record. */
  predicate Introduces(call: Call) {
    || call.Connect?
    || (call.CreateOne? && call.deviceId == BROKER_DEVICE && call.uc == Broadcast)
    || (call.CreateAllFor? && call.deviceId == BROKER_DEVICE)
  }

  // ---------- when there is a broadcast topic ----------

  ghost predicate HasPlain(base: string, reg: Registry) {
    exists t :: t in reg && IsPlain(base, t)
  }

  /** A shaped record found under a device topic's string and device carries that use case. */
  lemma KeyDeterminesUseCase(base: string, t: Topic, uc: UseCase)
    requires Shaped(base, t) && t.topic == DeviceTopic(base, t.deviceId, uc)
    ensures t.useCase == uc
  {
    var d := t.deviceId;
    if t.topic == DeviceTopic(base, d, t.useCase) {
      DeviceTopicInjective(base, d, uc, d, t.useCase);
    } else if t.topic == BaseTopic(base, d) {
      BaseMeetsDeviceTopicIff(base, d, d, uc);
    } else if t.topic == DiscoveryOf(Plain(base)) {
      DiscoveryIsDeeper(base);
      DeviceTopicInjective(base, d, uc, BROKER_DEVICE + "/" + UseCaseText(Broadcast), Discovery);
    } else {
      PrintedIsNoDeviceTopic(base, d, uc);
    }
  }

  lemma DiscoveryIsDeeper(base: string)
    ensures DiscoveryOf(Plain(base)) == DeviceTopic(base, BROKER_DEVICE + "/" + UseCaseText(Broadcast), Discovery)
  {
    var b := BROKER_DEVICE + "/" + UseCaseText(Broadcast);
    assert base + "/" + BROKER_DEVICE + "/" + UseCaseText(Broadcast) == base + "/" + b;
  }

  lemma PrintedIsNoDeviceTopic(base: string, d: string, uc: UseCase)
    ensures DiscoveryOf(PRINTED_OBJECT) != DeviceTopic(base, d, uc)
  {
    if DiscoveryOf(PRINTED_OBJECT) == DeviceTopic(base, d, uc) {
      WordAfterSlash(PRINTED_OBJECT, UseCaseText(Discovery));
      WordOfDeviceTopic(base, d, uc);
      LastWordsDistinct(uc, Discovery);
      CutSame(PRINTED_OBJECT, base + "/" + d, UseCaseText(Discovery));
      HasSlash(base, d);
    }
  }

  lemma CutSame(a: string, b: string, suffix: string)
    requires a + "/" + suffix == b + "/" + suffix
    ensures a == b
  {
    assert a == (a + "/" + suffix)[..|a|] && b == (b + "/" + suffix)[..|b|];
  }

  lemma HasSlash(a: string, b: string)
    ensures !SlashFree(a + "/" + b)
  {
    assert (a + "/" + b)[|a|] == '/';
  }

  predicate IsPlainKey(base: string, d: string, text: string, uc: UseCase) {
    d == BROKER_DEVICE && uc == Broadcast && text == Plain(base)
  }

  ghost predicate Effects(base: string, reg: Registry, reg': Registry, introduces: bool) {
    && (HasPlain(base, reg') <==> HasPlain(base, reg) || introduces)
    && (BroadcastTopic(reg').Some? <==> BroadcastTopic(reg).Some? || (introduces && !HasPlain(base, reg)))
  }

  lemma StoreEffects(base: string, reg: Registry, url: string, d: string, text: string, uc: UseCase)
    requires Inv(base, reg) && Inv(base, StoredTopic(reg, url, d, text, uc).0)
    ensures Effects(base, reg, StoredTopic(reg, url, d, text, uc).0, IsPlainKey(base, d, text, uc))
  {
    var reg' := StoredTopic(reg, url, d, text, uc).0;
    BroadcastIsPlain(base, reg);
    BroadcastIsPlain(base, reg');
    if ByUseCaseKey(reg, text, uc, d).None? {
      var t := Topic(url, d, text, uc, true);
      assert reg' == reg + [t] && t in reg';
      assert IsPlain(base, t) <==> IsPlainKey(base, d, text, uc);
    }
  }

  lemma CreateEffects(base: string, reg: Registry, url: string, d: string, uc: UseCase)
    requires Inv(base, reg)
    ensures Effects(base, reg, CreatedTopic(reg, base, url, d, uc).0, d == BROKER_DEVICE && uc == Broadcast)
  {
    var text := DeviceTopic(base, d, uc);
    CreateKeepsInv(base, reg, url, d, uc);
    match ByBrokerKey(reg, url, text, d) {
      case Some(t) =>
        KeyDeterminesUseCase(base, t, uc);
        assert t in reg;
      case None => StoreEffects(base, reg, url, d, text, uc);
    }
  }

  lemma {:induction false} CreateEachEffects(base: string, reg: Registry, url: string, d: string, ucs: seq<UseCase>)
    requires Inv(base, reg)
    ensures Effects(base, reg, CreatedEach(reg, base, url, d, ucs).0, d == BROKER_DEVICE && Broadcast in ucs)
    decreases |ucs|
  {
    if ucs != [] {
      CreateEffects(base, reg, url, d, ucs[0]);
      CreateKeepsInv(base, reg, url, d, ucs[0]);
      CreateEachEffects(base, CreatedTopic(reg, base, url, d, ucs[0]).0, url, d, ucs[1..]);
      assert ucs == [ucs[0]] + ucs[1..];
    }
  }

  lemma CreateAllEffects(base: string, reg: Registry, url: string, d: string)
    requires Inv(base, reg)
    ensures Effects(base, reg, CreatedAll(reg, base, url, d).0, d == BROKER_DEVICE)
  {
    CreateBaseKeepsInv(base, reg, url, d);
    StoreEffects(base, reg, url, d, BaseTopic(base, d), DeviceBase);
    CreateEachEffects(base, CreatedBase(reg, base, url, d).0, url, d, USE_CASES);
    assert USE_CASES[14] == Broadcast;
  }

  lemma DisconnectEffects(base: string, reg: Registry)
    ensures HasPlain(base, Unsubscribe(reg)) <==> HasPlain(base, reg)
    ensures BroadcastTopic(Unsubscribe(reg)).None?
  {
    UnsubscribedHasPlain(base, reg);
    UnsubscribedNone(reg);
  }

  lemma UnsubscribedHasPlain(base: string, reg: Registry)
    ensures HasPlain(base, Unsubscribe(reg)) <==> HasPlain(base, reg)
  {
    var reg' := Unsubscribe(reg);
    if t :| t in reg && IsPlain(base, t) {
      var i :| 0 <= i < |reg| && reg[i] == t;
      assert reg'[i] in reg' && IsPlain(base, reg'[i]);
    }
    if t :| t in reg' && IsPlain(base, t) {
      var i :| 0 <= i < |reg'| && reg'[i] == t;
      assert reg[i] in reg && IsPlain(base, reg[i]);
    }
  }

  lemma UnsubscribedNone(reg: Registry)
    ensures forall t :: t in Unsubscribe(reg) ==> !t.isSubscribed
  {
    forall t | t in Unsubscribe(reg) ensures !t.isSubscribed {
      var i :| 0 <= i < |reg| && Unsubscribe(reg)[i] == t;
    }
  }

  lemma ApplyEffects(base: string, reg: Registry, call: Call)
    requires Inv(base, reg) && !call.Disconnect?
    ensures Effects(base, reg, Apply(reg, base, call), Introduces(call))
  {
    ApplyKeepsInv(base, reg, call);
    match call {
      case Connect(url) => CreateEffects(base, reg, url, BROKER_DEVICE, Broadcast);
      case CreateOne(url, d, uc) => CreateEffects(base, reg, url, d, uc);
      case CreateBase(url, d) => StoreEffects(base, reg, url, d, BaseTopic(base, d), DeviceBase);
      case CreateAllFor(url, d) => CreateAllEffects(base, reg, url, d);
      case DiscoverBroadcast(url) =>
        BroadcastIsPlain(base, reg);
        DiscoverEffects(base, reg, url, Plain(base));
      case DiscoverUnicast(url) =>
        DiscoverEffects(base, reg, url, PRINTED_OBJECT);
    }
  }

  lemma DiscoverEffects(base: string, reg: Registry, url: string, text: string)
    requires Inv(base, reg) && (text == Plain(base) || text == PRINTED_OBJECT)
    ensures BroadcastTopic(reg).Some? ==>
              Effects(base, reg, StoredTopic(reg, url, BROKER_DEVICE, DiscoveryOf(text), Broadcast).0, false)
  {
    if BroadcastTopic(reg).Some? {
      if text == PRINTED_OBJECT {
        PrintedIsNoDeviceTopic(base, BROKER_DEVICE, Broadcast);
      } else {
        DiscoveryIsLonger(base);
      }
      StoreKeepsInv(base, reg, url, BROKER_DEVICE, DiscoveryOf(text), Broadcast);
      StoreEffects(base, reg, url, BROKER_DEVICE, DiscoveryOf(text), Broadcast);
    }
  }

  lemma DiscoveryIsLonger(base: string)
    ensures DiscoveryOf(Plain(base)) != Plain(base)
  {
    assert |DiscoveryOf(Plain(base))| == |Plain(base)| + 1 + |UseCaseText(Discovery)|;
  }

  ghost predicate Introduced(calls: seq<Call>) {
    exists i :: 0 <= i < |calls| && Introduces(calls[i])
  }

  /** A disconnect after the broadcast topic was first created. */
  ghost predicate LostSince(calls: seq<Call>) {
    exists i, j :: 0 <= i < j < |calls| && Introduces(calls[i]) && calls[j].Disconnect?
  }

  lemma IntroducedStep(calls: seq<Call>)
    requires calls != []
    ensures
      var n := |calls| - 1;
      && (Introduced(calls) <==> Introduced(calls[..n]) || Introduces(calls[n]))
      && (LostSince(calls) <==> LostSince(calls[..n]) || (Introduced(calls[..n]) && calls[n].Disconnect?))
  {
    var n := |calls| - 1;
    var p := calls[..n];
    if i :| 0 <= i < |p| && Introduces(p[i]) {
      assert Introduces(calls[i]);
    }
    if i :| 0 <= i < |calls| && Introduces(calls[i]) {
      assert i < n ==> Introduces(p[i]);
    }
    if i, j :| 0 <= i < j < |p| && Introduces(p[i]) && p[j].Disconnect? {
      assert Introduces(calls[i]) && calls[j].Disconnect?;
    }
    if i, j :| 0 <= i < j < |calls| && Introduces(calls[i]) && calls[j].Disconnect? {
      assert Introduces(p[i]);
      assert j < n ==> p[j].Disconnect?;
    }
  }

  ghost predicate Available(base: string, reg: Registry, introduced: bool, lost: bool) {
    && (HasPlain(base, reg) <==> introduced)
    && (BroadcastTopic(reg).Some? <==> introduced && !lost)
  }

  lemma AvailableStep(base: string, reg: Registry, call: Call, introduced: bool, lost: bool)
    requires Inv(base, reg) && Available(base, reg, introduced, lost) && (lost ==> introduced)
    ensures Available(base, Apply(reg, base, call), introduced || Introduces(call), lost || (introduced && call.Disconnect?))
  {
    if call.Disconnect? {
      DisconnectEffects(base, reg);
    } else {
      ApplyEffects(base, reg, call);
    }
  }

  lemma {:induction false} PlainIff(base: string, calls: seq<Call>)
    ensures Available(base, Run(base, calls), Introduced(calls), LostSince(calls))
    decreases |calls|
  {
    if calls != [] {
      var p := calls[..|calls| - 1];
      PlainIff(base, p);
      RunKeepsInv(base, p);
      IntroducedStep(calls);
      LostIsIntroduced(p);
      AvailableStep(base, Run(base, p), calls[|calls| - 1], Introduced(p), LostSince(p));
    }
  }

  lemma LostIsIntroduced(calls: seq<Call>)
    ensures LostSince(calls) ==> Introduced(calls)
  {
  }

  /**
   Broadcast discovery works exactly in the runs that have introduced the topic, by connecting or by creating it for
   the broker, and not disconnected since: no later connect, discovery or topic creation brings it back.
   */
  lemma BroadcastAvailableIff(base: string, calls: seq<Call>)
    ensures BroadcastTopic(Run(base, calls)).Some? <==>
              && (exists i :: 0 <= i < |calls| && Introduces(calls[i]))
              && !(exists i, j :: 0 <= i < j < |calls| && Introduces(calls[i]) && calls[j].Disconnect?)
  {
    PlainIff(base, calls);
  }

  // ---------- creating all topics of a device ----------

  /** The record under the use-case key is the only one, so any record with the key is the one found. */
  lemma KeyFindsRecord(base: string, reg: Registry, t: Topic)
    requires Inv(base, reg) && t in reg
    ensures ByUseCaseKey(reg, t.topic, t.useCase, t.deviceId) == Some(t)
  {
    var f := ByUseCaseKey(reg, t.topic, t.useCase, t.deviceId);
    var i :| 0 <= i < |reg| && reg[i] == t;
    assert f.Some?;
    var j :| 0 <= j < |reg| && reg[j] == f.value;
    assert SameKey(reg[i], reg[j]) && SameKey(reg[j], reg[i]);
  }

  lemma CreatedIsFound(base: string, reg: Registry, url: string, d: string, uc: UseCase)
    requires Inv(base, reg)
    ensures
      var (reg', t) := CreatedTopic(reg, base, url, d, uc);
      && ByUseCaseKey(reg', DeviceTopic(base, d, uc), uc, d) == Some(t)
      && (ByUseCaseKey(reg, DeviceTopic(base, d, uc), uc, d).Some? ==> reg' == reg)
  {
    var text := DeviceTopic(base, d, uc);
    CreateKeepsInv(base, reg, url, d, uc);
    match ByBrokerKey(reg, url, text, d) {
      case Some(t) =>
        KeyDeterminesUseCase(base, t, uc);
        KeyFindsRecord(base, reg, t);
      case None =>
        var (reg', t) := StoredTopic(reg, url, d, text, uc);
        KeyFindsRecord(base, reg', t);
    }
  }

  lemma FoundStays(reg: Registry, reg': Registry, text: string, uc: UseCase, d: string)
    requires reg <= reg' && ByUseCaseKey(reg, text, uc, d).Some?
    ensures ByUseCaseKey(reg', text, uc, d) == ByUseCaseKey(reg, text, uc, d)
  {
    FindOneAppend(reg, (t: Topic) => t.topic == text && t.useCase == uc && t.deviceId == d, reg'[|reg|..]);
    assert reg' == reg + reg'[|reg|..];
  }

  /** Every topic returned is the record the final registry holds for its use case. */
  ghost predicate ReturnsFound(base: string, reg: Registry, d: string, ucs: seq<UseCase>, ts: seq<Topic>) {
    |ts| == |ucs| && forall i :: 0 <= i < |ucs| ==> ByUseCaseKey(reg, DeviceTopic(base, d, ucs[i]), ucs[i], d) == Some(ts[i])
  }

  lemma {:induction false} CreateEachFinds(base: string, reg: Registry, url: string, d: string, ucs: seq<UseCase>)
    requires Inv(base, reg)
    ensures ReturnsFound(base, CreatedEach(reg, base, url, d, ucs).0, d, ucs, CreatedEach(reg, base, url, d, ucs).1)
    decreases |ucs|
  {
    if ucs != [] {
      var (reg1, t) := CreatedTopic(reg, base, url, d, ucs[0]);
      var (reg2, ts) := CreatedEach(reg1, base, url, d, ucs[1..]);
      CreatedIsFound(base, reg, url, d, ucs[0]);
      CreateKeepsInv(base, reg, url, d, ucs[0]);
      CreateEachKeepsInv(base, reg1, url, d, ucs[1..]);
      CreateEachFinds(base, reg1, url, d, ucs[1..]);
      FoundStays(reg1, reg2, DeviceTopic(base, d, ucs[0]), ucs[0], d);
    }
  }

  lemma {:induction false} CreateEachAgain(base: string, reg: Registry, url: string, d: string, ucs: seq<UseCase>, ts: seq<Topic>)
    requires Inv(base, reg) && ReturnsFound(base, reg, d, ucs, ts)
    ensures CreatedEach(reg, base, url, d, ucs) == (reg, ts)
    decreases |ucs|
  {
    hide Inv, DeviceTopic;
    if ucs != [] {
      CreatedIsFound(base, reg, url, d, ucs[0]);
      CreateEachAgain(base, reg, url, d, ucs[1..], ts[1..]);
      assert ts == [ts[0]] + ts[1..];
    }
  }

  /**
   Creating all topics of a device twice: the second call, under any broker URL, returns the same
   sixteen records with sixteen different topic strings and changes nothing.
   */
  lemma CreateAllIdempotent(base: string, calls: seq<Call>, url1: string, url2: string, d: string)
    ensures
      var (reg, ts) := CreatedAll(Run(base, calls), base, url1, d);
      CreatedAll(reg, base, url2, d) == (reg, ts) && SixteenTopics(base, d, ts)
  {
    RunKeepsInv(base, calls);
    CreateAllTwice(base, Run(base, calls), url1, url2, d);
  }

  /** The base topic and one topic for each use case, in order, no two with the same string. */
  ghost predicate SixteenTopics(base: string, d: string, ts: seq<Topic>) {
    && |ts| == 16
    && ts[0].topic == BaseTopic(base, d) && ts[0].useCase == DeviceBase && ts[0].deviceId == d
    && (forall i :: 0 <= i < 15 ==>
          ts[i + 1].topic == DeviceTopic(base, d, USE_CASES[i]) && ts[i + 1].useCase == USE_CASES[i] && ts[i + 1].deviceId == d)
    && (forall i, j :: 0 <= i < j < 16 ==> ts[i].topic != ts[j].topic)
  }

  lemma CreateAllTwice(base: string, reg: Registry, url1: string, url2: string, d: string)
    requires Inv(base, reg)
    ensures
      var (reg', ts) := CreatedAll(reg, base, url1, d);
      CreatedAll(reg', base, url2, d) == (reg', ts) && SixteenTopics(base, d, ts)
  {
    var (reg1, t) := CreatedBase(reg, base, url1, d);
    CreateBaseKeepsInv(base, reg, url1, d);
    KeyFindsRecord(base, reg1, t);
    EachTwice(base, reg1, t, url1, url2, d, USE_CASES);
    AllDistinct(base, d, [t] + CreatedEach(reg1, base, url1, d, USE_CASES).1);
  }

  /** The part after the base topic, for any list of use cases. */
  lemma EachTwice(base: string, reg: Registry, t: Topic, url1: string, url2: string, d: string, ucs: seq<UseCase>)
    requires Inv(base, reg) && ByUseCaseKey(reg, BaseTopic(base, d), DeviceBase, d) == Some(t)
    ensures
      var (reg', ts) := CreatedEach(reg, base, url1, d, ucs);
      && CreatedBase(reg', base, url2, d) == (reg', t)
      && CreatedEach(reg', base, url2, d, ucs) == (reg', ts)
      && |ts| == |ucs|
      && forall i :: 0 <= i < |ucs| ==>
           ts[i].topic == DeviceTopic(base, d, ucs[i]) && ts[i].useCase == ucs[i] && ts[i].deviceId == d
  {
    var (reg', ts) := CreatedEach(reg, base, url1, d, ucs);
    CreateEachKeepsInv(base, reg, url1, d, ucs);
    CreateEachFinds(base, reg, url1, d, ucs);
    CreateEachAgain(base, reg', url2, d, ucs, ts);
    FoundStays(reg, reg', BaseTopic(base, d), DeviceBase, d);
    forall i | 0 <= i < |ucs|
      ensures ts[i].topic == DeviceTopic(base, d, ucs[i]) && ts[i].useCase == ucs[i] && ts[i].deviceId == d
    {
      assert ByUseCaseKey(reg', DeviceTopic(base, d, ucs[i]), ucs[i], d) == Some(ts[i]);
    }
  }

  lemma AllDistinct(base: string, d: string, ts: seq<Topic>)
    requires |ts| == 16 && ts[0].topic == BaseTopic(base, d)
    requires forall i :: 0 <= i < 15 ==> ts[i + 1].topic == DeviceTopic(base, d, USE_CASES[i])
    ensures forall i, j :: 0 <= i < j < 16 ==> ts[i].topic != ts[j].topic
  {
    forall i, j | 0 <= i < j < 16 ensures ts[i].topic != ts[j].topic {
      if i == 0 {
        BaseMeetsDeviceTopicIff(base, d, d, USE_CASES[j - 1]);
      } else {
        assert ts[i - 1 + 1].topic == DeviceTopic(base, d, USE_CASES[i - 1]);
        assert ts[j - 1 + 1].topic == DeviceTopic(base, d, USE_CASES[j - 1]);
        UseCasesDistinct(i - 1, j - 1);
        if ts[i].topic == ts[j].topic {
          DeviceTopicInjective(base, d, USE_CASES[i - 1], d, USE_CASES[j - 1]);
        }
      }
    }
  }

  lemma UseCasesDistinct(i: nat, j: nat)
    requires i < j < |USE_CASES|
    ensures USE_CASES[i] != USE_CASES[j]
  {
  }

  // ---------- the declared unique column ----------

  predicate PlainDevice(call: Call) {
    call.CreateOne? || call.CreateBase? || call.CreateAllFor? ==> SlashFree(call.deviceId)
  }

  ghost predicate SlashFreeDevices(reg: Registry) {
    forall t :: t in reg ==> SlashFree(t.deviceId)
  }

  lemma {:induction false} RunSlashFree(base: string, calls: seq<Call>)
    requires forall i :: 0 <= i < |calls| ==> PlainDevice(calls[i])
    ensures SlashFreeDevices(Run(base, calls))
    decreases |calls|
  {
    if calls != [] {
      RunSlashFree(base, calls[..|calls| - 1]);
      ApplySlashFree(base, Run(base, calls[..|calls| - 1]), calls[|calls| - 1]);
    }
  }

  lemma ApplySlashFree(base: string, reg: Registry, call: Call)
    requires PlainDevice(call) && SlashFreeDevices(reg)
    ensures SlashFreeDevices(Apply(reg, base, call))
  {
    match call {
      case CreateAllFor(url, d) => EachSlashFree(base, CreatedBase(reg, base, url, d).0, url, d, USE_CASES);
      case Disconnect => UnsubscribeDevices(reg);
      case _ =>
    }
  }

  lemma {:induction false} EachSlashFree(base: string, reg: Registry, url: string, d: string, ucs: seq<UseCase>)
    requires SlashFreeDevices(reg) && SlashFree(d)
    ensures SlashFreeDevices(CreatedEach(reg, base, url, d, ucs).0)
    decreases |ucs|
  {
    if ucs != [] {
      EachSlashFree(base, CreatedTopic(reg, base, url, d, ucs[0]).0, url, d, ucs[1..]);
    }
  }

  lemma UnsubscribeDevices(reg: Registry)
    requires SlashFreeDevices(reg)
    ensures SlashFreeDevices(Unsubscribe(reg))
  {
    var reg' := Unsubscribe(reg);
    forall t | t in reg' ensures SlashFree(t.deviceId) {
      var i :| 0 <= i < |reg'| && reg'[i] == t;
      assert reg[i] in reg;
    }
  }

  // ---------- which ids break the unique column ----------

  predicate IsDeviceRecord(base: string, t: Topic) {
    t.topic == DeviceTopic(base, t.deviceId, t.useCase)
  }

  predicate IsBaseRecord(base: string, t: Topic) {
    t.topic == BaseTopic(base, t.deviceId) && t.useCase == DeviceBase
  }

  predicate IsDiscoveryRecord(base: string, t: Topic) {
    IsBroadcast(t) && t.topic == DiscoveryOf(Plain(base))
  }

  predicate IsPrintedRecord(t: Topic) {
    IsBroadcast(t) && t.topic == DiscoveryOf(PRINTED_OBJECT)
  }

  function BroadcastPath(): string {
    BROKER_DEVICE + "/" + UseCaseText(Broadcast)
  }

  /** Told from the ids: one record's device id spells out what another record's topic appends. */
  predicate Collides(base: string, a: Topic, b: Topic) {
    || (IsBaseRecord(base, a) && IsDeviceRecord(base, b) && a.deviceId == b.deviceId + "/" + UseCaseText(b.useCase))
    || (IsBaseRecord(base, a) && IsDiscoveryRecord(base, b) && a.deviceId == BroadcastPath() + "/" + UseCaseText(Discovery))
    || (IsDeviceRecord(base, a) && IsDiscoveryRecord(base, b) && a.deviceId == BroadcastPath() && a.useCase == Discovery)
    || (IsBaseRecord(base, a) && IsPrintedRecord(b) && base == PRINTED_OBJECT && a.deviceId == UseCaseText(Discovery))
  }

  lemma CollidingTexts(base: string, a: Topic, b: Topic)
    requires Collides(base, a, b)
    ensures a.topic == b.topic && a != b
  {
    hide DeviceTopic, BaseTopic, DiscoveryOf, Plain, BroadcastPath;
    if IsBaseRecord(base, a) && IsDeviceRecord(base, b) && a.deviceId == b.deviceId + "/" + UseCaseText(b.useCase) {
      BaseMeetsDeviceTopicIff(base, a.deviceId, b.deviceId, b.useCase);
    } else if IsBaseRecord(base, a) && IsDiscoveryRecord(base, b) && a.deviceId == BroadcastPath() + "/" + UseCaseText(Discovery) {
      BroadcastPathIsLong();
      DeepDiscovery(base);
      BaseMeetsDeviceTopicIff(base, a.deviceId, BroadcastPath(), Discovery);
    } else if IsDeviceRecord(base, a) && IsDiscoveryRecord(base, b) && a.deviceId == BroadcastPath() && a.useCase == Discovery {
      BroadcastPathIsLong();
      DeepDiscovery(base);
    } else {
      PrintedBase();
      BrokerIsNotDiscovery();
    }
  }

  lemma BroadcastPathIsLong()
    ensures |BroadcastPath()| > |BROKER_DEVICE|
  {
  }

  lemma DeepDiscovery(base: string)
    ensures DiscoveryOf(Plain(base)) == DeviceTopic(base, BroadcastPath(), Discovery)
  {
    DiscoveryIsDeeper(base);
  }

  lemma PrintedBase()
    ensures BaseTopic(PRINTED_OBJECT, UseCaseText(Discovery)) == DiscoveryOf(PRINTED_OBJECT)
  {
  }

  lemma BrokerIsNotDiscovery()
    ensures UseCaseText(Discovery) != BROKER_DEVICE
  {
  }

  lemma SameTextCollides(base: string, a: Topic, b: Topic)
    requires Shaped(base, a) && Shaped(base, b) && a.topic == b.topic && !SameKey(a, b)
    ensures Collides(base, a, b) || Collides(base, b, a)
  {
    hide DeviceTopic, BaseTopic, DiscoveryOf, Plain, BroadcastPath, Collides;
    if IsDeviceRecord(base, a) {
      DeviceTextCollides(base, a, b);
    } else if IsDeviceRecord(base, b) {
      DeviceTextCollides(base, b, a);
    } else if IsBaseRecord(base, a) {
      BaseTextCollides(base, a, b);
    } else if IsBaseRecord(base, b) {
      BaseTextCollides(base, b, a);
    } else {
      DeepDiscovery(base);
      PrintedIsNoDeviceTopic(base, BroadcastPath(), Discovery);
    }
  }

  lemma DeviceTextCollides(base: string, a: Topic, b: Topic)
    requires IsDeviceRecord(base, a) && Shaped(base, b) && a.topic == b.topic && !SameKey(a, b)
    ensures Collides(base, a, b) || Collides(base, b, a)
  {
    hide DeviceTopic, BaseTopic, DiscoveryOf, Plain, BroadcastPath;
    if IsDeviceRecord(base, b) {
      DeviceTopicInjective(base, a.deviceId, a.useCase, b.deviceId, b.useCase);
    } else if IsBaseRecord(base, b) {
      BaseMeetsDeviceTopicIff(base, b.deviceId, a.deviceId, a.useCase);
    } else if IsDiscoveryRecord(base, b) {
      DeepDiscovery(base);
      DeviceTopicInjective(base, a.deviceId, a.useCase, BroadcastPath(), Discovery);
    } else {
      PrintedIsNoDeviceTopic(base, a.deviceId, a.useCase);
    }
  }

  lemma BaseTextCollides(base: string, a: Topic, b: Topic)
    requires IsBaseRecord(base, a) && !IsDeviceRecord(base, b) && Shaped(base, b) && a.topic == b.topic && !SameKey(a, b)
    ensures Collides(base, a, b)
  {
    hide DeviceTopic, BaseTopic, DiscoveryOf, Plain, BroadcastPath;
    if IsBaseRecord(base, b) {
      BaseTopicInjective(base, a.deviceId, b.deviceId);
    } else if IsDiscoveryRecord(base, b) {
      DeepDiscovery(base);
      BaseMeetsDeviceTopicIff(base, a.deviceId, BroadcastPath(), Discovery);
    } else {
      BaseIsPrinted(base, a.deviceId);
    }
  }

  lemma BaseIsPrinted(base: string, d: string)
    ensures BaseTopic(base, d) == DiscoveryOf(PRINTED_OBJECT) <==> base == PRINTED_OBJECT && d == UseCaseText(Discovery)
  {
    if BaseTopic(base, d) == DiscoveryOf(PRINTED_OBJECT) {
      SlashFreePrint();
      PrefixUpToSlash(base, d, PRINTED_OBJECT, UseCaseText(Discovery));
    }
  }

  lemma SlashFreePrint()
    ensures SlashFree(PRINTED_OBJECT) && SlashFree(UseCaseText(Discovery))
  {
  }

  lemma PrefixUpToSlash(a: string, x: string, b: string, y: string)
    requires a + "/" + x == b + "/" + y && SlashFree(b) && SlashFree(y)
    ensures a == b && x == y
  {
    var t := a + "/" + x;
    assert forall i :: 0 <= i < |t| && i != |b| ==> t[i] == if i < |b| then b[i] else y[i - |b| - 1];
    assert t[|a|] == '/';
    assert a == t[..|a|] && b == t[..|b|] && x == t[|a| + 1..] && y == t[|b| + 1..];
  }

  /**
   The declared unique column holds in a run exactly when no stored device id spells out another record's
   topic; ids without slashes never do, unless the base prints as an object does.
   */
  lemma TopicColumnUniqueIff(base: string, calls: seq<Call>)
    ensures (forall i, j :: 0 <= i < j < |Run(base, calls)| ==> Run(base, calls)[i].topic != Run(base, calls)[j].topic)
       <==> forall a, b :: a in Run(base, calls) && b in Run(base, calls) ==> !Collides(base, a, b)
  {
    hide Collides, Shaped, Apply;
    RunKeepsInv(base, calls);
    RegistryUniqueIff(base, Run(base, calls));
  }

  lemma RegistryUniqueIff(base: string, reg: Registry)
    requires Inv(base, reg)
    ensures (forall i, j :: 0 <= i < j < |reg| ==> reg[i].topic != reg[j].topic)
       <==> forall a, b :: a in reg && b in reg ==> !Collides(base, a, b)
  {
    hide Collides, Shaped, PlainBefore;
    forall a, b | a in reg && b in reg && Collides(base, a, b)
      ensures exists i, j :: 0 <= i < j < |reg| && reg[i].topic == reg[j].topic
    {
      CollidingTexts(base, a, b);
      var i :| 0 <= i < |reg| && reg[i] == a;
      var j :| 0 <= j < |reg| && reg[j] == b;
      assert i < j || j < i;
    }
    forall i, j | 0 <= i < j < |reg| && reg[i].topic == reg[j].topic
      ensures exists a, b :: a in reg && b in reg && Collides(base, a, b)
    {
      assert reg[i] in reg && reg[j] in reg;
      SameTextCollides(base, reg[i], reg[j]);
    }
  }

  lemma PlainIdsDoNotCollide(base: string, a: Topic, b: Topic)
    requires base != PRINTED_OBJECT && SlashFree(a.deviceId)
    ensures !Collides(base, a, b)
  {
    hide DeviceTopic, BaseTopic, DiscoveryOf, Plain, BroadcastPath;
    HasSlash(b.deviceId, UseCaseText(b.useCase));
    HasSlash(BroadcastPath(), UseCaseText(Discovery));
    BroadcastPathHasSlash();
  }

  lemma BroadcastPathHasSlash()
    ensures !SlashFree(BroadcastPath())
  {
    HasSlash(BROKER_DEVICE, UseCaseText(Broadcast));
  }

  /** With device ids free of slashes, every topic string is stored once: the declared unique column holds. */
  lemma TopicColumnUnique(base: string, calls: seq<Call>, i: nat, j: nat)
    requires base != PRINTED_OBJECT && forall k :: 0 <= k < |calls| ==> PlainDevice(calls[k])
    requires i < j < |Run(base, calls)|
    ensures Run(base, calls)[i].topic != Run(base, calls)[j].topic
  {
    hide Collides, Shaped, Apply;
    var reg := Run(base, calls);
    RunKeepsInv(base, calls);
    RunSlashFree(base, calls);
    assert reg[i] in reg && reg[j] in reg;
    if reg[i].topic == reg[j].topic {
      SameTextCollides(base, reg[i], reg[j]);
      PlainIdsDoNotCollide(base, reg[i], reg[j]);
      PlainIdsDoNotCollide(base, reg[j], reg[i]);
    }
  }

  // ---------- topics of a device, as later calls see them ----------

  /** `getDeviceTopicByUseCase` succeeds for every use case. */
  ghost predicate HasAllTopics(reg: Registry, d: string) {
    forall uc :: ByDeviceAndUseCase(reg, d, uc).Some?
  }

  lemma CreateAllGivesAll(base: string, reg: Registry, url: string, d: string)
    requires Inv(base, reg)
    ensures HasAllTopics(CreatedAll(reg, base, url, d).0, d)
  {
    var (reg1, t) := CreatedBase(reg, base, url, d);
    var (reg2, ts) := CreatedEach(reg1, base, url, d, USE_CASES);
    CreateBaseKeepsInv(base, reg, url, d);
    CreateEachFinds(base, reg1, url, d, USE_CASES);
    forall uc ensures ByDeviceAndUseCase(reg2, d, uc).Some? {
      var i := UseCaseIndex(uc);
      assert ByUseCaseKey(reg2, DeviceTopic(base, d, uc), uc, d) == Some(ts[i]);
    }
  }

  lemma UseCaseIndex(uc: UseCase) returns (i: nat)
    ensures i < |USE_CASES| && USE_CASES[i] == uc
  {
    i := match uc
      case AssignDeviceFunction => 0 case NetworkConfiguration => 1 case SetSensorConfiguration => 2
      case GetSensorConfiguration => 3 case HardwareStatus => 4 case FirmwareStatus => 5 case FirmwareUpdate => 6
      case TelemetryQueue => 7 case RebootCommand => 8 case DeviceBase => 9 case Diagnostics => 10
      case Discovery => 11 case Telemetry => 12 case Heartbeat => 13 case Broadcast => 14;
  }

  lemma TopicsStay(base: string, reg: Registry, call: Call, d: string, uc: UseCase)
    requires Inv(base, reg) && ByDeviceAndUseCase(reg, d, uc).Some?
    ensures ByDeviceAndUseCase(Apply(reg, base, call), d, uc).Some?
  {
    hide Apply;
    var t := ByDeviceAndUseCase(reg, d, uc).value;
    var i :| 0 <= i < |reg| && reg[i] == t;
    KeysStay(base, reg, call, i);
    var reg' := Apply(reg, base, call);
    assert reg'[i] in reg' && reg'[i].deviceId == d && reg'[i].useCase == uc;
  }

  /** No call removes a record or changes its key. */
  lemma KeysStay(base: string, reg: Registry, call: Call, i: nat)
    requires Inv(base, reg) && i < |reg|
    ensures i < |Apply(reg, base, call)| && SameKey(reg[i], Apply(reg, base, call)[i])
  {
    ApplyKeepsInv(base, reg, call);
  }
}
