/** `TopicService`: a registry of MQTT topics, found or created under two different lookup keys. */
module TopicRegistry {
  import opened Text
  import opened TopicNames

  datatype Topic = Topic(brokerUrl: string, deviceId: string, topic: string, useCase: UseCase, isSubscribed: bool)

  type Registry = seq<Topic>

  datatype TopicError = BroadcastTopicNotFound | TopicNotFound | NoTopicFound

  const BROKER_DEVICE := "Mqtt_Broker"

  function ByUseCaseKey(reg: Registry, text: string, uc: UseCase, deviceId: string): Option<Topic> {
    FindOne(reg, (t: Topic) => t.topic == text && t.useCase == uc && t.deviceId == deviceId)
  }

  function ByBrokerKey(reg: Registry, brokerUrl: string, text: string, deviceId: string): Option<Topic> {
    FindOne(reg, (t: Topic) => t.brokerUrl == brokerUrl && t.topic == text && t.deviceId == deviceId)
  }

  predicate IsBroadcast(t: Topic) {
    t.useCase == Broadcast && t.deviceId == BROKER_DEVICE
  }

  function BroadcastTopic(reg: Registry): Option<Topic> {
    FindOne(reg, (t: Topic) => IsBroadcast(t) && t.isSubscribed)
  }

  function ByDeviceAndUseCase(reg: Registry, deviceId: string, uc: UseCase): Option<Topic> {
    FindOne(reg, (t: Topic) => t.deviceId == deviceId && t.useCase == uc)
  }

  // ---------- what the creating calls do ----------

  function StoredTopic(reg: Registry, brokerUrl: string, deviceId: string, text: string, uc: UseCase): (Registry, Topic) {
    match ByUseCaseKey(reg, text, uc, deviceId)
    case Some(t) => (reg, t)
    case None => var t := Topic(brokerUrl, deviceId, text, uc, true); (reg + [t], t)
  }

  function CreatedTopic(reg: Registry, base: string, brokerUrl: string, deviceId: string, uc: UseCase): (Registry, Topic) {
    match ByBrokerKey(reg, brokerUrl, DeviceTopic(base, deviceId, uc), deviceId)
    case Some(t) => (reg, t)
    case None => StoredTopic(reg, brokerUrl, deviceId, DeviceTopic(base, deviceId, uc), uc)
  }

  function CreatedBase(reg: Registry, base: string, brokerUrl: string, deviceId: string): (Registry, Topic) {
    StoredTopic(reg, brokerUrl, deviceId, BaseTopic(base, deviceId), DeviceBase)
  }

  function CreatedEach(reg: Registry, base: string, brokerUrl: string, deviceId: string, ucs: seq<UseCase>): (Registry, seq<Topic>)
    decreases |ucs|, |reg|
  {
    if ucs == [] then (reg, [])
    else
      var (reg1, t) := CreatedTopic(reg, base, brokerUrl, deviceId, ucs[0]);
      var (reg2, ts) := CreatedEach(reg1, base, brokerUrl, deviceId, ucs[1..]);
      (reg2, [t] + ts)
  }

  function CreatedAll(reg: Registry, base: string, brokerUrl: string, deviceId: string): (Registry, seq<Topic>) {
    var (reg1, t) := CreatedBase(reg, base, brokerUrl, deviceId);
    var (reg2, ts) := CreatedEach(reg1, base, brokerUrl, deviceId, USE_CASES);
    (reg2, [t] + ts)
  }

  function Unsubscribe(reg: Registry): (r: Registry)
    ensures |r| == |reg|
    ensures forall i :: 0 <= i < |reg| ==> r[i] == reg[i].(isSubscribed := false)
  {
    if reg == [] then [] else [reg[0].(isSubscribed := false)] + Unsubscribe(reg[1..])
  }

  function Marked(t: Topic, text: string): Topic {
    if t.topic == text then t.(isSubscribed := false) else t
  }

  class TopicService {
    var topicRepo: Registry
    var brokerUrl: string
    const base: string

    constructor (base: string, brokerUrl: string)
      ensures this.base == base && this.brokerUrl == brokerUrl && topicRepo == []
    {
      this.base, this.brokerUrl, topicRepo := base, brokerUrl, [];
    }

    method StoreTopic(deviceId: string, text: string, uc: UseCase) returns (t: Topic)
      modifies `topicRepo
      ensures (topicRepo, t) == StoredTopic(old(topicRepo), brokerUrl, deviceId, text, uc)
    {
      var isTopicExist := ByUseCaseKey(topicRepo, text, uc, deviceId);
      if isTopicExist.None? {
        var record := Topic(brokerUrl, deviceId, text, uc, true);
        topicRepo := topicRepo + [record];
        return record;
      }
      return isTopicExist.value;
    }

    method CreateTopic(deviceId: string, uc: UseCase) returns (t: Topic)
      modifies `topicRepo
      ensures (topicRepo, t) == CreatedTopic(old(topicRepo), base, brokerUrl, deviceId, uc)
    {
      var deviceTopic := DeviceTopic(base, deviceId, uc);
      var storedTopic := ByBrokerKey(topicRepo, brokerUrl, deviceTopic, deviceId);
      if storedTopic.None? {
        t := StoreTopic(deviceId, deviceTopic, uc);
        return;
      }
      return storedTopic.value;
    }

    method CreateDeviceBaseTopic(deviceId: string) returns (t: Topic)
      modifies `topicRepo
      ensures (topicRepo, t) == CreatedBase(old(topicRepo), base, brokerUrl, deviceId)
    {
      t := StoreTopic(deviceId, BaseTopic(base, deviceId), DeviceBase);
    }

    method CreateAllTopicsForDevice(deviceId: string) returns (topics: seq<Topic>)
      modifies `topicRepo
      ensures (topicRepo, topics) == CreatedAll(old(topicRepo), base, brokerUrl, deviceId)
    {
      topics := [];
      var baseTopic := CreateDeviceBaseTopic(deviceId);
      topics := topics + [baseTopic];
      assert topics == [baseTopic];
      var others := CreateTopicsFor(deviceId, USE_CASES);
      topics := topics + others;
    }

    /** The loop over the use cases. */
    method CreateTopicsFor(deviceId: string, useCases: seq<UseCase>) returns (topics: seq<Topic>)
      modifies `topicRepo
      ensures (topicRepo, topics) == CreatedEach(old(topicRepo), base, brokerUrl, deviceId, useCases)
    {
      topics := [];
      for i := 0 to |useCases|
        invariant
          var all := CreatedEach(old(topicRepo), base, brokerUrl, deviceId, useCases);
          var rest := CreatedEach(topicRepo, base, brokerUrl, deviceId, useCases[i..]);
          rest.0 == all.0 && topics + rest.1 == all.1
      {
        assert useCases[i..][1..] == useCases[i + 1..];
        var topic := CreateTopic(deviceId, useCases[i]);
        topics := topics + [topic];
      }
      assert topics + [] == topics;
    }

    method GetBroadcastTopic() returns (r: Result<Topic, TopicError>)
      ensures r == match BroadcastTopic(topicRepo) case Some(t) => Ok(t) case None => Err(BroadcastTopicNotFound)
    {
      var broadcastTopic := BroadcastTopic(topicRepo);
      if broadcastTopic.None? {
        return Err(BroadcastTopicNotFound);
      }
      return Ok(broadcastTopic.value);
    }

    method GetDeviceTopicByUseCase(deviceId: string, uc: UseCase) returns (r: Result<Topic, TopicError>)
      ensures r == match ByDeviceAndUseCase(topicRepo, deviceId, uc) case Some(t) => Ok(t) case None => Err(TopicNotFound)
    {
      var topic := ByDeviceAndUseCase(topicRepo, deviceId, uc);
      if topic.None? {
        return Err(TopicNotFound);
      }
      return Ok(topic.value);
    }

    method GetAllSubscribedTopics() returns (r: Result<seq<Topic>, TopicError>)
      ensures r.Ok? <==> exists t :: t in topicRepo && t.isSubscribed
      ensures r.Ok? ==> forall t :: t in r.value <==> t in topicRepo && t.isSubscribed
      ensures r.Err? ==> r.error == NoTopicFound
    {
      var topics := [];
      for i := 0 to |topicRepo|
        invariant forall t :: t in topics <==> t in topicRepo[..i] && t.isSubscribed
      {
        if topicRepo[i].isSubscribed {
          topics := topics + [topicRepo[i]];
        }
        assert topicRepo[..i + 1] == topicRepo[..i] + [topicRepo[i]];
      }
      assert topicRepo[..|topicRepo|] == topicRepo;
      if topics == [] {
        return Err(NoTopicFound);
      }
      assert topics[0] in topics;
      return Ok(topics);
    }

    /** `updateTopic(topic, { isSubscribed: false })`: every record with that topic string. */
    method MarkUnsubscribed(text: string)
      modifies `topicRepo
      ensures |topicRepo| == |old(topicRepo)|
      ensures forall i :: 0 <= i < |topicRepo| ==> topicRepo[i] == Marked(old(topicRepo)[i], text)
    {
      var repo := topicRepo;
      topicRepo := seq(|repo|, i requires 0 <= i < |repo| => Marked(repo[i], text));
    }

    /** The registry part of `disconnect`: each subscribed topic is marked, so none stays subscribed. */
    method MarkAllUnsubscribed() returns (ok: bool)
      modifies `topicRepo
      ensures topicRepo == Unsubscribe(old(topicRepo))
      ensures ok <==> exists t :: t in old(topicRepo) && t.isSubscribed
    {
      var topics := GetAllSubscribedTopics();
      if topics.Err? {
        assert forall i :: 0 <= i < |topicRepo| ==> topicRepo[i] in topicRepo && !topicRepo[i].isSubscribed;
        return false;
      }
      for j := 0 to |topics.value|
        invariant |topicRepo| == |old(topicRepo)|
        invariant forall i :: 0 <= i < |topicRepo| ==>
                    topicRepo[i] == old(topicRepo)[i] || topicRepo[i] == old(topicRepo)[i].(isSubscribed := false)
        invariant forall i :: 0 <= i < |topicRepo| && old(topicRepo)[i] in topics.value[..j] ==> !topicRepo[i].isSubscribed
      {
        MarkUnsubscribed(topics.value[j].topic);
        assert topics.value[..j + 1] == topics.value[..j] + [topics.value[j]];
      }
      assert topics.value[..|topics.value|] == topics.value;
      forall i | 0 <= i < |topicRepo| ensures topicRepo[i] == old(topicRepo)[i].(isSubscribed := false) {
        assert old(topicRepo)[i] in old(topicRepo);
      }
      return true;
    }
  }
}
