/** `DeviceService`, `ResponserService` and `ListenerService` over the stores they share. */
module Devices {
  import opened Text
  import opened Redis
  import opened SessionKeys
  import opened TopicNames
  import opened TopicRegistry
  import opened DeviceFlow
  import TopicRuns

  /** The Mongo collections. */
  class Repositories {
    var sensors: seq<Sensor>
    var telemetry: seq<Reading>
    var hardware: seq<Reading>

    constructor ()
      ensures sensors == [] && telemetry == [] && hardware == []
    {
      sensors, telemetry, hardware := [], [], [];
    }

    /** `update({ deviceId }, change)`. */
    method UpdateSensors(d: string, c: Change)
      modifies `sensors
      ensures sensors == Update(old(sensors), d, c)
    {
      var i, done := 0, [];
      while i < |sensors|
        invariant 0 <= i <= |sensors| && |done| == i && sensors == old(sensors)
        invariant forall k :: 0 <= k < i ==> done[k] == if sensors[k].deviceId == d then Changed(sensors[k], c) else sensors[k]
      {
        done := done + [if sensors[i].deviceId == d then Changed(sensors[i], c) else sensors[i]];
        i := i + 1;
      }
      assert done == Update(sensors, d, c);
      sensors := done;
    }
  }

  /** The part of `MqttClientService` the requests use. */
  class MqttClient {
    var isConnectedState: bool
    var sent: seq<string>
    /** How many more subscriptions the broker grants. */
    var granted: nat

    constructor (isConnectedState: bool, granted: nat)
      ensures this.isConnectedState == isConnectedState && sent == [] && this.granted == granted
    {
      this.isConnectedState, sent, this.granted := isConnectedState, [], granted;
    }

    /** Throws when the client is not connected. */
    method Publish(topic: string) returns (ok: bool)
      modifies `sent
      ensures ok == isConnectedState
      ensures sent == if ok then old(sent) + [topic] else old(sent)
    {
      ok := isConnectedState;
      if ok {
        sent := sent + [topic];
      }
    }

    /** Throws when the client is not connected or the broker refuses. */
    method Subscribe(topics: seq<string>) returns (ok: bool)
      modifies `granted
      ensures ok == (isConnectedState && old(granted) > 0)
      ensures granted == if ok then old(granted) - 1 else old(granted)
    {
      ok := isConnectedState && granted > 0;
      if ok {
        granted := granted - 1;
      }
    }
  }

  class DeviceService {
    const repos: Repositories
    const mqtt: MqttClient
    const topics: TopicService
    const redis: RedisService
    const ttl: int

    constructor (repos: Repositories, mqtt: MqttClient, topics: TopicService, redis: RedisService, ttl: int)
      ensures this.repos == repos && this.mqtt == mqtt && this.topics == topics && this.redis == redis && this.ttl == ttl
    {
      this.repos, this.mqtt, this.topics, this.redis, this.ttl := repos, mqtt, topics, redis, ttl;
    }

    ghost function State(): Hub
      reads this, repos, mqtt, topics, redis
    {
      Hub(redis.now, redis.db, repos.sensors, topics.topicRepo, repos.telemetry, repos.hardware, mqtt.sent)
    }

    ghost function Now(call: Call): Step
      reads this, topics, mqtt
    {
      Step(call, topics.brokerUrl, mqtt.isConnectedState, mqtt.granted)
    }

    method SetCache(requestCode: RequestCode, userId: string, requestId: string)
      requires redis.Valid()
      modifies redis`db
      ensures redis.Valid() && State() == Cached(old(State()), ttl, userId, requestId, requestCode)
    {
      var stored := redis.Setex(PendingKey(requestId), PendingJson(Some(requestCode), Some(requestId), Some(userId)), ttl);
    }

    /** `setCache` given a class instead of a request: every property read from it is missing. */
    method SetCacheOfClass()
      requires redis.Valid()
      modifies redis`db
      ensures redis.Valid() && State() == CachedClass(old(State()), ttl)
    {
      var stored := redis.Setex(PendingKey("undefined"), PendingJson(None, None, None), ttl);
    }

    method DiscoverDevicesBroadcast(userId: string, rid: string) returns (failure: Option<Failure>)
      requires redis.Valid()
      modifies redis`db, topics`topicRepo, mqtt`sent, mqtt`granted
      ensures redis.Valid()
      ensures Outcome(State(), failure) == Ask(ttl, topics.base, old(State()), old(Now(AskBroadcast(userId, rid))))
    {
      var broadcastTopic := topics.GetBroadcastTopic();
      if broadcastTopic.Err? {
        return Some(NoBroadcastTopic);
      }
      SetCache(RequestDiscovery, userId, rid);
      var topic := topics.StoreTopic(BROKER_DEVICE, TopicRuns.DiscoveryOf(broadcastTopic.value.topic), Broadcast);
      var published := mqtt.Publish(topic.topic);
      if !published {
        return Some(BrokerOffline);
      }
      var subscribed := mqtt.Subscribe([topic.topic]);
      if !subscribed {
        return Some(SubscriptionRefused);
      }
      return None;
    }

    /** Prints the record it was given instead of the record's topic; the publication is not awaited. */
    method DiscoverDeviceUnicast(userId: string, rid: string) returns (failure: Option<Failure>)
      requires redis.Valid()
      modifies redis`db, topics`topicRepo, mqtt`sent, mqtt`granted
      ensures redis.Valid()
      ensures Outcome(State(), failure) == Ask(ttl, topics.base, old(State()), old(Now(AskUnicast(userId, rid))))
    {
      var broadcastTopic := topics.GetBroadcastTopic();
      if broadcastTopic.Err? {
        return Some(NoBroadcastTopic);
      }
      SetCache(RequestDiscovery, userId, rid);
      var topic := topics.StoreTopic(BROKER_DEVICE, TopicRuns.DiscoveryOf(TopicRuns.PRINTED_OBJECT), Broadcast);
      var published := mqtt.Publish(topic.topic);
      var subscribed := mqtt.Subscribe([topic.topic]);
      if !subscribed {
        return Some(if published then SubscriptionRefused else BrokerOffline);
      }
      return None;
    }

    method GetHardwareStatus(userId: string, deviceId: string, rid: string) returns (failure: Option<Failure>)
      requires redis.Valid()
      modifies redis`db, topics`topicRepo, mqtt`sent
      ensures redis.Valid()
      ensures Outcome(State(), failure) == Ask(ttl, topics.base, old(State()), old(Now(AskHardware(userId, deviceId, rid))))
    {
      hide PendingKey, StoredTopic, CreatedTopic, CreatedAll, CreatedBase, FindLive, FindAny, Update,
        ByDeviceAndUseCase, FindAssigned, Within;
      var device := FindLive(repos.sensors, deviceId);
      if device.None? {
        return Some(NotFound);
      }
      var topic := topics.CreateTopic(deviceId, HardwareStatus);
      SetCache(RequestHardwareMetrics, userId, rid);
      var published := mqtt.Publish(topic.topic);
      if !published {
        return Some(InvalidRequest);
      }
      return None;
    }

    method ValidateSensorTypes(deviceId: string, functionality: seq<string>) returns (failure: Option<Failure>)
      ensures failure == CheckTypes(repos.sensors, deviceId, functionality)
    {
      var storedDevice := FindLive(repos.sensors, deviceId);
      if storedDevice.None? {
        return Some(NotFound);
      }
      if !Within(functionality, storedDevice.value.capabilities) {
        return Some(FunctionalityRefused);
      }
      return None;
    }

    method AssignFunction(userId: string, deviceId: string, functionality: seq<string>, codeOk: bool, rid: string)
      returns (failure: Option<Failure>)
      requires redis.Valid()
      modifies redis`db, repos`sensors, mqtt`sent
      ensures redis.Valid()
      ensures Outcome(State(), failure)
           == Ask(ttl, topics.base, old(State()), old(Now(AskAssign(userId, deviceId, functionality, codeOk, rid))))
    {
      hide PendingKey, StoredTopic, CreatedTopic, CreatedAll, CreatedBase, FindLive, FindAny, Update,
        ByDeviceAndUseCase, FindAssigned, Within;
      if !codeOk {
        return Some(InvalidRequest);
      }
      var topic := topics.GetDeviceTopicByUseCase(deviceId, AssignDeviceFunction);
      if topic.Err? {
        return Some(NotFound);
      }
      failure := ValidateSensorTypes(deviceId, functionality);
      if failure.Some? {
        return;
      }
      SetCache(RequestAssignDeviceFunction, userId, rid);
      repos.UpdateSensors(deviceId, ToAssigned(functionality));
      var published := mqtt.Publish(topic.value.topic);
    }

    method DeleteSensor(deviceId: string) returns (failure: Option<Failure>)
      modifies repos`sensors
      ensures Outcome(State(), failure) == Remove(old(State()), deviceId)
    {
      var device := FindLive(repos.sensors, deviceId);
      if device.None? {
        return Some(NotFound);
      }
      repos.UpdateSensors(deviceId, ToDeleted(true));
      return None;
    }

    method SetDeviceConfiguration(deviceId: string, configuration: string) returns (failure: Option<Failure>)
      modifies repos`sensors, mqtt`sent
      ensures Outcome(State(), failure) == Configure(old(State()), mqtt.isConnectedState, deviceId, configuration)
    {
      hide PendingKey, StoredTopic, CreatedTopic, CreatedAll, CreatedBase, FindLive, FindAny, Update,
        ByDeviceAndUseCase, FindAssigned, Within;
      var storedDevice := FindLive(repos.sensors, deviceId);
      if storedDevice.None? {
        return Some(NotFound);
      }
      var topic := topics.GetDeviceTopicByUseCase(deviceId, SetSensorConfiguration);
      if topic.Err? {
        return Some(NotFound);
      }
      var published := mqtt.Publish(topic.value.topic);
      if !published {
        return Some(BrokerOffline);
      }
      repos.UpdateSensors(deviceId, ToConfiguration(configuration));
      return None;
    }

    method GetDeviceTelemetry(deviceId: string, codeOk: bool) returns (failure: Option<Failure>)
      requires redis.Valid()
      modifies redis`db, mqtt`sent
      ensures redis.Valid()
      ensures Outcome(State(), failure) == Ask(ttl, topics.base, old(State()), old(Now(AskTelemetry(deviceId, codeOk))))
    {
      hide PendingKey, StoredTopic, CreatedTopic, CreatedAll, CreatedBase, FindLive, FindAny, Update,
        ByDeviceAndUseCase, FindAssigned, Within;
      if !codeOk {
        return Some(InvalidRequest);
      }
      var storedDevice := FindAssigned(repos.sensors, deviceId);
      if storedDevice.None? {
        return Some(NotFound);
      }
      var topic := topics.GetDeviceTopicByUseCase(deviceId, Telemetry);
      if topic.Err? {
        return Some(NotFound);
      }
      SetCacheOfClass();
      var published := mqtt.Publish(topic.value.topic);
      if !published {
        return Some(BrokerOffline);
      }
      return None;
    }
  }

  class ResponserService {
    const device: DeviceService

    constructor (device: DeviceService)
      ensures this.device == device
    {
      this.device := device;
    }

    method DeleteCache(env: Envelope)
      requires device.redis.Valid()
      modifies device.redis`db
      ensures device.redis.Valid()
      ensures device.State() == if env.requestId == "" then old(device.State()) else Consumed(old(device.State()), env)
    {
      if env.requestId == "" {
        return;
      }
      var removed := device.redis.Del(PendingKey(env.requestId));
    }

    method HandleDiscoveryResponse(env: Envelope, isBroadcast: bool, sensorData: Option<Sensor>)
      returns (failure: Option<Failure>)
      requires device.redis.Valid() && env.requestId != ""
      modifies device.redis`db, device.repos`sensors, device.topics`topicRepo, device.mqtt`granted
      ensures device.redis.Valid()
      ensures Outcome(device.State(), failure)
           == Handle(device.topics.base, old(device.State()),
                     old(device.Now(Respond("", env, DiscoveryBody(isBroadcast, sensorData)))),
                     env, DiscoveryBody(isBroadcast, sensorData))
    {
      hide PendingKey, StoredTopic, CreatedTopic, CreatedAll, CreatedBase, FindLive, FindAny, Update,
        ByDeviceAndUseCase, FindAssigned, Within;
      if sensorData.None? {
        return Some(NoSensorData);
      }
      var deviceId := sensorData.value.deviceId;
      var storedDevice := FindAny(device.repos.sensors, deviceId);
      if storedDevice.Some? && storedDevice.value.isDeleted {
        device.repos.UpdateSensors(deviceId, ToDeleted(false));
      }
      var topic := device.topics.CreateDeviceBaseTopic(deviceId);
      if storedDevice.None? {
        device.repos.sensors := device.repos.sensors + [NewRecord(sensorData.value)];
        var subscribed := device.mqtt.Subscribe([topic.topic]);
        if !subscribed {
          return Some(DiscoveryMalformed);
        }
        var otherTopics := device.topics.CreateAllTopicsForDevice(deviceId);
        var topicNames := seq(|otherTopics|, i requires 0 <= i < |otherTopics| => otherTopics[i].topic);
        subscribed := device.mqtt.Subscribe(topicNames);
        if !subscribed {
          return Some(DiscoveryMalformed);
        }
      }
      if !isBroadcast {
        DeleteCache(env);
      }
      return None;
    }

    /** The remaining handlers, by the payload each takes. */
    method HandleResponse(env: Envelope, b: Body) returns (failure: Option<Failure>)
      requires device.redis.Valid() && env.requestId != "" && !b.DiscoveryBody?
      modifies device.redis`db, device.repos
      ensures device.redis.Valid()
      ensures Outcome(device.State(), failure)
           == Handle(device.topics.base, old(device.State()), old(device.Now(Respond("", env, b))), env, b)
    {
      failure := None;
      match b {
        case AssignBody(deviceId, functionality, accepted) =>
          if env.code != NumberCode(201) {
            return Some(InvalidResponse);
          }
          if !accepted {
            return Some(NotAccepted);
          }
          failure := device.ValidateSensorTypes(deviceId, functionality);
          if failure.Some? {
            return;
          }
          device.repos.UpdateSensors(deviceId, ToAssigned(functionality));
          DeleteCache(env);
        case AckBody =>
          return Some(NotImplemented);
        case UpgradeBody(deviceId, status, timestamp) =>
          if env.code != NumberCode(205) || status == UpgradeProcessing {
            return;
          }
          if status == UpgradeSuccess {
            device.repos.UpdateSensors(deviceId, ToUpgrade(timestamp));
            DeleteCache(env);
          }
        case HeartbeatBody(deviceId, connectionState) =>
          if env.code != NumberCode(210) && env.code != StringCode(Some(210)) {
            return;
          }
          var sensor := FindAny(device.repos.sensors, deviceId);
          if sensor.None? {
            return Some(NotFound);
          }
          device.repos.UpdateSensors(deviceId, ToConnection(connectionState));
          DeleteCache(env);
        case RebootBody(deviceId, timestamp) =>
          if env.code != NumberCode(206) {
            return;
          }
          device.repos.UpdateSensors(deviceId, ToReboot(timestamp));
          DeleteCache(env);
        case TelemetryBody(deviceId, value) =>
          if env.code != NumberCode(212) {
            return Some(InvalidResponse);
          }
          device.repos.telemetry := device.repos.telemetry + [Reading(deviceId, value)];
          DeleteCache(env);
        case HardwareBody(deviceId, value) =>
          if env.code != NumberCode(211) {
            return Some(InvalidResponse);
          }
          var record := FindLive(device.repos.sensors, deviceId);
          if record.None? {
            return Some(NotFound);
          }
          device.repos.hardware := device.repos.hardware + [Reading(deviceId, value)];
          DeleteCache(env);
      }
    }
  }

  class ListenerService {
    const responser: ResponserService

    constructor (responser: ResponserService)
      ensures this.responser == responser
    {
      this.responser := responser;
    }

    method TransformAndValidate(env: Envelope) returns (failure: Option<Failure>)
      ensures failure == Validate(responser.device.redis.db, env)
    {
      if !env.wellFormed || env.requestId == "" {
        return Some(PayloadInvalid);
      }
      var cached := responser.device.redis.Get(PendingKey(env.requestId));
      if cached.None? {
        return Some(NoPendingRequest);
      }
      if !cached.value.PendingJson? || cached.value.requestId != Some(env.requestId) || cached.value.userId != Some(env.userId) {
        return Some(IdMismatch);
      }
      return None;
    }

    /** The event entry points, by the payload each takes. */
    method HandleEvent(topic: string, env: Envelope, b: Body) returns (failure: Option<Failure>)
      requires responser.device.redis.Valid()
      modifies responser.device.redis`db, responser.device.repos, responser.device.topics`topicRepo,
        responser.device.mqtt`granted
      ensures responser.device.redis.Valid()
      ensures Outcome(responser.device.State(), failure)
           == Receive(responser.device.topics.base, old(responser.device.State()),
                      old(responser.device.Now(Respond(topic, env, b))))
    {
      var answers := env.responseId != "";
      if b.DiscoveryBody? || b.AssignBody? {
        if !EndsWith(topic, EventSuffix(b)) || !answers {
          return None;
        }
      } else if !EndsWith(topic, EventSuffix(b)) && !answers {
        return None;
      }
      failure := TransformAndValidate(env);
      if failure.Some? {
        return;
      }
      if b.DiscoveryBody? {
        failure := responser.HandleDiscoveryResponse(env, b.isBroadcast, b.data);
      } else {
        failure := responser.HandleResponse(env, b);
      }
    }
  }
}
