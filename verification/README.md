# A model of the greenhouse backend

The backend is a NestJS service between operators, a Redis store, a Mongo database and an MQTT broker.
Seven pieces of it carry state with properties that no single method shows. This project models them and
proves those properties for every input, every run of calls or every interleaving.

- **Session store** (`SessionKeys`, `SessionService`, `SessionHistory`, `SessionInterleaving`, `SessionInvalidation`,
  `SessionSchedules`, `SessionSurvivors`, `SessionAlone`). A session lives under `session:{id}` and is indexed under
  `user:sessions:{user}:{id}`; both keys expire on their own and are written one after the other. Bulk invalidation
  walks a SCAN cursor and reads session ids back out of key strings. Proved: the key codec with exact conditions on user ids, the SCAN loop
  against a one-step specification, refinement of a call history, and, with every Redis command a step of its own,
  agreement of index and sessions under a schedule assumption that is shown to be exact, isolation, progress and
  termination of the loop, and exactly which sessions it can miss while others write.
- **Guard, sign-up, login, logout, password change** (`AuthFlow`, `AuthRuns`, `AuthSessions`) as clients of that store:
  who can log in with what, and which sessions there are, told over whole runs.
- **Refresh and reset tokens** (`TokenService`).
- **Message router and topic strings** (`MessageRouter`, `TopicNames`, `TopicPatterns`).
- **Topic registry** (`TopicService`, `TopicRuns`, `TopicCalls`): find-or-create under two different keys.
- **Device requests and answers** (`DeviceFlow`, `DeviceService`, `DeviceCorrelation`, `DeviceLifecycle`,
  `DeviceTopics`, `DeviceRecords`, `DeviceAnswers`, `DeviceRegistry`): pending requests in Redis, answers matched
  against them, every field of the sensor records, what each call answers, and the registry.
- **Assignment between awaits** (`AssignInterleaving`).

## How it is built

Each service that updates state is a class with the service's own fields; every method's postcondition gives
its answer and the whole new state as a specification function of the old one (`Sessions.Extended`,
`AuthFlow.AuthApply`, `Tokens.Apply`, `TopicRegistry.CreatedAll`, `DeviceFlow.Ask`, `DeviceFlow.Handle`, ...).
Of the methods of `Devices` only some have a row below; each of the others equals the `DeviceFlow` function its
contract names, about which the lemmas speak.
The lemmas are about those functions, over arbitrary sequences of calls; a run of device calls is given with
the states before and after each step (`DeviceCorrelation.Trace`, which every sequence of steps has). Two machines
(`SessionInterleaving`, `AssignInterleaving`) have a step per `await` instead: a run is a sequence of labels,
and which call moves next, what SCAN answers and when time passes are free.

What comes from outside is a parameter: uuids, the clock (seconds, moved only by waiting), the SCAN replies,
whether the broker is connected, whether a payload has its declared shape, and a hash function for passwords.
Keys of the store vanish the moment they expire. SCAN is known by its documented guarantee only: matching
keys present throughout are returned at least once, others of the pattern perhaps, any of them repeatedly. Patterns
are read as Redis reads them, with `*`, `?`, escapes and character classes.

## Where the code departs from its evident intent

The model does what the code does, and the results say what follows.

- `src/device/device.service.ts:421` caches the request class instead of the request, so a telemetry request
  makes no answer acceptable (`TelemetryRequestMatchesNothing`).
- `src/device/device.service.ts:163` prints the topic record instead of its topic, so unicast discovery is
  published below `[object Object]` (`RequestsGoToTarget`).
- `src/mqtt-client/handler/mqtt-message.handler.ts:219` spells `hardware_status`, the topic enum
  (`src/topic/enum/topic-usecase.enum.ts:6`) `hardware-status`: that topic reaches no event (`TopicReachesItsEvent`).
- `src/common/decorator/api-properties/response-code-property.decorator.ts:14` asks for a string code, handlers
  compare with numbers: with string codes only discovery and heartbeat answers change anything
  (`StringCodesChangeLittle`).
- `src/auth/auth.service.ts:249-263` and `src/users/users.service.ts:141-146` both hash a changed password: the
  new password works exactly if it is its own hash (`LoginAfterPasswordChange`).
- `src/topic/topic.service.ts:92-98` sets `isSubscribed` on insertion only: once a disconnect has marked the
  broadcast topic, nothing brings it back (`BroadcastAvailableIff`).
- `src/responser/responser.service.ts:87-110` stores the record before it subscribes: a device whose
  first subscription fails never gets its topics (`StoredOnlineIffAllTopics`).
- `src/session/session.service.ts:67-80` writes the session first and its index key second: a login between the two
  survives a password change that starts then (`LoginSlipsThrough`).
- `src/mqtt-client/mqtt-client.service.ts:79` speaks of nine handlers in priority order; eleven are registered,
  and their order and priorities cannot matter (`AtMostOneHandler`, `PrioritiesDoNotMatter`).

## Model

| member | source | states |
|---|---|---|
| Text.Split | src/session/session.service.ts:236 | `split` by one character gives at least one part, none holding the separator |
| Text.JoinSplit | src/session/session.service.ts:236 | joining the parts gives the string back |
| Redis.RedisService.Get | src/redis/redis.service.ts:13-21 | the value of a live key, nothing otherwise |
| Redis.RedisService.Setex | src/redis/redis.service.ts:32-38 | stores with expiry; refuses a time-to-live below one second and then stores nothing |
| Redis.RedisService.Del | src/redis/redis.service.ts:56-58 | removes that key and counts it if it was there |
| Redis.RedisService.Scan | src/redis/redis.service.ts:40-54 | hands on the server's next reply |
| SessionKeys.SessionIdRoundTrip | src/session/session.service.ts:77-77 | field 3 of a tracking key split at the colons is the session id |
| SessionKeys.FieldThreeIsSessionIdIff | src/session/session.service.ts:235-237 | field 3 recovers every session id exactly for user ids without a colon |
| SessionKeys.MainKeyInjective | src/session/session.service.ts:69-73 | different sessions have different main keys |
| SessionKeys.TrackKeyInjective | src/session/session.service.ts:76-80 | a tracking key determines user and session |
| SessionKeys.PendingKeyInjective | src/device/device.service.ts:108 | a pending key determines the request id |
| SessionKeys.NamespacesDisjoint | src/session/session.service.ts:112 | session, tracking and pending keys never coincide |
| SessionKeys.PatternMatchesExactly | src/session/session.service.ts:217-219 | for a user id without `*`, `?`, `[` and `\` the scan pattern, read as Redis reads it, matches that user's tracking keys and no other string |
| SessionKeys.PatternIsolatesUserIff | src/session/session.service.ts:219-232 | the pattern finds all keys of the user and no other user's if and only if the id has no colon and none of `*`, `?`, `[`, `\` |
| Sessions.SessionService.CreateSession | src/session/session.service.ts:57-88 | both keys written with the full timeout, or nothing and a failure when the timeout is invalid |
| Sessions.SessionService.GetSession | src/session/session.service.ts:110-129 | the stored session, if its key is live |
| Sessions.SessionService.ValidateSession | src/session/session.service.ts:134-144 | true exactly for a live session |
| Sessions.SessionService.DestroySession | src/session/session.service.ts:149-169 | both keys of a live session go; otherwise nothing changes |
| Sessions.SessionService.ExtendSession | src/session/session.service.ts:175-209 | a live session gets the time as last activity and both keys a full timeout; all three outcomes |
| Sessions.SessionService.InvalidateUserSessions | src/session/session.service.ts:215-251 | whatever the server's batches and repetitions, the loop ends and the store is as if all matching keys and the sessions they name had gone at once |
| Sessions.SessionService.DeleteBatch | src/session/session.service.ts:234-239 | the inner loop removes, key by key, the session named and the key |
| Sessions.AfterRepliesIs | src/session/session.service.ts:225-242 | deleting reply by reply equals one removal of everything returned, repetitions or not |
| Sessions.WithSessionAgreed | src/session/session.service.ts:67-80 | writing a session keeps every session's two keys in agreement |
| Sessions.DestroyedAgreed | src/session/session.service.ts:149-163 | destroying removes that session only and keeps the agreement |
| Sessions.SurvivingAgreed | src/session/session.service.ts:67-80 | expiry takes both keys of a session together and changes no other |
| Sessions.InvalidatedExactly | src/session/session.service.ts:215-242 | invalidation removes exactly the user's sessions and tracking keys, and no key of anyone else |
| SessionHistory.StoreRefinesHistory | src/session/session.service.ts:57-242 | over any run, a session is returned exactly when its latest creation or successful extension is less than the timeout ago with no destroy or invalidation since, and with which content; which extensions succeeded is told from the calls alone |
| SessionHistory.SessionContentFixed | src/session/session.service.ts:177-192 | user, name, roles, addresses and login time stay those of the creation; last activity never goes back |
| SessionHistory.GoneStaysGone | src/session/session.service.ts:175-181 | a session that is gone stays gone unless created |
| SessionHistory.LiveAfterInvalidationIsNewer | src/session/session.service.ts:215-242 | whoever is live after an invalidation of its user was created after it |
| SessionInterleaving.StepKeepsInv | src/session/session.service.ts:57-251 | every single Redis command, tick or call start keeps the invariant behind it |
| SessionInvalidation.InvalidationComplete | src/session/session.service.ts:215-242 | when the loop ends, each session of the user live at its start, not being written then and not found by an extension since, is gone from both keys, whatever ran in between |
| SessionInvalidation.InvalidationIsolated | src/session/session.service.ts:234-239 | steps of the loop only remove keys, and only of that user's sessions |
| SessionInvalidation.InvalidationTerminates | src/session/session.service.ts:225-242 | each step of the loop ends it or brings it closer to the end, and nobody else's step sets it back |
| SessionInvalidation.InvalidationNotStuck | src/session/session.service.ts:225-242 | a loop in flight always has a step of its own to take, at worst after the first write of an extension in flight |
| SessionSurvivors.CompleteIff | src/session/session.service.ts:215-242 | a live session of the user is gone from both keys at the end of the loop, whatever else runs and no extension finding it, if and only if nobody is writing it when the loop begins |
| SessionSurvivors.DeadIff | src/session/session.service.ts:215-242 | a written session of the user is dead at the end of the loop, whatever else runs and no extension finding it, if and only if at the start no extension of it is in flight and, if live, it has a tracking key that lives as long |
| SessionSurvivors.ExtensionKeepsLive | src/session/session.service.ts:175-199 | that no extension finds it is needed too: a live session can always outlive the loop through an extension that begins after the loop has |
| SessionSurvivors.LateTrackSurvives | src/session/session.service.ts:67-80 | from any state of the loop with nothing owed and a live session whose tracking key is still to be written: the three steps that end the loop with the session live and tracked |
| SessionSurvivors.LoginSlipsThrough | src/session/session.service.ts:67-80 | from the empty store, the schedule in which a login between its two writes survives the loop |
| SessionSurvivors.SurvivorsWereWritten | src/auth/auth.service.ts:265-266 | whatever is live of the user when the loop of a password change ends was first written after it began, or was being written by an extension or a login then, or was found by an extension since |
| SessionAlone.CreatesAlone | src/session/session.service.ts:57-88 | the three steps of a creation that nothing interleaves with store what the whole call is specified to store |
| SessionAlone.ExtendsAlone | src/session/session.service.ts:175-199 | likewise for an extension, of a live session or of none |
| SessionAlone.DestroysAlone | src/session/session.service.ts:149-163 | likewise for a destroy |
| SessionAlone.InvalidatesAlone | src/session/session.service.ts:215-242 | likewise for a bulk invalidation whose SCAN answers at once |
| SessionSchedules.IndexAgreement | src/session/session.service.ts:67-199 | at await granularity, each live session has a live tracking key expiring no earlier, except between its two writes |
| SessionSchedules.OverlapBreaksIff | src/session/session.service.ts:149-239 | a deletion of a main key between the read and the first write of an extension of that session, and no other step, can be continued to a live session without tracking key and no write of it to come |
| SessionSchedules.ScheduledIff | src/session/session.service.ts:149-239 | the schedule assumption is exact: a run has no such deletion if and only if at every moment of it every continuation without one keeps index and sessions in agreement |
| SessionSchedules.PoisedLosesIndex | src/session/session.service.ts:186-199 | from any state with the main key deleted, an extension still to write and the deletion of the tracking key to come, the steps that lose the index |
| SessionSchedules.OverlapLosesIndex | src/session/session.service.ts:149-199 | one whole schedule, from the empty store, that ends with nothing in flight and a live session without tracking key |
| AuthFlow.SessionAuthGuard.CanActivate | src/common/guard/session-auth.guard.ts:50-108 | passes exactly requests whose cookie names a live session while the timeout is valid, extends it, attaches its own content; a refused request changes nothing |
| AuthFlow.UsersService.FindUserByEmail | src/users/users.service.ts:106-116 | the first active user with the address |
| AuthFlow.UsersService.FindUserById | src/users/users.service.ts:93-104 | the first active user with the id |
| AuthFlow.UsersService.CreateUser | src/users/users.service.ts:25-52 | refuses an address in use, otherwise appends one active user with the roles given |
| AuthFlow.UsersService.UpdatePassword | src/users/users.service.ts:118-160 | hashes what it is given and stores it with the user, if there is one |
| AuthFlow.AuthService.Signup | src/auth/auth.service.ts:70-120 | new viewer and session, or the first of its refusals and no change; with an invalid timeout the user is stored and the call fails |
| AuthFlow.AuthService.Login | src/auth/auth.service.ts:134-164 | a session for the right password, otherwise a refusal and no change; with an invalid timeout a failure |
| AuthFlow.AuthService.Logout | src/auth/auth.service.ts:174-192 | destroys the session of the request |
| AuthFlow.AuthService.ChangePassword | src/auth/auth.service.ts:209-271 | checks in order, stores the new hash, invalidates all sessions of the user |
| AuthFlow.OnlyNewSessionsAfterPasswordChange | src/auth/auth.service.ts:260-268 | over any run, whoever passes the guard as a user after that user's password change does so with a session opened later |
| AuthFlow.LoginAfterPasswordChange | src/auth/auth.service.ts:248-263 | after a change, login accepts exactly the hash text of the new password; the new password itself if and only if it is its own hash |
| AuthRuns.FindsByEmail | src/users/users.service.ts:106-116 | the look-up finds exactly the first active user with the address |
| AuthRuns.FindsById | src/users/users.service.ts:93-104 | the look-up finds exactly the first active user with the id |
| AuthRuns.RefusalsTold | src/auth/auth.service.ts:78-246 | why a sign-up, a login or a password change is refused, first reason first, told from the user table |
| AuthRuns.UsersTold | src/auth/auth.service.ts:70-263 | in every run an accepted sign-up appends its user with the hashed password and the viewer role, an accepted change writes the twice hashed one to the records of that id, and nothing else changes the table |
| AuthRuns.ChangeNeedsOldPassword | src/auth/auth.service.ts:215-263 | a password changes if and only if the new ones agree and are not empty and the first active user of the id holds the hash of the old one; then in exactly the records of that id |
| AuthRuns.AddressesUnique | src/auth/auth.service.ts:86-93 | in no run do two users share an address |
| AuthRuns.LoginAcceptedIff | src/auth/auth.service.ts:134-157 | at every moment a login is accepted exactly for an address signed up before, with a password whose hash is the one stored by the sign-up or by the latest accepted change of that user |
| AuthRuns.SignedUpLogsIn | src/auth/auth.service.ts:95-111 | who signed up and has not changed the password logs in with exactly the passwords of the same hash, hence that password alone for an injective hash |
| AuthSessions.SessionsTold | src/auth/auth.service.ts:70-268 | in every run, what each call does to every session: only its sign-up or login opens it, with the user's own data; only the guard renews it; logout, an accepted password change of its user and time end it |
| AuthSessions.LogoutEnds | src/auth/auth.service.ts:174-184 | a logout ends its session for good, unless a later sign-up or login is given its id, and touches no other |
| AuthSessions.ChangeEndsSessions | src/auth/auth.service.ts:260-266 | an accepted password change ends every session of its user and no other, a refused one none |
| AuthSessions.ClockTold | src/session/session.service.ts:67-80 | the clock the sessions expire by is the time waited |
| Tokens.TokenService.GenerateRefreshToken | src/auth/token.service.ts:32-42 | the user's refresh tokens are replaced by the new text |
| Tokens.TokenService.StoreRefreshToken | src/auth/token.service.ts:44-55 | deletes the user's refresh tokens only, then appends |
| Tokens.TokenService.ValidateRefreshToken | src/auth/token.service.ts:66-74 | valid exactly if some record has that text |
| Tokens.TokenService.RefreshTheToken | src/auth/token.service.ts:76-84 | rotates exactly for a stored token, and returns the raw part of the new one |
| Tokens.TokenService.InvalidateRefreshToken | src/auth/token.service.ts:86-96 | drops the records with that text and no other |
| Tokens.TokenService.GeneratePasswordResetToken | src/auth/token.service.ts:99-108 | appends a reset record and returns its raw part |
| Tokens.TokenService.ValidatePasswordResetToken | src/auth/token.service.ts:110-118 | succeeds exactly for a stored reset token, with an owner of it |
| Tokens.TokenService.InvalidatePasswordResetToken | src/auth/token.service.ts:120-122 | drops that reset token |
| Tokens.TokenService.InvalidateAllRefreshTokensForUser | src/auth/token.service.ts:124-130 | drops the refresh tokens of the user |
| Tokens.AtMostOneRefreshToken | src/auth/token.service.ts:44-55 | in every run each user has at most one refresh token |
| Tokens.CallTold | src/auth/token.service.ts:32-130 | each call deletes exactly what it deletes and stores what it stores; every other token stays |
| Tokens.TokensTold | src/auth/token.service.ts:32-130 | after every run a token is there exactly if some call stored it and none has deleted it since |
| Tokens.RevokedIsInvalid | src/auth/token.service.ts:86-122 | a revoked refresh or reset token is valid no longer, and no other text loses or gains validity |
| Tokens.KindsDoNotInterfere | src/auth/token.service.ts:45-130 | refresh operations never touch reset tokens, nor reset operations refresh tokens |
| Tokens.RotationReplaces | src/auth/token.service.ts:76-84 | the returned token is valid; the presented one stays valid exactly if another user owns it |
| Tokens.SuffixesApart | src/auth/token.service.ts:48-112 | no text is both a refresh and a reset token |
| Tokens.RawPartRoundTripIff | src/auth/token.service.ts:82 | cutting at the first dot recovers the raw part exactly if it has no dot |
| MessageRouter.MqttMessageRouter.Register | src/mqtt-client/router/mqtt-message.router.ts:24-28 | insertion-ordered: a known name keeps its place |
| MessageRouter.MqttMessageRouter.Unregister | src/mqtt-client/router/mqtt-message.router.ts:34-40 | removes the name, and says whether it was there |
| MessageRouter.MqttMessageRouter.Clear | src/mqtt-client/router/mqtt-message.router.ts:87-90 | no handler is left |
| MessageRouter.MqttMessageRouter.Route | src/mqtt-client/router/mqtt-message.router.ts:49-74 | the answer of a matching handler of highest priority, earliest among equals; unknown if none matches |
| MessageRouter.SortIsSorted | src/mqtt-client/router/mqtt-message.router.ts:50-55 | the sort has the same handlers in descending priority |
| MessageRouter.SortedFirstMatchIsChosen | src/mqtt-client/router/mqtt-message.router.ts:50-69 | sorting and taking the first match finds the handler the simple specification chooses |
| MessageRouter.ChosenIsFirst | src/mqtt-client/router/mqtt-message.router.ts:57-73 | the converse: whichever handler is chosen is what the scan finds, and nothing is found exactly if none matches |
| MessageRouter.MapTellsHistory | src/mqtt-client/router/mqtt-message.router.ts:24-40 | after any registrations and removals, each name's handler is the latest registered and its place that of the oldest registration since its last removal |
| MessageRouter.RoutingByHistory | src/mqtt-client/router/mqtt-message.router.ts:24-74 | routing told from the history of registrations alone: which registration answers, that one does whenever something matches, and when none does |
| TopicNames.InitializeMessageRouter | src/mqtt-client/mqtt-client.service.ts:82-95 | the eleven handlers in registration order |
| TopicNames.OnMessage | src/mqtt-client/mqtt-client.service.ts:165-169 | the event emitted for a message, by topic and payload |
| TopicNames.AtMostOneHandler | src/mqtt-client/handler/mqtt-message.handler.ts:35-37 | no string ends in two of the default suffixes |
| TopicNames.PrioritiesDoNotMatter | src/mqtt-client/handler/mqtt-message.handler.ts:83-242 | whatever priorities the default handlers had, every string would be routed alike |
| TopicNames.TopicReachesItsEvent | src/mqtt-client/handler/mqtt-message.handler.ts:83-242 | for every base and device, the topic of a use case reaches that use case's event; those without a handler, hardware status among them, reach unknown |
| TopicNames.DeviceTopicInjective | src/topic/topic.service.ts:33 | for one base a device topic determines device and use case, slashes in ids or not |
| TopicNames.NoUseCaseEndsInAnother | src/topic/enum/topic-usecase.enum.ts:1-17 | no use case ends in a slash and another one |
| TopicNames.BaseTopicInjective | src/topic/topic.service.ts:64 | a base topic determines the device |
| TopicNames.BaseMeetsDeviceTopicIff | src/topic/topic.service.ts:33-64 | a base topic is a device topic exactly when the one id spells out the other and a use case |
| TopicPatterns.MatchesFilledHole | src/config/topic-builder.ts:37-47 | the matcher accepts exactly the pattern with a non-empty slash-free segment in place of the device id |
| TopicPatterns.MatchesPlainText | src/config/topic-builder.ts:37-47 | a pattern without placeholder accepts itself only |
| TopicPatterns.PrinterMatchesOwnPattern | src/config/topic-builder.ts:8-33 | a printed topic matches its own pattern exactly for non-empty slash-free ids, and then no other kind's pattern (patterns of src/topic/enum/topics-const.ts) |
| TopicRegistry.TopicService.StoreTopic | src/topic/topic.service.ts:75-103 | the record under topic, use case and device, inserted if missing |
| TopicRegistry.TopicService.CreateTopic | src/topic/topic.service.ts:27-47 | looks up by broker, topic and device first, then stores |
| TopicRegistry.TopicService.CreateDeviceBaseTopic | src/topic/topic.service.ts:61-73 | finds or stores the base topic |
| TopicRegistry.TopicService.CreateAllTopicsForDevice | src/topic/topic.service.ts:49-59 | base topic and every use case, in order |
| TopicRegistry.TopicService.CreateTopicsFor | src/topic/topic.service.ts:53-56 | the loop over the use cases equals its recursive specification |
| TopicRegistry.TopicService.GetBroadcastTopic | src/topic/topic.service.ts:105-119 | the first subscribed broadcast record of the broker, or not found |
| TopicRegistry.TopicService.GetDeviceTopicByUseCase | src/topic/topic.service.ts:121-136 | the first record of device and use case, or not found |
| TopicRegistry.TopicService.GetAllSubscribedTopics | src/topic/topic.service.ts:166-178 | exactly the subscribed records, or not found if there is none |
| TopicRegistry.TopicService.MarkUnsubscribed | src/topic/topic.service.ts:180-195 | every record with that topic is marked, no other changes |
| TopicRegistry.TopicService.MarkAllUnsubscribed | src/mqtt-client/mqtt-client.service.ts:374-381 | after the disconnect's loop no record is subscribed and nothing else changed |
| TopicRuns.ApplyKeepsInv | src/topic/topic.service.ts:27-103 | every registry call keeps the invariant and, but for a disconnect, only appends |
| TopicRuns.NoDuplicateRecords | src/topic/topic.service.ts:35-91 | in every run, under changing broker URLs, no two records share topic, use case and device |
| TopicRuns.BroadcastTopicStable | src/topic/topic.service.ts:105-119 | whenever a broadcast topic is found it is the plain one: repeated discovery never makes it grow |
| TopicRuns.BroadcastAvailableIff | src/mqtt-client/mqtt-client.service.ts:374-383 | broadcast discovery works exactly in runs that have introduced the topic and not disconnected since |
| TopicRuns.CreateAllIdempotent | src/topic/topic.service.ts:49-59 | a second creation of all topics, under any broker URL, returns the same sixteen distinct topics and changes nothing |
| TopicRuns.CreateAllGivesAll | src/topic/topic.service.ts:49-59 | afterwards a topic is found for the device under every use case |
| TopicRuns.TopicsStay | src/topic/topic.service.ts:121-136 | a topic found for a device and use case is found after any later call |
| TopicRuns.TopicColumnUnique | src/topic/repository/mqtt-topic.entity.ts:22 | for slash-free device ids every topic string is stored once, unless the base reads as an object prints |
| TopicRuns.TopicColumnUniqueIff | src/topic/repository/mqtt-topic.entity.ts:22 | for any ids, every topic string is stored once if and only if no stored id spells out what another record's topic appends |
| TopicCalls.HoldsIff | src/topic/topic.service.ts:27-103 | the registry holds a record of a kind (base, use case, discovery, printed discovery) with given ids exactly when some call of the run asked for it, a discovery while broadcast was available |
| TopicCalls.UniqueByCallsIff | src/topic/repository/mqtt-topic.entity.ts:22 | told from the calls alone: every topic string is stored once if and only if no call's device id spells out what the topic of another call's record appends |
| TopicCalls.RowTold | src/topic/topic.service.ts:92-98 | every record was stored by one call, keeps that call's broker URL, and is subscribed exactly until the next disconnect |
| Devices.Repositories.UpdateSensors | src/device/device.service.ts:258-264 | a partial update reaches every record of the device and no other |
| Devices.DeviceService.AssignFunction | src/device/device.service.ts:231-278 | whole new state and failure of an assignment request |
| Devices.ResponserService.HandleDiscoveryResponse | src/responser/responser.service.ts:71-118 | whole new state and failure: revive, store, create topics, consume unless broadcast |
| Devices.ResponserService.HandleResponse | src/responser/responser.service.ts:120-273 | whole new state and failure of the other handlers |
| Devices.ListenerService.TransformAndValidate | src/responser/listener.service.ts:29-72 | which answers match a pending request, and why the others do not |
| Devices.ListenerService.HandleEvent | src/responser/listener.service.ts:75-166 | admission by suffix and response id, validation, then the handler |
| DeviceCorrelation.AnswerMatchesIff | src/responser/listener.service.ts:49-72 | at every moment of every run an answer matches exactly if a request with its id and user was stored less than the time-to-live ago and neither replaced nor consumed since |
| DeviceCorrelation.EffectHasRequest | src/responser/listener.service.ts:49-72 | whatever an answer changes, such a request came before it |
| DeviceCorrelation.ConsumesIff | src/responser/responser.service.ts:111-273 | an answer consumes its request exactly if its handler succeeds, except broadcast discovery and unfinished upgrades |
| DeviceCorrelation.EffectConsumes | src/responser/responser.service.ts:120-273 | outside discovery, an answer that changes anything consumes its request |
| DeviceCorrelation.ConsumedTwiceStoredBetween | src/responser/responser.service.ts:59-69 | between two consumptions of one id it was stored again |
| DeviceCorrelation.ConsumedAtMostOnce | src/responser/responser.service.ts:59-69 | with fresh ids every request is consumed at most once, and a further answer outside discovery changes nothing |
| DeviceCorrelation.TelemetryRequestMatchesNothing | src/device/device.service.ts:421 | a telemetry request makes no answer acceptable |
| DeviceCorrelation.StringCodesChangeLittle | src/responser/responser.service.ts:120-248 | with string codes only discovery and heartbeat answers change anything |
| DeviceCorrelation.StringCodesStoreNoReading | src/responser/responser.service.ts:221-269 | with string codes throughout, no telemetry or hardware reading is ever stored |
| DeviceCorrelation.ReadingsAreConsumedAnswers | src/responser/responser.service.ts:221-269 | the stored telemetry and hardware readings are those of the consumed answers, one each and in order |
| DeviceLifecycle.EditOfStep | src/responser/responser.service.ts:71-219 | every step edits the sensor table at most once, and only as its own checks allow |
| DeviceLifecycle.AssignedWithinCapabilities | src/device/device.service.ts:246-308 | at every moment of every run there is one record per device, and an assigned one is assigned within its capabilities |
| DeviceLifecycle.RecordsEvolve | src/responser/responser.service.ts:77-142 | no record is removed; id and capabilities are fixed and the provision state only moves from discovered to assigned |
| DeviceLifecycle.LiveIff | src/device/device.service.ts:310-323 | a device is live exactly if it has been discovered and not deleted since |
| DeviceRecords.StepWrites | src/responser/responser.service.ts:77-219 | every step writes to every stored record, field by field, exactly what an accepted call of that kind for its own device says, and no other field |
| DeviceRecords.StepAdds | src/responser/responser.service.ts:87-95 | only a first discovery adds a record, one, with the data the device sent and the flags set at first |
| DeviceRecords.RecordTold | src/device/device.service.ts:258-367 | at every moment each stored record has the functionality of the latest assignment that passed, the configuration last set, the connection, reboot and upgrade last reported, and otherwise what it was stored with |
| DeviceRecords.TableTold | src/responser/responser.service.ts:87-95 | there are no other records than those, one for each first discovery and in their order |
| DeviceRecords.AssignedByLatest | src/device/device.service.ts:258-264 | whatever is assigned was assigned by the latest passing assignment of its device, with its functionality |
| DeviceAnswers.AnswersTold | src/device/device.service.ts:120-429 | at every moment each call goes through, or is refused for the first of its reasons, told from the tables |
| DeviceAnswers.EntryTold | src/device/device.service.ts:105-118 | what a request that passes caches: its own code, id and user with the full time-to-live; blanks for telemetry |
| DeviceAnswers.ClockTold | src/device/device.service.ts:105-118 | the clock requests expire by is the time waited |
| DeviceRegistry.TopicsTold | src/responser/responser.service.ts:85-104 | at every moment the registry holds a topic of a kind exactly if some step of the run has asked for it |
| DeviceRegistry.BroadcastTold | src/mqtt-client/mqtt-client.service.ts:374-383 | broadcast discovery finds its topic exactly if the backend has connected, or stored a device under the broker's id, and not disconnected since it first did |
| DeviceTopics.RegistryIsRun | src/responser/responser.service.ts:85-104 | the registry of any device run is that of a run of registry calls, so the results about those hold |
| DeviceTopics.RequestsGoToTarget | src/device/device.service.ts:118-429 | in every run a request is published exactly if its checks pass and the broker is there, always on its own topic |
| DeviceTopics.TopicsIff | src/topic/topic.service.ts:121-136 | a device can be assigned, configured or asked for telemetry exactly if the broker took the first subscription of the discovery that stored it |
| DeviceTopics.KnownIff | src/responser/responser.service.ts:77-95 | a stored device was stored by one accepted discovery, and only one |
| DeviceTopics.StoredOnlineIffAllTopics | src/responser/responser.service.ts:87-110 | a stored device has all topics exactly if the broker took the first subscription of that discovery; otherwise it never gets those its requests need |
| DeviceTopics.EveryDeviceHasAllTopics | src/responser/responser.service.ts:100-104 | without broker failures every stored device has all its topics |
| DeviceTopics.DeleteThenRediscover | src/responser/responser.service.ts:77-87 | a deleted device accepted again, whatever ran in between, has its record live with all settings as before, and connection state and dates as last reported meanwhile; no other record and no topic changes |
| DeviceTopics.DeletedIsHidden | src/device/device.service.ts:310-323 | a deleted device is not found until it is accepted again, whatever else runs in between |
| DeviceTopics.DeletedRecordStep | src/device/device.service.ts:280-368 | no request and no assignment reaches the record of a deleted device; only heartbeat, reboot and upgrade reports do |
| DeviceTopics.RoutedIsAdmittedIff | src/responser/listener.service.ts:75-166 | what the router sends to an entry point always has the suffix asked for, so only a missing response id turns messages away, and only from discovery and assignment |
| AssignInterleaving.AssignedWithinDespiteInterleaving | src/device/device.service.ts:246-264 | whatever runs between check and update, an assigned record is assigned within its capabilities, if overlapping discoveries of one device report the same capabilities |
| AssignInterleaving.StepKeepsInv | src/responser/responser.service.ts:134-142 | every single step keeps the invariant behind it |
| AssignInterleaving.ProceedWrites | src/device/device.service.ts:258-264 | what the step after the check writes, by field, to the records of its device and to no other |
| AssignInterleaving.TwoRecordsBreak | src/responser/responser.service.ts:77-95 | from any state with two discoveries of an unknown device in flight, one of them alone with some capability, the steps that leave a record assigned to what it cannot do |
| AssignInterleaving.ConflictReachable | src/responser/responser.service.ts:77-95 | from the empty table two overlapping discoveries with different capabilities come to such a look-up |
| AssignInterleaving.ConflictBreaksIff | src/responser/responser.service.ts:77-95 | a look-up that overlaps a discovery of the device with other capabilities, and no other step, can be continued to such a record |
| AssignInterleaving.ScheduledIff | src/responser/responser.service.ts:77-142 | the assumption is exact: a run has no such look-up if and only if at every moment of it no continuation without one leaves such a record |

## Left out

- IndexAgreement: assumes that a session key is not deleted between the read and the first write of an extension of that session; `SessionSchedules.ScheduledIff` says that this is exactly what the agreement needs.
- InvalidationComplete: answers for sessions that nobody is writing when the loop begins and no extension finds meanwhile; `SessionSurvivors.CompleteIff`, `DeadIff` and `ExtensionKeepsLive` say that both are exactly what it needs.
- AssignedWithinDespiteInterleaving: assumes that overlapping discoveries of one device report the same set of capabilities; `AssignInterleaving.ScheduledIff` says that this is exactly what it needs.
- StoreRefinesHistory: treats each call as one moment; calls that overlap are the subject of `SessionInterleaving`. Session ids are without colon, user ids without colon and pattern characters, as uuids are; `FieldThreeIsSessionIdIff` and `PatternIsolatesUserIff` say exactly what fails otherwise.
- SessionHistory and SessionInterleaving take a valid session timeout; with an invalid one no session is ever stored, as `CreateSession` states, and `AuthFlow` covers both.
- InvalidateUserSessions: the method takes the SCAN replies of an otherwise idle server; concurrent writers are in `SessionInterleaving`, `SessionInvalidation` and `SessionSurvivors`.
- TopicColumnUnique: for slash-free device ids only; `TopicCalls.UniqueByCallsIff` is the statement for all.
- StoreTopic: always appends. The topic column is declared unique (`src/topic/repository/mqtt-topic.entity.ts:22`) and `synchronize` defaults to true (`src/config/typeorm-module-config.ts:17-20`), so the database may refuse the second of two records with one topic string.
- CreateUser: always appends. The user columns declared unique (`src/users/entities/user.entity.ts:18-21`) may make the database refuse an address that an inactive user has, or that a sign-up in between has taken.
- AtMostOneRefreshToken: takes `Like` in the filter of a deletion as a test of the suffix. The connection is to MongoDB (`src/config/typeorm-module-config.ts:22`), and whether its driver filters so is not part of this model.
- HandleDiscoveryResponse: a discovery and the loop over its topics are one step, and the broker does not come or go in the middle of a call; it may refuse any subscription. Nested sensor data is taken as a record of the right type; a missing one is an error.
- HandleResponse: the handlers other than discovery are one method that tells them apart by payload, and so are the eight event entry points in `HandleEvent`. Progress texts and log lines are dropped; of a telemetry or hardware payload only device and value are kept.
- GetDeviceTelemetry: the id and user inside the request are not modelled, because the code stores neither.
- ChangePassword: whole calls; what is live after its invalidation when other calls overlap it is `SessionSurvivors.SurvivorsWereWritten`.
- MatchesFilledHole: the text around the placeholder holds no character with a meaning in regular expressions, and only the device placeholder is filled.
- MarkAllUnsubscribed: the updates that a disconnect starts without awaiting them are taken as one step.
- Redis failures other than a refused time-to-live, and replies to SCAN while the table is resized beyond the documented guarantee.
- bcrypt with fresh salts: password hashing is one function of the text, injective where a result needs it. Cookies, JWT access tokens and the token blacklist are not modelled.
- Shape checks and JSON: whether a payload has its declared shape is an input; encoding and decoding are taken as inverse.
- MQTT transport, reconnection, publications that fail while connected, and the WebSocket gateway, whose message handlers have no caller.
- `resetPassword` (always refuses), `requestPasswordReset` (stores nothing), user roles and administration (so every user of a run is active), and the remaining read-only listings of devices and topics: they would only add easy members.
