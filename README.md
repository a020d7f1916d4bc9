# Strive conference service: a verified model of its coordination core

Strive (formerly PaderConference) is a video-conference service. Its server coordinates
conferences, rooms, chat, permissions and equipment through a mediator that sends requests
and publishes notifications; its web client derives what it shows from state the server
synchronises. This project models in Dafny the bookkeeping both sides do and proves what
the code and its tests promise about it:

- the typing-indicator timer, which multiplexes many (participant, channel) deadlines onto
  one wait on the earliest of them (`TypingTimer`);
- the join handler with its kick of a replaced session and its announcement order
  (`JoinConference`), the room clean-up when a conference closes (`ConferenceClosed`), the
  subscription clean-up when a participant leaves (`SubscriptionCleanup`), the guarded
  equipment command (`EquipmentCommands`) and the hub's connection registry (`CoreHub`);
- the validator of conference data (`ConferenceValidation`);
- layered permission resolution (`PermissionStack`) and temporary permissions
  (`TemporaryPermissions`);
- the room system: the participant-to-room repository with its Joined / Switched / Left
  transition tags, the batch room assignment (`Rooms`), and conference opening, closing,
  joining, moving and kicking on top of it (`ConferenceControl`);
- chat recipients, the typing set and message windows (`Chat`);
- on the client: the whiteboard path chunker (`PathCompression`), the equipment command
  history (`EquipmentReducer`), the room and participant selectors (`RoomSelectors`,
  `ConferenceSelectors`) and the device availability check (`DeviceSagas`).

The mediator is an append-only log of the messages sent and published (`Common.Mediator`);
every handler's contract states exactly what it appends. Repositories are classes whose
fields are maps; a repository write that the code reports as a concurrency failure is an
error value of a `Result`. Where the source mutates state in place (the timer, the
repositories, the services, the reducer, the loops of the chunker and of the device check)
the model is a class or a method with a loop, proved against a specification function;
pure selectors and rules are functions with lemmas.

Clocks are integer parameters (`now`); a wait elapsing is the explicit step
`ParticipantTypingTimer.DelayElapsed`, and the loop it resumes is
`ParticipantTypingTimer.Resume`. The cron parser, the parser of synchronised-object ids
and the set of defined permission types are parameters.

Two behaviours of the code that are easy to misread:

- A room write is not checked against a believed current room: the code's
  `SetParticipantRoom` takes only the participant and the target room. It fails with a
  concurrency error when the room does not exist (`ConferenceClosedNotificationHandler.cs`, lines 29-30). It may also fail when a
  concurrent change conflicts with it (`SetParticipantRoomUseCaseTests.cs`, lines 91-94).
  `RoomRepository.SetParticipantRoom` models both. The conflict is an input (`conflicted`,
  and `conflicts` for a batch), because the store's concurrency control is not part of this
  model.
- `ConferenceClosedNotificationHandler.cs` is the older PaderConference handler. Its
  participants notification only lists the participants. The newer room tests expect
  `Left` tags when a conference closes. Both notifications are modelled
  (`ParticipantsRoomChangedList` and `ParticipantsRoomChanged`): the handler publishes
  the first, `ConferenceService.CloseConference` the second.

## Model

Paths are relative to the repository root. Server paths begin with
`src/Services/ConferenceManagement/`; client paths with `src/Web/WebSPA/Client/src/features/`.

| member | source | states |
|---|---|---|
| TypingTimer.ParticipantTypingTimer.RemoveParticipantTypingAfter | src/Services/ConferenceManagement/Strive.Core/Services/Chat/ParticipantTypingTimer.cs:26-37 | the pair's deadline becomes now + timespan, replacing any earlier one and leaving other pairs alone; the reschedule then fires exactly the entries due at now, in deadline order, and keeps the rest |
| TypingTimer.ParticipantTypingTimer.CancelAllTimersOfParticipant | src/Services/ConferenceManagement/Strive.Core/Services/Chat/ParticipantTypingTimer.cs:40-52 | returns exactly the channels of the participant's entries, removes exactly those entries, keeps every other participant's, and reschedules |
| TypingTimer.ParticipantTypingTimer.CancelTimer | src/Services/ConferenceManagement/Strive.Core/Services/Chat/ParticipantTypingTimer.cs:55-61 | an absent pair changes nothing: not the deadlines, not the live wait, not the log; a present pair is removed and a reschedule follows |
| TypingTimer.ParticipantTypingTimer.CancelAllTimersOfConference | src/Services/ConferenceManagement/Strive.Core/Services/Chat/ParticipantTypingTimer.cs:64-75 | removes exactly the entries whose participant belongs to the conference, and reschedules if and only if at least one was removed |
| TypingTimer.ParticipantTypingTimer.Reschedule | src/Services/ConferenceManagement/Strive.Core/Services/Chat/ParticipantTypingTimer.cs:78-123 | cancels the live wait; every entry already due is removed and "typing = false" is sent for it once, earliest first, without waiting; the new wait is on an earliest remaining entry, which is not yet due; there is no wait exactly when no entry remains |
| TypingTimer.ParticipantTypingTimer.Drain | src/Services/ConferenceManagement/Strive.Core/Services/Chat/ParticipantTypingTimer.cs:80-113 | the loop of the reschedule: what remains is exactly the entries not yet due; the fired list holds every due entry once, in non-decreasing deadline order; the log grows by one "typing = false" per fired entry, in that order |
| TypingTimer.ParticipantTypingTimer.FireDue | src/Services/ConferenceManagement/Strive.Core/Services/Chat/ParticipantTypingTimer.cs:101-121 | an earliest entry that is already due is removed, and its "typing = false" is sent after the ones fired before it |
| TypingTimer.ParticipantTypingTimer.DelayElapsed | src/Services/ConferenceManagement/Strive.Core/Services/Chat/ParticipantTypingTimer.cs:104-113 | the live wait elapses only once its deadline is reached; its loop is then queued to resume, and the deadlines are unchanged |
| TypingTimer.ParticipantTypingTimer.Resume | src/Services/ConferenceManagement/Strive.Core/Services/Chat/ParticipantTypingTimer.cs:115-128 | a resumed loop removes its target and sends "typing = false" if and only if the removal succeeded, so a cancelled or already fired entry is never delivered; it then reschedules |
| TypingTimer.NothingDueFiresNothing | src/Services/ConferenceManagement/Strive.Core/Services/Chat/ParticipantTypingTimer.cs:104-108 | when no deadline has been reached, a reschedule fires nothing |
| TypingTimer.DrainComplete | src/Services/ConferenceManagement/Strive.Core/Services/Chat/ParticipantTypingTimer.cs:96-121 | once no remaining entry is due, the loop has fired exactly the due entries, each once and in deadline order, and kept exactly the others |
| JoinConference.HandleJoin | src/Services/ConferenceManagement/Strive.Core/Services/ConferenceControl/UseCases/JoinConferenceRequestHandler.cs:27-61 | the connection becomes the participant's session; the trace is the kick of the replaced session (if any), then Initialized, EnableMessaging and Joined; a join no longer current under the lock fails with a concurrency error after at most the kick; the lock is released on both exits |
| JoinConference.JoinedParticipantsRepository.AddParticipant | src/Services/ConferenceManagement/Strive.Core/Services/ConferenceControl/UseCases/JoinConferenceRequestHandler.cs:35-36 | the connection becomes the participant's session and the session it replaces, if any, is returned; the lock list is untouched |
| JoinConference.JoinedParticipantsRepository.LockParticipantJoin | src/Services/ConferenceManagement/Strive.Core/Services/ConferenceControl/UseCases/JoinConferenceRequestHandler.cs:45 | the participant's join lock is taken on top of the held locks; sessions are untouched |
| JoinConference.JoinedParticipantsRepository.IsParticipantJoined | src/Services/ConferenceManagement/Strive.Core/Services/ConferenceControl/UseCases/JoinConferenceRequestHandler.cs:47-48 | true exactly when the session stored for the id is in the participant's conference and on this connection; so a later join of the same id from another connection makes the earlier join fail this check |
| JoinConference.JoinedParticipantsRepository.UnlockParticipantJoin | src/Services/ConferenceManagement/Strive.Core/Services/ConferenceControl/UseCases/JoinConferenceRequestHandler.cs:45 | disposing the lock releases exactly the most recently taken one; sessions are untouched |
| JoinConference.Announce | src/Services/ConferenceManagement/Strive.Core/Services/ConferenceControl/UseCases/JoinConferenceRequestHandler.cs:53-58 | appends Initialized, EnableMessaging and Joined, in that order |
| JoinConference.JoinKicksPreviousSessionOnce | src/Services/ConferenceManagement/Strive.Core.Tests/Services/ConferenceControl/UseCases/JoinConferenceRequestHandlerTests.cs:96-122 | exactly one kick when a previous session existed and none otherwise; it names the previous conference, the same participant id, the previous connection and the reason NewSessionConnected |
| JoinConference.JoinAnnouncesOnce | src/Services/ConferenceManagement/Strive.Core.Tests/Services/ConferenceControl/UseCases/JoinConferenceRequestHandlerTests.cs:49-66 | a current join sends EnableMessaging once and publishes Initialized and Joined once each; a join that lost the race publishes none of them |
| JoinConference.JoinAnnouncesInOrder | src/Services/ConferenceManagement/Strive.Core.Tests/Services/ConferenceControl/UseCases/JoinConferenceRequestHandlerTests.cs:68-94 | in a current join the kick, if any, comes first, then Initialized, then EnableMessaging, then Joined |
| JoinConference.CountTrace | src/Services/ConferenceManagement/Strive.Core/Services/ConferenceControl/UseCases/JoinConferenceRequestHandler.cs:35-58 | the number of messages of each kind in a join trace is the sum over its parts: kick, then the three announcements when the join is current |
| ConferenceClosed.HandleConferenceClosed | src/Services/ConferenceManagement/PaderConference.Core/Services/Rooms/NotificationHandlers/ConferenceClosedNotificationHandler.cs:22-36 | all rooms and mappings of the conference are gone and other conferences keep theirs; exactly two notifications follow, rooms first; the first lists exactly the deleted rooms and the second exactly the removed participants, each once |
| Rooms.RoomRepository.DeleteAllRoomsAndMappingsOfConference | src/Services/ConferenceManagement/PaderConference.Core/Services/Rooms/NotificationHandlers/ConferenceClosedNotificationHandler.cs:29-32 | one call removes every room and mapping of the conference and lists the deleted room and participant ids without repetition; afterwards no room of the conference exists, so no later write can map anybody into it |
| SubscriptionCleanup.HandleParticipantLeft | src/Services/ConferenceManagement/Strive.Core/Services/Synchronization/NotificationHandlers/ParticipantLeftNotificationHandler.cs:24-34 | all subscriptions of the participant are removed and nobody else's; one update is published if and only if something was removed, listing the removed ids parsed in order and nothing added; the connection id plays no part |
| SubscriptionCleanup.LeftNotifications | src/Services/ConferenceManagement/Strive.Core/Services/Synchronization/NotificationHandlers/ParticipantLeftNotificationHandler.cs:29-33 | at most one notification, present exactly when some subscription was removed, with the parsed ids as removed and nothing as added |
| SubscriptionCleanup.SubscriptionsRepository.Remove | src/Services/ConferenceManagement/Strive.Core/Services/Synchronization/NotificationHandlers/ParticipantLeftNotificationHandler.cs:28 | removes and returns the participant's subscriptions; nothing when there were none |
| EquipmentCommands.HandleSendEquipmentCommand | src/Services/ConferenceManagement/Strive.Core/Services/Equipment/UseCases/SendEquipmentCommandUseCase.cs:22-33 | an unknown (participant, connection) fails with NotInitialized and publishes nothing; a known one publishes exactly one command notification |
| EquipmentCommands.CommandOutcome | src/Services/ConferenceManagement/Strive.Core/Services/Equipment/UseCases/SendEquipmentCommandUseCase.cs:24-30 | success exactly for a known connection; the error is NotInitialized with nothing published; on success one notification copying participant, connection, source, device and action unchanged |
| EquipmentCommands.EquipmentConnectionRepository.GetConnection | src/Services/ConferenceManagement/Strive.Core/Services/Equipment/UseCases/SendEquipmentCommandUseCase.cs:24 | the stored connection of the (participant, connection id) pair, and none when there is none; nothing changes |
| CoreHub.CoreHubConnections.SetParticipant | src/Services/ConferenceManagement/Strive/Hubs/Core/CoreHubConnections.cs:11-14 | stores the connection for the id, replacing any previous one; other ids unchanged |
| CoreHub.CoreHubConnections.RemoveParticipant | src/Services/ConferenceManagement/Strive/Hubs/Core/CoreHubConnections.cs:16-19 | removes the id whatever its connection; an absent id is a no-op; other ids unchanged |
| CoreHub.CoreHubConnections.TryRemoveParticipant | src/Services/ConferenceManagement/Strive/Hubs/Core/CoreHubConnections.cs:21-24 | removes the entry only when the stored connection is the given one and returns true exactly then; otherwise the map is unchanged |
| CoreHub.CoreHubConnections.TryGetParticipant | src/Services/ConferenceManagement/Strive/Hubs/Core/CoreHubConnections.cs:26-29 | true with the stored connection exactly when the id is present |
| CoreHub.StaleDisconnectKeepsNewConnection | src/Services/ConferenceManagement/Strive/Hubs/Core/CoreHubConnections.cs:21-24 | a disconnect of an old connection that arrives after a reconnect leaves the new connection registered |
| ConferenceValidation.ValidIffNoFailures | src/Services/ConferenceManagement/PaderConference.Core/Dto/Validation/ConferenceDataValidator.cs:13-42 | the data breaks no rule exactly when every rule holds, stated directly: a configuration with a moderator, a cron that is absent or parses, the three chat values at least 1, and for every permission group a defined type and every entry a known key with a value of its type |
| ConferenceValidation.ConfigurationValidIffNoFailures | src/Services/ConferenceManagement/PaderConference.Core/Dto/Validation/ConferenceDataValidator.cs:14-32 | a present configuration is reported for nothing exactly when it has a moderator, an absent or parsable cron, and typing interval, typing timeout and history of at least 1 |
| ConferenceValidation.PermissionsValidIffNoFailures | src/Services/ConferenceManagement/PaderConference.Core/Dto/Validation/ConferenceDataValidator.cs:34-42 | the permission groups are reported for nothing exactly when every group type is defined and every entry's key is known and its value has that key's type |
| ConferenceValidation.UnknownKeyReportedTwice | src/Services/ConferenceManagement/PaderConference.Core/Dto/Validation/ConferenceDataValidator.cs:37-41 | both entry rules run on an unknown key, so it is reported as unknown and as a type mismatch |
| ConferenceValidation.MissingConfigurationCrashesAsWritten | src/Services/ConferenceManagement/PaderConference.Core/Dto/Validation/ConferenceDataValidator.cs:13-14 | data without a configuration aborts the validator as written, where the intended report is exactly "configuration missing" |
| PermissionStack.FlattenKeys | src/Services/ConferenceManagement/Strive.Core.Tests/Services/Permissions/CachedPermissionStackTests.cs:53-69 | the overlaid layers set exactly the keys some layer sets |
| PermissionStack.FlattenLastWins | src/Services/ConferenceManagement/Strive.Core.Tests/Services/Permissions/CachedPermissionStackTests.cs:70-71 | a key takes the value of the last layer that sets it, so a key set only by an earlier layer keeps that layer's value |
| PermissionStack.GetPermissionValueResolves | src/Services/ConferenceManagement/Strive.Core.Tests/Services/Permissions/CachedPermissionStackTests.cs:16-51 | a key no layer sets reads as its type's default; otherwise it reads as the last setting layer's value when that value has the permission's type, and as a type mismatch when it does not |
| PermissionStack.FlattenPush | src/Services/ConferenceManagement/Strive.Core.Tests/Services/Permissions/CachedPermissionStackTests.cs:16-33 | a layer pushed on top decides every key it sets and leaves every other key as below |
| PermissionStack.LaterLayerWinsExample | src/Services/ConferenceManagement/Strive.Core.Tests/Services/Permissions/CachedPermissionStackTests.cs:16-51 | the tests' two layers: the later value of the shared key wins, and an integer permission set by neither reads as 0 |
| PermissionStack.FlattenExample | src/Services/ConferenceManagement/Strive.Core.Tests/Services/Permissions/CachedPermissionStackTests.cs:53-71 | the tests' flatten: two keys, the overlapping one with the last layer's value and the other with the earlier layer's |
| TemporaryPermissions.PermissionService.SetTemporaryPermission | src/Services/ConferenceManagement/Strive.IntegrationTests/Services/PermissionTests.cs:43-133 | succeeds exactly when the issuer holds the grant permission and a granted value has its permission's type; success sets or (with no value) revokes only the target's key; a denied issuer gets PermissionDenied, a permitted issuer with an ill-typed value or unknown key gets PermissionValueInvalid, and on either error the map is unchanged |
| TemporaryPermissions.PermissionService.RemoveTemporaryPermissions | src/Services/ConferenceManagement/Strive.IntegrationTests/Services/PermissionTests.cs:194-219 | a participant that left has no temporary permissions; the others keep theirs |
| TemporaryPermissions.PermissionService.FetchPermissions | src/Services/ConferenceManagement/Strive.IntegrationTests/Services/PermissionTests.cs:135-192 | one's own layers are always given, under one's own id and never empty; another participant's only to a moderator, otherwise PermissionDenied |
| TemporaryPermissions.WithTemporaryChangesOnlyTheKey | src/Services/ConferenceManagement/Strive.IntegrationTests/Services/PermissionTests.cs:43-109 | after setting, the target's temporary layer has the key with the value; after revoking it has no such key and no empty entry is kept; other keys and other participants are unchanged |
| TemporaryPermissions.GrantThenRevokeRestores | src/Services/ConferenceManagement/Strive.IntegrationTests/Services/PermissionTests.cs:81-109 | revoking a grant to a participant without other temporary permissions gives back the map from before the grant |
| TemporaryPermissions.TemporaryLayerDecides | src/Services/ConferenceManagement/Strive.IntegrationTests/Services/PermissionTests.cs:43-79 | a temporary permission decides the participant's effective value for its key, whatever the layers below say |
| TemporaryPermissions.NoTemporaryFallsBack | src/Services/ConferenceManagement/Strive.IntegrationTests/Services/PermissionTests.cs:81-109 | without a temporary entry for a key, the effective value is the one the configured layers give |
| TemporaryPermissions.ModeratorLayerDecides | src/Services/ConferenceManagement/Strive.IntegrationTests/Services/PermissionTests.cs:221-253 | for a key neither the room layer nor a temporary entry sets, a moderator gets the moderator layer's value, so a moderator permission configured false resolves to false |
| TemporaryPermissions.GrantRightFollowsModeratorLayer | src/Services/ConferenceManagement/Strive.IntegrationTests/Services/PermissionTests.cs:111-133 | a non-moderator without a layer setting it cannot grant temporary permissions; a moderator can exactly when the moderator layer sets it to true |
| Rooms.RoomRepository.SetParticipantRoom | src/Services/ConferenceManagement/Strive.Core.Tests/Services/Rooms/UseCases/SetParticipantRoomUseCaseTests.cs:39-94 | the write succeeds exactly when the target room exists and no concurrent change conflicts with it; it then returns the previous room and maps the participant to the target; otherwise it fails with a concurrency error and nothing changes |
| Rooms.RoomRepository.CreateRoom | src/Services/ConferenceManagement/Strive.Core.IntegrationTests/Services/RoomTests.cs:94-128 | stores the room under its conference and id with its display name, replacing an older one with the same key; no mapping changes and the repository invariant holds |
| Rooms.RoomRepository.UnsetParticipantRoom | src/Services/ConferenceManagement/Strive.Core.IntegrationTests/Services/RoomTests.cs:235-258 | removes the participant's mapping and returns the room it had, or none; rooms and other mappings unchanged |
| Rooms.SetParticipantRooms | src/Services/ConferenceManagement/Strive.Core.Tests/Services/Rooms/UseCases/SetParticipantRoomUseCaseTests.cs:39-108 | every assignment is written in order; a write that fails, because its room is missing or because it conflicts, is skipped and does not stop the others; no error escapes; one notification with a tag per successful move is published, or nothing when no write succeeded |
| Rooms.BatchChangesExactlySucceeded | src/Services/ConferenceManagement/Strive.Core.Tests/Services/Rooms/UseCases/SetParticipantRoomUseCaseTests.cs:91-108 | for any set of conflicting writes, the batch notification names exactly the participants with a write whose room exists and that did not conflict |
| Rooms.BatchMovesAgreeWithTags | src/Services/ConferenceManagement/Strive.Core.Tests/Services/Rooms/UseCases/SetParticipantRoomUseCaseTests.cs:55-75 | a moved participant sits in the room its tag names; anybody else keeps their room |
| Rooms.BatchTagsRunFromPreviousRoom | src/Services/ConferenceManagement/Strive.Core.Tests/Services/Rooms/UseCases/SetParticipantRoomUseCaseTests.cs:55-75 | with no participant named twice, each tag runs from the room the repository reported as previous: Joined from no room, Switched from another |
| Rooms.BatchKeepsMappingsInRooms | src/Services/ConferenceManagement/Strive.Core.IntegrationTests/Services/RoomTests.cs:61-67 | a batch never maps a participant to a room that does not exist; each participant has one room |
| Rooms.NoRoomsNoMoves | src/Services/ConferenceManagement/PaderConference.Core/Services/Rooms/NotificationHandlers/ConferenceClosedNotificationHandler.cs:29-30 | with no room of the conference left, every write fails: the mapping stays and nothing is published |
| Rooms.OneConflictingWriteSkipped | src/Services/ConferenceManagement/Strive.Core.Tests/Services/Rooms/UseCases/SetParticipantRoomUseCaseTests.cs:77-109 | three participants moved into one existing room with the third write conflicting: the first two are moved, the third keeps its room, and the notification names exactly the first two |
| ConferenceControl.ConferenceService.OpenConference | src/Services/ConferenceManagement/Strive.Core.IntegrationTests/Services/ConferenceControlTests.cs:51-73 | opening an open conference publishes nothing; otherwise exactly one opened notification, the default room created and announced, and the joined participants moved into it with Joined(default) |
| ConferenceControl.ConferenceService.MoveJoinedIntoDefaultRoom | src/Services/ConferenceManagement/Strive.Core.IntegrationTests/Services/RoomTests.cs:214-233 | every participant already joined when the conference opens is mapped to the default room and announced with Joined(default); other mappings unchanged |
| ConferenceControl.ConferenceService.CloseConference | src/Services/ConferenceManagement/Strive.Core.IntegrationTests/Services/ConferenceControlTests.cs:100-122 | closing a conference that is not open publishes nothing and changes nothing; otherwise one closed notification carrying its id, then all its rooms and mappings removed, the removed rooms announced, and every mapped participant tagged Left(their room) |
| ConferenceControl.ConferenceService.Join | src/Services/ConferenceManagement/Strive.Core.IntegrationTests/Services/RoomTests.cs:130-162 | joining a closed conference assigns no room and publishes no room change; joining an open one maps the participant to the default room with Joined(default) |
| ConferenceControl.ConferenceService.OnParticipantLeft | src/Services/ConferenceManagement/Strive.Core.IntegrationTests/Services/RoomTests.cs:235-258 | a participant that leaves loses its room and is tagged Left(its room); one without a room causes no notification |
| ConferenceControl.ConferenceService.CreateRooms | src/Services/ConferenceManagement/Strive.Core.IntegrationTests/Services/RoomTests.cs:69-128 | in a closed conference: a concurrency error, nothing stored, nothing published; in an open one, with the server's fresh distinct ids, every existing room is kept with its name, exactly the new rooms are added, each with its display name, and one created notification lists their ids |
| ConferenceControl.ConferenceService.MoveParticipant | src/Services/ConferenceManagement/Strive.Core.IntegrationTests/Services/RoomTests.cs:164-187 | a move to an existing room updates the mapping and is tagged Switched(old, new), or Joined when the participant had no room; a move to a missing room changes nothing |
| ConferenceControl.ConferenceService.KickParticipant | src/Services/ConferenceManagement/Strive.Core.IntegrationTests/Services/ConferenceControlTests.cs:160-171 | a kick publishes one kicked notification for that participant, for all its connections |
| ConferenceControl.ConferenceService.IsOpen | src/Services/ConferenceManagement/Strive.Core.IntegrationTests/Services/ConferenceControlTests.cs:75-98 | an observer: the synchronised open flag is true exactly for the conferences in `open`; what `open` holds is stated by `OpenConference` (adds the conference) and `CloseConference` (removes it) |
| ConferenceControl.WithRoomsAddsTheCreated | src/Services/ConferenceManagement/Strive.Core.IntegrationTests/Services/RoomTests.cs:94-128 | creating rooms adds exactly the created rooms, each under the display name of its last creation, and leaves every other room as it was |
| ConferenceControl.NewRoomsKeepTheOld | src/Services/ConferenceManagement/Strive.Core.IntegrationTests/Services/RoomTests.cs:94-128 | creating rooms under distinct ids that name no existing room keeps every existing room and its display name, and gives each new room the display name of its creation |
| ConferenceControl.EveryoneToOneRoom | src/Services/ConferenceManagement/Strive.Core.IntegrationTests/Services/RoomTests.cs:214-233 | moving distinct participants without a room into one existing room maps exactly them there and tags each Joined(room) |
| Chat.ChatService.SendChatMessage | src/Services/ConferenceManagement/Strive.Core.IntegrationTests/Services/ChatTests.cs:62-141 | the message, with the sender's id and metadata, is stored after the channel's earlier ones and delivered to the channel's recipients together with the new total; the sender stops typing in that channel |
| Chat.RoomChannelIsGlobalChannelInTheRoom | src/Services/ConferenceManagement/Strive.Core.IntegrationTests/Services/ChatTests.cs:62-119 | a room channel reaches exactly the conference-wide recipients that are in that room, so nobody in another room or in no room |
| Chat.RoomChannelExample | src/Services/ConferenceManagement/Strive.Core.IntegrationTests/Services/ChatTests.cs:93-119 | with two participants in two rooms, a room message reaches only the first and a conference-wide message reaches both |
| Chat.ChatService.SetParticipantTyping | src/Services/ConferenceManagement/Strive.Core.IntegrationTests/Services/ChatTests.cs:143-179 | the participant is typing in the channel exactly as requested; nobody else's typing changes |
| Chat.ChatService.OnParticipantLeft | src/Services/ConferenceManagement/Strive.Core.IntegrationTests/Services/ChatTests.cs:215-237 | a participant that left is typing nowhere; the others are unchanged |
| Chat.ChatService.OnParticipantsRoomChanged | src/Services/ConferenceManagement/Strive.Core.IntegrationTests/Services/ChatTests.cs:239-265 | a participant that left a room stops typing in that room's channel; everything else is unchanged |
| Chat.ChatService.FetchMessages | src/Services/ConferenceManagement/Strive.Core.IntegrationTests/Services/ChatTests.cs:181-213 | gives the channel's total and the messages of the requested range, with negative bounds counted from the end |
| Chat.LastMessagesWindow | src/Services/ConferenceManagement/Strive.Core.IntegrationTests/Services/ChatTests.cs:181-213 | the range from -count to -1 gives all messages when there are at most count, otherwise the newest count, oldest first; so none when there are none |
| PathCompression.FixPathInstructions | src/Web/WebSPA/Client/src/features/whiteboard/path-compression.ts:39-69 | the loop computes exactly the grouping `Chunked` of the segments, and no chunks for no segments |
| PathCompression.TakeSegment | src/Web/WebSPA/Client/src/features/whiteboard/path-compression.ts:53-65 | one turn of the loop adds one segment to the chunks built so far as the grouping prescribes, and keeps separators out of the open chunk |
| PathCompression.ChunksJoinToKeptSegments | src/Web/WebSPA/Client/src/features/whiteboard/path-compression.ts:53-67 | the chunks joined back give the segments with the ' ' separators dropped and strings trimmed, numbers and order kept |
| PathCompression.ChunksAreNonEmptyWithoutSeparators | src/Web/WebSPA/Client/src/features/whiteboard/path-compression.ts:45-62 | no chunk is empty and no ' ' separator reaches a chunk |
| PathCompression.CommandStartsChunk | src/Web/WebSPA/Client/src/features/whiteboard/path-compression.ts:59-61 | a segment starting with M, Q or L opens a new chunk holding its trimmed text, after the chunks before it |
| PathCompression.CompressedIffPoints | src/Web/WebSPA/Client/src/features/whiteboard/path-compression.ts:30-33 | an empty path is not compressed; otherwise it is exactly when its first element is a point |
| PathCompression.TrimLeavesNoOuterWhitespace | src/Web/WebSPA/Client/src/features/whiteboard/path-compression.ts:63 | a trimmed string is a contiguous slice of the string, everything cut off at either end is whitespace, and it neither starts nor ends with whitespace |
| EquipmentReducer.EquipmentState.OnEquipmentCommand | src/Web/WebSPA/Client/src/features/equipment/reducer.tsx:31-36 | the command goes to the head of the history under the current counter, at most 128 previous entries stay, and the counter moves on; the numbering invariant is kept |
| EquipmentReducer.EquipmentState.CommandExecuted | src/Web/WebSPA/Client/src/features/equipment/reducer.tsx:26-28 | the entries with the command's number become executed with the given error; the numbering invariant is kept |
| EquipmentReducer.EquipmentState.Initialize | src/Web/WebSPA/Client/src/features/equipment/reducer.tsx:37-41 | a failed initialisation stores its error; a successful one leaves the stored error as it was |
| EquipmentReducer.PushKeepsNumbering | src/Web/WebSPA/Client/src/features/equipment/reducer.tsx:9-36 | the new entry is first, under the counter, not executed and without error; the numbers stay unique and decreasing; at most 128 previous entries follow in their old order, so at most 129 entries |
| EquipmentReducer.LongHistoryKeepsNewest | src/Web/WebSPA/Client/src/features/equipment/reducer.tsx:31-36 | a history of 128 or more entries grows to exactly 129: the new entry and the newest 128 previous ones |
| EquipmentReducer.MarkExecutedChangesOnlyMatching | src/Web/WebSPA/Client/src/features/equipment/reducer.tsx:26-28 | completing a command changes exactly the entries with its number, to executed with the error; length, order, commands and numbers stay |
| EquipmentReducer.MarkExecutedIdempotent | src/Web/WebSPA/Client/src/features/equipment/reducer.tsx:26-28 | completing the same command twice is completing it once; an unknown number changes nothing |
| RoomSelectors.LookupFindsEntry | src/Web/WebSPA/Client/src/features/rooms/selectors.ts:10-16 | the participant's room is the entry for its id, and none without one |
| RoomSelectors.IdsInRoomAreTheMappedIds | src/Web/WebSPA/Client/src/features/rooms/selectors.ts:18-27 | the participants of a room are exactly the ids mapped to it, in entry order |
| RoomSelectors.SameRoomIffMappedToMyRoom | src/Web/WebSPA/Client/src/features/rooms/selectors.ts:29-30 | another participant is in my room exactly when its id is mapped to the room I am mapped to |
| RoomSelectors.WithoutMeRemovesExactlyMe | src/Web/WebSPA/Client/src/features/rooms/selectors.ts:32-38 | the list without me loses every occurrence of my id and keeps every other id as often as it occurred |
| RoomSelectors.WithoutMeKeepsOrder | src/Web/WebSPA/Client/src/features/rooms/selectors.ts:32-38 | removing my id works piece by piece on a concatenation, so the order of the others is kept |
| RoomSelectors.OthersInMyRoom | src/Web/WebSPA/Client/src/features/rooms/selectors.ts:32-38 | the others in my room are exactly the ids mapped to my room except mine |
| RoomSelectors.SortRoomsIsStableSort | src/Web/WebSPA/Client/src/features/rooms/selectors.ts:45-55 | the room list is sorted by (default room last, display name), is a permutation of the input, and keeps the input order among rooms with the same key |
| RoomSelectors.InsertIsStable | src/Web/WebSPA/Client/src/features/rooms/selectors.ts:45-55 | inserting a room puts it before the rooms with its key already sorted and leaves their order alone |
| RoomSelectors.RoomViewModelsDescribeTheRooms | src/Web/WebSPA/Client/src/features/rooms/selectors.ts:40-52 | no view models without room state; otherwise one per room, default exactly for the default room id, with the ids mapped to that room as participants |
| RoomSelectors.RoomViewModelsExample | src/Web/WebSPA/Client/src/features/rooms/selectors.ts:40-56 | a default room and two rooms out of order: the two by display name, then the default room |
| ConferenceSelectors.SelectParticipantFindsFirst | src/Web/WebSPA/Client/src/features/conference/selectors.ts:7-8 | a participant is found exactly when the list has one with the id, and it is the first of them |
| ConferenceSelectors.OthersDropsExactlyTheTokenId | src/Web/WebSPA/Client/src/features/conference/selectors.ts:10-12 | exactly the entries with the token's id are dropped, every other entry is kept as often as it occurs, and without a token the list is unchanged |
| ConferenceSelectors.OthersKeepsOrder | src/Web/WebSPA/Client/src/features/conference/selectors.ts:10-12 | dropping the token's id works piece by piece on a concatenation, so the order is kept |
| ConferenceSelectors.NoListNoResult | src/Web/WebSPA/Client/src/features/conference/selectors.ts:5-11 | without a synchronised participant list neither selector gives a result |
| ConferenceSelectors.TempPermissionsLookup | src/Web/WebSPA/Client/src/features/conference/selectors.ts:14 | no result without the map or without an entry for the id; an entry written for a participant is what the lookup gives for it, and nobody else's lookup changes |
| DeviceSagas.UpdateLocalDevices | src/Web/WebSPA/Client/src/features/settings/sagas.ts:16-36 | the loop emits exactly the effects of the local check over the sources in order |
| DeviceSagas.UpdateEquipment | src/Web/WebSPA/Client/src/features/settings/sagas.ts:41-64 | the loop emits exactly the effects of the equipment check over the sources in order |
| DeviceSagas.LocalCheckResetsMissingLocalDevices | src/Web/WebSPA/Client/src/features/settings/sagas.ts:19-25 | a listed source is reset exactly when a local device is selected for it that the fetched list lacks; sources without a device and equipment devices are never touched |
| DeviceSagas.EquipmentCheckResetsMissingEquipmentDevices | src/Web/WebSPA/Client/src/features/settings/sagas.ts:45-51 | a listed source is reset exactly when an equipment device is selected whose connection is missing or lacks the device, and every such source when there is no equipment state; local devices are never touched |
| DeviceSagas.EveryResetHasItsMessage | src/Web/WebSPA/Client/src/features/settings/sagas.ts:25-32 | the effects come in pairs: each reset is directly followed by the info message naming its source, and every message follows a reset |
| DeviceSagas.ResetExactlyWhenNeeded | src/Web/WebSPA/Client/src/features/settings/sagas.ts:19-32 | a source is reset, and named in a message, exactly when it is in the list and needs a reset |
| DeviceSagas.EffectsFollowSourceOrder | src/Web/WebSPA/Client/src/features/settings/sagas.ts:16-36 | checking a list in two parts emits the first part's effects, then the second's |

## Left out

- Rooms.SetParticipantRooms: which writes conflict with a concurrent change is an input (`conflicts`); the services in `ConferenceControl` run one request at a time and pass no conflicts.
- ConferenceControl.ConferenceService.CreateRooms: the server generates the room ids (the request carries only display names); the model takes the generated ids as input and requires them distinct and naming no existing room, as generated ids do.
- PermissionStack.GetPermissionValue: a stored value whose type is not the permission's is reported as `ValueTypeMismatch`; the tests do not cover that case, so this error is a modelling choice.
- TemporaryPermissions.PermissionService.SetTemporaryPermission: a granted value for an unknown key or of the wrong type is rejected with `PermissionValueInvalid`; the tests do not cover that case, so this check and its error are a modelling choice.
- ConferenceControl.ConferenceService.KickParticipant: the kick names no connection (it applies to all of them) and the reason `ByModerator`; the tests check only the participant, so these two fields are a modelling choice.
- Concurrency: the `lock` blocks, `async void`, the distributed join lock and `ConcurrentDictionary` thread safety are modelled sequentially. A concurrent join that lands while the join handler waits for its lock is an input of `HandleJoin` (`interleaved`). A timer loop that elapsed and has not yet resumed is the `resumed` queue.
- Time: `DateTimeOffset.UtcNow` is the parameter `now`; `ITaskDelay` and cancellation tokens are the `armed` wait and the `DelayElapsed` step.
- The cron parser (`CronYearParser`) is the parameter `cronParses`; the parser of synchronised-object ids is the parameter `parse`; the enum of permission types is the parameter `permissionTypes`.
- The `CachedPermissionStack` class and its cache are not part of this model; only the flatten and read behaviour its tests specify is.
- The JSON-patch synchronisation engine and the synchronised-object updates it pushes are left out; the synchronised state appears as the repositories' fields.
- Hosting, dependency injection, storage adapters, the SFU and the UI are left out (no behaviour of the core).
- Chat authorisation, i18n text and message timestamps are left out; the info message of the device check is its translation key and the source name.
- Chat.ChatService.FetchMessages: the range convention (inclusive bounds, negative bounds counted from the end, clipping) is inferred from the tests' request of -50 to -1; the list implementation is not part of this model.
- Chat: the typing set is not connected to the typing timer here; the timer's "typing = false" requests are messages in the log.
- The room layer of permissions is modelled as a map from room id to layer; how it is configured is not part of this model.
- PathCompression.IsWhitespace: the characters JavaScript's `trim` removes are listed explicitly (the ASCII blanks, U+00A0, U+1680, U+2000 to U+200A, U+2028, U+2029, U+202F, U+205F, U+3000 and U+FEFF); since strings here are sequences of code points, a lone UTF-16 surrogate is not modelled.
- RoomSelectors.SortRoomsIsStableSort: display names are compared by code point, whereas `sortBy` in JavaScript compares UTF-16 code units; the two orders differ only outside the basic multilingual plane.
- RoomSelectors: the `participants` record of the room state is a list of entries in the order `Object.entries` gives them.
- DeviceSagas: the list `ProducerDevices` is the parameter `sources`; its contents are not part of this model.
- PathCompression: `compressPathData` and its uncompressing counterpart call fabric and simplify-js and are left out; only `fixPathInstructions` and `isPathCompressed` are modelled.
- ConferenceClosed.HandleConferenceClosed: the repository returns the deleted ids as collections whose order is not specified; the model lists them in an unspecified order without repetition.

## Findings

| source | as written | input that shows it | evidently intended | confidence | as-written member | corrected member |
|---|---|---|---|---|---|---|
| src/Services/ConferenceManagement/PaderConference.Core/Dto/Validation/ConferenceDataValidator.cs:13-14 | the rules after `RuleFor(x => x.Configuration).NotNull()` read `x.Configuration.Moderators` and the other configuration fields without a guard, so data whose configuration is null throws a null dereference instead of being reported | conference data with `Configuration = null` and no permissions | report the missing configuration as a validation failure and nothing else | medium, not executed | ConferenceValidation.MissingConfigurationCrashesAsWritten | ConferenceValidation.ValidIffNoFailures |
