# AuraWellness chat: a verified model

This project models the real-time chat core of AuraWellness and proves what it guarantees: the Go
chat service (message delivery, the conversation directory, history and membership), the browser's
store and WebSocket hook, the WebSocket session of the .NET backend, and the provisioning that spans
the main and the chat database.

Concurrent parts are state machines whose steps are the atomic steps of the goroutines, tasks,
requests or browser callbacks involved, so a run is an arbitrary interleaving. Sequential parts are
classes and methods with the loops of the source, proved against functions that the lemmas speak
about. I/O, clocks and failures are inputs of the steps: whether a statement succeeds, what a query
without ORDER BY returns, what Redis delivers. Results about whole histories of sends and sockets are
stated over traces, runs together with the states they pass through; every run has one and every trace
is one of a run (`TraceOf`, `TraceIsRun`).

| files | what they cover |
|---|---|
| `Entities.dfy`, `Sequences.dfy` | identifiers, messages, results; subsequences, distinctness, sorting |
| `Pipeline.dfy`, `PipelineOrder.dfy`, `PipelineShutdown.dfy` | one session of the chat service: Redis reader, forwarder and writer per conversation, order and shutdown |
| `Messaging.dfy`, `Causality.dfy`, `SendConditions.dfy`, `OrderSafety.dfy`, `EndToEnd.dfy`, `Reaching.dfy` | sends, publishes, deliveries and all sockets together: causality, the exact conditions of what sending leaves open, the way from a publish to the browser, and that a message can always get there |
| `MessagingServices.dfy`, `WsHandler.dfy` | one send call; the subscription loop and the read pump |
| `Conversations.dfy`, `ConversationRaces.dfy`, `Listing.dfy` | the directory one call at a time, interleaved calls, and the listing query |
| `History.dfy`, `Pagination.dfy`, `TiedPages.dfy` | one page, walking back through all pages, and what timestamp ties cost |
| `Replica.dfy`, `Refetch.dfy`, `Reconnect.dfy` | the browser's message lists, fetches that race with frames, and the reconnecting hook |
| `Membership.dfy`, `Migration.dfy` | member rows as a function of their history; the data migration to conversations |
| `Provisioning.dfy`, `ProvisioningServices.dfy`, `Tenancy.dfy`, `StaffServices.dfy` | onboarding and business units across two databases; tenants, staff profiles and roles |
| `DotNetSession.dfy` | the backend's WebSocket session with its semaphore |

Verify with `dafny verify dfyconfig.toml`.

## Where the code decides

Some claims one might expect of this system do not hold. The model keeps the code as it is, shows a
run or an input in which the claim fails, and proves exactly when it holds.

- Overlapping DM calls can create two DMs for a pair (`DmsCanDuplicate`). A pair has exactly the DMs
  it had and one for each of its calls whose second participant's insert took effect (`DmCount`,
  `PairHasTwoDmsIff`); who these calls can be is `DmRaceBound`.
- Who asks for a DM with oneself may be given a DM with somebody else (`SelfDmCanBeForeign`). It is
  possible exactly if there is one (`SelfDmIsAnyDm`).
- One run (`UnpromisedOrderAccessAndWorkspace`) publishes messages in another order than they were
  saved, saves them after their sender's access was revoked, and stores them in a conversation of
  another workspace. The exact conditions are `ChannelInSaveOrderIff`, `AccessAtSaveIff` and
  `WorkspacesAgreeIff`. Senders of a conversation that take turns keep the save order
  (`TurnsKeepSaveOrder`); that no publish is pending when a send begins is not enough
  (`QuietChannelIsNotEnough`). From which states the sends already under way cannot break the order
  is `StaysInSaveOrderIff`.
- Paging can lose messages to timestamp ties (`TiedMessageIsLost`). It loses some exactly if a page
  boundary, counted from the newest stored message, falls inside a tie (`LossIffTieIsCut`); which
  ones is `WalkMissesExactlyCutOffs`.
- A frame appended while a fetch is under way can vanish (`FrameCanVanish`). It survives exactly if
  the server's query could see its message and found fewer than `limit` newer ones
  (`FrameSurvivesFetchIff`, and `FrameSurvivesFetchWithTies` for timestamp ties).
- The data migration fails exactly if a group conversation already exists (`ChatDatabase.Up`), and it
  gives groups participant rows, after which the listing returns a group once per member
  (`ListingAfterMigration`).
- `README.md` and `docs/system-design.md` say that the chat calls follow the commit. The code makes
  them inside the transaction, and the model follows the code: workspaces can be orphaned
  (`OrphanWorkspaceIsPossible`, and exactly which ones in `OrphansAreUncommitted`), business units
  cannot (`NoOrphanUnits`).
- A role update can take the Owner's role, and the stored role can be a number that names no role
  (`OwnerCanBecomeUndefined`). A company has its Owner exactly until such an update
  (`OwnerUntilDemoted`).
- The backend's `HandleAsync` returns without awaiting the losing loops, so its close may overlap a
  send (`HandlerMayLeaveASendBehind`). It leaves nothing under way exactly if the semaphore holds its
  permit (`NothingLeftBehindIff`), and otherwise at most one send, which began before
  (`AtMostOneSendIsLeftBehind`).
- A stream's frames need not be a prefix of its messages (`FirstMessageCanGetLost`). They are one
  exactly if no send of the loop succeeded after one that failed and left the socket open
  (`NotAPrefixIff`).

## Model

| member | source | states |
|---|---|---|
| PipelineOrder.StepKeepsInv | chat-service/internal/transport/ws/handler.go:122-157 | every step of every goroutine keeps message conservation, buffer bound, close discipline, mutex ownership and the wait group |
| PipelineOrder.SubscriptionOrder | chat-service/internal/infrastructure/redis/pubsub.go:37-67 | in every reachable state a subscription's frames are a prefix of its decodable events; frames, in-flight and remaining events are the whole stream; at most 16 are buffered, and a reader waits for room only then; nothing is lost before a cancellation or write error |
| PipelineOrder.SocketMergesSubscriptions | chat-service/internal/transport/ws/handler.go:122-152 | the frame log is an interleaving of one prefix per subscription; each frame has its message's id, person, sender name, content and time, and the subscription's conversation |
| PipelineOrder.QuietRunHasDelivered | chat-service/internal/infrastructure/redis/pubsub.go:37-67 | in a run without a cancellation or a failing write, once no step of session code is left, a subscription has written exactly the decodable events that Redis delivered for it, and its goroutines have returned if and only if Redis closed it |
| PipelineShutdown.StepLowersMeasure | chat-service/internal/transport/ws/handler.go:122-211 | every step of session code lowers a measure; only a Redis event raises it |
| PipelineShutdown.ShutdownCompletes | chat-service/internal/transport/ws/handler.go:154-211 | after the read pump ends, session code takes a bounded number of steps under any interleaving, and when none is left every goroutine and the request have returned |
| PipelineShutdown.WindDownExists | chat-service/internal/transport/ws/handler.go:154-211 | from every cancelled state a run of at most the measure's length winds the session down |
| PipelineShutdown.SessionCanCatchUp | chat-service/internal/transport/ws/handler.go:122-157 | an undisturbed session can always go on to a state in which a subscription has written all that Redis delivered for it |
| PipelineShutdown.ClosedOnceAndInOrder | chat-service/internal/transport/ws/handler.go:119-157 | no send on a closed channel, no repeated close; a channel is closed exactly when its sender returned; the request returns only after every writer, and then every Redis subscription is closed |
| WsHandler.SubscribeAll | chat-service/internal/transport/ws/handler.go:104-157 | the loop yields exactly the session over the conversations whose subscription succeeded, with a matching wait group and one cleanup each |
| WsHandler.KeptInOrder | chat-service/internal/transport/ws/handler.go:122-128 | a conversation is subscribed if and only if its subscription succeeds, in the order of the list; all of them if nothing fails |
| WsHandler.ReadPump | chat-service/internal/transport/ws/handler.go:182-209 | the pump stores one row for each usable frame of somebody with access whose insert takes effect, in frame order, with the frame's text and conversation and the token's person, and ends by cancelling the session |
| WsHandler.SessionsSpeakForTheirToken | chat-service/internal/transport/ws/handler.go:204-206 | in every run of the whole system a frame stores at most one message, with the frame's content and conversation, in the token's workspace and by the token's person, who had access at a check between the frame and the save |
| WsHandler.FramesStoreInOrder | chat-service/internal/transport/ws/handler.go:182-209 | in every run of the whole system, whatever happens between the steps, a session's messages are stored in the order of its frames |
| MessagingServices.MessagingService.SendMessage | chat-service/internal/application/messaging_service.go:24-49 | when the call succeeds, why it fails in the order of the checks, and that the stored row has the request's workspace, conversation, person, name and content, a fresh id and the database clock, also when its insert is not acknowledged; the publish is left pending exactly when the call succeeds |
| MessagingServices.MessagingService.Save | chat-service/internal/infrastructure/postgres/message_repo.go:21-33 | a row with the request's five fields, a fresh id and the database clock if workspace and conversation exist and the statement takes effect; which error otherwise |
| MessagingServices.MessagingService.Publish | chat-service/internal/application/messaging_service.go:43-46 | publishes the saved message on its own conversation's channel, or drops it when Redis fails |
| MessagingServices.SendEventsRun | chat-service/internal/application/messaging_service.go:24-49 | what a whole call leaves behind is what its begin, check and save leave in the interleaved system |
| Causality.EventKeepsInv | chat-service/internal/application/messaging_service.go:24-49 | every event keeps: pending and published messages are stored and distinct, and every socket's feed follows its channel |
| Causality.WholeRunCausality | chat-service/internal/application/messaging_service.go:24-49 | over all runs: each message published at most once on its conversation's channel, each frame saved strictly earlier, each sender had access strictly earlier |
| SendConditions.AccessAtSaveIff | chat-service/internal/application/messaging_service.go:24-41 | each stored message was begun, then checked with access, then saved by one call, and says what its request says; at the save the sender has access if and only if the last access update in between, if any, granted it |
| SendConditions.WorkspacesAgreeIff | chat-service/internal/application/messaging_service.go:33-41 | all stored messages lie in their conversation's workspace if and only if every request that was saved named such a conversation |
| SendConditions.OwnConversationsSuffice | chat-service/internal/application/messaging_service.go:24-41 | which holds when every call begins with a conversation of its workspace |
| SendConditions.ChannelInSaveOrderIff | chat-service/internal/application/messaging_service.go:38-46 | over all runs a channel carries messages in save order if and only if no publish on it fires while an older message is pending that is published later |
| SendConditions.TurnsKeepSaveOrder | chat-service/internal/application/messaging_service.go:38-46 | which holds when each send for the conversation begins only after the others are finished |
| OrderSafety.StaysInSaveOrderIff | chat-service/internal/application/messaging_service.go:38-46 | from a reachable state the channel stays in save order, whatever happens short of a new send for it, if and only if it is in order so far, whatever is pending is newer than what was published, and at most one send under way can still publish |
| SendConditions.QuietChannelIsNotEnough | chat-service/internal/application/messaging_service.go:43-46 | a run where no publish is pending when a send begins, and the channel is still out of order |
| Causality.FramesShowPublications | chat-service/internal/transport/ws/handler.go:135-144 | a frame says what a stored and published message says, and its conversation, taken from the subscription, is the message's own |
| Causality.StreamsNeverRepeat | chat-service/internal/infrastructure/redis/pubsub.go:37-67 | no subscription sees a message twice, and it follows the order of its channel |
| Causality.UnpromisedOrderAccessAndWorkspace | chat-service/internal/application/messaging_service.go:43-46 | a run in which publish order is not save order, messages are saved after revocation, and workspace and conversation disagree |
| EndToEnd.BrowserFollowsTheChannel | chat-service/internal/transport/ws/handler.go:122-152 | over all runs in which Redis skips nothing, the browser shows each of the first n messages published on the conversation after the socket's own connection once and field for field as stored, n being what the furthest of its subscriptions wrote |
| EndToEnd.BrowserCatchesUp | chat-service/internal/application/messaging_service.go:58-85 | and all of them once Redis has delivered what there is on the channel and the undisturbed session has no step left |
| EndToEnd.BrowserShowsSaveOrder | chat-service/internal/application/messaging_service.go:43-46 | and the browser's list says what stored messages say, in the order of their saves, if no publish overtook another |
| EndToEnd.BrowserShowsWhatWasSent | chat-service/internal/application/messaging_service.go:24-49 | in every run, whatever Redis skips: each entry of the browser's list has the conversation, person, sender name and content of some send, whose sender had access at a check of that call |
| Reaching.EverySendCanBeShown | chat-service/internal/application/messaging_service.go:24-49 | from every reachable state, whatever is under way or was skipped: a valid request by somebody with access can be sent, and the browser of any undisturbed subscription to its conversation can come to show just what was sent |
| Reaching.FirstMessageCanBeShown | chat-service/internal/transport/ws/handler.go:122-157 | from every initial state there is a run in which a valid request by somebody with access is sent and shown |
| Conversations.ConversationService.GetOrCreateGroupConversation | chat-service/internal/application/conversation_service.go:20-35 | from any tables without a duplicated DM, migrated ones included: when it succeeds and why it fails, the new row, and the same id as every earlier answer for the workspace |
| Conversations.ConversationService.GetOrCreateDMConversation | chat-service/internal/application/conversation_service.go:37-72 | from the same tables: when it succeeds and why it fails, exactly which rows are left on every path, which answers are possible, and for two different people the same id as every earlier answer in either order |
| Conversations.ConversationService.Create | chat-service/internal/infrastructure/postgres/conversation_repo.go:20-32 | the inserted row, or the constraint it violates with nothing changed |
| Conversations.ConversationService.AddParticipant | chat-service/internal/infrastructure/postgres/conversation_repo.go:99-110 | the pair is added once; a conflict changes nothing |
| Conversations.ConversationService.GetDMByParticipants | chat-service/internal/infrastructure/postgres/conversation_repo.go:57-71 | some DM of the workspace with both participants, or none exactly if there is none |
| Conversations.ConversationService.GetGroupByWorkspace | chat-service/internal/infrastructure/postgres/conversation_repo.go:45-55 | the workspace's group, or none exactly if there is none |
| Conversations.NewDmKeepsPairs | chat-service/internal/application/conversation_service.go:44-69 | after a missed lookup, a new DM with any part of its participants leaves at most one DM per pair |
| Conversations.SelfDmIsAnyDm | chat-service/internal/infrastructure/postgres/conversation_repo.go:57-63 | an answer to a request for a DM with oneself can have another participant if and only if the person is in a DM with somebody else |
| Conversations.SelfDmCanBeForeign | chat-service/internal/infrastructure/postgres/conversation_repo.go:57-63 | tables with one DM of two people, which one of them is given when asking for a DM with oneself |
| ConversationRaces.StepKeepsInv | chat-service/internal/application/conversation_service.go:20-72 | every repository call of any interleaved request, acknowledged or not, keeps the constraints, good answers, and who made and filled which row |
| ConversationRaces.GroupsNeverDuplicate | chat-service/internal/application/conversation_service.go:20-35 | in every interleaving from any tables one group per workspace, and all successful calls return it |
| ConversationRaces.CallsAfterASuccessSucceed | chat-service/internal/application/conversation_service.go:20-35 | a group call that starts after a success succeeds with the same answer, unless its own lookup fails |
| ConversationRaces.CreatorAnswersItsGroup | chat-service/internal/application/conversation_service.go:20-35 | in every interleaving a call whose acknowledged insert finds the workspace without a group answers with that new group, then and in every later state |
| ConversationRaces.GroupCallsSucceedUnlessRaced | chat-service/internal/application/conversation_service.go:20-35 | a finished group call for an existing workspace none of whose statements failed answers with the workspace's group, or with a unique violation after another call's group was inserted between its lookup and its own insert |
| ConversationRaces.DmCallsSucceed | chat-service/internal/application/conversation_service.go:37-72 | a finished DM call for two people of an existing workspace none of whose inserts failed answers with a DM of the two, which it made itself if and only if its lookup found none or failed |
| ConversationRaces.FailuresDecide | chat-service/internal/application/conversation_service.go:20-72 | in every interleaving a failing statement, a nil id or a missing workspace decides the call's answer for good, with the error stated for each, except that a DM call passes over a failing lookup |
| ConversationRaces.DmCount | chat-service/internal/application/conversation_service.go:37-72 | in every interleaving from any tables a pair's DMs are exactly those it had and those its completed calls made, one per call |
| ConversationRaces.PairHasTwoDmsIff | chat-service/internal/application/conversation_service.go:37-72 | a pair without a DM gets two if and only if the second participant's insert of two of its calls took effect |
| ConversationRaces.DmRaceBound | chat-service/internal/application/conversation_service.go:37-72 | the calls that complete are among those whose lookup preceded the pair's first DM and those whose later lookup failed, which bounds the number of DMs |
| ConversationRaces.DmsCanDuplicate | chat-service/internal/application/conversation_service.go:37-72 | two overlapping calls for one pair that both succeed with different DMs |
| ConversationRaces.GroupsStayBare | chat-service/internal/application/conversation_service.go:54-69 | under any interleaving a group's participant row is one from before the first call |
| ConversationRaces.OnlyDmsEverHaveParticipants | chat-service/internal/application/conversation_service.go:54-69 | so from an empty database only DMs ever have participants |
| Listing.ListingMultiplicity | chat-service/internal/infrastructure/postgres/conversation_repo.go:73-97 | how often each conversation comes back: a group max(1, participant rows) times, a DM once for a participant, others never |
| Listing.ListingRepeatsIff | chat-service/internal/infrastructure/postgres/conversation_repo.go:73-97 | the listing has no duplicates if and only if no group of the workspace has two participant rows |
| Listing.ListingWithoutDuplicates | chat-service/internal/infrastructure/postgres/conversation_repo.go:73-97 | while only DMs have participants: no duplicates, DMs before the group and older before newer, exactly the group and the person's DMs |
| Listing.ListingExists | chat-service/internal/infrastructure/postgres/conversation_repo.go:75-80 | whatever the rows, some answer to the query exists |
| Listing.ListByWorkspaceAndPerson | chat-service/internal/infrastructure/postgres/conversation_repo.go:73-97 | the row loop over any answer of the query: in that order, with the join's multiplicities; without group participants the group and the person's DMs once each |
| History.MessageStore.ReverseInPlace | chat-service/internal/infrastructure/postgres/message_repo.go:62-65 | the two-index loop reverses the array |
| History.MessageStore.List | chat-service/internal/infrastructure/postgres/message_repo.go:36-67 | the result is the last min(limit, k) of the k eligible messages, oldest first |
| History.ReversedQueryIsPage | chat-service/internal/infrastructure/postgres/message_repo.go:38-65 | reversing any answer to the descending query with limit gives such a page |
| History.EffectiveLimit | chat-service/internal/transport/grpc/handlers/messaging_handler.go:55-58 | the normalised limit is the request if that is in 1..200, and 50 otherwise |
| History.MessageStore.ListMessages | chat-service/internal/transport/grpc/handlers/messaging_handler.go:51-68 | for n the request if it is in 1..200 and 50 otherwise: without a cursor the last n of all messages of the conversation, oldest first, if none is newer than a second from now; with one only older messages, and one is missing only if n that are not older than it are there |
| Pagination.WalkExists | chat-service/internal/infrastructure/postgres/message_repo.go:36-67 | walking back with the first timestamp as cursor always reaches an empty page |
| Pagination.WalkIsShort | chat-service/internal/infrastructure/postgres/message_repo.go:36-67 | any walk has at most one page per eligible message, so it terminates |
| Pagination.WalkIsOrdered | chat-service/internal/infrastructure/postgres/message_repo.go:36-67 | with or without ties, the prepended pages are disjoint and ascending |
| Pagination.WalkMissesExactlyCutOffs | chat-service/internal/infrastructure/postgres/message_repo.go:40-42 | a message is missed if and only if it has the timestamp of some page's first message and is not on that page |
| TiedPages.LossIffTieIsCut | chat-service/internal/infrastructure/postgres/message_repo.go:36-67 | for every complete walk: a message is missed if and only if in the stored history some page boundary, counted back from the newest message, separates two messages with one timestamp |
| TiedPages.TiedMessageIsLost | chat-service/internal/infrastructure/postgres/message_repo.go:40-42 | of any two messages of a conversation with one timestamp, a walk by single messages misses one |
| Pagination.WalkReconstructsHistory | chat-service/internal/infrastructure/postgres/message_repo.go:36-67 | without ties the prepended pages are the exact ascending history, in ceiling(n / limit) pages |
| Replica.ReplicaIsFirstOccurrences | frontend/src/application/stores/chatStore.ts:105-111 | folding any frames gives, per conversation, the first occurrences of the old list and the conversation's frames |
| Replica.FirstOccurrencesSpec | frontend/src/application/stores/chatStore.ts:105-111 | first occurrences lose no id, repeat none, and each is the earliest message with its id |
| Replica.RepeatedFrameIsIgnored | frontend/src/application/stores/chatStore.ts:105-111 | delivering a known frame again, at any point, changes nothing afterwards |
| Replica.ChatStore.AppendMessage | frontend/src/application/stores/chatStore.ts:105-111 | the new lists, kept in step with the history of frames and fetches |
| Replica.ChatStore.FetchConversationMessages | frontend/src/application/stores/chatStore.ts:100-103 | the page, whatever it is, replaces the conversation's list and no other |
| Replica.ChatStore.FetchConversations | frontend/src/application/stores/chatStore.ts:67-78 | replaces the unit's conversations and selects the group, or else the first, only if nothing was active |
| Replica.ChatStore.CreateDM | frontend/src/application/stores/chatStore.ts:84-98 | adds the conversation once and activates it |
| Replica.StoreIsFirstOccurrences | frontend/src/application/stores/chatStore.ts:100-111 | in all runs of frames and fetches a list is the first occurrences of its last page and of what arrived since, if that page has distinct ids |
| Replica.ListsKeepDistinctIds | frontend/src/application/stores/chatStore.ts:100-111 | in all runs a list has distinct ids if and only if its last fetched page has |
| Refetch.ServedListsKeepDistinctIds | frontend/src/application/stores/chatStore.ts:100-111 | in all runs in which pages come from tables keyed by id, every list has distinct ids |
| Refetch.FrameSurvivesFetchIff | frontend/src/application/stores/chatStore.ts:100-103 | a frame appended before a fetch completes, whatever happens in between, is shown afterwards if and only if its message was in the queried table, before the cursor, with fewer than `limit` newer ones, or arrives again |
| Refetch.FrameSurvivesFetchWithTies | frontend/src/application/stores/chatStore.ts:100-103 | with timestamp ties: some answer of the server keeps the frame if and only if its message was eligible with fewer than `limit` newer ones, and some answer loses it if and only if it was not eligible or more than `limit` were not older |
| Refetch.FrameCanVanish | frontend/src/application/stores/chatStore.ts:100-103 | a history in which a shown frame is taken away by a page queried before its message was stored |
| Replica.DuplicateSubscriptionsMerge | frontend/src/application/stores/chatStore.ts:105-111 | if several subscriptions deliver prefixes of one stream, the list is the longest of them in stream order |
| Replica.BrowserShowsAPrefix | chat-service/internal/transport/ws/handler.go:122-152 | the same for every reachable state of a session of the chat service |
| Reconnect.StepKeepsInv | frontend/src/presentation/hooks/useChatWebSocket.ts:33-100 | every callback, timer, mount and cleanup keeps the hook's invariant |
| Reconnect.OneSocketOrTimer | frontend/src/presentation/hooks/useChatWebSocket.ts:33-100 | across all runs at most one of live socket and armed timer; the ref is null or the current effect's live socket |
| Reconnect.MountedHookRecovers | frontend/src/presentation/hooks/useChatWebSocket.ts:74-80 | across all runs a mounted hook has a socket or an armed timer if and only if no socket of its current effect has closed with code 1000 |
| Reconnect.CleanedUpEffectStaysQuiet | frontend/src/presentation/hooks/useChatWebSocket.ts:90-99 | after cleanup an effect never opens a socket again |
| Reconnect.NormalClosureEndsReconnecting | frontend/src/presentation/hooks/useChatWebSocket.ts:74-80 | after close code 1000 (section 7.4.1 of RFC 6455) the effect never reconnects |
| Reconnect.AbnormalClosureReconnects | frontend/src/presentation/hooks/useChatWebSocket.ts:74-80 | any other code arms a timer whose firing opens the next socket of the same effect |
| Reconnect.ChatWebSocketHook.OnOpen | frontend/src/presentation/hooks/useChatWebSocket.ts:43-48 | the socket is open, no timer is armed, and nothing else changes |
| Reconnect.ChatWebSocketHook.OnError | frontend/src/presentation/hooks/useChatWebSocket.ts:82-85 | an error closes the socket, changes nothing else, and leaves the decision to its close event |
| Reconnect.ChatWebSocketHook.OnTimer | frontend/src/presentation/hooks/useChatWebSocket.ts:39-41 | a firing timer is spent and opens a socket for its own effect |
| Reconnect.ChatWebSocketHook.OnClose | frontend/src/presentation/hooks/useChatWebSocket.ts:74-80 | the ref is cleared, and a timer is armed if and only if the code is not 1000 and the effect is not cleaned up; a detached handler does nothing |
| Reconnect.ChatWebSocketHook.Cleanup | frontend/src/presentation/hooks/useChatWebSocket.ts:90-99 | no timer is armed afterwards, and the socket in the ref is detached and closing |
| Reconnect.ChatWebSocketHook.RunEffect | frontend/src/presentation/hooks/useChatWebSocket.ts:33-88 | an effect opens one socket of its own unless the business unit is empty |
| Membership.RowsRecallHistory | chat-service/internal/infrastructure/postgres/member_repo.go:22-51 | after any requests a pair has one row: access is the last access update, or else whether the first role was Admin; role is the last one added, or else Member |
| Membership.WorkspaceService.AddMember | chat-service/internal/application/workspace_service.go:36-44 | accepted exactly for valid input, the error otherwise, the access flag of a new row and of an existing one, and the table stays a function of the history |
| Membership.WorkspaceService.Upsert | chat-service/internal/infrastructure/postgres/member_repo.go:22-35 | on conflict only the role changes |
| Membership.WorkspaceService.UpdateMemberAccess | chat-service/internal/infrastructure/postgres/member_repo.go:38-51 | on conflict only the access flag changes; a new row is a Member |
| Membership.WorkspaceService.GetByWorkspaceAndPerson | chat-service/internal/infrastructure/postgres/member_repo.go:76-87 | the row found is what the history of requests says about the pair |
| Membership.EffectOnRow | chat-service/internal/infrastructure/postgres/member_repo.go:22-51 | a request changes one pair's row and keeps rows unique; a new Admin has access |
| Migration.MigrationPreservesHistory | chat-service/internal/infrastructure/postgres/migrations/000006_add_conversation_id_to_messages.up.sql:1-25 | one group per workspace with exactly its members as participants, every message unchanged except for a conversation of its workspace, and each group's history is the workspace's former history |
| Migration.HistoryIsPreserved | chat-service/internal/infrastructure/postgres/migrations/000006_add_conversation_id_to_messages.up.sql:8-12 | message for message and in order, for each workspace |
| Migration.AfterKeepsConstraints | chat-service/internal/infrastructure/postgres/migrations/000006_add_conversation_id_to_messages.up.sql:20-25 | the new rows violate no primary key, unique index or foreign key |
| Migration.ChatDatabase.Up | chat-service/internal/infrastructure/postgres/migrations/000006_add_conversation_id_to_messages.up.sql:1-25 | the statements succeed if and only if no group existed, and otherwise change nothing |
| Migration.ListingAfterMigration | chat-service/internal/infrastructure/postgres/migrations/000006_add_conversation_id_to_messages.up.sql:20-25 | afterwards the listing returns a group once per member, so with duplicates from two members on |
| Provisioning.StepKeepsInv | backend/src/AuraWellness.Application/Services/OnboardingService.cs:28-49 | every step of any interleaved request, failing or not, keeps the two-database invariant |
| Provisioning.NoOrphanUnits | backend/src/AuraWellness.Application/Services/OnboardingService.cs:28-49 | over all runs every committed unit has exactly one workspace, and at its commit its owner is an Admin member with access |
| Provisioning.OnlyCommitsAddUnits | backend/src/AuraWellness.Infrastructure/Persistence/UnitOfWork.cs:17-28 | a unit becomes visible only by the commit of the request that made it |
| Provisioning.OrphansAreUncommitted | backend/src/AuraWellness.Application/Services/BusinessUnitService.cs:27-36 | a workspace has no unit if and only if the one request it was made for has not committed |
| Provisioning.OrphanWorkspaceIsPossible | backend/src/AuraWellness.Application/Services/OnboardingService.cs:45-46 | a run that leaves a workspace and no business unit |
| ProvisioningServices.Backend.OnboardAsync | backend/src/AuraWellness.Application/Services/OnboardingService.cs:19-52 | succeeds exactly without faults; all four rows or none unless the commit's acknowledgement is lost; with the rows, the owner is chat Admin; the fields stay a reachable state of the machine, and every outcome is one that Tenancy has a fate for |
| ProvisioningServices.Backend.CreateAsync | backend/src/AuraWellness.Application/Services/BusinessUnitService.cs:20-39 | the same for one unit of an existing company, whose name and people are checked |
| ProvisioningServices.BackendHasNoOrphanUnits | backend/src/AuraWellness.Application/Services/OnboardingService.cs:25-49 | between any two requests every unit in the main database has exactly one workspace |
| ProvisioningServices.Backend.Provision | backend/src/AuraWellness.Application/Services/BusinessUnitService.cs:32-33 | the two chat calls succeed exactly if neither fails and the chat service accepts them, and then the owner is Admin |
| ProvisioningServices.Backend.CommitTransaction | backend/src/AuraWellness.Infrastructure/Persistence/UnitOfWork.cs:18-28 | the transaction's rows become visible together, also when only the acknowledgement fails |
| Tenancy.StepKeepsInv | backend/src/AuraWellness.Application/Services/StaffService.cs:37-103 | every request keeps the tenant invariant of both databases, at whatever statement it fails |
| Tenancy.TenantsStayClosed | backend/src/AuraWellness.Application/Services/StaffService.cs:37-103 | over all histories a profile stays in one company, at most one per person and unit, at most one Owner per company |
| Tenancy.WorkspacesStayInTheirTenant | backend/src/AuraWellness.Application/Services/ChatAccessService.cs:38-50 | only a company's own persons are ever members of its units' workspaces |
| Tenancy.AccessRequestSetsAccess | backend/src/AuraWellness.Application/Services/ChatAccessService.cs:38-50 | an access request for a unit of the company, a person of the company and an existing workspace sets exactly that person's flag there; any other changes nothing |
| Tenancy.OwnerUntilDemoted | backend/src/AuraWellness.Application/Services/StaffService.cs:90-103 | a company has an Owner if and only if no role update has hit the Owner's profile |
| Tenancy.OwnerCanBecomeUndefined | backend/src/AuraWellness.Application/Services/StaffService.cs:98-102 | a history in which the Owner's role becomes a number that names no role |
| Tenancy.StaffRequestsKeepAccess | backend/src/AuraWellness.Application/Services/StaffService.cs:52-55 | adding staff and changing roles neither gives nor takes anybody's chat access |
| StaffServices.StaffService.CreateAsync | backend/src/AuraWellness.Application/Services/StaffService.cs:37-60 | when it is done, refused and why; the person, the profile with the parsed role and the plain membership it adds, and what it leaves when it fails half way |
| StaffServices.StaffService.EnrollExistingAsync | backend/src/AuraWellness.Application/Services/StaffService.cs:62-88 | the same for a person who already exists |
| StaffServices.StaffService.UpdateRoleAsync | backend/src/AuraWellness.Application/Services/StaffService.cs:90-103 | the answer in every case, in the order of the checks; when done the one profile of the pair has the parsed role and nothing else changes |
| DotNetSession.StepKeepsInv | backend/src/AuraWellness.API/Middleware/ChatWebSocketHandler.cs:85-184 | every step of the loops, the handler and the network keeps the session's invariant |
| DotNetSession.SendsExcludeEachOther | backend/src/AuraWellness.API/Middleware/ChatWebSocketHandler.cs:168-184 | at most one loop is inside SendAsync, even after disposal; until then the permit is conserved and never released twice |
| DotNetSession.WaitersAreServed | backend/src/AuraWellness.API/Middleware/ChatWebSocketHandler.cs:172-183 | a waiting loop can acquire, or the loop with the permit can move on |
| DotNetSession.FramesArePrefixes | backend/src/AuraWellness.API/Middleware/ChatWebSocketHandler.cs:85-184 | the log merges the loops; each stream's and the echoes' frames are a subsequence, and a prefix unless a send failed and left the socket open |
| DotNetSession.LoopsEndIff | backend/src/AuraWellness.API/Middleware/ChatWebSocketHandler.cs:85-184 | over all runs exactly what ends a loop: its stream or the reading ends, a wait fails, a send or the release throws, or it finds the socket not open or the session cancelled where the code looks |
| DotNetSession.QuietLoopHasSentAll | backend/src/AuraWellness.API/Middleware/ChatWebSocketHandler.cs:85-184 | a loop that nothing ended and none of whose sends failed has sent everything its stream delivered, or the read loop saved, in order, once no loop can take a step of its own |
| DotNetSession.LoopsCanCatchUp | backend/src/AuraWellness.API/Middleware/ChatWebSocketHandler.cs:85-184 | from every reachable state with an open socket and neither a cancellation nor the return of the handler, the loops can go on to a state in which each that nothing ended and none of whose sends failed has sent all it was given |
| DotNetSession.WaitCanFailIff | backend/src/AuraWellness.API/Middleware/ChatWebSocketHandler.cs:168-172 | a loop that waits for the semaphore is let go if and only if the request was aborted or the handler has cancelled |
| DotNetSession.HandlerAwaitsOneSide | backend/src/AuraWellness.API/Middleware/ChatWebSocketHandler.cs:53-66 | the handler cancels and returns only after the read loop or all write loops are done, and from then on it can |
| DotNetSession.NotAPrefixIff | backend/src/AuraWellness.API/Middleware/ChatWebSocketHandler.cs:151-183 | for distinct messages the frames are a prefix if and only if no send of the loop succeeded after one that failed and left the socket open |
| DotNetSession.FirstMessageCanGetLost | backend/src/AuraWellness.API/Middleware/ChatWebSocketHandler.cs:173-183 | a run in which only the second of a stream's two messages reaches the browser |
| DotNetSession.NothingLeftBehindIff | backend/src/AuraWellness.API/Middleware/ChatWebSocketHandler.cs:65-79 | in every run in which the handler can return, the semaphore holds its permit if and only if no loop is inside a send or about to release when it has returned |
| DotNetSession.AtMostOneSendIsLeftBehind | backend/src/AuraWellness.API/Middleware/ChatWebSocketHandler.cs:65-79 | after the return no send starts: a loop inside SendAsync was there at the return, and it is the only one |
| DotNetSession.HandlerMayLeaveASendBehind | backend/src/AuraWellness.API/Middleware/ChatWebSocketHandler.cs:65-79 | a run in which the handler has returned while a loop is inside SendAsync |

## Left out

- WsHandler.ReadPump: the method runs one session's frames with nothing else in between; what holds when other sessions and membership changes come in between is WsHandler.SessionsSpeakForTheirToken and WsHandler.FramesStoreInOrder, on runs of the interleaved system.
- Replica.BrowserShowsAPrefix: takes one common stream for a conversation's subscriptions; EndToEnd.BrowserFollowsTheChannel derives it for runs in which Redis skips nothing.
- EndToEnd.BrowserFollowsTheChannel: a session's subscriptions begin at one moment; the moments at which Redis takes up each of them are not told apart.
- DotNetSession.NotAPrefixIff: states the equivalence for pairwise distinct messages, which saved messages are by their ids.
- Tenancy.TenantsStayClosed: covers requests handled one at a time; two overlapping enrolments of one person could both pass the look-up.
- Goroutines, tasks and callbacks appear as steps of state machines, not as running Dafny code; the loops of a single goroutine that touch no shared state are methods.
- Onboarding and business-unit requests interleave in Provisioning, but appear as one step each in Tenancy.
- The ping ticker, read deadlines and frame size limits: they write no message frames.
- JSON, UUID, role-text and token parsing: a payload, an id, a role or a claim is given as parsed or unusable.
- Passwords, names, addresses, creation times of main-database rows, and the read-only projections of the staff and unit services.
- Wall-clock time: timestamps are ordered values chosen by the database step.
- Failing reads on the history, listing, membership, unit and person paths are passed through by the source and are not modelled there; failing reads on the send and directory paths are.
- Participants' own listing, workspace look-ups by id, and deletions by cascade or reset.
- The gRPC StreamMessages relay and the Next.js proxy: they forward frames one by one.
- The store's workspace cache, loading flags and the legacy fetchMessages key.
- The in-memory branch of UnitOfWork, which has no transaction.
- Redis, PostgreSQL, EF Core and client library internals, such as a driver repeating a command: each statement is one atomic step over tables with their declared constraints; a channel is an arbitrary sequence that may skip but keeps its order.
