# Picasso: the chat, contact and delivery core, modelled and proved in Dafny

Picasso is a chat server: clients send messages over a WebSocket, catch up over HTTP, and manage contacts and group
conversations ("palettes"). This project models its hard core and proves what its clients rely on.

| files | subject |
|---|---|
| `Common` | ordered id lists, "the n newest" |
| `MessageLog`, `ChatRepository` | the message table, its statements, and what every run of them keeps |
| `RateLimiter` | the per-sender token bucket |
| `CatchUp`, `Paging`, `ChatService` | sync answers, history pages, and the chat service call by call |
| `Delivery`, `DeliveryInvariants`, `DeliveryGuarantees` | sends, deletes and fan-out as interleaved steps of any number of threads under the striped lock |
| `DeliveryMembers`, `DeliveryOrigins`, `DeliverySequential` | who hears of what, removals included; where rows, tombstones and answers come from; a call that nothing interrupts does what the whole call does |
| `DeliveryCoverage`, `DeliveryCutOff`, `DeliveryWitnesses` | a registered device misses nothing; what an early cut-off costs, and what the next sync repairs; runs that show the limits |
| `Device`, `DeviceGuarantees` | a device that follows the sync contract against a log that changes under it |
| `FrameQueue`, `ConnectionHub` | the bounded outbound queue with the session's single writer, and the registry with its fan-out |
| `SocialTables`, `SocialCalls`, `SocialStorage`, `SocialServing` | contacts, requests, palettes and invitations: tables, calls, and the repositories and services as classes |
| `SocialInvariants`, `SocialGuarantees` | what every run of those calls keeps, and what events tell clients |
| `ContactOutcomes`, `ConversationOutcomes` | what each of those calls answers, does and tells, read off the rows, with the figures of the rules |
| `SocialPersistence`, `SocialRuns` | what one call leads to later: which calls end a block, a decline, a request or an invitation, who gets in, and how long each stands over a whole run |
| `SocialPrivacy` | what the answers hide of blocks and declines, and exactly when they give them away |
| `DmRace` | get-or-create of a dm as interleaved transactions |
| `FormCodec` | percent-encoding, form bodies and the parameter decoder |

How the model is built. Where the source changes objects in place, the model is a class whose methods are proved equal to
functions on values; the properties over whole runs are then proved about those functions. Interleavings are step systems:
a state, a datatype of steps, `Enabled`, `Apply`, and `Run`, a sequence of states from an initial one. A run is quantified
over entirely: any number of users, connections, threads, calls and steps.

## Assumptions

- One server process; a database transaction is one atomic step, except in `DmRace` and in `Delivery`, where drawing an id
  and committing the row are two steps; a `COMMIT` does not fail.
- Database failures are exceptions that change nothing, except that the reply of an `append` may be lost after the row is
  stored (`Delivery.Throw`).
- Contact and conversation calls are served whole, one after another, at clock readings that never go back. The services take
  no lock, so these theorems are about serialized calls. The token bucket bound needs no assumption about the clock.
- Steam ids are below 2^63 (the schema compares them as signed, the code as unsigned). Conversation and message ids are positive.
- The device's rules are those of `src/service/ChatService.hpp:112-119` and `src/dto/Rest.hpp:83-109`: the cursor is the highest
  id held, "reset" replaces and "delta" appends, the next sync passes the last `deletedCursor`, and scrolling up asks for the
  page before the smallest id held. The client itself is not part of this model. In `Device` it takes no live frames between
  syncs and does not scroll during one; live frames and answers are in `DeliveryCutOff`.
- Strings are byte strings, so their length is a number of bytes.

## Findings

- The 30,000 ms overlap of the deletion cursor suffices if and only if every deletion becomes visible strictly less than
  30,000 ms after its stamp (`DeviceGuarantees.OverlapSufficesIff`). At exactly 30,000 ms a deletion stamped at the cursor
  itself is never reported, because the query asks for stamps strictly above it.
- A removal follows the delivery of its message if and only if the append that stored the message returned
  (`DeliveryGuarantees.RemovalFollowsDelivery`, `DeliveryWitnesses.OrphanIsRemovedUndelivered`). A message whose append reply was
  lost is stored without being delivered, and a retry by its sender is answered as a duplicate, so nobody is told of it then.
- Such a message can lie below one that was delivered. The device's maximum is then above it, and no later sync with that
  cursor sends it (`DeliveryWitnesses.OrphanBelowTheMaximum`). `DeliveryCutOff.ResumeLacksOnly` says exactly what a device
  lacks after it was cut off and has synced again with its maximum: nothing after a reset; after a delta, messages stored since
  its first read, below the maximum, that were its own or of an append that never returned, and that no answer named.
- A deletion whose call fails between the delete and the publication is told to nobody; it is the only one
  (`DeliveryOrigins.DeletionIsPublished`). A repeat of the removal is answered as done and not published either; devices learn of
  it by the deletions of their next sync.
- A member can miss a live frame: a send that had read the member list before the user joined may store its message after the
  device read (`DeliveryWitnesses.LateJoinerMissesOne`). From any moment on a registered member can miss a message if and only
  if some send in progress has left the user out (`DeliveryWitnesses.MissesIff`).
- A block does not last until its owner lifts it: the other side's own block deletes it. `SocialPersistence.BlockEndsIff` names
  exactly the two calls that end one. In the same way `SocialPersistence.DeclineForgottenIff` names the calls that make the
  server forget a decline; the sender's own withdrawal is one.
- One answer to a contact request tells nothing of the other side beyond the caller's own limits
  (`SocialPrivacy.AnswerHidesTheOtherSide`), but two answers can. A request dropped for a block writes no row, so the next answer
  differs exactly when that row would have been the one that reaches 20 in the day or 50 pending (`SocialPrivacy.BlockShowsNextIff`,
  with an input in `SocialPrivacy.BlockShows`). A declined row is not counted as pending, so answers differ exactly when it would be
  the fiftieth (`SocialPrivacy.DeclineShowsIff`, `SocialPrivacy.DeclineShows`). The header comment of the service promises that
  nothing observable differs (`src/service/ContactService.hpp:49-54`); the code does not keep that.
- The list of outgoing requests shows pending rows only. After the answer "pending" the request is on it if and only if the target
  neither blocks the caller nor has declined lately (`SocialPrivacy.OutgoingShowsIff`, `SocialPrivacy.OutgoingShows`).
- Inviting a decliner again gets the answer of an invitation that waits, but inviting anyone else does not, because the list of
  invitees in the answer is patched for the person asked for only: the answers agree if and only if the person is the decliner
  or the call is refused (`SocialPrivacy.DeclineLooksInvited`, `SocialPrivacy.InviteShows`). The conversation that a sync returns
  shows a decline at once (`SocialPrivacy.ViewShowsDecline`).
- A palette invitation event carries its own clock reading: it equals the creation time of the row if and only if the clock has
  not moved during the call (`SocialPrivacy.InviteEventTimeIff`, `SocialPrivacy.InviteEventTimeDiffers`).

## Model

| member | source | states |
|---|---|---|
| ChatStorage.ChatRepository.Append | src/storage/PgChatRepository.cpp:43-81 | inserts one row under a fresh id, or changes nothing and returns the row already stored for (conversation, sender, client id), deleted or not |
| ChatStorage.ChatRepository.AscendingMessages | src/storage/PgChatRepository.cpp:32-40 | the rows' messages in reverse order, by an in-place reversal |
| ChatStorage.ChatRepository.NewestMessages | src/storage/PgChatRepository.cpp:83-99 | exactly the `count` newest live messages after an id, oldest first, with their content |
| ChatStorage.ChatRepository.OlderMessages | src/storage/PgChatRepository.cpp:101-117 | exactly the `count` newest live messages before an id, oldest first |
| ChatStorage.ChatRepository.SoftDelete | src/storage/PgChatRepository.cpp:119-154 | deletes exactly the sender's own live message, blanking its text; tells a repeat from a message that is not the sender's |
| ChatStorage.ChatRepository.DeletedSince | src/storage/PgChatRepository.cpp:156-175 | reports, by id, the tombstones newer than `since` in the member's conversations |
| ChatStorage.ReportNames | src/storage/PicassoDatabaseClient.hpp:108-117 | a deletion report names a message if and only if its tombstone is among the listed ids, under its own conversation |
| MessageLog.InsertingEvolves | src/storage/PicassoDatabaseClient.hpp:46-55 | an insert adds one row above its conversation's others and alters nothing; one row per key remains |
| MessageLog.DeletingEvolves | src/storage/PicassoDatabaseClient.hpp:88-97 | a delete keeps the row, its key and its id, and takes it out of every read |
| MessageLog.OneMessagePerKey | src/storage/migrations/0001_init.sql:94-113 | at any two moments of a history, one (conversation, sender, client id) is one message with one timestamp |
| MessageLog.DeletionIsForever | src/storage/migrations/0001_init.sql:100-103 | once deleted, a message is in no later read and its text never returns |
| MessageLog.NothingAppearsBelow | src/service/ChatService.cpp:44-47 | between two looks nothing appears below what the first look showed |
| RateLimiting.RateLimiter.TakeToken | src/service/ChatService.cpp:49-65 | passes exactly when a token is there after the refill, and leaves the bucket refilled and charged |
| RateLimiting.WindowPotential | src/service/ChatService.cpp:49-65 | the potential behind the bound: what passed in a window is paid for by what flowed in |
| RateLimiting.RateBound | src/domain/Message.hpp:20-21 | at most 10 + length/2000 sends stamped within any `length` ms pass, from any state and in any order of stamps |
| RateLimiting.RateBoundIsReached | src/domain/Message.hpp:20-21 | for every length some run reaches the bound |
| RateLimiting.SpacedSendsPass | src/service/ChatService.cpp:49-65 | a sender who leaves 2000 ms before every send is never refused |
| RateLimiting.LazyEqualsEager | src/service/ChatService.cpp:54-58 | refilling on demand decides every send as a bucket topped up every millisecond |
| CatchUp.ClampLimit | src/service/ChatService.cpp:21-27 | a page size between 1 and 200 |
| CatchUp.OneRowTooMany | src/service/ChatService.cpp:175-179 | asking for one row more and dropping the oldest gives the page, and the extra row tells that there is more |
| CatchUp.DeltaIsComplete | src/service/ChatService.cpp:175-184 | a delta comes exactly when at most a page follows the cursor, and is all of it |
| CatchUp.ResetIsNewestPage | src/service/ChatService.cpp:175-184 | a reset is the newest page, gapless from its first row to the newest live message |
| CatchUp.ResetKnowsWhatIsOlder | src/service/ChatService.cpp:181-182 | on a reset, "more before" holds if and only if an older live message exists |
| Paging.PagesAscend | src/service/ChatService.cpp:193-213 | pages scrolled back are in order and repeat nothing, whatever happens between the requests |
| Paging.PagesMissNothing | src/service/ChatService.cpp:193-213 | a message there at the first request and live at the last is on some page |
| Paging.PagingTerminates | src/service/ChatService.cpp:193-213 | scrolling back ends, although messages keep arriving |
| Paging.PagesAreTheLog | src/service/ChatService.cpp:193-213 | with no change in between, the pages are exactly the older live messages, once each, in order |
| Paging.PageFacts | src/service/ChatService.cpp:205-211 | a page's rows, and "more before" if and only if an older live message is not on it |
| ChatServing.ChatService.Submit | src/service/ChatService.cpp:71-136 | exactly which rejection applies, a dm of two being closed exactly while they are not connected and a palette never; what is stored, who is told, and that a retry stores and tells nothing |
| ChatServing.ChatService.SyncOne | src/service/ChatService.cpp:156-185 | the entry of one conversation equals the one read off a full scan |
| ChatServing.ChatService.SyncEach | src/service/ChatService.cpp:153-185 | one entry for each listed conversation, in the list's order |
| ChatServing.ChatService.Sync | src/service/ChatService.cpp:142-191 | the whole answer: server time, a deletion cursor 30,000 ms behind it and not below 0, an entry for each conversation of the caller in id order, exactly the deletions asked for, oldest message first |
| ChatServing.ChatService.SyncAnswersEach | src/service/ChatService.cpp:142-191 | every conversation of the caller is answered, with the entry a full scan gives |
| ChatServing.ChatService.SyncListsMine | src/service/ChatService.cpp:153-156 | the entries are those of exactly the conversations whose member list has the caller, each once, smallest id first |
| ChatServing.ChatService.EntryMeans | src/service/ChatService.cpp:156-185 | an entry, read off the rows: its messages are live, above the cursor and in order; a reset exactly without a cursor or when more than a page is pending; "writable" for a dm of two exactly while the two are connected |
| ChatServing.ChatService.SyncEntryIsRight | src/service/ChatService.cpp:153-185 | every entry of a sync is right in that sense |
| ChatServing.CursorIn | src/service/ChatService.cpp:169-173 | the id of the first cursor that names the conversation, and none if no cursor does |
| ChatServing.PeerOf | src/service/ChatService.cpp:106-109 | nobody exactly when the caller is alone; otherwise the first member in id order who is not the caller |
| ChatServing.NextSyncReports | src/service/ChatService.cpp:150-151 | two syncs in a row, the second with the first one's deletion cursor: it names a tombstone exactly when it is stamped after the first one's time less 30,000 ms |
| ChatServing.DeletionIsReported | src/service/ChatService.cpp:187-189 | over any chain of syncs, a deletion that becomes visible in less than 30,000 ms is named by one of the syncs that follow |
| ChatServing.ChatService.History | src/service/ChatService.cpp:193-213 | members get the newest page before an id and whether there is more; others get nothing |
| ChatServing.ChatService.Remove | src/service/ChatService.cpp:219-239 | true exactly for the caller's own message; members are told the first time only |
| ChatServing.KeepNewest | src/service/ChatService.cpp:175-179 | erasing the front of an over-long read leaves the newest `limit` messages |
| DeliveryInvariants.Exclusive | src/service/ChatService.cpp:95-97 | two calls on one conversation are never past their stripe's lock together |
| DeliveryInvariants.StepKeeps | src/service/ChatService.cpp:95-131 | every step of every thread keeps the protocol's invariant and shows readers only rows above those they saw |
| DeliveryInvariants.MarkedIsPublished | src/service/ChatService.cpp:224-236 | when a message is marked deleted its own send is past its publication, or its append never returned |
| DeliveryGuarantees.ReadersSeePrefixes | src/service/ChatService.cpp:44-47 | no id of a conversation ever becomes visible below one a lock-free reader has seen |
| DeliveryGuarantees.AnswersAgree | src/service/ChatService.cpp:114-131 | all answers to submits of one key name the same message and the same time |
| DeliveryGuarantees.DeletedStaysDeleted | src/storage/PicassoDatabaseClient.hpp:88-97 | in every run a deleted message stays blank and unread, whatever retries follow |
| DeliveryGuarantees.TableChanges | src/service/ChatService.cpp:95-131 | each step adds rows on top, marks one row deleted, or leaves the table alone |
| DeliveryGuarantees.PublicationOrder | src/service/ChatService.cpp:114-131 | deliveries of a conversation ascend strictly, removals come at most once and nothing is delivered after its removal, in total and on each connection |
| DeliveryGuarantees.PublishedExactlyOnce | src/service/ChatService.cpp:114-131 | every stored message is published, about to be, or had its append's reply lost: exactly one of the three |
| DeliveryGuarantees.RemovalFollowsDelivery | src/service/ChatService.cpp:219-239 | a removal comes after the delivery of its message if and only if the append returned |
| DeliveryMembers.RemovalsReachMembers | src/service/ChatService.cpp:232-236 | no removal passes a member by: each published while a connection is registered and its user a member has been handed to it, or is about to be |
| DeliveryMembers.RemovalHandedExactly | src/service/ChatService.cpp:232-236 | once its call is done, a removal has been handed to a connection exactly if its user was a member when it was published, the remover included |
| DeliveryMembers.SendersAreMembers | src/service/ChatService.cpp:98-103 | every stored message has a member for its sender and was meant for members only |
| DeliveryMembers.OnlyMembersHear | src/service/ChatService.cpp:123-127 | a registered connection has only deliveries and removals of its user's conversations |
| DeliveryOrigins.StoredAsSubmitted | src/service/ChatService.cpp:114-114 | every stored message is one that was submitted, with its sender, key, time and text |
| DeliveryOrigins.DeletedByItsSender | src/service/ChatService.cpp:228-231 | behind every tombstone is a removal that the sender of the message asked for, and its time |
| DeliveryOrigins.DeletionIsPublished | src/service/ChatService.cpp:231-237 | every deletion is published or about to be, unless its call ended with an exception after the delete |
| DeliveryOrigins.RetryIsAnswered | src/service/ChatService.cpp:114-121 | whatever comes between, a retry is answered the stored message's id, or is still owed it, and stores and publishes nothing |
| DeliverySequential.SendAlone | src/service/ChatService.cpp:95-131 | a member's send that nothing interrupts ends, with exactly the row, the deliveries and the answer of one whole call |
| DeliverySequential.RetryAlone | src/service/ChatService.cpp:114-121 | a retry that nothing interrupts uses up an id and answers; nothing else changes |
| DeliverySequential.RejectedAlone | src/service/ChatService.cpp:98-112 | a send that is turned away leaves nothing behind |
| DeliverySequential.RemoveAlone | src/service/ChatService.cpp:219-239 | a removal that nothing interrupts blanks the row and tells every connection of every member once |
| DeliverySequential.RefusedAlone | src/service/ChatService.cpp:228-238 | the removal of anything but one's own live message leaves nothing behind |
| DeliveryCoverage.HandedExactlyToAudience | src/transport/ws/ConnectionHub.cpp:62-74 | a registered connection gets a message if and only if its user was in the member list the send read and it is not the sending connection, which is answered instead |
| DeliveryCoverage.NothingIsMissed | src/service/ChatService.cpp:142-185 | page read, frames handed over and answers cover every live message from the cursor, or from the first row of a reset |
| DeliveryCoverage.SinceRegistered | src/transport/ws/ConnectionHub.cpp:76-101 | from the moment of registration on, nothing meant for the connection is skipped and no own send goes unanswered |
| DeliveryCutOff.PrefixIsGapless | src/transport/ws/WsSession.cpp:176-183 | every delivery below an id named in a prefix of a connection's frames, answers included, is in that prefix |
| DeliveryCutOff.NothingMissingBelow | src/service/ChatService.hpp:112-119 | after a cut-off at any frame the device has, below any id it received, exactly the messages stored when it read and those of others whose append returned; its own are answered or will be |
| DeliveryCutOff.ResumeLacksOnly | src/service/ChatService.hpp:112-119 | a device that was cut off and syncs again with its plain maximum lacks exactly its own unanswered sends and messages of appends that never returned, below that maximum; after a reset nothing |
| DeliveryWitnesses.MissesIff | src/service/ChatService.cpp:95-127 | from a moment on a registered member can miss a message if and only if a send in progress, on a free key, has left the user out |
| DeliveryWitnesses.OrphanBelowTheMaximum | src/service/ChatService.cpp:114-135 | a run in which a message without append reply lies live below a delivered one, and no sync with that maximum sends it |
| DeliveryWitnesses.OwnSendBelowTheMaximum | src/transport/ws/WsSession.cpp:164-183 | a run in which a device's own message lies below a delivered one while its answer is still to come |
| DeliveryWitnesses.LateJoinerMissesOne | src/service/ChatService.cpp:98-127 | a run in which a member who joined during a send misses its message |
| DeliveryWitnesses.OrphanIsRemovedUndelivered | src/service/ChatService.cpp:114-135 | a run in which a message is removed without having been delivered |
| DeviceGuarantees.HoldsOneRange | src/service/ChatService.hpp:112-119 | in every run a device holds exactly the live messages of one contiguous id range ending at the newest id its last sync saw |
| DeviceGuarantees.SyncLeavesExactlyLive | src/service/ChatService.cpp:187-189 | while deletions become visible in less than 30,000 ms, a sync with a deletion cursor leaves the device with exactly the live messages of its range |
| DeviceGuarantees.OverlapSufficesIff | src/service/ChatService.cpp:150-151 | no device keeps a message deleted 30,000 ms before its last sync, if and only if deletions become visible in less than 30,000 ms |
| Device.StepKeepsRange | src/dto/Rest.hpp:83-109 | every action of the device and every change of the log keeps the range contiguous |
| FrameQueueing.BoundedFrameQueue.Enqueue | src/transport/ws/BoundedFrameQueue.hpp:82-103 | accepts what fits both limits; otherwise empties the queue and overflows for good |
| FrameQueueing.BoundedFrameQueue.Push | src/transport/ws/BoundedFrameQueue.hpp:29-31 | a text frame is queued like any entry |
| FrameQueueing.BoundedFrameQueue.PushPong | src/transport/ws/BoundedFrameQueue.hpp:34-36 | a pong takes its turn among the frames |
| FrameQueueing.BoundedFrameQueue.Pop | src/transport/ws/BoundedFrameQueue.hpp:45-58 | takes the oldest entry; a closed or overflowed queue says so instead |
| FrameQueueing.BoundedFrameQueue.Close | src/transport/ws/BoundedFrameQueue.hpp:61-69 | empties and closes |
| FrameQueueing.WsSession.Send | src/transport/ws/WsSession.cpp:74-74 | a frame for the client is pushed to the queue, never written directly |
| FrameQueueing.WsSession.Shutdown | src/transport/ws/WsSession.cpp:63-68 | closes the queue for good |
| FrameQueueing.WsSession.WriterTurn | src/transport/ws/WsSession.cpp:76-100 | one turn of the writer: pop, write or close the socket, stop on close, overflow or a failed write |
| FrameQueueing.ActionKeeps | src/transport/ws/WsSession.cpp:76-100 | one push, close or turn of the writer keeps counter, limits and the order of frames |
| FrameQueueing.PushMeans | src/transport/ws/BoundedFrameQueue.hpp:82-103 | exactly what a push does: queued last while both limits leave room, otherwise everything is dropped for good |
| FrameQueueing.TurnMeans | src/transport/ws/WsSession.cpp:76-100 | exactly what a turn of the writer does: silent on a close, the peer told of an overflow, the oldest entry written, and when it stops |
| FrameQueueing.SocketSeesAPrefix | src/transport/ws/WsSession.cpp:76-100 | in every interleaving the socket has a gapless prefix of the frames accepted, which are a prefix of those pushed |
| FrameQueueing.NothingAfterDropping | src/transport/ws/BoundedFrameQueue.hpp:82-103 | after an overflow or close no frame is accepted, queued or written, ever |
| Hub.ConnectionHub.Add | src/transport/ws/ConnectionHub.cpp:11-14 | appends the connection to its user's list, even if it is there already |
| Hub.ConnectionHub.Remove | src/transport/ws/ConnectionHub.cpp:16-31 | takes out the connection and that user's dead entries, and touches no other user |
| Hub.ConnectionHub.Resolve | src/transport/ws/ConnectionHub.cpp:76-101 | the user's live connections, in the order they were added |
| Hub.ConnectionHub.SendToAllExcept | src/transport/ws/ConnectionHub.cpp:62-74 | the fan-out as a function of the registry |
| Hub.ConnectionHub.OnlineAmong | src/transport/ws/ConnectionHub.cpp:37-48 | exactly the candidates with a live connection, in their order |
| Hub.FanOutIsExact | src/transport/ws/ConnectionHub.cpp:62-74 | each live connection of each listed user gets the frame exactly once, except the named one; nobody else gets it |
| DmRace.ReturnsAgree | src/storage/PgConversationRepository.cpp:85-125 | any two get-or-create calls that return, return one conversation if and only if they were made for the same two users, in either order |
| DmRace.ExactlyOneCreates | src/storage/PgConversationRepository.cpp:97-118 | once some call returned, exactly one call of the pair has created the dm, and is the only one to report so |
| DmRace.CreatorStays | src/storage/PgConversationRepository.cpp:97-118 | the creator of a pair's dm stays the only one for the rest of the run |
| DmRace.NoConversationWithoutChat | src/storage/migrations/0001_init.sql:49-57 | committed dm conversations are exactly those with a chat row, one per pair |
| DmRace.LoserFindsTheWinner | src/storage/PgConversationRepository.cpp:119-124 | a call that lost the race for its pair never throws |
| DmRace.CanonicalIsSymmetric | src/storage/PgConversationRepository.cpp:90-91 | the order of the two users does not matter |
| FormCodec.PercentEncode | src/steam/OpenIdVerifier.cpp:23-37 | unreserved bytes as they are, every other as a percent triplet |
| FormCodec.DecodeParam | src/transport/http/AuthController.hpp:81-99 | triplets become bytes, everything else stays, nothing for a missing parameter |
| FormCodec.BuildFormBody | src/steam/OpenIdVerifier.cpp:39-48 | encoded fields joined by '&' |
| FormCodec.RoundTrip | src/steam/OpenIdVerifier.cpp:23-37 | decoding undoes encoding for every byte string |
| FormCodec.DecodeUndoesEncode | src/transport/http/AuthController.hpp:81-99 | also when other text follows |
| FormCodec.EncodedIsPlain | src/steam/OpenIdVerifier.cpp:23-37 | encoded text holds no delimiter (sections 2.1 and 2.3 of RFC 3986) |
| FormCodec.EitherCaseDecodes | src/transport/http/AuthController.hpp:81-99 | hex digits of either case decode, each on its own |
| FormCodec.OthersStandForThemselves | src/transport/http/AuthController.hpp:81-99 | a percent sign without two hex digits behind it, and any other byte, stays |
| FormCodec.UnreservedAre | src/steam/OpenIdVerifier.cpp:23-37 | which bytes are written as they are, and how the others are |
| FormCodec.FormRoundTrip | src/steam/OpenIdVerifier.cpp:39-48 | splitting a form body at '&' and '=' and decoding gives back every field, for every list of fields |
| SocialStorage.SocialDatabase.PutRequest | src/storage/PgContactRepository.cpp:141-147 | the request is pending after, whatever was there, and nothing else changes |
| SocialStorage.SocialDatabase.Accept | src/storage/PgContactRepository.cpp:149-168 | only a pending request is used up, and then both rows exist |
| SocialStorage.SocialDatabase.Decline | src/storage/PgContactRepository.cpp:170-181 | stamps a pending request as declined and says whether there was one; none is pending after |
| SocialStorage.SocialDatabase.Withdraw | src/storage/PgContactRepository.cpp:183-185 | no row is left, declined or not, and nothing else changes |
| SocialStorage.SocialDatabase.Remove | src/storage/PgContactRepository.cpp:187-202 | deletes the connected rows with the requests and invitations between the two, or nothing |
| SocialStorage.SocialDatabase.Block | src/storage/PgContactRepository.cpp:204-221 | one block row, nothing opposite, no request and no invitation between the two |
| SocialStorage.SocialDatabase.Unblock | src/storage/PgContactRepository.cpp:223-225 | the owner does not block the other after; a connection stays |
| SocialStorage.SocialDatabase.SetTier | src/storage/PgContactRepository.cpp:227-237 | changes the level of a connected row only |
| SocialStorage.SocialDatabase.GetOrCreateDm | src/storage/PgConversationRepository.cpp:85-118 | finds the pair's dm in either order of arguments, or creates it |
| SocialStorage.SocialDatabase.CreatePalette | src/storage/PgConversationRepository.cpp:127-157 | a new palette with its creator as the only member |
| SocialStorage.SocialDatabase.Get | src/storage/PgConversationRepository.cpp:159-195 | sorted members, and for a palette the sorted pending invitees |
| SocialStorage.SocialDatabase.Invite | src/storage/PgConversationRepository.cpp:201-240 | members, waiting invitations and fresh declines are left alone; anything else is (re-)armed |
| SocialStorage.SocialDatabase.AcceptInvite | src/storage/PgConversationRepository.cpp:242-273 | a pending invitation becomes a membership |
| SocialStorage.SocialDatabase.DeclineInvite | src/storage/PgConversationRepository.cpp:275-289 | stamps a pending invitation as declined |
| SocialServing.ContactService.PublishPair | src/service/ContactService.cpp:21-24 | each side hears its own row |
| SocialServing.ContactService.SendRequest | src/service/ContactService.cpp:40-82 | answer, tables and events of a request, in the code's order of checks |
| SocialServing.ContactService.Accept | src/service/ContactService.cpp:84-88 | answer, tables and events of an acceptance |
| SocialServing.ContactService.DeclineOrWithdraw | src/service/ContactService.cpp:90-93 | declines theirs, withdraws ours, tells nobody |
| SocialServing.ContactService.SetLevel | src/service/ContactService.cpp:99-116 | answer, tables and events of setting a level |
| SocialServing.ContactService.RemoveOrUnblock | src/service/ContactService.cpp:118-130 | removes a contact or lifts the caller's block, with the events of each |
| SocialServing.ConversationService.OpenDm | src/service/ConversationService.cpp:40-53 | answer, tables and events of opening a dm, in the code's order of checks |
| SocialServing.ConversationService.Trimmed | src/service/ConversationService.cpp:17-24 | the two index loops compute the trimmed text |
| SocialServing.ConversationService.WithoutRepeats | src/service/ConversationService.cpp:65-71 | everyone but the caller once, in order of first mention |
| SocialServing.ConversationService.MayInviteAll | src/service/ConversationService.cpp:77-79 | true if and only if the caller is in contact with each of them |
| SocialServing.ConversationService.InviteEach | src/service/ConversationService.cpp:83-92 | the invitations and events of the loop |
| SocialServing.ConversationService.OpenPalette | src/service/ConversationService.cpp:55-96 | answer, tables and events of opening a palette |
| SocialServing.ConversationService.InviteTo | src/service/ConversationService.cpp:102-135 | answer, tables and events of one invitation |
| SocialServing.ConversationService.Join | src/service/ConversationService.cpp:137-156 | answer, tables and events of joining |
| SocialServing.ConversationService.TellOthers | src/service/ConversationService.cpp:152-154 | every other member, in order, hears the new list |
| SocialServing.ConversationService.TurnDown | src/service/ConversationService.cpp:158-166 | a pending invitation is declined; only the decliner hears of it |
| SocialCalls.Unique | src/service/ConversationService.cpp:65-71 | no repeats, not the caller, and everyone else who was listed |
| SocialInvariants.SameLiveness | src/service/ContactService.cpp:61-64 | the service's test of liveness and the statements' guard agree |
| SocialInvariants.TimeKeeps | src/storage/PgContactRepository.cpp:25-28 | passing time breaks no invariant |
| SocialInvariants.PutKeepsLimits | src/service/ContactService.cpp:52-55 | a request let through by the two counts keeps both limits at the moment it is stored |
| SocialInvariants.AcceptKeeps | src/storage/PgContactRepository.cpp:157-167 | an accepted pair had no rows before and is connected after |
| SocialInvariants.CutKeeps | src/storage/PgContactRepository.cpp:187-221 | ending or blocking a pair leaves the rest of the tables consistent because requests and invitations go with it |
| SocialInvariants.ServeKeeps | src/service/ContactService.cpp:40-130 | every contact or conversation call keeps all cross-table invariants |
| SocialGuarantees.RunOk | src/service/ConversationService.cpp:40-166 | every reachable state satisfies them, and events mirror the tables |
| SocialGuarantees.PairsStandClearly | src/storage/PicassoDatabaseClient.hpp:205-282 | two users are strangers, in contact, or one blocks the other, exactly one of these; no request beside a block, none pending both ways or between contacts, at any later moment |
| SocialGuarantees.InvitationsStand | src/storage/PgConversationRepository.cpp:201-289 | every invitation row has a member as inviter, a non-member as invitee, and the two are in contact |
| SocialGuarantees.LimitsHold | src/service/ContactService.cpp:52-55 | at every moment at most 50 pending requests and at most 20 rows of the last 24 hours per user |
| SocialGuarantees.ReplayIsTheContactList | src/service/ContactService.cpp:21-24 | replaying the contact events addressed to a user gives exactly that user's rows |
| SocialGuarantees.MembersKnowTheMembers | src/service/ConversationService.cpp:137-156 | members, and only they, were told of a conversation once and heard its current members last |
| SocialPrivacy.AnswerHidesTheOtherSide | src/service/ContactService.hpp:49-54 | without a request pending from the target, two worlds with the same row of the caller give the same answer if and only if the caller's limits agree or the call does not reach them |
| SocialPrivacy.BlockShowsNextIff | src/service/ContactService.cpp:52-59 | after a request that a block swallowed, the answer to the next one tells exactly when the missing row was the one to reach a limit |
| SocialPrivacy.BlockShows | src/service/ContactService.cpp:52-59 | an input: with nineteen requests of the day, two answers tell a block |
| SocialPrivacy.DeclineShowsIff | src/storage/PicassoDatabaseClient.hpp:193-202 | a fresh decline changes an answer exactly when the row still waiting would be the fiftieth pending |
| SocialPrivacy.DeclineShows | src/storage/PicassoDatabaseClient.hpp:193-202 | an input: with forty-nine others waiting, one answer tells a decline |
| SocialPrivacy.OutgoingShowsIff | src/storage/PicassoDatabaseClient.hpp:180-185 | after the answer "pending" the request is listed as outgoing if and only if there is no block by the target and no fresh decline |
| SocialPrivacy.OutgoingShows | src/storage/PicassoDatabaseClient.hpp:180-185 | an input: the same answer with and without a block, and two different lists |
| SocialPrivacy.BlockLooksLikeRemoval | src/storage/PgContactRepository.cpp:215-218 | from the other side a block and a removal leave the same rows and tell the same |
| SocialPrivacy.DeclineLooksInvited | src/service/ConversationService.cpp:118-121 | a fresh decline and a waiting invitation give the same answer to the next invitation if and only if it goes to the decliner or is refused |
| SocialPrivacy.InviteShows | src/service/ConversationService.cpp:118-121 | an input: inviting a third person tells a decline |
| SocialPrivacy.ViewShowsDecline | src/storage/PgConversationRepository.cpp:180-193 | the conversation as its members read it lists an invitation that waits and not one declined |
| SocialPrivacy.InviteEventTimeIff | src/service/ConversationService.cpp:115-131 | the event tells the row's creation time if and only if the clock did not move during the call |
| SocialPrivacy.InviteEventTimeDiffers | src/service/ConversationService.cpp:115-131 | an input: one millisecond is enough |
| SocialGuarantees.EveryoneOrNobody | src/service/ConversationService.cpp:76-96 | a palette opens exactly when everyone may be invited, with each invited and told once; otherwise nothing changes |
| ContactOutcomes.RequestAnswers | src/service/ContactService.cpp:40-82 | which answer a request gets, with the limits of 50 and 20 and the 30 days written out |
| ContactOutcomes.RequestDoes | src/service/ContactService.cpp:54-82 | what each answer did: the two are allies, or one request went out, or nothing; a pending one goes out exactly without a block by the target, a waiting own request and a decline of the last 7 days |
| ContactOutcomes.AcceptDoes | src/service/ContactService.cpp:84-88 | an acceptance succeeds exactly while the request waits, makes the two allies, and both hear of it |
| ContactOutcomes.DeclineDoes | src/service/ContactService.cpp:90-93 | a waiting request is stamped, the own one is gone, all others stay and nobody hears |
| ContactOutcomes.TierIsSet | src/service/ContactService.cpp:112-115 | a tier is set exactly on a connected row; the row then has the tier asked for and its old date, all others are unchanged, and the caller's devices hear of that tier |
| ContactOutcomes.BlockIsSet | src/service/ContactService.cpp:104-110 | a block makes the caller's row a block, takes the other row and everything pending between the two away, and is told as a block to one side and a removal to the other |
| ContactOutcomes.UnblockMeans | src/service/ContactService.cpp:122-125 | lifting a block takes the caller's own row away, and nothing else; only the caller hears of it |
| ContactOutcomes.RemovalMeans | src/service/ContactService.cpp:118-130 | removing a contact ends both rows and everything between the two, and both hear of it; with a stranger nothing happens |
| ConversationOutcomes.ViewIsRight | src/storage/PgConversationRepository.cpp:159-195 | name, kind, creation time, members and invited of what is shown, each read off the rows |
| ConversationOutcomes.DmAnswers | src/service/ConversationService.cpp:40-53 | a dm is opened exactly by two different users in contact, and is new exactly if they have none |
| ConversationOutcomes.DmOtherwise | src/service/ConversationService.cpp:40-53 | a call that opens no new dm changes and tells nothing, and shows exactly an existing dm of the two |
| ConversationOutcomes.FreshDmMeans | src/service/ConversationService.cpp:46-52 | a new dm is one more conversation, of exactly these two, and both are shown it |
| ConversationOutcomes.DmsAreBetweenContacts | src/service/ConversationService.cpp:44-46 | in every run the members of a dm were in contact when it was made |
| ConversationOutcomes.PaletteAnswers | src/service/ConversationService.cpp:60-79 | which answer opening a palette gets, with the limits of 64 bytes and 50 people written out |
| ConversationOutcomes.FreshPaletteMeans | src/service/ConversationService.cpp:81-95 | a new palette has its maker for only member and invites exactly the people listed; the maker is shown it last |
| ConversationOutcomes.InviteAnswers | src/service/ConversationService.cpp:107-119 | only members invite, and only their contacts; what is left unchanged, and what goes out |
| ConversationOutcomes.InviteDoes | src/service/ConversationService.cpp:115-134 | an invitation that goes out is one row and one event; otherwise nothing changes |
| ConversationOutcomes.InviteShowsPalette | src/service/ConversationService.cpp:116-121 | what the inviter is shown, a fresh decline of the invitee being hidden among the invited |
| ConversationOutcomes.JoinDoes | src/service/ConversationService.cpp:137-155 | joining succeeds exactly while the own invitation waits, uses it up and adds exactly the caller |
| ConversationOutcomes.JoinTellsEveryone | src/service/ConversationService.cpp:145-154 | the newcomer drops the invitation and adds the palette; exactly every other member hears |
| ConversationOutcomes.TurnDownDoes | src/service/ConversationService.cpp:158-166 | a waiting invitation is stamped and only the decliner hears |
| SocialGuarantees.TrimCutsTheEnds | src/service/ConversationService.cpp:17-24 | trimming takes all white space off both ends and nothing else |
| Common.SpacesAre | src/service/ConversationService.cpp:18-18 | white space is space, tab, line feed, vertical tab, form feed and carriage return |
| SocialPersistence.BlockEndsIff | src/storage/PgContactRepository.cpp:214-216 | exactly two calls end a block: its owner lifting it, and the other side blocking |
| SocialPersistence.DeclineForgottenIff | src/storage/PgContactRepository.cpp:183-185 | exactly which calls end a fresh decline |
| SocialPersistence.MembersJoinIff | src/storage/migrations/0001_init.sql:162-165 | nobody leaves a conversation, and only accepting one's own pending invitation makes a member |
| SocialPersistence.RequestThenAccept | src/service/ContactService.cpp:79-88 | a request sent can be accepted by the target's next call until it is 30 days old, and that puts the two in contact |
| SocialPersistence.DeclineHoldsTheSender | src/service/ContactService.cpp:70-80 | right after a decline the sender's next request is dropped silently for exactly seven days (or while over a limit) |
| SocialPersistence.InviteThenJoin | src/storage/PgConversationRepository.cpp:242-273 | an invitation sent can be accepted by the invitee's next call until it is 30 days old, and that makes a member |
| SocialPersistence.DeclineHoldsTheInviter | src/storage/PgConversationRepository.cpp:217-228 | right after a declined invitation the next one changes nothing for exactly seven days, whichever member sends it |
| SocialPersistence.UniqueKeepsOrder | src/service/ConversationService.cpp:65-71 | invitees are asked in the order of first mention |
| SocialRuns.RequestEndsIff | src/storage/PicassoDatabaseClient.hpp:205-239 | exactly which calls end a pending request |
| SocialRuns.RequestStands | src/service/ContactService.cpp:40-130 | over any run a request is the same row until it expires or such a call comes |
| SocialRuns.RequestCanBeAccepted | src/service/ContactService.cpp:84-88 | until then it can be accepted, up to 30 days, and that puts the two in contact |
| SocialRuns.DeclineStands | src/service/ContactService.cpp:70-77 | over any run a decline is remembered for seven days, or until a call that makes the server forget it |
| SocialRuns.DeclineHoldsLater | src/service/ContactService.cpp:70-77 | as long as it is remembered, a request of the sender changes and publishes nothing |
| SocialRuns.InviteEndsIff | src/storage/PicassoDatabaseClient.hpp:332-380 | exactly which calls end a pending invitation |
| SocialRuns.InviteStands | src/storage/PgConversationRepository.cpp:201-289 | over any run an invitation is the same row until it expires or such a call comes |
| SocialRuns.InviteCanBeAccepted | src/storage/PgConversationRepository.cpp:242-273 | until then it can be accepted, up to 30 days, and that makes a member |
| SocialPersistence.RequestMeans | src/service/ContactService.cpp:46-81 | what "accepted" says of the contact, and that "pending" is true if and only if it hides no block and no fresh decline |

## Left out

- HTTP and WebSocket plumbing, controllers, DTO mapping, the JSON codec, static assets, configuration and logging: no state of their own.
- The Steam verification call, login, sessions, random tokens and their hashes: calls into code that is not part of this model.
- Call signalling: one operation is a stub, the other only forwards.
- The users table and the foreign keys to it: every user row is created on demand.
- The snapshot queries of contacts, incoming requests and invitations: filters over the tables that are modelled; the list of outgoing requests is `SocialTables.PendingFrom`.
- Real threads, condition variables and weak pointers: interleaved steps, a pop enabled only when its wait would end, and a set of live connections stand for them.
- `WsSession::writerLoop` is an endless loop: the model has one turn of it, and runs of any number of turns interleaved with pushes. The reader side, `inbound_` and nack frames are not modelled; acknowledgements are, in `Delivery`.
- RateLimiting.RateLimiter.TakeToken: the bucket is counted in exact units (2000 a token, one a millisecond); the rounding of `double` is not modelled.
- ChatServing.ChatService.Submit: one whole call without interleaving or database failure, so it never answers `Internal`; interleavings and a lost reply are in `Delivery`.
- SocialServing.ConversationService.OpenDm: one call at a time; concurrent get-or-create and a rolled-back transaction are in `DmRace`.
- ChatServing.ChatService.SyncOne: the conversation's name, kind and invited list in the entry are not modelled, only its id.
- DeliveryCoverage.NothingIsMissed: says nothing of a message whose append reply was lost, and requires that no send in progress has left the user out; both limits are real (see Findings).
- ChatServing.ChatService.Sync: the same as SyncOne, and the whole walk reads one state of the table; syncs with sends and deletes in between are in `Device` and `Delivery`.
- DeviceGuarantees.HoldsOneRange: the device takes no live deliveries or answers between its syncs; those are in `DeliveryCutOff.ResumeLacksOnly`.
- FrameQueueing.WsSession.Shutdown: closes the queue; waiting for the writer thread to end is not modelled.
- SocialStorage.SocialDatabase.CreatePalette: the time the creator joined is not stored.
- SocialStorage.SocialDatabase.AcceptInvite: the time the member joined is not stored.
