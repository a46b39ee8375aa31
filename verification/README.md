# Chat server: a verified model

A Dafny model of the stateful core of a chat backend and its React client, with proofs about unbounded runs:
message receipts and unread counts, cursor pagination, the per-user send limiter, presence reference counting,
the tag stripper, 1:1 conversation reuse, room membership, and the two lists the client keeps.

`dafny verify dfyconfig.toml` checks everything.

## How it is laid out

| file | what it models |
|---|---|
| Sanitize.dfy, MessageValidator.dfy | JavaScript text as 16-bit code units, `trim`, the tag stripper, the text pipeline |
| SocketRateLimit.dfy | the limiter's bucket map, the greedy-window reference, the rate bound |
| Domain.dfy, MessageService.dfy, ConversationService.dfy | the stored documents and the services on them |
| AtomicServer.dfy | whole handlers as steps: runs, invariants, broadcasts |
| CreationInterleaving.dfy | creation with its look-up and its insert as separate steps |
| Receipts.dfy | watermarks, unread counts, conservation of reads |
| ReceiptInterleaving.dfy, ReceiptBroadcasts.dfy | the receipt services with one step per `await`, and what their handlers emit |
| MessageReplica.dfy | the client's message list and its agreement with the store |
| Recency.dfy, History.dfy | pages through `nextCursor` |
| ConversationList.dfy | the client's conversation list, fed by its socket and by answers to its requests, and the server's order |
| Presence.dfy | connections, presence handlers, both as whole handlers and split at `await` |
| Rooms.dfy | joins, leaves, disconnects and who receives a broadcast |
| Runs.dfy, Since.dfy | runs of a step function; what has begun and not ended since |

Code that changes state in place is a class (`RateLimiter`, `Collections`, `Connections`, `Adapter` and the two
`Handlers` classes); its methods are proved equal to functions on values, and runs are runs of those functions.
The fields `acks` and `calls` of `AtomicServer.World` record what an observer has seen; no handler reads them.

## Assumptions

- Identifiers are canonical (equal identifiers are equal strings) and new ones are unused; socket ids are never
  reused.
- The limiter's clock does not run backwards, times are whole milliseconds, and `windowMs >= 1`. `max` may be any
  integer: a new window admits its first call whatever `max` is, so the bounds count a `max` below 1 as 1.
- A message is stamped (`createdAt`) no earlier than its call passed the limiter; its conversation's `updatedAt` is
  taken to be the same moment.
- `createdAt` of stored messages is strictly increasing in a conversation only in the watermark results, and
  `updatedAt` across conversations only in the conversation-list results. `SendKeepsReadIffAckedIff` says what a tie
  does.
- A handler emits right after its last database answer. On its way to a client an event may take any time, overtake
  others or be lost.
- A socket that has closed receives nothing and can join no room.
- The database may order equal sort keys as it likes, anew for each query; a document's `save` writes its changed
  fields and nothing else; a multi-document update is one write.
- One process. An authenticated user per socket is given.

## Where the code and its comments differ

Each item names a lemma with an input that shows it and the lemma that says exactly when the promise is kept.

- The limiter is called a sliding window. It is a window re-anchored at the first accepted call after the last
  one expired: up to `2 * max - 1` calls fit in one window's length (`RateBoundAttained`), and it slides only if
  the limit is 1, or the window is 1 ms and the limit positive (`SlidingWindowIff`). What it bounds is calls:
  messages whose membership look-up is slow can be stored together in any number (`DelayedMessagesPileUp`,
  `StoredMessagesBounded`).
- The stripper is said to leave ordinary punctuation alone. It takes "< 2 >" out of "1 < 2 > 0"
  (`PunctuationIsStripped`), and leaves unchanged exactly the texts without outer white space in which no `<` has a
  later `>` (`StripUntouchedIff`).
- `markMessageDelivered` is said never to downgrade a `read` message. It can, if its save lands after a read
  acknowledgement that overtook it (`DowngradesHappen`); `ReadIsSafeIff` says exactly when a message is safe.
- Unread counts are described as messages not yet read by the caller. One status serves all readers, so in a group
  a message read by anyone but its sender counts as read for everyone (`ReadByThirdHappens`, `UnreadIsOwnIff`).
- A user is said to go offline only when the last connection closes. A disconnect that overtakes its own connect
  announces offline again, and its late connect leaves a socket that is tracked for ever (`EarlyDisconnectLeaks`,
  `LeakIsForever`, `BroadcastsAlternateIff`, `OnlineIsRightIff`); status writes and broadcasts of overlapping handlers
  can also land out of order (`LateOnlineWins`, `StoredStatusSafeIff`, `LastBroadcastSafeIff`).
- 1:1 creation is called idempotent. It is for calls that do not overlap (`DirectIsForever`); two overlapping
  calls can both insert (`TwoStartsTwoConversations`, `UniqueIffNotOvertaken`).
- Pages drop messages when a page boundary falls between equal timestamps (`TieLosesMessage`, `ScrollWithTies`);
  `ScrollCompleteIff` tells from the timestamps and the limit alone whether that happens.
- Emitting to a room is said to reach every member's connections. It reaches those that have joined and not left
  (`HeardIff`); a conversation created after a socket connected stays unheard until the socket asks to join
  (`NewConversationUnheard`, `UnaskedHearsNothing`).
- A client that has left a room misses messages; starting an older 1:1 conversation that the client does not know puts
  it in front of more recent ones (`OlderDirectComesFirst`), and so does an answer that arrives after a message
  (`LateAnswerComesFirst`); `InStepIff` says exactly when its list is right.
- Marking as read is called idempotent. Overlapping acknowledgements announce the same ids twice
  (`TwoReadsBroadcastTwice`, `ReadTwiceIff`).
- After a stale save the store says `delivered`, and unread counts go by that, while clients go on showing `read`
  (`StaleSaveSplitsViews`, `StoredIsJoinIff`, `ShownIsStoredIff`).
- Events that arrive while a conversation's first page is loading are lost (`LoadLosesReceipt`, `LoadSettlesIff`,
  `ShownOnceIff`).

## Model

| member | source | states |
|---|---|---|
| Sanitize.ScannerRefinesSpec | src/utils/sanitize.ts:17-19 | Before trimming, the leftmost non-overlapping matcher removes position i iff some `<` at or before i has no `>` in between and some `>` follows at or after i, and keeps all else in order |
| Sanitize.NoTagSurvives | src/utils/sanitize.ts:17-19 | In the output no `<` has a later `>` |
| Sanitize.UntouchedIffNoTag | src/utils/sanitize.ts:17-19 | Before trimming, a text is left alone iff no `<` in it has a later `>` |
| Sanitize.StripUntouchedIff | src/utils/sanitize.ts:11-19 | The stripper returns its argument iff that has no `<` with a later `>` and no outer white space |
| Sanitize.PunctuationIsStripped | src/utils/sanitize.ts:11-19 | "1 < 2 > 0" loses everything from the `<` to the `>` |
| Sanitize.StripIsIdempotent | src/utils/sanitize.ts:17-19 | The stripped text is tag-free and trimmed, no longer than the input, and stripping again changes nothing |
| Sanitize.SpacesListed | src/utils/sanitize.ts:18 | `trim` takes exactly the 25 white space and line terminator code units of ECMAScript, listed one by one |
| MessageValidator.AcceptedTextIsFixpoint | src/validators/message.validator.ts:15-20 | An accepted text is trimmed, tag-free and 1 to 5000 long, validates to itself, and the schema's trim and maxlength accept it unchanged |
| MessageValidator.AcceptedTextsAreExactlyClean | src/validators/message.validator.ts:15-20 | The texts that can come out of validation are exactly the trimmed, tag-free ones of 1 to 5000 code units |
| MessageValidator.AcceptedIff | src/validators/message.validator.ts:15-20 | A raw text is accepted iff its trimmed form has at most 5000 code units, before stripping, and one of them outside every tag is not white space; what is accepted is the text outside the tags, trimmed; only an over-long one is reported as too long |
| MessageValidator.LettersAccepted | src/validators/message.validator.ts:15-20 | n letters are accepted, unchanged, iff 1 <= n <= 5000 |
| MessageValidator.CleanIsFixpoint | src/models/Message.model.ts:27-32 | The stored schema's trim, required and maxlength never change or reject a clean text |
| MessageValidator.SchemaKeepsIff | src/models/Message.model.ts:27-32 | The schema stores a text unchanged iff it is trimmed and 1 to 5000 code units long |
| SocketRateLimit.RateLimiter.CheckMessageRateLimit | src/middlewares/socketRateLimit.middleware.ts:32-47 | The in-place limiter computes the specified decision and bucket map |
| SocketRateLimit.BucketRefinesHistory | src/middlewares/socketRateLimit.middleware.ts:7-10 | After every run the bucket is the newest window of the greedy partition of the user's accepted calls, and the next decision equals the reference's, which sees the whole history |
| SocketRateLimit.WindowsAreGreedy | src/middlewares/socketRateLimit.middleware.ts:36-39 | The reference partitions the whole history into windows anchored at their first call, each next one at least a window length later |
| SocketRateLimit.GreedyPartitionIsUnique | src/middlewares/socketRateLimit.middleware.ts:36-39 | It is the only such partition |
| SocketRateLimit.OnlyOwnAcceptedCallsMatter | src/middlewares/socketRateLimit.middleware.ts:24-47 | Deleting a user's rejected calls and any calls of others changes neither the user's accepted calls nor the next decision |
| SocketRateLimit.RateBound | src/middlewares/socketRateLimit.middleware.ts:32-47 | In any interval of k windows a user has at most (k + 1) * max - 1 accepted calls (k * max if the window is 1 ms), a max below 1 counting as 1 |
| SocketRateLimit.RateBoundAttained | src/middlewares/socketRateLimit.middleware.ts:32-47 | For every k >= 1 and window of at least 2 ms some run reaches that number exactly |
| SocketRateLimit.SlidingWindowIff | src/middlewares/socketRateLimit.middleware.ts:12-31 | The limiter never lets more than `max` calls into one window's length, for all runs, iff max is 1, or the window is 1 ms and max positive |
| MessageService.Collections.CreateMessage | src/services/message.service.ts:17-40 | On the mutable collections: Ok iff the conversation exists and the sender is a member; then the message with exactly this text is stored as `sent`, is the last message of its conversation and sets its `updatedAt`, and nothing else changes; on failure nothing does |
| MessageService.Collections.MarkMessageDelivered | src/services/message.service.ts:55-74 | On the mutable collections: Ok iff the message is stored and the user a member of its conversation; then `sent` becomes `delivered`; nothing else changes |
| MessageService.Collections.MarkMessagesRead | src/services/message.service.ts:85-117 | On the mutable collections: Ok iff the user is a member and `upTo` is a message of the conversation; then every message of it by others up to that time is `read`, the result is those that were not, and nothing else changes |
| AtomicServer.Handlers.OnMessageSend | src/sockets/handlers/message.handler.ts:46-89 | The handler limits, validates, persists and emits as one step of the run model: an allowed call by a member with an acceptable text stores and emits exactly that text, trimmed and without its tags; any other stores and emits nothing |
| AtomicServer.Handlers.OnMessageDelivered | src/sockets/handlers/receipt.handler.ts:30-59 | A member's delivery is emitted whatever the status was and takes `sent` to `delivered`; any other does nothing; as one step of the run model |
| AtomicServer.Handlers.OnMessageRead | src/sockets/handlers/receipt.handler.ts:61-95 | An acknowledgement by a member, for a message of the conversation, makes all covered messages `read` and emits those that were not, if any; any other does nothing; as one step of the run model |
| AtomicServer.Handlers.CreateConversation | src/services/conversation.service.ts:11-32 | Creation returns an existing 1:1 between the same users and stores nothing, or stores and returns one conversation of the kind, name and distinct members asked for; as one step of the run model |
| AtomicServer.NextAnswers | src/services/message.service.ts:17-117 | Each whole handler does to the store and emits what its request asks for, stated without the step functions: who is allowed, what is stored, what becomes `read`, what is emitted, what stays |
| AtomicServer.RunValid | src/services/message.service.ts:17-40 | Over every run: senders are members, texts are clean, stored members are distinct, 1:1 conversations are unique |
| AtomicServer.RunExtends | src/services/conversation.service.ts:25-29 | Over every run conversations keep kind and members, and messages everything but their status |
| AtomicServer.StoredMessagesBounded | src/sockets/handlers/message.handler.ts:50-67 | Over every run that stamps messages at most `delay` after their call, a user has at most (k + 1) * max - 1 stored messages created in an interval that with `delay` added fits k windows |
| AtomicServer.DelayedMessagesPileUp | src/services/message.service.ts:17-32 | Without such a bound on the wait for the membership look-up, n messages of one user are stored with the same `createdAt`, for every n, limit and window |
| AtomicServer.DirectIsForever | src/services/conversation.service.ts:17-23 | Once two users have a 1:1 conversation, creation by either, after any further run, returns it and stores nothing |
| ConversationService.AllAndSizeIsSetEquality | src/services/conversation.service.ts:18-21 | `$all` with `$size` matches iff the stored members are the same set and are stored without duplicates |
| CreationInterleaving.UniqueIffNotOvertaken | src/services/conversation.service.ts:17-29 | Over every interleaving of look-ups and inserts, 1:1 conversations are unique at the end iff no call's pair was inserted by another call between its own empty look-up and its insert |
| CreationInterleaving.TwoStartsTwoConversations | src/services/conversation.service.ts:17-29 | Two people who start a 1:1 conversation with each other at once end up with two |
| CreationInterleaving.LoneCreationIsWhole | src/services/conversation.service.ts:17-29 | A look-up and insert that nothing interrupts are one whole creation; the creation of a group always is |
| ConversationService.CreateKeepsUnique | src/services/conversation.service.ts:11-32 | A whole creation keeps members distinct and 1:1 conversations unique, and returns a conversation of that kind with exactly the requested members |
| ConversationService.ListingCountsUnread | src/services/conversation.service.ts:46-71 | Each row of the list carries the number of the caller's unread messages at the time of the aggregation, whatever changed since the list query and whatever the order among equal `updatedAt` |
| ConversationService.GroupsCountUnread | src/services/conversation.service.ts:54-70 | The grouped aggregation, with 0 for absent groups, equals the per-conversation unread sets |
| Receipts.UnreadIsAboveWatermarks | src/services/message.service.ts:94-114 | Over every run with increasing `createdAt`, `read` means acknowledged at or after by a non-sender, and unread messages are exactly the others' messages above every non-sender's watermark; what counts as acknowledged is every acknowledgement in the run by a member, for a stored message of the conversation |
| Receipts.DirectUnreadIsAboveOwnWatermark | src/services/conversation.service.ts:54-63 | In a 1:1 conversation unread means sent by the other after one's own watermark |
| Receipts.UnreadIsOwnIff | src/services/conversation.service.ts:39-63 | Unread means not acknowledged by oneself iff no third member acknowledged such a message first |
| Receipts.ReadByThirdHappens | src/services/conversation.service.ts:54-63 | In a group of three, one reader's acknowledgement clears the other's unread count |
| Receipts.SendKeepsReadIffAckedIff | src/services/message.service.ts:27-32 | With tied timestamps, a new message keeps `read` equal to acknowledged iff no other member's acknowledgement already reaches its time |
| Receipts.ReadConservation | src/services/message.service.ts:103-116 | A read lowers the reader's unread count by the number of returned ids, another user's by those that user did not send, and no other conversation's |
| Receipts.EachReadBroadcastOnce | src/sockets/handlers/receipt.handler.ts:70-76 | Over every run of whole handlers no id is in two `message:read` broadcasts, and each broadcast id is `read` |
| ReceiptInterleaving.OnlyStaleSavesDowngrade | src/services/message.service.ts:63-71 | One step lowers a status only from `read` to `delivered`, and only as the save of a handler that saw `sent` |
| ReceiptInterleaving.NeverBackToSent | src/services/message.service.ts:63-71 | No interleaving returns a status to `sent` |
| ReceiptInterleaving.StaleLoadedWhileSent | src/services/message.service.ts:63-68 | Such a handler loaded the message during the run while it was `sent` |
| ReceiptInterleaving.DowngradeBound | src/services/message.service.ts:63-114 | Downgrades are at most the handlers that saw `sent`, and at most the writes that raised the message to `read` |
| ReceiptInterleaving.QuietIsMonotone | src/services/message.service.ts:63-71 | With no such handler in flight the status never goes down again, over all continuations |
| ReceiptInterleaving.ReadIsSafeIff | src/services/message.service.ts:63-114 | A `read` message can be downgraded in some continuation iff a member's delivery handler that saw `sent` is in flight |
| ReceiptInterleaving.DowngradesHappen | src/services/message.service.ts:63-114 | For every n an interleaving of n deliveries and n reads downgrades exactly n times |
| ReceiptBroadcasts.StoredIsJoinIff | src/services/message.service.ts:63-116 | Over every interleaving with its broadcasts, the stored status is the join of the receipts iff no stale save landed after the last write that raised it to `read`; otherwise the receipts say `read` and the store `delivered` |
| ReceiptBroadcasts.ShownIsStoredIff | frontend-ui/src/hooks/useMessages.ts:53-67 | A client that got every broadcast shows a message as stored iff the same holds |
| ReceiptBroadcasts.StaleSaveSplitsViews | src/services/message.service.ts:68-71 | A run after which receipts say `read` while the message is stored as `delivered` and still counted unread |
| ReceiptBroadcasts.ReadTwiceIff | src/sockets/handlers/receipt.handler.ts:61-76 | Over every interleaving, an id is in two `message:read` broadcasts iff two handlers whose updates land collected it, the later to land before the other's update or after a downgrade |
| ReceiptBroadcasts.TwoReadsBroadcastTwice | src/services/message.service.ts:103-116 | A run of two overlapping acknowledgements that broadcasts an id twice |
| ReceiptBroadcasts.LoneReadIsWhole | src/services/message.service.ts:85-117 | The steps of a read acknowledgement that nothing interrupts store and emit what the whole handler does, for every user, conversation and message |
| ReceiptBroadcasts.LoneDeliveryIsWhole | src/services/message.service.ts:55-74 | The same for a delivery |
| ReceiptBroadcasts.InsertIsCreation | src/services/message.service.ts:17-32 | The same for the insert of a message and its announcement |
| MessageReplica.TouchAllIsJoin | frontend-ui/src/hooks/useMessages.ts:53-67 | Any event sequence leaves an entry at the join of its status and its receipts, the rest unchanged |
| MessageReplica.ReceiptsConverge | frontend-ui/src/hooks/useMessages.ts:53-67 | Lists that received the same set of receipts, in any order and multiplicity, are equal |
| MessageReplica.RunStatusIsJoin | src/sockets/handlers/receipt.handler.ts:35-76 | Over every run each stored status is the join of `sent` and the receipts broadcast so far |
| MessageReplica.EventMeaning | frontend-ui/src/hooks/useMessages.ts:48-67 | One event appends the announced message, or leaves every entry as it is but for the status, which becomes the higher of what it was and what the event says |
| MessageReplica.ReplicaMatchesDatabase | frontend-ui/src/hooks/useMessages.ts:48-67 | Every shown message ends equal to the stored one when its snapshot or `message:new` precedes its receipts |
| MessageReplica.ReplicaSettlesIff | frontend-ui/src/hooks/useMessages.ts:48-67 | Whatever events arrive, the list ends equal to the stored messages iff each entry has seen, after it was shown, receipts that reach as far as those broadcast since its snapshot or announcement |
| MessageReplica.LoadDiscardsEarlierEvents | frontend-ui/src/hooks/useMessages.ts:28-51 | When `load` resolves, earlier events are lost; the ids shown are then the page's and those announced later, with repetitions |
| MessageReplica.LoadShowsOldestFirst | frontend-ui/src/hooks/useMessages.ts:28-51 | A page that is newest first is shown oldest first, each entry once in its mirrored place, and later announcements come after it |
| MessageReplica.ShownOnceIff | frontend-ui/src/hooks/useMessages.ts:28-51 | From the page on every message is shown exactly once, and none besides, iff the messages announced after `load` resolved are exactly those stored since the page was read, each once |
| MessageReplica.LoadSettlesIff | frontend-ui/src/hooks/useMessages.ts:28-67 | After `load`, the list ends right iff later events make up for all receipts since the page was read; those that came before it resolved count for nothing |
| MessageReplica.LoadLosesReceipt | frontend-ui/src/hooks/useMessages.ts:28-38 | A delivery confirmed while `load` is under way leaves the message shown as `sent` |
| History.PageMeaning | src/services/conversation.service.ts:121-140 | A final page shows all that matched; any other is full and separates what it shows from what it leaves at its cursor; `hasMore` tells whether something that matched was not shown |
| History.ScrollWithTies | src/services/conversation.service.ts:126-140 | Pages repeat nothing and are newest first; a message is omitted iff it ties with the last message of a non-final page it is not on, for every tie order |
| History.ScrollCompleteIff | src/services/conversation.service.ts:126-140 | All messages are shown iff for no time t and page number k the boundary k * limit falls strictly between the number of messages newer than t and that plus those at t, for every tie order |
| History.ShowsAllIff | src/services/conversation.service.ts:126-140 | The same from any cursor on |
| History.TieLosesMessage | src/services/conversation.service.ts:126-140 | Two messages of one time, read one by one: the second is never shown |
| History.ScrollIsComplete | src/services/conversation.service.ts:121-140 | With distinct timestamps the pages are the conversation newest first and all but the last have `limit` entries |
| History.ScrollTerminates | src/services/conversation.service.ts:136-140 | The full pages together hold no more than the messages below the first cursor, so following `nextCursor` ends |
| History.ScrollExists | src/services/conversation.service.ts:121-140 | From any cursor the pages can be followed to the end |
| History.ScrollIsStable | src/services/conversation.service.ts:126-138 | If between requests nothing changes below the cursor, the pages are a scroll of the conversation as first seen |
| History.ServerRunsKeepPages | src/services/message.service.ts:27-35 | Any server run whose stored messages in the conversation are not older than the cursor changes nothing below it: the stored messages of the conversation below the cursor and their times are the same |
| History.ServedScrollIsSnapshot | src/services/conversation.service.ts:121-140 | If between requests the server runs any handlers whose stored messages in the conversation are at or above the cursor in use, the pages served are a scroll of the conversation as it was at the first request |
| History.ServedScrollShowsStored | src/services/conversation.service.ts:121-140 | A served scroll from the newest message on shows stored messages of the conversation, none twice, newest first; and all of them iff no page boundary k * limit falls strictly inside a group of equal times, counted on the store of the first request |
| ConversationList.BumpConversationWithMessage | frontend-ui/src/hooks/useConversations.ts:39-48 | The search and splice move the first entry for the conversation to the front with its new last message, shift those before it by one, keep the others in place, and do nothing if there is none |
| ConversationList.HeardAtOnce | frontend-ui/src/hooks/useConversations.ts:39-48 | A stored message reaches the client iff its socket is in the room, and heard at once moves its conversation to the front |
| ConversationList.StartedAtOnce | frontend-ui/src/hooks/useConversations.ts:74-81 | An answer that is put into the list at once is the stored conversation, in front unless it is known |
| ConversationList.InStepIff | frontend-ui/src/hooks/useConversations.ts:39-81 | Over every run of the server, its rooms and the client, notices and answers arriving in any order or never: the list is as stored and newest first iff no row fell behind its newest message without catching up since, and none stands where it was put in front of one at least as recent with neither moved since |
| ConversationList.MoveToFrontIsServerOrder | frontend-ui/src/hooks/useConversations.ts:39-81 | Over the same runs the list is duplicate-free and, while everything is in place, equals the server's order restricted to it |
| ConversationList.StartKeepsInStepIff | frontend-ui/src/hooks/useConversations.ts:78-81 | Starting a conversation keeps the order right iff it is known or newer than all known ones |
| ConversationList.OlderDirectComesFirst | frontend-ui/src/hooks/useConversations.ts:74-81 | A run in which an older 1:1 conversation is put before a newer group |
| ConversationList.LateAnswerComesFirst | frontend-ui/src/hooks/useConversations.ts:76-81 | A run in which a started group is put in front of a conversation that became more recent while the answer was on its way |
| Presence.Connections.AddConnection | src/services/presence.service.ts:23-34 | Adding to the mutable map, and whether the user had no connection |
| Presence.Connections.RemoveConnection | src/services/presence.service.ts:41-53 | Removing from the mutable map, and whether none is left, true for an unknown user |
| Presence.Handlers.IsUserOnline | src/services/presence.service.ts:59-62 | It answers true exactly for users with a socket that was added and not removed since: registered, or added after its own disconnect |
| Presence.Handlers.HandleUserConnect | src/sockets/handlers/presence.handler.ts:39-63 | The connect handler is the connect step, whether or not its socket has already closed: it adds this socket for this user and no other, and stores and broadcasts online iff nothing was tracked |
| Presence.Handlers.HandleUserDisconnect | src/sockets/handlers/presence.handler.ts:71-95 | The disconnect handler is the disconnect step, whether or not its socket was added: it removes this socket of this user and no other, and stores and broadcasts offline iff nothing is left |
| Presence.TrackedOverRuns | src/sockets/index.ts:70-85 | Over every order of handlers, the tracked set is the registered live sockets plus those whose disconnect ran before their own add; no empty set; online iff one exists |
| Presence.TrackedFromSteps | src/sockets/index.ts:70-85 | Over every order of handlers, from the steps alone: a socket is tracked for a user iff it arrived for that user, its connect has run, and its first disconnect did not run after that connect |
| Presence.OnlineFromSteps | src/services/presence.service.ts:59-62 | `isUserOnline` after a run is true iff there is such a socket |
| Presence.LeakIsForever | src/sockets/index.ts:70-85 | A socket added after its disconnect keeps its user online for ever |
| Presence.OnlineIsRightIff | src/sockets/index.ts:70-85 | Over every order of handlers, `isUserOnline` tells whether a registered socket is live iff one is, or no socket of the user had its disconnect run before its own connect |
| Presence.EarlyDisconnectLeaks | src/sockets/index.ts:70-85 | A run with an early disconnect leaves the user announced and tracked as online with no socket open |
| Presence.ViewsAgree | src/sockets/handlers/presence.handler.ts:39-95 | Last broadcast, stored status and `isUserOnline` agree after every whole handler, in any order |
| Presence.BroadcastsAlternateIff | src/services/presence.service.ts:41-53 | A user's broadcasts alternate starting with online iff no disconnect ran while nothing was tracked |
| Presence.PresenceAlternates | src/sockets/handlers/presence.handler.ts:39-95 | If sockets register before they disconnect, broadcasts alternate and all views agree, for any number of tabs |
| Presence.SplitRefinesHandlers | src/sockets/handlers/presence.handler.ts:41-58 | With handlers split at `await`, the map goes through the states of whole handlers in the same order |
| Presence.LoneHandlerIsWhole | src/sockets/handlers/presence.handler.ts:39-95 | A split handler that nothing interrupts stores and broadcasts what the whole one does |
| Presence.SplitConserves | src/sockets/handlers/presence.handler.ts:48-58 | Every transition on the map is broadcast or pending exactly once |
| Presence.QuiescentBalance | src/sockets/handlers/presence.handler.ts:39-95 | Once all handlers finish, online broadcasts exceed offline ones by one if the user is online, else they are equal |
| Presence.LateOnlineWins | src/sockets/handlers/presence.handler.ts:48-90 | Overlapping handlers can leave a user without connections stored and last announced as online |
| Presence.StoredStatusSafeIff | src/services/presence.service.ts:67-76 | The stored status (offline until first written) is sure to end as `isUserOnline` iff no opposite write is under way and the right one is stored or under way |
| Presence.LastBroadcastSafeIff | src/sockets/handlers/presence.handler.ts:48-90 | The last broadcast about a user is sure to end as `isUserOnline` iff every pending broadcast about that user, its status written or not, says so and one is pending or the last one made already does |
| Rooms.Adapter.OnConversationJoin | src/sockets/handlers/connection.handler.ts:16-31 | A whole join acknowledges exactly members; if it does and the socket is open, this socket is added to this room, and no other pair changes; it is the check step followed by the join step |
| Rooms.Adapter.OnConversationLeave | src/sockets/handlers/connection.handler.ts:33-45 | A leave takes this socket out of this room and changes no other |
| Rooms.RoomsStaySafe | src/sockets/handlers/presence.handler.ts:25-31 | Over every interleaving, sockets in a room belong to members, and every broadcast was caused by a member and reached only members' sockets |
| Rooms.DroppedHearsNothing | src/sockets/index.ts:80-85 | Over every interleaving, a socket that has disconnected is in no later broadcast, whatever joins were still on their way |
| Rooms.EmitterIsMember | src/services/message.service.ts:18-32 | Whoever makes a handler emit is a member of the conversation it emits to |
| Rooms.JoinedHearsAll | src/sockets/handlers/message.handler.ts:61-67 | Over every run in which it neither leaves nor disconnects, a joined socket stays in the room and receives every broadcast to it |
| Rooms.InRoomIff | src/sockets/handlers/connection.handler.ts:16-45 | Over every interleaving, from the steps alone: a socket is in a room iff it joined while open, with its user found to be a member by an automatic or requested join since its last join, and no leave or disconnect followed |
| Rooms.MemberGetsIn | src/sockets/handlers/connection.handler.ts:16-25 | An open socket whose automatic or requested join found its user to be a member is in the room once the join has happened |
| Rooms.HeardIff | src/sockets/handlers/message.handler.ts:61-67 | A broadcast reaches a socket iff it was let into the room before and has neither left nor disconnected since |
| Rooms.BroadcastsAreDelivered | src/sockets/handlers/message.handler.ts:61-67 | A handler that emits causes exactly one delivery, to the sockets in the room of its conversation; one that emits nothing reaches nobody |
| Rooms.PresenceIsDelivered | src/sockets/handlers/presence.handler.ts:49-58 | A presence broadcast goes to the sockets in the room of every conversation of which its user was a member when the room ids were read |
| Rooms.UnaskedHearsNothing | src/sockets/handlers/presence.handler.ts:14-31 | A socket for which neither the automatic join nor a requested one read the database since the conversation was created is in no broadcast to it |
| Rooms.NewConversationUnheard | src/sockets/handlers/presence.handler.ts:21-31 | A run in which a connected member misses the first message of a conversation created after connecting |

## Left out

- Routes, controllers, authentication, logging, REST rate limiting and the Redis adapter: plumbing or library behaviour.
- Object-id format checks and the other request validators: identifiers and limits are taken as already checked.
- Typing signals and user search: nothing is stored.
- `lastSeen`, user names and populated documents: carried along, never decided on.
- Failures of database calls inside handlers: a handler that stops early is covered as one whose remaining steps never come.
- `conversation.lastMessage` under overlapping sends: its save is taken together with the message's insert.
- Client state besides the two lists (loading flags, errors, the typing map, presence dots, `refresh`).
- Reconnection of a client's socket: the list results follow one socket.
- The link from a presence transition to its room-id read: Presence.dfy counts the broadcast as made, and Rooms.dfy follows any such read to its deliveries.
