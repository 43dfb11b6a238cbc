# Secure communications SDK: a verified model

This project models, in Dafny 4.11, the parts of a Matrix client SDK that hold real state: how sessions
are created, refreshed and serialized, how a timeline is read with its edits, how paged event logs are
aggregated, how notification settings are encoded in push rules, and a few smaller exact algorithms. The
Matrix server and the SDK underneath are abstract state with step functions. `dafny verify dfyconfig.toml`
checks everything.

## The models

**Sessions.** `TokenClock` holds the expiry arithmetic. `SessionBody` cuts the code of one
`ensureValidSession` call at every `await`; `Step` is the code between two of them, with every reply that
can arrive there, failures included. `SessionChain` adds the per-handle promise chain, the microtask queue,
the refresh timers and deletions from outside, with one ticket for each call; an action is a call, the next
microtask, the answer to an await, a timer that fires, or a deletion. `SessionChainInvariant` proves that
every action keeps the invariant, and `SessionProtocol` draws the conclusions for every run: bodies in call
order and one at a time, the interleaved run equal to the sequential one, timers and tokens in step with
sessions, the client that `getMatrixClient` hands out, progress. `SessionOutcomes` follows the passphrase,
the device, the storage and the client of a call, `SessionStorage` what each await does to the storage and
where failures lead, and `SessionReturns` when a call returns, when it is rejected, and with which token.
`SessionCalls` is about what makes a call, timers included, and about deletions from outside.
`SessionManagers.SessionManager` is the same code as an object that updates its records in place, each method
proved equal to its step.

**Timeline.** `TimelinePages` is the paginating loop against any server that moves on, `Timeline` the
in-place routing and de-duplication and the application of edits, `MessageContents` the transformer, the
stable sort and the choice of the latest edit. `TimelineHistory` puts them together: for every history of
texts, media messages, polls and encrypted events, plain, in threads and as replies, of memberships, edits
and redactions, `list` is the history with its edits applied.

**Aggregations.** `PollTally` and `PollOrder`, `UnreadCounts`, `PinnedEvents`, `DirectChats` and
`SlidingRange` hold the loops and the records of the client manager, each with an independent declarative
reading.

**Settings, listeners, moderation, roles, media.** `PushRules` has the writers and the reader over a rule
store, with the predefined rules of the Matrix Client-Server API v1.13 (module "Push Notifications",
section "Predefined Rules"), and `PushDelivery` what the server notifies of under them, by the evaluation
order of its section "Push Rules"; `MessageListeners` the nested listener maps; `Moderation` the guarded
commands on a room; `ChannelRoles` the role and level tables; `MediaKeys` the object keys and `mxc://` URIs.
`JsCollections` is what a JavaScript `Map` is, a map with the insertion order of its keys, the names a plain
object inherits from `Object.prototype`, and the removals from lists. `Options` holds `Option` and `Result`.

## What the code turned out to do

- Two clock readings can judge a token fresh that expires between them (`JudgedFreshExactly`, with the
  witness `JudgedFreshWhileExpiring`).
- The caller's device is asked for after an expired session was deleted, because the stored token that
  named the device is deleted first (`ServiceAskedForDevice`).
- `list` keeps the thread of an edited message and `get` does not (`GetAgreesWithList`); both lose what an
  edited reply replied to, because the content of the edit replaces that of the reply (`ApplyEditsShows`).
- Plain objects serve as records, and answer to inherited names such as `constructor`. A vote for an answer
  of that name turns its count and the total into texts (`ConstructorIsNotCounted`; the tally is right
  exactly when no winning ballot holds such a name, `PlainExactly`); a message in a thread of that name
  makes the list of the room fail (`ConstructorThreadFails`, `ListAppliesEdits`) and counts in no thread
  (`ConstructorThreadIsLost`, `EveryThreadExactly`); a handle of that name can have no session
  (`InheritedHandlesAreRefused`).
- The order of poll responses decides the entries where a user's last responses share a timestamp and differ
  (`OrderDoesNotMatter`, with the witness `TiesGoToTheFirst`). It decides the total also where that is a text
  (`TextTotalsMove`), and otherwise not (`TotalDoesNotMove`).
- A redacted message leaves its thread, and shows the text of an edit that was not redacted with it
  (`DeletedShowsNoText`). A redacted edit is listed as a message of its own (`RedactedEditAppears`).
- A pinned image whose caption was edited is shown as a text (`PinnedAgreesWithGet`).
- The caption of an audio message is sent as its body and looked for elsewhere, so it is not shown until it
  is edited (`CaptionShown`).
- A pin toggle is not written when the stored list holds exactly one entry too many (`WrittenExactly`, with
  the witness `PinIsLost`).
- Marking an empty chat read throws and leaves it marked unread (`MarkReadClears`, with the witness
  `EmptyChatStaysUnread`).
- A recipient level of `mentions` reads back as `mute`; a room name that the reader's pattern cannot match
  is written and never read back (`RecipientReadsBackExactly`, with the witness `MentionsReadAsMute`).
- The setter for invitations tries to add a missing rule whose name starts with a dot, which the server has
  to refuse (Client-Server API v1.13, "Push Rules"; `InvitationsNeedTheirRule`, with the witness
  `InvitationsStayOff`). For a room name with a slash, which it refuses too, a recipient level is cleared and not set (`SetRecipientReads`).
- A room with a level of `mentions` notifies of no mention, as its rule without actions comes before the
  rules for mentions (`SettersDecideDelivery`).
- The reader of the default level looks at the actions of a rule and not at its `enabled` flag.
- A level below 10 reads as the lowest role, which needs 10 (`RoleAdjunction`).
- The server's rule on grants bounds the levels in a room by itself, self-updates included
  (`MaximumNeverRises`); the guard of the code does not (`GuardAloneIsNotEnough`).
- A call to unregister that fails to get the client leaves the client listener attached for good, unless a
  listener of that handle object is registered again (`LeftAttached`, with the witness
  `AttachedForNothing`).
- The documentation of the module promises the newest message first
  (`src/public/modules/messagingModule.ts:482`); `list` sorts the oldest first (`ListAppliesEdits`).

## Model

| member | source | states |
|---|---|---|
| TokenClock.ExactlyOneClass | src/private/data/session/sessionManager.ts:172-187 | at any instant a token is exactly one of fresh, expiring soon and expired |
| TokenClock.ClassesByInstant | src/private/data/session/sessionManager.ts:172-187 | the three classes in milliseconds: expired from `exp` on, expiring soon from the threshold before it on, fresh until then |
| TokenClock.JudgedFreshExactly | src/private/data/session/sessionManager.ts:172-187 | the two clock readings judge a token fresh exactly when it is fresh at the second one, or it expired between them |
| TokenClock.JudgedFreshWhileExpiring | src/private/data/session/sessionManager.ts:172-187 | a token judged fresh that expired between the two readings |
| TokenClock.ScheduledExactlyWhenFresh | src/private/data/session/sessionManager.ts:189-219 | a refresh is scheduled exactly when the threshold is positive and the token is fresh |
| TokenClock.TimerTakesRefreshBranch | src/private/data/session/sessionManager.ts:189-251 | a timer fires into the refresh branch exactly when (schedule time mod 1000) plus its lateness is below the threshold in milliseconds, and into expiry from then on |
| SessionBody.BodyEnds | src/private/data/session/sessionManager.ts:129-156 | every body ends after at most fourteen answers, whatever they are |
| SessionBody.StepKeepsWorking | src/private/data/session/sessionManager.ts:129-443 | each stretch of code between two awaits keeps what holds at the awaits: the only armed timer is the one in the session and was set for its token, the client uses the token of the session |
| SessionBody.RunKeepsWorking | src/private/data/session/sessionManager.ts:129-443 | the same for every run of a body from a handle at rest |
| SessionBody.CarriedTokenWasBrought | src/private/data/session/sessionManager.ts:224-396 | a token that a body carries on was, during this very run, the cached or stored token examined and judged fresh, or granted by the service |
| SessionBody.ReturnedToken | src/private/data/session/sessionManager.ts:129-443 | when a body returns t, the session exists, holds t, its client uses t, t is persisted unless a storage call ever failed, and in this call t was the cached or stored token judged fresh or was granted |
| SessionBody.DeleteSessionKeepsRest | src/private/data/session/sessionManager.ts:40-71 | a deletion from outside, wherever it stops, leaves the handle consistent and without armed timers; a complete one leaves no session, stored token or cached storage; without a session it does nothing |
| SessionOutcomes.PassphraseSticks | src/private/data/session/sessionManager.ts:129-156 | a body leaves the session it found or one with the passphrase of that session and, failing that, of the caller; the armed timer passes on the same |
| SessionOutcomes.ServiceAskedForDevice | src/private/data/session/sessionManager.ts:353-396 | the service is asked for the device of the cached token on refresh, else that of the stored token, else the caller's; after a deletion in the same call it is the caller's |
| SessionOutcomes.StorageIsCached | src/public/modules/storageModule.ts:221-255 | a refresh and a deletion find the handle's storage in the cache, so that opening it, for a deletion without a passphrase, cannot fail; after a deletion it is out of the cache, and is opened with the passphrase |
| SessionOutcomes.ReuseRefreshOrCreate | src/private/data/session/sessionManager.ts:129-156 | a call that returns reused a fresh session unchanged, or refreshed an unexpired one and kept its client, or made a session with a new client |
| SessionReturns.StepRejectsExactly | src/private/data/session/sessionManager.ts:129-443 | an await ends a call with an exception exactly when its answer is fatal: a failure outside a refresh, or a cached, stored or granted token that cannot be decoded; no failure of a refresh is |
| SessionReturns.RejectedExactly | src/private/data/session/sessionManager.ts:129-443 | a call is rejected exactly when one of its answers is fatal |
| SessionReturns.CreateCourse | src/private/data/session/sessionManager.ts:319-443 | a call without a session that is not rejected opens and reads the storage, asks the service unless the stored token will do, makes the client, saves the token and returns it, in this order |
| SessionReturns.NewSessionToken | src/private/data/session/sessionManager.ts:353-396 | a call without a session returns the stored token and is granted none exactly when that one was judged fresh, and otherwise the token it was granted |
| SessionReturns.FoundCourse | src/private/data/session/sessionManager.ts:129-156 | a call that finds a session and for which nothing fails returns a usable one at once, deletes an expired one and makes a new one, and refreshes any other, await by await |
| SessionReturns.GoodCallReturns | src/private/data/session/sessionManager.ts:129-443 | from a handle at rest, a call for which no await fails and whose tokens can be decoded returns: the cached token, the stored one or the granted one, as clocks and session decide |
| SessionReturns.ReturnsLastGranted | src/private/data/session/sessionManager.ts:129-443 | whatever failed on the way, a call that was granted tokens and returns, returns the last of them |
| SessionReturns.NewSessionIsScheduled | src/private/data/session/sessionManager.ts:189-219 | a session that is made or refreshed has a timer exactly when refreshing is on and its token outlasts the threshold, armed to the second for the moment the threshold is reached, with the passphrase |
| SessionStorage.PossibleReplies | src/private/data/session/sessionManager.ts:40-71 | which awaits can fail: the service, the client, and storage calls if there is a storage, opening it only when it is not in the cache |
| SessionStorage.StorageStep | src/private/data/session/sessionManager.ts:40-443 | what each await does to the cached storage and the stored token: opened, closed, saved or deleted exactly at its own awaits, and untouched by a failure |
| SessionStorage.FaultExactly | src/private/data/session/sessionManager.ts:129-443 | a storage fault is remembered after a run exactly when there was one before or a storage call of the run failed |
| SessionStorage.WithoutStorage | src/private/data/session/sessionManager.ts:398-443 | without a storage provider a call leaves nothing stored, opened or at fault |
| SessionStorage.RefreshFailureDeletes | src/private/data/session/sessionManager.ts:273-317 | a refresh turns to deleting its session, timer disarmed, exactly when one of its awaits fails or it is granted a token that cannot be decoded |
| SessionChainInvariant.NextKeepsInv | src/private/data/session/sessionManager.ts:102-127 | every call, microtask, answer, timer and outside deletion keeps the protocol invariant: links of the promise chain, order of the tickets, contents of the microtask queue, agreement with the sequential run |
| SessionProtocol.RunInv | src/private/data/session/sessionManager.ts:102-127 | the invariant holds after every run |
| SessionProtocol.BodiesRunInCallOrder | src/private/data/session/sessionManager.ts:102-127 | when the body of a later call has begun, every earlier caller of the handle has been resumed |
| SessionProtocol.OneBodyAtATime | src/private/data/session/sessionManager.ts:102-127 | at most one body of a handle is at work |
| SessionProtocol.SequentialRun | src/private/data/session/sessionManager.ts:102-127 | any interleaving has done to each handle, and brought each call to, what its bodies do one after another in call order |
| SessionProtocol.TimersFollowSessions | src/private/data/session/sessionManager.ts:40-71 | a handle has at most one live timer, the one stored in its session; without a session it has none; at rest and without storage faults the stored timer is live unless it has fired |
| SessionProtocol.LiveTimerRefreshes | src/private/data/session/sessionManager.ts:189-219 | a live timer of any run carries the passphrase of the session, and fires into the refresh or the expiry branch of the session's token exactly as its lateness decides |
| SessionProtocol.ReturnedTokenWasBrought | src/private/data/session/sessionManager.ts:224-443 | in any run, a token a call returns was, during that call, the cached or stored token judged fresh, or granted |
| SessionProtocol.SessionHoldsReturnedToken | src/private/data/session/sessionManager.ts:129-156 | from the end of a body until its caller is resumed, session, client and (without storage faults) storage hold the token it returned, whatever else happens |
| SessionProtocol.CallerGetsItsClient | src/private/data/session/sessionManager.ts:84-94 | `getMatrixClient` resumes before the next body starts and hands out a client that uses the token of its own body |
| SessionProtocol.OpenCallMakesProgress | src/private/data/session/sessionManager.ts:102-127 | while a call is open, the runtime can go on: a microtask is enabled, or an answer to an await of a body of that handle |
| SessionProtocol.StepTakesEffort | src/private/data/session/sessionManager.ts:102-127 | each microtask and each answer brings the open calls nearer to their end |
| SessionProtocol.StepsAreBounded | src/private/data/session/sessionManager.ts:102-127 | going on with microtasks and answers takes no more steps than there is effort left |
| SessionProtocol.QuietMeansDelivered | src/private/data/session/sessionManager.ts:102-127 | a run that cannot go on by itself has resumed every caller, however the bodies came out |
| SessionProtocol.EveryCallIsDelivered | src/private/data/session/sessionManager.ts:102-127 | every run can go on, within the effort left, until every caller has been resumed: no failing body blocks a later call |
| SessionProtocol.InheritedHandlesAreRefused | src/private/data/session/sessionManager.ts:19-29 | a handle with a name that plain objects inherit never gets a ticket or a session |
| SessionCalls.CallIsMade | src/private/data/session/sessionManager.ts:102-127 | in every run a call makes one ticket with its arguments, which waits exactly while an earlier call of the handle is pending and is queued otherwise, unless the name of the handle is inherited |
| SessionCalls.TimerMakesCall | src/private/data/session/sessionManager.ts:205-216 | in every run a timer that fires makes one such call for its handle, with the passphrase of the session, no device and no client wanted, and fires no more |
| SessionCalls.CallsStay | src/private/data/session/sessionManager.ts:102-127 | calls stay the calls they are as a run goes on |
| SessionCalls.TimerCallIsDelivered | src/private/data/session/sessionManager.ts:205-216 | the call of a timer that fires can be brought to its end |
| SessionCalls.CallerIsResumed | src/private/data/session/sessionManager.ts:84-94 | a caller is resumed with the outcome of its body, and with a client exactly when it asked for one and the body returned |
| SessionCalls.DeletionAllowed | src/private/data/session/sessionManager.ts:40-82 | in the model a deletion from outside takes place exactly when no call of the handle is open |
| SessionCalls.DeletionIsMade | src/private/data/session/sessionManager.ts:40-71 | a deletion from outside disarms the timer and removes stored token, cached storage and session as far as it gets, and leaves other handles, calls and microtasks alone |
| SessionManagers.SessionManager.ScheduleTokenRefresh | src/private/data/session/sessionManager.ts:189-219 | arms a timer that fits token and passphrase exactly when the threshold is positive and the token fresh; other timers stay |
| SessionManagers.SessionManager.TryUseCachedSession | src/private/data/session/sessionManager.ts:129-156 | from a handle at rest: returned as it is exactly when fresh and in use, deleted with its timer exactly when expired, else refreshed; created when there is none |
| SessionManagers.SessionManager.RefreshCachedSessionToken | src/private/data/session/sessionManager.ts:273-317 | keeps what holds at the awaits; keeps the client and carries the session's token, unless a failure or an unreadable token turns it to deletion without armed timers |
| SessionManagers.SessionManager.CreateNewSession | src/private/data/session/sessionManager.ts:319-443 | keeps what holds at the awaits; a session it makes has a new client and the token carried on; it rejects exactly on a failure or a token that cannot be decoded |
| SessionManagers.SessionManager.ResumeBody | src/private/data/session/sessionManager.ts:129-156 | the records after a body went on to its next await |
| SessionManagers.SessionManager.EnsureValidSession | src/private/data/session/sessionManager.ts:102-127 | a call takes the next ticket and joins the chain of its handle, waiting exactly while an earlier call is pending, or throws for an inherited name; the invariant is kept |
| SessionManagers.SessionManager.RunMicrotask | src/private/data/session/sessionManager.ts:102-114 | the runtime's next microtask changes the records as the protocol says and keeps the invariant |
| SessionManagers.SessionManager.AnswerAwait | src/private/data/session/sessionManager.ts:129-443 | an answered await changes the records as the protocol says and keeps the invariant |
| SessionManagers.SessionManager.TimerFires | src/private/data/session/sessionManager.ts:205-216 | a timer callback makes one call for its handle, with the passphrase of the session and no device; the invariant is kept |
| SessionManagers.SessionManager.DeleteSessionOutside | src/private/data/session/sessionManager.ts:40-82 | an outside deletion between calls changes the records as the protocol says and keeps the invariant |
| TimelinePages.CollectsKept | src/private/data/common/matrixClientManager.ts:1207-1243 | a call collects exactly the kept events between its position and its token, and stops early only when the limit is reached |
| TimelinePages.CallIsBounded | src/private/data/common/matrixClientManager.ts:1207-1243 | when the server honours the requested size, a call collects at most max(1, limit) events |
| TimelinePages.FullPageIsEnough | src/private/data/common/matrixClientManager.ts:1207-1243 | a server that fills its pages with kept events is asked once, for as many as the limit says, and at least one |
| TimelinePages.ListEvents | src/private/data/common/matrixClientManager.ts:1207-1243 | the paginating loop terminates and collects what the page-by-page specification says |
| TimelinePages.PagingIsLossless | src/private/data/common/matrixClientManager.ts:1189-1243 | calls chained by `nextToken`, for any limits and page sizes, empty pages included, collect the kept events of the history without gap or repeat |
| TimelinePages.PagingEnds | src/private/data/common/matrixClientManager.ts:1207-1243 | enough chained calls reach the end of the history, whatever their limits |
| Timeline.SeparateMessages | src/private/data/common/matrixClientManager.ts:1245-1291 | the in-place routing into main timeline and threads equals the routing specification; it fails exactly when some event cannot be transformed or some surviving message names an inherited thread |
| Timeline.RoutableExactly | src/private/data/common/matrixClientManager.ts:1269-1280 | the messages can be routed exactly when none of them is in a thread with an inherited name |
| Timeline.ReadableExactly | src/private/data/messaging/transformer/messageTransformer.ts:92-317 | reading events fails exactly when one of them lacks its content without being redacted, or is a membership or a poll that lacks something; else each makes a message, but those without id and messages without a type that are no edits |
| Timeline.RoutePutsEach | src/private/data/common/matrixClientManager.ts:1245-1291 | each bucket holds the de-duplicated messages that belong to it |
| Timeline.PutAllDeduplicates | src/private/data/common/matrixClientManager.ts:1249-1291 | de-duplication keeps one entry per message id, at its first position and with its last value |
| Timeline.RouteDeduplicates | src/private/data/common/matrixClientManager.ts:1249-1291 | that holds for the main timeline and every thread, and a thread has a bucket exactly when it has messages |
| Timeline.RouteLosesNoId | src/private/data/common/matrixClientManager.ts:1249-1291 | no message id that survived the filtering is lost from its bucket |
| Timeline.GetReplacements | src/private/data/common/matrixClientManager.ts:1730-1775 | the replacement events become messages, redacted ones dropped, the first of each id kept |
| Timeline.ProcessMessage | src/private/data/messaging/matrixMessagingService.ts:186-228 | fetches the replacements of a message and applies the latest; fails exactly when they cannot be read |
| Timeline.ProcessMessages | src/private/data/messaging/matrixMessagingService.ts:230-239 | the messages of a bucket with their edits applied, in order |
| Timeline.ProcessThreads | src/private/data/messaging/matrixMessagingService.ts:232-243 | the threads processed and flattened in their order |
| Timeline.List | src/private/data/messaging/matrixMessagingService.ts:176-250 | `list` applies the edits to main and thread messages, flattens and sorts them; fails exactly when some replacement cannot be read |
| MessageContents.SortSorts | src/private/data/messaging/matrixMessagingService.ts:240-249 | sorting by timestamp yields a sorted permutation |
| MessageContents.SortIsStable | src/private/data/messaging/matrixMessagingService.ts:240-249 | messages of the same instant keep their order |
| MessageContents.LastSortedIsLatest | src/private/data/messaging/matrixMessagingService.ts:190-200 | the last of the sorted edits is the latest one, the last one on ties |
| MessageContents.LatestIsUnique | src/private/data/messaging/matrixMessagingService.ts:190-200 | at most one edit is the latest |
| MessageContents.GetAgreesWithList | src/private/data/messaging/matrixMessagingService.ts:125-159 | `get` shows what `list` shows exactly when there is no edit, the message is media or in no thread, or the latest edit names the same thread |
| MessageContents.PinnedAgreesWithGet | src/private/data/messaging/matrixMessagingService.ts:300-331 | among the pinned messages a message edited by texts is shown as `get` shows it exactly when it was not edited or is no media message |
| TimelineHistory.ReadsBack | src/private/data/messaging/transformer/messageTransformer.ts:92-317 | a text, media, poll, membership, encrypted or edit event is read back as the message it was meant to be, its thread and reply included, audio captions aside, a redacted one as an empty message, but for memberships; all are listed but edits that stand and redactions |
| TimelineHistory.ReplacementsOfHistory | src/private/data/common/matrixClientManager.ts:1730-1775 | `getReplacements` finds exactly the edits of the message that were not redacted, in the order of the history |
| TimelineHistory.LastSortedIsLatestEdit | src/private/data/messaging/matrixMessagingService.ts:190-200 | the edit that `list` applies is the latest edit in the history, the last one on ties |
| TimelineHistory.ApplyEditsShows | src/private/data/messaging/matrixMessagingService.ts:186-228 | with its edits applied a text shows its latest text, a media message stays and shows its latest caption, a poll shows its type, `isEdited` exactly when an edit stands, in its own thread; a redacted one shows only what its edits left |
| TimelineHistory.CaptionShown | src/private/data/messaging/transformer/messageTransformer.ts:386-460 | a media message shows a caption given to it exactly when it was edited or is no audio message |
| TimelineHistory.DeletedShowsNoText | src/private/data/common/matrixClientManager.ts:1338-1353 | a redacted message shows no text exactly when none of its edits is left, and it lands in the main timeline whatever thread it was sent into |
| TimelineHistory.RedactedEditAppears | src/private/data/common/matrixClientManager.ts:1216-1228 | a redacted edit is listed as a message of its own |
| TimelineHistory.RouteKeepsIds | src/private/data/common/matrixClientManager.ts:1245-1291 | with distinct ids routing keeps every message exactly once |
| TimelineHistory.ListAppliesEdits | src/private/data/messaging/matrixMessagingService.ts:176-250 | for any part of the history a call covers, polls, memberships and encrypted events included: sorted by time, each original once and nothing else, each with its edits applied; the call fails exactly when one of them is shown in a thread with an inherited name |
| TimelineHistory.ListWholeHistory | src/private/data/messaging/matrixMessagingService.ts:176-250 | a call that reaches the end lists every original of the history that way |
| TimelineHistory.ConstructorThreadFails | src/private/data/common/matrixClientManager.ts:1269-1280 | one message in a thread named constructor, and the room cannot be listed |
| TimelineHistory.PagedListsAreWhole | src/private/data/messaging/matrixMessagingService.ts:176-250 | chained calls with any limits return each original exactly once, when no thread has an inherited name |
| TimelineHistory.ListRoom | src/private/data/messaging/matrixMessagingService.ts:176-250 | the same for the code of `list`, `listMessages` and `getReplacements` put together, from any token |
| PollTally.GetPollResponses | src/private/data/common/matrixClientManager.ts:1947-2016 | over all pages: fails exactly when an event's answers cannot be read, else tallies the answers of each user's latest on-time non-empty response, inherited names as the code does |
| PollTally.RecordPage | src/private/data/common/matrixClientManager.ts:1961-2000 | one page extends the latest responses, and stops exactly at an event whose answers cannot be read |
| PollTally.LatestIsWinner | src/private/data/common/matrixClientManager.ts:1961-2000 | a user has a ballot exactly when some response counts, and it is that of the latest one, the first seen on ties |
| PollTally.CountAnswers | src/private/data/common/matrixClientManager.ts:2002-2012 | the tally has the number of occurrences of each answer in the winning ballots, repeats included; a text under an inherited name, and no entry under `__proto__` |
| PollTally.TotalIsSize | src/private/data/common/matrixClientManager.ts:2008-2012 | the sum over the tally is the number of answers entered, unless an entry is a text; then it is a text |
| PollTally.TextBegins | src/private/data/common/matrixClientManager.ts:2008-2012 | a total that is a text begins with the sum of the entries before the first text |
| PollTally.PlainExactly | src/private/data/common/matrixClientManager.ts:1990-2012 | each answer is counted, and the total is the number of answers, exactly when no winning ballot holds an inherited name |
| PollTally.ConstructorIsNotCounted | src/private/data/common/matrixClientManager.ts:2002-2012 | one vote for an answer named constructor makes its count and the total texts |
| PollTally.PollOfTallies | src/private/data/common/matrixClientManager.ts:1947-2016 | the specification function of a poll meets the declarative count |
| PollTally.AllAnswersSize | src/private/data/common/matrixClientManager.ts:2002-2012 | that number is the sum of the lengths of the winning answer lists |
| PollOrder.OrderDoesNotMatter | src/private/data/common/matrixClientManager.ts:1947-2016 | no reordering of the events changes the entries, or a total that is a number, exactly when each user's last responses give the same answers, or the poll cannot be read at all; totals that are texts are compared as texts of some kind |
| PollOrder.TotalDoesNotMove | src/private/data/common/matrixClientManager.ts:2002-2012 | if besides no winning ballot holds an inherited name, the total is a number and the same for every order |
| PollOrder.TextTotalsMove | src/private/data/common/matrixClientManager.ts:2002-2012 | with such a name the order decides the text: one vote each for constructor and yes begins with 0 or with 1 |
| PollOrder.TiesGoToTheFirst | src/private/data/common/matrixClientManager.ts:1961-2000 | a witness of an order that decides: two responses of one timestamp, the first one wins |
| PollOrder.PageBoundariesDoNotMatter | src/private/data/common/matrixClientManager.ts:1969-2000 | reading page by page comes to the same however the responses are cut into pages, failures included |
| PollOrder.ReadDecides | src/private/data/common/matrixClientManager.ts:1969-2000 | what reading event by event comes to decides the poll: its failure and the latest responses |
| PollOrder.EndCutsOff | src/private/data/common/matrixClientManager.ts:1961-1981 | a poll that ended at t comes to what its responses with timestamps up to t come to without an end, and reports t |
| PollOrder.EndOfZeroIsNone | src/private/data/common/matrixClientManager.ts:1961-1981 | an end of 0 is no end |
| PollOrder.VotersExactly | src/private/data/common/matrixClientManager.ts:1979-1993 | without an end the voters are exactly the senders of non-empty answers, and the poll cannot be read exactly when a response with a sender has no answer block |
| UnreadCounts.ChatRoom.Arrive | src/private/data/common/matrixClientManager.ts:1355-1485 | an event goes to the end of the timeline |
| UnreadCounts.ChatRoom.MarkAsUnread | src/private/data/common/matrixClientManager.ts:1639-1656 | marking unread sets the flag only |
| UnreadCounts.ChatRoom.SendReadReceipt | src/private/data/common/matrixClientManager.ts:1658-1692 | marking read moves the receipt to the last event and clears the flag, and throws exactly when there is no event with an id |
| UnreadCounts.ChatRoom.GetChatSummary | src/private/data/common/matrixClientManager.ts:1355-1485 | the counting loop reports all, mentions and the counts of each thread of the unread events but those with inherited names, and the flags that follow |
| UnreadCounts.CountIsSize | src/private/data/common/matrixClientManager.ts:1420-1462 | the counts are the number of messages, memberships, polls and reactions, of those that name the user or the room, and of those in a thread with an id |
| UnreadCounts.EveryThreadExactly | src/private/data/common/matrixClientManager.ts:1453-1462 | every thread with counted events has an entry exactly when none of them has an inherited name |
| UnreadCounts.ConstructorThreadIsLost | src/private/data/common/matrixClientManager.ts:1453-1462 | a message in a thread named constructor counts in the total and in no thread |
| UnreadCounts.ThreadsPartition | src/private/data/common/matrixClientManager.ts:1355-1485 | the counts of distinct threads and of what lies outside them add up to the total |
| UnreadCounts.RunDivides | src/private/data/common/matrixClientManager.ts:1355-1692 | after any run the receipt divides the timeline at the last mark-read |
| UnreadCounts.SummaryOfRun | src/private/data/common/matrixClientManager.ts:1355-1692 | after any run the summary counts exactly the events since the last mark-read, in all and by thread, the threads sum to at most the totals, and every thread is there exactly when none has an inherited name |
| UnreadCounts.MarkReadClears | src/private/data/common/matrixClientManager.ts:1355-1692 | mark-read brings every count to zero, unless the chat is empty and marked unread, where it throws |
| UnreadCounts.EmptyChatStaysUnread | src/private/data/common/matrixClientManager.ts:1639-1692 | marked unread and then read, a chat without events still reports one unread message |
| PushRules.NotificationService.SetDefaultChatRules | src/private/data/notification/defaultNotificationService.ts:297-388 | the writes for a default level, the shared action list included |
| PushRules.NotificationService.SetInviteForMeEnabled | src/private/data/notification/defaultNotificationService.ts:249-295 | the writes for the invitation flag; it throws exactly when the rule is missing and the flag is set, because the server refuses the reserved name |
| PushRules.NotificationService.ClearRecipientChatRules | src/private/data/notification/defaultNotificationService.ts:423-431 | deletes the rule of the room, and throws exactly when there is none |
| PushRules.NotificationService.SetRecipientChatRules | src/private/data/notification/defaultNotificationService.ts:394-421 | replaces the rule of the room; it throws exactly when the room name holds a slash or a backslash, the old rule being gone |
| PushRules.NotificationService.GetSettings | src/private/data/notification/defaultNotificationService.ts:167-229 | the reader's loop over the rules equals the settings specification |
| PushRules.SettingsByRule | src/private/data/notification/defaultNotificationService.ts:167-229 | the default level is decided by the message rule, then by the user mention rule |
| PushRules.RecipientIsRule | src/private/data/notification/defaultNotificationService.ts:167-192 | a room has a level exactly when its name matches the reader's pattern, is not `__proto__`, and the rule of that name encodes one |
| PushRules.RecipientsExactly | src/private/data/notification/defaultNotificationService.ts:167-229 | the same over the store's rules: a room has a level exactly when an enabled rule of its name has no actions or notifies, and its name is no `__proto__`, not empty and without line ends |
| PushRules.InvitationsExactly | src/private/data/notification/defaultNotificationService.ts:167-247 | invitations are on exactly when some enabled rule of that name notifies |
| PushRules.RoomOfRuleName | src/private/data/notification/defaultNotificationService.ts:190-210 | the pattern recovers a room name from the rule name written for it exactly when that name has no line end and is not empty |
| PushRules.SetDefaultReads | src/private/data/notification/defaultNotificationService.ts:297-388 | after a default level is written the reader returns it, the rest unchanged |
| PushRules.SetInvitationsReads | src/private/data/notification/defaultNotificationService.ts:249-295 | with its rule in the store, the invitation flag is read back as written, the rest unchanged |
| PushRules.InvitationsNeedTheirRule | src/private/data/notification/defaultNotificationService.ts:249-295 | in any store the flag is reached exactly when the rule is there or the flag was to be cleared |
| PushRules.InvitationsStayOff | src/private/data/notification/defaultNotificationService.ts:249-295 | turning invitations on in a store without rules leaves them off |
| PushRules.ClearReads | src/private/data/notification/defaultNotificationService.ts:423-431 | after a clear the reader has no level for the room, the rest unchanged |
| PushRules.SetRecipientReads | src/private/data/notification/defaultNotificationService.ts:394-421 | after a recipient level is written the reader returns it, `mentions` as `mute`, nothing for a room the server refuses, the rest unchanged |
| PushRules.RecipientReadsBackExactly | src/private/data/notification/defaultNotificationService.ts:167-421 | the exact condition under which a recipient level is read back as written |
| PushRules.MentionsReadAsMute | src/private/data/notification/defaultNotificationService.ts:167-421 | a recipient level of `mentions` is read back as `mute` |
| PushRules.SettersThenReader | src/private/data/notification/defaultNotificationService.ts:167-431 | after any sequence of setters and clears on a store with the predefined rules the reader returns the three-field record they describe |
| PushRules.PredefinedSettings | src/private/data/notification/defaultNotificationService.ts:167-247 | on the predefined rules the reader returns all messages, invitations and no recipient levels |
| PushDelivery.DefaultRules | src/private/data/notification/defaultNotificationService.ts:297-388 | for each level, enabled flag and actions of each of the six rules after the setter, and that every other rule is as it was |
| PushDelivery.SettersDecideDelivery | src/private/data/notification/defaultNotificationService.ts:249-431 | after any sequence of setters the server notifies of a plain or encrypted message, a display name, a user or a room mention exactly as the room's own level says, else the last default level |
| MessageListeners.MessagingModule.RegisterMessageListener | src/public/modules/messagingModule.ts:979-999 | the nested maps and client listeners after a registration, and whether it throws |
| MessageListeners.MessagingModule.UnregisterMessageListener | src/public/modules/messagingModule.ts:1001-1023 | the nested maps and client listeners after an unregistration, empty maps removed, and whether it throws |
| MessageListeners.MessagingModule.HandleMessageListener | src/public/modules/messagingModule.ts:1025-1042 | an event calls every listener of the handle and room in order, even if some throw; exactly those that throw are logged |
| MessageListeners.MessagingModule.ClientEvent | src/public/modules/messagingModule.ts:1025-1042 | an event of a client goes to every handle object of its text that has a client listener |
| MessageListeners.NextKeepsInv | src/public/modules/messagingModule.ts:979-1023 | a call leaves no room without listeners and no client listener twice; handles and client listeners stay matched exactly when the call returns |
| MessageListeners.RunKeepsListeners | src/public/modules/messagingModule.ts:979-1023 | after any run no room is without listeners; if all calls returned, exactly the handles with listeners have a client listener |
| MessageListeners.RunRegisters | src/public/modules/messagingModule.ts:979-1023 | the nested maps agree with one flat list per room, after every run |
| MessageListeners.FirstRegistrationWins | src/public/modules/messagingModule.ts:979-1023 | a name has a listener exactly when a registration with it found the name free and was not undone since |
| MessageListeners.NamesInOrder | src/public/modules/messagingModule.ts:979-1042 | listeners are called in the order of their live registrations |
| MessageListeners.EventReachesListeners | src/public/modules/messagingModule.ts:979-1042 | an event reaches exactly the live registrations of its handle text and room, once each |
| MessageListeners.EventCallsInOrder | src/public/modules/messagingModule.ts:1025-1042 | of two live registrations of a handle and room the earlier one is called first |
| MessageListeners.ClientsInOrder | src/public/modules/messagingModule.ts:979-1023 | a new client listener is called after those attached before it, and the others keep their order |
| MessageListeners.LeftAttached | src/public/modules/messagingModule.ts:1001-1023 | when the client could not be had for the last listener of a handle, the client listener stays and no later unregistration removes it |
| MessageListeners.AttachedForNothing | src/public/modules/messagingModule.ts:979-1023 | three calls after which nobody listens and the client listener is attached |
| PinnedEvents.PinnedState.PinUnpin | src/private/data/common/matrixClientManager.ts:1779-1811 | the toggled list is written when its length differs from the old one, and only then |
| PinnedEvents.WrittenExactly | src/private/data/common/matrixClientManager.ts:1779-1811 | a toggle is not written exactly when it would pin an event and the stored list has one entry too many |
| PinnedEvents.PinIsLost | src/private/data/common/matrixClientManager.ts:1779-1811 | with an event pinned twice, pinning another one is not written |
| PinnedEvents.TogglesAreWritten | src/private/data/common/matrixClientManager.ts:1779-1811 | on a list without duplicates every toggle is written and removes the event or appends it |
| PinnedEvents.TogglesDecide | src/private/data/common/matrixClientManager.ts:1779-1811 | after any toggles an event is pinned as its initial membership flipped by parity says; untouched ones keep their order, re-pinned ones come last, no duplicates |
| DirectChats.DirectChatData.RemoveFromOthers | src/private/data/common/matrixClientManager.ts:534-552 | the loop removes the room from the other users' lists and says whether that changed anything |
| DirectChats.DirectChatData.CreateDirectChat | src/private/data/common/matrixClientManager.ts:531-563 | the account data after a create, written exactly when it changed |
| DirectChats.DirectChatData.JoinDirectChat | src/private/data/common/matrixClientManager.ts:575-591 | the account data after a join, written exactly when the room was not listed |
| DirectChats.CreateLists | src/private/data/common/matrixClientManager.ts:531-563 | after a create the room is listed under the current user only, without duplicates, other rooms in place |
| DirectChats.JoinLists | src/private/data/common/matrixClientManager.ts:575-591 | after a join the room is listed under the joining user and nothing else changes |
| DirectChats.RunKeepsOtherRooms | src/private/data/common/matrixClientManager.ts:531-591 | over any run the lists stay free of duplicates and the rooms not named keep their places in every list |
| SlidingRange.RoomList.ExtendIfNearLimit | src/private/data/common/matrixClientManager.ts:318-333 | extends the range by 50 when the room count comes within 5 of it, and requests the new range |
| SlidingRange.EndIsStepped | src/private/data/common/matrixClientManager.ts:318-333 | the range end is 99 + 50k after every event |
| SlidingRange.ExtendedNoMoreThanNeeded | src/private/data/common/matrixClientManager.ts:318-333 | the range is extended as often as the rooms need, and at most once for each event |
| SlidingRange.HeadroomStays | src/private/data/common/matrixClientManager.ts:318-333 | with fewer than 95 rooms at the start the count stays clear of the limit after every event |
| SlidingRange.CatchingUp | src/private/data/common/matrixClientManager.ts:318-333 | while there is no headroom every event extends the range |
| SlidingRange.HeadroomExactlyFrom | src/private/data/common/matrixClientManager.ts:318-333 | from r0 >= 95 rooms there is headroom exactly from event ceil((r0 - 94) / 49) on, and with fewer rooms always |
| Moderation.RoomsService.UpdateRoomMemberPowerLevel | src/private/data/rooms/matrixRoomsService.ts:326-363 | a role change happens exactly when the guard and the server let it |
| Moderation.RoomsService.KickHandle | src/private/data/rooms/matrixRoomsService.ts:365-398 | a kick happens exactly when the guard and the server let it |
| Moderation.RoomsService.BanHandle | src/private/data/rooms/matrixRoomsService.ts:400-430 | a ban happens exactly when the guard and the server let it |
| Moderation.RoomsService.UnbanHandle | src/private/data/rooms/matrixRoomsService.ts:432-458 | an unban happens exactly when the guard and the server let it |
| Moderation.EffectExactly | src/private/data/rooms/matrixRoomsService.ts:326-458 | in any run an action takes effect exactly when the server accepts it and the actor's level, own or default or 0, is above the target's, or the actor kicks or re-levels himself; it changes that membership or level alone |
| Moderation.MaximumNeverRises | src/private/data/rooms/matrixRoomsService.ts:326-458 | in every run the server authorizes the maximum level never rises |
| Moderation.TopMemberOutOfReach | src/private/data/rooms/matrixRoomsService.ts:326-458 | wherever a user is at the maximum, no operation of anybody else takes effect on the user |
| Moderation.TopMemberIsSafe | src/private/data/rooms/matrixRoomsService.ts:326-458 | a member at the maximum is never kicked, banned or demoted by others, whatever the member does to others |
| Moderation.MembershipDecided | src/private/data/rooms/matrixRoomsService.ts:326-458 | a user's membership is as it was, or what the last kick, ban or unban made it that both guard and server let through |
| Moderation.LevelDecided | src/private/data/rooms/matrixRoomsService.ts:326-363 | a user's level is as it was, or what the last role change granted that both guard and server let through |
| Moderation.GrantDecides | src/private/data/rooms/matrixRoomsService.ts:326-363 | one accepted role change keeps a bound on the levels exactly when the granted level respects it |
| Moderation.GuardAloneIsNotEnough | src/private/data/rooms/matrixRoomsService.ts:326-363 | the guard of the code alone lets a user raise their own level |
| ChannelRoles.RoleAdjunction | src/private/data/channels/transformer/channelPowerLevelsTransformer.ts:20-44 | a level carries a role exactly when the role it reads as does, for levels from 10 up and only there; roles read back from their levels |
| ChannelRoles.ToPowerLevelsMap | src/private/data/channels/transformer/channelPowerLevelsTransformer.ts:121-161 | a room is in the map exactly when it has power levels, with the rights of its last occurrence |
| ChannelRoles.PermissionsRoundTrip | src/private/data/channels/transformer/channelPowerLevelsTransformer.ts:74-161 | permissions written as power levels are read back as given, with the defaults filled in |
| ChannelRoles.AbsentLevelsAreDefaults | src/private/data/channels/transformer/channelPowerLevelsTransformer.ts:121-161 | a room that leaves levels out has the rights of a room created without choices there |
| ChannelRoles.EveryRoleMayReact | src/private/data/channels/transformer/channelPowerLevelsTransformer.ts:74-118 | whatever is chosen, every role may react and take back what it sent |
| MediaKeys.UploadThenDownload | src/private/data/media/matrixMediaService.ts:59-85 | downloading by the URI of an upload asks for the uploaded key exactly when the key has one slash, not at its front, and no underscore before it |
| MediaKeys.HostOfMxcUrl | src/private/data/media/matrixMediaService.ts:59-85 | the host of an upload URI names the bucket, the service and the region, and the media id is what follows |
| MediaKeys.MxcUrlTells | src/private/data/media/matrixMediaService.ts:59-85 | the URI tells bucket, region and media id apart, if no region has a dot |
| MediaKeys.MediaTypeExactly | src/private/util/mediaUtil.ts:15-39 | the media type of an upload URI is recovered exactly when the media id starts with that prefix |
| MediaKeys.PublicPrefixRecovered | src/private/util/mediaUtil.ts:15-39 | both public prefixes followed by a slash-free id are recovered |
| MediaKeys.MxcUrlsHaveTypes | src/private/util/mediaUtil.ts:15-39 | of an `mxc://` URI the media type is one of the two or none, and asking never throws |

## Left out

Sessions:

- The time of the environment in protocol runs: a timer of a run may fire at any moment; when it fires late, and what it then finds, is `LiveTimerRefreshes` and `TimerTakesRefreshBranch`. Delays above 2^31 - 1 ms, which `setTimeout` cuts to 1 ms, are taken at face value.
- Deletions from outside that race a call: `deleteSession` and `reset` are taken to run only while no call of the handle is open, and as one step; the code does not serialize them.
- Storage: a failed storage call leaves the stored token as it was, and clearing the crypto store counts as part of closing the storage. After a deletion from outside that failed half way the stored token may differ from that of the session; that is the `storageFault` in the statements.
- Client creation: its awaits are one await that succeeds or fails, and `updateAccessToken` is taken not to throw.
- The device id the code draws at random when it has none, and the device the service puts into a token.
- SessionBody.RunKeepsWorking: token strings are records with a serial number, a number of seconds and a device; parsing a token is `Decodes`, and `exp` values that do not parse as a number are not modelled.

Timeline:

- TimelinePages.PagingIsLossless: the server is taken to move on with every page until the history is exhausted; each page covers some of the server's log, if only events it keeps back; a server that returns the same token for ever would keep the loop running. Events that arrive between two calls are not part of the history.
- `Object.prototype` is taken to be as the ECMAScript specification lists it. Counting in a thread named
  `__proto__` writes to it, and counting in one named `constructor` writes to a built-in function; what that
  does to the rest of the program is not modelled.
- Decryption of events, sender names, mentions, reactions, receipts, read markers, redaction reasons, and the details of media, poll and membership messages.
- TimelineHistory.ListRoom: redactions are those that took effect, and the server has taken the content of what they redact. The replacement events of a message are taken to be those of the whole history, in its order.
- Keys of a plain object that look like array indices, which JavaScript orders before the others: the order
  in which threads and tallied answers are kept is that of insertion here. Of the statements, only `List`,
  `ProcessThreads` and what a total that is a text begins with depend on it.
- `searchMessages`, which applies no edits, and of `getPinnedMessages` all but how it applies them.

Aggregations:

- UnreadCounts.SummaryOfRun: the events are those of one live timeline, receipts those of the user's own main-timeline read marker; threaded receipts, receipts of other clients and timelines cut by the sync window are not modelled, nor is the rest of a chat summary.
- PollTally.GetPollResponses: of a count that has become a text only the number of votes is kept, and of
  such a total the number it begins with, which the order of keys that look like array indices can change. The poll's question and its list of answers are not looked at by the code, nor here; that the end event is the first one returned is taken as it is.
- DirectChats.CreateLists: a create without a known user cannot happen, because the code throws earlier; lists in the account data are taken to be lists of room ids.
- SlidingRange.HeadroomStays: each room event is taken to add one room.

Settings, listeners, moderation, media:

- PushRules.SettersThenReader: a setter is taken to complete or to be refused for the name of its rule; other failures between its writes are not modelled. The server puts a new rule before all others and replaces a rule of the same name.
- PushDelivery.SettersDecideDelivery: a message is of one kind, and is matched against the rules that the setters write and those made for rooms; the other predefined rules are taken not to match it. The pattern of a room's rule is taken to match that room only, although a server may read `*` and `?` in it as wildcards.
- MessageListeners.RunKeepsListeners: calls run one after another; overlapping calls, listeners that register or unregister while an event is delivered, and clients replaced under their listeners are not modelled.
- Moderation.MaximumNeverRises: membership and levels change through these operations only, and user ids are taken as already converted, so that they start with `@`.
- MediaKeys.MediaTypeExactly: URL parsing is that of `mxc://` URIs with a well-formed host; URIs of other schemes are left out, and percent-encoding and the path segments `.` and `..` are left alone; these segments carry no underscore.
- `extractRoomId`, thumbnails, blurhashes and decryption of media.
- `MediaCredentialManager`, whose cache is looked up with a fresh object and so never hits, and `handleMentions`, whose replacements can rewrite earlier ones.

The rest of the repository is left out because it forwards calls to the network, to libraries or between layers, or maps one finite enumeration to another.
