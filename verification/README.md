# bipupu core in Dafny

This project models the logic core of bipupu, a pager-style messaging app. The core has two parts:

- **The Android build.** The build gives every ABI-split APK its own version code.
- **The FastAPI backend.** Users get 8-digit bipupu ids. They exchange messages, optionally with a vibration/light `pattern`. They keep contacts, friends, favourites and block lists. They subscribe to service accounts (`weather.service`, `cosmic.fortune`), which push them daily content at a personal push time. They receive system notifications. Administrators manage users, posters and subscription types.

Each source file becomes a module under `src/`, with some exceptions; for example, `user_settings_service.py` is split by concern (blocking, subscription store), and the poster storage check lives with the posters. Database tables become sequences of immutable rows in table order, and every operation is a pure function. A request returns either a new state or the error the backend raises: a `Failure` of `Outcomes`, carrying the HTTP status or exception class and the detail string.

Some things are not computed by the model; they become inputs:

- the clock, random draws and the time-zone offset;
- SHA-256 digests;
- password hashing and verification;
- JWT encoding and decoding;
- WebSocket delivery.

Integers are unbounded. The one place where the source's machine arithmetic matters is the Kotlin `Int` product in the build script, and it is written out there (`GradleVersion.WrapInt32`).

Shared helpers:

- `Outcomes`: `Option`, `Result` and the error kinds.
- `Text`: decimal rendering and parsing, padding, case mapping, split and join.
- `Tables`: filter, first match, next id, update in place.
- `Paging`: page parameters and the OFFSET/LIMIT window.
- `Json`: JSON values and dict update.
- `Sorting`: a stable sort by key.

Several files of the backend disagree on the fields of the same record. Examples:

- `models/user.py` has no `bipupu_id`, although most services use one.
- `endpoints/users.py` reads an `email` that `schemas/user.py` does not declare.

Each file is modelled with the fields it itself uses, so the routes keep the behaviour their authors wrote. The drift is listed under "Left out".

## Model

| member | source | states |
|---|---|---|
| GradleVersion.WrapInt32 | mobile/android/app/build.gradle.kts:66-67 | Kotlin `Int` arithmetic: the result is the 32-bit value congruent to the input, and equals it when the input fits in 32 bits |
| GradleVersion.AbiCode | mobile/android/app/build.gradle.kts:61-67 | the ABI offset is below 1000, and it is non-zero exactly for the three split ABIs (the fallback offset is 0) |
| GradleVersion.AbiCodeInjective | mobile/android/app/build.gradle.kts:61-65 | the three split ABIs carry pairwise different offsets |
| GradleVersion.OutputVersionCode | mobile/android/app/build.gradle.kts:57-70 | an output without an ABI filter (the universal APK) keeps the default code; a filtered output fails exactly when the base code is unset (`!!`); otherwise, within range, the override decodes to the base (`/ 1000`) and the ABI offset (`% 1000`) |
| GradleVersion.SplitCodeDecodes | mobile/android/app/build.gradle.kts:66-67 | for bases up to 2147483 the split code is `base*1000 + offset` without wrap-around, and division and remainder by 1000 recover base and offset |
| GradleVersion.SplitCodesDistinct | mobile/android/app/build.gradle.kts:55-67 | no two split outputs share a version code, whether of one build or of different builds |
| GradleVersion.NewerBuildOutranks | mobile/android/app/build.gradle.kts:66-67 | every split of a larger base has a larger code than every split of a smaller base |
| GradleVersion.UniversalBelowSplits | mobile/android/app/build.gradle.kts:51-67 | the universal APK, which keeps the base code, ranks below each split of the same build |
| GradleVersion.FirstWrappingBase | mobile/android/app/build.gradle.kts:66-67 | base 2147484 already wraps the Kotlin product to a negative code |
| UserUtils.FormatId | backend/app/core/user_utils.py:29 | `f"{n:08d}"` of an id number up to 99999999 is 8 ASCII digits that parse back to `n` |
| UserUtils.FormatIdInjective | backend/app/core/user_utils.py:29 | distinct id numbers give distinct ids |
| UserUtils.ScanFrom | backend/app/core/user_utils.py:29-36 | the increment loop returns the least free id number at or above its start, or none when every number up to 99999999 is taken |
| UserUtils.RandomFallback | backend/app/core/user_utils.py:40-48 | the fallback returns a drawn id that is free, and raises ValueError exactly when every one of the draws is taken |
| UserUtils.GenerateBipupuId | backend/app/core/user_utils.py:7-48 | "00000001" for an empty table; any returned id is 8 digits, between 1 and 99999999, and not already taken; a failure is a ValueError with every random draw taken |
| UserUtils.IncrementalIdIsNextFree | backend/app/core/user_utils.py:22-38 | when a free id above the current maximum exists, the result is greater than the maximum and no greater than that free id |
| UserUtils.IsServiceAccount | backend/app/core/user_utils.py:51-59 | a name is a service account exactly when it contains a dot |
| UserUtils.GeneratedIdIsNotServiceAccount | backend/app/core/user_utils.py:29-59 | a well-formed bipupu id is never a service-account name |
| Paging.MakePageParams | backend/app/schemas/common.py:18-32 | an absent page is 1 and an absent size is 20; parameters are accepted exactly when page >= 1 and 1 <= size <= 100, otherwise the answer is a 422 |
| Paging.Skip | backend/app/schemas/common.py:33 | for valid parameters the skip is a non-negative multiple of the size, and skip / size == page - 1 |
| Paging.PageCount | backend/app/schemas/common.py:47 | the page count is 0 when the size is not positive |
| Paging.PageCountIsCeiling | backend/app/schemas/common.py:47 | pages*size >= total, and (pages-1)*size < total when pages > 0, so the count is the ceiling; total 0 gives 0 pages |
| Paging.CreateResponse | backend/app/schemas/common.py:44-54 | items, total, page and size are copied unchanged, and the page count covers the total |
| Paging.Window | backend/app/schemas/common.py:33 | OFFSET/LIMIT returns at most `limit` rows, the rows from position `offset` on, in order |
| Paging.WindowsTile | backend/app/schemas/common.py:33 | two consecutive windows read the same rows as one window spanning both |
| Paging.EveryRowOnItsPage | backend/app/schemas/common.py:33 | row `i` appears on page `i / size + 1`, at position `i % size`, and that is the only page whose range of positions holds it |
| NotificationWindow.FieldBounds | backend/app/services/subscriptions/handlers/base.py:19-20 | `%H` and `%M` fields accept hours up to 23 and minutes up to 59 |
| NotificationWindow.ParseClock | backend/app/services/subscriptions/handlers/base.py:19-20 | `strptime(s, "%H:%M")` succeeds exactly on a one- or two-digit hour, a colon and a one- or two-digit minute in range, and yields a minute of the day |
| NotificationWindow.FormatClock | backend/app/services/subscriptions/handlers/base.py:19-20 | a minute of the day renders as five characters with a colon in the middle |
| NotificationWindow.ParseFormatClock | backend/app/services/subscriptions/handlers/base.py:19-20 | every "HH:MM" rendering parses back to its minute |
| NotificationWindow.IsWithinWindow | backend/app/services/subscriptions/handlers/base.py:15-29 | an unparseable bound gives false; with start <= end the window is the closed interval; otherwise the time is at or after the start, or at or before the end |
| NotificationWindow.EqualBoundsHoldOneInstant | backend/app/services/subscriptions/handlers/base.py:22-23 | equal bounds admit only the exact instant of the bound |
| NotificationWindow.SecondsAfterEndAreOutside | backend/app/services/subscriptions/handlers/base.py:19-23 | a time with seconds after the end minute is outside the window |
| NotificationWindow.WrappedWindowIsComplementOfGap | backend/app/services/subscriptions/handlers/base.py:24-26 | a window crossing midnight holds exactly the times outside the open gap from end to start |
| NotificationWindow.LenientBoundsParse | backend/app/services/subscriptions/handlers/base.py:19-20 | "9:5" and "09:05" both parse to 09:05; "24:00", "12:60" and "7" do not parse |
| PushTasks.Pick | backend/app/tasks/subscriptions.py:46-50 | `int(digest[a:b], 16) % len(table)` always selects an entry of the table |
| PushTasks.DailyFortune | backend/app/tasks/subscriptions.py:30-50 | the fortune carries the instant's date, and each of its five parts comes from its own table |
| PushTasks.FortuneIgnoresTimeOfDay | backend/app/tasks/subscriptions.py:35-62 | the same id on the same calendar date gets identical text, whatever the time of day |
| PushTasks.WeatherForecast | backend/app/tasks/subscriptions.py:81-106 | for any draws in range: today_min lies in [min, min + range/2], today_max >= today_min, humidity lies in [40, 95], wind in [1, 20], and the tip is the `Tips` entry of the weather kind, which every kind has, so never the default |
| PushTasks.ActiveService | backend/app/tasks/subscriptions.py:154-157 | the service found is active and of the given name; none is found exactly when no such active service exists |
| PushTasks.SelectDue | backend/app/tasks/subscriptions.py:181-207 | a row is selected exactly when it is due: its local push time, converted to UTC, lies within 900 s of the target (a zone defaulting to Asia/Shanghai), and a row whose zone fails is skipped |
| PushTasks.UsersForPushTime | backend/app/tasks/subscriptions.py:147-207 | a missing or inactive service gives []; otherwise the due rows among the service's enabled subscriptions that have a push time |
| PushTasks.OnlyEnabledTimedRowsSelected | backend/app/tasks/subscriptions.py:172-177 | a disabled subscription, or one without a push time, is never selected |
| PushTasks.TallySuccesses | backend/app/tasks/subscriptions.py:298-306 | the count is the number of results that are exactly True, at most the number of results, and equal to it exactly when all are True |
| PushTasks.FoundTargets | backend/app/tasks/subscriptions.py:289-293 | one send is scheduled for exactly the targets whose user row exists |
| PushTasks.PushTaskSentCount | backend/app/tasks/subscriptions.py:264-311 | an empty target list sends nothing; otherwise the count is the number of sends that returned True (`CountTrue`: 0 exactly when none did, all exactly when all did), never more than the users found, nor the targets |
| SubscriptionManager.StampPattern | backend/app/services/subscriptions/manager.py:56-61 | `source_type` defaults to "subscription" and `subscription_type` to the category; existing keys and values are kept |
| SubscriptionManager.Dispatch | backend/app/services/subscriptions/manager.py:36-74 | a message is produced only for a category with a handler, inside the notification window, and with non-empty handler data; it goes from sender 1 to the subscriber, with the stamped pattern and the category defaulting to the subscription's |
| SubscriptionManager.DispatchAll | backend/app/services/subscriptions/manager.py:36-78 | the messages are exactly the dispatched ones, one per subscription at most; a skipped subscription does not stop the others |
| SubscriptionManager.ProcessSubscriptions | backend/app/services/subscriptions/manager.py:27-86 | `created_count` is the number of messages added, at most the number of subscriptions; a failed commit stores nothing but still reports the count |
| SubscriptionManager.UnhandledCategoryIsSkipped | backend/app/services/subscriptions/manager.py:19-44 | only "weather" and "fortune" have handlers, so any other category produces no message |
| SubscriptionManager.HandlerPatternPreserved | backend/app/services/subscriptions/manager.py:57-61 | every key the handler put in the pattern keeps its value |
| MessageService.PatternHasAudio | backend/app/services/message_service.py:52-57 | a pattern has audio exactly when it is non-empty and some key, lower-cased, is one of the six audio keys |
| MessageService.ClassifyType | backend/app/services/message_service.py:45-64 | the type is SYSTEM exactly for a service-account sender; VOICE exactly for a user sender whose pattern has audio; NORMAL otherwise |
| MessageService.FindUser | backend/app/services/message_service.py:106-108 | the user found has the bipupu id; none is found exactly when no user has it |
| MessageService.FindService | backend/app/services/message_service.py:77-82 | the service found has the name; none is found exactly when no service has it |
| MessageService.SendMessage | backend/app/services/message_service.py:20-138 | more than 30 recent messages raise ValueError; to a service name, success exactly when the service exists, active or not; to a user, success exactly when the receiver exists and has not blocked the sender; success appends one message with the classified type |
| MessageService.SendMessageAsWritten | backend/app/services/message_service.py:36-40 | as written, every call raises before reading a row |
| MessageService.AsWrittenRefusesAdmissibleSends | backend/app/services/message_service.py:36-40 | a send the intended rule accepts is refused by the code as written |
| MessageService.RateLimitBoundary | backend/app/services/message_service.py:42-43 | 31 recent messages are refused; exactly 30 still pass |
| MessageService.DeleteMessage | backend/app/services/message_service.py:196-212 | a delete succeeds exactly when a message of that id is addressed to the caller, and then removes only it; otherwise the table is unchanged |
| MessageService.ReceivedMessages | backend/app/services/message_service.py:162-176 | the page holds at most `page_size` of the caller's received messages; the total counts all of them |
| MessageService.SentMessages | backend/app/services/message_service.py:179-193 | the page holds at most `page_size` of the caller's sent messages; the total counts all of them |
| MessageStore.Where | backend/app/services/message_service.py:169-171 | a filter keeps exactly the messages satisfying the condition, in table order |
| MessageStore.WhereKeepsChronological | backend/app/services/message_service.py:169-171 | a filtered chronological table is chronological |
| MessageStore.ReverseIsNewestFirst | backend/app/services/message_service.py:171 | `order_by(created_at.desc())` of a chronological table is its reverse |
| MessageStore.WindowWithin | backend/app/services/message_service.py:174 | a page holds rows of the listing only, and keeps its newest-first order |
| MessageStore.ListNewestFirst | backend/app/services/message_service.py:169-176 | total = the number of matching messages; the page is the window at offset (page-1)*size of the matching messages, newest first |
| MessageStore.ListingIsNewestFirst | backend/app/api/routes/messages.py:136-142 | every listing page is ordered newest first |
| MessageStore.FindMessage | backend/app/api/routes/messages.py:280-282 | the message found has the id; none exactly when no message has it |
| MessageStore.NextMessageId | backend/app/api/routes/messages.py:89-91 | a new row's id exceeds every existing id |
| MessageStore.AppendKeepsChronological | backend/app/api/routes/messages.py:89-91 | appending a message with the next id and a time no earlier than the last keeps the table chronological |
| MessageStore.RemoveMessage | backend/app/api/routes/messages.py:390-392 | exactly the messages of that id are removed, and chronological order is kept |
| MessageStore.FindFavorite | backend/app/api/routes/messages.py:286-289 | the favourite found is the user's for that message; none exactly when the user has none for it |
| MessageStore.NextFavoriteId | backend/app/api/routes/messages.py:295-303 | a new favourite's id exceeds every existing id |
| MessageRoutes.AnyActiveUser | backend/app/api/routes/messages.py:60-63 | true exactly when an active user has the bipupu id |
| MessageRoutes.AnyActiveService | backend/app/api/routes/messages.py:68-71 | true exactly when an active service account has the name |
| MessageRoutes.SendMessage | backend/app/api/routes/messages.py:57-94 | empty content is a 422 (`min_length=1` of `MessageCreate`); otherwise accepted exactly when the receiver is an active user or an active service account, else 404 "接收者不存在"; success appends one message carrying the caller, receiver, content, type and pattern |
| MessageRoutes.SendMessageAsWritten | backend/app/api/routes/messages.py:57-101 | as written, empty content is a 422, an unknown receiver a 404, and every other send ends in a 500 |
| MessageRoutes.AsWrittenSendAlwaysFails | backend/app/api/routes/messages.py:79-101 | every send of non-empty content to a reachable receiver fails with 500 as written, and succeeds once corrected |
| MessageRoutes.GetMessages | backend/app/api/routes/messages.py:104-149 | the parameters are validated (page >= 1, size 1..100); "sent" lists the caller's outbox and any other direction the inbox; the page is exactly the window of that box, newest first, at offset (page-1)*size, and the total counts the whole box |
| MessageRoutes.PollChecks | backend/app/api/routes/messages.py:176-194 | the first non-empty read is returned; has_more holds exactly when at least 20 messages come back; all reads empty gives [] and no has_more |
| MessageRoutes.Poll | backend/app/api/routes/messages.py:156-194 | valid exactly when last_msg_id >= 0 and 1 <= timeout <= 120; the answer is that of the first check that finds messages (`PollChecks`): only received messages with id > last_msg_id, oldest first; has_more exactly when at least 20 |
| MessageRoutes.JoinMessages | backend/app/api/routes/messages.py:234-247 | each favourite whose message still exists appears with that message; a favourite of a deleted message is dropped |
| MessageRoutes.GetFavorites | backend/app/api/routes/messages.py:201-254 | the total counts all of the caller's favourites; the page holds at most `page_size` of them, each with its message |
| MessageRoutes.AddFavorite | backend/app/api/routes/messages.py:278-303 | a missing message is a 404; an existing favourite is a 409 and adds nothing; success appends exactly one favourite with the note, keeping (user, message) unique |
| MessageRoutes.RemoveFavorite | backend/app/api/routes/messages.py:339-353 | succeeds exactly when the caller has a favourite of the message, otherwise 404; removes only that favourite |
| MessageRoutes.DeleteMessage | backend/app/api/routes/messages.py:380-392 | a missing message is a 404; a message the caller did not send is a 403; success removes only that message |
| WebSocketRegistry.Connect | backend/app/core/websocket.py:31-40 | afterwards the socket is in the user's set, maps back to the user and has the connect time; the user's other sockets and all other users' entries are kept |
| WebSocketRegistry.Disconnect | backend/app/core/websocket.py:44-59 | the socket leaves the reverse map and the time map, and the user's set; the user's entry goes with its last socket; other sockets are untouched; an unregistered socket changes nothing |
| WebSocketRegistry.ConnectPreservesValid | backend/app/core/websocket.py:25-40 | connecting a fresh socket under a non-empty id keeps "ws in active[id] iff users[ws] == id", with no empty sets |
| WebSocketRegistry.DisconnectPreservesValid | backend/app/core/websocket.py:44-59 | disconnecting keeps the same invariant |
| WebSocketRegistry.ReconnectUnderOtherIdBreaksInvariant | backend/app/core/websocket.py:35-39 | connecting an already registered socket under a second id leaves it in the first id's set, breaking the invariant |
| WebSocketRegistry.EmptyIdDisconnectLeavesStaleSocket | backend/app/core/websocket.py:46-49 | a socket connected under the empty id is never removed from its set, because the empty id is falsy |
| WebSocketRegistry.OnlineIffConnected | backend/app/core/websocket.py:95-97 | a user is online exactly when some registered socket maps to them |
| WebSocketRegistry.OnlineAtMostConnections | backend/app/core/websocket.py:99-105 | the online count (user entries) never exceeds the connection count (registered sockets) |
| WebSocketRegistry.ConnectAddsConnection | backend/app/core/websocket.py:39-105 | connecting a fresh socket adds one connection |
| WebSocketRegistry.ConnectOnlineCount | backend/app/core/websocket.py:35-101 | connecting adds one online user exactly when the id had no entry |
| WebSocketRegistry.DropNothing | backend/app/core/websocket.py:63-93 | dropping no sockets leaves the registry as it is |
| WebSocketRegistry.DisconnectExtendsDrop | backend/app/core/websocket.py:44-80 | disconnecting one more socket after dropping a set is the same as dropping the set with it |
| WebSocketRegistry.SendEach | backend/app/core/websocket.py:69-82 | the send loop succeeds exactly when some target accepts the frame; exactly the failed targets are disconnected; the invariant holds afterwards |
| WebSocketRegistry.SendPersonal | backend/app/core/websocket.py:63-82 | a user without an entry gets False and nothing changes; otherwise success exactly when one of their sockets accepts, and the failed ones are disconnected |
| WebSocketRegistry.Broadcast | backend/app/core/websocket.py:84-93 | the sockets left are exactly those that accepted the frame; the invariant holds afterwards |
| WebSocketRegistry.DropSocketsValid | backend/app/core/websocket.py:44-59 | disconnecting any set of sockets keeps the invariant |
| Friendships.ExistingRelation | backend/app/services/friendship_service.py:25-31 | the row found links the two users in either direction; none exactly when no row links them |
| Friendships.CreateFriendRequest | backend/app/services/friendship_service.py:16-48 | a request to oneself and one to an unknown user are refused with their messages; otherwise it succeeds exactly when no relation exists in either direction, whatever its status, and appends one PENDING row from the caller |
| Friendships.Respond | backend/app/services/friendship_service.py:100-132 | succeeds exactly when a PENDING request with that id is addressed to the caller; only that row gets the new status and time; pair uniqueness is kept |
| Friendships.ExistingPending | backend/app/services/friendship_service.py:102-109 | none exactly when no PENDING request with that id is addressed to the caller |
| Friendships.AcceptFriendRequest | backend/app/services/friendship_service.py:100-115 | only the addressee of a pending request can accept it, and only that row becomes ACCEPTED |
| Friendships.RejectFriendRequest | backend/app/services/friendship_service.py:117-132 | only the addressee of a pending request can reject it, and only that row becomes BLOCKED |
| Friendships.DeleteFriend | backend/app/services/friendship_service.py:134-146 | succeeds exactly when an ACCEPTED row with that id involves the caller, and removes only it; otherwise NotFound |
| Friendships.GetFriendships | backend/app/services/friendship_service.py:50-61 | the page is exactly the window, at (page-1)*size, of the caller's relations in either direction, of the status asked for if any; the total counts all of them |
| Friendships.GetFriendRequests | backend/app/services/friendship_service.py:63-72 | the page is exactly the window, at (page-1)*size, of the PENDING rows addressed to the caller; the total counts all of them |
| Friendships.FriendIds | backend/app/services/friendship_service.py:74-98 | a user is a friend exactly when an ACCEPTED row links them with the caller |
| Friendships.GetFriends | backend/app/services/friendship_service.py:74-98 | `total` is the number of friends; the page holds at most `size` friends, every one a friend, and is full up to the rows left after the offset |
| Friendships.FriendsSymmetric | backend/app/services/friendship_service.py:74-98 | friendship is symmetric |
| Friendships.AcceptMakesFriends | backend/app/services/friendship_service.py:100-115 | accepting a pending request makes its sender a friend of the caller |
| Friendships.RejectBarsNewRequests | backend/app/services/friendship_service.py:25-38 | after a rejection neither side can send a new request |
| Friendships.DeleteEndsFriendship | backend/app/services/friendship_service.py:134-146 | after a delete the other user is no longer a friend |
| Blocking.FindBlock | backend/app/services/user_settings_service.py:104-107 | the block found is the caller's block of that user; none exactly when there is none |
| Blocking.BlockUser | backend/app/services/user_settings_service.py:71-100 | in order: blocking oneself, an unknown user, an already blocked user and a 51st block are refused with their messages; otherwise exactly the pair (blocker, blocked) is appended |
| Blocking.BlockKeepsInvariants | backend/app/services/user_settings_service.py:82-93 | a successful block keeps pairs unique and every user within 50 blocks |
| Blocking.UnblockUser | backend/app/services/user_settings_service.py:102-113 | succeeds exactly when the pair exists, otherwise NotFound; only that pair is removed |
| Blocking.UnblockUndoesBlock | backend/app/services/user_settings_service.py:71-113 | unblocking right after a block restores the table |
| Blocking.JoinBlocked | backend/app/services/user_settings_service.py:118-122 | each joined row is a blocked user of the caller with the time of that block, and every block by the caller whose user exists yields its row |
| Blocking.GetBlockedUsers | backend/app/services/user_settings_service.py:115-136 | the page is the window of the caller's blocked users, newest block first, with the block time; the total counts them all |
| Blocking.UserByBipupuId | backend/app/api/routes/blocks.py:24-29 | the user of that bipupu id, or 404 "用户不存在" exactly when there is none |
| Blocking.ValidateNotSelf | backend/app/api/routes/blocks.py:32-35 | 400 exactly when the target is the caller |
| Blocking.CheckBlockStatus | backend/app/api/routes/blocks.py:187-213 | 404 exactly for an unknown id; `is_blocked_by_me` and `is_blocked_by_them` test opposite directions, and mutual is their conjunction |
| Blocking.GetBlockCount | backend/app/api/routes/blocks.py:287-306 | the counts are the caller's outgoing blocks, incoming blocks, and outgoing blocks of users who block the caller |
| Blocking.MutualAtMostEither | backend/app/api/routes/blocks.py:287-306 | with unique pairs, the mutual count is at most each of the other two |
| Blocking.SearchBlockedUsers | backend/app/api/routes/blocks.py:216-266 | limit must be 1..50; at most `limit` results, each a blocked user of the caller matching the keyword in name, nickname or bipupu id; fewer than `limit` results means all matches are there |
| Contacts.ActiveUser | backend/app/api/routes/contacts.py:110-113 | the user found is active and has the bipupu id; none exactly when no active user has it |
| Contacts.FindContact | backend/app/api/routes/contacts.py:119-122 | the contact found is the caller's entry for that bipupu id; none exactly when the caller has none |
| Contacts.CreateContact | backend/app/api/routes/contacts.py:107-140 | in order: a contact who is not an active user is a 404, an existing entry is a 409, oneself is a 400; success appends exactly one (owner, contact, alias) entry |
| Contacts.DuplicateCheckPrecedesSelfCheck | backend/app/api/routes/contacts.py:118-129 | adding oneself when an entry for oneself already exists is a 409, not a 400, since the self check comes last |
| Contacts.UpdateContact | backend/app/api/routes/contacts.py:178-190 | a missing contact is a 404; the alias changes only when one is given, and only on that entry |
| Contacts.DeleteContact | backend/app/api/routes/contacts.py:221-232 | a missing contact is a 404; success removes only that entry, and with unique entries the contact is gone |
| Contacts.WithActiveUsers | backend/app/api/routes/contacts.py:60-76 | each listed contact is paired with its active user; a contact whose user is inactive or missing is dropped |
| Contacts.GetContacts | backend/app/api/routes/contacts.py:28-84 | the page size is validated; the total counts all of the caller's contacts, while the page holds at most `page_size` of them, each with an active user |
| FavoriteService.AddFavorite | backend/app/services/favorite_service.py:11-41 | a missing message raises ValueError; an existing favourite is returned, its note replaced only by a non-None note, in place, with every other row unchanged; otherwise one favourite with the note is appended; (user, message) stays unique |
| FavoriteService.AddTwiceKeepsOneRow | backend/app/services/favorite_service.py:18-30 | adding the same favourite again leaves the table as it is |
| FavoriteService.RemoveFavorite | backend/app/services/favorite_service.py:44-56 | False and no change when the favourite is absent; otherwise True and only that favourite removed |
| FavoriteService.GetFavorites | backend/app/services/favorite_service.py:58-73 | only the caller's favourites, newest first, at offset (page-1)*page_size, at most page_size; the total counts all of them |
| Posters.MaxOrder | backend/app/services/poster_service.py:47 | the largest display order, 0 for no posters |
| Posters.SavePoster | backend/app/services/storage_service.py:78-169 | the stored JPEG exactly for an upload of at most 50 MB that decodes to an image of sides at most 10000; otherwise the message of the ValueError for each case (too large, too wide wrapped by the catch-all, out of memory, corrupt, any other failure), answered with 400 |
| Posters.AllocateOrder | backend/app/services/poster_service.py:39-52 | the order given is free; a free requested order is kept, a taken one becomes the maximum plus one |
| Posters.CreatePoster | backend/app/services/poster_service.py:21-85 | 400 "请上传图片文件" when the content type is missing or not `image/...`, then 400 with the storage service's message when it refuses the image; it succeeds exactly otherwise, appending one poster with the given fields, the stored JPEG and the allocated order, keeping orders and ids distinct |
| Posters.FindPoster | backend/app/services/poster_service.py:211-213 | the poster with that id, none exactly when no poster has it |
| Posters.Holder | backend/app/services/poster_service.py:108-111 | another poster holding that order, none exactly when there is none |
| Posters.SwapPartner | backend/app/services/poster_service.py:104-116 | a partner exists only for a changed order held by another poster |
| Posters.UpdatePoster | backend/app/services/poster_service.py:88-138 | None exactly for an unknown id; otherwise the set fields replace the old ones and a poster holding the new order takes the target's old order |
| Posters.UpdateKeepsOrdersDistinct | backend/app/services/poster_service.py:104-119 | with distinct orders and ids before, an update keeps orders distinct |
| Posters.SwapKeepsOrdersDistinct | backend/app/services/poster_service.py:113-116 | exchanging two posters' orders keeps orders distinct |
| Posters.MoveKeepsOrdersDistinct | backend/app/services/poster_service.py:104-119 | moving a poster to a free order keeps orders distinct |
| Posters.UpdatePosterImage | backend/app/services/poster_service.py:141-182 | None for an unknown id, then 400 for a non-image type, then 400 with the storage service's message; otherwise only that poster's image changes, to the stored JPEG |
| Posters.DeletePoster | backend/app/services/poster_service.py:185-208 | False and no change for an unknown id; otherwise True and only that poster removed |
| Posters.InDisplayOrder | backend/app/services/poster_service.py:223-238 | a permutation sorted by (display order, id) |
| Posters.ActivePosters | backend/app/services/poster_service.py:216-226 | at most `limit` active posters in display order; an active poster left out comes after every one listed, and only when the list is full |
| Posters.AllPosters | backend/app/services/poster_service.py:229-243 | the total counts every poster; the page holds at most `limit` posters in display order |
| ClientSubscriptions.Available | backend/app/api/routes/client/subscriptions.py:29-45 | the total counts the active types of the category (any category when none or empty is given); the page holds at most `size` of them |
| ClientSubscriptions.MyItems | backend/app/api/routes/client/subscriptions.py:64-76 | one item per type, in order, subscribed exactly when the caller has a record for that type |
| ClientSubscriptions.My | backend/app/api/routes/client/subscriptions.py:48-79 | the total counts the active types; the page is exactly the window, at (page-1)*size, of the active types each marked subscribed exactly when the caller has a record for it, carrying that record; page and size are echoed |
| ClientSubscriptions.Subscribe | backend/app/api/routes/client/subscriptions.py:82-138 | NotFound "订阅类型不存在或不可用" exactly when no active type has the id; a new record takes the request's values or the defaults (`or`); an existing one keeps its id, takes only the given values (`is not None`) and is replaced in place, every other record unchanged |
| ClientSubscriptions.SubscribeIdempotent | backend/app/api/routes/client/subscriptions.py:100-130 | with no empty value in the request, subscribing twice leaves what subscribing once left |
| ClientSubscriptions.EmptySettingsNotIdempotent | backend/app/api/routes/client/subscriptions.py:111-122 | an explicit `{}` of custom settings is replaced by the type's defaults on the first subscribe and stored on the second |
| ClientSubscriptions.Unsubscribe | backend/app/api/routes/client/subscriptions.py:141-172 | NotFound "您未订阅该服务" exactly when the caller has no record; otherwise only that record is deleted |
| ClientSubscriptions.UnsubscribeRemovesRecord | backend/app/api/routes/client/subscriptions.py:149-157 | with one record per (user, type), none is left after an unsubscribe |
| ClientSubscriptions.ApplyUpdate | backend/app/api/routes/client/subscriptions.py:197-206 | only the given fields change; `is_enabled` is taken when given |
| ClientSubscriptions.UpdateSettings | backend/app/api/routes/client/subscriptions.py:175-214 | NotFound "您未订阅该服务，无法更新设置" exactly when there is no record; otherwise only that record changes |
| ClientSubscriptions.EmptyUpdateIsIdentity | backend/app/api/routes/client/subscriptions.py:197-206 | an update giving no field leaves the record as it is |
| SubscriptionManagement.ListTypes | backend/app/api/endpoints/subscription_management.py:26-44 | the total counts the types passing the category and activity filters; the page holds at most `size` of them |
| SubscriptionManagement.GetType | backend/app/api/endpoints/subscription_management.py:47-60 | the type with the id, NotFound "订阅类型不存在" exactly when there is none |
| SubscriptionManagement.CreateType | backend/app/api/endpoints/subscription_management.py:63-94 | 403 for a non-superuser, then "订阅类型名称已存在" for a taken name; success exactly otherwise, appending one type with the given fields and keeping names and ids unique |
| SubscriptionManagement.ApplyTypeUpdate | backend/app/api/endpoints/subscription_management.py:131-140 | each given field replaces the old value; the id is kept |
| SubscriptionManagement.UpdateType | backend/app/api/endpoints/subscription_management.py:97-146 | 403, then NotFound, then a name clash with another type; it succeeds exactly when none of these applies, and then only that type changes |
| SubscriptionManagement.UpdateKeepsTypesUnique | backend/app/api/endpoints/subscription_management.py:119-128 | an accepted update keeps names and ids unique |
| SubscriptionManagement.DeleteType | backend/app/api/endpoints/subscription_management.py:149-178 | 403, then NotFound, then "该订阅类型已有用户订阅，无法删除" while any record uses the type; success exactly when a superuser deletes an existing unused type; a deletion never leaves a record without its type |
| SubscriptionManagement.UnsavedDefault | backend/app/api/endpoints/subscription_management.py:219-227 | the unsaved placeholder is disabled, with the type's defaults, 09:00 to 22:00, Asia/Shanghai |
| SubscriptionManagement.Entries | backend/app/api/endpoints/subscription_management.py:199-233 | one entry per type, in order, subscribed exactly when the caller has a record, else carrying the placeholder |
| SubscriptionManagement.UserSubscriptions | backend/app/api/endpoints/subscription_management.py:182-238 | the total counts the active types; the page is the slice at `skip` of their entries; nothing is stored |
| SubscriptionManagement.UpdateUserSubscription | backend/app/api/endpoints/subscription_management.py:241-296 | NotFound exactly when no active type has the id; a new record takes the given values or the defaults; an existing one keeps its id, always takes `is_enabled` and the other fields only when given, and is replaced in place, every other record unchanged; records stay well formed |
| AdminSubscriptions.DetailOf | backend/app/api/routes/admin/subscriptions.py:90-137 | a type's detail counts exactly its records and exactly its enabled records, which are never more |
| AdminSubscriptions.Details | backend/app/api/routes/admin/subscriptions.py:89-105 | one detail per listed type, in order |
| AdminSubscriptions.ListTypes | backend/app/api/routes/admin/subscriptions.py:70-107 | the total counts the types passing both filters; the page holds at most `size` details of such types |
| AdminSubscriptions.GetTypeDetail | backend/app/api/routes/admin/subscriptions.py:110-137 | NotFound exactly for an unknown id; otherwise the detail of that type |
| AdminSubscriptions.CreateType | backend/app/api/routes/admin/subscriptions.py:140-168 | "订阅类型名称已存在" exactly when the name is taken; otherwise exactly one type is appended, keeping names and ids unique |
| AdminSubscriptions.Apply | backend/app/api/routes/admin/subscriptions.py:198-203 | each given field (name, description, category, default settings, active flag) replaces the old value and each absent one keeps it; the id is kept |
| AdminSubscriptions.UpdateType | backend/app/api/routes/admin/subscriptions.py:171-207 | NotFound for an unknown id; a rename is refused exactly when the new name differs and another type holds it; it succeeds exactly otherwise, and then only that type changes |
| AdminSubscriptions.KeepingNameIsAllowed | backend/app/api/routes/admin/subscriptions.py:189-196 | resubmitting a type's own name is never a clash |
| AdminSubscriptions.UpdateKeepsTypesUnique | backend/app/api/routes/admin/subscriptions.py:189-203 | an accepted update keeps names and ids unique |
| AdminSubscriptions.SetStatus | backend/app/api/routes/admin/subscriptions.py:210-233 | NotFound exactly for an unknown id; otherwise only that type's activity is set to the value given |
| AdminSubscriptions.DeleteType | backend/app/api/routes/admin/subscriptions.py:236-263 | NotFound, then "该订阅类型已有 N 位用户订阅，无法删除" while records use the type; success exactly when the type exists unused, removing only it |
| AdminSubscriptions.GetCount | backend/app/api/routes/admin/subscriptions.py:266-298 | NotFound exactly for an unknown id; otherwise the type's record count and enabled count |
| AdminSubscriptions.JoinUsers | backend/app/api/routes/admin/subscriptions.py:318-322 | the inner join keeps exactly the records whose user exists, in table order (the i-th row is the i-th such record), each with that user |
| AdminSubscriptions.Subscribers | backend/app/api/routes/admin/subscriptions.py:301-340 | NotFound exactly for an unknown id; otherwise at most `size` subscribers of that type, each passing the enabled filter |
| AdminSubscriptions.CategoryCount | backend/app/api/routes/admin/subscriptions.py:359-365 | a category that occurs counts at least one type |
| AdminSubscriptions.PopularOf | backend/app/api/routes/admin/subscriptions.py:376-383 | one (id, name, count) entry per type with its record count |
| AdminSubscriptions.MostSubscribed | backend/app/api/routes/admin/subscriptions.py:368-374 | the first min(5, n) types by record count, all taken from the table |
| AdminSubscriptions.MostSubscribedDescending | backend/app/api/routes/admin/subscriptions.py:374 | the popular list is in non-increasing record count |
| AdminSubscriptions.MostSubscribedDominates | backend/app/api/routes/admin/subscriptions.py:374 | a type left out has no more records than any type listed |
| AdminSubscriptions.GetOverview | backend/app/api/routes/admin/subscriptions.py:343-398 | the type and record totals split into active and inactive counts that add up; every category present is a key with its type count; at most five popular entries |
| SubscriptionStore.FindType | backend/app/services/user_settings_service.py:212-217 | the type with the id, none exactly when no type has it |
| SubscriptionStore.FindActiveType | backend/app/api/routes/client/subscriptions.py:91-97 | an active type with the id, none exactly when there is none |
| SubscriptionStore.FindNamed | backend/app/api/routes/admin/subscriptions.py:148-153 | a type of that name, none exactly when there is none |
| SubscriptionStore.FindSubscription | backend/app/api/routes/client/subscriptions.py:100-103 | the caller's record for the type, none exactly when there is none |
| SubscriptionStore.OrString | backend/app/api/routes/client/subscriptions.py:112-114 | `value or fallback`: the value when given and non-empty, the fallback otherwise |
| SubscriptionStore.OrSettings | backend/app/api/routes/client/subscriptions.py:111 | the requested settings when given and non-empty, the type's defaults otherwise |
| SubscriptionStore.NewSettings | backend/app/api/routes/client/subscriptions.py:105-115 | a new record takes `is_enabled` and each other value or its default |
| SubscriptionStore.MergeSettings | backend/app/api/routes/client/subscriptions.py:117-128 | an existing record takes `is_enabled` and each other value only when it is not None |
| SubscriptionStore.Upsert | backend/app/api/routes/client/subscriptions.py:100-130 | without a record one new record is appended; with one, only that record is replaced by its merge |
| SubscriptionStore.UpsertKeepsWellFormed | backend/app/api/routes/client/subscriptions.py:100-130 | an upsert keeps one record per (user, type), each naming a type that exists |
| SubscriptionStore.UpdateSubscription | backend/app/services/user_settings_service.py:210-237 | NotFound "订阅类型不存在" exactly for an unknown type; `is_enabled` is always set, the custom settings only when truthy; a new record is appended with a fresh id, `{}` and the default times and zone; an existing one keeps its id, times and zone and is replaced in place, every other record unchanged |
| SubscriptionStore.SubscriberCount | backend/app/api/routes/admin/subscriptions.py:91-93 | exactly the number of records of the type, 0 exactly when no record has it |
| SubscriptionStore.EnabledSubscriberCount | backend/app/api/routes/admin/subscriptions.py:95-98 | exactly the number of enabled records of the type, 0 exactly when none is enabled; never more than the type's records |
| SubscriptionStore.DisabledSubscriberCount | backend/app/api/routes/admin/subscriptions.py:285-290 | the disabled records are the total minus the enabled ones |
| SubscriptionStore.RemoveUnreferencedType | backend/app/api/routes/admin/subscriptions.py:251-259 | removing a type no record uses leaves every record with an existing type |
| SystemNotifications.Rgb | backend/app/api/endpoints/system_notifications.py:65-69 | red (255, 100, 100) from priority 7 up, blue (100, 150, 255) below |
| SystemNotifications.Intensity | backend/app/api/endpoints/system_notifications.py:71 | ten times the priority, capped at 80, never negative for a valid priority |
| SystemNotifications.NotificationPattern | backend/app/api/endpoints/system_notifications.py:60-74 | the stamp keys carry the system source, the admin id and the broadcast type; every other requested key is kept; the keys are exactly the requested ones plus the stamp's |
| SystemNotifications.Recipients | backend/app/api/endpoints/system_notifications.py:44-52 | a non-empty target list must match as many users as it has entries, else "部分目标用户不存在"; the recipients are exactly the listed users; without targets, every active user |
| SystemNotifications.MakeMessages | backend/app/api/endpoints/system_notifications.py:57-87 | one unread NOTIFICATION per recipient, in order, from the admin, with the broadcast's fields and pattern |
| SystemNotifications.CreateSystemNotification | backend/app/api/endpoints/system_notifications.py:34-116 | a priority outside 0..10 is refused first; success appends exactly one message per recipient and reports their number |
| SystemNotifications.RepeatedTargetRefused | backend/app/api/endpoints/system_notifications.py:46-48 | a target list naming the same user twice is refused, since the user query returns that user once |
| SystemNotifications.IntensityNeverExceedsCap | backend/app/api/endpoints/system_notifications.py:41-71 | every created message's vibration intensity is within 0..80 |
| SystemNotifications.List | backend/app/api/endpoints/system_notifications.py:119-187 | the total counts the matching system notifications (the caller's, or all for the admin listing, within the priority bounds); the page is at most `size` of them, newest first |
| SystemNotifications.ByPriority | backend/app/api/endpoints/system_notifications.py:208-212 | a `priority_k` entry exists exactly for each priority with a positive count, carrying that count |
| SystemNotifications.PriorityKeyInjective | backend/app/api/endpoints/system_notifications.py:212 | distinct priorities give distinct keys, so no count overwrites another |
| SystemNotifications.GetStats | backend/app/api/endpoints/system_notifications.py:190-285 | the total, unread, read and three status counts are exactly the numbers of selected notifications of each kind; unread and read add up to the total, as do the three status counts; archived equals the archived status count; per-priority counts as above |
| SystemNotifications.FindOwn | backend/app/api/endpoints/system_notifications.py:294-299 | a system notification of the caller with the id; none exactly when there is none |
| SystemNotifications.GetNotification | backend/app/api/endpoints/system_notifications.py:287-304 | NotFound "系统通知不存在或无权限访问" exactly when the caller has no such notification; otherwise the answer is that notification |
| SystemNotifications.MarkRead | backend/app/api/endpoints/system_notifications.py:307-332 | NotFound as above; an already read notification leaves the table unchanged; otherwise only that message becomes read |
| SystemNotifications.MarkReadTwiceIsNoOp | backend/app/api/endpoints/system_notifications.py:324-329 | with unique ids, marking again after a mark changes nothing |
| SystemNotifications.MarkAllRead | backend/app/api/endpoints/system_notifications.py:335-355 | the count is the number of the caller's unread system notifications, and none is left unread |
| SystemNotifications.Archive | backend/app/api/endpoints/system_notifications.py:358-380 | NotFound as above; otherwise only that message's status becomes ARCHIVED |
| SystemNotifications.AdminDelete | backend/app/api/endpoints/system_notifications.py:384-404 | NotFound "系统通知不存在" exactly when no system notification has the id; otherwise one such message is removed |
| SettingsSchemas.ParseVisibility | backend/app/schemas/user_settings.py:8-12 | exactly the three strings "public", "friends" and "private" parse, each to its own value |
| SettingsSchemas.MakePrivacySettings | backend/app/schemas/user_settings.py:15-26 | accepted exactly when a given visibility parses and a given cooldown lies in 60..3600; defaults FRIENDS, True, True and 300 |
| SettingsSchemas.Minutes | backend/app/schemas/user_settings.py:32-33 | a pattern-accepted "HH:MM" names a minute of the day |
| SettingsSchemas.ClockTimeParses | backend/app/schemas/user_settings.py:32-33 | the window check's clock parser reads every pattern-accepted string as the same minute |
| SettingsSchemas.FormatIsClockTime | backend/app/schemas/user_settings.py:32-33 | every minute of the day is written as a pattern-accepted string that reads back as that minute |
| SettingsSchemas.ClockOrderIsLexOrder | backend/app/schemas/user_settings.py:36-40 | for pattern-accepted strings, the string comparison the validator uses agrees with the order of the minutes they name |
| SettingsSchemas.MakeSubscriptionSettings | backend/app/schemas/user_settings.py:29-40 | accepted exactly when the given times match the pattern and a given end is later than the start; defaults 09:00, 22:00, Asia/Shanghai and cosmic messaging on |
| SettingsSchemas.GivenEndFollowsStart | backend/app/schemas/user_settings.py:36-40 | when the body gives the end, an accepted window ends strictly after it starts |
| SettingsSchemas.DefaultEndIsNotChecked | backend/app/schemas/user_settings.py:33-40 | a start of 23:00 with the default end 22:00 is accepted, because validators do not run on defaults |
| SettingsSchemas.MakePasswordChange | backend/app/schemas/user_settings.py:109-118 | accepted exactly when both passwords have 6..128 characters and differ |
| SettingsSchemas.MakeCosmicProfile | backend/app/schemas/user_settings.py:43-49 | accepted exactly when the texts have at most 50 characters and the numbers lie in 1..9; the record is kept as given |
| SettingsSchemas.ExportFormat | backend/app/schemas/user_settings.py:159 | accepted exactly for json, csv or txt; "json" when absent |
| SettingsSchemas.GroupBy | backend/app/schemas/user_settings.py:176 | accepted exactly for day, week or month; "day" when absent |
| UserSchemas.ParseGender | backend/app/schemas/user.py:16-20 | exactly "male", "female" and "other" parse, each to its own value |
| UserSchemas.BirthTimeIsClockTime | backend/app/schemas/user.py:55-59 | the birth-time pattern accepts exactly the "HH:MM" times and their forms with the leading hour zero dropped |
| UserSchemas.BirthTimeExamples | backend/app/schemas/user.py:57 | "24:00" is refused; "7:05" and "23:59" are accepted |
| UserSchemas.OnlySlash | backend/app/schemas/user.py:83 | an accepted zone name has exactly one slash |
| UserSchemas.TimezoneSplit | backend/app/schemas/user.py:81-86 | `a/b` is accepted exactly when both parts are non-empty words of letters and underscores |
| UserSchemas.TimezoneExamples | backend/app/schemas/user.py:81-86 | "Asia/Shanghai" is accepted; the three-part "America/Argentina/Buenos_Aires" and "Etc/GMT+8" are refused |
| UserSchemas.ValidateMbti | backend/app/schemas/user.py:54-70 | None passes unchanged; a given value is accepted exactly when it has four characters, and is upper-cased |
| UserSchemas.UpperStringIdempotent | backend/app/schemas/user.py:70 | upper-casing twice is upper-casing once |
| UserSchemas.MbtiIdempotent | backend/app/schemas/user.py:62-70 | validating an accepted MBTI again gives the same value |
| UserSchemas.MakeUserCreate | backend/app/schemas/user.py:37-41 | accepted exactly when the username has 3..50 characters, the password 6..128 and a nickname at most 50 |
| UserSchemas.MakeUserLogin | backend/app/schemas/user.py:121-124 | accepted exactly when the username has 3..50 characters; the password is unconstrained |
| UserSchemas.MakePasswordUpdate | backend/app/schemas/user.py:73-76 | accepted exactly when the new password has 6..128 characters; the old one is unconstrained |
| UserSchemas.MakeTimezoneUpdate | backend/app/schemas/user.py:79-86 | accepted exactly when the zone name matches the pattern |
| UserSchemas.MakeUserUpdate | backend/app/schemas/user.py:44-70 | accepted exactly when every given field meets its length, range, enum or pattern constraint and the MBTI validates; only the MBTI is rewritten, upper-cased |
| ErrorHandlers.CustomStatus | backend/app/core/exceptions.py:75-91 | Validation 422, NotFound 404, Unauthorized 401, Forbidden 403, Conflict 409, anything else of the hierarchy 500 |
| ErrorHandlers.ClientStatusNamesClass | backend/app/core/exceptions.py:80-89 | two custom classes with the same status below 500 are the same class |
| ErrorHandlers.CustomBody | backend/app/core/exceptions.py:52-62 | the body is `success: false` with the class name, message, code (null when absent) and details ({} when absent) |
| ErrorHandlers.Handle | backend/app/core/exceptions.py:66-136 | an admin authentication failure, and only that, redirects to /admin/login with 302; a custom exception gets its class status and body; an HTTPException keeps its status, message and status code as text; anything else is a 500 with the fixed "Internal server error" body |
| ErrorHandlers.StatusOf | backend/app/core/exceptions.py:75-116 | the status a client sees for each kind of failure in the model |
| ErrorHandlers.MessageReachesClient | backend/app/core/exceptions.py:119-136 | a custom exception's message reaches the client unchanged; a plain exception's never does |
| Security.Claims | backend/app/core/security.py:60-103 | the claims are the data's keys plus `exp` and `type`; `exp` is now plus the given lifetime, or the default one when none or zero is given; every other key keeps its value |
| Security.AccessClaims | backend/app/core/security.py:60-80 | type "access", by default expiring after the configured minutes |
| Security.RefreshClaims | backend/app/core/security.py:83-103 | type "refresh", by default expiring after the configured days |
| Security.FindActive | backend/app/core/security.py:46-49 | an active user of that name; none exactly when there is none |
| Security.Authenticate | backend/app/core/security.py:44-57 | the active user of the name exactly when their password verifies; None for an unknown or inactive name, or a wrong password |
| Security.CurrentUser | backend/app/core/security.py:120-164 | succeeds exactly when the token is not blacklisted, decodes, is of type access, has a `sub`, and an active user has that name; every failure is the same 401 |
| Security.RefreshTokenIsNotAccess | backend/app/core/security.py:143-146 | a refresh token never authenticates a request |
| Security.IssuedAccessTokenAuthenticates | backend/app/core/security.py:120-164 | an access token issued for an active user's name, not blacklisted, authenticates that user |
| Security.CurrentActiveUser | backend/app/core/security.py:167-173 | 400 "用户未激活" exactly for an inactive user; otherwise the user passes through |
| Security.ActiveCheckNeverFires | backend/app/core/security.py:155-173 | since the user lookup already requires activity, the activity check never changes the outcome |
| Security.CurrentSuperuser | backend/app/core/security.py:176-185 | 403 "权限不足" exactly for an authenticated non-superuser; failures pass through |
| Security.CurrentUserWeb | backend/app/core/security.py:188-203 | no session id, or 0, gives None; otherwise the active user with that id, None when there is none |
| Security.CurrentSuperuserWeb | backend/app/core/security.py:206-215 | 403 "权限不足" without a session user or for a non-superuser |
| Security.CurrentUserOptional | backend/app/core/security.py:218-229 | a request without bearer credentials is refused by the `HTTPBearer()` scheme of security.py line 31, whose `auto_error` is on, before the body runs, so the body's `if not credentials` branch is dead; with credentials, the authenticated user, or None on any authentication failure |
| PublicRoutes.NextUserId | backend/app/api/routes/public.py:75-77 | the new id is above every existing id |
| PublicRoutes.Register | backend/app/api/routes/public.py:35-87 | 400 "用户名已存在" exactly when the username is taken; otherwise one active user with the hashed password and a fresh id is appended |
| PublicRoutes.RegisterKeepsUsernamesUnique | backend/app/api/routes/public.py:62-65 | usernames stay unique under registration |
| PublicRoutes.IssueTokens | backend/app/api/routes/public.py:133-152 | a bearer pair for the username: an access token for the configured minutes, a refresh token for the configured days, `expires_in` in seconds |
| PublicRoutes.Login | backend/app/api/routes/public.py:90-158 | succeeds exactly when an active user of the name has that password, with 401 "用户名或密码错误" otherwise; only that user's last-active time changes |
| PublicRoutes.Refresh | backend/app/api/routes/public.py:161-240 | every failure is a 401; a token that does not decode as a refresh token is refused first; it succeeds exactly when the refresh payload names an active user by a non-empty `sub` and the token is not blacklisted, and then blacklists it and issues a fresh pair |
| PublicRoutes.RefreshIsSingleUse | backend/app/api/routes/public.py:203-213 | presenting the same refresh token again is refused |
| PublicRoutes.Logout | backend/app/api/routes/public.py:243-283 | a token whose payload carries `exp` is blacklisted; any other leaves the blacklist as it is |
| PublicRoutes.VerifyToken | backend/app/api/routes/public.py:286-325 | "令牌有效" exactly when the token decodes to a non-empty payload and is not blacklisted, of any type |
| PublicRoutes.LogoutRevokes | backend/app/api/routes/public.py:265-317 | after logout the token neither verifies nor authenticates a request |
| Config.SecretKey | backend/app/core/config.py:115-127 | an empty key is refused; a key shorter than 32 characters becomes its SHA-256 hex digest; a longer one is kept |
| Config.SecretKeyLongEnough | backend/app/core/config.py:124-126 | every accepted key has at least 32 characters |
| Config.DefaultSecretKeyKept | backend/app/core/config.py:86-127 | the default key is kept as it is |
| Config.AdminFieldAsWritten | backend/app/core/config.py:93-134 | as written, the `str` fields reject the None the validator turns an empty value into |
| Config.EmptyAdminFieldRejected | backend/app/core/config.py:93-134 | an empty ADMIN_* value makes the settings fail |
| Config.AdminField | backend/app/core/config.py:129-134 | the intended reading: an empty value becomes None and any other value is kept |
| Config.AdminFieldAgrees | backend/app/core/config.py:129-134 | both readings agree on every non-empty value |
| Config.DatabaseUrl | backend/app/core/config.py:26-39 | a non-empty DATABASE_URL wins; otherwise the URL is the user and quoted password prefix, then `server:port`, then `/` and the database name |
| Config.RedisAuth | backend/app/core/config.py:51-54 | the credentials part is empty exactly when no non-empty password is set |
| Config.RedisUrlFor | backend/app/core/config.py:46-80 | a non-empty environment URL wins; otherwise `redis://`, the credentials, the host and the database index |
| Config.RedisUrl | backend/app/core/config.py:46-56 | the built URL names database 0 |
| Config.CeleryBrokerUrl | backend/app/core/config.py:58-68 | the built URL names database 1 |
| Config.CeleryResultBackend | backend/app/core/config.py:70-80 | the built URL names database 2 |
| Config.RedisDatabasesDistinct | backend/app/core/config.py:46-80 | built from the same parts, the three Redis URLs differ |
| Config.RedisAuthOnlyWithPassword | backend/app/core/config.py:51-56 | the URL carries credentials exactly when a non-empty password is set |
| UserService.UserById | backend/app/services/user_service.py:54-56 | the user with the id, none exactly when no row has it |
| UserService.CreateUser | backend/app/services/user_service.py:24-51 | a taken username fails; otherwise one active non-superuser is appended with the hashed password, the nickname, a fresh id and as bipupu id the eight-digit text of the draw in 10000000..99999999 |
| UserService.CreatedIdIsUserId | backend/app/services/user_service.py:28-29 | the created bipupu id is the generator's format of the draw and never a service account name |
| UserService.ApplyUpdate | backend/app/services/user_service.py:72-76 | each field the update sets replaces the old value; the others stay |
| UserService.ApplyUpdateIdempotent | backend/app/services/user_service.py:72-76 | applying an update twice is applying it once, and an empty update changes nothing |
| UserService.UpdateUser | backend/app/services/user_service.py:69-91 | only the profile and the update time change |
| UserService.UpdatePassword | backend/app/services/user_service.py:94-114 | True exactly when the old password verifies; then only the hash and update time change, otherwise nothing does |
| UserService.PasswordChangeTakesEffect | backend/app/services/user_service.py:94-109 | after a change, the new password is accepted as the old one of a further change |
| UserService.DeleteUser | backend/app/services/user_service.py:117-133 | False and no change for a missing id; otherwise that row is gone and every other stays |
| UserService.SetActive | backend/app/services/user_service.py:136-177 | False and no change for a missing id; otherwise only rows with the id get the flag and the update time |
| UserService.DeactivateUser | backend/app/services/user_service.py:136-155 | the user with the id ends inactive; the active count does not rise |
| UserService.ActivateUser | backend/app/services/user_service.py:158-177 | the user with the id ends active; the active count does not fall |
| UserService.ToggleUserStatus | backend/app/services/user_service.py:180-201 | NotFound for a missing id; otherwise that user's activity flips |
| UserService.ToggleTwiceRestores | backend/app/services/user_service.py:183-190 | toggling twice restores every user's activity |
| UserService.UpdateLastActive | backend/app/services/user_service.py:204-212 | only the last-active time changes, to now |
| UserService.ActiveUsers | backend/app/services/user_service.py:215-219 | exactly the window of the active users, in table order, from position `skip` on: min(limit, remaining) of them |
| UserService.SearchUsers | backend/app/services/user_service.py:222-228 | at most `limit` active users whose username or nickname contains the query |
| UserService.SearchEmptyIsActiveList | backend/app/services/user_service.py:215-228 | searching for the empty text lists the active users |
| UserService.CountUsers | backend/app/services/user_service.py:231-233 | the number of rows |
| UserService.CountActiveUsers | backend/app/services/user_service.py:236-238 | exactly the number of active rows; never more than all rows, and equal exactly when every user is active |
| UserService.DeactivateCountsOne | backend/app/services/user_service.py:136-150 | with unique ids, deactivating an active user lowers the active count by one |
| ServiceAccountModel.AvatarUrl | backend/app/models/service_account.py:40-45 | a URL exactly when there are non-empty avatar bytes, naming the service under /api/service_accounts/ |
| ServiceAccountModel.AvatarUrlNamesService | backend/app/models/service_account.py:44 | two services share an avatar URL only when they share a name |
| ServiceAccountModel.GetSubscriptionSettings | backend/app/models/service_account.py:47-69 | None exactly when the user has no row for the service; otherwise that row's push time and flag |
| ServiceAccountModel.ParsePushTime | backend/app/models/service_account.py:81-85 | accepted exactly when the text splits at ':' into two integers forming a valid time of day, which is then a minute of the day; anything else raises ValueError |
| ServiceAccountModel.ParseJoinedPushTime | backend/app/models/service_account.py:84-85 | a valid hour and minute joined by a colon parse to that time, with or without leading zeros |
| ServiceAccountModel.ParseFormattedPushTime | backend/app/models/service_account.py:84-85 | every "HH:MM" time parses to the minute it names |
| ServiceAccountModel.UpdateSubscriptionSettings | backend/app/models/service_account.py:71-114 | a malformed push time raises; True exactly when a field is given, and then only the user's rows for this service change; False leaves the rows as they are |
| ServiceAccountModel.UpdateThenGet | backend/app/models/service_account.py:47-114 | after an update the user's settings read back as written |
| ServiceAccounts.StoredPattern | backend/app/services/service_accounts.py:42 | `pattern or {}`: a non-empty pattern is kept, an absent or empty one stored as {} |
| ServiceAccounts.SendPush | backend/app/services/service_accounts.py:13-72 | exactly one message from the service to the receiver is appended, with a fresh id, the content, type and stored pattern; the frame pushed is built from it |
| ServiceAccounts.FrameCarriesMessage | backend/app/services/service_accounts.py:56-68 | the `new_message` frame carries the stored message's id, sender, content and pattern |
| ServiceAccounts.PushAll | backend/app/services/service_accounts.py:103-140 | one push per receiver, appended in order |
| ServiceAccounts.ServiceNamed | backend/app/services/service_accounts.py:157-174 | a service of that name, none exactly when there is none |
| ServiceAccounts.SubscribersOf | backend/app/models/service_account.py:33-38 | exactly the users holding a subscription row for the service |
| ServiceAccounts.BipupuIds | backend/app/services/service_accounts.py:103-104 | each subscriber's bipupu id, in order |
| ServiceAccounts.BroadcastPush | backend/app/services/service_accounts.py:75-107 | 0 and no message for an unknown service; otherwise one message per subscriber, in order, and the count is the subscriber count |
| ServiceAccounts.BroadcastToUsers | backend/app/services/service_accounts.py:110-144 | the count is the number of known ids; the i-th message appended goes to the i-th known id, in list order, from the service with the given content and type |
| ServiceAccounts.BroadcastToKnownUsers | backend/app/services/service_accounts.py:136-140 | with every id known, each id gets exactly one push, in order |
| ServiceAccounts.GetSubscribers | backend/app/services/service_accounts.py:147-161 | [] for an unknown service; otherwise its subscribers |
| ServiceAccounts.GetSubscriberCount | backend/app/services/service_accounts.py:164-178 | 0 for an unknown service; otherwise the number of its subscribers, never more than the users |
| ServiceAccounts.ServiceExists | backend/app/services/service_accounts.py:181-196 | true exactly when an active service has the name |
| ServiceAccounts.ExistsMeansFoundAndActive | backend/app/services/service_accounts.py:181-196 | with unique names, existence is exactly "the service found by name is active" |
| InitData.Truncate | backend/app/db/init_data.py:16 | at most 72 characters, a prefix of the password, the whole password when it fits |
| InitData.CreateDefaultAdmin | backend/app/db/init_data.py:14-38 | a missing password or a missing username fails; an existing user of the admin name means no change; otherwise success exactly when an id is drawn, appending one active superuser with the hashed truncated password |
| InitData.AdminCreationIdempotent | backend/app/db/init_data.py:21-25 | once the administrator exists, creating it again changes nothing |
| InitData.Reconcile | backend/app/db/init_data.py:67-90 | the row ends matching its seed with name, id and avatar kept, and is untouched exactly when it already matched |
| InitData.SeedService | backend/app/db/init_data.py:62-100 | afterwards a row of the seed's name exists and every such row matches it; rows of other names are kept; an up-to-date table is unchanged |
| InitData.CreateDefaultServices | backend/app/db/init_data.py:41-108 | a failed commit leaves the table as it was; a committed run seeds both services; an already seeded table is unchanged |
| InitData.SeedingSeeds | backend/app/db/init_data.py:44-108 | seeding both services in turn leaves both seeded, and changes nothing when they already were |
| InitData.InitDefaultData | backend/app/db/init_data.py:110-131 | a failed administrator step leaves everything as it was and skips the services; otherwise both steps run |
| InitData.InitIdempotent | backend/app/db/init_data.py:110-131 | after a committed run, a second run changes nothing whatever its id draw, clock or commit outcome |
| MessageTypeMigration.Upgrade | backend/alembic/versions/7f3a1c8b9d2f_update_message_enum_to_normal.py:27-34 | SYSTEM stays SYSTEM, VOICE and VOICE_TRANSCRIPT become VOICE, every other value and NULL become NORMAL |
| MessageTypeMigration.UpgradeFixesCurrent | backend/alembic/versions/7f3a1c8b9d2f_update_message_enum_to_normal.py:27-34 | each value of the new enum is left as it is |
| MessageTypeMigration.UpgradeIdempotent | backend/alembic/versions/7f3a1c8b9d2f_update_message_enum_to_normal.py:27-34 | upgrading an upgraded value changes nothing |
| MessageTypeMigration.Downgrade | backend/alembic/versions/7f3a1c8b9d2f_update_message_enum_to_normal.py:49-56 | SYSTEM stays SYSTEM and everything else becomes USER |
| MessageTypeMigration.DowngradeAfterUpgrade | backend/alembic/versions/7f3a1c8b9d2f_update_message_enum_to_normal.py:19-61 | down after up keeps only SYSTEM; ALERT does not come back |
| MessageTypeMigration.UpgradeAfterDowngrade | backend/alembic/versions/7f3a1c8b9d2f_update_message_enum_to_normal.py:19-61 | up after down keeps SYSTEM and sends VOICE to NORMAL |
| UserEndpoints.Register | backend/app/api/endpoints/users.py:37-62 | "Email or username already registered" exactly when either is taken; otherwise one active non-superuser with the hashed password and a fresh id is appended |
| UserEndpoints.RegisterKeepsUnique | backend/app/api/endpoints/users.py:44-48 | registration keeps emails and usernames unique |
| UserEndpoints.FindLogin | backend/app/api/endpoints/users.py:72-75 | the account whose email or username is the login name; none exactly when there is none |
| UserEndpoints.Login | backend/app/api/endpoints/users.py:64-114 | 401 "Incorrect username or password" for an unknown name or wrong password, then 400 "Inactive user"; otherwise an access and a refresh token for the account id, `expires_in` in seconds |
| UserEndpoints.WrongPasswordLooksUnknown | backend/app/api/endpoints/users.py:76-81 | a wrong password gets the same answer as an unknown name, whether the account is active or not |
| UserEndpoints.SubjectId | backend/app/api/endpoints/users.py:132 | `int(sub)`: a digit string or an integer gives its value; an absent or null subject gives none |
| UserEndpoints.AccountById | backend/app/api/endpoints/users.py:133 | the account with the id, none exactly when there is none, the only one when ids are unique |
| UserEndpoints.Refresh | backend/app/api/endpoints/users.py:117-161 | every failure becomes 401 "Invalid refresh token"; success exactly for a decodable refresh token whose subject names an active account, giving only a new access token |
| UserEndpoints.RefreshNeedsActiveAccount | backend/app/api/endpoints/users.py:135-140 | a refresh token of a deactivated account is refused |
| UserEndpoints.Apply | backend/app/api/endpoints/users.py:197-206 | set fields replace the old values, a password only as its hash; id and flags are kept |
| UserEndpoints.UpdateAccount | backend/app/api/endpoints/users.py:182-206 | "Email already registered" exactly when the new email belongs to another account, then "Username already registered"; otherwise only the target account changes |
| UserEndpoints.OwnValuesAllowed | backend/app/api/endpoints/users.py:182-194 | resubmitting one's own email and username is never a conflict |
| UserEndpoints.UpdateKeepsUnique | backend/app/api/endpoints/users.py:182-206 | with unique ids, an accepted update keeps emails and usernames unique |
| UserEndpoints.UpdateMe | backend/app/api/endpoints/users.py:172-213 | the caller's own update, keeping its id and superuser flag |
| UserEndpoints.RequireSuperuser | backend/app/core/security.py:176-185 | 403 "权限不足" exactly for a non-superuser |
| UserEndpoints.AdminUpdateUser | backend/app/api/endpoints/users.py:242-296 | 403, then "User not found", then for the first account of that id exactly the outcome of `UpdateAccount` on it |
| UserEndpoints.GetUser | backend/app/api/endpoints/users.py:229-239 | 403, then "User not found" exactly when no account has the id |
| UserEndpoints.DeleteUser | backend/app/api/endpoints/users.py:299-323 | 403, then "User not found"; otherwise exactly that account is removed |
| UserEndpoints.GetUsers | backend/app/api/endpoints/users.py:216-226 | 403 for a non-superuser; otherwise the page of accounts with the total of all |
| UserEndpoints.AdminGuard | backend/app/api/endpoints/users.py:390-414 | 403 "Not enough permissions" exactly for a non-superuser |
| UserEndpoints.AdminAllUsers | backend/app/api/endpoints/users.py:381-402 | 403 as above; otherwise at most `size` accounts passing the flag filters, with their count; without filters the total is every account |
| UserEndpoints.AdminListingWithoutFilters | backend/app/api/endpoints/users.py:381-402 | without filters the administrator listing equals the plain listing |
| UserEndpoints.AdminUpdateStatus | backend/app/api/endpoints/users.py:405-426 | 403, then "User not found"; otherwise only that account's activity is set |
| UserEndpoints.DeactivatedCannotLogin | backend/app/api/endpoints/users.py:405-426 | after an administrator deactivates an account, logging in to it fails whatever the password |
| Text.ToDecimal | backend/app/services/user_service.py:29 | `str(n)` is a digit string that `int()` reads back as `n` |
| Text.ParsePadDecimal | backend/app/core/user_utils.py:29 | parsing the zero-padded form gives back the low digits of the number |
| Text.PadDecimalInjective | backend/app/core/user_utils.py:29 | below 10^width, distinct numbers have distinct padded forms |
| Text.UpperString | backend/app/schemas/user.py:70 | upper-cases every ASCII letter in place and keeps the length; other characters are unchanged |
| Text.Split | backend/app/models/service_account.py:84 | `str.split(sep)` gives at least one part, none holding the separator |
| Text.JoinSplit | backend/app/models/service_account.py:84 | joining the parts of a split gives back the string |
| Text.SplitJoin | backend/app/models/service_account.py:84 | splitting parts joined by a separator they lack gives back the parts |
| Json.Update | backend/app/api/endpoints/system_notifications.py:61-74 | `dict.update`: the keys are those of both dicts; the overriding values win, every other value is kept |
| Json.SetDefault | backend/app/services/subscriptions/manager.py:56-61 | `dict.setdefault`: an existing key keeps its value, a missing one gets the default; other keys are untouched |
| Sorting.SortBy | backend/app/services/poster_service.py:223-226 | `ORDER BY`: sorted by the key and a permutation of the input |
| Tables.Reverse | backend/app/services/favorite_service.py:58-73 | newest first over a table kept in creation order: the rows in reverse order |

## Left out

- Database, Redis, Celery and logging plumbing: every table is a sequence in creation order that is passed in and returned, and a cache is a map. Failures of the database or of Redis, which the routes turn into 500 answers, are not modelled apart from the commit outcomes named in the contracts.
- Clocks, randomness, argon2/bcrypt hashing, JWT encoding and decoding, SHA-256, `quote_plus`, pytz and PIL image decoding are foreign code. They appear as parameters: the current time, a draw, a hash function, the decoded claims, a digest, a UTC offset or what PIL makes of an upload (`Posters.Decoding`).
- The long-polling sleep loop of backend/app/api/routes/messages.py:177-191 becomes one check plus a timeout outcome. `asyncio.gather` in backend/app/tasks/subscriptions.py becomes a list of per-user results. The WebSocket endpoint loop and the actual socket writes are not modelled: a send is an input that succeeds or fails.
- Delivering a service message over the WebSocket in backend/app/services/service_accounts.py is not modelled. Only the frame that would be sent is built.
- Floating-point ratios are not modelled: `read_rate` in the system-notification statistics, the activation rate of the statistics service and the poster resize ratio.
- The `by_creator` and `by_date` breakdowns of the system-notification statistics are not modelled, and neither is `log_admin_action` in backend/app/api/endpoints/users.py:25-35. Both only write or read audit data.
- The block, unblock and list routes of backend/app/api/routes/blocks.py:39-164 are not modelled. They call `UserService` methods that backend/app/services/user_service.py does not define. The service-level operations they stand for are modelled in `Blocking`.
- The remaining operations of backend/app/services/user_settings_service.py are not modelled: profile and settings updates, password change, terms, message export and statistics, and the subscription listing. They are outside the blocking and subscription-setting logic this model covers.
- These routes of backend/app/api/endpoints/users.py are left out: logout (token blacklisting with a TTL), profile, online status, the trivial `/me` read and administrator statistics. The last one delegates to the statistics service.
- `UserService.get_user_by_username` and `get_user_by_bipupu_id` (backend/app/services/user_service.py:59-67) are plain lookups. They are modelled only through `UserService.UserById` and the lookups of the route modules.
- Field drift: the routes use the field names of their own files, and the model follows each file. The drift, none of which the model reconciles:
  - backend/app/api/endpoints/users.py imports `UserResponse` and `UserProfile` and reads `email` from its request bodies. backend/app/schemas/user.py declares none of them; the user model does have `email` (backend/app/models/user.py:12).
  - The user model (backend/app/models/user.py:11-25) has no `bipupu_id` and no `update_last_active`. `UserService.UpdateLastActive` models what the code evidently means.
  - The user model's password column is `hashed_password` (backend/app/models/user.py:18). backend/app/api/routes/public.py:70, backend/app/api/routes/public.py:125 and backend/app/core/security.py:54 use `password_hash`. The model has one password-hash field per module.
  - The message model (backend/app/models/message.py:25-42) has `msg_type` and none of `message_type`, `title`, `status`, `is_read` or `sender_id`. Those names are passed or queried by backend/app/services/message_service.py, backend/app/services/subscriptions/manager.py, backend/app/api/endpoints/system_notifications.py, backend/app/api/routes/messages.py and backend/app/services/service_accounts.py:41. The model gives each module's message record the fields that module uses.
  - The user model has none of the profile columns of `UserUpdate` other than `nickname` (backend/app/schemas/user.py:44-72: birthday, zodiac, age, bazi, gender, mbti, birth time and birthplace). The `setattr` loop of backend/app/services/user_service.py:75-76 would not persist them. `UserService.UpdateUser` stores them as if it did.
  - backend/app/schemas/subscription.py does not declare `SubscribeRequest`, `SubscribeResponse` or `MySubscriptionItem`, which backend/app/api/routes/client/subscriptions.py:12-19 imports. `ClientSubscriptions` models those bodies with the fields the routes read.
- Python's `\d` also matches non-ASCII digits, and `int()` also accepts surrounding whitespace, a sign and underscores. The model accepts ASCII digit strings only, so other texts are refused where Python might accept them.
- A JSON `null` in an update body is not told apart from an omitted field. Only fields that were set count as updates (`exclude_unset`).
- SQL `ILIKE` wildcards (`%` and `_`) inside a search keyword are treated as literal characters. Case folding covers ASCII letters only.
- When rows are not ordered by a unique key, the database's order is unspecified. The model picks table order. This affects the friend list, a type's subscribers, ties in the popular-types list, the recipients of a notification sent to listed users (the `in_` query returns them in database order; the model uses user-table order), and ties in `created_at` wherever a listing is ordered by that time alone.
- The birthday `date` field of the cosmic profile is carried as an opaque value. Date validity is not modelled.
- `update_subscription_settings` called with a `time` object, not a string, is not modelled. Every caller in the core passes "HH:MM" text.
- bcrypt's 72-byte limit is modelled as 72 characters, as `password[:72]` counts characters. Multi-byte characters are not modelled.
- PushTasks.SelectDue: each zone has one fixed UTC offset, given as a parameter. pytz's daylight-saving changes within a zone are not modelled.
- Text.UpperString: models `str.upper()` on ASCII letters only. Python also upper-cases other letters, some into several characters (`"ß".upper()` is `"SS"`), so the length-keeping promise holds only for ASCII text; the same applies to UserSchemas.ValidateMbti.
- The backend's startup code (`main.py`) is not part of this model. It imports `request_validation_exception_handler` from `core/exceptions.py`, which defines no such name, so the application as shown would fail at import; the handler's answers are therefore not modelled.
- Security.CurrentUserOptional: the refusal of a request without bearer credentials is modelled as FastAPI's long-standing 403 "Not authenticated". Recent FastAPI releases answer 401 instead, and the FastAPI version is not part of this model.
- Blocking.SearchBlockedUsers: does not state the newest-first order of the results, only their membership, the bound and completeness.
- AdminSubscriptions.Subscribers: states membership and the size bound, not which page of the subscribers is returned.
- MessageService.ReceivedMessages: states membership, the size bound and the total, not the newest-first order or the offset.
- MessageService.SentMessages: states membership, the size bound and the total, not the newest-first order or the offset.
- MessageRoutes.GetFavorites: states membership, the size bound and the total, not the order.
- Contacts.GetContacts: states membership, the size bound and the total, not the order.
- ClientSubscriptions.Available: states the total and the size bound, not the order of the page.
- SubscriptionManagement.ListTypes: states the total and the size bound, not the order of the page.
- AdminSubscriptions.ListTypes: states the total and the size bound, not the order of the page.
- UserService.SearchUsers: states membership and the size bound, not the offset.
- UserEndpoints.AdminAllUsers: states membership, the size bound and the count, not the offset.

## Findings

| source | as written | input that shows it | evidently intended | confidence | as-written member | corrected member |
|---|---|---|---|---|---|---|
| backend/app/services/message_service.py:39 | the rate-limit window is computed with `datetime.now(datetime.timezone.utc)` on the imported `datetime` class, which has no `timezone` attribute, so every send raises before the message is stored | any send, for example a first message from a user with no recent messages | count the sender's messages of the last minute and refuse a send only when the limit is reached | not executed | MessageService.SendMessageAsWritten, MessageService.AsWrittenRefusesAdmissibleSends | MessageService.SendMessage |
| backend/app/api/routes/messages.py:84-86 | the route reads `message_data.message_type.value`, but backend/app/schemas/message.py:21 declares `message_type` as `str`; it also passes a `waveform` column; the error is caught and turned into 500 "消息发送失败" | any send of non-empty content to an existing active receiver | store the message with its type text and return it | not executed | MessageRoutes.SendMessageAsWritten, MessageRoutes.AsWrittenSendAlwaysFails | MessageRoutes.SendMessage |
| backend/app/core/config.py:129-134 | the `empty_str_to_none` validator turns an empty `ADMIN_USERNAME`, `ADMIN_PASSWORD` or `ADMIN_EMAIL` into None for a field typed `str`, so the settings cannot be built | `ADMIN_PASSWORD=""` in the environment | an empty administrator setting is treated as absent and start-up continues | not executed | Config.AdminFieldAsWritten, Config.EmptyAdminFieldRejected | Config.AdminField |
