# CollegeBuddy core, modelled in Dafny

CollegeBuddy is a campus chat application. An Express/socket.io server lets
students of the same college find each other, open one-to-one chats,
exchange messages in real time and keep a list of notifications. This project
models the core of that server and of its browser client:

- **Real-time server** (`app.js`, module `Realtime`). The `onlineUsers`
  registry maps a user id to the set of its socket ids. Its `register` and
  `disconnect` handlers are modelled, together with the `sendMessage` handler.
  That handler stores a message, points the chat's `latestMessage` at it and
  emits it to the chat room, leaving out the sending socket. Presence and the
  persisted state are given by pure functions (`Registered`, `Disconnected`,
  `Sent`). The class `SocketServer` holds the same state in fields, and each
  handler method is proved to follow its function.
- **Notification routes** (`routes/notifications.js`, module `Notifications`):
  - the caller's list: newest first, at most 50;
  - mark one notification read;
  - mark a chat's notifications read, which answers 400 without a `chatId`;
  - mark all read.

  The class `NotificationStore` holds the collection, and its update methods
  are proved against the function `Marked`.
- **Chat routes** (`routes/chat.js`, module `Chats`):
  - the dashboard user list and its `filter` parameter;
  - find-or-create of the private chat of two users, as the function
    `OpenPrivate` and the class `ChatStore`;
  - the chat window, with its membership check and its history of at most 100
    messages, oldest first.
- **Browser client rules** (`public/js/ui.js`, module `Ui`):
  - the notification badge counter (`updateNotifBadge`) as the class
    `NotifBadge`, and its callers: the fetched unread count, the
    `notification` event, clearing a chat and mark-all-read;
  - the search and filter-pill URLs;
  - the client-side check of a picked image.
- **Supporting modules.** `Models` holds the shapes of the stored records
  (`models/*.js`). `Query` holds the generic find/sort/limit of the database
  queries. `JsText` writes out the JavaScript built-ins the client relies on:
  `parseInt(s, 10)`, `String(n)`, `trim`, `startsWith` and
  `encodeURIComponent`.

Database identifiers (`ObjectId`s) of chats and messages are modelled as
positions in their collection: a chat's or message's id is its index.
Notification ids are natural numbers that are unique in their collection but
are not positions. A user id is a string, and
the empty string stands for every falsy JavaScript value.

The model follows the code as written, including behaviour that looks
unintended:

- **Stale sockets.** A socket that registers as one user and then as another
  stays in the first user's set after it disconnects. `disconnect` only
  removes the socket from the set of its last user id. See
  `Realtime.StaleEntryAfterReRegister`.
- **Badge deltas.** `updateNotifBadge` treats every number as a delta.
  - Each fetched unread count is added to the badge rather than replacing it.
  - `markAllNotificationsRead` calls `updateNotifBadge(0)`, which leaves the
    count as it was instead of clearing it.

  See `Ui.UnreadCountAddedTwice`, `Ui.ZeroDeltaKeepsCount` and
  `Ui.NotifBadge.MarkAllNotificationsRead`.
- **Oldest messages.** The chat window loads the *oldest* 100 messages of a
  chat, because of `sort('createdAt').limit(100)`. See `Chats.History`.
- **Filter defaults.** The dashboard's filter defaults to `all` on the server
  (`routes/chat.js:13`) but to `college` in the client's URLs
  (`public/js/ui.js:38`, `:50`).

The browser client sends more than the server reads. Both image-send paths
emit `sendMessage` with `{chatId, imageUrl, type: 'image'}` and an
acknowledgement callback (`public/js/ui.js:131-141`,
`public/js/chat.js:32-36`). The `sendMessage` handler (`app.js:83-102`)
destructures only `{chatId, text}`. It returns silently for an unregistered
socket, never calls the callback and creates no notification. An image send
therefore creates a message without text, unless the Message schema (not
part of this model) rejects it; the image URL is dropped either way. A
rejected create is caught and only logged (`app.js:99-101`); the model leaves
both outcomes open through `Fault.CreateFails`. The
model follows the server code: `Realtime.Sent` takes only the chat id and an
optional text.

## Model

| member | source | states |
|---|---|---|
| Realtime.Registered | app.js:69-76 | register adds exactly the pair (user, socket) to the registry, creating the user's entry when missing, stamps the socket's user id, and keeps the registry valid |
| Realtime.Disconnected | app.js:104-113 | disconnect removes only the pair (socket.userId, socket), and only when the id is truthy and has an entry; it deletes an entry whose set became empty, never changes socket.userId, and keeps the registry valid |
| Realtime.RegisterIdempotent | app.js:69-76 | registering the same socket for the same user again changes nothing |
| Realtime.LastSocketTakesUserOffline | app.js:106-110 | a user with another tracked socket stays online after one socket disconnects; disconnecting the only socket removes the user's entry |
| Realtime.StaleEntryAfterReRegister | app.js:71-74 | a socket registered as u1 and then as u2 stays listed under u1 after disconnecting, so u1 still looks online |
| Realtime.ReplayKeepsPresenceValid | app.js:63 | any sequence of register and disconnect events keeps the registry free of empty socket sets |
| Realtime.Sent | app.js:83-102 | a socket without a user id changes nothing; otherwise the message is appended with its chat, sender, text and time; a failed create or chat update leaves every chat as it was, while a failed populate has already moved the chat's latestMessage; an emit happens only after the message exists and the chat points to it, goes to the chat's room without the sending socket, and carries the sender's name |
| Realtime.RegisteredSocketDelivers | app.js:69-97 | after a socket registers under a truthy id, a send from it without faults stores one message from that user and emits it to the room, leaving out that socket |
| Realtime.SocketServer.constructor | app.js:63 | the registry starts empty and the database is as given, with message and chat ids equal to their positions; every handler keeps those ids so |
| Realtime.SocketServer.Register | app.js:69-76 | the register handler on the server's fields follows Registered and leaves the database alone |
| Realtime.SocketServer.Disconnect | app.js:104-113 | the disconnect handler on the server's fields follows Disconnected and leaves the database alone |
| Realtime.SocketServer.SendMessage | app.js:83-102 | the sendMessage handler on the server's fields follows Sent, leaves presence alone and reports whether the room emit happened |
| Notifications.Mine | routes/notifications.js:8 | the find filter keeps exactly the caller's records |
| Notifications.ListFor | routes/notifications.js:6-10 | the list holds only the caller's records, newest first, min(count, 50) of them, and no omitted record of the caller is newer than a listed one |
| Query.Top | routes/notifications.js:8 | sort then limit gives a sorted sub-multiset of the input of size min(n, length) whose cut-off elements do not sort before a kept one |
| Notifications.Selects | routes/notifications.js:14-29 | every update filter matches only the caller's records, and the chat and all-read filters match only unread ones |
| Notifications.Marked | routes/notifications.js:14 | setting read on every matched record keeps order, size and all other fields; a record ends up read iff it was read or is matched; other users' records are untouched |
| Notifications.MarkedIdempotent | routes/notifications.js:23 | repeating any read update changes nothing |
| Notifications.MarkAllLeavesNothingUnread | routes/notifications.js:27-31 | after mark-all-read the caller has no unread notification |
| Notifications.MarkOneForeignIdNoChange | routes/notifications.js:14 | marking an id that is not one of the caller's notifications changes nothing |
| Notifications.MarkChatChangesExactly | routes/notifications.js:23 | mark-chat-read changes a record iff it is the caller's, unread and of that chat |
| Notifications.NotificationStore.constructor | routes/notifications.js:4 | the store starts with the given records, whose ids are unique |
| Notifications.NotificationStore.List | routes/notifications.js:6-10 | the list route returns ListFor of the stored records |
| Notifications.NotificationStore.MarkOneRead | routes/notifications.js:12-16 | updateOne scoped to the caller sets read on the first record with that id and answers ok |
| Notifications.NotificationStore.UpdateMany | routes/notifications.js:23 | updateMany sets read on every record the filter matches and nothing else |
| Notifications.NotificationStore.MarkChatRead | routes/notifications.js:18-25 | without a chatId it answers 400 "chatId required" and changes nothing; otherwise it marks the caller's unread records of that chat and answers ok |
| Notifications.NotificationStore.MarkAllRead | routes/notifications.js:27-31 | marks every unread record of the caller and answers ok |
| Chats.FilterOrAll | routes/chat.js:13 | the filter is never empty, and it is `all` exactly when the query parameter is missing, empty or `all`; any other value is used as it is |
| Chats.DashboardUsers | routes/chat.js:10-31 | a user is listed iff they are not the caller and, unless the filter is `all`, they are of the caller's college; with no filter (the default) every user but the caller is listed |
| Chats.CollegeListWithinAll | routes/chat.js:17-21 | the college list is part of the `all` list |
| Chats.IsPairChat | routes/chat.js:40-43 | a chat matching the pair filter is private with two members, and for two different users those members are the pair in one order or the other |
| Chats.IsPairChatSymmetric | routes/chat.js:40-43 | the find filter does not depend on the order of the two ids |
| Chats.IsPairChatMeansMembers | routes/chat.js:40-43 | for two different users the filter matches exactly a private chat whose members are those two, in either order |
| Chats.FindPair | routes/chat.js:40-43 | findOne gives the first chat matching the pair filter, or none when no chat matches |
| Chats.FindPairSymmetric | routes/chat.js:40-43 | findOne finds the same chat whichever way round the pair is given |
| Chats.OpenPrivate | routes/chat.js:34-50 | the same user on both sides goes to the dashboard and creates nothing; otherwise the route lands on a chat of the pair, appending the chat [me, other] iff no chat of the pair exists |
| Chats.OpenPrivateStable | routes/chat.js:40-47 | once find-or-create has run for (a, b), running it again for (a, b) or (b, a) lands on the same chat and creates nothing |
| Chats.ChatStore.constructor | models/Chat.js:3-7 | the chat collection starts empty |
| Chats.ChatStore.OpenPrivateChat | routes/chat.js:34-50 | the route on the stored chats follows OpenPrivate |
| Chats.FindById | routes/chat.js:57 | findById gives a stored chat with that id, or none when no chat has it |
| Chats.OfChat | routes/chat.js:63 | the find filter keeps exactly the messages of the chat |
| Chats.History | routes/chat.js:63 | the history holds only messages of that chat, oldest first, min(count, 100) of them, and no omitted message of the chat is older than a shown one |
| Chats.OpenChat | routes/chat.js:53-66 | the window opens iff the chat exists and the caller is a member, and then shows that chat and its history; otherwise it redirects to the dashboard |
| JsText.Trim | public/js/ui.js:37 | trim gives a slice of the input, cut only at white space, that neither starts nor ends with white space and is empty iff the input is all white space |
| JsText.ParseInt | public/js/ui.js:199 | parseInt is NaN iff no digit follows the leading white space and optional sign |
| JsText.IntToString | public/js/ui.js:202 | String(v) is non-empty and starts with '-' iff v is negative |
| JsText.ParseIntOfIntToString | public/js/ui.js:199-202 | parseInt reads back exactly the integer String wrote |
| JsText.StartsWith | public/js/ui.js:88 | startsWith holds iff the string is the prefix followed by something |
| JsText.EncodeURIComponent | public/js/ui.js:37 | the encoding is empty iff the input is, and consists of unreserved characters, '%' and hex digits |
| JsText.EncodedHasNoSeparator | public/js/ui.js:37-39 | no '&', '=', '?', '#', '/' or space survives the encoding |
| Ui.BadgeValue | public/js/ui.js:199 | the badge text stands for the integer it begins with, and 0 when it begins with none (the empty text included) |
| Ui.NextCount | public/js/ui.js:199-207 | a number moves the count by that delta but never below zero; any other value replaces it by its parsed value, or 0 |
| Ui.BadgeTextRoundTrip | public/js/ui.js:199-202 | the text written for a count is read back as that count by the next update |
| Ui.ZeroDeltaKeepsCount | public/js/ui.js:296 | updateNotifBadge(0) leaves a non-negative count as it was |
| Ui.UnreadCountAddedTwice | public/js/ui.js:273 | passing the same unread count twice from an empty badge shows twice that count |
| Ui.UnreadCount | public/js/ui.js:272 | the unread count is the number of positions of the array whose entry is not read (so 0 iff every entry is read), and 0 for a body that is not an array |
| Ui.NoUnreadListedAfterMarkAll | public/js/ui.js:293-298 | after mark-all-read, the list the caller fetches has an unread count of 0 |
| Ui.NotifBadge.constructor | public/js/ui.js:184-198 | a badge created by updateNotifBadge starts empty and hidden, standing for 0 |
| Ui.NotifBadge.Update | public/js/ui.js:182-209 | the badge's count becomes NextCount of the old count, its text is String of that count, and it is shown iff the count is positive |
| Ui.NotifBadge.FetchNotifications | public/js/ui.js:267-277 | a failed fetch leaves the badge alone; otherwise the unread count is added to the badge as a delta, the text is the new count, and the badge is shown iff it is positive |
| Ui.NotifBadge.OnNotification | public/js/ui.js:248-251 | a notification event applies a delta of one, which adds one to a non-negative count; the text is the new count and the badge is shown iff the new count is positive |
| Ui.NotifBadge.ClearChatNotifications | public/js/ui.js:279-290 | without a chat id, or when the refetch fails, the badge is left alone; otherwise the refetched unread count is added, the text is the new count and the badge is shown iff the new count is positive |
| Ui.NotifBadge.MarkAllNotificationsRead | public/js/ui.js:293-298 | a failed request leaves the badge alone; otherwise a zero delta is applied, which keeps a non-negative count unchanged, the text is the new count and the badge is shown iff it is positive |
| Ui.SearchUrl | public/js/ui.js:37-39 | the search URL begins with the path, and its `q` part is present exactly when the trimmed input is not empty |
| Ui.PillUrl | public/js/ui.js:50-52 | the pill URL is the URL the debounced search builds on /chat for the same filter and search text |
| Ui.SearchUrlParams | public/js/ui.js:37-39 | the search URL splits back into its path and exactly the parameters filter and, for a non-empty trimmed input, q with the encoded text |
| Ui.FilterOrCollege | public/js/ui.js:38 | the client's filter is never empty, and it is `college` exactly when the pill's filter is missing, empty or `college`; any other filter is used as it is |
| Ui.CheckImage | public/js/ui.js:84-89 | no file does nothing; a type not starting with `image/` is refused first; a larger size than 6 MiB is refused next; only a file passing both goes on |

## Left out

- The socket.io transport is not modelled, and neither is `joinChat` (`socket.join`). Room membership and delivery to the room's sockets are left out. A room emit is recorded as a value naming its room and the excluded socket.
- Mongo I/O is modelled as in-memory collections. Chat and message ids are positions; notification ids are unique but are not positions. The cast error raised for an ill-formed ObjectId in a route parameter is not modelled.
- Database failures in the routes are not modelled. The dashboard's catch answers 500 (`routes/chat.js:27-30`). A rejected await in the notification routes and in the chat routes at `routes/chat.js:34-66` leaves the request unanswered. Every query in the model succeeds.
- Creation times are a parameter (`now`), not a clock.
- The schema files are modelled as record shapes only. Timestamps other than `createdAt`, and Mongoose defaults and validation, are left out. The Message schema file is not part of this model.
- `populate` of the actor, sender and members is not modelled. The only exception is the sender's name carried by the room emit.
- Authentication (`ensureAuth`, sessions) is not modelled. The caller's id is a parameter.
- Concurrency and the interleaving of awaited calls are not modelled. Each handler runs to completion on its own.
- The browser-side glue is not modelled: DOM wiring, debounce timers, the theme toggle, toasts, the browser Notification API, image preview and upload, and the profile and `public/js/chat.js` client. A fetch is modelled by its outcome.
- Ui.SearchUrl: when a page has a `#searchForm`, the form is submitted instead of building the URL. This is not modelled.
- Ui.SearchUrlParams: `QueryParams` reads the whole text after `?`. A browser stops the query at `#`, so for a pill filter containing `#` (the filter is put into the URL unencoded) the browser reads back less than the lemma states.
- JsText.ParseInt: exact integers only. The rounding of very long digit runs to JavaScript doubles is not modelled.
- JsText.IntToString: integers only. The exponent forms `String` gives for very large numbers are not modelled.
- JsText.EncodeURIComponent: Dafny strings hold Unicode scalar values, so the `URIError` thrown for a lone surrogate cannot arise.
- Ui.BadgeArg: a non-number argument is given by its string form. The conversion of other JavaScript values to strings is not modelled.
