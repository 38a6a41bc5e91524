# Web chat application — a verified model of its core

This project models the core of a small realtime chat application in Dafny:

- an Express/Socket.io server;
- a MongoDB users collection that holds each user's friends and friend requests;
- a messages collection;
- a browser client that keeps its conversations in memory.

The model covers four parts of that core:

- **Server socket handlers** (`server.dfy`, module `Server`). `Connection` is one connected socket. It has the name it joined with and the `onlineUsers` map created inside the `connection` callback. Each handler returns the events it emits, each tagged with its audience: the caller, the other sockets, every socket, or one socket by id. The socket list a handler searches is a parameter. Database failures in `sendPrivateMessage` are a `Fault` parameter.
- **REST routes** (`auth_routes.dfy` and `message_routes.dfy`, modules `AuthRoutes` and `MessageRoutes`):
  - registration with its duplicate-email check;
  - sending, accepting and listing friend requests;
  - the session guard;
  - the history a user may read;
  - posting a message over HTTP.

  The collections are the classes of `store.dfy`, module `Store`. `Store.Consistent` is the invariant the friend routes keep on the users collection when each request runs to completion before the next one starts (see "## Left out"):
  - ids and e-mails are unique;
  - a user holds at most one request per sender;
  - friends lists have no duplicates, name existing users, and are symmetric.
- **Client state** (`chat_client.dfy`, `chat_roster.dfy` and `chat_format.dfy`, modules `ChatClient`, `Roster` and `ChatFormat`). `ChatClient.ChatState` holds the client's state:
  - the `chatMessages` buckets, keyed `global` and `private_<name>`, with their key order;
  - the `onlineUsers` list;
  - `addedUsers`;
  - `pendingRequests`;
  - the active chat.

  Its methods are the socket-event handlers and user actions that change that state. Other parts of the client are modelled separately:
  - the emoticon formatter;
  - the sidebar comparator;
  - the `tempId` bookkeeping for optimistic private messages.
- **Shared helpers** (`seqs.dfy`, `strings.dfy` and `common.dfy`):
  - `find`/`findIndex`;
  - `filter`;
  - a stable sort;
  - global literal replacement;
  - JavaScript `trim`;
  - string ordering;
  - the display of `undefined`.

Four points where the code decides behaviour that a description of the system might state differently. The model follows the code.

- A global `sendMessage` is relayed to every socket and never stored.
- Each connection has its own `onlineUsers` map, and only `join` on that connection writes to it. So `Server.Connection.Valid` holds: every value in the map is the connection's own socket id. As a result, the live copy of a private message can only go back to the sender's own socket (stated by `Server.Connection.SendPrivateMessage`).
- The client registers no handler for the server's `message` event; it handles only `privateMessage`, `messageSent`, `messageError`, `friendRequestAccepted`, `userJoined`, `userLeft` and `friendRequest`. So global broadcasts and the server's System notices are never stored on the client.
- Nothing refuses a friend request to oneself. Nothing requires friendship before a private message. A private POST without a recipient is saved with none.

## Model

| member | source | states |
|---|---|---|
| Store.FindUser | routes/auth.js:12 | `findOne` returns the first document matching the filter, or none exactly when no document matches |
| Store.MessageLog.Save | routes/messages.js:67-68 | saving appends exactly the given document to the messages collection |
| AuthRoutes.PendingIndex | routes/auth.js:188-190 | finds the first pending request whose sender is the given id, and reports none only when no such pending request exists |
| AuthRoutes.AddFriend | routes/auth.js:199-205 | an id already present leaves the list as it was; otherwise it is appended after every earlier friend; a duplicate-free list stays duplicate-free |
| AuthRoutes.Register | routes/auth.js:7-37 | an e-mail already registered answers 400 "User already exists" and changes nothing; otherwise exactly one user is appended with no friends or requests, and the answer is 201 with the new user's id and name, which become the session |
| AuthRoutes.SendFriendRequest | routes/auth.js:138-171 | no session → 401; unknown target → 404; a request (any status) already present from this sender → 400; otherwise the target, and only the target, gets one pending request from the sender and the answer is 200 |
| AuthRoutes.AcceptFriendRequest | routes/auth.js:174-212 | 401 without a session; 404 for an unknown requester; 500 when the session user is gone; 404 when no pending request from the requester exists; otherwise the request is marked accepted and each becomes the other's friend, with no other user changed |
| AuthRoutes.ListFriendRequests | routes/auth.js:220-236 | answers 401 without a session and 500 for a missing user; otherwise the body is exactly the user's pending requests, in stored order and with their multiplicity (`PendingOnly`) |
| AuthRoutes.RegisterKeepsConsistent | routes/auth.js:12-24 | registration keeps the users collection consistent |
| AuthRoutes.WithRequestKeepsConsistent | routes/auth.js:149-164 | a request accepted by the duplicate check keeps the collection consistent, in particular one request per sender |
| AuthRoutes.AcceptKeepsConsistent | routes/auth.js:196-205 | accepting a pending request keeps the collection consistent, including symmetric friendship |
| AuthRoutes.AcceptShape | routes/auth.js:196-205 | acceptance keeps every user's id, e-mail and request senders; friends lists change only by the two new mutual entries |
| AuthRoutes.GrownKeepsConsistent | routes/auth.js:199-205 | adding a friendship in both directions between existing users keeps the collection consistent |
| AuthRoutes.DistinctAfterAdds | routes/auth.js:200-205 | friends lists stay duplicate-free after the two additions |
| AuthRoutes.SendThenSendRefused | routes/auth.js:149-156 | after a successful request the target holds one from that sender, so the duplicate check refuses a second send with 400 |
| AuthRoutes.SendAppendsPending | routes/auth.js:158-162 | after a request, the target's pending list is the old pending list followed by the new request |
| AuthRoutes.AcceptMakesFriends | routes/auth.js:199-205 | after acceptance each is in the other's friends list, and neither list names anyone twice |
| AuthRoutes.AcceptClearsPending | routes/auth.js:196-197 | after acceptance the pending list is the old one with exactly the accepted request removed, order kept |
| AuthRoutes.MarkAcceptedLeavesPending | routes/auth.js:197 | marking the k-th request accepted drops it, and only it, from the pending list |
| AuthRoutes.AcceptTwiceFails | routes/auth.js:187-194 | once a request is accepted no pending request from that sender is left, so accepting again answers 404 "Friend request not found" |
| MessageRoutes.ByTimeIsPreorder | routes/messages.js:34 | ordering by timestamp is a total preorder |
| MessageRoutes.History | routes/messages.js:20-34 | the history is sorted by ascending timestamp and is a permutation of the stored messages visible to the user |
| MessageRoutes.HistoryVisibility | routes/messages.js:20-31 | a message is in a user's history exactly when it is stored and is either global or sent by or to that user |
| MessageRoutes.GetHistory | routes/messages.js:7-41 | 401 exactly when there is no session user; otherwise 200 with a time-sorted list holding every visible stored message and nothing else |
| MessageRoutes.PrivateFlag | routes/messages.js:52 | a message is private exactly when the body says `isPrivate: true`; a missing flag means global |
| MessageRoutes.PostMessage | routes/messages.js:44-77 | 401 without a session, and nothing saved; 400 when a named recipient of a private message is unknown, and nothing saved; otherwise exactly one message is saved with the session user as sender, the body's text and flag, and a recipient only when the message is private and names an existing user; the answer is 201 |
| Server.FindPeer | server.js:177-178 | finds the first connected socket joined under the name, or none exactly when no socket has that name |
| Server.LiveDelivery | server.js:133-145 | at most one live copy, sent exactly when the connection's own map knows the recipient under a non-empty socket id that is still connected |
| Server.Connection.constructor | server.js:49-53 | a new connection has no name and an empty `onlineUsers` map |
| Server.Connection.Join | server.js:55-69 | the socket takes the name, the map records it under this socket's id, and only the other sockets hear `userJoined` and the system notice |
| Server.Connection.Disconnect | server.js:272-287 | a socket that joined with a non-empty name leaves the map and is announced to the others only; any other socket changes nothing and emits nothing |
| Server.Connection.SendMessage | server.js:71-77 | a global message goes to every socket, the sender included, under the sender's joined name with the server's time |
| Server.Connection.SendPrivateMessage | server.js:80-170 | unknown recipient or sender, or any database failure, answers the caller with one `messageError` carrying its `tempId`; nothing is saved unless the sender and recipient were found and the save ran; on success one message is saved, the caller gets its echo and a `messageSent` "delivered" with the `tempId` last, and nothing but the live copy leaves the caller — and that copy can only go to this connection's own socket |
| Server.Connection.SendFriendRequest | server.js:173-193 | nothing is emitted exactly when no socket joined under the target name; otherwise the first such socket is notified and the caller is told the request was sent |
| Server.Connection.AcceptFriendRequest | server.js:196-229 | `newFriendship` naming both users goes to every socket last in every case; the requester hears of the acceptance exactly when connected, and both sides then get a system message |
| Server.Connection.RejectFriendRequest | server.js:232-246 | only the requester's socket hears of a rejection, and nothing is emitted when the requester is not connected |
| Server.Connection.AddUser | server.js:249-270 | the other sockets always hear who was added, last; the added user's first socket is told first exactly when connected; nothing else is emitted |
| Strings.ReplaceAllAbsent | public/js/chat.js:37-40 | replacing a pattern that does not occur leaves the text unchanged |
| Strings.ReplaceAllRemoves | public/js/chat.js:37-40 | after a global replacement no occurrence of the pattern is left, when the replacement shares no character with the pattern |
| Strings.ReplaceAllNoNewOccurrence | public/js/chat.js:37-40 | a global replacement whose replacement shares no character with another key creates no new occurrence of that key |
| Strings.TrimEmptyIff | public/js/chat.js:638 | `trim()` gives the empty string exactly when the text is all whitespace |
| Strings.TrimIsInnerSlice | public/js/chat.js:679 | the trimmed text is a contiguous slice of the input with whitespace only around it |
| Strings.TrimIdempotent | public/js/chat.js:679-683 | trimming already trimmed text changes nothing, so the private path's second check sees the same text |
| Strings.StrLeqTotal | public/js/chat.js:96 | any two names are ordered one way or the other |
| Strings.StrLeqTrans | public/js/chat.js:96 | the name order is transitive |
| Strings.StrLeqAntisym | public/js/chat.js:96 | names ordered both ways are equal |
| Strings.StrCompare | public/js/chat.js:96 | the comparison is zero exactly for equal names and non-positive exactly when the first name sorts first |
| ChatFormat.FormatMessageText | public/js/chat.js:16-43 | the formatted text is the input with every emoticon of the table replaced, entry after entry in table order |
| ChatFormat.NoEmoticonUnchanged | public/js/chat.js:35-42 | text with no emoticon in it is shown exactly as written |
| ChatFormat.TableSeparated | public/js/chat.js:18-33 | every key is non-empty ASCII and every emoji is non-empty and non-ASCII |
| ChatFormat.ApplyAllRemovesKeys | public/js/chat.js:36-41 | after the table is applied no key of the table occurs in the text |
| ChatFormat.FormattedHasNoEmoticon | public/js/chat.js:16-43 | no emoticon of the table survives formatting |
| Roster.Compare | public/js/chat.js:90-97 | the current user sorts before everyone; other users compare by name, equal exactly for equal names |
| Roster.RosterLeqIsPreorder | public/js/chat.js:90-97 | the comparator is a total preorder, so the sort is well defined |
| Roster.SortedRoster | public/js/chat.js:90-97 | the sorted list is a permutation of the users, with the current user's entries first and the others in ascending name order |
| Roster.CurrentUserFirst | public/js/chat.js:91-92 | when the current user is listed, the list starts with them |
| Roster.AddIfAbsent | public/js/chat.js:484-492 | a listed name leaves the list unchanged; an unlisted one is appended; names stay unique |
| Roster.RemoveName | public/js/chat.js:495-500 | exactly the given name is unlisted, names stay unique, and an unlisted name changes nothing |
| Roster.RemoveNameKeepsOthers | public/js/chat.js:495-500 | the result is the roster filtered by name: every other entry is kept unchanged and in its order |
| ChatClient.PrivateKey | public/js/chat.js:364 | no conversation bucket is the global bucket |
| ChatClient.PrivateKeyInjective | public/js/chat.js:364 | two names share a bucket exactly when they are equal |
| ChatClient.OwnEchoFiledApart | public/js/chat.js:360-368 | the server's echo of one's own private message, named after the sender, lands in a different bucket from the conversation with the recipient |
| ChatClient.EnsureKey | public/js/chat.js:143-145 | creating a bucket adds that key only and changes no bucket's contents |
| ChatClient.Push | public/js/chat.js:365-368 | pushing appends the item to its bucket, creating it if needed, and leaves every other bucket as it was |
| ChatClient.BucketKeyCases | public/js/chat.js:317-333 | a private message with a recipient goes to the conversation with the other party; anything else goes to the global bucket |
| ChatClient.FileAllBuckets | public/js/chat.js:311-334 | after loading, each bucket is its old contents followed by exactly the loaded messages that belong to it, in load order |
| ChatClient.FileAllWellFormed | public/js/chat.js:311-334 | loading keeps the bucket keys consistent and drops no bucket |
| ChatClient.LoadedMessageFiled | public/js/chat.js:317-333 | every loaded message appears among the items of the bucket it belongs to |
| ChatClient.AddSendersListed | public/js/chat.js:303-309 | after loading, the roster lists exactly the earlier names plus every sender other than System |
| ChatClient.AddSendersUnique | public/js/chat.js:303-309 | adding the senders keeps every name in the roster at most once |
| ChatClient.FileHistory | public/js/chat.js:300-334 | the loop over the loaded messages yields exactly the filed buckets and the roster with the senders added |
| ChatClient.TempIndex | public/js/chat.js:413 | finds the first item carrying the `tempId`, or none exactly when no item carries it |
| ChatClient.MarkDelivered | public/js/chat.js:411-419 | the bucket keys and every bucket's length stay the same; with no item carrying the `tempId` nothing changes |
| ChatClient.MarkDeliveredChangesOne | public/js/chat.js:411-419 | an item that changes carries the `tempId`, is the first such item in its bucket, becomes delivered and not pending, and is the only item that changes |
| ChatClient.MarkDeliveredMarksFirstHolder | public/js/chat.js:411-419 | in the first bucket, in key order, that holds the `tempId`, the first item carrying it becomes delivered and not pending |
| ChatClient.DeliverTemp | public/js/chat.js:411-419 | the search over the buckets in key order, stopping at the first one that holds the `tempId`, computes exactly `MarkDelivered` |
| ChatClient.FirstHolder | public/js/chat.js:411-418 | the bucket search stops at the first bucket that holds the `tempId` |
| ChatClient.MarkError | public/js/chat.js:439-458 | only the open conversation's first item with the `tempId` is flagged as failed; other buckets are unchanged |
| ChatClient.WithoutMembers | public/js/chat.js:571 | filtering keeps exactly the pending entries from other senders |
| ChatClient.WithoutKeepsOnePerSender | public/js/chat.js:571 | filtering keeps at most one pending entry per sender |
| ChatClient.ChatState.constructor | public/js/chat.js:45-83 | at start-up the user is listed as the current user and counts as added; only the global bucket exists and the global chat is open |
| ChatClient.ChatState.LoadMessages | public/js/chat.js:267-355 | a failed load changes nothing, because the `catch` block throws at line 346 before storing its notice; an empty history adds the welcome notice; otherwise each message is filed in its bucket and its sender is listed; the state invariant is kept |
| ChatClient.ChatState.LoadMessagesIntended | public/js/chat.js:342-354 | as `LoadMessages`, except that a failed load appends the failure notice to the global bucket |
| ChatClient.ChatState.LoadHistory | public/js/chat.js:286-335 | after a successful request, an empty history adds the welcome notice; any other is filed and its senders listed |
| ChatClient.FailedFirstLoad | public/js/chat.js:267-355 | after start-up, a failed load leaves the global conversation empty |
| ChatClient.FailedFirstLoadIntended | public/js/chat.js:342-354 | after start-up, the intended failed load leaves exactly the failure notice in the global conversation |
| ChatClient.ChatState.OnPrivateMessage | public/js/chat.js:360-368 | the received message is appended to the bucket named after the name it carries |
| ChatClient.ChatState.OnMessageSent | public/js/chat.js:396-421 | a confirmation without a `tempId` changes nothing; otherwise the buckets become `MarkDelivered` of the old buckets |
| ChatClient.ChatState.OnMessageError | public/js/chat.js:424-460 | the item is flagged only when a `tempId` comes back while a private chat is open; nothing else changes |
| ChatClient.ChatState.OnFriendRequestAccepted | public/js/chat.js:463-481 | the accepter ends up added, and is listed if they were not added before |
| ChatClient.ChatState.OnUserJoined | public/js/chat.js:484-492 | the joining user ends up listed once |
| ChatClient.ChatState.OnUserLeft | public/js/chat.js:495-500 | the leaving user is unlisted; no one else is |
| ChatClient.ChatState.OnFriendRequest | public/js/chat.js:550-565 | a sender already pending is not added again, a new sender is appended, and a system notice is always posted |
| ChatClient.ChatState.AcceptFriendRequest | public/js/chat.js:568-585 | the server is told; every pending entry from that user is dropped; the user is added and, if not added before, listed |
| ChatClient.ChatState.RejectFriendRequest | public/js/chat.js:588-593 | the server is told; every pending entry from that user is dropped; nothing else changes |
| ChatClient.ChatState.SendPrivateMessage | public/js/chat.js:637-675 | blank text sends and stores nothing; other text is stored as a pending copy in the recipient's bucket and sent with its `tempId` |
| ChatClient.ChatState.SendMessage | public/js/chat.js:678-694 | blank input sends nothing; trimmed input goes to the open private chat (stored as pending), or to the global chat without being stored |
| ChatClient.ChatState.StartPrivateChat | public/js/chat.js:130-145 | the conversation becomes active and its bucket exists; reopening the active chat changes nothing |
| ChatClient.ChatState.SwitchToGlobalChat | public/js/chat.js:182-188 | the global chat becomes active; the stored state is unchanged |

## Findings

| source | as written | input that shows it | evidently intended | confidence | as-written member | corrected member |
|---|---|---|---|---|---|---|
| public/js/chat.js:346 | the `catch` block of `loadMessages` calls `removeChild(loadingMsg)`, but `loadingMsg` is a `const` of the `try` block (line 270) and is out of scope; the ReferenceError skips the push of the failure notice (lines 347-353) | a history request that answers a non-OK status, e.g. 401, so line 283 throws | the failure notice is stored in the global conversation | high; not executed | ChatClient.FailedFirstLoad | ChatClient.FailedFirstLoadIntended |

## Left out

- Each route and socket handler is modelled as one atomic step that runs to completion; the interleaving of concurrent requests at their `await`s is not modelled. Two consequences the model therefore does not show: two overlapping friend requests from the same sender can both pass the duplicate check (routes/auth.js:144-156) and leave two requests from one sender, which breaks the one-request-per-sender clause of `Store.Consistent` that `AuthRoutes.AcceptTwiceFails` relies on; and two overlapping registrations with one e-mail can both pass the existence check (routes/auth.js:12-15) and create two users with that e-mail, since the collection's schema, and so any unique index, is not part of this model.
- Login, logout, `/user`, user search and `/friends` are not part of this model. Neither are password hashing, JWT, the static routes or `public/js/auth.js`. None of them belongs to the messaging and friend-request core.
- The DOM, `fetch`, `localStorage`, rendering, the Socket.io transport and Mongoose `populate` are left out. They are I/O; only their effect on the state is modelled.
- Clock readings, database-assigned ids and random `tempId`s are parameters (`now`, `newId`, `tempId`). Each handler's several `new Date()` calls read the same `now`.
- Server.Connection.SendPrivateMessage: a thrown database call is the `Fault` parameter, not a modelled exception. A populate failure after the save leaves the message saved and still answers with an error.
- Server.Connection.SendPrivateMessage: a sender that never joined is treated as not found. The Mongoose behaviour of a `findOne` whose filter value is `undefined` is not modelled.
- Server.Connection.Join: a `join` without a name is not modelled; the name is always a string.
- The 500 answers that come from a thrown database call are not modelled. The exceptions are the accept route's missing session user and the list route's missing user.
- AuthRoutes.AcceptFriendRequest: when a user accepts their own request, the two separately loaded copies of one document are saved concurrently. The model applies both updates in turn and does not model how Mongo merges the writes.
- MessageRoutes.History: ties between equal timestamps keep stored order. Mongo's order for ties is not specified.
- ChatClient.ChatState.LoadMessages: the uncaught ReferenceError of a failed load rejects the returned promise; the model records only that the state is unchanged.
- ChatClient.ChatState.LoadMessages: history documents whose sender was deleted are not modelled. In the code, populate gives `null` for them and the loop would throw.
- The client's message objects do not carry the database `id`. Payload fields that may be `undefined` are modelled only for the `privateMessage` username, which becomes `private_undefined`.
- ChatClient.ChatState.OnMessageError: the error notice is only displayed, so the model does not store it.
- Roster.Compare: `localeCompare` is replaced by code-point order. Locale collation is outside what can be stated here.
