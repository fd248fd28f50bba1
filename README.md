# ChatBox message lifecycle and presence, in Dafny

This project models the core of the ChatBox MERN chat application. It covers
how a message is created, stored, delivered in real time and marked as read,
and how the browser keeps its copy of the open conversation and its queue of
offline profile updates. MongoDB, socket.io, HTTP and the browser are replaced
by plain state:

- The message collection is a sequence of `Message` records.
- The server's `userSocketMap` is a Dafny `map` inside a `SocketServer`
  object. Every emit is appended to that object's `log`.
- The upload directory is a set of stored names.
- The browser stores (`useChatStore`, `useAuthStore`) and the composer
  (`MessageInput`) are classes whose fields are the store fields. Each request
  they send is appended to a `requests` log. Each reply they receive is a
  parameter: `Success(value)` or `Failure`.
- The clock (`new Date()`) and the browser's online flag are parameters.

Modules, one per source file:

| module | file | models |
|---|---|---|
| `Types` | types.dfy | ids, `Option`, `Result`, `Reply`, profiles, picked files |
| `MessageModel` | message_model.dfy | `backend/src/models/message.model.js` |
| `UploadRoute` | upload_route.dfy | `backend/src/routes/message.route.js` |
| `Download` | download.dfy | the download handler of `backend/src/index.js` |
| `Presence` | presence.dfy | `backend/src/lib/socket.js` |
| `Conversation` | conversation.dfy | the read handlers of `backend/src/controllers/message.controller.js` |
| `MessageService` | message_service.dfy | the write handlers of the same controller |
| `ChatStore` | chat_store.dfy | `frontend/src/store/useChatStore.js` |
| `AuthStore` | auth_store.dfy | `frontend/src/store/useAuthStore.js` |
| `MessageInput` | message_input.dfy | `frontend/src/components/MessageInput.jsx` |

Points where the code behaves in a way that is easy to miss. The model follows
the code in each case:

- The `document` sub-schema declares only `url`, `filename` and `mimetype`.
  The model assumes mongoose 6 or later, where a field declared as
  `type: { … }` is a nested sub-document in the default strict mode. The
  `originalFilename` that the document controller passes in is therefore not
  stored. This is `MessageModel.CastDocument`. Under mongoose 5 the same
  declaration is a `Mixed` field and the name would be kept.
- The browser reads `res.data.originalFilename`, a top-level field that the
  reply never has. It therefore always falls back to the picked file's own
  name (`ChatStore.WithOriginalName`).
- The browser does not deduplicate pushed messages by id. The sender receives
  the REST reply and also the socket echo of the same record. When the reply
  is handled before the echo, the record is listed twice
  (`ChatStore.SenderEchoScenario`). The server emits the echo before it
  replies, so the echo can also arrive first. The reply then overwrites the
  list with the copy read before the request plus the reply, and the record
  is listed once.
- The `disconnect` handler deletes the entry for the handshake user without
  checking which socket it names. A stale socket's close therefore unbinds a
  newer connection of the same user
  (`Presence.StaleDisconnectScenario`).
- `markMessagesAsSeen` pushes `messageSeen` for every listed message, changed
  or not, but only when at least one record changed.
- The text send path never looks up the receiver. The document path does,
  and returns 404. A file stored by the upload middleware stays stored in
  that case.
- The controller repeats the upload filter's eight-type list (lines 126-135).
  The model checks both against the same list, `UploadRoute.AllowedMimeTypes`.
  The browser's copy is `ChatStore.ClientAllowedTypes`, and a lemma proves the
  two lists equal.

## Model

| member | source | states |
|---|---|---|
| MessageModel.CastDocument | backend/src/models/message.model.js:20-27 | a stored document keeps exactly the three declared fields; `originalFilename` is dropped and nothing else changes |
| MessageModel.Instantiate | backend/src/models/message.model.js:3-38 | a record is created iff both sender and receiver are given; otherwise one validation error names every missing path, both when both are missing; text defaults to "", document to none, seen to false, seenAt to null, both timestamps to the creation time |
| MessageModel.NewRecordUnseen | backend/src/models/message.model.js:28-35 | a record created without `seen = true` is unseen and satisfies seen ⇔ seenAt ≠ null |
| UploadRoute.LastDot | backend/src/routes/message.route.js:40 | the index found holds a dot and no later index does; none means there is no dot at all |
| UploadRoute.ExtName | backend/src/routes/message.route.js:40 | the extension is a suffix starting with the last dot, with no other dot; it is empty iff there is no dot, the dot leads the name, or the name is ".." |
| UploadRoute.Stem | backend/src/routes/message.route.js:41 | stem followed by extension gives back the name |
| UploadRoute.NatToString | backend/src/routes/message.route.js:42 | a counter renders as at least one digit, two from 10 on |
| UploadRoute.NatToStringInjective | backend/src/routes/message.route.js:42 | different counters render as different strings |
| UploadRoute.CandidateLonger | backend/src/routes/message.route.js:42 | an alternative name `stem_k.ext` is longer than, so never equal to, the original |
| UploadRoute.CandidateInjective | backend/src/routes/message.route.js:37-44 | different counters give different alternative names, so the loop never retries a name |
| UploadRoute.ChooseFilename | backend/src/routes/message.route.js:33-47 | the chosen name is not already stored; a free original name is kept; otherwise it is `stem_k.ext` for the smallest k ≥ 1 that is free, built from the original name |
| UploadRoute.MaxFileSizeValue | backend/src/routes/message.route.js:69 | the size limit is 52428800 bytes |
| UploadRoute.FileFilter | backend/src/routes/message.route.js:52-68 | a file is accepted iff its MIME type is one of the eight listed; a rejection carries the filter's error message |
| UploadRoute.AfterLastOf | backend/src/routes/message.route.js:34 | the text after the last separator is a suffix holding no separator, preceded by one when shorter than the name |
| UploadRoute.PartFileName | backend/src/routes/message.route.js:34 | the name the multipart parser reports is the last piece of the part's name after a slash or a backslash, never "." or "..", and a suffix of the name |
| UploadRoute.PartFileNameOfPlainName | backend/src/routes/message.route.js:34 | a plain name is reported unchanged; a name ending in a separator is reported as no name |
| UploadRoute.Upload | backend/src/routes/message.route.js:50-79 | no part or a part whose reported name is empty, then a filtered type, then an oversized file is refused in that order; a stored file keeps its reported name, type and size and gets a name not already stored |
| UploadRoute.FirstMatch | backend/src/routes/message.route.js:19-79 | the route found matches and no earlier route does; none means no route matches; literals match ignoring case and one trailing slash is tolerated, as a router built with no options does |
| UploadRoute.UsersRouteShadowsIdRoute | backend/src/routes/message.route.js:75-76 | `GET /users`, in any letter case and with or without a trailing slash, also matches `GET /:id` but resolves to the sidebar handler registered before it |
| UploadRoute.IdRouteForOtherIds | backend/src/routes/message.route.js:76 | any other non-empty single segment (one that is not `users` in any case), with or without a trailing slash, resolves to the conversation handler |
| UploadRoute.SendRouteIgnoresCase | backend/src/routes/message.route.js:77 | `POST /send/:id` with the literal in any letter case resolves to the text send handler |
| UploadRoute.EveryRouteProtected | backend/src/routes/message.route.js:75-79 | every route runs `protectRoute` first; only the document route runs the upload middleware |
| UploadRoute.Lower | backend/src/index.js:64 | lower-casing keeps the length and maps each character |
| Download.ContentTypeFor | backend/src/index.js:65-76 | each of the eight extensions gets its type; any other gets `application/octet-stream` |
| Download.Step | backend/src/index.js:59 | one segment of the joined path: "" and "." stay, ".." goes up one level (above the working directory once the path is used up), any other name goes down into it |
| Download.SplitFromNoSlash | backend/src/index.js:59 | a name with no '/' is a single path segment |
| Download.PlainNameTarget | backend/src/index.js:59 | a plain name leads to the entry of that name directly in `uploads` |
| Download.TrimSlashes | backend/src/index.js:64 | dropping trailing slashes leaves a prefix that does not end in '/', and leaves a slash-free name alone |
| Download.SegmentStart | backend/src/index.js:64 | the last segment starts just after a '/' and holds none |
| Download.BaseSegment | backend/src/index.js:64 | the segment `path.extname` reads holds no '/', and is the whole name when the name holds none |
| Download.HandleDownload | backend/src/index.js:57-79 | 404 "Document not found" iff nothing exists where the decoded name leads; a directory there makes the read fail; otherwise the file there is served with the type of the lower-cased extension of the last segment and an attachment disposition naming it |
| Download.TraversalServesOutsideUploads | backend/src/index.js:57-79 | the decoded name "../.env" is served the working directory's `.env`, outside `uploads` |
| Download.TraversalTarget | backend/src/index.js:59 | "../.env" leads to `.env` in the working directory |
| Download.TraversalSegments | backend/src/index.js:59 | "../.env" is the two segments ".." and ".env" |
| Download.TraversalContentType | backend/src/index.js:64-76 | "../.env" has no extension, so it is typed `application/octet-stream` |
| Download.DotNamesFailTheRead | backend/src/index.js:59-79 | "." and ".." pass the existence check as directories and their read fails |
| Download.HandleDownloadConfined | backend/src/index.js:57-79 | the intended handler: only a regular file directly in `uploads` is served, with the same reply as the handler as written, and no read ever fails |
| Download.ConfinedRefusesTraversal | backend/src/index.js:57-79 | the intended handler answers 404 for "../.env" |
| Download.LastDotLower | backend/src/index.js:64 | lower-casing a name moves no dot |
| Download.ExtNameLower | backend/src/index.js:64 | the extension of the lower-cased name is the lower-cased extension |
| Download.TrimSlashesLower | backend/src/index.js:64 | lower-casing commutes with dropping trailing slashes |
| Download.SegmentStartLower | backend/src/index.js:64 | lower-casing moves no segment start |
| Download.BaseSegmentLower | backend/src/index.js:64 | the last segment of the lower-cased name is the lower-cased last segment |
| Download.LowerSuffix | backend/src/index.js:64 | lower-casing commutes with taking a suffix |
| Download.ContentTypeIgnoresCase | backend/src/index.js:64-76 | names equal up to letter case are served with the same type (`.PDF` as `.pdf`) |
| UploadRoute.LowerIdempotent | backend/src/index.js:64 | lower-casing twice is lower-casing once |
| Download.DownloadTypesMatchUploadTypes | backend/src/index.js:65-74 | every type the download table names is in the upload allow-list, and every allowed type has an extension in the table |
| Download.UnknownExtensionFallsBack | backend/src/index.js:76 | a file in `uploads` with an unlisted extension is served as `application/octet-stream` |
| Presence.Lookup | backend/src/lib/socket.js:21-24 | finds the binding iff the user is bound, and returns that binding |
| Presence.NotifyIfPresent | backend/src/controllers/message.controller.js:53-56 | at most one emit, present iff the user is bound, addressed to that user's socket |
| Presence.SocketServer.GetReceiverSocketId | backend/src/lib/socket.js:21-24 | returns the current socket of the user, or nothing when unbound |
| Presence.SocketServer.EmitTo | backend/src/controllers/message.controller.js:55 | appends one addressed emit to the log |
| Presence.SocketServer.Notify | backend/src/controllers/message.controller.js:53-56 | appends the emit to the user's socket only when the user is bound |
| Presence.SocketServer.BroadcastOnlineUsers | backend/src/lib/socket.js:33 | appends a broadcast of the current key set |
| Presence.SocketServer.OnConnection | backend/src/lib/socket.js:26-34 | an announced user is bound to this socket, overwriting any earlier binding, then the key set is broadcast; without a user id nothing changes and nothing is emitted |
| Presence.SocketServer.OnReconnectUser | backend/src/lib/socket.js:36-41 | binds the given id to this socket whatever the handshake said, then broadcasts the key set |
| Presence.SocketServer.OnDisconnect | backend/src/lib/socket.js:43-50 | removes the handshake user's entry without comparing sockets, then broadcasts the key set; without a user id nothing changes |
| Presence.LastBindWins | backend/src/lib/socket.js:31 | after two binds of a user, lookup gives the second socket and pushes go to it alone |
| Presence.StaleDisconnectUnbindsNewerSocket | backend/src/lib/socket.js:43-46 | after binding a stale then a current socket, the stale socket's disconnect leaves the user unbound |
| Presence.StaleDisconnectScenario | backend/src/lib/socket.js:26-50 | the same race run through the three handlers leaves the user offline |
| Presence.OtherUsersUnaffected | backend/src/lib/socket.js:31-46 | binding or unbinding one user leaves every other user's lookup unchanged |
| Conversation.Between | backend/src/controllers/message.controller.js:22-26 | exactly the stored messages from one party to the other, in either direction |
| Conversation.StepSortedIsSorted | backend/src/controllers/message.controller.js:27 | order between neighbours gives order between every pair |
| Conversation.Insert | backend/src/controllers/message.controller.js:27 | inserting into a sorted list keeps it sorted and adds exactly the one message |
| Conversation.SortByCreation | backend/src/controllers/message.controller.js:27 | the result is sorted by creation time and is a permutation of the input |
| Conversation.GetMessages | backend/src/controllers/message.controller.js:22-29 | the conversation is sorted ascending by creation time, is a permutation of the filtered messages, and holds exactly the messages between the two users |
| Conversation.BetweenSymmetric | backend/src/controllers/message.controller.js:23-26 | the filter gives the same list whichever party asks |
| Conversation.GetMessagesSymmetric | backend/src/controllers/message.controller.js:22-27 | swapping the two users gives the same list, element for element |
| Conversation.EarlierComesFirst | backend/src/controllers/message.controller.js:27 | a message created strictly earlier is listed before a later one |
| Conversation.Sidebar | backend/src/controllers/message.controller.js:7-10 | every user except the caller is listed without password, and nothing else is |
| MessageService.Fanout | backend/src/controllers/message.controller.js:53-60 | at most two emits, each carrying the event to the receiver's or the sender's socket, and one to each party that is bound |
| MessageService.DocumentFor | backend/src/controllers/message.controller.js:151-161 | the document's url is `/download/document/` followed by the stored name; name, type and original name come from the upload |
| MessageService.MarkOne | backend/src/controllers/message.controller.js:76-78 | an eligible record becomes seen at the update time; any other record is unchanged; only seen, seenAt and updatedAt can change, and seen never goes back |
| MessageService.MarkSeenAll | backend/src/controllers/message.controller.js:76-79 | the update applies to each record independently and keeps the store's length |
| MessageService.Listed | backend/src/controllers/message.controller.js:84 | exactly the stored messages whose id is listed, whoever received them |
| MessageService.CountPositiveIff | backend/src/controllers/message.controller.js:76-83 | the modified count is positive iff some listed record is addressed to the caller and unseen |
| MessageService.RepeatMarkSeenIsNoOp | backend/src/controllers/message.controller.js:76-108 | a second call with the same ids counts 0 and changes nothing |
| MessageService.NotReceiverUpdatesNothing | backend/src/controllers/message.controller.js:77 | a caller who receives none of the listed messages updates nothing and counts 0 |
| MessageService.SeenFanoutStep | backend/src/controllers/message.controller.js:87-100 | one more found message adds its receiver's and then its sender's push at the end |
| MessageService.SeenFanoutTargets | backend/src/controllers/message.controller.js:87-100 | every `messageSeen` push carries a found message and goes to that message's receiver or sender |
| MessageService.SeenFanoutCovers | backend/src/controllers/message.controller.js:87-100 | every found message, changed or not, is pushed to its receiver and to its sender wherever they are bound |
| MessageService.SeenFanoutReaches | backend/src/controllers/message.controller.js:87-100 | one bound party (receiver or sender) of one found message receives its `messageSeen` push, by induction over the found list |
| MessageService.MarkSeenMonotonic | backend/src/controllers/message.controller.js:76-78 | the update only ever moves a record's read receipt forward |
| MessageService.MarkSeenKeepsStoreValid | backend/src/controllers/message.controller.js:76-79 | the update keeps seen ⇔ seenAt on every record and keeps ids distinct |
| MessageService.MessageServer.Save | backend/src/controllers/message.controller.js:43-50 | the saved record is the constructed one with a fresh id, appended to the store |
| MessageService.MessageServer.SendMessage | backend/src/controllers/message.controller.js:38-62 | always 201; the record holds `text` or "", is unseen and has no document; it is appended before `newMessage` goes to the bound receiver and sender |
| MessageService.MessageServer.SendMessageWithDocument | backend/src/controllers/message.controller.js:117-177 | no file → 400, disallowed type → 400, unknown receiver → 404, in that order and with nothing saved or emitted; otherwise a document message is saved and pushed |
| MessageService.MessageServer.PostSendDocument | backend/src/routes/message.route.js:79 | upload middleware then controller: a refused upload, a missing or unnamed part or an unknown receiver saves nothing and pushes nothing; an accepted upload is stored under a new name even when the receiver is then not found; a created message is unseen, has an empty text, the sender and receiver given, a document at `/download/document/` plus its new name with no original name, and is saved and then pushed as `newMessage` to the bound receiver and sender |
| MessageService.MessageServer.UpdateMany | backend/src/controllers/message.controller.js:76-79 | the store becomes the marked store, and the count is the number of eligible records |
| MessageService.MessageServer.NotifySeen | backend/src/controllers/message.controller.js:87-100 | the log grows by the pushes for the found messages, in order |
| MessageService.MessageServer.MarkMessagesAsSeen | backend/src/controllers/message.controller.js:76-108 | the store is marked, the reply is success with the count, nothing is pushed when the count is 0, and otherwise every listed message is pushed to its bound parties |
| ChatStore.AsMessages | frontend/src/store/useChatStore.js:31 | an array body gives its messages; anything else gives [] |
| ChatStore.UnseenFor | frontend/src/store/useChatStore.js:35-37 | exactly the fetched messages addressed to the user and unseen |
| ChatStore.IdsOf | frontend/src/store/useChatStore.js:41 | one id per message; every message's id is present and every id belongs to a message |
| ChatStore.MarkById | frontend/src/store/useChatStore.js:46-50 | listed ids become seen at the given time with nothing else changed; other messages, order and length are kept |
| ChatStore.ApplySeenUpdate | frontend/src/store/useChatStore.js:199-213 | messages with the pushed id take its seen and seenAt and keep everything else; others, order and length are kept |
| ChatStore.WithOriginalName | frontend/src/store/useChatStore.js:125-127 | the appended message is the reply with the document's original name set to the picked file's name |
| ChatStore.SentDocument | frontend/src/store/useChatStore.js:125-127 | after a document send, a failure appends nothing and a success appends the reply carrying the picked name |
| ChatStore.ChatView.GetMessages | frontend/src/store/useChatStore.js:25-75 | a failed fetch empties the list; otherwise the list is the fetched array or []; with a signed-in user, one mark-seen request is sent iff some message is unseen for them, and those ids are marked locally whatever its outcome |
| ChatStore.ChatView.SendMessage | frontend/src/store/useChatStore.js:77-90 | with a peer selected, the text is posted and a successful reply appended at the end; a failure or no peer leaves the list unchanged |
| ChatStore.ChatView.SendDocument | frontend/src/store/useChatStore.js:92-133 | no peer or a disallowed type: no request and no change; otherwise one post, the reply appended with the picked name, and loading ends false |
| ChatStore.ChatView.OnNewMessage | frontend/src/store/useChatStore.js:149-192 | a message of the open chat is appended without a duplicate check; one addressed to the user and unseen is reported and marked locally; others change nothing |
| ChatStore.ChatView.OnMessageSeen | frontend/src/store/useChatStore.js:194-214 | the list becomes the pushed update applied by id |
| ChatStore.ChatView.SetMessages | frontend/src/store/useChatStore.js:233-237 | an array is stored as given; anything else stores [] |
| ChatStore.ChatView.SetSelectedUser | frontend/src/store/useChatStore.js:231 | the selection becomes the given peer |
| ChatStore.ClientAllowListMatchesServer | frontend/src/store/useChatStore.js:99-108 | the browser's list equals the upload filter's list, so the browser accepts exactly what the filter accepts |
| ChatStore.NoneUnseen | frontend/src/store/useChatStore.js:35-37 | a list in which every message for the user is seen has nothing unseen |
| ChatStore.NothingUnseenAfterFetch | frontend/src/store/useChatStore.js:35-64 | after the fetch and the local marking, no message is both for the user and unseen |
| ChatStore.MarkedAreExactlyReported | frontend/src/store/useChatStore.js:43-64 | a message changes only if it shares its id with a message reported as unseen |
| ChatStore.ApplySeenUpdateIdempotent | frontend/src/store/useChatStore.js:199-213 | the same `messageSeen` applied twice equals it applied once |
| ChatStore.MarkByIdTwice | frontend/src/store/useChatStore.js:46-50 | marking again later only re-stamps the seen time |
| ChatStore.SenderEchoScenario | frontend/src/store/useChatStore.js:149-158 | a sender whose reply is appended and whose socket echo arrives lists the record twice |
| AuthStore.KeepFailed | frontend/src/store/useAuthStore.js:163-182 | the new queue holds only entries of the old queue |
| AuthStore.LastSuccess | frontend/src/store/useAuthStore.js:165-172 | the profile is the starting one or one of the successful replies |
| AuthStore.Puts | frontend/src/store/useAuthStore.js:165-169 | one request per queued entry, in queue order, carrying its picture |
| AuthStore.Session.UpdateProfile | frontend/src/store/useAuthStore.js:71-111 | nobody signed in: no change; offline: picture set, update queued at the end, nothing sent; online: sent, then the reply or, on failure, the previous profile; loading always ends false |
| AuthStore.Session.SyncPendingProfileUpdates | frontend/src/store/useAuthStore.js:149-184 | offline or an empty queue: no change; otherwise every entry is sent in order, the queue becomes the failed entries in order and the profile the last successful reply |
| AuthStore.Session.ConnectSocket | frontend/src/store/useAuthStore.js:186-197 | nobody signed in or a connected socket: no change; otherwise a socket announcing the user's id |
| AuthStore.Session.DisconnectSocket | frontend/src/store/useAuthStore.js:218-231 | only a connected socket is closed, and then forgotten |
| AuthStore.Session.OnGetOnlineUsers | frontend/src/store/useAuthStore.js:199-201 | the pushed list replaces the online list wholesale |
| AuthStore.KeepFailedCount | frontend/src/store/useAuthStore.js:165-179 | the queue shrinks by exactly the number of successful attempts |
| AuthStore.NoSuccessIff | frontend/src/store/useAuthStore.js:165-179 | the number of successes is 0 iff every attempt failed |
| AuthStore.QueueKeptIffAllFailed | frontend/src/store/useAuthStore.js:165-182 | the queue survives a sync unchanged iff every attempt failed |
| AuthStore.AllFailedKeepsAll | frontend/src/store/useAuthStore.js:174-177 | when every attempt fails the whole queue is kept |
| AuthStore.AllSucceededCount | frontend/src/store/useAuthStore.js:165-173 | when every attempt succeeds, all count as successes |
| AuthStore.AllSucceededEmptiesQueue | frontend/src/store/useAuthStore.js:165-182 | when every attempt succeeds the queue empties and the profile is the last reply |
| AuthStore.LastSuccessIsLatest | frontend/src/store/useAuthStore.js:165-172 | the profile after a sync is the reply of the last attempt that succeeded |
| AuthStore.OfflineThenSyncScenario | frontend/src/store/useAuthStore.js:87-184 | an update queued offline and then synced with success leaves an empty queue, the server's profile, and a single request |
| MessageInput.TrimStart | frontend/src/components/MessageInput.jsx:24 | drops exactly the leading white space |
| MessageInput.TrimEnd | frontend/src/components/MessageInput.jsx:24 | drops exactly the trailing white space |
| MessageInput.Trim | frontend/src/components/MessageInput.jsx:24 | the trimmed text neither starts nor ends with white space |
| MessageInput.TrimEmptyIff | frontend/src/components/MessageInput.jsx:24 | the trimmed text is empty iff the text is all white space |
| MessageInput.TrimIsInfixAndIdempotent | frontend/src/components/MessageInput.jsx:36 | the trimmed text is a contiguous piece of the text, and trimming again changes nothing |
| MessageInput.Dispatch | frontend/src/components/MessageInput.jsx:22-43 | nothing when the text is blank and no document is picked; a picked document is sent and cleared, and the text is then neither sent nor cleared; otherwise the trimmed, non-empty text is sent and cleared |
| MessageInput.DispatchSendsAtMostOne | frontend/src/components/MessageInput.jsx:24-37 | a submit never sends both, and sends something iff the button's enabling condition (line 92) holds |
| MessageInput.BlankTextSendsNothing | frontend/src/components/MessageInput.jsx:24 | white-space text with no document sends nothing |
| MessageInput.Composer.HandleSendMessage | frontend/src/components/MessageInput.jsx:22-43 | clears the fields as `Dispatch` says and drives the chat store accordingly: the document request, or the trimmed text request, or nothing; the list grows only by a successful reply with a peer selected, and the loading flag changes only on an accepted document send, where it ends false |
| MessageInput.Composer.SubmitDocument | frontend/src/components/MessageInput.jsx:28-32 | the document branch: the store's document send, then the picked document is cleared |
| MessageInput.Composer.SubmitText | frontend/src/components/MessageInput.jsx:33-37 | the text branch: the store's text send of the trimmed text, then the field is cleared |

## Left out

- MongoDB failures, invalid ObjectId casts and every 500 reply are not modelled. Every store operation succeeds.
- Conversation.SortByCreation: the order among messages with equal `createdAt` follows MongoDB, which does not promise one. The model keeps store order for ties, so it fixes one allowed order.
- Presence.SocketServer.BroadcastOnlineUsers: the payload is the key set. The order `Object.keys` gives the ids is not modelled.
- UploadRoute.Lower lowers ASCII letters only. The extensions looked up consist of ASCII letters after the dot, and no non-ASCII character lowercases into one of them in a way that matters here.
- UploadRoute.FirstMatch takes the path already split into segments, with URL decoding done. Only ASCII letters are folded. The router's case-insensitive match never equates a non-ASCII character with an ASCII one, so this changes nothing for the all-ASCII route literals.
- UploadRoute.ExtName follows `path.extname` on names without directory separators only. The upload applies it to the reported part name, which holds none; the download applies it to `Download.BaseSegment` of the name.
- Uploads are stored under `backend/src/uploads`. Downloads read `uploads` under the process's working directory. The upload side keeps a set of stored names; the download side is modelled over its own `Disk`, so a stored file is downloadable only when the two directories are the same.
- The multipart parser and the upload library are not part of this model. Their rule for a part's file name (the last piece after a slash or backslash; "." and ".." count as no name; a part with no name is skipped) is written out in `UploadRoute.PartFileName` and `UploadRoute.Upload`.
- Download.HandleDownload: a failed read is a `ReadFailed` reply. In the source the read stream's error has no listener, so the server process stops; the model does not model the process.
- Download.Step: going up past the file-system root is not collapsed onto the root, so two names that reach the same place that way are given different places.
- Multer's streaming is not modelled. A file over the limit is refused after its name is chosen and is not kept.
- Async interleaving between `await` points is not modelled. Each handler, request or push is one atomic step.
- ChatStore.ChatView.SendMessage appends the reply to the list as it is when the reply arrives. The source writes back the list it read before the request plus the reply, so a push handled while the request is in flight (the sender's own echo included) is lost. The model does not capture that overwrite.
- ChatStore.ChatView.SendDocument appends the reply in the same way. The source likewise writes back the list read before the request, and the model does not capture that overwrite.
- AuthStore.Session.ConnectSocket treats the new socket as connected at once. The real socket connects asynchronously.
- AuthStore.Session.SyncPendingProfileUpdates requires one reply per queued entry, because the replies stand for the server's answers to those requests.
- ChatStore.WithOriginalName: a document reply without a document gets a descriptor whose url, name and type are empty strings. The JavaScript spread would leave them undefined.
- The guards of `subscribeToMessages` and the listener removal in `unsubscribeFromMessages` are not modelled. `ChatView.OnNewMessage` takes the subscribed peer and the signed-in user as parameters.
- The listeners that `connectSocket` attaches only to log are not modelled. Neither is the `seenAt` warning in the `messageSeen` handler.
- Message ids are naturals. The `_id.toString()` comparison is id equality.
- localStorage serialisation, toasts and console logging are not modelled. The pending queue is a field.
- The earlier `syncPendingProfileUpdates` definition (`frontend/src/store/useAuthStore.js:113-147`) is overridden by the later one with the same body. It is modelled once.
- `checkAuth`, `signup`, `login`, `logout` and `getUsers` are not modelled, and neither is `frontend/src/components/ChatContainer.jsx` (rendering, polling, icons).
- `frontend/src/lib/socket.js` holds connection configuration only and is not modelled.
- The auth middleware and the User model are not part of this model. A user exists when its id is in the server's user list.

## Findings

| source | as written | input that shows it | evidently intended | confidence | as-written member | corrected member |
|---|---|---|---|---|---|---|
| backend/src/index.js:57-79 | the decoded `:filename` is joined to `uploads` with no check, and the route has no authentication | `GET /download/document/..%2F.env` is served the working directory's `.env` | only files directly in `uploads` are served | high, not executed | Download.TraversalServesOutsideUploads | Download.HandleDownloadConfined |

`Download.HandleDownload` models the handler as written. `Download.HandleDownloadConfined` serves exactly the files directly in `uploads` and agrees with it on those, and `Download.ConfinedRefusesTraversal` shows it refuses the input above.
