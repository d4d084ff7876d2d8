# Connectly chat core in Dafny

Connectly is a Discord-style chat application. Servers own channels. Members post channel
messages. Two members of a conversation exchange direct messages. Presence and new messages
are pushed over a Socket.IO channel.

This project models the core of the application and proves properties about it:

- **Live-channel server** (`Presence`). It holds the insertion-ordered registry of online
  users. The `user-online` and `disconnect` handlers update it, and `ioHandler` attaches the
  Socket.IO server once.
- **History route** (`MessagesRoute`). It serves cursor-paginated pages of a channel's history,
  newest first.
- **Client's page chaining** (`ChatQuery`). This is how the client builds each page request,
  when it polls, and which page comes next.
- **Chat view** (`ChatMessages`). It renders pages, derives the three realtime topic keys and
  marks edited messages.
- **Ingest handlers**:
  - live channel messages (`MessageIngest`);
  - direct messages (`DirectMessageIngest`);
  - channel creation (`ChannelsRoute`);
  - server creation (`ServersRoute`).
- **Attachment dialog** (`MessageFileModal`). It classifies the chosen file, decides whether to
  preview it, and assembles the multipart form data.
- **Client store slices** (`ModalSlice`, `AuthSlice`).
- **Route-protection middleware** (`Middleware`).
- **Cross-file properties** (`ChatSync`). These connect the pieces end to end.

The persistent store is `Store.Db`, a class whose fields are its tables. Each handler is
written as two parts:

- a pure guard-chain function that returns the status, or the data to write;
- a method that performs the effects on the store and on the socket host.

The method's `ensures` clauses tie every outcome to that function.

The following are parameters of the model:

- The resolved profile or session is an `Option`.
- The media host is a total function `FileBlob -> Option<Url>`, where `None` means the upload
  throws.
- Cloudinary's configuration flag is a `bool`.
- Fresh ids, invite codes and the clock are parameters.
- In the history route (`MessagesRoute.Get`) a database query that throws is a `bool` flag.

The Prisma `findMany` with `cursor`, `skip`, `take` and `orderBy: {createdAt: "desc"}` is
modelled positionally. The table is given newest first. A cursor keeps the suffix from the
cursor row. Then the `where` filter, `skip` and `take` apply.

Two behaviours of the code are worth stating up front:

- **A second disconnect can take another user offline.** The `disconnect` handler in
  `pages/api/socket/io.ts` deletes only the first entry mapped to the socket and then `break`s.
  When one socket registered several user ids, a second `disconnect` of that socket removes
  another user (`Presence.DisconnectTwiceWhenShared`). Repeating it changes nothing only when
  at most one entry maps to the socket (`Presence.DisconnectTwiceWhenSingle`).
- **A failed publish fails the request.** In `pages/api/socket/messages/index.ts` the emit goes
  through `res.socket.server.io` after the row is written. With no server attached this throws,
  so the answer is a 500 although the message is stored (`MessageIngest.Handle`).

## Model

| member | source | states |
|---|---|---|
| Common.OrEmpty | pages/api/socket/direct-messages/index.ts:50 | `x \|\| ""` on an optional string: the value when truthy, otherwise the empty string |
| Store.FindMember | pages/api/socket/messages/index.ts:67 | `members.find` by profile id: a found member is the first one in the list with that profile; none found means no member has it |
| Store.Db.CreateMessage | pages/api/socket/messages/index.ts:78-88 | `db.message.create`: appends exactly that row, other tables unchanged |
| Store.Db.CreateDirectMessage | pages/api/socket/direct-messages/index.ts:143-157 | `db.directMessage.create`: appends exactly that row, other tables unchanged |
| Store.Db.CreateServer | app/api/servers/route.ts:47-70 | `db.server.create`: appends exactly that server, other tables unchanged |
| Store.Db.AddChannel | app/api/channels/route.ts:46-54 | nested `channels.create`: the `i`-th server gains the channel at the end of its list, everything else unchanged |
| Presence.Keys | pages/api/socket/io.ts:39 | `Array.from(map.keys())`: one key per entry, in entry order |
| Presence.MapSet | pages/api/socket/io.ts:38 | `Map.set` on the insertion-ordered map |
| Presence.SetLookup | pages/api/socket/io.ts:38 | after `set(u, s)`, `get(u)` is `s` and every other user's value is unchanged |
| Presence.SetExistingInPlace | pages/api/socket/io.ts:38 | `set` of a present key replaces that entry in place; order and other entries are kept |
| Presence.SetNewAppends | pages/api/socket/io.ts:38 | `set` of an absent key appends it at the end |
| Presence.SetKeepsKeysDistinct | pages/api/socket/io.ts:13-39 | `set` keeps one entry per user; the broadcast key list gains the user at the end exactly when it was not online |
| Presence.DeleteFirstWithValue | pages/api/socket/io.ts:46-51 | the `for...of` loop with `break`: deletes the first entry whose value is the socket id |
| Presence.DeleteFirstMatch | pages/api/socket/io.ts:46-51 | when the first match is at `i`, the result is the map without entry `i`, order kept |
| Presence.DeleteNoMatch | pages/api/socket/io.ts:46-51 | a socket id no entry maps to removes nothing |
| Presence.DeleteKeepsKeysDistinct | pages/api/socket/io.ts:46-51 | the disconnect loop keeps one entry per user |
| Presence.FirstMatchExists | pages/api/socket/io.ts:46-48 | when some entry maps to the socket, a first such entry exists and no earlier entry maps to it |
| Presence.StaleDisconnectKeepsUser | pages/api/socket/io.ts:36-51 | a user re-registered on socket B stays online, still on B, when its old socket A disconnects |
| Presence.SharedSocketDisconnect | pages/api/socket/io.ts:46-51 | when one socket registered two users, one disconnect removes only the first; the second stays mapped to the socket |
| Presence.Lookup | pages/api/socket/io.ts:38-39 | `get` on the registry: the value of the first entry with the key (its contract is `Presence.LookupFirst`) |
| Presence.LookupFirst | pages/api/socket/io.ts:38-39 | `get` returns the value of the first entry with the key, and is undefined exactly when no entry has it |
| Presence.LookupAfterRemoval | pages/api/socket/io.ts:46-51 | with distinct keys, after removing entry `i` its key is gone and a later entry is still found with its value |
| Presence.RemovedKeyAbsent | pages/api/socket/io.ts:46-51 | removing an entry keeps the keys distinct and leaves no entry with the removed key |
| Presence.ReplaceKeepsKeys | pages/api/socket/io.ts:38-39 | replacing an entry by one with the same key keeps the broadcast key list |
| Presence.LookupAt | pages/api/socket/io.ts:38 | with distinct keys, `get` of the key at index `k` returns that entry's value |
| Presence.LookupAbsent | pages/api/socket/io.ts:38 | `get` of a key no entry holds is undefined |
| Presence.DisconnectTwiceWhenSingle | pages/api/socket/io.ts:42-53 | with at most one entry for the socket, a second disconnect changes nothing |
| Presence.DisconnectTwiceWhenShared | pages/api/socket/io.ts:42-53 | a concrete two-user registry where a second disconnect of the same socket removes a further user |
| Presence.FirstIndex | pages/api/socket/io.ts:46-48 | the index the loop stops at: its entry maps to the socket and no earlier one does |
| Presence.OnlineThenOffline | pages/api/socket/io.ts:36-53 | connecting on a fresh socket and then disconnecting it leaves the user offline; a user that was not online before leaves the registry as it was |
| Presence.SocketHost.constructor | pages/api/socket/io.ts:13 | the process starts with an empty registry, no server attached and nothing emitted |
| Presence.SocketHost.IoHandler | pages/api/socket/io.ts:15-62 | a server is constructed exactly when none is attached, so at most one is ever built; the response is always ended; registry and emissions untouched |
| Presence.SocketHost.Emit | pages/api/socket/io.ts:39 | `io.emit` appends one emission and changes nothing else |
| Presence.SocketHost.UserOnline | pages/api/socket/io.ts:36-40 | the registry becomes `set(userId, socketId)`, `get(userId)` is the socket, other users unchanged; one `online-users` broadcast of the new key list |
| Presence.SocketHost.Disconnect | pages/api/socket/io.ts:42-54 | the loop's result is the first-match deletion; one `online-users` broadcast of the new key list; keys stay distinct |
| MessagesRoute.Filter | app/api/messages/route.ts:24-31 | the `where` filter: no longer than the table, and every kept row is a matching row of the table |
| MessagesRoute.FilterKeepsMatches | app/api/messages/route.ts:24-31 | no matching row is dropped |
| MessagesRoute.FilterAppend | app/api/messages/route.ts:24-31 | the filter keeps the table's order: it distributes over concatenation |
| MessagesRoute.IndexOfId | app/api/messages/route.ts:23 | the cursor row: a found index holds that id and no earlier row does; none found means no row has it |
| MessagesRoute.FromCursor | app/api/messages/route.ts:23 | `cursor: {id}`: never more rows than the table (its shape is `MessagesRoute.FromCursorSuffix`) |
| MessagesRoute.FromCursorSuffix | app/api/messages/route.ts:23 | a suffix of the ordered table: all of it without a cursor, starting at the cursor row otherwise, and empty only when no row has the cursor id |
| MessagesRoute.FindMany | app/api/messages/route.ts:20-34 | `findMany`: at most `take` rows, all of them matching the filter |
| MessagesRoute.Param | app/api/messages/route.ts:12-13 | `searchParams.get`: present exactly when some entry has the key |
| MessagesRoute.ParamFirst | app/api/messages/route.ts:12-13 | `searchParams.get` returns the value of the first entry with the key |
| MessagesRoute.PageOf | app/api/messages/route.ts:37-45 | `nextCursor` is present exactly when a full batch of 10 was returned, and is then the last item's id |
| MessagesRoute.Get | app/api/messages/route.ts:7-51 | 401 without a profile, 400 without a channel id, 500 when the query throws; otherwise a page of at most 10 items |
| MessagesRoute.GetCorrected | app/api/messages/route.ts:19-35 | the route with the cursor branch filtering by channel; same error cases and bound |
| MessagesRoute.FirstPage | app/api/messages/route.ts:28-40 | the first page is the channel's newest `min(10, n)` messages, with a next cursor exactly when at least 10 exist; both readings of the route agree on it |
| MessagesRoute.FilterByIdAtMostOne | app/api/messages/route.ts:24 | with unique ids, filtering by `id` keeps at most one row |
| MessagesRoute.CursorPageAsWrittenEmpty | app/api/messages/route.ts:19-27 | as written, every cursor page is empty and has no next cursor |
| MessagesRoute.FilterFromCursor | app/api/messages/route.ts:20-24 | starting at the `k`-th matching row and filtering gives the matching rows from `k` on |
| MessagesRoute.CursorPageCorrected | app/api/messages/route.ts:19-27 | corrected, the page after cursor `h[k-1]` is the next up-to-10 messages `h[k..]` of the channel's history |
| ChatQuery.RefetchInterval | components/use-chat-query.ts:42 | polling every 1000 ms exactly while the live channel is disconnected |
| ChatQuery.FetchQuery | components/use-chat-query.ts:21-31 | the route reads the container id and the cursor back from the request's query; no cursor parameter on the first page |
| ChatQuery.NextPageParam | components/use-chat-query.ts:41 | the next page parameter is the last page's `nextCursor`, none for an error page |
| ChatQuery.CacheKey | components/use-chat-query.ts:39 | the cache key is the one-element list of the query key |
| ChatMessages.QueryKey | components/chat/chat-messages.tsx:44 | the cache key starts with "chat:" and is five characters longer than the chat id |
| ChatMessages.AddKey | components/chat/chat-messages.tsx:45 | the new-message topic extends the cache key, by exactly ":messages" |
| ChatMessages.UpdateKey | components/chat/chat-messages.tsx:46 | the edit topic extends the new-message topic, by exactly ":update"; so the three keys are pairwise distinct |
| ChatMessages.KeysInjective | components/chat/chat-messages.tsx:44-46 | different chats never share a key of the same kind |
| ChatMessages.ShouldLoadMore | components/chat/chat-messages.tsx:73 | the scroll hook may load more exactly when no fetch is running and a next page exists |
| ChatMessages.IsUpdated | components/chat/chat-messages.tsx:134 | a message is marked edited exactly when its two timestamps differ |
| ChatMessages.Items | components/chat/chat-messages.tsx:122-140 | the items shown are those of the loaded pages, page after page |
| ChatMessages.Render | components/chat/chat-messages.tsx:78-140 | loading exactly when pending, error view exactly when errored, the chat only when succeeded and mounted; welcome exactly when there is no next page; a load control exactly when there is one, the spinner while fetching |
| MessageIngest.TextValues | pages/api/socket/messages/index.ts:32-38 | the values of the text parts with a given name: a value is listed exactly when such a part carries it; empty exactly when there is no such part; the first is the first such part's |
| MessageIngest.FileValues | pages/api/socket/messages/index.ts:32-38 | the files of the file parts with a given name: a file is listed exactly when such a part carries it; empty exactly when there is no such part; the first is the first such part's |
| MessageIngest.TextValuesAppend | pages/api/socket/messages/index.ts:32-38 | text values come in the order of the body's parts |
| MessageIngest.FileValuesAppend | pages/api/socket/messages/index.ts:32-38 | files come in the order of the body's parts |
| MessageIngest.ParseForm | pages/api/socket/messages/index.ts:32-38 | `fields.caption` is present exactly when some text part is named "caption", and then lists exactly those parts' values; `files.file` likewise for file parts named "file" |
| MessageIngest.CaptionAsWritten | pages/api/socket/messages/index.ts:40 | `fields.caption[0]` throws exactly when no caption part was sent |
| MessageIngest.CaptionCorrected | pages/api/socket/messages/index.ts:40 | agrees with the as-written read whenever a caption part exists; reads a missing one as empty |
| MessageIngest.UploadedFile | pages/api/socket/messages/index.ts:41 | `files.file?.[0]`: a file exactly when the list is present and non-empty, and then one of its files |
| MessageIngest.FindServer | pages/api/socket/messages/index.ts:48-60 | a found server has that id and a member of the profile; none found means no server with that id has one |
| MessageIngest.ChannelInServer | pages/api/socket/messages/index.ts:62-65 | `db.channel.findFirst` by id and server id finds a row: the server with that id has a channel with that id |
| MessageIngest.Authorize | pages/api/socket/messages/index.ts:43-68 | 400 exactly when neither content nor file; a write exactly when the sender is a member and the channel belongs to the server; the writing member is the sender's |
| MessageIngest.Decide | pages/api/socket/messages/index.ts:19-68 | the guard chain as written, each outcome an iff: 405 for a non-POST; 401 without a profile; 400 for a missing server or channel id, or an empty caption with no file; 500 for an unparsable form or no caption part; a write exactly when every guard passes (content or file, a server with the sender as member, the channel in it), otherwise 404; a write carries the caption, the first file and a member of that server |
| MessageIngest.DecideCorrected | pages/api/socket/messages/index.ts:19-68 | the chain with the corrected caption read: equals `Decide` whenever a caption part exists; 405, 401, 400 and 500 each as an iff (500 only for an unparsable form); a write exactly when every guard passes, with a missing caption read as empty; otherwise 404 |
| MessageIngest.Uploads | pages/api/socket/messages/index.ts:72 | the file goes to the media host exactly when there is one and the host is configured |
| MessageIngest.FileUrl | pages/api/socket/messages/index.ts:71-75 | the media host's URL when the file is uploaded, none otherwise |
| MessageIngest.NewRow | pages/api/socket/messages/index.ts:78-88 | the stored message carries the id, member, channel, content and URL, and the store's two timestamps; not deleted |
| MessageIngest.ChannelKey | pages/api/socket/messages/index.ts:91 | the topic `chat:<channelId>:messages` (equal to the chat's `addKey`, by `ChatSync.EmitTopicIsListenedTopic`) |
| MessageIngest.Perform | pages/api/socket/messages/index.ts:70-99 | given the guard chain's decision: a rejection writes and emits nothing; a failed upload is a 500 with no write; otherwise exactly one row is written, then emitted on `chat:<channelId>:messages` with 200, or 500 with no emission when no server is attached |
| MessageIngest.Handle | pages/api/socket/messages/index.ts:15-99 | the handler as written: the outcomes of `Perform` for the decision of `Decide` |
| MessageIngest.HandleCorrected | pages/api/socket/messages/index.ts:15-99 | the handler with the corrected caption read: the outcomes of `Perform` for the decision of `DecideCorrected` |
| MessageIngest.MissingCaptionFails | pages/api/socket/messages/index.ts:40 | as written, a parsed form without a caption part is a 500 even when a file is attached |
| MessageIngest.MemberGuardUnreachable | pages/api/socket/messages/index.ts:67-68 | the 401 after the membership lookup cannot happen; a 401 always means no profile |
| DirectMessageIngest.ParseFails | pages/api/socket/direct-messages/index.ts:9-14 | multer fails on an unparsable body or a file over 10 MB |
| DirectMessageIngest.Check | pages/api/socket/direct-messages/index.ts:34-80 | every rejection is one of 405, 500, 401, 400, so a request passing every guard proceeds; 405 for a non-POST; 500 exactly when multer fails, including a file over 10 MB; 401 without a session or without a profile row; 400 without a conversation id or with neither content nor file; otherwise the request's data |
| DirectMessageIngest.FindConversation | pages/api/socket/direct-messages/index.ts:101-133 | a found conversation has that id and involves the profile; none found means no conversation with that id does |
| DirectMessageIngest.ActingMember | pages/api/socket/direct-messages/index.ts:135-137 | the acting member is the requester's side of the conversation, `memberOne` when it is theirs |
| DirectMessageIngest.NewRow | pages/api/socket/direct-messages/index.ts:143-157 | the stored direct message carries id, content, URL, member and conversation, and the store's two timestamps; not deleted |
| DirectMessageIngest.Handle | pages/api/socket/direct-messages/index.ts:34-171 | rejections write nothing and upload nothing; the file is uploaded before the conversation lookup; a failed upload is a 500; a missing conversation is a 404 with no write; otherwise one row for the acting member and 200 |
| ChannelsRoute.Check | app/api/channels/route.ts:20-34 | 500 exactly when the body is not JSON, before the profile check; 401 exactly without a profile; 400 exactly when the server id, name or type is missing or the name is "general" |
| ChannelsRoute.CanManage | app/api/channels/route.ts:39-44 | the profile has a member of the server with role ADMIN or MODERATOR |
| ChannelsRoute.KnownType | components/server/server-channel.tsx:18-20 | the channel type is one of the enum's values TEXT, AUDIO, VIDEO |
| ChannelsRoute.WithChannels | app/api/channels/route.ts:55-57 | `include: {channels: true}`: the server's own columns and its channels, without its members |
| ChannelsRoute.Target | app/api/channels/route.ts:36-45 | the updated server has that id and an ADMIN or MODERATOR member of the profile; none found means no server with that id has one |
| ChannelsRoute.Post | app/api/channels/route.ts:20-65 | rejections change nothing; a type outside the enum, or no managing membership, is a 500 with no change; otherwise the server gains exactly the new channel at the end and is returned with its columns and all its channels, without members |
| ChannelsRoute.GeneralRuleIsExact | app/api/channels/route.ts:32-33 | the reserved-name rule is exact equality: with everything else valid, a name passes exactly when it is not "general" |
| ServersRoute.Check | app/api/servers/route.ts:12-25 | every rejection is one of 500, 400, 401, so a request passing every guard proceeds; 500 exactly when the form fails to parse; 400 exactly for a missing name or no image, checked before the profile; then 401 without a profile; the first image is the one used |
| ServersRoute.NewServer | app/api/servers/route.ts:47-70 | the new server has the given name, image URL and invite code, one "general" channel and one ADMIN member, both owned by the creator |
| ServersRoute.Post | app/api/servers/route.ts:10-77 | rejections and a failed upload change nothing; otherwise exactly the new server is stored and returned with 201 |
| ServersRoute.OnlyFirstImageUsed | app/api/servers/route.ts:14-27 | images after the first never change the outcome |
| MessageFileModal.Classify | components/modals/message-file-modal.tsx:100-112 | image for `image/…`, else pdf for exactly `application/pdf`, else video for `video/…`, else other, in that order |
| MessageFileModal.FormDataOf | components/modals/message-file-modal.tsx:79-81 | the file always comes first under "file"; a "caption" part follows exactly when the caption is non-empty |
| MessageFileModal.Dialog.constructor | components/modals/message-file-modal.tsx:41-59 | no preview, no file type, empty file name, empty form |
| MessageFileModal.Dialog.IsModalOpen | components/modals/message-file-modal.tsx:50 | the dialog is open exactly when the store is open with type `messageFile` |
| MessageFileModal.Dialog.SubmitDisabled | components/modals/message-file-modal.tsx:261 | the submit button is disabled while submitting or with no file chosen |
| MessageFileModal.Dialog.HandleFileChange | components/modals/message-file-modal.tsx:96-113 | stores the file and its name, sets the classified type, and sets a preview exactly for images and videos |
| MessageFileModal.Dialog.ClearFile | components/modals/message-file-modal.tsx:186-191 | the remove button clears the file, preview, type and name, keeping the caption |
| MessageFileModal.Dialog.HandleClose | components/modals/message-file-modal.tsx:61-67 | resets the form, preview, type and name, and returns the modal store to its initial state |
| MessageFileModal.Dialog.Submit | components/modals/message-file-modal.tsx:72-94 | without a file nothing is sent, since the submit button is disabled and the schema rejects it; otherwise one post of the assembled form data to `apiUrl \|\| ""` with the stored query; on success the router is refreshed and the dialog closed, on failure the state is kept |
| ModalSlice.ModalStore.constructor | store/slices/modalSlice.ts:31-35 | the initial state: no type, empty data, closed |
| ModalSlice.ModalStore.OpenModal | store/slices/modalSlice.ts:41-46 | sets the type and opens; replaces the data wholesale, `{}` when none is given; from any state |
| ModalSlice.ModalStore.CloseModal | store/slices/modalSlice.ts:47-51 | back to exactly the initial state from any state, hence idempotent; no modal is shown |
| ModalSlice.AtMostOneShown | store/slices/modalSlice.ts:25-29 | one `type` field: two shown modals are the same modal |
| ModalSlice.ClosedShowsNothing | store/slices/modalSlice.ts:31-51 | in every reachable state, no modal is shown exactly when the store is closed |
| AuthSlice.AuthStore.constructor | store/slices/authSlice.ts:15-18 | no user, loading |
| AuthSlice.AuthStore.SetUser | store/slices/authSlice.ts:24-27 | the user is the payload, which may be null; loading ends |
| AuthSlice.AuthStore.ClearUser | store/slices/authSlice.ts:28-31 | no user and not loading from any state, hence idempotent |
| AuthSlice.AuthStore.SetLoading | store/slices/authSlice.ts:32-34 | only the loading flag changes; the user is untouched |
| Middleware.Includes | middleware.ts:11 | `url.includes(path)` (its contract is the pair `Middleware.IncludesAt` and `Middleware.IncludesWitness`) |
| Middleware.IsProtected | middleware.ts:5-11 | some entry of `protectedPaths` occurs in the URL |
| Middleware.IncludesAt | middleware.ts:11 | `includes` holds whenever the path occurs at some position |
| Middleware.IncludesWitness | middleware.ts:11 | when `includes` holds, the path occurs at some position |
| Middleware.SomeIncluded | middleware.ts:11 | `some(path => url.includes(path))`: true exactly when some listed path occurs in the URL |
| Middleware.ProtectedIffSlash | middleware.ts:5-11 | with the single protected path "/", a URL is protected exactly when it contains a slash |
| Middleware.AbsoluteUrlProtected | middleware.ts:5-11 | every absolute URL (one containing "://") is protected |
| Middleware.Origin | middleware.ts:15 | the base `new URL("/login", url)` resolves against is a prefix of the URL that contains "://" |
| Middleware.IndexOf | middleware.ts:15 | the position of the scheme's ':': no earlier ':', and the character there is ':' when inside the URL |
| Middleware.AuthorityLength | middleware.ts:15 | the authority runs up to, and not including, the first '/', '?' or '#' |
| Middleware.Handle | middleware.ts:7-19 | with a token always next; an unprotected URL is always next; a protected URL without a token redirects to the origin's "/login" |
| Middleware.LoginRedirectRepeats | middleware.ts:13-16 | the login URL is itself protected: without a token, following the redirect redirects to the same place |
| Middleware.OriginOfLogin | middleware.ts:15 | the login URL built from an origin has that same origin |
| Middleware.IndexOfPrefix | middleware.ts:15 | appending a path after the scheme keeps the position of the scheme's ':' |
| ChatSync.Fetch | components/use-chat-query.ts:21-36 | without a channel id the route answers 400; with one, a page of at most 10 items |
| ChatSync.ItemsSnoc | components/chat/chat-messages.tsx:122-140 | loading one more page shows its items after those already shown |
| ChatSync.Pages | components/use-chat-query.ts:37-44 | the first load plus `n` scrolls, each fetching the next page only while `hasNextPage` holds; never empty |
| ChatSync.CorrectedLoadsHistory | app/api/messages/route.ts:19-40 | with the corrected route, `n` scrolls show the channel's newest `10(n+1)` messages (or all); a next page exists exactly while that many do, with the oldest shown message as cursor |
| ChatSync.AsWrittenStopsAtFirstBatch | app/api/messages/route.ts:24 | as written, however far the user scrolls only the newest 10 messages are shown, and after one scroll there is no next page |
| ChatSync.HistoryLostAsWritten | app/api/messages/route.ts:24 | with more than 10 messages of history, a scroll shows exactly 10 as written and more than 10 corrected |
| ChatSync.WelcomeWhenHistoryExhausted | components/chat/chat-messages.tsx:104-140 | the chat shows the loaded history, and the welcome banner exactly when all of it is loaded |
| ChatSync.EmitTopicIsListenedTopic | pages/api/socket/messages/index.ts:91 | the ingest handler emits on the chat's `addKey` topic |
| ChatSync.NewMessageNotEdited | components/chat/chat-messages.tsx:134 | a freshly stored message is marked edited exactly when the store gave its two timestamp columns different instants |
| ChatSync.SubmissionParses | components/modals/message-file-modal.tsx:79-81 | the dialog's form data parses back to its file, with a caption part exactly when the caption is non-empty |
| ChatSync.FileOnlySubmissionFails | pages/api/socket/messages/index.ts:40 | as written, a file sent from the dialog without a caption is a 500, whatever the membership |
| ChatSync.FileOnlySubmissionAccepted | pages/api/socket/messages/index.ts:40-68 | corrected, a dialog submission is written exactly when the sender is a member of the server owning the channel, with the caption and file; with a caption both readings agree |

## Left out

- Everything JSX renders beyond the branch structure: icons, layout, the date format and the
  remaining modals. These are display only.
- `useChatScroll`'s `count` argument and the scroll mechanics. `useChatSocket`'s cache updates
  are part of a file that is not part of this model.
- `qs.stringifyUrl`'s string rendering. The model keeps the query as key/value pairs, in the
  order that serialisation produces.
- Prisma ties in `createdAt`. The table's order is given; rows with equal timestamps are not
  modelled.
- Console logging, the framework's choice of middleware export and `config.matcher`, and
  `isMounted` effects other than the rendered branch.
- The multer field name. The direct-message handler reads the file field "fileUrl", while the
  attachment dialog posts "file". Which dialog posts to that route is not visible here, so the
  direct-message file is taken as whatever multer produced.
- JSON bodies whose `name` or `type` is not a string (`ChannelsRoute.Check` models them as
  optional strings).
- ChannelsRoute.KnownType: the `ChannelType` enum comes from the database schema, which is not
  part of this model; its three values are those `components/server/server-channel.tsx:18-20`
  uses. The store is taken to reject any other string before the update runs.
- ServersRoute.Post: returns the stored row including its nested channel and member. The route's
  JSON response holds the row without them (no `include`).
- Middleware.Origin: takes the scheme, "://" and the authority up to the first '/', '?' or '#',
  and does no further URL parsing or normalisation.
- The timestamp columns. `createdAt` and `updatedAt` are filled by the database schema's
  defaults, which are not part of this model, so both `NewRow` functions take them as
  parameters. Equal values are not assumed.
- Store and profile failures in the four handlers. Each handler catches every throw and answers
  500 (`pages/api/socket/messages/index.ts:95-97`, `pages/api/socket/direct-messages/index.ts:167-169`,
  `app/api/channels/route.ts:61-63`, `app/api/servers/route.ts:73-75`). In the model their
  `findFirst`, `create` and `update` calls and the profile lookup always succeed. Only the upload
  failure, the channel-type rejection, the missing update target and the unattached socket server
  reach that 500.
- Non-file entries under `imageUrl`. `app/api/servers/route.ts:14` casts `getAll('imageUrl')` to
  `File[]`. A string entry makes `arrayBuffer()` at line 28 throw, which gives a 500. The model's
  `ServersRoute.Form` holds only files, so this case cannot be expressed.
- The included member and profile. `app/api/messages/route.ts:25,32` and
  `pages/api/socket/messages/index.ts:84-86` `include` the message's member with its profile, so
  the returned and emitted rows carry them. `Store.Message` holds only the `memberId`.
- Upload failure modes and Cloudinary's response beyond `secure_url`. The media host is a
  function returning an optional URL.

## Findings

| source | as written | input that shows it | evidently intended | confidence | as-written member | corrected member |
|---|---|---|---|---|---|---|
| app/api/messages/route.ts:24 | the cursor branch filters `where: {id: channelId}`, so no message row matches and every page after the first is empty | a channel with 11 messages; the first page returns 10 and a cursor, and the request with that cursor returns no items | filter `where: {channelId}` as the first-page branch does (line 31) | not executed | MessagesRoute.CursorPageAsWrittenEmpty | MessagesRoute.CursorPageCorrected |
| pages/api/socket/messages/index.ts:40 | `fields.caption[0]` throws when no caption part was sent, and the request fails with 500 | the attachment dialog with a file and an empty caption, which omits the caption part (message-file-modal.tsx:81) | `fields.caption?.[0] \|\| ""`, so that a file alone is accepted as line 43 allows | not executed | ChatSync.FileOnlySubmissionFails | ChatSync.FileOnlySubmissionAccepted |

The rest of the model uses the corrected definitions:

- `ChatSync.CorrectedLoadsHistory` pages through `MessagesRoute.GetCorrected`.
- `MessageIngest.HandleCorrected` runs `MessageIngest.DecideCorrected`.

`MessagesRoute.Get`, `MessageIngest.Decide` and `MessageIngest.Handle` keep the code as written.
