# Chat synchronisation core of the blog mobile client, in Dafny

The client keeps the signed-in user's conversations in a zustand store. The
store holds a map from conversation id to conversation, the display order
of the ids (most recent first) and the id of the open conversation. Three
sources feed it:

- the REST services, which update it only after a request succeeds;
- the user's private channel, whose events the chat-event service forwards;
- the open conversation screen, which also keeps its own newest-first list of
  messages.

The screen reconciles that list with the channel's create, update and delete
events and with its own send, edit and delete requests. It renders the list
with a date header after the last message of each day. Around this sit the
pure display rules:

- the list screen's titles, tags and search filter;
- the chat-time bucket;
- the avatar's initials and gradient;
- the profile form's validation and cache-busting;
- the user search's self-filter and conversation-id resolution.

## How the model is organised

- **Modules.** There is one module per source file: `ChatStore`,
  `ConversationScreen`, `MessageService`, `ChatEventService`,
  `ConversationService`, `ConversationList`, `ChatTime`, `UserAvatar`,
  `Profile` and `UserSearch`. They share these modules:
  - `Domain`, the API records;
  - `MessageList`, the id-keyed list updates that the screen and the page
    updaters share;
  - `Text`, the JavaScript string operations;
  - `Sequences`, order-preserving selection;
  - `Wrappers`, which holds `Option`, `Result` and `ServiceResult`.
- **State that changes in place is a class.** The store is `ChatStore.Store`,
  an open conversation is `ConversationScreen.Screen`, the subscription is
  `ChatEventService.Service` and the search screen is `UserSearch.Screen`.
  - Each method's `ensures` gives the whole new state. It does so as a
    transition function of the old state (`Added`, `Removed`, `NewMessage`, …)
    or as a record update of the old view.
  - Lemmas about those functions state what the source promises. The main
    one is the store invariant `Consistent`: the order lists every filed id
    exactly once, and every conversation is filed under its own id.
- **Pure rules are functions.** The list screen, chat time, avatar and
  profile rules are functions and lemmas.
- **Parameters instead of effects.** Every awaited request is one atomic step.
  Its outcome is a parameter: `Result` for the HTTP outcome, `Clock` for
  `new Date()`, `ts` for `Date.now()`.
- **Where the model follows the code.** The send path has a race:
  - When the channel's create event for a sent message arrives before the
    send's own response, the screen lists that message twice
    (`EchoBeforeResponseDuplicates`).
  - In the other order the event is absorbed (`ResponseBeforeEchoAbsorbed`,
    `ChatEventService.OwnEchoAbsorbed`).
  - The model keeps the code as written.

## Model

| member | source | states |
|---|---|---|
| Domain.FirstOtherThan | screens/chat/ConversationListScreen.tsx:35 | the first participant whose id differs from the given one; none exactly when every participant has that id |
| ChatStore.Without | stores/chat.store.ts:71-73 | the order filter keeps exactly the ids different from the removed one |
| ChatStore.MoveToFrontFacts | stores/chat.store.ts:97-100 | moving an id to the front keeps the order duplicate-free, puts the id first and changes no other id's membership |
| ChatStore.MoveToFrontTwice | stores/chat.store.ts:97-100 | moving the same id to the front twice is the same as once |
| ChatStore.SortByRecencyFacts | stores/chat.store.ts:43-48 | the hydration sort is most recent first, a permutation of its input (multiset equality) and stable (conversations with equal timestamps keep input order) |
| ChatStore.HydrateFacts | stores/chat.store.ts:40-58 | setConversations with distinct ids gives a consistent store; it files every input under its id and no other id; the order is the ids sorted most recent first; the active id is kept |
| ChatStore.HydrateDuplicateIds | stores/chat.store.ts:50-56 | with a repeated id the order lists it twice, so the invariant needs distinct input ids |
| ChatStore.AddConversationFacts | stores/chat.store.ts:60-66 | addConversation ignores a known id; otherwise it files the conversation and puts its id first; it keeps the invariant and is idempotent |
| ChatStore.RemoveConversationFacts | stores/chat.store.ts:68-77 | removeConversation drops the id from map and order, keeps every other conversation, clears the active id exactly when it was the removed one, keeps the invariant and is idempotent |
| ChatStore.NewMessageFacts | stores/chat.store.ts:79-101 | unknown conversation: no change. Otherwise the preview takes the message (whole when there was none, else content and time only); unread iff sender is not the current user and the conversation is not active; the id goes first; nothing else changes; the invariant holds |
| ChatStore.OwnOrActiveMessageStaysRead | stores/chat.store.ts:92-95 | a message from the current user, or into the active conversation, never leaves it unread |
| ChatStore.NewMessageIdempotent | stores/chat.store.ts:79-101 | applying the same new message twice ends in the same state as once |
| ChatStore.MessageUpdateFacts | stores/chat.store.ts:103-114 | an edit changes only the preview's content, and only when the preview is the edited message; order, keys and active id are unchanged |
| ChatStore.MessageDeleteFacts | stores/chat.store.ts:116-141 | on a known conversation the unread flag takes the given value; when the deleted message was the preview, the preview becomes the new last message (or none) and the id moves first; otherwise the order is unchanged |
| ChatStore.ReadFacts | stores/chat.store.ts:143-158 | marking read clears a known conversation's flag and nothing else; activating a truthy id also clears it; activation always records the id and null clears it |
| ChatStore.LookupByTag | stores/chat.store.ts:179-181 | the found conversation is filed and has the tag; none found means no filed conversation has it |
| ChatStore.Lookup | stores/chat.store.ts:174-182 | by id first; otherwise some conversation with that userTag, found exactly when one exists; needs only that every filed id is in the order, which holds after any setConversations, repeated ids included |
| ChatStore.HydrateListed | stores/chat.store.ts:40-58 | setConversations lists every filed id in the order, even when the input repeats an id |
| ChatStore.Store.constructor | stores/chat.store.ts:34-37 | the store starts empty with no active conversation and satisfies its invariant |
| ChatStore.FileById | stores/chat.store.ts:50-52 | the loop builds exactly the map `MapOf` of the sorted list: every conversation under its id |
| ChatStore.Store.SetConversations | stores/chat.store.ts:40-58 | the loop fills the map so the new state is `Hydrate` of the old; distinct ids give a valid store |
| ChatStore.Store.AddConversation | stores/chat.store.ts:60-66 | the new state is `Added` of the old; validity is preserved |
| ChatStore.Store.RemoveConversation | stores/chat.store.ts:68-77 | the new state is `Removed` of the old; validity is preserved |
| ChatStore.Store.UpdateConversationOnNewMessage | stores/chat.store.ts:79-101 | the new state is `NewMessage` of the old; validity is preserved |
| ChatStore.Store.UpdateConversationOnMessageUpdate | stores/chat.store.ts:103-114 | the new state is `MessageUpdate` of the old; validity is preserved |
| ChatStore.Store.UpdateConversationOnMessageDelete | stores/chat.store.ts:116-141 | the new state is `MessageDelete` of the old; validity is preserved |
| ChatStore.Store.MarkConversationAsRead | stores/chat.store.ts:143-149 | the new state is `MarkRead` of the old; validity is preserved |
| ChatStore.Store.SetActiveConversation | stores/chat.store.ts:151-158 | the new state is `SetActive` of the old; validity is preserved |
| ChatStore.Store.Reset | stores/chat.store.ts:160-164 | map and order are emptied and the active id is kept |
| ChatStore.Store.UseConversation | stores/chat.store.ts:174-182 | by id first; otherwise a conversation with that userTag is found exactly when one exists; answers in any store whose filed ids are all listed |
| MessageList.HasId | screens/chat/ConversationScreen.tsx:207 | true exactly when some listed message has the id |
| MessageList.PrependIfAbsentFacts | screens/chat/ConversationScreen.tsx:206-211 | after a create event the id is listed; unique ids stay unique; a repeated event changes nothing; an absent message goes first, ahead of the old list |
| MessageList.ReplaceById | screens/chat/ConversationScreen.tsx:224-228 | the update keeps the list's length |
| MessageList.ReplaceByIdFacts | screens/chat/ConversationScreen.tsx:224-228 | the update keeps ids and order, rewrites exactly the entries with the incoming id, keeps unique ids, is idempotent and leaves a list without the id unchanged |
| MessageList.RemoveById | screens/chat/ConversationScreen.tsx:255-257 | the filtered list holds exactly the messages with a different id |
| MessageList.RemoveByIdUnique | screens/chat/ConversationScreen.tsx:255-257 | filtering keeps ids unique |
| MessageList.RemoveByIdAbsent | screens/chat/ConversationScreen.tsx:255-257 | filtering an absent id changes nothing |
| MessageList.RemoveByIdFacts | screens/chat/ConversationScreen.tsx:255-257 | after the delete no entry has the id, unique ids stay unique, and a second delete changes nothing |
| MessageService.SendFormFacts | services/MessageService.ts:62-70 | a content field exactly for non-empty text; an attachment field exactly for a file, named and typed with the defaults when missing; text first |
| MessageService.SendUpdaterFacts | services/MessageService.ts:99-113 | the cache shows the new message first and every earlier one after it; an empty cache gets one page with meta 1/1/30/1; otherwise the other pages and the first page's meta are kept |
| MessageService.SendUpdaterOnCopy | services/MessageService.ts:108-112 | the updater fills a freshly allocated array with the result of `SendUpdater` and may modify nothing else, so the caller's pages stay untouched |
| MessageService.UpdateUpdater | services/MessageService.ts:141-155 | an absent cache stays absent |
| MessageService.DeleteUpdater | services/MessageService.ts:196-208 | an absent cache stays absent |
| MessageService.FlattenReplace | services/MessageService.ts:145-152 | the edit updater acts on the whole cache as replace-by-id on the flattened list |
| MessageService.FlattenRemove | services/MessageService.ts:200-205 | the delete updater acts on the whole cache as filter-by-id on the flattened list |
| MessageService.EditUpdatersFacts | services/MessageService.ts:141-155 | the edit and delete updaters keep the number of pages and every page's meta; page by page the edit is replace-by-id (keeping the page's length) and the delete filters out the id; on the flattened cache they act as the list updates |
| MessageService.AfterSendFacts | services/MessageService.ts:87-94 | a successful send keeps the store consistent, files the returned conversation, puts it first, previews the message's text and adds only that id |
| MessageService.SendMessage | services/MessageService.ts:51-123 | failure: `Failure`, store unchanged; success: the data, and the store becomes `AfterSend` of the old; validity preserved |
| MessageService.UpdateMessage | services/MessageService.ts:125-162 | failure leaves the store; success applies the message-update action |
| MessageService.DeleteMessage | services/MessageService.ts:164-215 | failure leaves the store; success applies the delete action with the unread flag cleared |
| ConversationService.Get | services/ConversationService.ts:41-43 | optional field access yields a value only for an object that has the field |
| ConversationService.Coalesce | services/ConversationService.ts:41-43 | `??` keeps a present value and otherwise takes the fallback |
| ConversationService.DecodeCreated | services/ConversationService.ts:41-50 | a decoded conversation always has a truthy id |
| ConversationService.DecodeEnvelopes | services/ConversationService.ts:41-45 | the shapes `{data: {conversation: c}}`, `{data: c}` and `c` all decode to `c` when `c` has a truthy id |
| ConversationService.DecodeInnerShadowsOuter | services/ConversationService.ts:42-43 | a present `conversation` without a truthy id wins over the payload's own id, so the create is only acknowledged |
| ConversationService.DecodeNoId | services/ConversationService.ts:45-50 | a body with no id anywhere is only acknowledged |
| ConversationService.FetchConversations | services/ConversationService.ts:16-29 | failure leaves the store; success hydrates it with the list |
| ConversationService.CreatePrivateConversation | services/ConversationService.ts:31-54 | failure is `Failure`; success is the decode of the body; the store is not touched |
| ConversationService.DeleteConversation | services/ConversationService.ts:56-66 | failure leaves the store; success removes the conversation |
| ConversationService.MarkConversationAsRead | services/ConversationService.ts:68-78 | failure leaves the store; success clears the unread flag |
| ConversationScreen.DateKeyLayout | screens/chat/ConversationScreen.tsx:47-52 | a valid date's key is the year, then the 1-based month and the day as two digits each, joined by dashes |
| ConversationScreen.DateKeyInjective | screens/chat/ConversationScreen.tsx:47-52 | two valid dates share a key exactly when they fall on the same local day |
| ConversationScreen.DateKeyNotInvalid | screens/chat/ConversationScreen.tsx:434-445 | a valid date's key never equals the Invalid Date key |
| ConversationScreen.FormatDateLabel | screens/chat/ConversationScreen.tsx:113-135 | "Today" exactly when the midnights are less than a day apart (and not reversed), "Yesterday" exactly when one to two days apart, else the formatted date |
| ConversationScreen.IdText | screens/chat/ConversationScreen.tsx:58 | `String(id)` of a present id is the id |
| ConversationScreen.TitleFromConversation | screens/chat/ConversationScreen.tsx:54-61 | "Conversation" for a conversation not in the store; otherwise the first other participant's name, and the title when there is none |
| ConversationScreen.PushItems | screens/chat/ConversationScreen.tsx:424-451 | one iteration pushes the message item and then, for a valid date whose key differs from the next message's, the header |
| ConversationScreen.BuildListData | screens/chat/ConversationScreen.tsx:421-455 | the loop builds exactly `ListData` |
| ConversationScreen.ListDataMessages | screens/chat/ConversationScreen.tsx:421-455 | the rendered list shows every message once, in order; the only other items are headers |
| ConversationScreen.ListDataHeaders | screens/chat/ConversationScreen.tsx:428-451 | each message sits at its computed position; a header follows it exactly when `Separated` holds, carrying `date-` plus its key and its label |
| ConversationScreen.SeparatedMeansDayBoundary | screens/chat/ConversationScreen.tsx:434-451 | a header follows a valid-dated message exactly when the next message is missing, has an invalid date, or is on another day |
| ConversationScreen.PageCursorFacts | screens/chat/ConversationScreen.tsx:171-174 | a missing meta gives the requested page as current and last; a missing last page ends paging; more pages exactly when current < last |
| ConversationScreen.EchoBeforeResponseDuplicates | screens/chat/ConversationScreen.tsx:410 | when the channel's create event arrives before the send's response, the list holds the id twice |
| ConversationScreen.ResponseBeforeEchoAbsorbed | screens/chat/ConversationScreen.tsx:206-211 | when the response comes first, the later event changes nothing and ids stay unique |
| ConversationScreen.Screen.constructor | screens/chat/ConversationScreen.tsx:69-77 | the initial view: empty draft, loading, no paging, page 1 of 1, no messages, no edit session |
| ConversationScreen.Screen.Focus | screens/chat/ConversationScreen.tsx:145-155 | the conversation becomes active, then it is marked read if the request succeeds |
| ConversationScreen.Screen.Blur | screens/chat/ConversationScreen.tsx:151-153 | no conversation is active |
| ConversationScreen.Screen.FirstPageLoaded | screens/chat/ConversationScreen.tsx:157-188 | success: the messages and cursor from the page; failure: no messages and no more pages; loading ends either way |
| ConversationScreen.Screen.OnMessageCreated | screens/chat/ConversationScreen.tsx:196-216 | ignored unless listening and the message is for this conversation; otherwise the store takes the new message, the list prepends it unless listed, and a read receipt is requested exactly when someone else sent it |
| ConversationScreen.Screen.OnMessageUpdated | screens/chat/ConversationScreen.tsx:218-229 | for this conversation: store preview updated and the list entry replaced by id; otherwise nothing |
| ConversationScreen.Screen.OnMessageDeleted | screens/chat/ConversationScreen.tsx:231-266 | the store applies the delete for whatever conversation the event names; for this conversation the message leaves the list and an edit of it ends with an empty draft |
| ConversationScreen.Screen.LoadOlderMessages | screens/chat/ConversationScreen.tsx:280-301 | no request while loading, fetching or at the end; otherwise page current+1 is requested and on success appended with the new cursor |
| ConversationScreen.Screen.CancelEditing | screens/chat/ConversationScreen.tsx:303-306 | the edit session ends and the draft is emptied |
| ConversationScreen.Screen.StartEditing | screens/chat/ConversationScreen.tsx:308-311 | the message is being edited and the draft holds its text, or "" |
| ConversationScreen.Screen.DeleteMessage | screens/chat/ConversationScreen.tsx:313-333 | on success the store applies the delete and the message leaves the list (and the edit session); on failure nothing changes |
| ConversationScreen.Screen.Submit | screens/chat/ConversationScreen.tsx:375-419 | nothing without a user or with a blank draft; otherwise a request is always made: an edit of the message being edited when there is one, else a send, each with the trimmed non-empty text and the stated list and store effects per outcome |
| ConversationScreen.Screen.SubmitEdit | screens/chat/ConversationScreen.tsx:382-401 | success replaces the message by id, ends the edit and empties the draft; failure changes nothing but the sending flag |
| ConversationScreen.Screen.SubmitSend | screens/chat/ConversationScreen.tsx:402-415 | success prepends the sent message (without a duplicate check) and empties the draft; failure changes nothing but the sending flag |
| ConversationScreen.Screen.ListItems | screens/chat/ConversationScreen.tsx:421-455 | the rendered list of the current messages |
| ChatEventService.WireNameInjective | services/ChatEventService.ts:35-39 | the five events are broadcast under five different names, so each listener gets only its own event |
| ChatEventService.AppliedConsistent | services/ChatEventService.ts:74-108 | every handler keeps the store invariant |
| ChatEventService.AppliedAllConsistent | services/ChatEventService.ts:74-108 | any sequence of events keeps the store invariant |
| ChatEventService.OwnEchoAbsorbed | services/ChatEventService.ts:74-78 | the echo of one's own successful send changes nothing in the store |
| ChatEventService.Service.constructor | services/ChatEventService.ts:20-21 | no channel and no user at first |
| ChatEventService.Service.Stop | services/ChatEventService.ts:42-72 | no channel and no user afterwards; the subscription invariant holds; the user channel is left |
| ChatEventService.Service.Start | services/ChatEventService.ts:23-40 | nothing for an empty id or the same user; otherwise the channels are exactly the old ones without the old user channel, plus the user's channel listening for all five events |
| ChatEventService.Service.Receive | services/ChatEventService.ts:74-108 | a delivered event applies its handler's store action; anything else changes nothing |
| ChatEventService.StartedDeliversEverything | services/ChatEventService.ts:33-39 | once started for a user, every event on that user's channel reaches the store |
| ChatEventService.StoppedDeliversNothing | services/ChatEventService.ts:42-72 | after stop no event reaches the store |
| ChatTime.FormatChatTime | lib/utils.ts:1-27 | blank exactly for a missing or empty input; the invalid-date outcome exactly for an unparsable one; time of day exactly on the same calendar day; weekday exactly otherwise when less than seven whole days have passed; else day and month |
| ChatTime.SameDayTakesPrecedence | lib/utils.ts:6-21 | the same-day test wins over the day difference; a future date on another day gets the weekday format |
| ConversationList.OtherParticipant | screens/chat/ConversationListScreen.tsx:29-38 | none without a truthy user id; otherwise a participant who is not the user, none exactly when everyone is the user |
| ConversationList.Title | screens/chat/ConversationListScreen.tsx:40-44 | the other participant's name, else the non-empty title, else "Conversation" |
| ConversationList.Tag | screens/chat/ConversationListScreen.tsx:46-49 | the conversation's tag, else the other participant's, else "" |
| ConversationList.AvatarSmall | screens/chat/ConversationListScreen.tsx:51-57 | the conversation's small avatar, else the other participant's, else none |
| ConversationList.Visible | screens/chat/ConversationListScreen.tsx:70-73 | every listed conversation is filed under an id of the order |
| ConversationList.VisibleConsistent | screens/chat/ConversationListScreen.tsx:70-73 | for a consistent store the list is every conversation once, in display order |
| ConversationList.Keep | screens/chat/ConversationListScreen.tsx:79-85 | keeps exactly the conversations whose lowered title, tag or last text contains the query |
| ConversationList.KeepSubsequence | screens/chat/ConversationListScreen.tsx:79-85 | the filter keeps the list's order |
| ConversationList.FilteredFacts | screens/chat/ConversationListScreen.tsx:75-86 | a blank query shows everything; otherwise exactly the matching conversations, in order |
| ConversationList.Preview | screens/chat/ConversationListScreen.tsx:192-197 | never empty; the trimmed text when non-empty; else the attachment marker when the attachment has a url; else "No messages yet" |
| ConversationList.RowStamp | screens/chat/ConversationListScreen.tsx:189-191 | the last message's timestamp, else the conversation's update time |
| ConversationList.RowTime | screens/chat/ConversationListScreen.tsx:189-191 | blank exactly when the chosen timestamp is empty |
| ConversationList.TitlesAgree | screens/chat/ConversationListScreen.tsx:40-44 | for a signed-in user and a titled conversation, the row and the screen header show the same title |
| ConversationList.TitlesDifferWhenUntitled | screens/chat/ConversationListScreen.tsx:40-44 | for an untitled conversation with nobody else, the row says "Conversation" and the header is blank |
| UserAvatar.NonBlank | components/UserAvatar.tsx:31-34 | the trimmed non-empty pieces; none exactly when every piece is whitespace |
| UserAvatar.InitialsFacts | components/UserAvatar.tsx:29-38 | empty exactly for a missing or empty name; a whitespace-only name gives its first character; at most two characters, none lower-case |
| UserAvatar.OneWordInitials | components/UserAvatar.tsx:36 | a single word gives its upper-cased first letter |
| UserAvatar.TwoWordInitials | components/UserAvatar.tsx:37 | two words give both upper-cased first letters |
| UserAvatar.FirstCodeUnit | components/UserAvatar.tsx:88 | the first UTF-16 code unit, the character itself inside the Basic Multilingual Plane |
| UserAvatar.GradientIndex | components/UserAvatar.tsx:86-90 | always one of the five gradients; 0 without a name; the first code unit mod 5 |
| UserAvatar.ImageSource | components/UserAvatar.tsx:45-54 | a request exactly when uri and token are non-empty, carrying "Bearer " + token |
| UserAvatar.ShowImageIff | components/UserAvatar.tsx:56 | the image shows exactly when uri and token are present, the token is ready and loading has not failed |
| Profile.NameError | screens/chat/ProfileScreen.tsx:49-55 | none for an unchanged trimmed name; otherwise an error exactly when the trimmed length is outside 3..32, with the matching message |
| Profile.CanSaveIff | screens/chat/ProfileScreen.tsx:57-62 | saving is allowed exactly when not saving, the name is unchanged or valid, and something changed |
| Profile.SavePayload | screens/chat/ProfileScreen.tsx:125-137 | a request exactly when there is a user and saving is allowed; it carries the selected image |
| Profile.SavePayloadFacts | screens/chat/ProfileScreen.tsx:126-137 | never an empty update; a name exactly when the trimmed name changed, and then it is the trimmed name of 3..32 units |
| Profile.AppendTs | screens/chat/ProfileScreen.tsx:67-68 | the url followed by `&t=` when it has a query, else `?t=`, and the timestamp |
| Profile.AppendTsHasQuery | screens/chat/ProfileScreen.tsx:67-68 | a busted url always has a query |
| Profile.AppendTsTwice | screens/chat/ProfileScreen.tsx:67-68 | busting twice appends the second timestamp with `&` |
| Profile.WithCacheBust | screens/chat/ProfileScreen.tsx:64-74 | none stays none; all three urls get the same timestamp |
| Profile.AvatarAfterSave | screens/chat/ProfileScreen.tsx:147-150 | busted only when a new image was uploaded and the refreshed user has an avatar |
| Profile.CacheBustChangesUrls | screens/chat/ProfileScreen.tsx:64-74 | every busted url differs from its original |
| UserSearch.ExcludeUser | screens/chat/UserSearchScreen.tsx:60-62 | exactly the users whose id differs from the signed-in user's |
| UserSearch.ExcludeUserOrder | screens/chat/UserSearchScreen.tsx:60-62 | the results keep the server's order |
| UserSearch.ShownResults | screens/chat/UserSearchScreen.tsx:60-63 | filtered only when there is a signed-in user |
| UserSearch.FindConversationWith | screens/chat/UserSearchScreen.tsx:97-101 | the first conversation with the user among its participants; none exactly when there is none |
| UserSearch.CreatedId | screens/chat/UserSearchScreen.tsx:90-92 | an acknowledged create yields no id; a created conversation with an `id` field yields `String(id)` of it, and one without yields none |
| UserSearch.ResolvedConversationId | screens/chat/UserSearchScreen.tsx:88-104 | the created conversation's usable id, else the first fetched conversation with the user, else none |
| UserSearch.StartChatOutcome | screens/chat/UserSearchScreen.tsx:84-125 | failed exactly when the create failed; an opened chat has a non-empty id and the user's name |
| UserSearch.StartChatResolution | screens/chat/UserSearchScreen.tsx:88-116 | a usable created id opens at once; an acknowledged create opens exactly when the fetched list has a conversation with the user and a non-empty id |
| UserSearch.Screen.constructor | screens/chat/UserSearchScreen.tsx:33-37 | no results, not searching, no error, nothing in flight |
| UserSearch.Screen.QueryChanged | screens/chat/UserSearchScreen.tsx:39-56 | earlier searches are cancelled; a blank query clears results and error and schedules nothing; otherwise a search for the trimmed text is scheduled |
| UserSearch.Screen.SearchCompleted | screens/chat/UserSearchScreen.tsx:56-70 | a stale response is ignored; success shows the filtered results; failure shows none and the error |
| UserSearch.Screen.BeginStartChat | screens/chat/UserSearchScreen.tsx:78-82 | nothing while another start is in flight; otherwise the user is marked in flight and the error cleared |
| UserSearch.Screen.FinishStartChat | screens/chat/UserSearchScreen.tsx:84-125 | the outcome is `StartChatOutcome`; the store is hydrated only when the fallback list was fetched; the in-flight mark is cleared |

## Left out

- Network, websockets and HTTP are not modelled. Each request's outcome is a
  parameter, and request URLs, headers and bodies are not modelled beyond
  the send form and the profile payload.
- Async interleaving is not modelled. Each handler is one atomic step; the
  send/echo race is stated on those steps.
- The `mounted` and `isActive` cancellation flags are not modelled. The
  search's flag becomes a generation number; the other screens' flags only
  suppress state writes after unmount.
- The 450 ms debounce timer is not modelled.
- `Intl.DateTimeFormat` output, time zones and daylight saving are not
  modelled. A date is a `Clock` carrying its epoch milliseconds, local
  calendar fields and local midnight. Formatted labels are opaque.
  `ChatTime.FormatChatTime` names the format it selects. The day/month
  formatter throws a RangeError on an Invalid Date, and the model represents
  that as an outcome.
- `listData` reads the clock once in the model. The source reads `new Date()`
  once per header.
- UserAvatar.Initials and Text.UpperChar: upper-casing maps ASCII letters
  only. The source's `toUpperCase` also maps other letters ("é" to "É") and
  can turn one character into two ("ß" to "SS"), so the bound of at most two
  initials in `UserAvatar.InitialsFacts` holds of the model only; the source
  gives "SSSS" for "ßa ßb".
- `Text.ToLower` maps ASCII letters only, because the case tables of Unicode
  are outside the model. The characters are Unicode scalar values. Only
  `Utf16Length` and `UserAvatar.FirstCodeUnit` model UTF-16 code units.
  `initialsFromName` takes `name[0]`, which for a character outside the
  Basic Multilingual Plane is a lone surrogate in the source and the whole
  character in the model.
- ChatStore.SortKey: an unparsable `updatedAt` gets the key 0. The source's
  comparator then returns NaN there, and how the engine orders those
  entries is not specified.
- `conversations.sort` also reorders the caller's array in place. The model
  sorts a copy.
- ChatStore.Lookup: the search by tag runs in display order. The source uses
  `Object.values`, which lists integer-like keys ascending and then the rest
  in insertion order, and `addConversation` and
  `updateConversationOnNewMessage` move an id to the front of the order
  without changing the key order. The model finds a conversation with the
  tag exactly when the source does, but when several share the tag the one
  it returns may differ from the source's.
- ChatStore.Store.UseConversation: the other actions are proved to keep the
  store invariant, not the weaker "every filed id is listed"; after a list
  with repeated ids the model answers `useConversation` only until the next
  action.
- The immer drafts and the `JSON.parse(JSON.stringify(...))` copy become value
  semantics. The aliasing of a conversation's `lastMessage` with the
  message whose fields are mutated is therefore not modelled.
- JSON bodies are decoded only for the create-conversation payload, whose
  tolerant decoding is the point. Other bodies arrive as typed records.
  JSON numbers are integers.
- Pagination `links` are not modelled. Nothing reads them.
- `fetchMessagesFirstPage` and `fetchMessagesByPage` are modelled through
  their outcomes in `FirstPageLoaded` and `LoadOlderMessages`.
- `handleMessageLongPress` and `confirmDeleteMessage` are not modelled. They
  are alert dialogs in front of `StartEditing` and `DeleteMessage`.
- The avatar's token loading is not modelled. `ShowImage` takes the token and
  its readiness as inputs.
- Image picking, `handleDeleteAvatar`, navigation and rendering are not
  modelled.
- lib/echo.ts is not part of this model. `ChatEventService.Echo` stands in for
  the joined channels and their listeners. The five chained `listen` calls,
  and the five `stopListening` calls, are one call each with the set of
  events. The handler functions themselves are not part of that state. The conversation screen's own
  `conversation.<id>` channel is reduced to the `Listening` guard.
- The first-page and edit-reset effects re-run when the route's conversation
  changes. This is covered by a `Screen` being constructed per conversation
  id.
