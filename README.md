# ECHO chat core in Dafny

This project models the core of the ECHO chat app in Dafny and proves properties of the model. The core has four parts.

- **The chat data layer** (`mobile/utils/chatFirestore.ts`). The hosted document store is the class `ChatStore.Store`:
  - `conversations` maps a document id to a `Conversation` record. The record holds the participants, `lastMessage`, `updatedAt`, the `typing` flags and the `readBy` markers.
  - `messages` maps a conversation id to its `messages` sub-collection. Each `Message` holds `senderId`, `createdAt`, a text or media body and the per-user `reactions` slots. A slot holding `None` is a reaction that was removed (set to `null`).
  - `serverTimestamp()` is the store's own clock. Each timestamped write advances it by one.
  - `addDoc` ids come from a counter.

  Each exported operation is a method whose `ensures` gives the whole new state. The single-slot writers are stated through the functions `WithTyping`, `WithReadMarker`, `WithReaction` and `WithoutMessage`. The contracts of those functions say that exactly one slot changes and nothing else does. The store invariant `Valid()` says three things:
  - every id in use is below the id counter;
  - no stored timestamp is ahead of the clock;
  - no two conversations that have participants share a participant list (a document created only by a merge write has none).

  The two queries (`getConversations`, and the query of `listenForMessages`) are built by `Ordering.SortedEntries`. It is an insertion loop over the filtered documents, proved to return each matching document exactly once, in order on the key.
- **The reaction bar** (`mobile/components/MessageReactions.tsx`). `MessageReactions.GroupReactions` is the dictionary-building loop. Its invariants prove four things:
  - each emoji gets exactly one group;
  - a group lists exactly the users whose slot holds that emoji;
  - removed, empty and `'null'` slots are never counted;
  - the group sizes add up to the number of counted slots.

  `RenderReactions` turns the groups into chips with a count and a highlight.
- **The chat screen** (`mobile/components/ChatScreen.tsx`). `ChatScreen.Session` is a class:
  - its fields are the screen's React state;
  - its `timer` field is the `typingTimeout` ref, together with the table of pending timers;
  - each event handler is one method.

  The derived display values are pure functions: the other participant, "is typing", the read test and the read mark. So is the toggle-or-set reaction decision.
- **The backend's fallback handlers** (`backend/src/server.js`). These are the 404 handler, the error classifier and the `startServer` decision; all three are pure functions.

All properties are proved by Dafny's verifier. Network failure is a `reachable: bool` parameter of each session handler; when it is false, the write does not happen and the handler takes its error path. Clock readings are `nat` parameters, and a timer firing is the explicit `Expire` event.

Behaviour of the code that a reader might not expect:

- Any message can be deleted by a long press, whoever sent it (`mobile/components/ChatScreen.tsx:164`).
- A failed reaction write is only logged. A failed text send or read-marker write shows no alert. Only media send and delete show an error alert.
- A tap on a reaction chip toggles that emoji on the message last opened in the reaction picker (`selectedMessageId`), not on the message the chip belongs to (`mobile/components/ChatScreen.tsx:122-124`, `193`).
- The reaction picker closes after every selection (`mobile/components/ReactionPicker.tsx:13-16`); this is `PickReaction`.
- The caption box of the media preview sets `input` directly and does not write the typing flag (`mobile/components/ChatScreen.tsx:237`).
- A successful `handleSend` writes typing false but leaves the pending reset timer in place. When that timer fires it writes false again.

## Model

| member | source | states |
|---|---|---|
| Strings.Trim | mobile/components/ChatScreen.tsx:75 | `trim()` never lengthens the string; its result is empty exactly when the input is all white space; a non-empty result neither starts nor ends with white space |
| Strings.TrimSlice | mobile/components/ChatScreen.tsx:75 | the trimmed string is one contiguous slice of the input, and everything cut off before and after it is white space |
| Strings.TrimIdempotent | mobile/utils/chatFirestore.ts:170-171 | trimming a trimmed string changes nothing, so the store's second trim of a caption the screen already trimmed is harmless |
| Strings.Before | mobile/utils/chatFirestore.ts:25 | no contract of its own. Its definition: lexicographic order of the characters, with a proper prefix first, as the default `sort()` compares strings. Strings.BeforeIrreflexive, Strings.BeforeAsymmetric and Strings.BeforeTotal state that it is a strict total order |
| Strings.BeforeIrreflexive | mobile/utils/chatFirestore.ts:25 | the string order the sort uses never puts a string before itself |
| Strings.BeforeAsymmetric | mobile/utils/chatFirestore.ts:25 | if a comes before b, then b does not come before a |
| Strings.BeforeTotal | mobile/utils/chatFirestore.ts:25 | any two different strings are ordered one way or the other |
| Ordering.SortedEntries | mobile/utils/chatFirestore.ts:96-100 | a filtered, ordered query returns every document that passes the filter and no other, each exactly once with its stored contents, in ascending order of the key |
| ChatStore.SortPair | mobile/utils/chatFirestore.ts:25 | `[a, b].sort()` holds exactly the two ids, the smaller first |
| ChatStore.SortPairSymmetric | mobile/utils/chatFirestore.ts:24-33 | the sorted pair is the same whichever user starts the conversation, so both directions query the same participant list |
| ChatStore.StoredCaption | mobile/utils/chatFirestore.ts:169-172 | a caption is stored only when it is present and not blank, and it is stored trimmed and non-empty |
| ChatStore.MediaPlaceholder | mobile/utils/chatFirestore.ts:177 | no contract of its own. Its definition: "📷 Image" for an image and "🎥 Video" for a video. ChatStore.LastMessageText states when it is used |
| ChatStore.LastMessageText | mobile/utils/chatFirestore.ts:177 | the preview is the stored caption when there is one, otherwise "📷 Image" or "🎥 Video" for the media kind; it is never empty |
| ChatStore.Recipients | mobile/utils/chatFirestore.ts:208-209 | the notified participants are exactly the participants other than the sender |
| ChatStore.MergeLastMessage | mobile/utils/chatFirestore.ts:52-58 | no contract of its own. Its definition: the merge write overwrites `lastMessage` and `updatedAt` and keeps the other fields; a missing document is created with only those two. ChatStore.Store.SetLastMessage and ChatStore.Store.SendMessage state the store after it |
| ChatStore.WithTyping | mobile/utils/chatFirestore.ts:76-81 | `updateDoc` of `typing.<u>` sets that one flag to the value; every other user's flag, every other field and every other conversation are unchanged, and a missing conversation is not touched |
| ChatStore.WithReadMarker | mobile/utils/chatFirestore.ts:120-125 | `updateDoc` of `readBy.<u>` sets that one marker to the timestamp; every other marker, field and conversation is unchanged |
| ChatStore.WithReaction | mobile/utils/chatFirestore.ts:144-157 | `updateDoc` of `reactions.<u>` sets user u's one slot on that message; every other slot, every other field, every other message and every other conversation are unchanged; a missing message is not touched |
| ChatStore.WithoutMessage | mobile/utils/chatFirestore.ts:114-117 | `deleteDoc` removes exactly that message from its conversation and keeps every other message and conversation unchanged |
| ChatStore.Store.FindConversation | mobile/utils/chatFirestore.ts:26-33 | the equality query on `participants` finds a conversation with exactly this participant list, or reports that there is none |
| ChatStore.Store.GetOrCreateConversation | mobile/utils/chatFirestore.ts:24-41 | returns the conversation of the sorted pair; when one exists it is returned and the store is unchanged; otherwise exactly one conversation is added, with the sorted pair, an empty `lastMessage` and a new timestamp; afterwards it is the only conversation with that pair |
| ChatStore.Store.AddMessage | mobile/utils/chatFirestore.ts:46-50 | `addDoc` on `messages` adds one message with a fresh id and the next server timestamp; nothing else changes |
| ChatStore.Store.SetLastMessage | mobile/utils/chatFirestore.ts:52-59 | the merge write sets `lastMessage` and `updatedAt`, keeps the other fields, and creates a missing conversation document |
| ChatStore.Store.SendMessage | mobile/utils/chatFirestore.ts:44-59 | exactly one new text message (sender, text, timestamp) is added to the conversation and its preview becomes the text; every other conversation and every existing message are unchanged |
| ChatStore.Store.SendMediaMessage | mobile/utils/chatFirestore.ts:160-185 | exactly one new media message is added, with the trimmed caption only when it is not blank; the preview becomes that caption or the placeholder for the kind |
| ChatStore.Store.SetTypingStatus | mobile/utils/chatFirestore.ts:76-81 | only `typing[u]` of the conversation changes, to the given value; the write fails, and nothing changes, on a missing conversation |
| ChatStore.Store.MarkMessagesAsRead | mobile/utils/chatFirestore.ts:120-125 | only `readBy[u]` changes, to a new server timestamp; that timestamp is later than every message of the conversation and than the user's previous marker |
| ChatStore.Store.SetReaction | mobile/utils/chatFirestore.ts:144-157 | one reaction slot is written; the write fails, and nothing changes, on a missing message |
| ChatStore.Store.AddReaction | mobile/utils/chatFirestore.ts:144-149 | user u's one slot holds the emoji, overwriting any earlier reaction; no other slot changes |
| ChatStore.Store.RemoveReaction | mobile/utils/chatFirestore.ts:152-157 | user u's slot becomes `null`; no other slot changes |
| ChatStore.Store.DeleteMessage | mobile/utils/chatFirestore.ts:114-117 | exactly the named message is removed; the conversation's `lastMessage` and every other message are unchanged |
| ChatStore.Store.GetConversations | mobile/utils/chatFirestore.ts:93-111 | returns exactly the conversations that have the user among their participants, each once with its stored contents, most recently updated first |
| ChatStore.Store.ListMessages | mobile/utils/chatFirestore.ts:66-72 | returns exactly the conversation's messages, each once with its stored contents, oldest first |
| MessageReactions.Counts | mobile/components/MessageReactions.tsx:16 | no contract of its own. Its definition: a slot counts when it holds a string other than `''` and `'null'`, so a slot removed to `null` does not. MessageReactions.GroupReactions and MessageReactions.UncountedInNoGroup state what this means for the groups |
| MessageReactions.FindGroup | mobile/components/MessageReactions.tsx:17 | `reactionCounts[emoji]` finds the group of the emoji, or reports that there is none yet |
| MessageReactions.GroupReactions | mobile/components/MessageReactions.tsx:14-22 | each emoji key appears once; each group lists exactly the users whose slot holds its emoji; only counted slots (not `null`, `''` or `'null'`) make groups; every counted slot is in a group; the group sizes add up to the number of counted slots |
| MessageReactions.AddEntry | mobile/components/MessageReactions.tsx:15-21 | one step of the `forEach`: an uncounted slot leaves the groups as they are, and every step keeps the loop's description of the groups built so far |
| MessageReactions.EntriesOfReactions | mobile/components/MessageReactions.tsx:15 | when the entries are `Object.entries` of the message's `reactions` object, they are empty exactly when the object is, and a user is listed under an emoji exactly when the user's slot holds it, so a chip is highlighted exactly when the current user's slot holds its emoji |
| MessageReactions.GroupsDisjoint | mobile/components/MessageReactions.tsx:14-22 | the groups are disjoint, because a user who appears under one emoji appears under no other |
| MessageReactions.UncountedInNoGroup | mobile/components/MessageReactions.tsx:16 | a user whose slot was removed, or holds `''` or `'null'`, is in no group |
| MessageReactions.RenderReactions | mobile/components/MessageReactions.tsx:11-35 | an empty reactions object renders nothing; otherwise there is one chip per emoji, its count is the number of users who chose it, it is highlighted exactly when the current user is one of them, and every counted reaction has its chip |
| ChatScreen.FirstIndex | mobile/components/ChatScreen.tsx:47 | the search stops at the first element that satisfies the test, or reports that there is none |
| ChatScreen.OtherParticipant | mobile/components/ChatScreen.tsx:47 | the other participant is the first participant who is not the current user; there is none exactly when every participant is the current user |
| ChatScreen.OtherOfPair | mobile/components/ChatScreen.tsx:47 | in a conversation created for two different users, each user sees the other one as the other participant |
| ChatScreen.IsOtherTyping | mobile/components/ChatScreen.tsx:49 | "is typing" is the other participant's flag, and false when there is no other participant or no flag |
| ChatScreen.IsRead | mobile/components/ChatScreen.tsx:158-160 | no contract of its own. Its definition: a message is read when the other participant exists, has a read marker, and the marker is strictly later than the message's timestamp. ChatScreen.IsReadStrict and ChatScreen.ReadMark state its properties |
| ChatScreen.IsReadStrict | mobile/components/ChatScreen.tsx:158-160 | against a read marker t, a message counts as read exactly when it was stamped strictly before t |
| ChatScreen.ReadMark | mobile/components/ChatScreen.tsx:155-186 | only the current user's own message carries a mark, and the mark is the double tick exactly when the other participant's marker is strictly later than the message |
| ChatScreen.ReadMarkOnlyOnLast | mobile/components/ChatScreen.tsx:155-156 | in a list with distinct ids, a mark is shown exactly on the last message, and only when it is the current user's own |
| ChatScreen.FindMessage | mobile/components/ChatScreen.tsx:109 | the lookup finds a message exactly when its id is in the list, and returns the message of the first entry with that id |
| ChatScreen.HasReacted | mobile/components/ChatScreen.tsx:110 | no contract of its own. Its definition: `message?.reactions?.[u] === emoji`, false when the message is not in the list or the user has no slot. ChatScreen.ToggledSlot states the decision built on it |
| ChatScreen.ToggledSlot | mobile/components/ChatScreen.tsx:110-116 | the chosen emoji is removed when the user's slot already holds it, and set otherwise |
| ChatScreen.ToggleTwice | mobile/components/ChatScreen.tsx:105-116 | choosing the same emoji twice gives back the user's earlier state for that emoji and changes no other slot or field |
| ChatScreen.PassedCaption | mobile/components/ChatScreen.tsx:140 | the caption passed on (the trimmed input, or `undefined`) is absent exactly when the input is blank, and otherwise the trimmed input |
| ChatScreen.PassedCaptionStored | mobile/components/ChatScreen.tsx:140 | trimming on the screen and again in the store gives the same stored caption and preview as trimming once |
| ChatScreen.AtMostOnePending | mobile/components/ChatScreen.tsx:68-71 | while the timer invariant holds, at most one typing reset is pending |
| ChatScreen.SendText | mobile/components/ChatScreen.tsx:76-80 | a successful send adds the text message, sets the preview, then writes typing false |
| ChatScreen.SendComposedMedia | mobile/components/ChatScreen.tsx:140 | the media message stored carries the caption, and sets the preview, that the raw input gives |
| ChatScreen.Session.Open | mobile/components/ChatScreen.tsx:38-42 | the screen opens with empty state and no timer; the current user's read marker is written once, only when there is a conversation and a user |
| ChatScreen.Session.HandleInputChange | mobile/components/ChatScreen.tsx:64-72 | the input takes the text; with a conversation and a user, typing is written true, any pending reset is cancelled, and exactly one new reset is scheduled 1500 ms later |
| ChatScreen.Session.RestartReset | mobile/components/ChatScreen.tsx:68-71 | `clearTimeout` then `setTimeout`: afterwards the only pending timer is the new one, held by the ref, due 1500 ms from now |
| ChatScreen.Session.Expire | mobile/components/ChatScreen.tsx:69-71 | a due reset fires, leaves no timer pending and writes typing false; with no due reset nothing changes |
| ChatScreen.Session.HandleSend | mobile/components/ChatScreen.tsx:74-81 | nothing happens for a blank input or without a user; otherwise the trimmed text is sent, and only after a successful send is the input cleared and typing written false; a failed send changes nothing |
| ChatScreen.Session.ConfirmDelete | mobile/components/ChatScreen.tsx:83-103 | confirming deletes exactly the message; on failure the error alert is shown and the store is unchanged |
| ChatScreen.Session.HandleReactionSelect | mobile/components/ChatScreen.tsx:105-120 | a no-op without a selected message or a user; otherwise the user's slot is cleared when the local copy of the message holds this emoji, and set to it otherwise; a failure changes nothing |
| ChatScreen.Session.HandleReactionPress | mobile/components/ChatScreen.tsx:122-124 | a chip tap passes the chip's emoji to the toggle, applied to the selected message |
| ChatScreen.Session.PickReaction | mobile/components/ChatScreen.tsx:271-275 | choosing in the picker toggles the reaction and closes the picker |
| ChatScreen.Session.ShowReactionPicker | mobile/components/ChatScreen.tsx:126-129 | the message id is recorded and the picker opens; nothing else changes |
| ChatScreen.Session.CloseReactionPicker | mobile/components/ChatScreen.tsx:273 | the picker hides and the selection stays |
| ChatScreen.Session.OpenMediaPicker | mobile/components/ChatScreen.tsx:253 | the media picker shows |
| ChatScreen.Session.CloseMediaPicker | mobile/components/ChatScreen.tsx:279 | the media picker hides |
| ChatScreen.Session.HandleMediaSelect | mobile/components/ChatScreen.tsx:131-134 | the media is held for sending and the picker hides |
| ChatScreen.Session.EditCaption | mobile/components/ChatScreen.tsx:237 | the caption box sets the input and nothing else |
| ChatScreen.Session.HandleSendMedia | mobile/components/ChatScreen.tsx:136-147 | a no-op without selected media or a user; otherwise the media is sent with the trimmed input as caption (none when blank); on success the media and the input are cleared; on failure the error alert is shown and both stay |
| ChatScreen.Session.CancelMediaSelection | mobile/components/ChatScreen.tsx:149-152 | the media and the input are cleared |
| ChatScreen.Session.OnMessagesSnapshot | mobile/components/ChatScreen.tsx:29-36 | the list becomes exactly the conversation's messages, each once, oldest first |
| ChatScreen.Session.OnTypingSnapshot | mobile/components/ChatScreen.tsx:45-52 | "is typing" becomes the other participant's stored flag |
| ChatScreen.Session.OnReadStatusSnapshot | mobile/components/ChatScreen.tsx:54-61 | the local read markers become the conversation's stored ones |
| Server.IsDevelopment | backend/src/server.js:75 | no contract of its own. Its definition: `NODE_ENV` is exactly `"development"`. Server.ErrorResponse and Server.ErrorMessageHidden state what it decides |
| Server.NotFound | backend/src/server.js:50-52 | an unmatched request gets 404 with `{error: "Route not found"}` |
| Server.ErrorResponse | backend/src/server.js:55-77 | a `ValidationError` gets 400 with the error's message as `details`; a `CastError` gets 400 with "Invalid ID format"; every other error gets 500, whose `message` is the error's own only in development; the status is 400 or 500 exactly in those cases |
| Server.ErrorMessageHidden | backend/src/server.js:72-76 | outside development, no response to an error other than `ValidationError` carries the error's message |
| Server.Respond | backend/src/server.js:49-77 | a route's own answer passes through; a failing route always gets 400 or 500, never 404; among the fallback answers, 404 means exactly that no route matched the request, and it carries `{error: "Route not found"}` |
| Server.StartServer | backend/src/server.js:79-96 | a failed database connection exits with code 1; otherwise the server listens only when `NODE_ENV` is not "production", on `PORT` when it is set and not empty and on 5001 otherwise |

## Left out

- Push notifications (`sendNotificationToParticipants`, `getDeviceToken`, `sendPushNotification`): these are network I/O. Only the sender-exclusion rule is modelled, as `ChatStore.Recipients`. The sends do not call it, since the notification has no effect on the store.
- The live-subscription mechanics of the document store: `onSnapshot` fan-out, unsubscribe handles and replication. A snapshot is an explicit `On…Snapshot` event that reads the current store.
- `getReadStatus` and the snapshot payloads of `listenForTyping`/`listenForReadStatus` are the body-only functions `Store.ReadStatus` and `Store.TypingStatus`. Each returns `{}` for a missing document.
- Concurrency: interleaved handlers, races between participants and duplicate conversations from simultaneous first contact. Every operation is one atomic step.
- Partial failure inside one operation. `sendMessage` could store the message and then fail on the preview write; the model treats each handler's writes as all-or-nothing, decided by `reachable`.
- Pending-write `null` timestamps, `Date`, `toDate()` and `toLocaleTimeString`: timestamps are `nat`. The `.toDate` existence checks of `isRead` become the key-presence test.
- Strings.Trim: the white-space set is TAB, LF, VT, FF, CR, the space, U+00A0, U+2028, U+2029 and U+FEFF. The other space separators (U+1680, U+2000–U+200A, U+202F, U+205F, U+3000) are not listed.
- Strings.Before: compares Unicode scalar values, while JavaScript's default sort compares UTF-16 code units. The two orders differ only for characters outside the Basic Multilingual Plane.
- The order of keys in a JavaScript object. The reaction bar's input is the `Object.entries` list with distinct user ids, in whatever order it arrives; `EntriesOf` relates it to the `reactions` map.
- MessageReactions.RenderReactions: the order of the chips is not stated. In the source it is the key order of `Object.entries(reactionCounts)`: keys that look like array indices first, in numeric order, then the other keys in the order each emoji first appears. The contract states each chip's contents and that each emoji has exactly one chip. Emoji strings that name `Object.prototype` members are treated as ordinary keys, as under GroupReactions below.
- MessageReactions.GroupReactions: `reactionCounts` is a plain `{}`, so in the source an emoji string that names an `Object.prototype` member (`"constructor"`, `"toString"`, `"valueOf"`, `"hasOwnProperty"`, `"__proto__"`, …) finds the inherited member at line 17. The `push` at line 20 then throws during render. The model treats every emoji as an ordinary key and builds a group for it. The app itself writes only the six picker emojis (`mobile/components/ReactionPicker.tsx:10`).
- MessageReactions.AddEntry: the same gap for one step of the loop. For an emoji that names an `Object.prototype` member, the source's `push` throws, while the model adds the user to a new group.
- User ids that contain `.` (they would address a nested field path in `updateDoc`): a user id addresses one slot.
- The typing timer that remains pending when the screen unmounts is not modelled. A change of the `conversation` prop or of the signed-in user is a new `Session`.
- React rendering, styling, modals, list scrolling (including the 100 ms scroll timer), the media pickers and playback: these are UI and foreign library calls.
- The Express, CORS, Clerk and body-parser middleware, the routes and `connectDB`: connecting is the `dbConnected` parameter of `StartServer`, and a route is `Routed.Answered`.
- The logging calls (`console.log` and `console.error`).
