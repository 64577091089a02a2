/** The chat data layer of mobile/utils/chatFirestore.ts. The hosted document
    store is an in-memory object: the `conversations` collection is a map from
    document id to a conversation record, and each conversation's `messages`
    sub-collection is a map from document id to a message. `serverTimestamp()`
    is the store's own clock, which every timestamped write advances by one. */
module ChatStore {
  import opened Wrappers
  import opened Strings
  import opened Ordering

  type UserId = string

  /** Document ids. The store hands out fresh ones for `addDoc`. */
  type DocId = nat

  /** A `conversations/{id}` document. A document that only a merge write
      created has no participants field, written here as the empty list. */
  datatype Conversation = Conversation(
    participants: seq<UserId>,
    lastMessage: string,
    updatedAt: nat,
    typing: map<UserId, bool>,
    readBy: map<UserId, nat>)

  datatype MediaKind = Image | Video

  /** A message carries either text or a media reference. */
  datatype Body =
    | Text(text: string)
    | Media(url: string, kind: MediaKind, caption: Option<string>)

  /** A `conversations/{id}/messages/{id}` document. A reaction slot holding
      `None` is one that `removeReaction` set to `null`. */
  datatype Message = Message(
    senderId: UserId,
    createdAt: nat,
    body: Body,
    reactions: map<UserId, Option<string>>)

  /** `[userId1, userId2].sort()`: the two ids in string order, whichever way
      round they were given. */
  function SortPair(a: UserId, b: UserId): (r: seq<UserId>)
    ensures |r| == 2 && multiset(r) == multiset{a, b}
    ensures !Before(r[1], r[0])
  {
    if Before(b, a) then BeforeAsymmetric(b, a); [b, a] else [a, b]
  }

  /** The pair does not depend on which user starts the conversation, so
      `getOrCreateConversation(a, b)` and `getOrCreateConversation(b, a)`
      query for the same participant list. */
  lemma SortPairSymmetric(a: UserId, b: UserId)
    ensures SortPair(a, b) == SortPair(b, a)
  {
    if a != b {
      BeforeTotal(a, b);
      if Before(a, b) { BeforeAsymmetric(a, b); } else { BeforeAsymmetric(b, a); }
    }
  }

  /** The caption `sendMediaMessage` stores: the trimmed caption, and none at
      all when the caption is missing or blank. */
  function StoredCaption(caption: Option<string>): (r: Option<string>)
    ensures r.Some? <==> caption.Some? && !IsBlank(caption.value)
    ensures r.Some? ==> r.value == Trim(caption.value) && r.value != ""
  {
    if caption.Some? && Trim(caption.value) != "" then Some(Trim(caption.value)) else None
  }

  /** The preview of a media message without a caption. */
  function MediaPlaceholder(kind: MediaKind): string {
    match kind
    case Image => "📷 Image"
    case Video => "🎥 Video"
  }

  /** `lastMessageText`: the stored caption when there is one, otherwise the
      placeholder for the media kind; never an empty preview. */
  function LastMessageText(caption: Option<string>, kind: MediaKind): (r: string)
    ensures StoredCaption(caption).Some? ==> r == StoredCaption(caption).value
    ensures StoredCaption(caption).None? ==> r == MediaPlaceholder(kind)
    ensures r != ""
  {
    StoredCaption(caption).GetOr(MediaPlaceholder(kind))
  }

  /** The participants `sendNotificationToParticipants` notifies: every
      participant except the sender, in order. */
  function Recipients(participants: seq<UserId>, sender: UserId): (r: seq<UserId>)
    ensures forall p :: p in r <==> p in participants && p != sender
    ensures |r| <= |participants|
  {
    if participants == [] then []
    else (if participants[0] != sender then [participants[0]] else []) + Recipients(participants[1..], sender)
  }

  /** A `messages` sub-collection; one that was never written to is empty. */
  function MessagesIn(msgs: map<DocId, map<DocId, Message>>, c: DocId): map<DocId, Message> {
    if c in msgs then msgs[c] else map[]
  }

  /** `setDoc(conversation, {lastMessage, updatedAt}, {merge: true})`: the two
      fields are overwritten and the rest kept; a missing document is
      created with just those two fields. */
  function MergeLastMessage(convs: map<DocId, Conversation>, c: DocId, text: string, t: nat): Conversation {
    if c in convs then convs[c].(lastMessage := text, updatedAt := t)
    else Conversation([], text, t, map[], map[])
  }

  /** The conversations after `updateDoc(c, {['typing.' + u]: b})`: only
      `typing[u]` of conversation `c` differs, and nothing when `c` is
      missing (the update then fails). */
  function WithTyping(convs: map<DocId, Conversation>, c: DocId, u: UserId, b: bool): (r: map<DocId, Conversation>)
    ensures r.Keys == convs.Keys
    ensures forall k :: k in convs && k != c ==> r[k] == convs[k]
    ensures c in convs ==> u in r[c].typing && r[c].typing[u] == b
    ensures c in convs ==> forall v :: v != u ==>
      (v in r[c].typing <==> v in convs[c].typing) &&
      (v in convs[c].typing ==> r[c].typing[v] == convs[c].typing[v])
    ensures c in convs ==> r[c].(typing := convs[c].typing) == convs[c]
  {
    if c in convs then convs[c := convs[c].(typing := convs[c].typing[u := b])] else convs
  }

  /** The conversations after `updateDoc(c, {['readBy.' + u]: t})`: only
      `readBy[u]` of conversation `c` differs. */
  function WithReadMarker(convs: map<DocId, Conversation>, c: DocId, u: UserId, t: nat): (r: map<DocId, Conversation>)
    ensures r.Keys == convs.Keys
    ensures forall k :: k in convs && k != c ==> r[k] == convs[k]
    ensures c in convs ==> u in r[c].readBy && r[c].readBy[u] == t
    ensures c in convs ==> forall v :: v != u ==>
      (v in r[c].readBy <==> v in convs[c].readBy) &&
      (v in convs[c].readBy ==> r[c].readBy[v] == convs[c].readBy[v])
    ensures c in convs ==> r[c].(readBy := convs[c].readBy) == convs[c]
  {
    if c in convs then convs[c := convs[c].(readBy := convs[c].readBy[u := t])] else convs
  }

  /** The messages after `updateDoc(m, {['reactions.' + u]: slot})`: only
      user `u`'s slot on message `m` of conversation `c` differs, and
      nothing when the message is missing (the update then fails). */
  function WithReaction(msgs: map<DocId, map<DocId, Message>>, c: DocId, m: DocId, u: UserId, slot: Option<string>): (r: map<DocId, map<DocId, Message>>)
    ensures r.Keys == msgs.Keys
    ensures forall k :: k in msgs && k != c ==> r[k] == msgs[k]
    ensures c in msgs ==> r[c].Keys == msgs[c].Keys
    ensures c in msgs ==> forall n :: n in msgs[c] && n != m ==> r[c][n] == msgs[c][n]
    ensures c in msgs && m in msgs[c] ==> u in r[c][m].reactions && r[c][m].reactions[u] == slot
    ensures c in msgs && m in msgs[c] ==> forall v :: v != u ==>
      (v in r[c][m].reactions <==> v in msgs[c][m].reactions) &&
      (v in msgs[c][m].reactions ==> r[c][m].reactions[v] == msgs[c][m].reactions[v])
    ensures c in msgs && m in msgs[c] ==> r[c][m].(reactions := msgs[c][m].reactions) == msgs[c][m]
  {
    if c in msgs && m in msgs[c] then
      msgs[c := msgs[c][m := msgs[c][m].(reactions := msgs[c][m].reactions[u := slot])]]
    else msgs
  }

  /** The messages after `deleteDoc(m)`: exactly message `m` of conversation
      `c` is gone. */
  function WithoutMessage(msgs: map<DocId, map<DocId, Message>>, c: DocId, m: DocId): (r: map<DocId, map<DocId, Message>>)
    ensures r.Keys == msgs.Keys
    ensures forall k :: k in msgs && k != c ==> r[k] == msgs[k]
    ensures c in msgs ==> m !in r[c] && r[c].Keys == msgs[c].Keys - {m}
    ensures c in msgs ==> forall n :: n in r[c] ==> r[c][n] == msgs[c][n]
  {
    if c in msgs then msgs[c := msgs[c] - {m}] else msgs
  }

  /** No two conversations that have participants share a participant list
      (documents that only a merge write created have none). */
  ghost predicate UniquePairs(convs: map<DocId, Conversation>) {
    forall c1, c2 :: c1 in convs && c2 in convs && c1 != c2 && convs[c1].participants != [] ==>
      convs[c1].participants != convs[c2].participants
  }

  class Store {
    var conversations: map<DocId, Conversation>
    var messages: map<DocId, map<DocId, Message>>
    /** The last server timestamp handed out. */
    var clock: nat
    /** Every document id in use is below this. */
    var nextId: nat

    /** Ids in use are below `nextId`, no stored timestamp is ahead of the
        clock, and no two conversations that have participants share the
        participant list. */
    ghost predicate Valid()
      reads this
    {
      && (forall c :: c in conversations ==> c < nextId)
      && (forall c :: c in messages ==> c < nextId)
      && (forall c, m :: c in messages && m in messages[c] ==> m < nextId && messages[c][m].createdAt <= clock)
      && (forall c :: c in conversations ==> conversations[c].updatedAt <= clock)
      && (forall c, u :: c in conversations && u in conversations[c].readBy ==> conversations[c].readBy[u] <= clock)
      && UniquePairs(conversations)
    }

    constructor ()
      ensures Valid()
      ensures conversations == map[] && messages == map[] && clock == 0
    {
      conversations, messages, clock, nextId := map[], map[], 0, 0;
    }

    /** The query `where('participants', '==', pair)`: a conversation with
        exactly that participant list, if there is one. */
    method FindConversation(pair: seq<UserId>) returns (found: Option<DocId>)
      ensures found.Some? ==> found.value in conversations && conversations[found.value].participants == pair
      ensures found.None? ==> forall c :: c in conversations ==> conversations[c].participants != pair
    {
      var r := SortedEntries(conversations, (cv: Conversation) => cv.participants == pair, (cv: Conversation) => 0);
      if |r| > 0 {
        assert r[0].0 in KeysOf(r);
        found := Some(r[0].0);
      } else {
        found := None;
      }
    }

    /** `getOrCreateConversation(userId1, userId2)`: the conversation of the
        sorted pair, created with an empty preview when there is none yet.
        Afterwards that conversation is the only one with this pair. */
    method GetOrCreateConversation(userId1: UserId, userId2: UserId) returns (id: DocId)
      requires Valid()
      modifies this
      ensures Valid()
      ensures id in conversations && conversations[id].participants == SortPair(userId1, userId2)
      ensures forall c :: c in conversations && conversations[c].participants == SortPair(userId1, userId2) ==> c == id
      ensures (exists c :: c in old(conversations) && old(conversations)[c].participants == SortPair(userId1, userId2)) ==>
        id in old(conversations) && unchanged(this)
      ensures (forall c :: c in old(conversations) ==> old(conversations)[c].participants != SortPair(userId1, userId2)) ==>
        && id !in old(conversations)
        && conversations == old(conversations)[id := Conversation(SortPair(userId1, userId2), "", old(clock) + 1, map[], map[])]
        && messages == old(messages) && clock == old(clock) + 1 && nextId == old(nextId) + 1
    {
      var participants := SortPair(userId1, userId2);
      var found := FindConversation(participants);
      if found.Some? {
        return found.value;
      }
      id := nextId;
      nextId := nextId + 1;
      clock := clock + 1;
      conversations := conversations[id := Conversation(participants, "", clock, map[], map[])];
    }

    /** `addDoc` on a conversation's `messages`: a new message with a fresh
        id and the next server timestamp. */
    method AddMessage(c: DocId, sender: UserId, body: Body)
      requires Valid()
      modifies this
      ensures c in messages && old(nextId) !in MessagesIn(old(messages), c)
      ensures messages == old(messages)[c := MessagesIn(old(messages), c)[old(nextId) := Message(sender, old(clock) + 1, body, map[])]]
      ensures conversations == old(conversations) && clock == old(clock) + 1 && nextId == old(nextId) + 1
      ensures (forall k :: k in conversations ==> k < nextId) && UniquePairs(conversations)
      ensures forall k, m :: k in messages && m in messages[k] ==> m < nextId && messages[k][m].createdAt <= clock
      ensures forall k :: k in conversations ==> conversations[k].updatedAt <= clock
      ensures forall k, u :: k in conversations && u in conversations[k].readBy ==> conversations[k].readBy[u] <= clock
      ensures forall k :: k in messages && k != c ==> k < nextId
    {
      clock := clock + 1;
      messages := messages[c := MessagesIn(messages, c)[nextId := Message(sender, clock, body, map[])]];
      nextId := nextId + 1;
    }

    /** The merge write of the conversation's preview and `updatedAt`. */
    method SetLastMessage(c: DocId, text: string)
      requires (forall k :: k in conversations ==> k < nextId) && UniquePairs(conversations)
      requires forall k, m :: k in messages && m in messages[k] ==> m < nextId && messages[k][m].createdAt <= clock
      requires forall k :: k in conversations ==> conversations[k].updatedAt <= clock
      requires forall k, u :: k in conversations && u in conversations[k].readBy ==> conversations[k].readBy[u] <= clock
      requires forall k :: k in messages && k != c ==> k < nextId
      modifies this
      ensures Valid()
      ensures conversations == old(conversations)[c := MergeLastMessage(old(conversations), c, text, old(clock) + 1)]
      ensures messages == old(messages) && clock == old(clock) + 1
      ensures nextId == if c >= old(nextId) then c + 1 else old(nextId)
    {
      clock := clock + 1;
      conversations := conversations[c := MergeLastMessage(conversations, c, text, clock)];
      if c >= nextId {
        nextId := c + 1;
      }
    }

    /** `sendMessage(conversationId, senderId, text)`: one new text message,
        and the conversation's preview becomes the text. Every other
        conversation and every existing message stays as it was. */
    method SendMessage(c: DocId, sender: UserId, text: string)
      requires Valid()
      modifies this
      ensures Valid()
      ensures old(nextId) !in MessagesIn(old(messages), c)
      ensures messages == old(messages)[c := MessagesIn(old(messages), c)[old(nextId) := Message(sender, old(clock) + 1, Text(text), map[])]]
      ensures conversations == old(conversations)[c := MergeLastMessage(old(conversations), c, text, old(clock) + 2)]
      ensures clock == old(clock) + 2
      ensures nextId == if c > old(nextId) then c + 1 else old(nextId) + 1
    {
      AddMessage(c, sender, Text(text));
      SetLastMessage(c, text);
    }

    /** `sendMediaMessage(...)`: one new media message, carrying the trimmed
        caption only when it is not blank, and the conversation's preview
        becomes that caption or the placeholder for the media kind. */
    method SendMediaMessage(c: DocId, sender: UserId, url: string, kind: MediaKind, caption: Option<string>)
      requires Valid()
      modifies this
      ensures Valid()
      ensures old(nextId) !in MessagesIn(old(messages), c)
      ensures messages == old(messages)[c := MessagesIn(old(messages), c)[old(nextId) :=
        Message(sender, old(clock) + 1, Media(url, kind, StoredCaption(caption)), map[])]]
      ensures conversations == old(conversations)[c := MergeLastMessage(old(conversations), c, LastMessageText(caption, kind), old(clock) + 2)]
      ensures clock == old(clock) + 2
      ensures nextId == if c > old(nextId) then c + 1 else old(nextId) + 1
    {
      AddMessage(c, sender, Media(url, kind, StoredCaption(caption)));
      SetLastMessage(c, LastMessageText(caption, kind));
    }

    /** `setTypingStatus(c, u, b)`: only `typing[u]` of conversation `c`
        changes; `updateDoc` fails on a missing conversation. */
    method SetTypingStatus(c: DocId, u: UserId, isTyping: bool) returns (ok: bool)
      requires Valid()
      modifies this
      ensures Valid()
      ensures ok == (c in old(conversations))
      ensures conversations == WithTyping(old(conversations), c, u, isTyping)
      ensures messages == old(messages) && clock == old(clock) && nextId == old(nextId)
    {
      ok := c in conversations;
      if ok {
        conversations := conversations[c := conversations[c].(typing := conversations[c].typing[u := isTyping])];
      }
    }

    /** `markMessagesAsRead(c, u)`: only `readBy[u]` of conversation `c`
        changes, to a new server timestamp, which is later than every message
        of the conversation and than the user's previous read marker. */
    method MarkMessagesAsRead(c: DocId, u: UserId) returns (ok: bool)
      requires Valid()
      modifies this
      ensures Valid()
      ensures ok == (c in old(conversations))
      ensures ok ==> clock == old(clock) + 1
      ensures !ok ==> clock == old(clock)
      ensures conversations == WithReadMarker(old(conversations), c, u, clock)
      ensures ok ==> forall m :: m in MessagesIn(messages, c) ==> MessagesIn(messages, c)[m].createdAt < conversations[c].readBy[u]
      ensures ok && u in old(conversations)[c].readBy ==> old(conversations)[c].readBy[u] < conversations[c].readBy[u]
      ensures messages == old(messages) && nextId == old(nextId)
    {
      ok := c in conversations;
      if ok {
        clock := clock + 1;
        conversations := conversations[c := conversations[c].(readBy := conversations[c].readBy[u := clock])];
      }
    }

    /** The `updateDoc` of one reaction slot; it fails on a missing message. */
    method SetReaction(c: DocId, m: DocId, u: UserId, slot: Option<string>) returns (ok: bool)
      requires Valid()
      modifies this
      ensures Valid()
      ensures ok == (c in old(messages) && m in old(messages)[c])
      ensures messages == WithReaction(old(messages), c, m, u, slot)
      ensures conversations == old(conversations) && clock == old(clock) && nextId == old(nextId)
    {
      ok := c in messages && m in messages[c];
      if ok {
        var msg := messages[c][m];
        messages := messages[c := messages[c][m := msg.(reactions := msg.reactions[u := slot])]];
      }
    }

    /** `addReaction(c, m, u, emoji)`: user `u`'s one slot on message `m`
        holds `emoji`, whatever it held before; no other slot changes. */
    method AddReaction(c: DocId, m: DocId, u: UserId, emoji: string) returns (ok: bool)
      requires Valid()
      modifies this
      ensures Valid()
      ensures ok == (c in old(messages) && m in old(messages)[c])
      ensures messages == WithReaction(old(messages), c, m, u, Some(emoji))
      ensures conversations == old(conversations) && clock == old(clock) && nextId == old(nextId)
    {
      ok := SetReaction(c, m, u, Some(emoji));
    }

    /** `removeReaction(c, m, u)`: user `u`'s slot on message `m` becomes
        `null`; no other slot changes. */
    method RemoveReaction(c: DocId, m: DocId, u: UserId) returns (ok: bool)
      requires Valid()
      modifies this
      ensures Valid()
      ensures ok == (c in old(messages) && m in old(messages)[c])
      ensures messages == WithReaction(old(messages), c, m, u, None)
      ensures conversations == old(conversations) && clock == old(clock) && nextId == old(nextId)
    {
      ok := SetReaction(c, m, u, None);
    }

    /** `deleteMessage(c, m)`: exactly message `m` is gone (deleting a missing
        document is not an error); the conversation's preview is not touched. */
    method DeleteMessage(c: DocId, m: DocId)
      requires Valid()
      modifies this
      ensures Valid()
      ensures messages == WithoutMessage(old(messages), c, m)
      ensures conversations == old(conversations) && clock == old(clock) && nextId == old(nextId)
    {
      if c in messages {
        messages := messages[c := messages[c] - {m}];
      }
    }

    /** `getConversations(userId)`: exactly the conversations that have the
        user among their participants, each once, most recently updated first. */
    method GetConversations(u: UserId) returns (r: seq<(DocId, Conversation)>)
      ensures forall i :: 0 <= i < |r| ==> r[i].0 in conversations && r[i].1 == conversations[r[i].0]
      ensures forall c :: c in KeysOf(r) <==> c in conversations && u in conversations[c].participants
      ensures Distinct(KeysOf(r))
      ensures forall i, j :: 0 <= i < j < |r| ==> r[i].1.updatedAt >= r[j].1.updatedAt
    {
      var key: Conversation -> int := (cv: Conversation) => -(cv.updatedAt as int);
      r := SortedEntries(conversations, (cv: Conversation) => u in cv.participants, key);
      assert forall i, j :: 0 <= i < j < |r| ==> key(r[i].1) <= key(r[j].1);
    }

    /** The query of `listenForMessages(c)`: the conversation's messages, each
        once, oldest first. */
    method ListMessages(c: DocId) returns (r: seq<(DocId, Message)>)
      ensures forall i :: 0 <= i < |r| ==> r[i].0 in MessagesIn(messages, c) && r[i].1 == MessagesIn(messages, c)[r[i].0]
      ensures forall m :: m in KeysOf(r) <==> m in MessagesIn(messages, c)
      ensures Distinct(KeysOf(r))
      ensures forall i, j :: 0 <= i < j < |r| ==> r[i].1.createdAt <= r[j].1.createdAt
    {
      var key := (msg: Message) => msg.createdAt;
      r := SortedEntries(MessagesIn(messages, c), (msg: Message) => true, key);
      assert forall i, j :: 0 <= i < j < |r| ==> key(r[i].1) <= key(r[j].1);
    }

    /** The `typing` map `listenForTyping` delivers (`{}` for a missing
        document). */
    function TypingStatus(c: DocId): map<UserId, bool>
      reads this
    {
      if c in conversations then conversations[c].typing else map[]
    }

    /** The `readBy` map `listenForReadStatus` and `getReadStatus` deliver
        (`{}` for a missing document). */
    function ReadStatus(c: DocId): map<UserId, nat>
      reads this
    {
      if c in conversations then conversations[c].readBy else map[]
    }
  }
}
