/** The chat screen of mobile/components/ChatScreen.tsx: what it derives from
    the conversation for display (the other participant, "is typing", the
    read mark), and the session state that its event handlers change, with
    the typing-reset timer as an explicit table of pending deadlines. */
module ChatScreen {
  import opened Wrappers
  import opened Strings
  import opened Ordering
  import opened ChatStore
  import MessageReactions

  /** Milliseconds after the last keystroke at which typing is reset. */
  const TypingResetDelay: nat := 1500

  /** `Array.prototype.findIndex`, with `|s|` for "not found": the first
      position whose element satisfies `p`. */
  function FirstIndex<T>(s: seq<T>, p: T -> bool): (i: nat)
    ensures i <= |s|
    ensures forall k :: 0 <= k < i ==> !p(s[k])
    ensures i < |s| ==> p(s[i])
  {
    if s == [] || p(s[0]) then 0 else 1 + FirstIndex(s[1..], p)
  }

  /** `conversation.participants.find(id => id !== me)`: the first
      participant who is not the current user, and none only when every
      participant is the current user. */
  function OtherParticipant(participants: seq<UserId>, me: UserId): (r: Option<UserId>)
    ensures r.None? <==> forall k :: 0 <= k < |participants| ==> participants[k] == me
    ensures r.Some? ==> r.value != me && r.value in participants
    ensures r.Some? ==> exists i ::
      && 0 <= i < |participants| && participants[i] == r.value
      && forall k :: 0 <= k < i ==> participants[k] == me
  {
    var i := FirstIndex(participants, (id: UserId) => id != me);
    if i < |participants| then Some(participants[i]) else None
  }

  /** In a conversation created for two different users, each one sees the
      other as the other participant. */
  lemma OtherOfPair(a: UserId, b: UserId)
    requires a != b
    ensures OtherParticipant(SortPair(a, b), a) == Some(b)
    ensures OtherParticipant(SortPair(a, b), b) == Some(a)
  {
  }

  /** `!!typingStatus[otherUserId]`: the other participant's typing flag,
      false when there is no other participant or no flag. */
  function IsOtherTyping(typing: map<UserId, bool>, other: Option<UserId>): (r: bool)
    ensures r ==> other.Some? && other.value in typing
    ensures other.Some? && other.value in typing ==> r == typing[other.value]
  {
    other.Some? && other.value in typing && typing[other.value]
  }

  /** The read-receipt test: the other participant has a read marker, and it
      is strictly later than the message's timestamp. */
  predicate IsRead(readStatus: map<UserId, nat>, other: Option<UserId>, createdAt: nat) {
    other.Some? && other.value in readStatus && readStatus[other.value] > createdAt
  }

  /** Against a read marker `t`, a message counts as read exactly when it
      was stamped strictly before `t`: one stamped at the same instant does
      not. */
  lemma IsReadStrict(readStatus: map<UserId, nat>, other: UserId, t: nat, createdAt: nat)
    ensures IsRead(readStatus[other := t], Some(other), createdAt) <==> createdAt < t
  {
  }

  /** The mark under a message: none, one tick (sent), or two (seen). */
  datatype Mark = NoMark | Sent | Seen

  /** The mark `renderMessage` puts under message `i`: only the current
      user's own message that is the last of the list carries one, and it is
      `Seen` exactly when the other participant has read it. */
  function ReadMark(list: seq<(DocId, Message)>, i: nat, me: UserId, other: Option<UserId>,
                    readStatus: map<UserId, nat>): (r: Mark)
    requires i < |list|
    ensures r != NoMark ==> list[i].1.senderId == me
    ensures r == Seen <==> r != NoMark && IsRead(readStatus, other, list[i].1.createdAt)
  {
    var isOwn := list[i].1.senderId == me;
    var isLast := list[|list| - 1].0 == list[i].0;
    if !(isOwn && isLast) then NoMark
    else if IsRead(readStatus, other, list[i].1.createdAt) then Seen
    else Sent
  }

  /** With the ids of the list distinct (as a query delivers them), the mark
      is shown on the last message only, and on it exactly when it is the
      current user's. */
  lemma ReadMarkOnlyOnLast(list: seq<(DocId, Message)>, i: nat, me: UserId, other: Option<UserId>,
                           readStatus: map<UserId, nat>)
    requires i < |list| && Distinct(KeysOf(list))
    ensures ReadMark(list, i, me, other, readStatus) != NoMark <==>
      i == |list| - 1 && list[i].1.senderId == me
  {
    var ks := KeysOf(list);
    if i != |list| - 1 {
      assert ks[i] != ks[|list| - 1];
    }
  }

  /** `messages.find(m => m.id === id)` on the screen's list. */
  function FindMessage(list: seq<(DocId, Message)>, id: DocId): (r: Option<Message>)
    ensures r.None? <==> id !in KeysOf(list)
    ensures r.Some? ==> exists i ::
      && 0 <= i < |list| && list[i] == (id, r.value)
      && forall k :: 0 <= k < i ==> list[k].0 != id
  {
    var i := FirstIndex(list, (e: (DocId, Message)) => e.0 == id);
    if i < |list| then
      assert KeysOf(list)[i] == id && list[i] == (id, list[i].1);
      Some(list[i].1)
    else
      assert forall k :: 0 <= k < |list| ==> KeysOf(list)[k] != id;
      None
  }

  /** `message?.reactions?.[u] === emoji`. */
  predicate HasReacted(found: Option<Message>, u: UserId, emoji: string) {
    found.Some? && u in found.value.reactions && found.value.reactions[u] == Some(emoji)
  }

  /** The toggle-or-set decision of `handleReactionSelect`: the slot is
      cleared when it already holds the emoji, and set to it otherwise. */
  function ToggledSlot(found: Option<Message>, u: UserId, emoji: string): (slot: Option<string>)
    ensures slot.None? <==> HasReacted(found, u, emoji)
    ensures slot.Some? ==> slot.value == emoji
  {
    if HasReacted(found, u, emoji) then None else Some(emoji)
  }

  /** A message with the toggle applied to user `u`'s slot. */
  function Toggle(msg: Message, u: UserId, emoji: string): Message {
    msg.(reactions := msg.reactions[u := ToggledSlot(Some(msg), u, emoji)])
  }

  /** Choosing the same emoji twice (the list refreshed in between) leaves
      the user with that emoji exactly when they had it before, so a user who
      had not reacted with it ends with no reaction; every other slot and
      every other field are as they were. */
  lemma ToggleTwice(msg: Message, u: UserId, emoji: string)
    ensures var m2 := Toggle(Toggle(msg, u, emoji), u, emoji);
      && u in m2.reactions
      && (HasReacted(Some(msg), u, emoji) ==> m2.reactions[u] == Some(emoji))
      && (!HasReacted(Some(msg), u, emoji) ==> m2.reactions[u] == None)
      && m2.(reactions := msg.reactions) == msg
      && forall v :: v != u ==>
           (v in m2.reactions <==> v in msg.reactions) &&
           (v in msg.reactions ==> m2.reactions[v] == msg.reactions[v])
  {
  }

  /** The caption `handleSendMedia` passes on: `input.trim() || undefined`. */
  function PassedCaption(input: string): (r: Option<string>)
    ensures r.None? <==> IsBlank(input)
    ensures r.Some? ==> r.value == Trim(input)
  {
    if Trim(input) == "" then None else Some(Trim(input))
  }

  /** Trimming the caption on the screen and again in the store comes to the
      same as trimming it once: the stored caption and the preview are the
      ones the raw input gives. */
  lemma PassedCaptionStored(input: string, kind: MediaKind)
    ensures StoredCaption(PassedCaption(input)) == StoredCaption(Some(input))
    ensures LastMessageText(PassedCaption(input), kind) == LastMessageText(Some(input), kind)
  {
    if !IsBlank(input) {
      TrimIdempotent(input);
    }
  }

  /** The media picked for sending and its kind. */
  datatype MediaSelection = MediaSelection(uri: string, kind: MediaKind)

  /** An `Alert.alert(title, text)` shown to the user. */
  datatype Alert = Alert(title: string, text: string)

  /** The screen's React state (apart from the typing timer). */
  datatype Screen = Screen(
    messages: seq<(DocId, Message)>,
    input: string,
    isOtherTyping: bool,
    readStatus: map<UserId, nat>,
    reactionPickerVisible: bool,
    selectedMessageId: Option<DocId>,
    showMediaPicker: bool,
    selectedMedia: Option<MediaSelection>,
    alerts: seq<Alert>)

  /** The typing timer: the `typingTimeout` ref, the pending timers with
      their deadlines, and the next timer id the runtime hands out. */
  datatype Timers = Timers(typingTimeout: Option<nat>, pending: map<nat, nat>, nextTimer: nat)

  /** The only timer that can be pending is the one the ref holds, and only
      when `armed`: there is a conversation and a user to reset typing for. */
  ghost predicate TimersOk(t: Timers, armed: bool) {
    && (forall id :: id in t.pending ==> t.typingTimeout == Some(id) && id < t.nextTimer)
    && (t.typingTimeout.Some? ==> t.typingTimeout.value < t.nextTimer)
    && (t.pending != map[] ==> armed)
  }

  /** At most one typing reset is ever pending. */
  lemma AtMostOnePending(t: Timers, armed: bool)
    requires TimersOk(t, armed)
    ensures |t.pending.Keys| <= 1
  {
    if t.typingTimeout.Some? && t.typingTimeout.value in t.pending {
      assert t.pending.Keys == {t.typingTimeout.value};
    } else {
      assert t.pending.Keys == {};
    }
  }

  /** The reset the ref holds is pending and its deadline has passed. */
  predicate Due(t: Timers, now: nat) {
    t.typingTimeout.Some? && t.typingTimeout.value in t.pending && t.pending[t.typingTimeout.value] <= now
  }

  /** The alerts `handleSendMedia` and the delete confirmation show. */
  const MediaFailed: Alert := Alert("Error", "Failed to send media message")
  const DeleteFailed: Alert := Alert("Error", "Failed to delete message")

  /** The writes of a successful `handleSend()`: the text message, then
      typing false (which cannot fail, as the send has just merged the
      conversation document). */
  method SendText(store: Store, c: DocId, u: UserId, text: string)
    requires store.Valid()
    modifies store
    ensures store.Valid()
    ensures store.messages == old(store.messages)[c := MessagesIn(old(store.messages), c)[old(store.nextId) :=
      Message(u, old(store.clock) + 1, Text(text), map[])]]
    ensures store.conversations == WithTyping(old(store.conversations)[c :=
      MergeLastMessage(old(store.conversations), c, text, old(store.clock) + 2)], c, u, false)
    ensures store.clock == old(store.clock) + 2
    ensures store.nextId == if c > old(store.nextId) then c + 1 else old(store.nextId) + 1
  {
    store.SendMessage(c, u, text);
    var _ := store.SetTypingStatus(c, u, false);
  }

  /** The write of a `handleSendMedia()` that reaches the store: the media
      with `input.trim() || undefined` as its caption, which the store trims
      once more. */
  method SendComposedMedia(store: Store, c: DocId, u: UserId, media: MediaSelection, input: string)
    requires store.Valid()
    modifies store
    ensures store.Valid()
    ensures store.messages == old(store.messages)[c := MessagesIn(old(store.messages), c)[old(store.nextId) :=
      Message(u, old(store.clock) + 1, Media(media.uri, media.kind, StoredCaption(Some(input))), map[])]]
    ensures store.conversations == old(store.conversations)[c :=
      MergeLastMessage(old(store.conversations), c, LastMessageText(Some(input), media.kind), old(store.clock) + 2)]
    ensures store.clock == old(store.clock) + 2
    ensures store.nextId == if c > old(store.nextId) then c + 1 else old(store.nextId) + 1
  {
    var caption := PassedCaption(input);
    PassedCaptionStored(input, media.kind);
    store.SendMediaMessage(c, u, media.uri, media.kind, caption);
  }

  /** One open chat screen. `store` is the document store it talks to;
      `conversation`, `participants` and `currentUser` are its props and the
      signed-in user (an absent id is `None`). A failed network round trip
      is the `reachable` parameter of a handler being false; a write then
      does not happen. */
  class Session {
    const store: Store
    const conversation: Option<DocId>
    const participants: seq<UserId>
    const currentUser: Option<UserId>

    var messages: seq<(DocId, Message)>
    var input: string
    var isOtherTyping: bool
    var readStatus: map<UserId, nat>
    var reactionPickerVisible: bool
    var selectedMessageId: Option<DocId>
    var showMediaPicker: bool
    var selectedMedia: Option<MediaSelection>
    var alerts: seq<Alert>

    var timer: Timers

    function State(): Screen
      reads this
    {
      Screen(messages, input, isOtherTyping, readStatus, reactionPickerVisible,
             selectedMessageId, showMediaPicker, selectedMedia, alerts)
    }

    /** The store is consistent and so is the typing timer. */
    ghost predicate Valid()
      reads this, store
    {
      store.Valid() && TimersOk(timer, conversation.Some? && currentUser.Some?)
    }

    /** Opening the screen: empty local state, and the current user's read
        marker is written once, when there is a conversation and a user. */
    constructor Open(store: Store, conversation: Option<DocId>, participants: seq<UserId>,
                     currentUser: Option<UserId>, reachable: bool)
      requires store.Valid()
      modifies store
      ensures Valid()
      ensures this.store == store && this.conversation == conversation
      ensures this.participants == participants && this.currentUser == currentUser
      ensures State() == Screen([], "", false, map[], false, None, false, None, [])
      ensures timer == Timers(None, map[], 0)
      ensures conversation.Some? && currentUser.Some? && reachable ==>
        && store.conversations == WithReadMarker(old(store.conversations), conversation.value, currentUser.value, store.clock)
        && (conversation.value in old(store.conversations) ==> store.clock == old(store.clock) + 1)
        && (conversation.value !in old(store.conversations) ==> store.clock == old(store.clock))
        && store.messages == old(store.messages) && store.nextId == old(store.nextId)
      ensures !(conversation.Some? && currentUser.Some? && reachable) ==> unchanged(store)
    {
      this.store := store;
      this.conversation := conversation;
      this.participants := participants;
      this.currentUser := currentUser;
      messages, input, isOtherTyping, readStatus := [], "", false, map[];
      reactionPickerVisible, selectedMessageId, showMediaPicker, selectedMedia, alerts := false, None, false, None, [];
      timer := Timers(None, map[], 0);
      new;
      if conversation.Some? && currentUser.Some? && reachable {
        var _ := store.MarkMessagesAsRead(conversation.value, currentUser.value);
      }
    }

    /** `handleInputChange(text)` at time `now`: the input takes the text;
        with a conversation and a user, typing is written true, the pending
        reset is cancelled, and one new reset is scheduled 1500 ms later. */
    method HandleInputChange(text: string, now: nat, reachable: bool)
      requires Valid()
      modifies this, store
      ensures Valid()
      ensures State() == old(State()).(input := text)
      ensures conversation.None? || currentUser.None? ==> timer == old(timer) && unchanged(store)
      ensures conversation.Some? && currentUser.Some? ==>
        && timer.typingTimeout == Some(old(timer.nextTimer)) && timer.nextTimer == old(timer.nextTimer) + 1
        && timer.pending.Keys == {old(timer.nextTimer)} && timer.pending[old(timer.nextTimer)] == now + TypingResetDelay
        && store.conversations == (if reachable then WithTyping(old(store.conversations), conversation.value, currentUser.value, true)
                                   else old(store.conversations))
        && store.messages == old(store.messages) && store.clock == old(store.clock) && store.nextId == old(store.nextId)
    {
      input := text;
      if conversation.None? || currentUser.None? {
        return;
      }
      if reachable {
        var _ := store.SetTypingStatus(conversation.value, currentUser.value, true);
      }
      RestartReset(now);
    }

    /** `clearTimeout(typingTimeout.current)` followed by a new `setTimeout`,
        whose fresh id the ref takes. */
    method RestartReset(now: nat)
      requires forall id :: id in timer.pending ==> timer.typingTimeout == Some(id)
      modifies this
      ensures State() == old(State())
      ensures timer.typingTimeout == Some(old(timer.nextTimer)) && timer.nextTimer == old(timer.nextTimer) + 1
      ensures timer.pending.Keys == {old(timer.nextTimer)} && timer.pending[old(timer.nextTimer)] == now + TypingResetDelay
    {
      var pending := timer.pending;
      if timer.typingTimeout.Some? {
        pending := pending - {timer.typingTimeout.value};
      }
      var id := timer.nextTimer;
      timer := Timers(Some(id), pending[id := now + TypingResetDelay], id + 1);
    }

    /** The timer runtime at time `now`: a reset whose deadline has passed
        fires and writes typing false; the ref keeps the fired timer's id. */
    method Expire(now: nat, reachable: bool)
      requires Valid()
      modifies this, store
      ensures Valid()
      ensures State() == old(State())
      ensures timer.typingTimeout == old(timer.typingTimeout) && timer.nextTimer == old(timer.nextTimer)
      ensures var due := Due(old(timer), now);
        && (due ==> conversation.Some? && currentUser.Some? && timer.pending == map[])
        && (!due ==> timer == old(timer) && unchanged(store))
        && (due ==> store.conversations == (if reachable then WithTyping(old(store.conversations), conversation.value, currentUser.value, false)
                                            else old(store.conversations)))
        && (due ==> store.messages == old(store.messages) && store.clock == old(store.clock) && store.nextId == old(store.nextId))
    {
      if Due(timer, now) {
        timer := timer.(pending := timer.pending - {timer.typingTimeout.value});
        if reachable {
          var _ := store.SetTypingStatus(conversation.value, currentUser.value, false);
        }
      }
    }

    /** `handleSend()` goes through to the store: the trimmed input is not
        empty, and there is a user and a conversation. */
    ghost predicate SendsText()
      reads this
    {
      Trim(input) != "" && currentUser.Some? && conversation.Some?
    }

    /** `handleSend()`: nothing happens when the input is blank or there is no
        user. Otherwise the trimmed text is sent; only when that succeeds is
        the input cleared and typing written false (the pending reset is not
        cancelled). A failed send changes nothing. */
    method HandleSend(reachable: bool)
      requires Valid()
      modifies this, store
      ensures Valid()
      ensures timer == old(timer)
      ensures !(old(SendsText()) && reachable) ==> State() == old(State()) && unchanged(store)
      ensures old(SendsText()) && reachable ==> State() == old(State()).(input := "")
      ensures old(SendsText()) && reachable ==>
        store.messages == old(store.messages)[conversation.value :=
          MessagesIn(old(store.messages), conversation.value)[old(store.nextId) :=
            Message(currentUser.value, old(store.clock) + 1, Text(Trim(old(input))), map[])]]
      ensures old(SendsText()) && reachable ==>
        store.conversations == WithTyping(
          old(store.conversations)[conversation.value :=
            MergeLastMessage(old(store.conversations), conversation.value, Trim(old(input)), old(store.clock) + 2)],
          conversation.value, currentUser.value, false)
      ensures old(SendsText()) && reachable ==>
        && store.clock == old(store.clock) + 2
        && store.nextId == if conversation.value > old(store.nextId) then conversation.value + 1 else old(store.nextId) + 1
    {
      var text := Trim(input);
      if text == "" || currentUser.None? {
        return;
      }
      if conversation.None? || !reachable {
        // the send rejects: `conversation.id` throws, or the write fails
        return;
      }
      SendText(store, conversation.value, currentUser.value, text);
      input := "";
    }

    /** The Delete button of the confirmation dialog for message `id`: the
        message is deleted, or on failure an error alert is shown. Any
        message can be deleted, not only the current user's own. */
    method ConfirmDelete(id: DocId, reachable: bool)
      requires Valid()
      modifies this, store
      ensures Valid()
      ensures timer == old(timer)
      ensures conversation.Some? && reachable ==>
        && State() == old(State())
        && store.messages == WithoutMessage(old(store.messages), conversation.value, id)
        && store.conversations == old(store.conversations) && store.clock == old(store.clock) && store.nextId == old(store.nextId)
      ensures !(conversation.Some? && reachable) ==>
        State() == old(State()).(alerts := old(alerts) + [DeleteFailed]) && unchanged(store)
    {
      if conversation.Some? && reachable {
        store.DeleteMessage(conversation.value, id);
      } else {
        alerts := alerts + [DeleteFailed];
      }
    }

    /** `handleReactionSelect(emoji)`: nothing without a selected message or
        a user. Otherwise the current user's slot on the selected message is
        cleared when the local copy of the message holds this emoji, and set
        to it otherwise. A failure is only logged: the screen never changes. */
    method HandleReactionSelect(emoji: string, reachable: bool)
      requires Valid()
      modifies store
      ensures Valid()
      ensures var write := selectedMessageId.Some? && currentUser.Some? && conversation.Some? && reachable;
        && (write ==> store.messages == WithReaction(old(store.messages), conversation.value, selectedMessageId.value,
              currentUser.value, ToggledSlot(FindMessage(messages, selectedMessageId.value), currentUser.value, emoji)))
        && (!write ==> store.messages == old(store.messages))
      ensures store.conversations == old(store.conversations) && store.clock == old(store.clock) && store.nextId == old(store.nextId)
    {
      if selectedMessageId.None? || currentUser.None? {
        return;
      }
      if conversation.None? || !reachable {
        // `conversation.id` throws, or the write fails: only logged
        return;
      }
      var found := FindMessage(messages, selectedMessageId.value);
      if HasReacted(found, currentUser.value, emoji) {
        var _ := store.RemoveReaction(conversation.value, selectedMessageId.value, currentUser.value);
      } else {
        var _ := store.AddReaction(conversation.value, selectedMessageId.value, currentUser.value, emoji);
      }
    }

    /** A tap on a reaction chip hands its emoji to `handleReactionSelect`,
        which acts on the message last opened in the picker, not necessarily
        the one the chip belongs to. */
    method HandleReactionPress(chip: MessageReactions.Chip, reachable: bool)
      requires Valid()
      modifies store
      ensures Valid()
      ensures var write := selectedMessageId.Some? && currentUser.Some? && conversation.Some? && reachable;
        && (write ==> store.messages == WithReaction(old(store.messages), conversation.value, selectedMessageId.value,
              currentUser.value, ToggledSlot(FindMessage(messages, selectedMessageId.value), currentUser.value, chip.emoji)))
        && (!write ==> store.messages == old(store.messages))
      ensures store.conversations == old(store.conversations) && store.clock == old(store.clock) && store.nextId == old(store.nextId)
    {
      HandleReactionSelect(chip.emoji, reachable);
    }

    /** Choosing an emoji in the picker: the reaction is handled and the
        picker closes. */
    method PickReaction(emoji: string, reachable: bool)
      requires Valid()
      modifies this, store
      ensures Valid()
      ensures State() == old(State()).(reactionPickerVisible := false)
      ensures timer == old(timer)
      ensures var write := selectedMessageId.Some? && currentUser.Some? && conversation.Some? && reachable;
        && (write ==> store.messages == WithReaction(old(store.messages), conversation.value, selectedMessageId.value,
              currentUser.value, ToggledSlot(FindMessage(messages, selectedMessageId.value), currentUser.value, emoji)))
        && (!write ==> store.messages == old(store.messages))
      ensures store.conversations == old(store.conversations) && store.clock == old(store.clock) && store.nextId == old(store.nextId)
    {
      HandleReactionSelect(emoji, reachable);
      reactionPickerVisible := false;
    }

    /** `showReactionPicker(id)`: the message is selected and the picker
        opens. */
    method ShowReactionPicker(id: DocId)
      modifies this
      ensures State() == old(State()).(selectedMessageId := Some(id), reactionPickerVisible := true)
      ensures timer == old(timer)
    {
      selectedMessageId := Some(id);
      reactionPickerVisible := true;
    }

    /** The picker's close: it hides; the selection stays. */
    method CloseReactionPicker()
      modifies this
      ensures State() == old(State()).(reactionPickerVisible := false)
      ensures timer == old(timer)
    {
      reactionPickerVisible := false;
    }

    /** The attachment button shows the media picker. */
    method OpenMediaPicker()
      modifies this
      ensures State() == old(State()).(showMediaPicker := true)
      ensures timer == old(timer)
    {
      showMediaPicker := true;
    }

    /** The media picker's close hides it. */
    method CloseMediaPicker()
      modifies this
      ensures State() == old(State()).(showMediaPicker := false)
      ensures timer == old(timer)
    {
      showMediaPicker := false;
    }

    /** `handleMediaSelect(uri, type)`: the media is held for sending and the
        picker hides. */
    method HandleMediaSelect(uri: string, kind: MediaKind)
      modifies this
      ensures State() == old(State()).(selectedMedia := Some(MediaSelection(uri, kind)), showMediaPicker := false)
      ensures timer == old(timer)
    {
      selectedMedia := Some(MediaSelection(uri, kind));
      showMediaPicker := false;
    }

    /** The caption box of the media preview sets the input directly, without
        writing the typing flag. */
    method EditCaption(text: string)
      modifies this
      ensures State() == old(State()).(input := text)
      ensures timer == old(timer)
    {
      input := text;
    }

    /** `handleSendMedia()` goes through to its `try`: media is selected and
        there is a user. */
    predicate SendsMedia()
      reads this
    {
      selectedMedia.Some? && currentUser.Some?
    }

    /** `handleSendMedia()`: nothing without selected media or a user.
        Otherwise the media is sent with the trimmed input as its caption (none
        when blank); on success the media and the input are cleared, on
        failure an error alert is shown and both stay. */
    method HandleSendMedia(reachable: bool)
      requires Valid()
      modifies this, store
      ensures Valid()
      ensures timer == old(timer)
      ensures !old(SendsMedia()) ==> State() == old(State()) && unchanged(store)
      ensures old(SendsMedia()) && !(conversation.Some? && reachable) ==>
        State() == old(State()).(alerts := old(alerts) + [MediaFailed]) && unchanged(store)
      ensures old(SendsMedia()) && conversation.Some? && reachable ==>
        State() == old(State()).(selectedMedia := None, input := "")
      ensures old(SendsMedia()) && conversation.Some? && reachable ==>
        store.messages == old(store.messages)[conversation.value :=
          MessagesIn(old(store.messages), conversation.value)[old(store.nextId) :=
            Message(currentUser.value, old(store.clock) + 1,
                    Media(old(selectedMedia).value.uri, old(selectedMedia).value.kind, StoredCaption(Some(old(input)))), map[])]]
      ensures old(SendsMedia()) && conversation.Some? && reachable ==>
        store.conversations == old(store.conversations)[conversation.value :=
          MergeLastMessage(old(store.conversations), conversation.value,
                           LastMessageText(Some(old(input)), old(selectedMedia).value.kind), old(store.clock) + 2)]
      ensures old(SendsMedia()) && conversation.Some? && reachable ==>
        && store.clock == old(store.clock) + 2
        && store.nextId == if conversation.value > old(store.nextId) then conversation.value + 1 else old(store.nextId) + 1
    {
      if selectedMedia.None? || currentUser.None? {
        return;
      }
      if conversation.None? || !reachable {
        alerts := alerts + [MediaFailed];
        return;
      }
      SendComposedMedia(store, conversation.value, currentUser.value, selectedMedia.value, input);
      selectedMedia := None;
      input := "";
    }

    /** `cancelMediaSelection()`: the media and the input are dropped. */
    method CancelMediaSelection()
      modifies this
      ensures State() == old(State()).(selectedMedia := None, input := "")
      ensures timer == old(timer)
    {
      selectedMedia := None;
      input := "";
    }

    /** A snapshot of the message query: the list becomes the conversation's
        messages, each once, oldest first. */
    method OnMessagesSnapshot()
      modifies this
      ensures timer == old(timer)
      ensures conversation.None? ==> State() == old(State())
      ensures conversation.Some? ==> State() == old(State()).(messages := messages)
      ensures conversation.Some? ==>
        && (forall i :: 0 <= i < |messages| ==>
              messages[i].0 in MessagesIn(store.messages, conversation.value) &&
              messages[i].1 == MessagesIn(store.messages, conversation.value)[messages[i].0])
        && (forall m :: m in KeysOf(messages) <==> m in MessagesIn(store.messages, conversation.value))
        && Distinct(KeysOf(messages))
        && (forall i, j :: 0 <= i < j < |messages| ==> messages[i].1.createdAt <= messages[j].1.createdAt)
    {
      if conversation.Some? {
        messages := store.ListMessages(conversation.value);
      }
    }

    /** A snapshot of the typing flags: "is typing" shows the other
        participant's flag. */
    method OnTypingSnapshot()
      modifies this
      ensures timer == old(timer)
      ensures conversation.Some? && currentUser.Some? ==>
        State() == old(State()).(isOtherTyping :=
          IsOtherTyping(store.TypingStatus(conversation.value), OtherParticipant(participants, currentUser.value)))
      ensures !(conversation.Some? && currentUser.Some?) ==> State() == old(State())
    {
      if conversation.Some? && currentUser.Some? {
        isOtherTyping := IsOtherTyping(store.TypingStatus(conversation.value), OtherParticipant(participants, currentUser.value));
      }
    }

    /** A snapshot of the read markers: they replace the local copy. */
    method OnReadStatusSnapshot()
      modifies this
      ensures timer == old(timer)
      ensures conversation.Some? ==> State() == old(State()).(readStatus := store.ReadStatus(conversation.value))
      ensures conversation.None? ==> State() == old(State())
    {
      if conversation.Some? {
        readStatus := store.ReadStatus(conversation.value);
      }
    }
  }
}
