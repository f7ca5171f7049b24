/**
 * screens/chat/ConversationListScreen.tsx: the conversation list built from
 * the store's display order, the search filter over it, and what each row
 * shows (title, tag, avatar, time bucket and preview line).
 */
module ConversationList {
  import opened Wrappers
  import opened Text
  import opened Domain
  import opened ChatStore
  import opened Sequences
  import ChatTime
  import ConversationScreen

  /** `getOtherParticipant`: nobody without a (truthy) user id, else the first participant who is not that user. */
  function OtherParticipant(convo: Conversation, currentUserId: Option<string>): (r: Option<User>)
    ensures currentUserId.None? || currentUserId.value == "" ==> r.None?
    ensures r.Some? ==> r.value in convo.participants && r.value.id != currentUserId.value
    ensures currentUserId.Some? && currentUserId.value != "" ==>
      (r.None? <==> forall i :: 0 <= i < |convo.participants| ==> convo.participants[i].id == currentUserId.value)
  {
    if currentUserId.None? || currentUserId.value == "" then None
    else
      var r := FirstOtherThan(convo.participants, currentUserId.value);
      assert r.Some? ==> r.value in convo.participants && r.value.id != currentUserId.value by {
        if r.Some? {
          var i :| FirstOtherAt(convo.participants, currentUserId.value, i) && convo.participants[i] == r.value;
        }
      }
      r
  }

  const DefaultTitle := "Conversation"

  /** `conversationTitle`: the other participant's name, else the title when non-empty, else "Conversation". */
  function Title(convo: Conversation, currentUserId: Option<string>): (t: string)
    ensures OtherParticipant(convo, currentUserId).Some? ==> t == OtherParticipant(convo, currentUserId).value.name
    ensures OtherParticipant(convo, currentUserId).None? && convo.title != "" ==> t == convo.title
    ensures OtherParticipant(convo, currentUserId).None? && convo.title == "" ==> t == DefaultTitle
  {
    match OtherParticipant(convo, currentUserId)
    case Some(other) => other.name
    case None => if convo.title != "" then convo.title else DefaultTitle
  }

  /** `conversationTag`: the conversation's own tag wins over the other participant's; "" when neither exists. */
  function Tag(convo: Conversation, currentUserId: Option<string>): (t: string)
    ensures convo.userTag.Some? ==> t == convo.userTag.value
    ensures convo.userTag.None? && OtherParticipant(convo, currentUserId).Some? ==>
      t == OtherParticipant(convo, currentUserId).value.tag
    ensures convo.userTag.None? && OtherParticipant(convo, currentUserId).None? ==> t == ""
  {
    if convo.userTag.Some? then convo.userTag.value
    else
      match OtherParticipant(convo, currentUserId)
      case Some(other) => other.tag
      case None => ""
  }

  /** `conversationAvatarSmall`: the conversation's small avatar, else the other participant's, else none. */
  function AvatarSmall(convo: Conversation, currentUserId: Option<string>): (uri: Option<string>)
    ensures convo.avatar.Some? ==> uri == Some(convo.avatar.value.small)
    ensures convo.avatar.None? ==>
      (uri.Some? <==> OtherParticipant(convo, currentUserId).Some? && OtherParticipant(convo, currentUserId).value.avatar.Some?)
    ensures convo.avatar.None? && uri.Some? ==> uri == Some(OtherParticipant(convo, currentUserId).value.avatar.value.small)
  {
    if convo.avatar.Some? then Some(convo.avatar.value.small)
    else
      match OtherParticipant(convo, currentUserId)
      case Some(User(_, _, _, Some(a))) => Some(a.small)
      case _ => None
  }

  // ---------------------------------------------------------------------------
  // The list and its filter

  /** `ids.map(id => map[id]).filter(Boolean)`: the filed conversations in display order. */
  function Visible(order: seq<string>, conversations: map<string, Conversation>): (cs: seq<Conversation>)
    ensures |cs| <= |order|
    ensures forall c :: c in cs ==> exists id :: id in order && id in conversations && conversations[id] == c
  {
    if order == [] then []
    else (if order[0] in conversations then [conversations[order[0]]] else []) + Visible(order[1..], conversations)
  }

  /** For a consistent store the list is every conversation exactly once, in display order. */
  lemma {:induction false} VisibleConsistent(st: ChatState)
    requires Consistent(st)
    ensures |Visible(st.order, st.conversations)| == |st.order|
    ensures forall i :: 0 <= i < |st.order| ==>
      Visible(st.order, st.conversations)[i] == st.conversations[st.order[i]]
  {
    VisibleAllFiled(st.order, st.conversations);
  }

  lemma {:induction false} VisibleAllFiled(order: seq<string>, conversations: map<string, Conversation>)
    requires forall id :: id in order ==> id in conversations
    ensures |Visible(order, conversations)| == |order|
    ensures forall i :: 0 <= i < |order| ==> Visible(order, conversations)[i] == conversations[order[i]]
  {
    if order != [] {
      VisibleAllFiled(order[1..], conversations);
      var cs := Visible(order, conversations);
      forall i | 0 <= i < |order| ensures cs[i] == conversations[order[i]] {
        if i > 0 { assert order[i] == order[1..][i - 1]; }
      }
    }
  }

  /** The text a conversation is searched by: its title, its tag and its last message's text. */
  predicate Matches(c: Conversation, q: string, currentUserId: Option<string>) {
    || Contains(ToLower(Title(c, currentUserId)), q)
    || Contains(ToLower(Tag(c, currentUserId)), q)
    || Contains(ToLower(if c.lastMessage.Some? then c.lastMessage.value.content.GetOr("") else ""), q)
  }

  /** `cs.filter(c => …includes(q))`. */
  function Keep(cs: seq<Conversation>, q: string, currentUserId: Option<string>): (r: seq<Conversation>)
    ensures forall c :: c in r <==> c in cs && Matches(c, q, currentUserId)
  {
    if cs == [] then []
    else (if Matches(cs[0], q, currentUserId) then [cs[0]] else []) + Keep(cs[1..], q, currentUserId)
  }

  lemma {:induction false} KeepSubsequence(cs: seq<Conversation>, q: string, currentUserId: Option<string>)
    ensures Subsequence(Keep(cs, q, currentUserId), cs)
  {
    if cs != [] {
      KeepSubsequence(cs[1..], q, currentUserId);
      var r := Keep(cs, q, currentUserId);
      if Matches(cs[0], q, currentUserId) {
        assert r[0] == cs[0] && r[1..] == Keep(cs[1..], q, currentUserId);
      } else if r != [] {
        assert r == Keep(cs[1..], q, currentUserId);
      }
    }
  }

  /** The filtered list for the search box: everything for a blank query. */
  function Filtered(cs: seq<Conversation>, query: string, currentUserId: Option<string>): seq<Conversation> {
    var q := ToLower(Trim(query));
    if q == "" then cs else Keep(cs, q, currentUserId)
  }

  /**
   * A blank (whitespace-only) query shows the whole list; any other query
   * keeps, in their order, exactly the conversations whose title, tag or
   * last text contains the trimmed, lower-cased query.
   */
  lemma FilteredFacts(cs: seq<Conversation>, query: string, currentUserId: Option<string>)
    ensures AllWhitespace(query) ==> Filtered(cs, query, currentUserId) == cs
    ensures !AllWhitespace(query) ==>
      forall c :: c in Filtered(cs, query, currentUserId) <==> c in cs && Matches(c, ToLower(Trim(query)), currentUserId)
    ensures Subsequence(Filtered(cs, query, currentUserId), cs)
  {
    TrimEmptyIff(query);
    KeepSubsequence(cs, ToLower(Trim(query)), currentUserId);
    SubsequenceRefl(cs);
  }

  // ---------------------------------------------------------------------------
  // One row

  const AttachmentPreview := "?? Attachment"
  const EmptyPreview := "No messages yet"

  /** The row's second line: the trimmed text, else the attachment marker, else "No messages yet". */
  function Preview(c: Conversation): (p: string)
    ensures p != ""
    ensures c.lastMessage.None? ==> p == EmptyPreview
    ensures c.lastMessage.Some? && Trim(c.lastMessage.value.content.GetOr("")) != "" ==>
      p == Trim(c.lastMessage.value.content.GetOr(""))
    ensures c.lastMessage.Some? && Trim(c.lastMessage.value.content.GetOr("")) == "" ==>
      p == if c.lastMessage.value.attachment.Some? && c.lastMessage.value.attachment.value.originalUrl != ""
           then AttachmentPreview else EmptyPreview
  {
    var text := if c.lastMessage.Some? then Trim(c.lastMessage.value.content.GetOr("")) else "";
    if text != "" then text
    else if c.lastMessage.Some? && c.lastMessage.value.attachment.Some? && c.lastMessage.value.attachment.value.originalUrl != ""
    then AttachmentPreview
    else EmptyPreview
  }

  /** The timestamp a row shows: the last message's, else the conversation's own. */
  function RowStamp(c: Conversation): (s: Stamp)
    ensures c.lastMessage.Some? ==> s == c.lastMessage.value.createdAt
    ensures c.lastMessage.None? ==> s == c.updatedAt
  {
    if c.lastMessage.Some? then c.lastMessage.value.createdAt else c.updatedAt
  }

  /** The row's time bucket. */
  function RowTime(c: Conversation, now: Clock): (t: ChatTime.ChatTime)
    ensures t == ChatTime.Blank <==> RowStamp(c).raw == ""
  {
    ChatTime.FormatChatTime(Some(RowStamp(c)), now)
  }

  // ---------------------------------------------------------------------------
  // The list title against the conversation screen's title

  /**
   * For a signed-in user and a conversation with a non-empty title, a row
   * and the conversation screen's header show the same title.
   */
  lemma TitlesAgree(convo: Conversation, userId: string)
    requires userId != "" && convo.title != ""
    ensures Title(convo, Some(userId)) == ConversationScreen.TitleFromConversation(Some(convo), Some(userId))
  {
  }

  /**
   * They differ for an untitled conversation with nobody else in it: the row
   * says "Conversation", the header is blank.
   */
  lemma TitlesDifferWhenUntitled(convo: Conversation, userId: string)
    requires userId != "" && convo.title == ""
    requires forall i :: 0 <= i < |convo.participants| ==> convo.participants[i].id == userId
    ensures Title(convo, Some(userId)) == DefaultTitle
    ensures ConversationScreen.TitleFromConversation(Some(convo), Some(userId)) == ""
  {
  }
}
