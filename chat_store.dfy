/**
 * The conversation store (stores/chat.store.ts): a map from conversation id
 * to conversation, the display order of the ids, and the active conversation.
 *
 * Each action is first given as a transition function over `ChatState`;
 * the `Store` class holds the same three fields and its methods update them
 * in place, each proved to end in the state its transition function
 * describes.  The lemmas state what the actions promise about the state.
 */
module ChatStore {
  import opened Wrappers
  import opened Domain

  datatype ChatState = ChatState(
    conversations: map<string, Conversation>,
    order: seq<string>,
    active: Option<string>)

  ghost predicate Distinct(s: seq<string>) {
    forall i, j :: 0 <= i < j < |s| ==> s[i] != s[j]
  }

  /**
   * The store's invariant: the display order lists every key of the map
   * exactly once and nothing else, and every conversation is filed under its id.
   */
  ghost predicate Consistent(st: ChatState) {
    && Distinct(st.order)
    && (forall id :: id in st.conversations <==> id in st.order)
    && (forall id :: id in st.conversations ==> st.conversations[id].id == id)
  }

  // ---------------------------------------------------------------------------
  // Display-order helpers

  /** `order.filter(x => x !== id)`. */
  function Without(order: seq<string>, id: string): (r: seq<string>)
    ensures forall x :: x in r <==> x in order && x != id
    ensures |r| <= |order|
  {
    if order == [] then []
    else (if order[0] == id then [] else [order[0]]) + Without(order[1..], id)
  }

  lemma {:induction false} WithoutDistinct(order: seq<string>, id: string)
    requires Distinct(order)
    ensures Distinct(Without(order, id))
  {
    if order != [] {
      WithoutDistinct(order[1..], id);
      var rest := Without(order[1..], id);
      assert order[0] !in order[1..];
      assert order[0] !in rest;
    }
  }

  lemma {:induction false} WithoutAbsent(order: seq<string>, id: string)
    requires id !in order
    ensures Without(order, id) == order
  {
    if order != [] {
      WithoutAbsent(order[1..], id);
      assert order == [order[0]] + order[1..];
    }
  }

  /** `[id, ...order.filter(x => x !== id)]`: the recency move. */
  function MoveToFront(order: seq<string>, id: string): seq<string> {
    [id] + Without(order, id)
  }

  /** Moving to the front keeps the ids distinct, puts `id` first and changes no membership but `id`'s. */
  lemma MoveToFrontFacts(order: seq<string>, id: string)
    requires Distinct(order)
    ensures Distinct(MoveToFront(order, id))
    ensures MoveToFront(order, id)[0] == id
    ensures forall x :: x in MoveToFront(order, id) <==> x in order || x == id
  {
    WithoutDistinct(order, id);
    var w := Without(order, id);
    var r := [id] + w;
    forall i, j | 0 <= i < j < |r| ensures r[i] != r[j] {
      assert r[j] == w[j - 1] && r[j] in w;
      if i > 0 { assert r[i] == w[i - 1]; }
    }
  }

  lemma MoveToFrontTwice(order: seq<string>, id: string)
    ensures MoveToFront(MoveToFront(order, id), id) == MoveToFront(order, id)
  {
    var w := Without(order, id);
    WithoutAbsent(w, id);
    assert Without([id] + w, id) == Without(w, id) by {
      assert ([id] + w)[1..] == w;
    }
  }

  // ---------------------------------------------------------------------------
  // setConversations: stable sort by descending updatedAt, then fill the map

  /** `new Date(updatedAt).getTime()`; an unparsable date is taken as the epoch. */
  function SortKey(c: Conversation): int {
    if c.updatedAt.parsed.Some? then c.updatedAt.parsed.value.ms else 0
  }

  /** Inserts `c` before the first conversation that is not more recent than it. */
  function Insert(c: Conversation, sorted: seq<Conversation>): seq<Conversation> {
    if sorted == [] || SortKey(sorted[0]) <= SortKey(c) then [c] + sorted
    else [sorted[0]] + Insert(c, sorted[1..])
  }

  /** `conversations.sort((a, b) => time(b) - time(a))`: a stable sort, most recent first. */
  function SortByRecency(cs: seq<Conversation>): seq<Conversation> {
    if cs == [] then [] else Insert(cs[0], SortByRecency(cs[1..]))
  }

  ghost predicate MostRecentFirst(s: seq<Conversation>) {
    forall i, j :: 0 <= i < j < |s| ==> SortKey(s[i]) >= SortKey(s[j])
  }

  /** The conversations whose sort key is `t`, in sequence order. */
  function WithKey(s: seq<Conversation>, t: int): seq<Conversation> {
    if s == [] then [] else (if SortKey(s[0]) == t then [s[0]] else []) + WithKey(s[1..], t)
  }

  lemma {:induction false} InsertMembers(c: Conversation, s: seq<Conversation>)
    ensures forall x :: x in Insert(c, s) <==> x == c || x in s
    ensures |Insert(c, s)| == |s| + 1
  {
    if s != [] && SortKey(s[0]) > SortKey(c) {
      InsertMembers(c, s[1..]);
      assert s == [s[0]] + s[1..];
    }
  }

  lemma ConsMostRecentFirst(a: Conversation, t: seq<Conversation>)
    requires MostRecentFirst(t)
    requires forall x :: x in t ==> SortKey(x) <= SortKey(a)
    ensures MostRecentFirst([a] + t)
  {
    var r := [a] + t;
    forall i, j | 0 <= i < j < |r| ensures SortKey(r[i]) >= SortKey(r[j]) {
      assert r[j] == t[j - 1];
      if i > 0 { assert r[i] == t[i - 1]; }
    }
  }

  lemma {:induction false} InsertSorted(c: Conversation, s: seq<Conversation>)
    requires MostRecentFirst(s)
    ensures MostRecentFirst(Insert(c, s))
  {
    if s == [] || SortKey(s[0]) <= SortKey(c) {
      forall x | x in s ensures SortKey(x) <= SortKey(c) {
        var k :| 0 <= k < |s| && s[k] == x;
      }
      ConsMostRecentFirst(c, s);
    } else {
      var tail := s[1..];
      assert MostRecentFirst(tail) by {
        forall i, j | 0 <= i < j < |tail| ensures SortKey(tail[i]) >= SortKey(tail[j]) {
          assert tail[i] == s[i + 1] && tail[j] == s[j + 1];
        }
      }
      InsertSorted(c, tail);
      InsertMembers(c, tail);
      forall x | x in Insert(c, tail) ensures SortKey(x) <= SortKey(s[0]) {
        if x != c {
          var k :| 0 <= k < |tail| && tail[k] == x;
          assert s[k + 1] == x;
        }
      }
      ConsMostRecentFirst(s[0], Insert(c, tail));
    }
  }

  lemma {:induction false} InsertMultiset(c: Conversation, s: seq<Conversation>)
    ensures multiset(Insert(c, s)) == multiset(s) + multiset{c}
  {
    if s != [] && SortKey(s[0]) > SortKey(c) {
      InsertMultiset(c, s[1..]);
      assert s == [s[0]] + s[1..];
    }
  }

  lemma {:induction false} InsertWithKey(c: Conversation, s: seq<Conversation>, t: int)
    ensures WithKey(Insert(c, s), t) == (if SortKey(c) == t then [c] else []) + WithKey(s, t)
  {
    if s != [] && SortKey(s[0]) > SortKey(c) {
      InsertWithKey(c, s[1..], t);
      assert Insert(c, s)[1..] == Insert(c, s[1..]);
    } else {
      assert ([c] + s)[1..] == s;
    }
  }

  /**
   * The hydration sort, as the source promises: most recent first, a
   * permutation of its input, and stable (among conversations with the same
   * `updatedAt` the input order is kept).
   */
  lemma {:induction false} SortByRecencyFacts(cs: seq<Conversation>)
    ensures MostRecentFirst(SortByRecency(cs))
    ensures multiset(SortByRecency(cs)) == multiset(cs)
    ensures forall t :: WithKey(SortByRecency(cs), t) == WithKey(cs, t)
  {
    if cs != [] {
      SortByRecencyFacts(cs[1..]);
      InsertSorted(cs[0], SortByRecency(cs[1..]));
      InsertMultiset(cs[0], SortByRecency(cs[1..]));
      assert cs == [cs[0]] + cs[1..];
      forall t ensures WithKey(SortByRecency(cs), t) == WithKey(cs, t) {
        InsertWithKey(cs[0], SortByRecency(cs[1..]), t);
      }
    }
  }

  ghost predicate DistinctIds(cs: seq<Conversation>) {
    forall i, j :: 0 <= i < j < |cs| ==> cs[i].id != cs[j].id
  }

  lemma {:induction false} InsertDistinct(c: Conversation, s: seq<Conversation>)
    requires DistinctIds(s)
    requires forall x :: x in s ==> x.id != c.id
    ensures DistinctIds(Insert(c, s))
  {
    if s == [] || SortKey(s[0]) <= SortKey(c) {
      var r := [c] + s;
      forall i, j | 0 <= i < j < |r| ensures r[i].id != r[j].id {
        assert r[j] == s[j - 1];
        if i > 0 { assert r[i] == s[i - 1]; }
      }
    } else {
      var tail := s[1..];
      assert DistinctIds(tail) by {
        forall i, j | 0 <= i < j < |tail| ensures tail[i].id != tail[j].id {
          assert tail[i] == s[i + 1] && tail[j] == s[j + 1];
        }
      }
      InsertDistinct(c, tail);
      InsertMembers(c, tail);
      var r := Insert(c, s);
      var it := Insert(c, tail);
      assert r == [s[0]] + it;
      forall i, j | 0 <= i < j < |r| ensures r[i].id != r[j].id {
        assert r[j] == it[j - 1];
        if i > 0 {
          assert r[i] == it[i - 1];
        } else if r[j] != c {
          assert r[j] in it;
          var k :| 0 <= k < |tail| && tail[k] == r[j];
          assert s[k + 1] == r[j];
        }
      }
    }
  }

  /** Sorting keeps exactly the input conversations, and with distinct ids it keeps them distinct. */
  lemma {:induction false} SortMembers(cs: seq<Conversation>)
    ensures forall x :: x in SortByRecency(cs) <==> x in cs
    ensures |SortByRecency(cs)| == |cs|
    ensures DistinctIds(cs) ==> DistinctIds(SortByRecency(cs))
  {
    if cs != [] {
      var tail := cs[1..];
      SortMembers(tail);
      InsertMembers(cs[0], SortByRecency(tail));
      assert cs == [cs[0]] + tail;
      if DistinctIds(cs) {
        assert DistinctIds(tail) by {
          forall i, j | 0 <= i < j < |tail| ensures tail[i].id != tail[j].id {
            assert tail[i] == cs[i + 1] && tail[j] == cs[j + 1];
          }
        }
        forall x | x in SortByRecency(tail) ensures x.id != cs[0].id {
          var k :| 0 <= k < |tail| && tail[k] == x;
          assert cs[k + 1] == x;
        }
        InsertDistinct(cs[0], SortByRecency(tail));
      }
    }
  }

  function Ids(cs: seq<Conversation>): (ids: seq<string>)
    ensures |ids| == |cs|
    ensures forall i :: 0 <= i < |cs| ==> ids[i] == cs[i].id
  {
    if cs == [] then [] else [cs[0].id] + Ids(cs[1..])
  }

  /** The map `cs.forEach(c => m[c.id] = c)` builds: a later conversation with the same id wins. */
  function MapOf(cs: seq<Conversation>): (m: map<string, Conversation>)
    ensures forall id :: id in m <==> exists i :: 0 <= i < |cs| && cs[i].id == id
  {
    if cs == [] then map[] else
      var init := cs[..|cs| - 1];
      var m := MapOf(init);
      assert forall i :: 0 <= i < |init| ==> init[i] == cs[i];
      m[cs[|cs| - 1].id := cs[|cs| - 1]]
  }

  /** Without a repeated id, the map files every conversation under its own id. */
  lemma {:induction false} MapOfDistinct(cs: seq<Conversation>)
    requires DistinctIds(cs)
    ensures forall i :: 0 <= i < |cs| ==> MapOf(cs)[cs[i].id] == cs[i]
  {
    if cs != [] {
      var init := cs[..|cs| - 1];
      assert DistinctIds(init) by {
        forall i, j | 0 <= i < j < |init| ensures init[i].id != init[j].id {
          assert init[i] == cs[i] && init[j] == cs[j];
        }
      }
      MapOfDistinct(init);
      forall i | 0 <= i < |cs| - 1 ensures MapOf(cs)[cs[i].id] == cs[i] {
        assert init[i] == cs[i];
      }
    }
  }

  function Hydrate(st: ChatState, cs: seq<Conversation>): ChatState {
    var sorted := SortByRecency(cs);
    ChatState(MapOf(sorted), Ids(sorted), st.active)
  }

  /**
   * setConversations replaces map and order outright (the active id stays);
   * with distinct input ids the result satisfies the store invariant, files
   * every input under its id, and orders the ids most recent first.
   */
  lemma FiledConsistent(s: seq<Conversation>, active: Option<string>)
    requires DistinctIds(s)
    ensures Consistent(ChatState(MapOf(s), Ids(s), active))
  {
    IdsDistinct(s);
    FiledKeys(s);
    FiledUnderId(s);
  }

  lemma IdsDistinct(s: seq<Conversation>)
    requires DistinctIds(s)
    ensures Distinct(Ids(s))
  {
  }

  /** The map's keys are exactly the listed ids. */
  lemma FiledKeys(s: seq<Conversation>)
    ensures forall id :: id in MapOf(s) <==> id in Ids(s)
  {
    var m, o := MapOf(s), Ids(s);
    forall id ensures id in m <==> id in o {
      if id in o {
        var k :| 0 <= k < |o| && o[k] == id;
        assert s[k].id == id;
      }
      if id in m {
        var k :| 0 <= k < |s| && s[k].id == id;
        assert o[k] == id;
      }
    }
  }

  lemma FiledUnderId(s: seq<Conversation>)
    requires DistinctIds(s)
    ensures forall id :: id in MapOf(s) ==> MapOf(s)[id].id == id
  {
    MapOfDistinct(s);
    var m := MapOf(s);
    forall id | id in m ensures m[id].id == id {
      var k :| 0 <= k < |s| && s[k].id == id;
    }
  }

  lemma HydrateFacts(st: ChatState, cs: seq<Conversation>)
    requires DistinctIds(cs)
    ensures Consistent(Hydrate(st, cs))
    ensures forall c :: c in cs ==> c.id in Hydrate(st, cs).conversations && Hydrate(st, cs).conversations[c.id] == c
    ensures forall id :: id in Hydrate(st, cs).conversations <==> exists c :: c in cs && c.id == id
    ensures Hydrate(st, cs).active == st.active
    ensures Hydrate(st, cs).order == Ids(SortByRecency(cs)) && MostRecentFirst(SortByRecency(cs))
  {
    var s := SortByRecency(cs);
    SortByRecencyFacts(cs);
    SortMembers(cs);
    MapOfDistinct(s);
    FiledConsistent(s, st.active);
    var m := MapOf(s);
    forall c | c in cs ensures c.id in m && m[c.id] == c {
      var k :| 0 <= k < |s| && s[k] == c;
    }
    forall id ensures id in m <==> exists c :: c in cs && c.id == id {
      if id in m {
        var k :| 0 <= k < |s| && s[k].id == id;
        assert s[k] in cs;
      }
    }
  }

  /** With a repeated id, hydration lists that id twice: the invariant needs distinct ids. */
  lemma HydrateDuplicateIds(st: ChatState, c: Conversation)
    ensures Hydrate(st, [c, c]).order == [c.id, c.id]
    ensures !Consistent(Hydrate(st, [c, c]))
  {
    assert SortByRecency([c, c]) == [c, c] by {
      assert [c, c][1..] == [c];
      assert SortByRecency([c]) == [c];
    }
    var o := Hydrate(st, [c, c]).order;
    assert o[0] == o[1];
  }

  // ---------------------------------------------------------------------------
  // The other actions

  function Added(st: ChatState, c: Conversation): ChatState {
    if c.id in st.conversations then st
    else st.(conversations := st.conversations[c.id := c], order := [c.id] + st.order)
  }

  /** addConversation ignores a known id; otherwise it files the conversation and puts it first. */
  lemma AddConversationFacts(st: ChatState, c: Conversation)
    requires Consistent(st)
    ensures Consistent(Added(st, c))
    ensures c.id in st.conversations ==> Added(st, c) == st
    ensures c.id !in st.conversations ==>
      && Added(st, c).conversations == st.conversations[c.id := c]
      && Added(st, c).order == [c.id] + st.order
    ensures Added(Added(st, c), c) == Added(st, c)
  {
  }

  function Removed(st: ChatState, id: string): ChatState {
    ChatState(st.conversations - {id}, Without(st.order, id), if st.active == Some(id) then None else st.active)
  }

  /** removeConversation drops the id from map and order and clears the active id exactly when it was that id. */
  lemma RemoveConversationFacts(st: ChatState, id: string)
    requires Consistent(st)
    ensures Consistent(Removed(st, id))
    ensures id !in Removed(st, id).conversations && id !in Removed(st, id).order
    ensures forall k :: k in st.conversations && k != id ==>
      k in Removed(st, id).conversations && Removed(st, id).conversations[k] == st.conversations[k]
    ensures Removed(st, id).active.None? <==> (st.active.None? || st.active == Some(id))
    ensures Removed(Removed(st, id), id) == Removed(st, id)
  {
    RemovedConsistent(st, id);
    RemovedTwice(st, id);
  }

  lemma RemovedConsistent(st: ChatState, id: string)
    requires Consistent(st)
    ensures Consistent(Removed(st, id))
  {
    WithoutDistinct(st.order, id);
  }

  lemma RemovedTwice(st: ChatState, id: string)
    ensures Removed(Removed(st, id), id) == Removed(st, id)
  {
    WithoutAbsent(Without(st.order, id), id);
    assert st.conversations - {id} - {id} == st.conversations - {id};
  }

  /** The unread rule: unread unless the sender is the current user or the conversation is open. */
  function UnreadAfterNewMessage(m: Message, currentUserId: Option<string>, active: Option<string>): bool {
    var isCurrentUserMessage := currentUserId == Some(m.senderId);
    var isActiveConversation := active == Some(m.conversationId);
    !isCurrentUserMessage && !isActiveConversation
  }

  /** The preview after a new message: the whole message if there was none, else the old one with new content and time. */
  function LastMessageAfterNew(last: Option<Message>, m: Message): Message {
    match last
    case None => m
    case Some(prev) => prev.(content := m.content, createdAt := m.createdAt)
  }

  function NewMessage(st: ChatState, m: Message, currentUserId: Option<string>): ChatState {
    var cid := m.conversationId;
    if cid !in st.conversations then st
    else
      var c := st.conversations[cid];
      var c' := c.(lastMessage := Some(LastMessageAfterNew(c.lastMessage, m)),
                   hasUnread := UnreadAfterNewMessage(m, currentUserId, st.active));
      st.(conversations := st.conversations[cid := c'], order := MoveToFront(st.order, cid))
  }

  /**
   * updateConversationOnNewMessage: no-op for an unknown conversation;
   * otherwise it sets the preview and the unread flag, moves the id to the
   * front and touches no other conversation; it keeps the invariant.
   */
  lemma NewMessageFacts(st: ChatState, m: Message, currentUserId: Option<string>)
    requires Consistent(st)
    ensures Consistent(NewMessage(st, m, currentUserId))
    ensures m.conversationId !in st.conversations ==> NewMessage(st, m, currentUserId) == st
    ensures m.conversationId in st.conversations ==>
      var st' := NewMessage(st, m, currentUserId);
      var c' := st'.conversations[m.conversationId];
      && st'.order[0] == m.conversationId
      && st'.conversations.Keys == st.conversations.Keys
      && (c'.hasUnread <==> currentUserId != Some(m.senderId) && st.active != Some(m.conversationId))
      && c'.lastMessage.Some? && c'.lastMessage.value.content == m.content
      && c'.lastMessage.value.createdAt == m.createdAt
      && (st.conversations[m.conversationId].lastMessage.Some? ==>
            c'.lastMessage.value.id == st.conversations[m.conversationId].lastMessage.value.id)
      && (st.conversations[m.conversationId].lastMessage.None? ==> c'.lastMessage == Some(m))
      && (forall k :: k in st.conversations && k != m.conversationId ==> st'.conversations[k] == st.conversations[k])
      && st'.active == st.active
  {
    if m.conversationId in st.conversations {
      MoveToFrontFacts(st.order, m.conversationId);
    }
  }

  /** A message from the current user, or into the open conversation, never marks it unread. */
  lemma OwnOrActiveMessageStaysRead(st: ChatState, m: Message, currentUserId: Option<string>)
    requires m.conversationId in st.conversations
    requires currentUserId == Some(m.senderId) || st.active == Some(m.conversationId)
    ensures !NewMessage(st, m, currentUserId).conversations[m.conversationId].hasUnread
  {
  }

  /** Applying the same new message twice ends in the same state as applying it once (an echoed send is absorbed). */
  lemma NewMessageIdempotent(st: ChatState, m: Message, currentUserId: Option<string>)
    ensures NewMessage(NewMessage(st, m, currentUserId), m, currentUserId) == NewMessage(st, m, currentUserId)
  {
    if m.conversationId in st.conversations {
      MoveToFrontTwice(st.order, m.conversationId);
    }
  }

  function MessageUpdate(st: ChatState, m: Message): ChatState {
    var cid := m.conversationId;
    if cid !in st.conversations || st.conversations[cid].lastMessage.None? then st
    else
      var c := st.conversations[cid];
      if c.lastMessage.value.id == m.id then
        st.(conversations := st.conversations[cid := c.(lastMessage := Some(c.lastMessage.value.(content := m.content)))])
      else st
  }

  /** updateConversationOnMessageUpdate changes at most the preview's content, and only when the preview is that message. */
  lemma MessageUpdateFacts(st: ChatState, m: Message)
    requires Consistent(st)
    ensures var st' := MessageUpdate(st, m);
      && Consistent(st')
      && st'.order == st.order && st'.active == st.active
      && st'.conversations.Keys == st.conversations.Keys
      && (forall k :: k in st.conversations && k != m.conversationId ==> st'.conversations[k] == st.conversations[k])
      && (forall k :: k in st.conversations ==>
            var c := st.conversations[k];
            st'.conversations[k] ==
              if k == m.conversationId && c.lastMessage.Some? && c.lastMessage.value.id == m.id
              then c.(lastMessage := Some(c.lastMessage.value.(content := m.content)))
              else c)
  {
  }

  function MessageDelete(st: ChatState, cid: string, wasLastMessage: bool, newLastMessage: Option<Message>, hasUnread: bool): ChatState {
    if cid !in st.conversations then st
    else
      var c := st.conversations[cid];
      var c' := c.(lastMessage := if wasLastMessage then newLastMessage else c.lastMessage, hasUnread := hasUnread);
      st.(conversations := st.conversations[cid := c'],
          order := if wasLastMessage then MoveToFront(st.order, cid) else st.order)
  }

  /**
   * updateConversationOnMessageDelete on a known conversation: when the
   * deleted message was the preview, the preview becomes the new last message
   * and the id moves to the front; the unread flag is overwritten either way.
   */
  lemma MessageDeleteFacts(st: ChatState, cid: string, wasLastMessage: bool, newLastMessage: Option<Message>, hasUnread: bool)
    requires Consistent(st)
    ensures Consistent(MessageDelete(st, cid, wasLastMessage, newLastMessage, hasUnread))
    ensures cid !in st.conversations ==> MessageDelete(st, cid, wasLastMessage, newLastMessage, hasUnread) == st
    ensures cid in st.conversations ==>
      var st' := MessageDelete(st, cid, wasLastMessage, newLastMessage, hasUnread);
      && st'.conversations[cid].hasUnread == hasUnread
      && st'.conversations[cid].lastMessage == (if wasLastMessage then newLastMessage else st.conversations[cid].lastMessage)
      && (wasLastMessage ==> st'.order[0] == cid)
      && (!wasLastMessage ==> st'.order == st.order)
      && (forall k :: k in st.conversations && k != cid ==> st'.conversations[k] == st.conversations[k])
  {
    if cid in st.conversations {
      MoveToFrontFacts(st.order, cid);
    }
  }

  function MarkRead(st: ChatState, id: string): ChatState {
    if id in st.conversations then st.(conversations := st.conversations[id := st.conversations[id].(hasUnread := false)])
    else st
  }

  /** Note the JavaScript truthiness test: the empty id sets the active id but reads nothing. */
  function SetActive(st: ChatState, id: Option<string>): ChatState {
    var st' := st.(active := id);
    if id.Some? && id.value != "" then MarkRead(st', id.value) else st'
  }

  /** markConversationAsRead and setActiveConversation clear the unread flag of a known id and change nothing else. */
  lemma ReadFacts(st: ChatState, id: string)
    requires Consistent(st)
    ensures Consistent(MarkRead(st, id)) && Consistent(SetActive(st, Some(id)))
    ensures id !in st.conversations ==> MarkRead(st, id) == st && SetActive(st, Some(id)) == st.(active := Some(id))
    ensures id in st.conversations ==> !MarkRead(st, id).conversations[id].hasUnread
    ensures id in st.conversations && id != "" ==> !SetActive(st, Some(id)).conversations[id].hasUnread
    ensures MarkRead(st, id).order == st.order && MarkRead(st, id).conversations.Keys == st.conversations.Keys
    ensures forall k :: k in st.conversations && k != id ==> MarkRead(st, id).conversations[k] == st.conversations[k]
    ensures SetActive(st, Some(id)).active == Some(id) && SetActive(st, None) == st.(active := None)
  {
  }

  function Cleared(st: ChatState): ChatState {
    ChatState(map[], [], st.active)
  }

  /**
   * `useConversation(identifier)`: the conversation filed under the
   * identifier, otherwise one whose `userTag` is the identifier.  The search
   * by tag runs over the display order.
   */
  function LookupByTag(order: seq<string>, convs: map<string, Conversation>, tag: string): (r: Option<Conversation>)
    ensures r.Some? ==> exists k :: k in order && k in convs && convs[k] == r.value && r.value.userTag == Some(tag)
    ensures r.None? ==> forall k :: k in order && k in convs ==> convs[k].userTag != Some(tag)
  {
    if order == [] then None
    else if order[0] in convs && convs[order[0]].userTag == Some(tag) then Some(convs[order[0]])
    else LookupByTag(order[1..], convs, tag)
  }

  /** Every filed id appears in the display order; the store keeps this even after a list with repeated ids. */
  ghost predicate Listed(st: ChatState) {
    forall k :: k in st.conversations ==> k in st.order
  }

  lemma ConsistentListed(st: ChatState)
    requires Consistent(st)
    ensures Listed(st)
  {
  }

  /** setConversations lists every filed id, whether or not the input repeats an id. */
  lemma HydrateListed(st: ChatState, cs: seq<Conversation>)
    ensures Listed(Hydrate(st, cs))
  {
    FiledKeys(SortByRecency(cs));
  }

  function Lookup(st: ChatState, identifier: string): (r: Option<Conversation>)
    requires Listed(st)
    ensures identifier in st.conversations ==> r == Some(st.conversations[identifier])
    ensures identifier !in st.conversations ==>
      (r.Some? <==> exists k :: k in st.conversations && st.conversations[k].userTag == Some(identifier))
    ensures r.Some? ==> r.value in st.conversations.Values
    ensures r.Some? && identifier !in st.conversations ==> r.value.userTag == Some(identifier)
  {
    if identifier in st.conversations then Some(st.conversations[identifier])
    else LookupByTag(st.order, st.conversations, identifier)
  }

  // ---------------------------------------------------------------------------
  // The store object: the three state fields, updated in place by each action

  /** The `forEach` that files each conversation under its id. */
  method FileById(cs: seq<Conversation>) returns (filed: map<string, Conversation>)
    ensures filed == MapOf(cs)
  {
    filed := map[];
    for i := 0 to |cs|
      invariant filed == MapOf(cs[..i])
    {
      assert cs[..i + 1][..i] == cs[..i];
      filed := filed[cs[i].id := cs[i]];
    }
    assert cs[..|cs|] == cs;
  }

  class Store {
    var conversations: map<string, Conversation>
    var order: seq<string>
    var active: Option<string>

    function State(): ChatState
      reads this
    {
      ChatState(conversations, order, active)
    }

    ghost predicate Valid()
      reads this
    {
      Consistent(State())
    }

    constructor ()
      ensures State() == ChatState(map[], [], None)
      ensures Valid()
    {
      conversations := map[];
      order := [];
      active := None;
    }

    method SetConversations(cs: seq<Conversation>)
      modifies this
      ensures State() == Hydrate(old(State()), cs)
      ensures DistinctIds(cs) ==> Valid()
      ensures Listed(State())
    {
      var sorted := SortByRecency(cs);
      var filed := FileById(sorted);
      conversations := filed;
      order := Ids(sorted);
      HydrateListed(old(State()), cs);
      if DistinctIds(cs) {
        HydrateFacts(old(State()), cs);
      }
    }

    method AddConversation(c: Conversation)
      modifies this
      ensures State() == Added(old(State()), c)
      ensures old(Valid()) ==> Valid()
    {
      if c.id in conversations {
        return;
      }
      conversations := conversations[c.id := c];
      order := [c.id] + order;
    }

    method RemoveConversation(id: string)
      modifies this
      ensures State() == Removed(old(State()), id)
      ensures old(Valid()) ==> Valid()
    {
      ghost var before := State();
      conversations := conversations - {id};
      order := Without(order, id);
      if active == Some(id) {
        active := None;
      }
      if Consistent(before) {
        RemoveConversationFacts(before, id);
      }
    }

    method UpdateConversationOnNewMessage(m: Message, currentUserId: Option<string>)
      modifies this
      ensures State() == NewMessage(old(State()), m, currentUserId)
      ensures old(Valid()) ==> Valid()
    {
      ghost var before := State();
      var cid := m.conversationId;
      if cid !in conversations {
        return;
      }
      var c := conversations[cid];
      if c.lastMessage.None? {
        c := c.(lastMessage := Some(m));
      } else {
        c := c.(lastMessage := Some(c.lastMessage.value.(content := m.content, createdAt := m.createdAt)));
      }
      var isCurrentUserMessage := currentUserId == Some(m.senderId);
      var isActiveConversation := active == Some(cid);
      c := c.(hasUnread := !isCurrentUserMessage && !isActiveConversation);
      conversations := conversations[cid := c];
      order := [cid] + Without(order, cid);
      if Consistent(before) {
        NewMessageFacts(before, m, currentUserId);
      }
    }

    method UpdateConversationOnMessageUpdate(m: Message)
      modifies this
      ensures State() == MessageUpdate(old(State()), m)
      ensures old(Valid()) ==> Valid()
    {
      var cid := m.conversationId;
      if cid !in conversations || conversations[cid].lastMessage.None? {
        return;
      }
      var c := conversations[cid];
      if c.lastMessage.value.id == m.id {
        conversations := conversations[cid := c.(lastMessage := Some(c.lastMessage.value.(content := m.content)))];
      }
    }

    method UpdateConversationOnMessageDelete(cid: string, wasLastMessage: bool, newLastMessage: Option<Message>, hasUnread: bool)
      modifies this
      ensures State() == MessageDelete(old(State()), cid, wasLastMessage, newLastMessage, hasUnread)
      ensures old(Valid()) ==> Valid()
    {
      ghost var before := State();
      if cid !in conversations {
        return;
      }
      var c := conversations[cid];
      if wasLastMessage {
        c := c.(lastMessage := newLastMessage);
        order := [cid] + Without(order, cid);
      }
      c := c.(hasUnread := hasUnread);
      conversations := conversations[cid := c];
      if Consistent(before) {
        MessageDeleteFacts(before, cid, wasLastMessage, newLastMessage, hasUnread);
      }
    }

    method MarkConversationAsRead(id: string)
      modifies this
      ensures State() == MarkRead(old(State()), id)
      ensures old(Valid()) ==> Valid()
    {
      if id in conversations {
        conversations := conversations[id := conversations[id].(hasUnread := false)];
      }
    }

    method SetActiveConversation(id: Option<string>)
      modifies this
      ensures State() == SetActive(old(State()), id)
      ensures old(Valid()) ==> Valid()
    {
      active := id;
      if id.Some? && id.value != "" && id.value in conversations {
        conversations := conversations[id.value := conversations[id.value].(hasUnread := false)];
      }
    }

    method Reset()
      modifies this
      ensures State() == Cleared(old(State()))
      ensures Valid()
    {
      conversations := map[];
      order := [];
    }

    /** `useConversation` over the current state. */
    function UseConversation(identifier: string): (r: Option<Conversation>)
      reads this
      requires Listed(State())
      ensures identifier in conversations ==> r == Some(conversations[identifier])
      ensures identifier !in conversations ==>
        (r.Some? <==> exists k :: k in conversations && conversations[k].userTag == Some(identifier))
    {
      Lookup(State(), identifier)
    }
  }
}
