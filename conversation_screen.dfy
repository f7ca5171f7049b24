/**
 * screens/chat/ConversationScreen.tsx: one open conversation.  The screen
 * keeps its own newest-first message list, reconciles it with the
 * conversation channel's events and with its own requests, and builds the
 * rendered list with a date header after the last message of each day.
 * Every awaited request is one atomic step whose outcome is a parameter.
 */
module ConversationScreen {
  import opened Wrappers
  import opened Text
  import opened Domain
  import opened MessageList
  import opened ChatStore
  import MessageService
  import ConversationService

  const DayInMs := 1000 * 60 * 60 * 24

  // ---------------------------------------------------------------------------
  // Date keys and labels

  /** `getDateKey`: local year, 1-based month and day, the last two zero-padded; an Invalid Date prints NaN in every field. */
  function DateKey(at: Option<Clock>): string {
    match at
    case None => "NaN-NaN-NaN"
    case Some(c) => IntToString(c.year) + "-" + PadStart2(IntToString(c.month + 1)) + "-" + PadStart2(IntToString(c.date))
  }

  /** The calendar fields a valid `Date` reports. */
  predicate CalendarDay(c: Clock) {
    0 <= c.month < 12 && 1 <= c.date <= 31
  }

  function TwoDigits(n: nat): string
    requires n < 100
  {
    [DigitChar(n / 10), DigitChar(n % 10)]
  }

  lemma PadTwoDigits(n: nat)
    requires n < 100
    ensures PadStart2(IntToString(n)) == TwoDigits(n)
  {
    var q, r := n / 10, n % 10;
    assert n == q * 10 + r && q < 10 && r < 10;
    if n < 10 {
      assert q == 0 && r == n;
      assert IntToString(n) == [DigitChar(n)];
      assert PadStart2(IntToString(n)) == "0" + [DigitChar(n)];
      assert DigitChar(0) == '0';
    } else {
      assert NatToString(q) == [DigitChar(q)];
      assert IntToString(n) == NatToString(q) + [DigitChar(r)];
    }
  }

  lemma TwoDigitsInjective(a: nat, b: nat)
    requires a < 100 && b < 100 && TwoDigits(a) == TwoDigits(b)
    ensures a == b
  {
    var ta, tb := TwoDigits(a), TwoDigits(b);
    assert ta[0] == tb[0] && ta[1] == tb[1];
  }

  lemma DateKeyLayout(c: Clock)
    requires CalendarDay(c)
    ensures DateKey(Some(c)) == IntToString(c.year) + "-" + TwoDigits(c.month + 1) + "-" + TwoDigits(c.date)
  {
    PadTwoDigits(c.month + 1);
    PadTwoDigits(c.date);
    SameFields(IntToString(c.year), PadStart2(IntToString(c.month + 1)), TwoDigits(c.month + 1),
      PadStart2(IntToString(c.date)), TwoDigits(c.date));
  }

  lemma SameFields(y: string, m1: string, m2: string, d1: string, d2: string)
    requires m1 == m2 && d1 == d2
    ensures y + "-" + m1 + "-" + d1 == y + "-" + m2 + "-" + d2
  {
  }

  /** Two valid dates share a key exactly when they fall on the same local day. */
  lemma DateKeyInjective(a: Clock, b: Clock)
    requires CalendarDay(a) && CalendarDay(b)
    ensures DateKey(Some(a)) == DateKey(Some(b)) <==> SameDay(a, b)
  {
    DateKeyLayout(a);
    DateKeyLayout(b);
    if DateKey(Some(a)) == DateKey(Some(b)) {
      KeyFields(IntToString(a.year), TwoDigits(a.month + 1), TwoDigits(a.date),
                IntToString(b.year), TwoDigits(b.month + 1), TwoDigits(b.date));
      IntToStringInjective(a.year, b.year);
      TwoDigitsInjective(a.month + 1, b.month + 1);
      TwoDigitsInjective(a.date, b.date);
    }
  }

  /** A key with two-character month and day fields splits back into its three fields. */
  lemma KeyFields(ya: string, ma: string, da: string, yb: string, mb: string, db: string)
    requires |ma| == 2 && |mb| == 2 && |da| == 2 && |db| == 2
    requires ya + "-" + ma + "-" + da == yb + "-" + mb + "-" + db
    ensures ya == yb && ma == mb && da == db
  {
    var k := ya + "-" + ma + "-" + da;
    assert |ya| == |yb|;
    assert ya == k[..|ya|] == yb;
    assert ma == k[|ya| + 1..|ya| + 3] == mb;
    assert da == k[|ya| + 4..] == db;
  }

  /** A valid date never gets the Invalid Date key: its key ends in a digit. */
  lemma DateKeyNotInvalid(c: Clock)
    requires CalendarDay(c)
    ensures DateKey(Some(c)) != DateKey(None)
  {
    DateKeyLayout(c);
    var prefix := IntToString(c.year) + "-" + TwoDigits(c.month + 1) + "-";
    var day := TwoDigits(c.date);
    assert (prefix + day)[|prefix + day| - 1] == day[1];
    assert IsDigit(day[1]);
  }

  /** What `formatDateLabel` shows: the words for today and yesterday, else the formatted date. */
  datatype DateLabel = Today | Yesterday | Formatted(date: Clock)

  /**
   * `formatDateLabel(date)` with `now` standing for `new Date()`: whole days
   * between the two local midnights, rounded down.
   */
  function FormatDateLabel(now: Clock, c: Clock): (l: DateLabel)
    ensures l == Today <==> 0 <= now.midnightMs - c.midnightMs < DayInMs
    ensures l == Yesterday <==> DayInMs <= now.midnightMs - c.midnightMs < 2 * DayInMs
    ensures l.Formatted? ==> l.date == c
  {
    var diffDays := (now.midnightMs - c.midnightMs) / DayInMs;
    if diffDays == 0 then Today else if diffDays == 1 then Yesterday else Formatted(c)
  }

  // ---------------------------------------------------------------------------
  // The header title

  /** `String(currentUserId)`, where a missing id prints as "null". */
  function IdText(id: Option<string>): (t: string)
    ensures id.Some? ==> t == id.value
  {
    if id.None? then "null" else id.value
  }

  /**
   * `titleFromConversation`: the name of the first participant who is not
   * the current user, else the conversation's title; "Conversation" while the
   * conversation is not in the store.  A name or title that is the empty
   * string is shown as it is (`??` only skips null).
   */
  function TitleFromConversation(convo: Option<Conversation>, currentUserId: Option<string>): (t: string)
    ensures convo.None? ==> t == "Conversation"
    ensures convo.Some? && FirstOtherThan(convo.value.participants, IdText(currentUserId)).None? ==>
      t == convo.value.title
    ensures convo.Some? && FirstOtherThan(convo.value.participants, IdText(currentUserId)).Some? ==>
      t == FirstOtherThan(convo.value.participants, IdText(currentUserId)).value.name
  {
    match convo
    case None => "Conversation"
    case Some(c) =>
      match FirstOtherThan(c.participants, IdText(currentUserId))
      case Some(other) => other.name
      case None => c.title
  }

  // ---------------------------------------------------------------------------
  // The rendered list

  datatype ListItem = MessageItem(id: string, message: Message) | DateItem(id: string, caption: DateLabel)

  /** The key of the message after `i` (the older one), or null at the end of the list. */
  function NextKey(ms: seq<Message>, i: nat): Option<string>
    requires i < |ms|
  {
    if i + 1 < |ms| then Some(DateKey(ms[i + 1].createdAt.parsed)) else None
  }

  /** Whether `listData` puts a header after message `i`: its date is valid and its key differs from the next one's. */
  predicate Separated(ms: seq<Message>, i: nat)
    requires i < |ms|
  {
    ms[i].createdAt.parsed.Some? && NextKey(ms, i) != Some(DateKey(ms[i].createdAt.parsed))
  }

  /** The items one loop iteration pushes for message `i`. */
  function Block(ms: seq<Message>, i: nat, now: Clock): seq<ListItem>
    requires i < |ms|
  {
    [MessageItem(ms[i].id, ms[i])]
    + if Separated(ms, i)
      then [DateItem("date-" + DateKey(ms[i].createdAt.parsed), FormatDateLabel(now, ms[i].createdAt.parsed.value))]
      else []
  }

  /** The items pushed for the first `n` messages. */
  function ListUpTo(ms: seq<Message>, n: nat, now: Clock): seq<ListItem>
    requires n <= |ms|
  {
    if n == 0 then [] else ListUpTo(ms, n - 1, now) + Block(ms, n - 1, now)
  }

  /** `listData`. */
  function ListData(ms: seq<Message>, now: Clock): seq<ListItem> {
    ListUpTo(ms, |ms|, now)
  }

  /** The loop of `listData`. */
  method BuildListData(ms: seq<Message>, now: Clock) returns (items: seq<ListItem>)
    ensures items == ListData(ms, now)
  {
    items := [];
    for i := 0 to |ms|
      invariant items == ListUpTo(ms, i, now)
    {
      var pushed := PushItems(ms, i, now);
      items := items + pushed;
    }
  }

  /** One iteration of that loop: the message, then its header when its key differs from the next one's. */
  method PushItems(ms: seq<Message>, i: nat, now: Clock) returns (pushed: seq<ListItem>)
    requires i < |ms|
    ensures pushed == Block(ms, i, now)
  {
    var msg := ms[i];
    pushed := [MessageItem(msg.id, msg)];
    if msg.createdAt.parsed.None? {
      return;
    }
    var dateKey := DateKey(msg.createdAt.parsed);
    var nextDateKey := if i + 1 < |ms| then Some(DateKey(ms[i + 1].createdAt.parsed)) else None;
    if Some(dateKey) != nextDateKey {
      pushed := pushed + [DateItem("date-" + dateKey, FormatDateLabel(now, msg.createdAt.parsed.value))];
    }
  }

  /** The messages of a list of items, in order. */
  function MessagesOf(items: seq<ListItem>): seq<Message> {
    if items == [] then []
    else (if items[0].MessageItem? then [items[0].message] else []) + MessagesOf(items[1..])
  }

  lemma {:induction false} MessagesOfAppend(a: seq<ListItem>, b: seq<ListItem>)
    ensures MessagesOf(a + b) == MessagesOf(a) + MessagesOf(b)
  {
    if a == [] {
      assert a + b == b;
    } else {
      MessagesOfAppend(a[1..], b);
      assert (a + b)[1..] == a[1..] + b;
      assert (a + b)[0] == a[0];
    }
  }

  lemma BlockMessages(ms: seq<Message>, i: nat, now: Clock)
    requires i < |ms|
    ensures MessagesOf(Block(ms, i, now)) == [ms[i]]
  {
    var b := Block(ms, i, now);
    assert b[0] == MessageItem(ms[i].id, ms[i]);
    assert MessagesOf(b[1..]) == [] by {
      if |b| == 2 {
        assert b[1..][0].DateItem? && b[1..][1..] == [];
      } else {
        assert b[1..] == [];
      }
    }
  }

  lemma {:induction false} MessagesOfListUpTo(ms: seq<Message>, n: nat, now: Clock)
    requires n <= |ms|
    ensures MessagesOf(ListUpTo(ms, n, now)) == ms[..n]
  {
    if n > 0 {
      var p, b := ListUpTo(ms, n - 1, now), Block(ms, n - 1, now);
      assert ListUpTo(ms, n, now) == p + b;
      MessagesOfListUpTo(ms, n - 1, now);
      MessagesOfAppend(p, b);
      BlockMessages(ms, n - 1, now);
      assert ms[..n] == ms[..n - 1] + [ms[n - 1]];
    }
  }

  /** The rendered list shows every message exactly once, in the list's order; headers are the only other items. */
  lemma ListDataMessages(ms: seq<Message>, now: Clock)
    ensures MessagesOf(ListData(ms, now)) == ms
  {
    MessagesOfListUpTo(ms, |ms|, now);
    assert ms[..|ms|] == ms;
  }

  lemma {:induction false} ListUpToPrefix(ms: seq<Message>, a: nat, b: nat, now: Clock)
    requires a <= b <= |ms|
    ensures |ListUpTo(ms, a, now)| <= |ListUpTo(ms, b, now)|
    ensures ListUpTo(ms, b, now)[..|ListUpTo(ms, a, now)|] == ListUpTo(ms, a, now)
  {
    if a < b {
      ListUpToPrefix(ms, a, b - 1, now);
      var p, q := ListUpTo(ms, a, now), ListUpTo(ms, b - 1, now);
      assert ListUpTo(ms, b, now)[..|q|] == q;
      assert q[..|p|] == p;
    }
  }

  /**
   * Message `i` is rendered at position `|ListUpTo(ms, i)|`, and a date
   * header follows it exactly when `Separated(ms, i)`; the header carries
   * the message's key and label.
   */
  lemma ListDataHeaders(ms: seq<Message>, i: nat, now: Clock)
    requires i < |ms|
    ensures var items, p := ListData(ms, now), |ListUpTo(ms, i, now)|;
      && p < |items|
      && items[p] == MessageItem(ms[i].id, ms[i])
      && (p + 1 < |items| && items[p + 1].DateItem? <==> Separated(ms, i))
      && (Separated(ms, i) ==>
            items[p + 1] == DateItem("date-" + DateKey(ms[i].createdAt.parsed),
                                     FormatDateLabel(now, ms[i].createdAt.parsed.value)))
  {
    BlockShape(ms, i, now);
    BlockAt(ms, i, now);
    NextIsMessage(ms, i, now);
  }

  /** What follows the first `i + 1` blocks in the list is a message. */
  lemma NextIsMessage(ms: seq<Message>, i: nat, now: Clock)
    requires i < |ms|
    ensures |ListUpTo(ms, i + 1, now)| < |ListData(ms, now)| ==>
      ListData(ms, now)[|ListUpTo(ms, i + 1, now)|].MessageItem?
  {
    if i + 1 < |ms| {
      BlockAt(ms, i + 1, now);
      BlockStart(ms, i + 1, now);
    }
  }

  /** Block `i` sits at position `|ListUpTo(ms, i)|` of the list. */
  lemma BlockAt(ms: seq<Message>, i: nat, now: Clock)
    requires i < |ms|
    ensures var items, p, b := ListData(ms, now), |ListUpTo(ms, i, now)|, Block(ms, i, now);
      && p + |b| == |ListUpTo(ms, i + 1, now)| <= |items|
      && (|b| > 0 ==> items[p] == b[0])
      && (|b| > 1 ==> items[p + 1] == b[1])
  {
    var items, pre, b := ListData(ms, now), ListUpTo(ms, i, now), Block(ms, i, now);
    ListUpToPrefix(ms, i + 1, |ms|, now);
    assert ListUpTo(ms, i + 1, now) == pre + b;
    PrefixAt(items, pre, b);
  }

  lemma BlockStart(ms: seq<Message>, i: nat, now: Clock)
    requires i < |ms|
    ensures |Block(ms, i, now)| >= 1 && Block(ms, i, now)[0] == MessageItem(ms[i].id, ms[i])
  {
  }

  /** A block is the message, followed by its header exactly when `Separated`. */
  lemma BlockShape(ms: seq<Message>, i: nat, now: Clock)
    requires i < |ms|
    ensures var b := Block(ms, i, now);
      && |b| == (if Separated(ms, i) then 2 else 1)
      && b[0] == MessageItem(ms[i].id, ms[i])
      && (Separated(ms, i) ==>
            b[1] == DateItem("date-" + DateKey(ms[i].createdAt.parsed), FormatDateLabel(now, ms[i].createdAt.parsed.value)))
  {
  }

  /** The first two items of `b` inside a sequence that starts with `a + b`. */
  lemma PrefixAt<T>(s: seq<T>, a: seq<T>, b: seq<T>)
    requires |a| + |b| <= |s| && s[..|a| + |b|] == a + b
    ensures |b| > 0 ==> s[|a|] == b[0]
    ensures |b| > 1 ==> s[|a| + 1] == b[1]
  {
    if |b| > 0 { assert s[|a|] == (a + b)[|a|]; }
    if |b| > 1 { assert s[|a| + 1] == (a + b)[|a| + 1]; }
  }

  /**
   * With calendar fields as a valid `Date` reports them, a header follows
   * message `i` exactly when its date is valid and the next (older) message
   * is missing, has an invalid date, or falls on another day.
   */
  lemma SeparatedMeansDayBoundary(ms: seq<Message>, i: nat)
    requires i < |ms|
    requires forall j :: 0 <= j < |ms| && ms[j].createdAt.parsed.Some? ==> CalendarDay(ms[j].createdAt.parsed.value)
    ensures Separated(ms, i) <==>
      && ms[i].createdAt.parsed.Some?
      && (|| i + 1 == |ms|
          || ms[i + 1].createdAt.parsed.None?
          || !SameDay(ms[i].createdAt.parsed.value, ms[i + 1].createdAt.parsed.value))
  {
    if ms[i].createdAt.parsed.Some? && i + 1 < |ms| {
      var c := ms[i].createdAt.parsed.value;
      if ms[i + 1].createdAt.parsed.None? {
        DateKeyNotInvalid(c);
      } else {
        DateKeyInjective(c, ms[i + 1].createdAt.parsed.value);
      }
    }
  }

  // ---------------------------------------------------------------------------
  // The page cursor

  datatype Cursor = Cursor(current: int, last: int)

  /** `current = meta?.current_page ?? requested`, `last = meta?.last_page ?? current`. */
  function PageCursor(meta: Option<PageMeta>, requested: int): Cursor {
    var current := if meta.Some? && meta.value.currentPage.Some? then meta.value.currentPage.value else requested;
    var last := if meta.Some? && meta.value.lastPage.Some? then meta.value.lastPage.value else current;
    Cursor(current, last)
  }

  /** A page that does not report its last page ends the paging; a reported current page is taken as it is. */
  lemma PageCursorFacts(meta: Option<PageMeta>, requested: int)
    ensures meta.None? ==> PageCursor(meta, requested) == Cursor(requested, requested)
    ensures meta.None? || meta.value.lastPage.None? ==> !(PageCursor(meta, requested).current < PageCursor(meta, requested).last)
    ensures meta.Some? && meta.value.currentPage.Some? ==> PageCursor(meta, requested).current == meta.value.currentPage.value
    ensures meta.Some? && meta.value.lastPage.Some? ==>
      (PageCursor(meta, requested).current < PageCursor(meta, requested).last <==>
       meta.value.currentPage.GetOr(requested) < meta.value.lastPage.value)
  {
  }

  // ---------------------------------------------------------------------------
  // The send/echo interleaving

  /**
   * When the channel's create event for a sent message arrives before the
   * send's response, the event prepends the message and the response
   * prepends it again: the screen's list then holds that id twice.
   */
  lemma EchoBeforeResponseDuplicates(ms: seq<Message>, m: Message)
    requires !HasId(ms, m.id)
    ensures !UniqueIds([m] + PrependIfAbsent(ms, m))
  {
    var r := [m] + PrependIfAbsent(ms, m);
    assert r[0].id == r[1].id;
  }

  /** In the other order the event finds the id already listed and the list keeps unique ids. */
  lemma ResponseBeforeEchoAbsorbed(ms: seq<Message>, m: Message)
    requires UniqueIds(ms) && !HasId(ms, m.id)
    ensures PrependIfAbsent([m] + ms, m) == [m] + ms
    ensures UniqueIds(PrependIfAbsent([m] + ms, m))
  {
    assert ([m] + ms)[0] == m;
    PrependIfAbsentFacts(ms, m);
  }

  // ---------------------------------------------------------------------------
  // The screen

  /** The screen's React state. */
  datatype View = View(
    text: string,
    isLoading: bool,
    isSending: bool,
    isFetchingMore: bool,
    hasMore: bool,
    current: int,
    last: int,
    messages: seq<Message>,
    editing: Option<Message>)

  /** What a submit asks the server for. */
  datatype SubmitRequest = NoRequest | EditRequest(messageId: string, content: string) | SendRequest(content: string)

  class Screen {
    const conversationId: string
    var text: string
    var isLoading: bool
    var isSending: bool
    var isFetchingMore: bool
    var hasMore: bool
    var current: int
    var last: int
    var messages: seq<Message>
    var editing: Option<Message>

    function State(): View
      reads this
    {
      View(text, isLoading, isSending, isFetchingMore, hasMore, current, last, messages, editing)
    }

    /** The initial state, with no edit session and an empty draft. */
    constructor (conversationId: string)
      ensures this.conversationId == conversationId
      ensures State() == View("", true, false, false, false, 1, 1, [], None)
    {
      this.conversationId := conversationId;
      text := "";
      isLoading := true;
      isSending := false;
      isFetchingMore := false;
      hasMore := false;
      current := 1;
      last := 1;
      messages := [];
      editing := None;
    }

    /** The channel handlers are registered only for a non-empty conversation id and a signed-in user with an id. */
    predicate Listening(user: Option<User>)
      reads this
    {
      conversationId != "" && user.Some? && user.value.id != ""
    }

    /** Focus: this conversation becomes the active one and a read receipt is sent. */
    method Focus(store: Store, readResponse: Result<()>)
      modifies store
      ensures var focused := SetActive(old(store.State()), Some(conversationId));
        store.State() == if readResponse.Ok? then MarkRead(focused, conversationId) else focused
      ensures old(store.Valid()) ==> store.Valid()
    {
      store.SetActiveConversation(Some(conversationId));
      var _ := ConversationService.MarkConversationAsRead(store, conversationId, readResponse);
    }

    /** Blur or unmount: no conversation is active. */
    method Blur(store: Store)
      modifies store
      ensures store.State() == SetActive(old(store.State()), None)
      ensures old(store.Valid()) ==> store.Valid()
    {
      store.SetActiveConversation(None);
    }

    /** The first page arrives (or fails): the list is replaced and the cursor set. */
    method FirstPageLoaded(response: Result<Page>)
      modifies this
      ensures response.Ok? ==>
        var c := PageCursor(response.value.meta, 1);
        State() == old(State()).(messages := response.value.data, current := c.current, last := c.last,
                                 hasMore := c.current < c.last, isLoading := false)
      ensures response.Err? ==> State() == old(State()).(messages := [], hasMore := false, isLoading := false)
    {
      if response.Ok? {
        var page := response.value;
        messages := page.data;
        var c := PageCursor(page.meta, 1);
        current, last := c.current, c.last;
        hasMore := c.current < c.last;
      } else {
        messages := [];
        hasMore := false;
      }
      isLoading := false;
    }

    /**
     * A message is created in some conversation.  For this one: the store is
     * updated for the current user, the message is prepended unless already
     * listed, and a read receipt goes out when someone else sent it.
     */
    method OnMessageCreated(store: Store, user: Option<User>, m: Message, readResponse: Result<()>) returns (readRequested: bool)
      modifies this, store
      ensures !Listening(user) || m.conversationId != conversationId ==>
        !readRequested && State() == old(State()) && store.State() == old(store.State())
      ensures Listening(user) && m.conversationId == conversationId ==>
        && readRequested == (m.senderId != user.value.id)
        && State() == old(State()).(messages := PrependIfAbsent(old(messages), m))
        && var updated := NewMessage(old(store.State()), m, Some(user.value.id));
           store.State() == if readRequested && readResponse.Ok? then MarkRead(updated, conversationId) else updated
      ensures old(store.Valid()) ==> store.Valid()
    {
      if !Listening(user) || m.conversationId != conversationId {
        return false;
      }
      store.UpdateConversationOnNewMessage(m, Some(user.value.id));
      messages := PrependIfAbsent(messages, m);
      readRequested := m.senderId != user.value.id;
      if readRequested {
        var _ := ConversationService.MarkConversationAsRead(store, conversationId, readResponse);
      }
    }

    /** A message is edited: the store's preview and this screen's copy take the new record. */
    method OnMessageUpdated(store: Store, user: Option<User>, m: Message)
      modifies this, store
      ensures !Listening(user) || m.conversationId != conversationId ==>
        State() == old(State()) && store.State() == old(store.State())
      ensures Listening(user) && m.conversationId == conversationId ==>
        && State() == old(State()).(messages := ReplaceById(old(messages), m))
        && store.State() == MessageUpdate(old(store.State()), m)
      ensures old(store.Valid()) ==> store.Valid()
    {
      if !Listening(user) || m.conversationId != conversationId {
        return;
      }
      store.UpdateConversationOnMessageUpdate(m);
      messages := ReplaceById(messages, m);
    }

    /**
     * A message is deleted.  The store is told first, whichever conversation
     * the event names; only then are other conversations' events dropped.
     * Deleting the message being edited ends the edit session.
     */
    method OnMessageDeleted(store: Store, user: Option<User>, eventConversationId: string, deletedId: string,
                            wasLastMessage: bool, newLastMessage: Option<Message>)
      modifies this, store
      ensures !Listening(user) ==> State() == old(State()) && store.State() == old(store.State())
      ensures Listening(user) ==>
        store.State() == MessageDelete(old(store.State()), eventConversationId, wasLastMessage, newLastMessage, false)
      ensures Listening(user) && eventConversationId != conversationId ==> State() == old(State())
      ensures Listening(user) && eventConversationId == conversationId ==>
        var endsEdit := old(editing).Some? && old(editing).value.id == deletedId;
        State() == old(State()).(messages := RemoveById(old(messages), deletedId),
                                 editing := if endsEdit then None else old(editing),
                                 text := if endsEdit then "" else old(text))
      ensures old(store.Valid()) ==> store.Valid()
    {
      if !Listening(user) {
        return;
      }
      store.UpdateConversationOnMessageDelete(eventConversationId, wasLastMessage, newLastMessage, false);
      if eventConversationId != conversationId {
        return;
      }
      messages := RemoveById(messages, deletedId);
      if editing.Some? && editing.value.id == deletedId {
        text := "";
        editing := None;
      }
    }

    /** Scrolling to the end asks for the next page unless a load is under way or there is none. */
    method LoadOlderMessages(response: Result<Page>) returns (requested: Option<int>)
      modifies this
      ensures old(isLoading || isFetchingMore || !hasMore) ==> requested.None? && State() == old(State())
      ensures !old(isLoading || isFetchingMore || !hasMore) ==> requested == Some(old(current) + 1)
      ensures !old(isLoading || isFetchingMore || !hasMore) && response.Ok? ==>
        var c := PageCursor(response.value.meta, old(current) + 1);
        State() == old(State()).(messages := old(messages) + response.value.data, current := c.current,
                                 last := c.last, hasMore := c.current < c.last, isFetchingMore := false)
      ensures !old(isLoading || isFetchingMore || !hasMore) && response.Err? ==>
        State() == old(State()).(isFetchingMore := false)
    {
      if isLoading || isFetchingMore || !hasMore {
        return None;
      }
      var nextPage := current + 1;
      requested := Some(nextPage);
      if response.Ok? {
        var page := response.value;
        messages := messages + page.data;
        var c := PageCursor(page.meta, nextPage);
        current, last := c.current, c.last;
        hasMore := c.current < c.last;
      }
      isFetchingMore := false;
    }

    method CancelEditing()
      modifies this
      ensures State() == old(State()).(editing := None, text := "")
    {
      editing := None;
      text := "";
    }

    /** Starting an edit loads the message's text (empty for an attachment-only message) into the draft. */
    method StartEditing(m: Message)
      modifies this
      ensures State() == old(State()).(editing := Some(m), text := m.content.GetOr(""))
    {
      editing := Some(m);
      text := m.content.GetOr("");
    }

    /** Deleting one's own message: on success it leaves the list, and the edit session if it was being edited. */
    method DeleteMessage(store: Store, messageId: string, response: Result<MessageService.Deleted>)
      modifies this, store
      ensures response.Err? ==> State() == old(State()) && store.State() == old(store.State())
      ensures response.Ok? ==>
        && store.State() == MessageDelete(old(store.State()), conversationId, response.value.wasLastMessage,
                                          response.value.newLastMessage, false)
        && var endsEdit := old(editing).Some? && old(editing).value.id == messageId;
           State() == old(State()).(messages := RemoveById(old(messages), messageId),
                                    editing := if endsEdit then None else old(editing),
                                    text := if endsEdit then "" else old(text))
      ensures old(store.Valid()) ==> store.Valid()
    {
      var r := MessageService.DeleteMessage(store, conversationId, response);
      if r.Success? {
        messages := RemoveById(messages, messageId);
        if editing.Some? && editing.value.id == messageId {
          editing := None;
          text := "";
        }
      }
    }

    /**
     * Submitting the draft: nothing without a user or with a blank draft;
     * otherwise the trimmed text edits the message being edited or is sent as
     * a new one.  A sent message is prepended without the duplicate check the
     * create event makes.
     */
    method Submit(store: Store, user: Option<User>, editResponse: Result<Message>,
                  sendResponse: Result<MessageService.Sent>) returns (req: SubmitRequest)
      modifies this, store
      ensures user.None? || Trim(old(text)) == "" ==>
        req == NoRequest && State() == old(State()) && store.State() == old(store.State())
      ensures req != NoRequest <==> user.Some? && Trim(old(text)) != ""
      ensures req != NoRequest ==> (req.EditRequest? <==> old(editing).Some?)
      ensures req.EditRequest? ==> req.content != "" && Trim(req.content) == req.content
      ensures req.SendRequest? ==> req.content != "" && Trim(req.content) == req.content
      ensures req.EditRequest? ==>
        && old(editing).Some? && req == EditRequest(old(editing).value.id, Trim(old(text)))
        && (editResponse.Ok? ==>
              && State() == old(State()).(messages := ReplaceById(old(messages), editResponse.value),
                                          editing := None, text := "", isSending := false)
              && store.State() == MessageUpdate(old(store.State()), editResponse.value))
        && (editResponse.Err? ==> State() == old(State()).(isSending := false) && store.State() == old(store.State()))
      ensures req.SendRequest? ==>
        && old(editing).None? && req == SendRequest(Trim(old(text)))
        && (sendResponse.Ok? ==>
              && State() == old(State()).(messages := [sendResponse.value.message] + old(messages),
                                          text := "", isSending := false)
              && store.State() == MessageService.AfterSend(old(store.State()), sendResponse.value, Some(user.value.id)))
        && (sendResponse.Err? ==> State() == old(State()).(isSending := false) && store.State() == old(store.State()))
      ensures old(store.Valid()) ==> store.Valid()
    {
      if user.None? {
        return NoRequest;
      }
      var content := Trim(text);
      if content == "" {
        return NoRequest;
      }
      TrimIdempotent(text);
      if editing.Some? {
        req := EditRequest(editing.value.id, content);
        SubmitEdit(store, editResponse);
      } else {
        req := SendRequest(content);
        SubmitSend(store, user.value.id, sendResponse);
      }
    }

    /** The edit branch of a submit. */
    method SubmitEdit(store: Store, editResponse: Result<Message>)
      modifies this, store
      ensures editResponse.Ok? ==>
        && State() == old(State()).(messages := ReplaceById(old(messages), editResponse.value),
                                    editing := None, text := "", isSending := false)
        && store.State() == MessageUpdate(old(store.State()), editResponse.value)
      ensures editResponse.Err? ==> State() == old(State()).(isSending := false) && store.State() == old(store.State())
      ensures old(store.Valid()) ==> store.Valid()
    {
      var r := MessageService.UpdateMessage(store, editResponse);
      if r.Success? {
        messages := ReplaceById(messages, r.data);
        editing := None;
        text := "";
      }
      isSending := false;
    }

    /** The send branch of a submit. */
    method SubmitSend(store: Store, userId: string, sendResponse: Result<MessageService.Sent>)
      modifies this, store
      ensures sendResponse.Ok? ==>
        && State() == old(State()).(messages := [sendResponse.value.message] + old(messages),
                                    text := "", isSending := false)
        && store.State() == MessageService.AfterSend(old(store.State()), sendResponse.value, Some(userId))
      ensures sendResponse.Err? ==> State() == old(State()).(isSending := false) && store.State() == old(store.State())
      ensures old(store.Valid()) ==> store.Valid()
    {
      var r := MessageService.SendMessage(store, Some(userId), sendResponse);
      if r.Success? {
        messages := [r.data.message] + messages;
        text := "";
      }
      isSending := false;
    }

    /** The rendered list of the current messages. */
    method ListItems(now: Clock) returns (items: seq<ListItem>)
      ensures items == ListData(messages, now)
    {
      items := BuildListData(messages, now);
    }
  }
}
