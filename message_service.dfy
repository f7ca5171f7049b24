/**
 * services/MessageService.ts: the message REST calls, the store updates they
 * make on success, and the updaters they hand to a paged message cache.
 * A request's outcome is a parameter (`Result`): the HTTP exchange itself is
 * not modelled.
 */
module MessageService {
  import opened Wrappers
  import opened Domain
  import opened MessageList
  import opened ChatStore

  /** `RNFile`: a local file picked for upload; name and type may be missing. */
  datatype LocalFile = LocalFile(uri: string, name: Option<string>, mimeType: Option<string>)

  /** The `arg` of sendMessage: optional text and an optional attachment. */
  datatype SendArgs = SendArgs(content: Option<string>, attachment: Option<LocalFile>)

  /** One field of the multipart form sendMessage posts. */
  datatype FormPart = ContentField(content: string) | AttachmentField(uri: string, name: string, mimeType: string)

  /** The body of a successful send: the stored message and its conversation. */
  datatype Sent = Sent(message: Message, conversation: Conversation)

  /** The body of a successful delete. */
  datatype Deleted = Deleted(deletedId: string, wasLastMessage: bool, newLastMessage: Option<Message>)

  const DefaultAttachmentName := "attachment"
  const DefaultMimeType := "application/octet-stream"

  /** The form sendMessage builds: the text only when it is truthy, then the file with defaults filled in. */
  function SendForm(arg: SendArgs): seq<FormPart> {
    (if arg.content.Some? && arg.content.value != "" then [ContentField(arg.content.value)] else [])
    + (match arg.attachment
       case None => []
       case Some(f) => [AttachmentField(f.uri, f.name.GetOr(DefaultAttachmentName), f.mimeType.GetOr(DefaultMimeType))])
  }

  /**
   * The form carries a content field exactly when the text is non-empty,
   * holding that text, and an attachment field exactly when a file is given,
   * holding its uri and its name and type or their defaults; the text comes
   * first.
   */
  lemma SendFormFacts(arg: SendArgs)
    ensures |SendForm(arg)| <= 2
    ensures forall c :: ContentField(c) in SendForm(arg) <==> arg.content == Some(c) && c != ""
    ensures forall u, n, t :: AttachmentField(u, n, t) in SendForm(arg) <==>
      && arg.attachment.Some?
      && u == arg.attachment.value.uri
      && n == arg.attachment.value.name.GetOr(DefaultAttachmentName)
      && t == arg.attachment.value.mimeType.GetOr(DefaultMimeType)
    ensures |SendForm(arg)| == 2 ==> SendForm(arg)[0].ContentField? && SendForm(arg)[1].AttachmentField?
  {
  }

  // ---------------------------------------------------------------------------
  // The page-cache updaters

  /** Every message of a list of pages, newest first, page by page. */
  function Flatten(pages: seq<Page>): seq<Message> {
    if pages == [] then [] else pages[0].data + Flatten(pages[1..])
  }

  function PagesOrEmpty(current: Option<seq<Page>>): seq<Page> {
    if current.None? then [] else current.value
  }

  /** The meta of the page sendMessage creates for an empty cache. */
  const FirstPageMeta := PageMeta(Some(1), Some(1), 30, 1)

  /** sendMessage's updater: a one-message page for an empty cache, else the message on top of the first page. */
  function SendUpdater(current: Option<seq<Page>>, m: Message): seq<Page> {
    if current.None? || current.value == [] then [Page([m], Some(FirstPageMeta))]
    else [current.value[0].(data := [m] + current.value[0].data)] + current.value[1..]
  }

  /** After a send the cache shows the new message first and every earlier one after it; no page is lost. */
  lemma SendUpdaterFacts(current: Option<seq<Page>>, m: Message)
    ensures Flatten(SendUpdater(current, m)) == [m] + Flatten(PagesOrEmpty(current))
    ensures |SendUpdater(current, m)| == if PagesOrEmpty(current) == [] then 1 else |PagesOrEmpty(current)|
    ensures PagesOrEmpty(current) == [] ==> SendUpdater(current, m)[0].meta == Some(FirstPageMeta)
    ensures PagesOrEmpty(current) != [] ==>
      && SendUpdater(current, m)[0].meta == PagesOrEmpty(current)[0].meta
      && SendUpdater(current, m)[1..] == PagesOrEmpty(current)[1..]
  {
    var ps := PagesOrEmpty(current);
    var r := SendUpdater(current, m);
    if ps == [] {
      assert Flatten(r) == [m] + Flatten(r[1..]);
    } else {
      assert r[1..] == ps[1..];
      assert Flatten(r) == ([m] + ps[0].data) + Flatten(ps[1..]);
    }
  }

  /**
   * sendMessage's updater as it runs on the cache's page array: an empty
   * cache gets a new one-page array; otherwise the pages are deep-copied and
   * the message is pushed onto the front of the copy's first page.  The
   * method may not modify anything, so the caller's pages stay as they were.
   */
  method SendUpdaterOnCopy(current: Option<array<Page>>, m: Message) returns (newPages: array<Page>)
    ensures fresh(newPages)
    ensures newPages[..] == SendUpdater(if current.None? then None else Some(current.value[..]), m)
  {
    if current.None? || current.value.Length == 0 {
      newPages := new Page[1](_ => Page([m], Some(FirstPageMeta)));
      return;
    }
    var src := current.value;
    newPages := new Page[src.Length](k reads src requires 0 <= k < src.Length => src[k]);
    newPages[0] := newPages[0].(data := [m] + newPages[0].data);
    assert newPages[1..] == src[1..];
  }

  /** updateMessage's updater: every page with the edited message merged in. */
  function UpdateUpdater(current: Option<seq<Page>>, u: Message): (r: Option<seq<Page>>)
    ensures current.None? <==> r.None?
  {
    match current
    case None => None
    case Some(ps) => Some(seq(|ps|, k requires 0 <= k < |ps| => ps[k].(data := ReplaceById(ps[k].data, u))))
  }

  /** deleteMessage's updater: every page without the deleted message. */
  function DeleteUpdater(current: Option<seq<Page>>, deletedId: string): (r: Option<seq<Page>>)
    ensures current.None? <==> r.None?
  {
    match current
    case None => None
    case Some(ps) => Some(seq(|ps|, k requires 0 <= k < |ps| => ps[k].(data := RemoveById(ps[k].data, deletedId))))
  }

  lemma {:induction false} ReplaceByIdAppend(a: seq<Message>, b: seq<Message>, u: Message)
    ensures ReplaceById(a + b, u) == ReplaceById(a, u) + ReplaceById(b, u)
  {
  }

  lemma {:induction false} RemoveByIdAppend(a: seq<Message>, b: seq<Message>, id: string)
    ensures RemoveById(a + b, id) == RemoveById(a, id) + RemoveById(b, id)
  {
    if a == [] {
      assert a + b == b;
    } else {
      var head := if a[0].id == id then [] else [a[0]];
      calc {
        RemoveById(a + b, id);
        { assert (a + b)[0] == a[0]; }
        head + RemoveById((a + b)[1..], id);
        { assert (a + b)[1..] == a[1..] + b; }
        head + RemoveById(a[1..] + b, id);
        { RemoveByIdAppend(a[1..], b, id); }
        head + (RemoveById(a[1..], id) + RemoveById(b, id));
        (head + RemoveById(a[1..], id)) + RemoveById(b, id);
      }
    }
  }

  lemma {:induction false} FlattenReplace(ps: seq<Page>, u: Message)
    ensures Flatten(UpdateUpdater(Some(ps), u).value) == ReplaceById(Flatten(ps), u)
  {
    var r := UpdateUpdater(Some(ps), u).value;
    if ps != [] {
      FlattenReplace(ps[1..], u);
      assert r[1..] == UpdateUpdater(Some(ps[1..]), u).value;
      ReplaceByIdAppend(ps[0].data, Flatten(ps[1..]), u);
    }
  }

  lemma {:induction false} FlattenRemove(ps: seq<Page>, id: string)
    ensures Flatten(DeleteUpdater(Some(ps), id).value) == RemoveById(Flatten(ps), id)
  {
    var r := DeleteUpdater(Some(ps), id).value;
    if ps != [] {
      FlattenRemove(ps[1..], id);
      assert r[1..] == DeleteUpdater(Some(ps[1..]), id).value;
      RemoveByIdAppend(ps[0].data, Flatten(ps[1..]), id);
    }
  }

  /**
   * The edit and delete updaters leave an absent cache absent, keep the page
   * structure and every page's meta, replace or filter within each page (an
   * edit keeps each page's length), and act on the whole cache exactly as
   * the screen's replace-by-id and filter-by-id act on one list.
   */
  lemma EditUpdatersFacts(current: Option<seq<Page>>, u: Message, deletedId: string)
    ensures current.Some? ==>
      && |UpdateUpdater(current, u).value| == |current.value|
      && |DeleteUpdater(current, deletedId).value| == |current.value|
      && (forall k :: 0 <= k < |current.value| ==>
            && UpdateUpdater(current, u).value[k].meta == current.value[k].meta
            && DeleteUpdater(current, deletedId).value[k].meta == current.value[k].meta
            && UpdateUpdater(current, u).value[k].data == ReplaceById(current.value[k].data, u)
            && |UpdateUpdater(current, u).value[k].data| == |current.value[k].data|
            && DeleteUpdater(current, deletedId).value[k].data == RemoveById(current.value[k].data, deletedId))
      && Flatten(UpdateUpdater(current, u).value) == ReplaceById(Flatten(current.value), u)
      && Flatten(DeleteUpdater(current, deletedId).value) == RemoveById(Flatten(current.value), deletedId)
  {
    if current.Some? {
      FlattenReplace(current.value, u);
      FlattenRemove(current.value, deletedId);
    }
  }

  // ---------------------------------------------------------------------------
  // The calls

  /**
   * The store after a successful send: the conversation filed if it was
   * unknown, then the new-message action for the sender.
   */
  function AfterSend(st: ChatState, data: Sent, currentUserId: Option<string>): ChatState {
    NewMessage(Added(st, data.conversation), data.message, currentUserId)
  }

  /**
   * A successful send of a message that belongs to the returned conversation
   * leaves that conversation filed and first in the list, previewing the
   * message's text, and keeps the store consistent.
   */
  lemma AfterSendFacts(st: ChatState, data: Sent, currentUserId: Option<string>)
    requires Consistent(st)
    requires data.message.conversationId == data.conversation.id
    ensures var st' := AfterSend(st, data, currentUserId);
      && Consistent(st')
      && data.conversation.id in st'.conversations
      && st'.order[0] == data.conversation.id
      && st'.conversations[data.conversation.id].lastMessage.Some?
      && st'.conversations[data.conversation.id].lastMessage.value.content == data.message.content
      && st'.conversations.Keys == st.conversations.Keys + {data.conversation.id}
  {
    AddConversationFacts(st, data.conversation);
    NewMessageFacts(Added(st, data.conversation), data.message, currentUserId);
  }

  /** sendMessage: on success the store gets the conversation and the message; on failure nothing changes. */
  method SendMessage(store: Store, currentUserId: Option<string>, response: Result<Sent>) returns (r: ServiceResult<Sent>)
    modifies store
    ensures response.Err? ==> r == Failure && store.State() == old(store.State())
    ensures response.Ok? ==> r == Success(response.value) && store.State() == AfterSend(old(store.State()), response.value, currentUserId)
    ensures old(store.Valid()) ==> store.Valid()
  {
    if response.Err? {
      return Failure;
    }
    var data := response.value;
    if data.conversation.id !in store.conversations {
      store.AddConversation(data.conversation);
    }
    store.UpdateConversationOnNewMessage(data.message, currentUserId);
    return Success(data);
  }

  /** updateMessage: on success the store refreshes the preview; on failure nothing changes. */
  method UpdateMessage(store: Store, response: Result<Message>) returns (r: ServiceResult<Message>)
    modifies store
    ensures response.Err? ==> r == Failure && store.State() == old(store.State())
    ensures response.Ok? ==> r == Success(response.value) && store.State() == MessageUpdate(old(store.State()), response.value)
    ensures old(store.Valid()) ==> store.Valid()
  {
    if response.Err? {
      return Failure;
    }
    store.UpdateConversationOnMessageUpdate(response.value);
    return Success(response.value);
  }

  /** deleteMessage: on success the store applies the delete and clears the unread flag; on failure nothing changes. */
  method DeleteMessage(store: Store, conversationId: string, response: Result<Deleted>) returns (r: ServiceResult<Deleted>)
    modifies store
    ensures response.Err? ==> r == Failure && store.State() == old(store.State())
    ensures response.Ok? ==> r == Success(response.value)
    ensures response.Ok? ==>
      store.State() == MessageDelete(old(store.State()), conversationId, response.value.wasLastMessage, response.value.newLastMessage, false)
    ensures old(store.Valid()) ==> store.Valid()
  {
    if response.Err? {
      return Failure;
    }
    var data := response.value;
    store.UpdateConversationOnMessageDelete(conversationId, data.wasLastMessage, data.newLastMessage, false);
    return Success(data);
  }
}
