/**
 * services/ConversationService.ts: the conversation REST calls and the store
 * actions they make on success, plus the tolerant decoding of the payload
 * that creating a private conversation returns.
 */
module ConversationService {
  import opened Wrappers
  import opened Text
  import opened Domain
  import opened ChatStore

  /** A decoded JSON value (numbers restricted to integers). */
  datatype Json =
    | JNull
    | JBool(b: bool)
    | JNum(n: int)
    | JStr(s: string)
    | JArr(items: seq<Json>)
    | JObj(fields: map<string, Json>)

  /**
   * `v?.key` where `v` may be undefined (None): undefined for undefined, null
   * and non-objects, the field's value otherwise (an absent field is undefined).
   */
  function Get(v: Option<Json>, key: string): (r: Option<Json>)
    ensures r.Some? ==> v.Some? && v.value.JObj? && key in v.value.fields && r.value == v.value.fields[key]
  {
    if v.Some? && v.value.JObj? && key in v.value.fields then Some(v.value.fields[key]) else None
  }

  /** Neither undefined nor null. */
  predicate Present(v: Option<Json>) {
    v.Some? && !v.value.JNull?
  }

  /** `a ?? b`. */
  function Coalesce(a: Option<Json>, b: Option<Json>): (r: Option<Json>)
    ensures Present(a) ==> r == a
    ensures !Present(a) ==> r == b
  {
    if Present(a) then a else b
  }

  /** JavaScript truthiness of a JSON value (undefined, null, false, 0 and "" are falsy). */
  predicate Truthy(v: Option<Json>) {
    match v
    case None => false
    case Some(j) =>
      match j
      case JNull => false
      case JBool(b) => b
      case JNum(n) => n != 0
      case JStr(s) => s != ""
      case JArr(_) => true
      case JObj(_) => true
  }

  /** `String(v)` of a JSON value: arrays join their elements with commas, null and undefined elements as "". */
  function JsString(v: Json): string
    decreases v, 1
  {
    match v
    case JNull => "null"
    case JBool(b) => if b then "true" else "false"
    case JNum(n) => IntToString(n)
    case JStr(s) => s
    case JArr(items) => JoinElements(v, items)
    case JObj(_) => "[object Object]"
  }

  function JoinElements(v: Json, items: seq<Json>): string
    requires forall k :: 0 <= k < |items| ==> items[k] < v
    decreases v, 0, |items|
  {
    if items == [] then ""
    else
      var first := if items[0].JNull? then "" else JsString(items[0]);
      if |items| == 1 then first else first + "," + JoinElements(v, items[1..])
  }

  /** The outcome of a successful create: a conversation-like object with a truthy id, or a bare acknowledgement. */
  datatype Created = CreatedConversation(conversation: Json) | Acknowledged

  /**
   * The payload is `data.data`, or the body itself when that is nullish; the
   * conversation is the payload's `conversation`, or the payload itself when
   * it has a truthy `id`; the create succeeds with it when its `id` is truthy.
   */
  function DecodeCreated(body: Json): (r: Created)
    ensures r.CreatedConversation? ==> Truthy(Get(Some(r.conversation), "id"))
  {
    var payload := Coalesce(Get(Some(body), "data"), Some(body));
    var fallback := if Truthy(Get(payload, "id")) then payload else Some(JNull);
    var conversation := Coalesce(Coalesce(Get(payload, "conversation"), fallback), Some(JNull));
    if Truthy(Get(conversation, "id")) then CreatedConversation(conversation.value) else Acknowledged
  }

  /**
   * The three envelope shapes the server may send all decode to the
   * conversation: `{data: {conversation: c}}`, `{data: c}` and `c` itself,
   * when `c` has a truthy id and (for the bare shapes) no `conversation` or
   * `data` field of its own.
   */
  lemma DecodeEnvelopes(c: map<string, Json>)
    requires Truthy(Get(Some(JObj(c)), "id"))
    ensures DecodeCreated(JObj(map["data" := JObj(map["conversation" := JObj(c)])])) == CreatedConversation(JObj(c))
    ensures "conversation" !in c ==> DecodeCreated(JObj(map["data" := JObj(c)])) == CreatedConversation(JObj(c))
    ensures "conversation" !in c && "data" !in c ==> DecodeCreated(JObj(c)) == CreatedConversation(JObj(c))
  {
  }

  /**
   * A present `conversation` field wins over the payload's own id: when it
   * has no truthy id the create is only acknowledged, whatever the payload's id.
   */
  lemma DecodeInnerShadowsOuter(payload: map<string, Json>)
    requires "conversation" in payload && !payload["conversation"].JNull?
    requires !Truthy(Get(Some(payload["conversation"]), "id"))
    ensures DecodeCreated(JObj(map["data" := JObj(payload)])) == Acknowledged
  {
  }

  /** A body with nothing id-like (here: an object without `data`, `conversation` or `id`) is only acknowledged. */
  lemma DecodeNoId(body: map<string, Json>)
    requires "data" !in body && "conversation" !in body && "id" !in body
    ensures DecodeCreated(JObj(body)) == Acknowledged
  {
  }

  /** fetchConversations: on success the store is hydrated with the list. */
  method FetchConversations(store: Store, response: Result<seq<Conversation>>) returns (r: ServiceResult<seq<Conversation>>)
    modifies store
    ensures response.Err? ==> r == Failure && store.State() == old(store.State())
    ensures response.Ok? ==> r == Success(response.value) && store.State() == Hydrate(old(store.State()), response.value)
    ensures response.Ok? && DistinctIds(response.value) ==> store.Valid()
  {
    if response.Err? {
      return Failure;
    }
    store.SetConversations(response.value);
    return Success(response.value);
  }

  /** createPrivateConversation: decodes the body and leaves the store alone. */
  method CreatePrivateConversation(response: Result<Json>) returns (r: ServiceResult<Created>)
    ensures response.Err? ==> r == Failure
    ensures response.Ok? ==> r == Success(DecodeCreated(response.value))
  {
    if response.Err? {
      return Failure;
    }
    return Success(DecodeCreated(response.value));
  }

  /** deleteConversation: on success the conversation leaves the store. */
  method DeleteConversation(store: Store, conversationId: string, response: Result<()>) returns (r: ServiceResult<bool>)
    modifies store
    ensures response.Err? ==> r == Failure && store.State() == old(store.State())
    ensures response.Ok? ==> r == Success(true) && store.State() == Removed(old(store.State()), conversationId)
    ensures old(store.Valid()) ==> store.Valid()
  {
    if response.Err? {
      return Failure;
    }
    store.RemoveConversation(conversationId);
    return Success(true);
  }

  /** markConversationAsRead: on success the conversation's unread flag is cleared. */
  method MarkConversationAsRead(store: Store, conversationId: string, response: Result<()>) returns (r: ServiceResult<bool>)
    modifies store
    ensures response.Err? ==> r == Failure && store.State() == old(store.State())
    ensures response.Ok? ==> r == Success(true) && store.State() == MarkRead(old(store.State()), conversationId)
    ensures old(store.Valid()) ==> store.Valid()
  {
    if response.Err? {
      return Failure;
    }
    store.MarkConversationAsRead(conversationId);
    return Success(true);
  }
}
