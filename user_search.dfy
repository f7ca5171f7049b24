/**
 * screens/chat/UserSearchScreen.tsx: the debounced user search and the
 * "start chat" flow that creates (or finds) a private conversation.  The
 * debounce timer and the effect's cancellation flag become a generation
 * number: a response is applied only when it belongs to the latest query.
 */
module UserSearch {
  import opened Wrappers
  import opened Text
  import opened Domain
  import opened Sequences
  import opened ChatStore
  import ConversationService

  const SearchFailed := "Could not fetch users. Try again."

  /** `users.filter(u => String(u.id) !== selfId)`. */
  function ExcludeUser(users: seq<User>, selfId: string): (r: seq<User>)
    ensures forall u :: u in r <==> u in users && u.id != selfId
  {
    if users == [] then []
    else (if users[0].id != selfId then [users[0]] else []) + ExcludeUser(users[1..], selfId)
  }

  /** The results never list the signed-in user and keep the server's order. */
  lemma {:induction false} ExcludeUserOrder(users: seq<User>, selfId: string)
    ensures Subsequence(ExcludeUser(users, selfId), users)
  {
    if users != [] {
      ExcludeUserOrder(users[1..], selfId);
      var r := ExcludeUser(users, selfId);
      if users[0].id != selfId {
        assert r[0] == users[0] && r[1..] == ExcludeUser(users[1..], selfId);
      } else if r != [] {
        assert r == ExcludeUser(users[1..], selfId);
      }
    }
  }

  /** The server's results as shown: without the signed-in user when there is one. */
  function ShownResults(users: seq<User>, currentUserId: Option<string>): (r: seq<User>)
    ensures currentUserId.None? ==> r == users
    ensures currentUserId.Some? ==> r == ExcludeUser(users, currentUserId.value)
  {
    if currentUserId.Some? then ExcludeUser(users, currentUserId.value) else users
  }

  /** Conversation `i` is the first that has `userId` among its participants. */
  ghost predicate FirstWithAt(cs: seq<Conversation>, userId: string, i: int) {
    && 0 <= i < |cs|
    && (exists p :: p in cs[i].participants && p.id == userId)
    && forall j :: 0 <= j < i ==> forall p :: p in cs[j].participants ==> p.id != userId
  }

  /** `c.participants.some(p => String(p.id) === userId)`. */
  ghost predicate HasParticipant(c: Conversation, userId: string) {
    exists p :: p in c.participants && p.id == userId
  }

  /** `convs.find(c => c.participants.some(p => String(p.id) === userId))`. */
  function FindConversationWith(cs: seq<Conversation>, userId: string): (r: Option<Conversation>)
    ensures r.None? <==> forall i :: 0 <= i < |cs| ==> forall p :: p in cs[i].participants ==> p.id != userId
    ensures r.Some? ==> exists i :: FirstWithAt(cs, userId, i) && cs[i] == r.value
  {
    if cs == [] then None
    else if exists p :: p in cs[0].participants && p.id == userId then
      assert FirstWithAt(cs, userId, 0);
      Some(cs[0])
    else
      var r := FindConversationWith(cs[1..], userId);
      if r.Some? then
        FoundLater(cs, userId, r.value);
        r
      else
        NoneAnywhere(cs, userId);
        r
  }

  lemma FoundLater(cs: seq<Conversation>, userId: string, c: Conversation)
    requires cs != [] && !HasParticipant(cs[0], userId)
    requires exists i :: FirstWithAt(cs[1..], userId, i) && cs[1..][i] == c
    ensures exists i :: FirstWithAt(cs, userId, i) && cs[i] == c
  {
    var i :| FirstWithAt(cs[1..], userId, i) && cs[1..][i] == c;
    forall j | 0 <= j < i + 1 ensures forall p :: p in cs[j].participants ==> p.id != userId {
      if j > 0 { assert cs[j] == cs[1..][j - 1]; }
    }
    assert FirstWithAt(cs, userId, i + 1);
  }

  lemma NoneAnywhere(cs: seq<Conversation>, userId: string)
    requires cs != [] && !HasParticipant(cs[0], userId)
    requires forall i :: 0 <= i < |cs| - 1 ==> forall p :: p in cs[1..][i].participants ==> p.id != userId
    ensures forall i :: 0 <= i < |cs| ==> forall p :: p in cs[i].participants ==> p.id != userId
  {
    forall i | 0 <= i < |cs| ensures forall p :: p in cs[i].participants ==> p.id != userId {
      if i > 0 { assert cs[i] == cs[1..][i - 1]; }
    }
  }

  /** The id the create call yields: `String(data.id)` for a created conversation. */
  function CreatedId(c: ConversationService.Created): (id: Option<string>)
    ensures c.Acknowledged? ==> id.None?
    ensures c.CreatedConversation? && c.conversation.JObj? && "id" in c.conversation.fields ==>
      id == Some(ConversationService.JsString(c.conversation.fields["id"]))
    ensures c.CreatedConversation? && !(c.conversation.JObj? && "id" in c.conversation.fields) ==> id.None?
  {
    match c
    case Acknowledged => None
    case CreatedConversation(j) =>
      var field := ConversationService.Get(Some(j), "id");
      if field.Some? then Some(ConversationService.JsString(field.value)) else None
  }

  /** Whether the id from the create call is usable (a non-empty string). */
  predicate UsableId(id: Option<string>) {
    id.Some? && id.value != ""
  }

  /** What starting a chat ends in. */
  datatype StartOutcome =
    | Busy                                            // another start is in flight: nothing happens
    | Open(conversationId: string, userName: string)  // navigate to the conversation
    | CreatedButNotOpened                             // the "Conversation created" alert
    | Failed                                          // the "Unable to start chat" alert

  /** A search the screen has scheduled: its generation, its trimmed query and whom to leave out of the results. */
  datatype SearchRequest = SearchRequest(generation: nat, query: string, excludeId: Option<string>)

  datatype SearchView = SearchView(
    results: seq<User>,
    isSearching: bool,
    searchError: Option<string>,
    creatingFor: Option<string>,
    generation: nat)

  /** The conversation id the start-chat flow settles on, or None. */
  function ResolvedConversationId(created: ConversationService.Created, userId: string,
                                  fetched: Result<seq<Conversation>>): (id: Option<string>)
    ensures UsableId(CreatedId(created)) ==> id == CreatedId(created)
    ensures !UsableId(CreatedId(created)) && fetched.Err? ==> id.None?
    ensures !UsableId(CreatedId(created)) && fetched.Ok? ==>
      id == (match FindConversationWith(fetched.value, userId) case None => None case Some(c) => Some(c.id))
  {
    if UsableId(CreatedId(created)) then CreatedId(created)
    else if fetched.Err? then None
    else
      match FindConversationWith(fetched.value, userId)
      case None => None
      case Some(c) => Some(c.id)
  }

  /**
   * The outcome of a start-chat flow that got past the guard: a failed
   * create fails; otherwise the chat opens when an id was found, and only
   * then.
   */
  function StartChatOutcome(u: User, createResponse: Result<ConversationService.Json>,
                            fetchResponse: Result<seq<Conversation>>): (o: StartOutcome)
    ensures o != Busy
    ensures createResponse.Err? <==> o == Failed
    ensures o.Open? ==> o.conversationId != "" && o.userName == u.name
  {
    if createResponse.Err? then Failed
    else
      var id := ResolvedConversationId(ConversationService.DecodeCreated(createResponse.value), u.id, fetchResponse);
      if UsableId(id) then Open(id.value, u.name) else CreatedButNotOpened
  }

  /** Whether the flow needs the fallback conversation list. */
  predicate NeedsFallback(createResponse: Result<ConversationService.Json>) {
    createResponse.Ok? && !UsableId(CreatedId(ConversationService.DecodeCreated(createResponse.value)))
  }

  /**
   * A conversation returned by the create call opens without a second
   * request; when the server only acknowledges, the chat opens on the first
   * fetched conversation with that user, if any.
   */
  lemma StartChatResolution(u: User, body: ConversationService.Json, fetchResponse: Result<seq<Conversation>>)
    ensures !NeedsFallback(Ok(body)) ==>
      StartChatOutcome(u, Ok(body), fetchResponse) == Open(CreatedId(ConversationService.DecodeCreated(body)).value, u.name)
    ensures ConversationService.DecodeCreated(body).Acknowledged? && fetchResponse.Ok? ==>
      (StartChatOutcome(u, Ok(body), fetchResponse).Open? <==>
         FindConversationWith(fetchResponse.value, u.id).Some? && FindConversationWith(fetchResponse.value, u.id).value.id != "")
    ensures NeedsFallback(Ok(body)) && fetchResponse.Err? ==>
      StartChatOutcome(u, Ok(body), fetchResponse) == CreatedButNotOpened
  {
  }

  class Screen {
    var results: seq<User>
    var isSearching: bool
    var searchError: Option<string>
    var creatingFor: Option<string>
    var generation: nat

    function State(): SearchView
      reads this
    {
      SearchView(results, isSearching, searchError, creatingFor, generation)
    }

    constructor ()
      ensures State() == SearchView([], false, None, None, 0)
    {
      results := [];
      isSearching := false;
      searchError := None;
      creatingFor := None;
      generation := 0;
    }

    /**
     * The search effect for a new query: any earlier search is cancelled; a
     * query that is blank after trimming clears the results and the error
     * and schedules nothing; any other one shows the spinner and schedules a
     * search for the trimmed text.
     */
    method QueryChanged(query: string, currentUserId: Option<string>) returns (request: Option<SearchRequest>)
      modifies this
      ensures generation == old(generation) + 1
      ensures creatingFor == old(creatingFor)
      ensures Trim(query) == "" ==> request.None? && results == [] && !isSearching && searchError.None?
      ensures Trim(query) != "" ==>
        && request == Some(SearchRequest(generation, Trim(query), currentUserId))
        && results == old(results) && isSearching && searchError.None?
    {
      var q := Trim(query);
      var next := generation + 1;
      if q == "" {
        results, isSearching, searchError, generation := [], false, None, next;
        request := None;
      } else {
        isSearching, searchError, generation := true, None, next;
        request := Some(SearchRequest(next, q, currentUserId));
      }
    }

    /**
     * A search response: ignored unless it answers the latest query; then
     * the filtered results, or no results and the error message.
     */
    method SearchCompleted(request: SearchRequest, response: Result<seq<User>>)
      modifies this
      ensures request.generation != old(generation) ==> State() == old(State())
      ensures request.generation == old(generation) && response.Ok? ==>
        State() == old(State()).(results := ShownResults(response.value, request.excludeId), isSearching := false)
      ensures request.generation == old(generation) && response.Err? ==>
        State() == old(State()).(results := [], searchError := Some(SearchFailed), isSearching := false)
    {
      if request.generation != generation {
        return;
      }
      if response.Ok? {
        results := ShownResults(response.value, request.excludeId);
      } else {
        searchError := Some(SearchFailed);
        results := [];
      }
      isSearching := false;
    }

    /**
     * `handleStartChat` up to its first await: nothing while another start is
     * in flight; otherwise the user is marked as being started and the error
     * is cleared.
     */
    method BeginStartChat(u: User) returns (started: bool)
      modifies this
      ensures started <==> !(old(creatingFor).Some? && old(creatingFor).value != "")
      ensures !started ==> State() == old(State())
      ensures started ==> State() == old(State()).(creatingFor := Some(u.id), searchError := None)
    {
      if creatingFor.Some? && creatingFor.value != "" {
        return false;
      }
      creatingFor := Some(u.id);
      searchError := None;
      return true;
    }

    /**
     * The rest of `handleStartChat`: create the conversation, fall back to the
     * conversation list when the create gave no usable id (which also
     * refreshes the store), and settle on an outcome; the in-flight marker is
     * cleared whatever happens.
     */
    method FinishStartChat(store: Store, u: User, createResponse: Result<ConversationService.Json>,
                           fetchResponse: Result<seq<Conversation>>) returns (outcome: StartOutcome)
      modifies this, store
      ensures outcome == StartChatOutcome(u, createResponse, fetchResponse)
      ensures State() == old(State()).(creatingFor := None)
      ensures NeedsFallback(createResponse) && fetchResponse.Ok? ==>
        store.State() == Hydrate(old(store.State()), fetchResponse.value)
      ensures !(NeedsFallback(createResponse) && fetchResponse.Ok?) ==> store.State() == old(store.State())
    {
      var created := ConversationService.CreatePrivateConversation(createResponse);
      if created.Failure? {
        creatingFor := None;
        return Failed;
      }
      var id := CreatedId(created.data);
      if !UsableId(id) {
        var fetched := ConversationService.FetchConversations(store, fetchResponse);
        if fetched.Success? {
          var found := FindConversationWith(fetched.data, u.id);
          id := if found.Some? then Some(found.value.id) else None;
        }
      }
      creatingFor := None;
      if UsableId(id) {
        return Open(id.value, u.name);
      }
      return CreatedButNotOpened;
    }
  }
}
