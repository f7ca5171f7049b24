/**
 * services/ChatEventService.ts: the single subscription to the signed-in
 * user's private channel and the five handlers that forward its events to
 * the conversation store.
 */
module ChatEventService {
  import opened Wrappers
  import opened Domain
  import opened ChatStore
  import MessageService

  /**
   * The part of the Laravel Echo client the service drives: the joined
   * channels by name, each with the events it has listeners for.
   * lib/echo.ts is not part of this model; this class stands in for it.
   */
  class Echo {
    var channels: map<string, set<EventType>>

    constructor ()
      ensures channels == map[]
    {
      channels := map[];
    }

    /** `echo.private(name)`: joins the channel unless it is already joined. */
    method Private(name: string)
      modifies this
      ensures channels == if name in old(channels) then old(channels) else old(channels)[name := {}]
    {
      if name !in channels {
        channels := channels[name := {}];
      }
    }

    /** `.listen(event, handler)` for each of `events` on a joined channel. */
    method Listen(name: string, events: set<EventType>)
      modifies this
      ensures channels == if name in old(channels) then old(channels)[name := old(channels)[name] + events] else old(channels)
    {
      if name in channels {
        channels := channels[name := channels[name] + events];
      }
    }

    /** `.stopListening(event)` for each of `events`. */
    method StopListening(name: string, events: set<EventType>)
      modifies this
      ensures channels == if name in old(channels) then old(channels)[name := old(channels)[name] - events] else old(channels)
    {
      if name in channels {
        channels := channels[name := channels[name] - events];
      }
    }

    /** `echo.leave(name)`: leaves the channel and drops its listeners. */
    method Leave(name: string)
      modifies this
      ensures channels == old(channels) - {name}
    {
      channels := channels - {name};
    }
  }

  /** The five events the service listens for. */
  datatype EventType =
    | MessageCreatedEvent
    | MessageUpdatedEvent
    | MessageDeletedEvent
    | ConversationCreatedEvent
    | ConversationDeletedEvent

  /** The name the server broadcasts each event under (the leading dot means no namespace prefix). */
  function WireName(t: EventType): (name: string)
    ensures |name| > 1 && name[0] == '.'
  {
    match t
    case MessageCreatedEvent => ".MessageCreatedEvent"
    case MessageUpdatedEvent => ".MessageUpdatedEvent"
    case MessageDeletedEvent => ".MessageDeletedEvent"
    case ConversationCreatedEvent => ".ConversationCreated"
    case ConversationDeletedEvent => ".ConversationDeleted"
  }

  /** Different events are broadcast under different names, so each listener receives exactly its own event. */
  lemma WireNameInjective(s: EventType, t: EventType)
    ensures WireName(s) == WireName(t) <==> s == t
  {
    if s != t {
      assert WireName(s)[1] != WireName(t)[1] || WireName(s)[8] != WireName(t)[8] || WireName(s)[13] != WireName(t)[13];
    }
  }

  const AllEvents: set<EventType> :=
    {MessageCreatedEvent, MessageUpdatedEvent, MessageDeletedEvent, ConversationCreatedEvent, ConversationDeletedEvent}

  function UserChannel(userId: string): string {
    "user." + userId
  }

  predicate IsUserChannel(name: string) {
    |name| >= 5 && name[..5] == "user."
  }

  /** A payload on the user channel. */
  datatype ChatEvent =
    | MessageCreated(message: Message)
    | MessageUpdated(message: Message)
    | MessageDeleted(conversationId: string, deletedId: string, wasLastMessage: bool,
                     newLastMessage: Option<Message>, hasUnread: bool)
    | ConversationCreated(conversation: Conversation)
    | ConversationDeleted(id: string)

  /** The event type a payload arrives as. */
  function TypeOf(e: ChatEvent): EventType {
    match e
    case MessageCreated(_) => MessageCreatedEvent
    case MessageUpdated(_) => MessageUpdatedEvent
    case MessageDeleted(_, _, _, _, _) => MessageDeletedEvent
    case ConversationCreated(_) => ConversationCreatedEvent
    case ConversationDeleted(_) => ConversationDeletedEvent
  }

  /**
   * The store action each handler performs.  A created message is dropped
   * while no (truthy) user id is known; a deleted message passes the
   * server's unread flag through.
   */
  function Applied(st: ChatState, currentUserId: Option<string>, e: ChatEvent): ChatState {
    match e
    case MessageCreated(m) =>
      if currentUserId.None? || currentUserId.value == "" then st else NewMessage(st, m, currentUserId)
    case MessageUpdated(m) => MessageUpdate(st, m)
    case MessageDeleted(cid, _, wasLast, newLast, hasUnread) => MessageDelete(st, cid, wasLast, newLast, hasUnread)
    case ConversationCreated(c) => Added(st, c)
    case ConversationDeleted(id) => Removed(st, id)
  }

  /** A run of events applied in order. */
  function AppliedAll(st: ChatState, currentUserId: Option<string>, es: seq<ChatEvent>): ChatState
    decreases |es|
  {
    if es == [] then st else AppliedAll(Applied(st, currentUserId, es[0]), currentUserId, es[1..])
  }

  /** Every handler keeps the store consistent: the order stays a duplicate-free list of exactly the filed ids. */
  lemma AppliedConsistent(st: ChatState, currentUserId: Option<string>, e: ChatEvent)
    requires Consistent(st)
    ensures Consistent(Applied(st, currentUserId, e))
  {
    match e
    case MessageCreated(m) => NewMessageFacts(st, m, currentUserId);
    case MessageUpdated(m) => MessageUpdateFacts(st, m);
    case MessageDeleted(cid, _, wasLast, newLast, hasUnread) => MessageDeleteFacts(st, cid, wasLast, newLast, hasUnread);
    case ConversationCreated(c) => AddConversationFacts(st, c);
    case ConversationDeleted(id) => RemoveConversationFacts(st, id);
  }

  /** So does any sequence of events, whatever their order. */
  lemma {:induction false} AppliedAllConsistent(st: ChatState, currentUserId: Option<string>, es: seq<ChatEvent>)
    requires Consistent(st)
    ensures Consistent(AppliedAll(st, currentUserId, es))
    decreases |es|
  {
    if es != [] {
      AppliedConsistent(st, currentUserId, es[0]);
      AppliedAllConsistent(Applied(st, currentUserId, es[0]), currentUserId, es[1..]);
    }
  }

  /**
   * The channel's echo of one's own successful send changes nothing: the
   * store already holds what the send's response put there.
   */
  lemma OwnEchoAbsorbed(st: ChatState, data: MessageService.Sent, userId: string)
    requires userId != ""
    ensures Applied(MessageService.AfterSend(st, data, Some(userId)), Some(userId), MessageCreated(data.message))
         == MessageService.AfterSend(st, data, Some(userId))
  {
    NewMessageIdempotent(Added(st, data.conversation), data.message, Some(userId));
  }

  class Service {
    var channel: Option<string>
    var currentUserId: Option<string>

    constructor ()
      ensures channel.None? && currentUserId.None?
    {
      channel := None;
      currentUserId := None;
    }

    /**
     * The subscription invariant: a channel is held exactly when a user id
     * is, it is that user's channel with all five listeners, and it is the
     * only user channel joined.
     */
    ghost predicate Valid(echo: Echo)
      reads this, echo
    {
      && (channel.Some? <==> currentUserId.Some?)
      && (channel.Some? ==>
            && currentUserId.value != ""
            && channel.value == UserChannel(currentUserId.value)
            && channel.value in echo.channels
            && echo.channels[channel.value] == AllEvents)
      && (forall n :: n in echo.channels && IsUserChannel(n) ==> channel == Some(n))
    }

    /** `stop()`: removes the listeners and leaves the user channel. */
    method Stop(echo: Echo)
      modifies this, echo
      ensures channel.None? && currentUserId.None?
      ensures old(Valid(echo)) ==> Valid(echo)
      ensures old(Valid(echo)) ==>
        echo.channels == if old(channel).Some? then old(echo.channels) - {old(channel).value} else old(echo.channels)
    {
      if channel.Some? {
        echo.StopListening(channel.value, AllEvents);
        if currentUserId.Some? && currentUserId.value != "" {
          echo.Leave(UserChannel(currentUserId.value));
        }
      }
      channel := None;
      currentUserId := None;
    }

    /**
     * `start(userId)`: nothing for an empty id or when already subscribed for
     * it; otherwise the old subscription is dropped and the user's channel
     * joined with all five listeners.
     */
    method Start(echo: Echo, userId: string)
      modifies this, echo
      requires Valid(echo)
      ensures Valid(echo)
      ensures userId == "" || (old(channel).Some? && old(currentUserId) == Some(userId)) ==>
        channel == old(channel) && currentUserId == old(currentUserId) && echo.channels == old(echo.channels)
      ensures userId != "" ==>
        && channel == Some(UserChannel(userId)) && currentUserId == Some(userId)
        && echo.channels[UserChannel(userId)] == AllEvents
        && forall n :: n in echo.channels && IsUserChannel(n) ==> n == UserChannel(userId)
      ensures userId != "" && !(old(channel).Some? && old(currentUserId) == Some(userId)) ==>
        echo.channels ==
          (if old(channel).Some? then old(echo.channels) - {old(channel).value} else old(echo.channels))[UserChannel(userId) := AllEvents]
    {
      if userId == "" {
        return;
      }
      if channel.Some? && currentUserId == Some(userId) {
        return;
      }
      Stop(echo);
      currentUserId := Some(userId);
      var name := UserChannel(userId);
      assert IsUserChannel(name);
      echo.Private(name);
      assert echo.channels[name] == {};
      channel := Some(name);
      echo.Listen(name, AllEvents);
    }

    /** Whether an event published on `name` reaches one of this service's handlers. */
    predicate Delivers(echo: Echo, name: string, e: ChatEvent)
      reads this, echo
    {
      channel == Some(name) && name in echo.channels && TypeOf(e) in echo.channels[name]
    }

    /** An event published on a channel: a handler of this service applies it to the store, or nothing happens. */
    method Receive(echo: Echo, store: Store, name: string, e: ChatEvent)
      modifies store
      ensures store.State() == if Delivers(echo, name, e) then Applied(old(store.State()), currentUserId, e) else old(store.State())
      ensures old(store.Valid()) ==> store.Valid()
    {
      if !Delivers(echo, name, e) {
        return;
      }
      ghost var before := store.State();
      match e
      case MessageCreated(m) =>
        if currentUserId.Some? && currentUserId.value != "" {
          store.UpdateConversationOnNewMessage(m, currentUserId);
        }
      case MessageUpdated(m) =>
        store.UpdateConversationOnMessageUpdate(m);
      case MessageDeleted(cid, _, wasLast, newLast, hasUnread) =>
        store.UpdateConversationOnMessageDelete(cid, wasLast, newLast, hasUnread);
      case ConversationCreated(c) =>
        store.AddConversation(c);
      case ConversationDeleted(id) =>
        store.RemoveConversation(id);
    }
  }

  /** Once started for a user, every event on that user's channel reaches the store. */
  lemma StartedDeliversEverything(s: Service, echo: Echo, userId: string, e: ChatEvent)
    requires s.Valid(echo) && s.currentUserId == Some(userId)
    ensures s.Delivers(echo, UserChannel(userId), e)
  {
  }

  /** After stop, no event on any channel reaches the store. */
  lemma StoppedDeliversNothing(s: Service, echo: Echo, name: string, e: ChatEvent)
    requires s.channel.None?
    ensures !s.Delivers(echo, name, e)
  {
  }
}
