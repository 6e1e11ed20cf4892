/**
 * The app-wide unread-notification counter (app/context/NotificationContext.tsx):
 * one integer replaced by a refresh, raised by a push, reset by the inbox.
 */
module NotificationContext {
  import opened Wrappers
  import opened JsonValue

  /**
   * The body of `GET /notifications/unread-count` as the counter sees it:
   * `Some(n)` when `unreadNotifications` is the number n, `None` when it is absent.
   */
  type UnreadReply = Reply<Option<int>>

  /** A message on the notification topic: a body that `JSON.parse` rejects, or the parsed value. */
  datatype Payload = Malformed | Parsed(value: JsValue)

  /** The counter after a refresh: `unreadNotifications || 0` on success, unchanged on failure. */
  function AfterRefresh(count: int, reply: UnreadReply): (r: int)
    ensures reply.Failed? ==> r == count
    ensures reply.Ok? && reply.value.Some? ==> r == reply.value.value
    ensures reply.Ok? && reply.value.None? ==> r == 0
  {
    match reply
    case Failed(_) => count
    case Ok(n) => if n.Some? && n.value != 0 then n.value else 0
  }

  /**
   * Whether a payload reaches the increment-then-refresh steps: parsing must succeed
   * and reading `.read` must not throw, which it does on `null`.
   */
  predicate Handled(p: Payload) {
    p.Parsed? && !p.value.Null?
  }

  /** `!notification.read`, for a payload that is handled. */
  predicate Unread(p: Payload)
    requires Handled(p)
  {
    !TruthyOpt(Get(p.value, "read"))
  }

  /** One push: +1 when unread, then the refresh; an unhandled payload changes nothing. */
  function AfterPush(count: int, p: Payload, reply: UnreadReply): int {
    if !Handled(p) then count
    else AfterRefresh(if Unread(p) then count + 1 else count, reply)
  }

  /** Everything that changes the counter, in arrival order. */
  datatype Event =
    | Push(payload: Payload, reply: UnreadReply)
    | Refresh(reply: UnreadReply)
    | Increment
    | Reset

  function Step(count: int, e: Event): int {
    match e
    case Push(p, reply) => AfterPush(count, p, reply)
    case Refresh(reply) => AfterRefresh(count, reply)
    case Increment => count + 1
    case Reset => 0
  }

  /** The counter after a run of events applied from the left. */
  function Run(count: int, events: seq<Event>): int
    decreases |events|
  {
    if events == [] then count else Run(Step(count, events[0]), events[1..])
  }

  lemma {:induction false} RunAppend(count: int, events: seq<Event>, e: Event)
    ensures Run(count, events + [e]) == Step(Run(count, events), e)
    decreases |events|
  {
    if events == [] {
      assert events + [e] == [e];
    } else {
      assert (events + [e])[1..] == events[1..] + [e];
      RunAppend(Step(count, events[0]), events[1..], e);
    }
  }

  /**
   * Whatever happened before, a handled push whose refresh succeeds leaves the
   * counter at the server's figure: the local increment never survives it.
   */
  lemma PushThenRefreshIsServerValue(count: int, events: seq<Event>, p: Payload, n: Option<int>)
    requires Handled(p)
    ensures Run(count, events + [Push(p, Ok(n))]) == n.GetOr(0)
  {
    RunAppend(count, events, Push(p, Ok(n)));
  }

  /** A push whose body does not parse, or parses to `null`, changes nothing, whatever the refresh would say. */
  lemma UnhandledPushChangesNothing(count: int, events: seq<Event>, p: Payload, reply: UnreadReply)
    requires !Handled(p)
    ensures Run(count, events + [Push(p, reply)]) == Run(count, events)
  {
    RunAppend(count, events, Push(p, reply));
  }

  /** With the refresh failing, a push raises the counter by exactly one iff it is unread. */
  lemma PushWithFailedRefresh(count: int, p: Payload, e: ApiError)
    requires Handled(p)
    ensures Unread(p) ==> AfterPush(count, p, Failed(e)) == count + 1
    ensures !Unread(p) ==> AfterPush(count, p, Failed(e)) == count
  {
  }

  /** What `useNotificationContext` yields: the provider's value, or the error it throws. */
  datatype HookResult = Provided(unreadCount: int) | Thrown(message: string)

  const OutsideProviderError := "useNotificationContext must be used within NotificationProvider"

  function UseNotificationContext(context: Option<int>): (r: HookResult)
    ensures r.Provided? <==> context.Some?
    ensures r.Provided? ==> r.unreadCount == context.value
    ensures r.Thrown? ==> r.message == OutsideProviderError
  {
    if context.None? then Thrown(OutsideProviderError) else Provided(context.value)
  }

  /** The provider's state: the counter and the socket client held in its ref. */
  class NotificationProvider {
    var unreadCount: int
    var hasClient: bool
    var clientConnected: bool
    var clientsCreated: nat

    /** The counter starts at 0, with no client yet. */
    constructor ()
      ensures unreadCount == 0
      ensures !hasClient && !clientConnected && clientsCreated == 0
    {
      unreadCount := 0;
      hasClient := false;
      clientConnected := false;
      clientsCreated := 0;
    }

    method RefreshUnreadCount(reply: UnreadReply)
      modifies this
      ensures unreadCount == AfterRefresh(old(unreadCount), reply)
      ensures hasClient == old(hasClient) && clientConnected == old(clientConnected)
      ensures clientsCreated == old(clientsCreated)
    {
      match reply {
        case Failed(_) =>
        case Ok(n) =>
          unreadCount := if n.Some? && n.value != 0 then n.value else 0;
      }
    }

    method IncrementUnread()
      modifies this
      ensures unreadCount == old(unreadCount) + 1
      ensures hasClient == old(hasClient) && clientConnected == old(clientConnected)
      ensures clientsCreated == old(clientsCreated)
    {
      unreadCount := unreadCount + 1;
    }

    method ResetUnread()
      modifies this
      ensures unreadCount == 0
      ensures hasClient == old(hasClient) && clientConnected == old(clientConnected)
      ensures clientsCreated == old(clientsCreated)
    {
      unreadCount := 0;
    }

    /** The socket effect: a new, not yet connected client unless the held one is connected. */
    method MountConnection() returns (created: bool)
      modifies this
      ensures created <==> !old(clientConnected)
      ensures created ==> hasClient && !clientConnected && clientsCreated == old(clientsCreated) + 1
      ensures !created ==> hasClient == old(hasClient) && clientConnected && clientsCreated == old(clientsCreated)
      ensures unreadCount == old(unreadCount)
    {
      if clientConnected {
        return false;
      }
      hasClient := true;
      clientConnected := false;
      clientsCreated := clientsCreated + 1;
      return true;
    }

    /** The client's `onConnect`. */
    method OnConnect()
      requires hasClient
      modifies this
      ensures clientConnected && hasClient
      ensures unreadCount == old(unreadCount) && clientsCreated == old(clientsCreated)
    {
      clientConnected := true;
    }

    /** The subscription handler: parse, +1 when unread, then refresh; any throw is caught. */
    method OnPush(p: Payload, reply: UnreadReply)
      modifies this
      ensures unreadCount == AfterPush(old(unreadCount), p, reply)
      ensures hasClient == old(hasClient) && clientConnected == old(clientConnected)
      ensures clientsCreated == old(clientsCreated)
    {
      if p.Malformed? || p.value.Null? {
        return;
      }
      if !TruthyOpt(Get(p.value, "read")) {
        IncrementUnread();
      }
      RefreshUnreadCount(reply);
    }

    /** Events delivered one after another, as they arrive. */
    method Deliver(events: seq<Event>)
      modifies this
      ensures unreadCount == Run(old(unreadCount), events)
      ensures hasClient == old(hasClient) && clientConnected == old(clientConnected)
      ensures clientsCreated == old(clientsCreated)
    {
      var i := 0;
      while i < |events|
        invariant 0 <= i <= |events|
        invariant unreadCount == Run(old(unreadCount), events[..i])
        invariant hasClient == old(hasClient) && clientConnected == old(clientConnected)
        invariant clientsCreated == old(clientsCreated)
      {
        RunAppend(old(unreadCount), events[..i], events[i]);
        assert events[..i + 1] == events[..i] + [events[i]];
        match events[i] {
          case Push(p, reply) => OnPush(p, reply);
          case Refresh(reply) => RefreshUnreadCount(reply);
          case Increment => IncrementUnread();
          case Reset => ResetUnread();
        }
        i := i + 1;
      }
      assert events[..i] == events;
    }
  }
}
