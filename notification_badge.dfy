/**
 * The bell in the navigation bar (components/notification-badge.tsx): its own
 * unread counter and pushed-notification list, independent of the shared context.
 */
module NotificationBadge {
  import opened Wrappers
  import opened JsonValue
  import opened Strings
  import Auth
  import Api
  import NotificationContext

  /** The storage key the socket handshake reads its token from, as written. */
  const HandshakeKeyAsWritten := "token"

  /** The STOMP `connectHeaders` as written: a Bearer header iff a truthy value is stored under "token". */
  function ConnectHeadersAsWritten(entries: map<string, string>): map<string, string> {
    if HandshakeKeyAsWritten in entries && entries[HandshakeKeyAsWritten] != "" then
      map[Api.AuthorizationHeader := Api.Bearer(entries[HandshakeKeyAsWritten])]
    else map[]
  }

  /** The handshake headers read from the key the sign-in flows actually write. */
  function ConnectHeaders(entries: map<string, string>): (r: map<string, string>)
    ensures Api.AuthorizationHeader in r <==> Auth.AuthenticatedIn(entries)
    ensures Api.AuthorizationHeader in r ==>
      Api.TokenOf(r[Api.AuthorizationHeader]) == Some(entries[Auth.AccessTokenKey])
    ensures r.Keys <= {Api.AuthorizationHeader}
  {
    if Auth.AuthenticatedIn(entries) then
      Api.BearerRoundTrip(entries[Auth.AccessTokenKey]);
      map[Api.AuthorizationHeader := Api.Bearer(entries[Auth.AccessTokenKey])]
    else map[]
  }

  /**
   * After a sign-in writes its three keys into a store that holds nothing under
   * "token", the handshake as written goes out without credentials, while the
   * access token is right there.
   */
  lemma HandshakeAsWrittenUnauthenticated(entries: map<string, string>, access: string, refresh: string, user: string)
    requires HandshakeKeyAsWritten !in entries
    requires access != ""
    ensures var signedIn := entries[Auth.AccessTokenKey := access][Auth.RefreshTokenKey := refresh][Auth.UserKey := user];
      ConnectHeadersAsWritten(signedIn) == map[] &&
      ConnectHeaders(signedIn) == map[Api.AuthorizationHeader := Api.Bearer(access)]
  {
    var signedIn := entries[Auth.AccessTokenKey := access][Auth.RefreshTokenKey := refresh][Auth.UserKey := user];
    assert HandshakeKeyAsWritten != Auth.AccessTokenKey;
    assert HandshakeKeyAsWritten != Auth.RefreshTokenKey;
    assert HandshakeKeyAsWritten != Auth.UserKey;
    assert HandshakeKeyAsWritten !in signedIn;
    assert signedIn[Auth.AccessTokenKey] == access;
  }

  /** The text inside the red badge; `None` hides it. */
  function BadgeLabel(count: int): Option<string> {
    if count <= 0 then None
    else if count > 9 then Some("9+")
    else Some(NatToString(count))
  }

  /** The badge shows iff there is something unread, caps at "9+", and otherwise reads back as the count. */
  lemma BadgeLabelSpec(count: int)
    ensures BadgeLabel(count).None? <==> count <= 0
    ensures BadgeLabel(count) == Some("9+") <==> count > 9
    ensures 0 < count <= 9 ==>
      |BadgeLabel(count).value| == 1 && ParseDigits(BadgeLabel(count).value) == count
  {
    if 0 < count <= 9 {
      ParseNatToString(count);
      assert NatToString(count) == [DigitChar(count)];
      assert IsDigits(NatToString(count));
    }
  }

  /** The badge's state: counter, newest-first list, dropdown and connection flags, and the client. */
  class Badge {
    var unreadCount: int
    var notifications: seq<JsValue>
    var open: bool
    var connected: bool
    var clientActive: bool
    var connectHeaders: map<string, string>

    constructor ()
      ensures unreadCount == 0 && notifications == [] && !open && !connected
      ensures !clientActive && connectHeaders == map[]
    {
      unreadCount := 0;
      notifications := [];
      open := false;
      connected := false;
      clientActive := false;
      connectHeaders := map[];
    }

    /** The mount effect: fetch the count and activate a client with the handshake headers. */
    method Mount(entries: map<string, string>, reply: NotificationContext.UnreadReply)
      modifies this
      ensures unreadCount == NotificationContext.AfterRefresh(old(unreadCount), reply)
      ensures connectHeaders == ConnectHeaders(entries) && clientActive
      ensures notifications == old(notifications) && open == old(open) && connected == old(connected)
    {
      unreadCount := NotificationContext.AfterRefresh(unreadCount, reply);
      connectHeaders := ConnectHeaders(entries);
      clientActive := true;
    }

    method OnConnect()
      modifies this
      ensures connected
      ensures unreadCount == old(unreadCount) && notifications == old(notifications)
      ensures open == old(open) && clientActive == old(clientActive) && connectHeaders == old(connectHeaders)
    {
      connected := true;
    }

    /** `onDisconnect` and `onStompError` do the same thing. */
    method OnDisconnect()
      modifies this
      ensures !connected
      ensures unreadCount == old(unreadCount) && notifications == old(notifications)
      ensures open == old(open) && clientActive == old(clientActive) && connectHeaders == old(connectHeaders)
    {
      connected := false;
    }

    /**
     * A message on the user queue. A body that does not parse throws before any
     * update; a `null` body is prepended and then throws on `.read`.
     */
    method OnPush(p: NotificationContext.Payload)
      modifies this
      ensures p.Malformed? ==> notifications == old(notifications)
      ensures p.Parsed? ==> notifications == [p.value] + old(notifications)
      ensures NotificationContext.Handled(p) && NotificationContext.Unread(p) ==>
        unreadCount == old(unreadCount) + 1
      ensures !(NotificationContext.Handled(p) && NotificationContext.Unread(p)) ==>
        unreadCount == old(unreadCount)
      ensures open == old(open) && connected == old(connected)
      ensures clientActive == old(clientActive) && connectHeaders == old(connectHeaders)
    {
      if p.Malformed? {
        return;
      }
      notifications := [p.value] + notifications;
      if p.value.Null? {
        return;
      }
      if !TruthyOpt(Get(p.value, "read")) {
        unreadCount := unreadCount + 1;
      }
    }

    /** A click on the bell: flips the dropdown and, when opening with unread items, marks them all read. */
    method ToggleDropdown(markAll: Reply<()>) returns (calledMarkAll: bool)
      modifies this
      ensures open == !old(open)
      ensures calledMarkAll <==> !old(open) && old(unreadCount) > 0
      ensures calledMarkAll && markAll.Ok? ==> unreadCount == 0
      ensures !(calledMarkAll && markAll.Ok?) ==> unreadCount == old(unreadCount)
      ensures notifications == old(notifications) && connected == old(connected)
      ensures clientActive == old(clientActive) && connectHeaders == old(connectHeaders)
    {
      var wasOpen := open;
      open := !open;
      calledMarkAll := !wasOpen && unreadCount > 0;
      if calledMarkAll && markAll.Ok? {
        unreadCount := 0;
      }
    }

    /** A mouse-down outside the component closes the dropdown. */
    method ClickOutside()
      modifies this
      ensures !open
      ensures unreadCount == old(unreadCount) && notifications == old(notifications)
      ensures connected == old(connected) && clientActive == old(clientActive)
      ensures connectHeaders == old(connectHeaders)
    {
      open := false;
    }

    /** Unmount: the client is deactivated only if it is active. */
    method Cleanup() returns (deactivated: bool)
      modifies this
      ensures deactivated <==> old(clientActive)
      ensures !clientActive
      ensures unreadCount == old(unreadCount) && notifications == old(notifications)
      ensures open == old(open) && connected == old(connected) && connectHeaders == old(connectHeaders)
    {
      deactivated := clientActive;
      if deactivated {
        clientActive := false;
      }
    }
  }
}
