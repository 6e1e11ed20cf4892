/**
 * Signing in (app/login/page.tsx): with an identifier and password, or with a Google
 * credential; the session is stored and the browser sent to the role's dashboard.
 */
module Login {
  import opened Wrappers
  import opened Strings
  import Auth
  import HomePage

  const SignUpMarker := "User not found"
  const PasswordLoginDefault := "Invalid email or password. Please check your credentials."
  const GoogleLoginDefault := "Something went wrong while authenticating with Google."

  /** `redirectByRole`: each role's dashboard, and "/" for anything else. */
  function RedirectByRole(role: Option<string>): string {
    if role == Some("STUDENT") then "/student/dashboard"
    else if role == Some("STAFF") then "/staff/dashboard"
    else if role == Some("ADMIN") then "/admin/dashboard"
    else "/"
  }

  /**
   * The login redirect and the landing page's agree on the three roles; they differ
   * only for any other role, which the landing page sends to /login and this one to "/".
   */
  lemma RedirectAgreesWithHome(role: Option<string>)
    ensures RedirectByRole(role) != "/" <==> role in {Some("STUDENT"), Some("STAFF"), Some("ADMIN")}
    ensures RedirectByRole(role) != "/" ==> RedirectByRole(role) == HomePage.DashboardFor(role)
    ensures RedirectByRole(role) == "/" <==> HomePage.DashboardFor(role) == "/login"
  {
  }

  /** What the password sign-in sends. */
  datatype Credentials = Credentials(identifier: string, password: string)

  /** The identifier is trimmed; the password is sent exactly as typed. */
  function CredentialsOf(identifier: string, password: string): Credentials {
    Credentials(Trim(identifier), password)
  }

  lemma CredentialsSpec(identifier: string, password: string)
    ensures CredentialsOf(identifier, password).password == password
    ensures CredentialsOf(identifier, password).identifier == Trim(identifier)
    ensures CredentialsOf(Trim(identifier), password) == CredentialsOf(identifier, password)
  {
    TrimIdempotent(identifier);
  }

  /** The identifier sent has no whitespace at either end, and is empty iff the field was blank. */
  lemma CredentialsIdentifier(identifier: string, password: string)
    ensures var id := CredentialsOf(identifier, password).identifier;
      id == [] || (!IsWhitespace(id[0]) && !IsWhitespace(id[|id| - 1]))
    ensures CredentialsOf(identifier, password).identifier == "" <==> AllWhitespace(identifier)
  {
    TrimEnds(identifier);
    BlankIffAllWhitespace(identifier);
  }

  /** `handleError`'s message: the backend's message, else the error's own, else the default. */
  function ErrorMessage(e: ApiError, default: string): string {
    TextOr(e.responseMessage, TextOr(e.message, default))
  }

  lemma ErrorMessageSpec(e: ApiError, default: string)
    ensures e.responseMessage.Some? && e.responseMessage.value != "" ==> ErrorMessage(e, default) == e.responseMessage.value
    ensures (e.responseMessage.None? || e.responseMessage.value == "") && e.message.Some? && e.message.value != "" ==>
      ErrorMessage(e, default) == e.message.value
    ensures (e.responseMessage.None? || e.responseMessage.value == "") && (e.message.None? || e.message.value == "") ==>
      ErrorMessage(e, default) == default
    ensures default != "" ==> ErrorMessage(e, default) != ""
  {
  }

  /** The toast offers the sign-up link iff the message mentions a missing user. */
  predicate ShowsSignUpHint(message: string) {
    Contains(message, SignUpMarker)
  }

  lemma SignUpHintSpec(e: ApiError, default: string, before: string, after: string)
    ensures ShowsSignUpHint(ErrorMessage(e, default)) <==> exists j: nat :: OccursAt(ErrorMessage(e, default), SignUpMarker, j)
    ensures ShowsSignUpHint(before + SignUpMarker + after)
  {
    var s := before + SignUpMarker + after;
    assert OccursAt(s, SignUpMarker, |before|) by {
      assert s[|before|..|before| + |SignUpMarker|] == SignUpMarker;
    }
  }

  /** A text without a capital 'U' cannot hold the marker. */
  lemma NoMarkerIn(s: string)
    requires 'U' !in s
    ensures !ShowsSignUpHint(s)
  {
    forall j: nat
      ensures !OccursAt(s, SignUpMarker, j)
    {
      if j + |SignUpMarker| <= |s| {
        assert s[j..j + |SignUpMarker|][0] == s[j];
      }
    }
  }

  /** The login page's state. */
  class LoginPage {
    var isLoading: bool
    var isRedirecting: bool
    var errorMessage: Option<string>
    var identifier: string
    var password: string

    constructor ()
      ensures !isLoading && !isRedirecting && errorMessage.None? && identifier == "" && password == ""
    {
      isLoading := false;
      isRedirecting := false;
      errorMessage := None;
      identifier := "";
      password := "";
    }

    /** The identifier input's `onChange`: only the identifier changes. */
    method SetIdentifier(value: string)
      modifies this
      ensures identifier == value && password == old(password)
      ensures isLoading == old(isLoading) && isRedirecting == old(isRedirecting) && errorMessage == old(errorMessage)
    {
      identifier := value;
    }

    /** The password input's `onChange`: only the password changes. */
    method SetPassword(value: string)
      modifies this
      ensures password == value && identifier == old(identifier)
      ensures isLoading == old(isLoading) && isRedirecting == old(isRedirecting) && errorMessage == old(errorMessage)
    {
      password := value;
    }

    /**
     * A sign-in reply: on success the tokens and the user are stored and the role's
     * dashboard chosen; on failure the message is shown. `endsLoading` is the password
     * form's `finally`, which clears the loading flag; the Google path has none.
     */
    method Complete(reply: Reply<Auth.Session>, store: Auth.Storage, default: string, endsLoading: bool)
      returns (route: Option<string>, hint: bool)
      modifies this, store
      ensures isLoading == (old(isLoading) && !endsLoading)
      ensures identifier == old(identifier) && password == old(password)
      ensures store.windowPresent == old(store.windowPresent)
      ensures reply.Ok? ==>
        isRedirecting && errorMessage == old(errorMessage) && !hint
        && route == Some(RedirectByRole(reply.value.user.role))
        && store.entries == old(store.entries)[Auth.AccessTokenKey := reply.value.accessToken]
             [Auth.RefreshTokenKey := reply.value.refreshToken][Auth.UserKey := Auth.UserText(reply.value.user)]
      ensures reply.Failed? ==>
        isRedirecting == old(isRedirecting) && route.None? && store.entries == old(store.entries)
        && errorMessage == Some(ErrorMessage(reply.error, default))
        && hint == ShowsSignUpHint(ErrorMessage(reply.error, default))
    {
      assert this as object != store as object;
      route := None;
      hint := false;
      if reply.Ok? {
        store.StoreSession(reply.value.accessToken, reply.value.refreshToken, reply.value.user);
        isRedirecting := true;
        route := Some(RedirectByRole(reply.value.user.role));
      } else {
        var message := ErrorMessage(reply.error, default);
        errorMessage := Some(message);
        hint := ShowsSignUpHint(message);
      }
      if endsLoading {
        isLoading := false;
      }
    }

    /** The start of a password sign-in: loading shown, the previous error cleared. */
    method Begin()
      modifies this
      ensures isLoading && errorMessage.None? && isRedirecting == old(isRedirecting)
      ensures identifier == old(identifier) && password == old(password)
    {
      isLoading := true;
      errorMessage := None;
    }

    /**
     * `handleSubmit`: the shown error is cleared, the trimmed identifier and the password
     * are sent, and loading ends whatever the reply.
     */
    method HandleSubmit(reply: Reply<Auth.Session>, store: Auth.Storage)
      returns (sent: Credentials, route: Option<string>)
      modifies this, store
      ensures sent == CredentialsOf(old(identifier), old(password))
      ensures !isLoading && store.windowPresent == old(store.windowPresent)
      ensures reply.Ok? ==>
        errorMessage.None? && isRedirecting && route == Some(RedirectByRole(reply.value.user.role))
        && store.entries == old(store.entries)[Auth.AccessTokenKey := reply.value.accessToken]
             [Auth.RefreshTokenKey := reply.value.refreshToken][Auth.UserKey := Auth.UserText(reply.value.user)]
      ensures reply.Failed? ==>
        errorMessage == Some(ErrorMessage(reply.error, PasswordLoginDefault)) && route.None?
        && store.entries == old(store.entries) && isRedirecting == old(isRedirecting)
      ensures identifier == old(identifier) && password == old(password)
    {
      assert this as object != store as object;
      sent := CredentialsOf(identifier, password);
      Begin();
      var hint;
      route, hint := Complete(reply, store, PasswordLoginDefault, true);
    }

    /** `handleGoogleLogin`: without a credential no request is made and nothing changes. */
    method HandleGoogleLogin(credential: Option<string>, reply: Reply<Auth.Session>, store: Auth.Storage)
      returns (idToken: Option<string>, route: Option<string>)
      modifies this, store
      ensures idToken.Some? <==> credential.Some? && credential.value != ""
      ensures idToken.Some? ==> idToken == credential
      ensures store.windowPresent == old(store.windowPresent) && isLoading == old(isLoading)
      ensures idToken.None? ==>
        route.None? && store.entries == old(store.entries)
        && errorMessage == old(errorMessage) && isRedirecting == old(isRedirecting)
      ensures identifier == old(identifier) && password == old(password)
      ensures idToken.Some? && reply.Ok? ==>
        isRedirecting && errorMessage == old(errorMessage) && route == Some(RedirectByRole(reply.value.user.role))
        && store.entries == old(store.entries)[Auth.AccessTokenKey := reply.value.accessToken]
             [Auth.RefreshTokenKey := reply.value.refreshToken][Auth.UserKey := Auth.UserText(reply.value.user)]
      ensures idToken.Some? && reply.Failed? ==>
        errorMessage == Some(ErrorMessage(reply.error, GoogleLoginDefault)) && route.None?
        && store.entries == old(store.entries) && isRedirecting == old(isRedirecting)
    {
      assert this as object != store as object;
      if credential.None? || credential.value == "" {
        return None, None;
      }
      idToken := credential;
      var hint;
      route, hint := Complete(reply, store, GoogleLoginDefault, false);
    }
  }
}
