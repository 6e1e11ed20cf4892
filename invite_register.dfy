/**
 * Staff and admin registration from an invitation (app/invite/register/page.tsx):
 * the token taken from the URL, the profile picture limit, the submit guard chain,
 * and the welcome message and route chosen by the registered role.
 */
module InviteRegister {
  import opened Wrappers
  import Auth

  /** The largest profile picture accepted: 5 MiB. */
  const MaxImageBytes := 5 * 1024 * 1024
  const RegisterFailedDefault := "Invalid or expired invitation"

  const AdminWelcome := "Welcome, Admin! You now have full access to EduVault’s control panel."
  const StaffWelcome := "Welcome aboard! You now have privileged access to manage and review student submissions."
  const GenericWelcome := "Welcome to EduVault!"

  /** A picked file: its name and size in bytes. */
  datatype Image = Image(name: string, size: nat)

  /** A picture is accepted unless it is larger than 5 MiB. */
  predicate ImageAccepted(f: Image) {
    f.size <= MaxImageBytes
  }

  /** The four text inputs of the form. */
  datatype Field = FirstName | LastName | Password | ConfirmPassword

  /**
   * The registration request: the invitation token, the picture as the multipart `file`,
   * and the names and password as the JSON `data` part (the confirmation is not sent).
   */
  datatype InviteRequest = InviteRequest(token: string, picture: Image, firstName: string, lastName: string, password: string)

  /** Why no registration request was made, in the order the page checks. */
  datatype Refusal = InvalidInvitation | PasswordsDiffer | PictureRequired

  function SubmitCheck(token: Option<string>, password: string, confirm: string, image: Option<Image>): Option<Refusal> {
    if token.None? || token.value == "" then Some(InvalidInvitation)
    else if password != confirm then Some(PasswordsDiffer)
    else if image.None? then Some(PictureRequired)
    else None
  }

  /** A request goes out iff every check passes; otherwise the first failing check is reported. */
  lemma SubmitCheckSpec(token: Option<string>, password: string, confirm: string, image: Option<Image>)
    ensures SubmitCheck(token, password, confirm, image).None? <==>
      token.Some? && token.value != "" && password == confirm && image.Some?
    ensures SubmitCheck(token, password, confirm, image) == Some(InvalidInvitation) <==> token.None? || token.value == ""
    ensures SubmitCheck(token, password, confirm, image) == Some(PasswordsDiffer) <==>
      token.Some? && token.value != "" && password != confirm
    ensures SubmitCheck(token, password, confirm, image) == Some(PictureRequired) <==>
      token.Some? && token.value != "" && password == confirm && image.None?
  {
  }

  function WelcomeFor(role: Option<string>): string {
    if role == Some("ADMIN") then AdminWelcome
    else if role == Some("STAFF") then StaffWelcome
    else GenericWelcome
  }

  /** Where the page goes after registering; a student invitation goes to /login. */
  function RouteFor(role: Option<string>): string {
    if role == Some("ADMIN") then "/admin/dashboard"
    else if role == Some("STAFF") then "/staff/dashboard"
    else "/login"
  }

  /** The message and the route agree: each privileged role has its own, every other role shares the generic pair. */
  lemma RoleTables(role: Option<string>, other: Option<string>)
    ensures RouteFor(role) == "/admin/dashboard" <==> role == Some("ADMIN")
    ensures RouteFor(role) == "/staff/dashboard" <==> role == Some("STAFF")
    ensures RouteFor(role) == "/login" <==> WelcomeFor(role) == GenericWelcome
    ensures WelcomeFor(role) == WelcomeFor(other) <==> RouteFor(role) == RouteFor(other)
  {
  }

  /** The invitation page's state. */
  class InvitePage {
    var loading: bool
    var signingIn: bool
    var token: Option<string>
    var profileImage: Option<Image>
    var imagePreview: Option<string>
    var firstName: string
    var lastName: string
    var password: string
    var confirmPassword: string

    constructor ()
      ensures !loading && !signingIn && token.None? && profileImage.None? && imagePreview.None?
      ensures firstName == "" && lastName == "" && password == "" && confirmPassword == ""
    {
      loading := false;
      signingIn := false;
      token := None;
      profileImage := None;
      imagePreview := None;
      firstName := "";
      lastName := "";
      password := "";
      confirmPassword := "";
    }

    /** The token effect: a missing or empty `token` parameter sends the browser to /login. */
    method LoadToken(param: Option<string>) returns (redirect: Option<string>)
      modifies this
      ensures param.None? || param.value == "" ==> redirect == Some("/login") && token == old(token)
      ensures param.Some? && param.value != "" ==> redirect.None? && token == param
      ensures profileImage == old(profileImage) && imagePreview == old(imagePreview)
      ensures loading == old(loading) && signingIn == old(signingIn)
      ensures firstName == old(firstName) && lastName == old(lastName)
      ensures password == old(password) && confirmPassword == old(confirmPassword)
    {
      if param.None? || param.value == "" {
        return Some("/login");
      }
      token := param;
      redirect := None;
    }

    /** `handleImageChange`: a picture over the limit is refused and the previous selection kept. */
    method HandleImageChange(file: Option<Image>) returns (tooLarge: bool)
      modifies this
      ensures tooLarge <==> file.Some? && !ImageAccepted(file.value)
      ensures file.Some? && ImageAccepted(file.value) ==> profileImage == file
      ensures file.None? || !ImageAccepted(file.value) ==> profileImage == old(profileImage)
      ensures imagePreview == old(imagePreview) && token == old(token) && loading == old(loading)
      ensures signingIn == old(signingIn)
      ensures firstName == old(firstName) && lastName == old(lastName)
      ensures password == old(password) && confirmPassword == old(confirmPassword)
    {
      tooLarge := false;
      if file.Some? {
        if !ImageAccepted(file.value) {
          return true;
        }
        profileImage := file;
      }
    }

    /** The file reader finishing: the picture's data URL becomes the preview. */
    method OnPreviewRead(dataUrl: string)
      modifies this
      ensures imagePreview == Some(dataUrl) && profileImage == old(profileImage) && token == old(token)
      ensures loading == old(loading) && signingIn == old(signingIn)
      ensures firstName == old(firstName) && lastName == old(lastName)
      ensures password == old(password) && confirmPassword == old(confirmPassword)
    {
      imagePreview := Some(dataUrl);
    }

    /** An input's `onChange`: that one field of `formData` takes the typed value. */
    method SetField(f: Field, value: string)
      modifies this
      ensures firstName == (if f == FirstName then value else old(firstName))
      ensures lastName == (if f == LastName then value else old(lastName))
      ensures password == (if f == Password then value else old(password))
      ensures confirmPassword == (if f == ConfirmPassword then value else old(confirmPassword))
      ensures token == old(token) && profileImage == old(profileImage) && imagePreview == old(imagePreview)
      ensures loading == old(loading) && signingIn == old(signingIn)
    {
      match f
      case FirstName => firstName := value;
      case LastName => lastName := value;
      case Password => password := value;
      case ConfirmPassword => confirmPassword := value;
    }

    /** `handleRemoveImage`: both the file and its preview are cleared. */
    method HandleRemoveImage()
      modifies this
      ensures profileImage.None? && imagePreview.None?
      ensures token == old(token) && loading == old(loading) && signingIn == old(signingIn)
      ensures firstName == old(firstName) && lastName == old(lastName)
      ensures password == old(password) && confirmPassword == old(confirmPassword)
    {
      profileImage := None;
      imagePreview := None;
    }

    /** The reply to the registration request: the session is stored and the signing-in overlay shown. */
    method Complete(reply: Reply<Auth.Session>, store: Auth.Storage) returns (welcome: string, route: Option<string>, failure: Option<string>)
      modifies this, store
      ensures !loading && token == old(token) && profileImage == old(profileImage) && imagePreview == old(imagePreview)
      ensures firstName == old(firstName) && lastName == old(lastName)
      ensures password == old(password) && confirmPassword == old(confirmPassword)
      ensures store.windowPresent == old(store.windowPresent)
      ensures reply.Ok? ==>
        signingIn && failure.None?
        && welcome == WelcomeFor(reply.value.user.role) && route == Some(RouteFor(reply.value.user.role))
        && store.entries == old(store.entries)[Auth.AccessTokenKey := reply.value.accessToken]
             [Auth.RefreshTokenKey := reply.value.refreshToken][Auth.UserKey := Auth.UserText(reply.value.user)]
      ensures reply.Failed? ==>
        signingIn == old(signingIn) && route.None? && store.entries == old(store.entries)
        && failure == Some(TextOr(reply.error.responseMessage, RegisterFailedDefault))
    {
      assert this as object != store as object;
      loading := true;
      welcome := "";
      route := None;
      failure := None;
      if reply.Ok? {
        store.StoreSession(reply.value.accessToken, reply.value.refreshToken, reply.value.user);
        welcome := WelcomeFor(reply.value.user.role);
        signingIn := true;
        route := Some(RouteFor(reply.value.user.role));
      } else {
        failure := Some(TextOr(reply.error.responseMessage, RegisterFailedDefault));
      }
      loading := false;
    }

    /**
     * `handleSubmit`: the guard chain, then the request with the token, the picture, the
     * names and the password as they stand; the reply is handled as `Complete` does.
     */
    method HandleSubmit(reply: Reply<Auth.Session>, store: Auth.Storage)
      returns (refusal: Option<Refusal>, request: Option<InviteRequest>, route: Option<string>)
      modifies this, store
      ensures refusal == SubmitCheck(old(token), old(password), old(confirmPassword), old(profileImage))
      ensures store.windowPresent == old(store.windowPresent)
      ensures token == old(token) && profileImage == old(profileImage) && imagePreview == old(imagePreview)
      ensures firstName == old(firstName) && lastName == old(lastName)
      ensures password == old(password) && confirmPassword == old(confirmPassword)
      ensures refusal.Some? ==>
        request.None? && route.None? && store.entries == old(store.entries)
        && loading == old(loading) && signingIn == old(signingIn)
      ensures refusal.None? ==>
        old(token).Some? && old(profileImage).Some? && !loading
        && request == Some(InviteRequest(old(token).value, old(profileImage).value, old(firstName), old(lastName), old(password)))
      ensures refusal.None? && reply.Ok? ==>
        signingIn && route == Some(RouteFor(reply.value.user.role))
        && store.entries == old(store.entries)[Auth.AccessTokenKey := reply.value.accessToken]
             [Auth.RefreshTokenKey := reply.value.refreshToken][Auth.UserKey := Auth.UserText(reply.value.user)]
      ensures refusal.None? && reply.Failed? ==>
        route.None? && store.entries == old(store.entries) && signingIn == old(signingIn)
    {
      refusal := SubmitCheck(token, password, confirmPassword, profileImage);
      request, route := None, None;
      if refusal.Some? {
        return;
      }
      request := Some(InviteRequest(token.value, profileImage.value, firstName, lastName, password));
      var welcome, failure;
      welcome, route, failure := Complete(reply, store);
    }
  }
}
