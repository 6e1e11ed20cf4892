/** Student self-registration (app/register/page.tsx): per-field validation and the submit guard. */
module Register {
  import opened Wrappers
  import opened Strings
  import Auth

  datatype Field = MatricNumber | Email | Password | ConfirmPassword

  /** The four inputs, or the four error texts: one string per field. */
  datatype Form = Form(matricNumber: string, email: string, password: string, confirmPassword: string) {
    function Get(f: Field): string {
      match f
      case MatricNumber => matricNumber
      case Email => email
      case Password => password
      case ConfirmPassword => confirmPassword
    }

    function Set(f: Field, v: string): (r: Form)
      ensures r.Get(f) == v
      ensures forall g :: g != f ==> r.Get(g) == Get(g)
    {
      match f
      case MatricNumber => this.(matricNumber := v)
      case Email => this.(email := v)
      case Password => this.(password := v)
      case ConfirmPassword => this.(confirmPassword := v)
    }
  }

  const Empty := Form("", "", "", "")

  // ---- The email pattern /^[A-Z0-9._%+-]+@[A-Z0-9.-]+\.[A-Z]{2,}$/i ----

  predicate AsciiLetter(c: char) {
    'A' <= c <= 'Z' || 'a' <= c <= 'z'
  }

  predicate AsciiAlnum(c: char) {
    AsciiLetter(c) || '0' <= c <= '9'
  }

  predicate LocalChar(c: char) {
    AsciiAlnum(c) || c == '.' || c == '_' || c == '%' || c == '+' || c == '-'
  }

  predicate DomainChar(c: char) {
    AsciiAlnum(c) || c == '.' || c == '-'
  }

  predicate AllLocal(s: string) {
    forall k :: 0 <= k < |s| ==> LocalChar(s[k])
  }

  predicate AllDomain(s: string) {
    forall k :: 0 <= k < |s| ==> DomainChar(s[k])
  }

  predicate AllLetters(s: string) {
    forall k :: 0 <= k < |s| ==> AsciiLetter(s[k])
  }

  /** The pattern matches with "@" at index i and the final "." at index j. */
  predicate EmailSplit(s: string, i: nat, j: nat) {
    0 < i && i + 1 < j && j + 3 <= |s| && s[i] == '@' && s[j] == '.'
    && AllLocal(s[..i]) && AllDomain(s[i + 1..j]) && AllLetters(s[j + 1..])
  }

  /** What the regular expression accepts, stated as the existence of a match. */
  ghost predicate MatchesEmailPattern(s: string) {
    exists i: nat, j: nat :: EmailSplit(s, i, j)
  }

  /** A direct check of the pattern: split at the "@", then at the last "." of the domain. */
  predicate EmailFormatOk(s: string) {
    '@' in s &&
    var i := FirstIndex(s, '@');
    var domain := s[i + 1..];
    var tld := LastSegment(domain, '.');
    0 < i && AllLocal(s[..i])
    && |tld| >= 2 && AllLetters(tld)
    && |tld| + 1 < |domain| && AllDomain(domain[..|domain| - |tld| - 1])
  }

  lemma EmailFormatSound(s: string)
    requires EmailFormatOk(s)
    ensures MatchesEmailPattern(s)
  {
    var i := FirstIndex(s, '@');
    var domain := s[i + 1..];
    var tld := LastSegment(domain, '.');
    LastSegmentSpec(domain, '.');
    var j := i + 1 + |domain| - |tld| - 1;
    assert s[j] == domain[|domain| - |tld| - 1] == '.';
    assert s[j + 1..] == domain[|domain| - |tld|..] == tld;
    assert s[i + 1..j] == domain[..|domain| - |tld| - 1];
    assert EmailSplit(s, i, j);
  }

  /** The first "@" is the one at i when none comes before it. */
  lemma FirstAtIndex(s: string, i: nat)
    requires i < |s| && s[i] == '@' && '@' !in s[..i]
    ensures '@' in s && FirstIndex(s, '@') == i
  {
    assert s[..i] + s[i..] == s;
    var f := FirstIndex(s, '@');
    assert f == i;
  }

  /** The text after the last "." is what follows a "." with no "." after it. */
  lemma LastDotIndex(domain: string, d: nat)
    requires d < |domain| && domain[d] == '.' && '.' !in domain[d + 1..]
    ensures LastSegment(domain, '.') == domain[d + 1..]
  {
    var tld := LastSegment(domain, '.');
    LastSegmentSpec(domain, '.');
    var t := domain[d + 1..];
    assert tld != domain by {
      assert domain[d] == '.';
    }
    var p := |domain| - |tld| - 1;
    assert domain[p] == '.';
    assert p == d;
  }

  lemma NoAtInLocal(s: string, i: nat, j: nat)
    requires EmailSplit(s, i, j)
    ensures '@' in s && FirstIndex(s, '@') == i
  {
    assert '@' !in s[..i] by {
      forall k | 0 <= k < i ensures s[..i][k] != '@' {
        assert LocalChar(s[..i][k]);
      }
    }
    FirstAtIndex(s, i);
  }

  lemma TldAfterLastDot(s: string, i: nat, j: nat)
    requires EmailSplit(s, i, j)
    ensures LastSegment(s[i + 1..], '.') == s[j + 1..]
  {
    var domain := s[i + 1..];
    var t := s[j + 1..];
    var d := j - i - 1;
    assert domain[d] == '.';
    assert domain[d + 1..] == t;
    assert '.' !in t by {
      forall k | 0 <= k < |t| ensures t[k] != '.' {
        assert AsciiLetter(t[k]);
      }
    }
    LastDotIndex(domain, d);
  }

  lemma EmailFormatComplete(s: string, i: nat, j: nat)
    requires EmailSplit(s, i, j)
    ensures EmailFormatOk(s)
  {
    NoAtInLocal(s, i, j);
    TldAfterLastDot(s, i, j);
    var domain := s[i + 1..];
    assert domain[..|domain| - |s[j + 1..]| - 1] == s[i + 1..j];
  }

  /** The direct check accepts exactly what the pattern accepts. */
  lemma EmailFormatMatchesPattern(s: string)
    ensures EmailFormatOk(s) <==> MatchesEmailPattern(s)
  {
    if EmailFormatOk(s) {
      EmailFormatSound(s);
    }
    if MatchesEmailPattern(s) {
      var i: nat, j: nat :| EmailSplit(s, i, j);
      EmailFormatComplete(s, i, j);
    }
  }

  const InstitutionSuffix := "@student.funaab.edu.ng"

  // ---- Field rules ----

  const MatricRequired := "Matric number is required"
  const EmailRequired := "Email is required"
  const EmailInvalid := "Invalid email format"
  const EmailNotInstitutional := "Please use your FUNAAB email address"
  const PasswordRequired := "Password is required"
  const PasswordTooShort := "Password must be at least 6 characters"
  const ConfirmRequired := "Please confirm your password"
  const PasswordsDiffer := "Passwords do not match"

  /** `validateField(name, value)`, with `password` the form's password at the time. */
  function FieldError(f: Field, value: string, password: string): string {
    match f
    case MatricNumber => if IsBlank(value) then MatricRequired else ""
    case Email =>
      if IsBlank(value) then EmailRequired
      else if !EmailFormatOk(value) then EmailInvalid
      else if !EndsWith(value, InstitutionSuffix) then EmailNotInstitutional
      else ""
    case Password =>
      if IsBlank(value) then PasswordRequired
      else if |value| < 6 then PasswordTooShort
      else ""
    case ConfirmPassword =>
      if IsBlank(value) then ConfirmRequired
      else if value != password then PasswordsDiffer
      else ""
  }

  /**
   * Each field's rules in both directions: the error is empty exactly when every rule
   * holds, and otherwise it is the message of the first rule that fails.
   */
  lemma FieldErrorSpec(value: string, password: string)
    ensures FieldError(MatricNumber, value, password) == "" <==> !AllWhitespace(value)
    ensures FieldError(Email, value, password) == "" <==>
      !AllWhitespace(value) && MatchesEmailPattern(value) && EndsWith(value, InstitutionSuffix)
    ensures FieldError(Email, value, password) == EmailInvalid <==>
      !AllWhitespace(value) && !MatchesEmailPattern(value)
    ensures FieldError(Password, value, password) == "" <==> !AllWhitespace(value) && |value| >= 6
    ensures FieldError(ConfirmPassword, value, password) == "" <==> !AllWhitespace(value) && value == password
    ensures FieldError(ConfirmPassword, value, password) == PasswordsDiffer <==>
      !AllWhitespace(value) && value != password
  {
    BlankIffAllWhitespace(value);
    EmailFormatMatchesPattern(value);
  }

  /** The four errors a full validation of the form gives. */
  function AllErrors(data: Form): Form {
    Form(FieldError(MatricNumber, data.matricNumber, data.password),
         FieldError(Email, data.email, data.password),
         FieldError(Password, data.password, data.password),
         FieldError(ConfirmPassword, data.confirmPassword, data.password))
  }

  /** `isFormValid`: no error shown and all four inputs non-blank. */
  predicate FormValid(errors: Form, data: Form) {
    errors == Empty
    && !IsBlank(data.matricNumber) && !IsBlank(data.email)
    && !IsBlank(data.password) && !IsBlank(data.confirmPassword)
  }

  /** The corrected submit decision: the form is valid by the errors of a fresh validation. */
  predicate SubmitSends(data: Form) {
    FormValid(AllErrors(data), data)
  }

  /** The corrected guard sends exactly the forms whose every field passes its rules. */
  lemma SubmitSendsSpec(data: Form)
    ensures SubmitSends(data) <==>
      !AllWhitespace(data.matricNumber)
      && !AllWhitespace(data.email) && MatchesEmailPattern(data.email) && EndsWith(data.email, InstitutionSuffix)
      && !AllWhitespace(data.password) && |data.password| >= 6
      && data.confirmPassword == data.password
  {
    FieldErrorSpec(data.matricNumber, data.password);
    FieldErrorSpec(data.email, data.password);
    FieldErrorSpec(data.password, data.password);
    FieldErrorSpec(data.confirmPassword, data.password);
    BlankIffAllWhitespace(data.matricNumber);
    BlankIffAllWhitespace(data.email);
    BlankIffAllWhitespace(data.password);
    BlankIffAllWhitespace(data.confirmPassword);
  }

  /**
   * As written, submit decides on the errors shown before it re-validates. Editing the
   * password after the confirmation was accepted leaves the confirmation's error empty,
   * so a form whose two passwords differ is still sent.
   */
  lemma StaleConfirmationIsSent(errors: Form, data: Form, newPassword: string)
    requires FormValid(errors, data)
    requires !AllWhitespace(newPassword) && |newPassword| >= 6 && newPassword != data.confirmPassword
    ensures var data2 := data.Set(Password, newPassword);
      var errors2 := errors.Set(Password, FieldError(Password, newPassword, data.password));
      FormValid(errors2, data2) && !SubmitSends(data2)
      && AllErrors(data2).confirmPassword == PasswordsDiffer
  {
    var data2 := data.Set(Password, newPassword);
    var errors2 := errors.Set(Password, FieldError(Password, newPassword, data.password));
    FieldErrorSpec(newPassword, data.password);
    BlankIffAllWhitespace(newPassword);
    FieldErrorSpec(data.confirmPassword, newPassword);
    BlankIffAllWhitespace(data.confirmPassword);
  }

  /**
   * As written, the reverse also happens: a confirmation typed before the password was
   * checked against the old password, and typing an equal password afterwards leaves
   * "Passwords do not match" shown, so a form whose passwords agree is refused.
   */
  lemma ConfirmFirstIsRefused(data: Form, errors: Form, confirmation: string)
    requires !AllWhitespace(confirmation) && confirmation != data.password
    ensures var data1 := data.Set(ConfirmPassword, confirmation);
      var errors1 := errors.Set(ConfirmPassword, FieldError(ConfirmPassword, confirmation, data.password));
      var data2 := data1.Set(Password, confirmation);
      var errors2 := errors1.Set(Password, FieldError(Password, confirmation, data1.password));
      !FormValid(errors2, data2) && errors2.confirmPassword == PasswordsDiffer
      && data2.confirmPassword == data2.password && AllErrors(data2).confirmPassword == ""
  {
    FieldErrorSpec(confirmation, data.password);
    FieldErrorSpec(confirmation, confirmation);
  }

  /** Where a successful registration leads, and the message of a failed one. */
  const DashboardRoute := "/student/dashboard"
  const RegisterFailedDefault := "An unexpected error occurred. Please try again."

  /** The registration page's state. */
  class RegisterPage {
    var formData: Form
    var errors: Form
    var isLoading: bool
    var success: bool

    constructor ()
      ensures formData == Empty && errors == Empty && !isLoading && !success
    {
      formData := Empty;
      errors := Empty;
      isLoading := false;
      success := false;
    }

    /** `isFormValid` of the current render: no error shown and text in every input. */
    predicate IsFormValid()
      reads this
      ensures IsFormValid() <==>
        (errors == Empty
         && !AllWhitespace(formData.matricNumber) && !AllWhitespace(formData.email)
         && !AllWhitespace(formData.password) && !AllWhitespace(formData.confirmPassword))
    {
      BlankIffAllWhitespace(formData.matricNumber);
      BlankIffAllWhitespace(formData.email);
      BlankIffAllWhitespace(formData.password);
      BlankIffAllWhitespace(formData.confirmPassword);
      FormValid(errors, formData)
    }

    /**
     * The submit button is disabled while loading or while the shown form is not valid;
     * while the errors shown are those of the current inputs, an enabled button means
     * every field passes its rules.
     */
    predicate SubmitDisabled()
      reads this
      ensures isLoading ==> SubmitDisabled()
      ensures !SubmitDisabled() && errors == AllErrors(formData) ==> SubmitSends(formData)
    {
      isLoading || !IsFormValid()
    }

    /** `validateField(f, value)`: only f's error entry changes. */
    method ValidateField(f: Field, value: string)
      modifies this
      ensures errors == old(errors).Set(f, FieldError(f, value, formData.password))
      ensures formData == old(formData) && isLoading == old(isLoading) && success == old(success)
    {
      errors := errors.Set(f, FieldError(f, value, formData.password));
    }

    /** `handleChange`: the input is stored and validated against the form as it was. */
    method HandleChange(f: Field, value: string)
      modifies this
      ensures formData == old(formData).Set(f, value)
      ensures errors == old(errors).Set(f, FieldError(f, value, old(formData).password))
      ensures isLoading == old(isLoading) && success == old(success)
    {
      var before := formData;
      formData := formData.Set(f, value);
      errors := errors.Set(f, FieldError(f, value, before.password));
    }

    /**
     * The start of `handleSubmit`: every field is validated afresh, but the decision is
     * taken on `isFormValid` as the current render computed it, from the errors shown
     * before this validation.
     */
    method Revalidate() returns (sent: bool)
      modifies this
      ensures errors == AllErrors(old(formData))
      ensures sent <==> FormValid(old(errors), old(formData))
      ensures formData == old(formData) && isLoading == old(isLoading) && success == old(success)
    {
      sent := IsFormValid();
      errors := AllErrors(formData);
    }

    /**
     * The request and its reply: on success the session is stored and the browser is to
     * go to the student dashboard once the success animation ends; on failure the
     * backend's message, or a default, is reported. Loading ends either way.
     */
    method Complete(reply: Reply<Auth.Session>, store: Auth.Storage) returns (route: Option<string>, failure: Option<string>)
      modifies this, store
      ensures formData == old(formData) && errors == old(errors) && !isLoading
      ensures store.windowPresent == old(store.windowPresent)
      ensures reply.Ok? ==>
        success && route == Some(DashboardRoute) && failure.None?
        && store.entries == old(store.entries)[Auth.AccessTokenKey := reply.value.accessToken]
          [Auth.RefreshTokenKey := reply.value.refreshToken][Auth.UserKey := Auth.UserText(reply.value.user)]
      ensures reply.Failed? ==>
        store.entries == old(store.entries) && success == old(success) && route.None?
        && failure == Some(TextOr(reply.error.responseMessage, RegisterFailedDefault))
    {
      assert this as object != store as object;
      isLoading := true;
      route := None;
      failure := None;
      if reply.Ok? {
        store.StoreSession(reply.value.accessToken, reply.value.refreshToken, reply.value.user);
        success := true;
        route := Some(DashboardRoute);
      } else {
        failure := Some(TextOr(reply.error.responseMessage, RegisterFailedDefault));
      }
      isLoading := false;
    }

    /**
     * `handleSubmit` as written: a request goes out iff the form was valid by the errors
     * shown before the submit (see `StaleConfirmationIsSent` and `ConfirmFirstIsRefused`
     * for where that differs from `SubmitSends`); the errors shown afterwards are those of
     * the fresh validation.
     */
    method HandleSubmit(reply: Reply<Auth.Session>, store: Auth.Storage)
      returns (sent: bool, route: Option<string>, failure: Option<string>)
      modifies this, store
      ensures errors == AllErrors(old(formData)) && formData == old(formData)
      ensures sent <==> FormValid(old(errors), old(formData))
      ensures !sent ==>
        store.entries == old(store.entries) && isLoading == old(isLoading) && success == old(success)
        && route.None? && failure.None?
      ensures sent && reply.Ok? ==>
        (success && route == Some(DashboardRoute) && failure.None? &&
         store.entries == old(store.entries)[Auth.AccessTokenKey := reply.value.accessToken]
           [Auth.RefreshTokenKey := reply.value.refreshToken][Auth.UserKey := Auth.UserText(reply.value.user)])
      ensures sent && reply.Failed? ==>
        store.entries == old(store.entries) && success == old(success) && route.None?
        && failure == Some(TextOr(reply.error.responseMessage, RegisterFailedDefault))
      ensures sent ==> !isLoading
      ensures store.windowPresent == old(store.windowPresent)
    {
      route, failure := None, None;
      sent := Revalidate();
      if sent {
        route, failure := Complete(reply, store);
      }
    }
  }
}
