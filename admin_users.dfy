/**
 * User management (app/admin/users/page.tsx): the invitation link built from the
 * backend's link, the account actions, the avatar initial, the relative "last login"
 * text, and the two list filters.
 */
module AdminUsers {
  import opened Wrappers
  import opened Strings
  import opened Seqs

  // ---- The invitation link ----

  const TokenParam := "token="
  const InvitePath := "/invite/register?token="

  /** Where `/token=([^&]+)/` can match: "token=" followed by at least one character other than '&'. */
  predicate TokenAt(url: string, i: nat) {
    OccursAt(url, TokenParam, i) && i + |TokenParam| < |url| && url[i + |TokenParam|] != '&'
  }

  /** The leftmost match at or after `from`. */
  function FirstTokenAt(url: string, from: nat): (r: Option<nat>)
    requires from <= |url|
    decreases |url| - from
    ensures r.Some? ==> from <= r.value && TokenAt(url, r.value)
    ensures r.Some? ==> forall j :: from <= j < r.value ==> !TokenAt(url, j)
    ensures r.None? ==> forall j :: from <= j ==> !TokenAt(url, j)
  {
    if TokenAt(url, from) then Some(from)
    else if from == |url| then None
    else FirstTokenAt(url, from + 1)
  }

  /** `[^&]+` taken greedily: the longest prefix without '&'. */
  function UpToAmp(s: string): (r: string)
    ensures r <= s && '&' !in r
    ensures r == s || s[|r|] == '&'
  {
    if s == [] || s[0] == '&' then [] else [s[0]] + UpToAmp(s[1..])
  }

  /** `tokenMatch ? tokenMatch[1] : ""`. */
  function InviteToken(url: string): string {
    match FirstTokenAt(url, 0)
    case None => ""
    case Some(i) => UpToAmp(url[i + |TokenParam|..])
  }

  /** The link shown to the admin. */
  function InviteLink(origin: string, token: string): string {
    origin + InvitePath + token
  }

  /**
   * The extracted token is empty exactly when the link has no match; otherwise it is
   * the whole '&'-free run after the leftmost "token=" that is followed by one.
   */
  lemma InviteTokenSpec(url: string)
    ensures InviteToken(url) == "" <==> forall j: nat :: !TokenAt(url, j)
    ensures '&' !in InviteToken(url)
    ensures InviteToken(url) != "" ==> exists i: nat ::
      TokenAt(url, i) && (forall j: nat :: j < i ==> !TokenAt(url, j))
      && InviteToken(url) <= url[i + |TokenParam|..]
      && (i + |TokenParam| + |InviteToken(url)| == |url| || url[i + |TokenParam| + |InviteToken(url)|] == '&')
  {
    var r := FirstTokenAt(url, 0);
    if r.Some? {
      TokenRun(url, r.value);
      assert InviteToken(url) == UpToAmp(url[r.value + |TokenParam|..]);
    }
  }

  /** The run read after a match is non-empty and ends at the end of the link or at a '&'. */
  lemma TokenRun(url: string, i: nat)
    requires TokenAt(url, i)
    ensures UpToAmp(url[i + |TokenParam|..]) != ""
    ensures var n := i + |TokenParam| + |UpToAmp(url[i + |TokenParam|..])|;
      n == |url| || (n < |url| && url[n] == '&')
  {
    var rest := url[i + |TokenParam|..];
    assert rest[0] != '&';
    if UpToAmp(rest) != rest {
      assert rest[|UpToAmp(rest)|] == url[i + |TokenParam| + |UpToAmp(rest)|];
    }
  }

  lemma {:induction false} UpToAmpWhole(t: string, rest: string)
    requires '&' !in t && (rest == [] || rest[0] == '&')
    ensures UpToAmp(t + rest) == t
  {
    if t != [] {
      UpToAmpWhole(t[1..], rest);
      assert t + rest == [t[0]] + (t[1..] + rest);
      UpToAmpCons(t[0], t[1..] + rest);
      assert [t[0]] + t[1..] == t;
    } else {
      assert t + rest == rest;
    }
  }

  lemma UpToAmpCons(c: char, s: string)
    requires c != '&'
    ensures UpToAmp([c] + s) == [c] + UpToAmp(s)
  {
    assert ([c] + s)[1..] == s;
  }

  /**
   * A link "base?token=t" whose base has no '=' yields t; in particular the token
   * read back from the link the page builds is the token it was built from.
   */
  lemma InviteTokenOfLink(base: string, t: string)
    requires '=' !in base && '&' !in t && t != ""
    ensures InviteToken(base + "?" + TokenParam + t) == t
  {
    var url := base + "?" + TokenParam + t;
    var i := |base| + 1;
    assert url[i..i + |TokenParam|] == TokenParam;
    assert url[i + |TokenParam|..] == t;
    assert TokenAt(url, i);
    var pre := base + "?token";
    assert url == pre + "=" + t;
    forall k | 0 <= k < |pre|
      ensures pre[k] != '='
    {
      if k < |base| {
        assert pre[k] == base[k];
      } else {
        assert pre[k] == "?token"[k - |base|];
      }
    }
    forall j: nat | j < i
      ensures !TokenAt(url, j)
    {
      assert url[j + 5] == pre[j + 5];
    }
    UpToAmpWhole(t, []);
    assert t + [] == t;
  }

  lemma InviteLinkRoundTrip(origin: string, url: string)
    requires '=' !in origin && InviteToken(url) != ""
    ensures InviteToken(InviteLink(origin, InviteToken(url))) == InviteToken(url)
  {
    InviteTokenSpec(url);
    assert InviteLink(origin, InviteToken(url)) == (origin + "/invite/register") + "?" + TokenParam + InviteToken(url);
    InviteTokenOfLink(origin + "/invite/register", InviteToken(url));
  }

  // ---- Account actions ----

  datatype UserAction = Suspend | Deactivate | Activate | Delete

  /** The backend call an action makes. */
  datatype AdminCall = DeleteUser(email: string) | UpdateStatus(email: string, status: string)

  /** The action's word as the menu names it. */
  function ActionWord(a: UserAction): string {
    match a
    case Suspend => "suspend"
    case Deactivate => "deactivate"
    case Activate => "activate"
    case Delete => "delete"
  }

  /** `statusMap`, and the delete call for deleting. */
  function CallFor(a: UserAction, email: string): AdminCall {
    match a
    case Suspend => UpdateStatus(email, "SUSPENDED")
    case Deactivate => UpdateStatus(email, "DEACTIVATED")
    case Activate => UpdateStatus(email, "ACTIVE")
    case Delete => DeleteUser(email)
  }

  /** Deleting uses the delete call; each other action sets its own status on the chosen account. */
  lemma CallForSpec(a: UserAction, b: UserAction, email: string)
    ensures CallFor(a, email).DeleteUser? <==> a == Delete
    ensures CallFor(a, email).email == email
    ensures a != Delete && b != Delete && a != b ==> CallFor(a, email).status != CallFor(b, email).status
    ensures CallFor(a, email).UpdateStatus? ==> Upper(ActionWord(a))[..5] == CallFor(a, email).status[..5]
  {
    if a == Suspend {
      assert Upper(ActionWord(a))[..5] == "SUSPE";
    } else if a == Deactivate {
      assert Upper(ActionWord(a))[..5] == "DEACT";
    } else if a == Activate {
      assert Upper(ActionWord(a))[..5] == "ACTIV";
    }
  }

  /** The status toast AS WRITTEN: `User ${action}d successfully.` */
  function StatusNoticeAsWritten(a: UserAction): string {
    "User " + ActionWord(a) + "d successfully."
  }

  /** The past tense of an action's word. */
  function PastTense(a: UserAction): string {
    match a
    case Suspend => "suspended"
    case Deactivate => "deactivated"
    case Activate => "activated"
    case Delete => "deleted"
  }

  /** The status toast as evidently intended. */
  function StatusNotice(a: UserAction): string {
    "User " + PastTense(a) + " successfully."
  }

  /** Appending "d" misspells "suspend": the toast reads "User suspendd successfully." */
  lemma SuspendNoticeMisspelt()
    ensures StatusNoticeAsWritten(Suspend) == "User suspendd successfully."
    ensures !EndsWith(ActionWord(Suspend) + "d", "ed")
    ensures StatusNoticeAsWritten(Suspend) != StatusNotice(Suspend)
  {
    assert StatusNoticeAsWritten(Suspend)[12] == 'd' != StatusNotice(Suspend)[12];
    assert (ActionWord(Suspend) + "d")[6..] == "dd";
  }

  /**
   * The corrected toast names the action in the past tense. Among the three status actions
   * (delete has its own toast) it agrees with the written one exactly for the words ending
   * in 'e', that is for every action but suspend.
   */
  lemma StatusNoticeSpec(a: UserAction)
    ensures ActionWord(a) <= PastTense(a) && EndsWith(PastTense(a), "ed")
    ensures a != Delete ==>
      (StatusNotice(a) == StatusNoticeAsWritten(a) <==> ActionWord(a)[|ActionWord(a)| - 1] == 'e')
    ensures a != Delete ==> (StatusNotice(a) == StatusNoticeAsWritten(a) <==> a != Suspend)
  {
    PastTenseAppends(a);
    NoticeOfWord(ActionWord(a), if a == Suspend then "ed" else "d");
    if a == Suspend {
      SuspendNoticeMisspelt();
    }
  }

  /** A word with "ed" appended, or "d" after a final 'e', ends in "ed"; with "d" the two toasts agree. */
  lemma NoticeOfWord(w: string, tail: string)
    requires w != [] && (tail == "ed" || (tail == "d" && w[|w| - 1] == 'e'))
    ensures w <= w + tail && EndsWith(w + tail, "ed")
    ensures tail == "d" ==> "User " + (w + tail) + " successfully." == "User " + w + "d successfully."
  {
    var p := w + tail;
    assert p[..|w|] == w;
    if tail == "d" {
      assert p[|p| - 2..] == [w[|w| - 1]] + "d";
    } else {
      assert p[|p| - 2..] == tail;
    }
  }

  /** Each past tense is the action's word followed by "ed" for "suspend" and by "d" for the others, which end in 'e'. */
  lemma PastTenseAppends(a: UserAction)
    ensures PastTense(a) == ActionWord(a) + (if a == Suspend then "ed" else "d")
    ensures ActionWord(a)[|ActionWord(a)| - 1] == 'e' <==> a != Suspend
  {
    match a
    case Suspend =>
      assert PastTense(a) == ActionWord(a) + "ed";
    case Deactivate =>
      assert PastTense(a) == ActionWord(a) + "d";
    case Activate =>
      assert PastTense(a) == ActionWord(a) + "d";
    case Delete =>
      assert PastTense(a) == ActionWord(a) + "d";
  }

  // ---- The avatar initial ----

  datatype PrivilegedUser = PrivilegedUser(
    email: string, firstName: Option<string>, lastName: Option<string>, role: string)

  /**
   * `getInitial`: the first character of a non-blank first name, upper-cased, else the
   * first character of the email, else "?". The character is taken before trimming.
   */
  function Initial(u: PrivilegedUser): (r: string)
    ensures |r| == 1
  {
    if u.firstName.Some? && !IsBlank(u.firstName.value) then [UpperChar(u.firstName.value[0])]
    else if u.email != "" then [UpperChar(u.email[0])]
    else "?"
  }

  lemma InitialSpec(u: PrivilegedUser)
    ensures (u.firstName.None? || AllWhitespace(u.firstName.value)) && u.email == "" ==> Initial(u) == "?"
    ensures u.firstName.Some? && !AllWhitespace(u.firstName.value) ==> Initial(u) == [UpperChar(u.firstName.value[0])]
    ensures (u.firstName.None? || AllWhitespace(u.firstName.value)) && u.email != "" ==> Initial(u) == [UpperChar(u.email[0])]
    ensures !('a' <= Initial(u)[0] <= 'z')
  {
    if u.firstName.Some? {
      BlankIffAllWhitespace(u.firstName.value);
    }
  }

  // ---- "Last login" text ----

  const HourMs := 1000 * 60 * 60
  const DayMs := HourMs * 24

  /** What `formatRelativeOrFull` shows: a relative text, or the locale's full date. */
  datatype Shown = Relative(text: string) | FullDate

  function Plural(n: int): string { if n > 1 then "s" else "" }

  /**
   * `formatRelativeOrFull(dateString)` for a date `diffMs` milliseconds in the past
   * (negative for the future). Both divisors are positive, so `/` is `Math.floor`.
   */
  function RelativeOrFull(dateString: Option<string>, diffMs: int): Shown {
    if dateString.None? || dateString.value == "" then Relative("N/A")
    else
      var days := diffMs / DayMs;
      if days < 1 then
        var hours := diffMs / HourMs;
        if hours > 0 then Relative(NatToString(hours) + " hour" + Plural(hours) + " ago") else Relative("Just now")
      else if days < 7 then Relative(NatToString(days) + " day" + Plural(days) + " ago")
      else FullDate
  }

  /**
   * The text by the age of the date: under an hour (or in the future) "Just now", then
   * 1 to 23 whole hours, then 1 to 6 whole days, then the full date.
   */
  lemma RelativeOrFullSpec(dateString: string, diffMs: int)
    requires dateString != ""
    ensures RelativeOrFull(Some(dateString), diffMs) == Relative("Just now") <==> diffMs < HourMs
    ensures RelativeOrFull(Some(dateString), diffMs) == FullDate <==> diffMs >= 7 * DayMs
  {
    if diffMs < HourMs {
      assert diffMs / DayMs <= 0 && diffMs / HourMs <= 0;
    } else if diffMs < DayMs {
      HourBounds(diffMs);
    } else if diffMs < 7 * DayMs {
      DayBounds(diffMs);
    } else {
      assert diffMs / DayMs >= 7;
    }
  }

  /** Within the last day the text counts whole hours, within the last week whole days. */
  lemma RelativeText(dateString: string, diffMs: int)
    requires dateString != ""
    ensures HourMs <= diffMs < DayMs ==>
      1 <= diffMs / HourMs <= 23
      && RelativeOrFull(Some(dateString), diffMs).text ==
         NatToString(diffMs / HourMs) + (if diffMs < 2 * HourMs then " hour ago" else " hours ago")
    ensures DayMs <= diffMs < 7 * DayMs ==>
      1 <= diffMs / DayMs <= 6
      && RelativeOrFull(Some(dateString), diffMs).text ==
         NatToString(diffMs / DayMs) + (if diffMs < 2 * DayMs then " day ago" else " days ago")
  {
    if HourMs <= diffMs < DayMs {
      HourBounds(diffMs);
      UnitText(diffMs / HourMs, " hour");
    } else if DayMs <= diffMs < 7 * DayMs {
      DayBounds(diffMs);
      UnitText(diffMs / DayMs, " day");
    }
  }

  lemma HourBounds(diffMs: int)
    requires HourMs <= diffMs < DayMs
    ensures diffMs / DayMs == 0 && 1 <= diffMs / HourMs <= 23
    ensures diffMs / HourMs == 1 <==> diffMs < 2 * HourMs
  {
  }

  lemma DayBounds(diffMs: int)
    requires DayMs <= diffMs < 7 * DayMs
    ensures 1 <= diffMs / DayMs <= 6
    ensures diffMs / DayMs == 1 <==> diffMs < 2 * DayMs
  {
  }

  /** "n unit ago", with the unit in the plural for n above one. */
  lemma UnitText(n: nat, unit: string)
    ensures NatToString(n) + unit + Plural(n) + " ago" ==
      NatToString(n) + (if n <= 1 then unit + " ago" else unit + "s ago")
  {
    if n <= 1 {
      assert unit + Plural(n) + " ago" == unit + " ago";
    } else {
      assert unit + Plural(n) + " ago" == unit + "s ago";
    }
  }


  /** A missing or empty date reads "N/A", whatever the clock says. */
  lemma MissingDateIsNA(dateString: Option<string>, diffMs: int)
    requires dateString.None? || dateString.value == ""
    ensures RelativeOrFull(dateString, diffMs) == Relative("N/A")
  {
  }

  // ---- The two filters ----

  /** A row of the students table; either field may be missing from the reply. */
  datatype Student = Student(matricNumber: Option<string>, email: Option<string>)

  /** Case-insensitive containment of the query in an optional field; a missing field never matches. */
  predicate FieldMatches(field: Option<string>, query: string) {
    field.Some? && Contains(Lower(field.value), Lower(query))
  }

  predicate StudentMatches(query: string, s: Student) {
    FieldMatches(s.email, query) || FieldMatches(s.matricNumber, query)
  }

  function FilteredStudents(students: seq<Student>, query: string): seq<Student> {
    Filter(students, s => StudentMatches(query, s))
  }

  lemma ContainsEmpty(s: string)
    ensures Contains(s, "")
  {
    assert OccursAt(s, "", 0);
  }

  /**
   * A student is listed iff the query occurs in the email or the matric number, ignoring
   * case; the empty query lists every student that has either.
   */
  lemma FilteredStudentsSpec(students: seq<Student>, query: string, s: Student)
    ensures s in FilteredStudents(students, query) <==> s in students && StudentMatches(query, s)
    ensures query == "" && (forall k :: 0 <= k < |students| ==> students[k].email.Some? || students[k].matricNumber.Some?) ==>
      FilteredStudents(students, query) == students
  {
    FilterSpec(students, s => StudentMatches(query, s));
    if query == "" && (forall k :: 0 <= k < |students| ==> students[k].email.Some? || students[k].matricNumber.Some?) {
      assert Lower(query) == "";
      forall k | 0 <= k < |students|
        ensures StudentMatches(query, students[k])
      {
        if students[k].email.Some? {
          ContainsEmpty(Lower(students[k].email.value));
        } else {
          ContainsEmpty(Lower(students[k].matricNumber.value));
        }
      }
      FilterAll(students, s => StudentMatches(query, s));
    }
  }

  /** The name searched for a privileged user: `${firstName || ""} ${lastName || ""}`. */
  function SearchName(u: PrivilegedUser): string {
    TextOr(u.firstName, "") + " " + TextOr(u.lastName, "")
  }

  predicate PrivilegedMatches(role: string, query: string, u: PrivilegedUser) {
    (role == "ALL" || u.role == role)
    && (Contains(Lower(u.email), Lower(query)) || Contains(Lower(SearchName(u)), Lower(query)))
  }

  function FilteredPrivileged(users: seq<PrivilegedUser>, role: string, query: string): seq<PrivilegedUser> {
    Filter(users, u => PrivilegedMatches(role, query, u))
  }

  /**
   * A user is listed iff the role filter is "ALL" or names the user's role, and the query
   * occurs in the email or the full name; "ALL" with the empty query lists everyone.
   */
  lemma FilteredPrivilegedSpec(users: seq<PrivilegedUser>, role: string, query: string, u: PrivilegedUser)
    ensures u in FilteredPrivileged(users, role, query) <==> u in users && PrivilegedMatches(role, query, u)
    ensures u in FilteredPrivileged(users, role, query) && role != "ALL" ==> u.role == role
    ensures role == "ALL" && query == "" ==> FilteredPrivileged(users, role, query) == users
  {
    FilterSpec(users, u => PrivilegedMatches(role, query, u));
    if role == "ALL" && query == "" {
      assert Lower(query) == "";
      forall k | 0 <= k < |users|
        ensures PrivilegedMatches(role, query, users[k])
      {
        ContainsEmpty(Lower(users[k].email));
      }
      FilterAll(users, u => PrivilegedMatches(role, query, u));
    }
  }

  // ---- The page ----

  /** The action dialog: open or not, the chosen user and the chosen action. */
  datatype ActionDialog = ActionDialog(open: bool, user: Option<PrivilegedUser>, action: Option<UserAction>)

  const ClosedDialog := ActionDialog(false, None, None)

  /** The two lists as both requests return them; a missing body reads as an empty list. */
  type Lists = (Option<seq<Student>>, Option<seq<PrivilegedUser>>)

  class UsersPage {
    var students: seq<Student>
    var privilegedUsers: seq<PrivilegedUser>
    var loading: bool
    var inviteEmail: string
    var inviteRole: string
    var inviteLink: string
    var inviteSentMessage: string
    var actionDialog: ActionDialog

    constructor ()
      ensures students == [] && privilegedUsers == [] && loading
      ensures inviteEmail == "" && inviteRole == "STAFF" && inviteLink == "" && inviteSentMessage == ""
      ensures actionDialog == ClosedDialog
    {
      students := [];
      privilegedUsers := [];
      loading := true;
      inviteEmail := "";
      inviteRole := "STAFF";
      inviteLink := "";
      inviteSentMessage := "";
      actionDialog := ClosedDialog;
    }

    /** `fetchAll`: both lists replaced together, or neither when either request fails. */
    method FetchAll(reply: Reply<Lists>)
      modifies this
      ensures !loading
      ensures reply.Ok? ==>
        students == reply.value.0.GetOr([]) && privilegedUsers == reply.value.1.GetOr([])
      ensures reply.Failed? ==> students == old(students) && privilegedUsers == old(privilegedUsers)
      ensures inviteEmail == old(inviteEmail) && inviteRole == old(inviteRole) && inviteLink == old(inviteLink)
      ensures inviteSentMessage == old(inviteSentMessage) && actionDialog == old(actionDialog)
    {
      if reply.Ok? {
        students := reply.value.0.GetOr([]);
        privilegedUsers := reply.value.1.GetOr([]);
      }
      loading := false;
    }

    /** Typing in the invitation's email input: `setInviteForm({ ...inviteForm, email })`. */
    method SetInviteEmail(email: string)
      modifies this
      ensures inviteEmail == email && inviteRole == old(inviteRole) && inviteLink == old(inviteLink)
      ensures inviteSentMessage == old(inviteSentMessage)
      ensures students == old(students) && privilegedUsers == old(privilegedUsers)
      ensures loading == old(loading) && actionDialog == old(actionDialog)
    {
      inviteEmail := email;
    }

    /** Choosing in the invitation's role select: `setInviteForm({ ...inviteForm, role })`. */
    method SetInviteRole(role: string)
      modifies this
      ensures inviteRole == role && inviteEmail == old(inviteEmail) && inviteLink == old(inviteLink)
      ensures inviteSentMessage == old(inviteSentMessage)
      ensures students == old(students) && privilegedUsers == old(privilegedUsers)
      ensures loading == old(loading) && actionDialog == old(actionDialog)
    {
      inviteRole := role;
    }

    /**
     * `handleCreateInvite`: nothing is sent without an email; on success the link shown
     * carries the token taken from the backend's link.
     */
    method HandleCreateInvite(origin: string, reply: Reply<string>) returns (sent: Option<(string, string)>)
      modifies this
      ensures sent.Some? <==> old(inviteEmail) != ""
      ensures sent.Some? ==> sent.value == (old(inviteEmail), old(inviteRole))
      ensures sent.Some? && reply.Ok? ==>
        inviteLink == InviteLink(origin, InviteToken(reply.value))
        && inviteSentMessage == "Invitation sent to " + old(inviteEmail)
      ensures sent.None? || reply.Failed? ==>
        inviteLink == old(inviteLink) && inviteSentMessage == old(inviteSentMessage)
      ensures inviteEmail == old(inviteEmail) && inviteRole == old(inviteRole)
      ensures students == old(students) && privilegedUsers == old(privilegedUsers) && actionDialog == old(actionDialog)
      ensures loading == old(loading)
    {
      if inviteEmail == "" {
        return None;
      }
      sent := Some((inviteEmail, inviteRole));
      if reply.Ok? {
        inviteLink := InviteLink(origin, InviteToken(reply.value));
        inviteSentMessage := "Invitation sent to " + inviteEmail;
      }
    }

    /** The five-second timer after an invitation: the confirmation disappears. */
    method ClearSentMessage()
      modifies this
      ensures inviteSentMessage == "" && inviteLink == old(inviteLink) && inviteEmail == old(inviteEmail)
      ensures inviteRole == old(inviteRole) && loading == old(loading) && actionDialog == old(actionDialog)
      ensures students == old(students) && privilegedUsers == old(privilegedUsers)
    {
      inviteSentMessage := "";
    }

    /** Choosing an action in a user's menu opens the dialog for that user and action. */
    method OpenActionDialog(u: PrivilegedUser, a: UserAction)
      modifies this
      ensures actionDialog == ActionDialog(true, Some(u), Some(a))
      ensures students == old(students) && privilegedUsers == old(privilegedUsers) && loading == old(loading)
      ensures inviteEmail == old(inviteEmail) && inviteRole == old(inviteRole)
      ensures inviteLink == old(inviteLink) && inviteSentMessage == old(inviteSentMessage)
    {
      actionDialog := ActionDialog(true, Some(u), Some(a));
    }

    /**
     * The confirmation dialog's `onOpenChange` (Cancel, Escape or a click outside):
     * only the open flag changes, and the chosen user and action are kept.
     */
    method SetActionDialogOpen(open: bool)
      modifies this
      ensures actionDialog == old(actionDialog).(open := open)
      ensures actionDialog.user == old(actionDialog.user) && actionDialog.action == old(actionDialog.action)
      ensures students == old(students) && privilegedUsers == old(privilegedUsers) && loading == old(loading)
      ensures inviteEmail == old(inviteEmail) && inviteRole == old(inviteRole)
      ensures inviteLink == old(inviteLink) && inviteSentMessage == old(inviteSentMessage)
    {
      actionDialog := actionDialog.(open := open);
    }

    /**
     * `handleUserAction`: without a user and an action nothing happens; otherwise the
     * call for the action is made, the lists are fetched again on success, and the
     * dialog is closed and cleared whatever the outcome. The status toast is the one
     * the page writes (`StatusNoticeAsWritten`); a failure reports the backend's message.
     */
    method HandleUserAction(reply: Reply<()>, refetch: Reply<Lists>)
      returns (call: Option<AdminCall>, notice: Option<string>, failure: Option<string>)
      modifies this
      ensures old(actionDialog.user.None? || actionDialog.action.None?) ==>
        call.None? && notice.None? && failure.None? && actionDialog == old(actionDialog)
        && students == old(students) && privilegedUsers == old(privilegedUsers)
      ensures old(actionDialog.user.Some? && actionDialog.action.Some?) ==>
        call == Some(CallFor(old(actionDialog.action.value), old(actionDialog.user.value.email)))
        && actionDialog == ClosedDialog
      ensures old(actionDialog.user.Some? && actionDialog.action.Some?) && reply.Ok? ==>
        notice == Some(if old(actionDialog.action.value) == Delete then "User has been removed."
                       else StatusNoticeAsWritten(old(actionDialog.action.value)))
        && failure.None?
        && (refetch.Ok? ==> students == refetch.value.0.GetOr([]) && privilegedUsers == refetch.value.1.GetOr([]))
        && (refetch.Failed? ==> students == old(students) && privilegedUsers == old(privilegedUsers))
      ensures old(actionDialog.user.Some? && actionDialog.action.Some?) && reply.Failed? ==>
        failure == Some(TextOr(reply.error.responseMessage, "Please try again."))
      ensures reply.Failed? ==> notice.None? && students == old(students) && privilegedUsers == old(privilegedUsers)
      ensures old(actionDialog.user.Some? && actionDialog.action.Some?) && reply.Ok? ==> !loading
      ensures old(actionDialog.user.None? || actionDialog.action.None?) || reply.Failed? ==> loading == old(loading)
      ensures inviteEmail == old(inviteEmail) && inviteLink == old(inviteLink)
      ensures inviteRole == old(inviteRole) && inviteSentMessage == old(inviteSentMessage)
    {
      call, notice, failure := None, None, None;
      if actionDialog.user.None? || actionDialog.action.None? {
        return;
      }
      var a := actionDialog.action.value;
      call := Some(CallFor(a, actionDialog.user.value.email));
      if reply.Ok? {
        notice := Some(if a == Delete then "User has been removed." else StatusNoticeAsWritten(a));
        FetchAll(refetch);
      } else {
        failure := Some(TextOr(reply.error.responseMessage, "Please try again."));
      }
      actionDialog := ClosedDialog;
    }
  }
}
