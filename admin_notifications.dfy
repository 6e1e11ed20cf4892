/**
 * Sending notifications (app/admin/notifications/page.tsx): the broadcast to students
 * or to staff, and the custom notification to a comma-separated list of recipients.
 */
module AdminNotifications {
  import opened Wrappers
  import opened Strings
  import opened Seqs

  const StudentsBroadcastSent := "Broadcast notification has been sent to all students."
  const StaffBroadcastSent := "Broadcast notification has been sent to all staff and admin."
  const CustomSent := "Custom notification has been sent to all specified recipients."

  function Trimmed(parts: seq<string>): (r: seq<string>)
    ensures |r| == |parts| && forall k :: 0 <= k < |r| ==> r[k] == Trim(parts[k])
  {
    seq(|parts|, k requires 0 <= k < |parts| => Trim(parts[k]))
  }

  predicate NonEmpty(s: string) { s != "" }

  /** `recipients.split(",").map(e => e.trim()).filter(e => e)`. */
  function ParseRecipients(text: string): seq<string> {
    Filter(Trimmed(Split(text, ',')), NonEmpty)
  }

  lemma {:induction false} JoinChars(parts: seq<string>, sep: char, k: nat, c: char)
    requires k < |parts| && c in parts[k]
    ensures c in Join(parts, sep)
  {
    if |parts| > 1 {
      if k == 0 {
        var j :| 0 <= j < |parts[0]| && parts[0][j] == c;
        assert Join(parts, sep)[j] == c;
      } else {
        JoinChars(parts[1..], sep, k - 1, c);
        var tail := Join(parts[1..], sep);
        var j :| 0 <= j < |tail| && tail[j] == c;
        assert Join(parts, sep)[|parts[0]| + 1 + j] == c;
      }
    }
  }

  /** Every recipient is non-empty, already trimmed, free of commas and made of the input's characters. */
  lemma RecipientsWellFormed(text: string, r: string, c: char)
    requires r in ParseRecipients(text)
    ensures r != "" && Trim(r) == r && ',' !in r
    ensures c in r ==> c in text
  {
    var parts := Split(text, ',');
    var k := RecipientPiece(text, r);
    SplitFacts(text, ',', parts);
    PieceFacts(text, parts, k, r, c);
  }

  /** A recipient is the trimmed text of one of the pieces between commas. */
  lemma RecipientPiece(text: string, r: string) returns (k: nat)
    requires r in ParseRecipients(text)
    ensures k < |Split(text, ',')| && r == Trim(Split(text, ',')[k]) && r != ""
  {
    FilterSpec(Trimmed(Split(text, ',')), NonEmpty);
    k :| 0 <= k < |Split(text, ',')| && Trimmed(Split(text, ','))[k] == r;
  }

  /** A trimmed comma-free piece of `text` is trimmed, comma-free and made of characters of `text`. */
  lemma PieceFacts(text: string, parts: seq<string>, k: nat, r: string, c: char)
    requires k < |parts| && Join(parts, ',') == text && ',' !in parts[k] && r == Trim(parts[k])
    ensures Trim(r) == r && ',' !in r
    ensures c in r ==> c in text
  {
    TrimIdempotent(parts[k]);
    if ',' in r {
      TrimChars(parts[k], ',');
    }
    if c in r {
      TrimChars(parts[k], c);
      JoinChars(parts, ',', k, c);
    }
  }

  /** A recipient starts with a character of the input that is neither a comma nor whitespace. */
  lemma RecipientStart(text: string, r: string)
    requires r in ParseRecipients(text)
    ensures r != "" && r[0] != ',' && !IsWhitespace(r[0]) && r[0] in text
  {
    RecipientsWellFormed(text, r, ',');
    RecipientsWellFormed(text, r, r[0]);
    TrimEnds(r);
  }

  /** A text of commas and whitespace only gives no recipients; the request is still made with the empty list. */
  lemma BlankRecipients(text: string)
    requires forall k :: 0 <= k < |text| ==> text[k] == ',' || IsWhitespace(text[k])
    ensures ParseRecipients(text) == []
  {
    if ParseRecipients(text) != [] {
      RecipientStart(text, ParseRecipients(text)[0]);
    }
  }

  lemma {:induction false} SplitJoin(parts: seq<string>, sep: char)
    requires |parts| >= 1 && forall k :: 0 <= k < |parts| ==> sep !in parts[k]
    ensures Split(Join(parts, sep), sep) == parts
  {
    if |parts| > 1 {
      var s := Join(parts, sep);
      assert s[|parts[0]|] == sep;
      var i := FirstIndex(s, sep);
      assert s[..|parts[0]|] == parts[0];
      assert i == |parts[0]|;
      assert s[i + 1..] == Join(parts[1..], sep);
      SplitJoin(parts[1..], sep);
    }
  }

  /**
   * Parsing undoes joining: a list of non-empty, trimmed, comma-free addresses written with
   * commas between them reads back as the same list, in the same order.
   */
  lemma ParseJoinRoundTrip(rs: seq<string>)
    requires |rs| >= 1
    requires forall k :: 0 <= k < |rs| ==> rs[k] != "" && Trim(rs[k]) == rs[k] && ',' !in rs[k]
    ensures ParseRecipients(Join(rs, ',')) == rs
  {
    SplitJoin(rs, ',');
    assert Trimmed(rs) == rs;
    FilterAll(rs, NonEmpty);
  }

  /** The reported count is the number of non-blank pieces between commas, at most one more than the commas. */
  lemma RecipientCount(text: string)
    ensures |ParseRecipients(text)| <= |Split(text, ',')|
    ensures ',' !in text ==> ParseRecipients(text) == (if IsBlank(text) then [] else [Trim(text)])
  {
  }

  datatype Target = Students | Staff

  /** The two message forms. */
  datatype BroadcastForm = BroadcastForm(title: string, message: string)
  datatype CustomForm = CustomForm(recipients: string, title: string, message: string)

  /** The request each form sends. */
  datatype Request =
    | BroadcastToStudents(form: BroadcastForm)
    | BroadcastToStaff(form: BroadcastForm)
    | SendCustom(recipientList: seq<string>, title: string, message: string)

  /** The target picked: the string "students" picks students, anything else staff. */
  function TargetOf(target: string): Target {
    if target == "students" then Students else Staff
  }

  /** The request a custom notification form sends. */
  function CustomRequest(form: CustomForm): Request {
    SendCustom(ParseRecipients(form.recipients), form.title, form.message)
  }

  function BroadcastRequest(t: Target, form: BroadcastForm): Request {
    if t == Students then BroadcastToStudents(form) else BroadcastToStaff(form)
  }

  function BroadcastSentMessage(t: Target): string {
    if t == Students then StudentsBroadcastSent else StaffBroadcastSent
  }

  /** The students call and its message go together, and only "students" selects them. */
  lemma BroadcastTargetSpec(target: string, form: BroadcastForm)
    ensures BroadcastRequest(TargetOf(target), form).BroadcastToStudents? <==> target == "students"
    ensures BroadcastRequest(TargetOf(target), form).BroadcastToStudents? <==>
      BroadcastSentMessage(TargetOf(target)) == StudentsBroadcastSent
    ensures BroadcastRequest(TargetOf(target), form).form == form
  {
  }

  const EmptyBroadcast := BroadcastForm("", "")
  const EmptyCustom := CustomForm("", "", "")

  /** The page's state. */
  class NotificationsPage {
    var loading: bool
    var broadcastForm: BroadcastForm
    var customForm: CustomForm
    var dialogOpen: bool
    var dialogMessage: string

    constructor ()
      ensures !loading && broadcastForm == EmptyBroadcast && customForm == EmptyCustom
      ensures !dialogOpen && dialogMessage == ""
    {
      loading := false;
      broadcastForm := EmptyBroadcast;
      customForm := EmptyCustom;
      dialogOpen := false;
      dialogMessage := "";
    }

    /** `handleBroadcast(target)`: the form is cleared only after a successful send; loading always ends. */
    method HandleBroadcast(target: string, reply: Reply<()>) returns (request: Request, failure: Option<string>)
      modifies this
      ensures request == BroadcastRequest(TargetOf(target), old(broadcastForm))
      ensures !loading && customForm == old(customForm)
      ensures reply.Ok? ==>
        broadcastForm == EmptyBroadcast && dialogOpen && dialogMessage == BroadcastSentMessage(TargetOf(target))
        && failure.None?
      ensures reply.Failed? ==>
        broadcastForm == old(broadcastForm) && dialogOpen == old(dialogOpen) && dialogMessage == old(dialogMessage)
        && failure == Some(TextOr(reply.error.responseMessage, "Please try again"))
    {
      loading := true;
      var t := TargetOf(target);
      request := BroadcastRequest(t, broadcastForm);
      failure := None;
      if reply.Ok? {
        dialogMessage := BroadcastSentMessage(t);
        dialogOpen := true;
        broadcastForm := EmptyBroadcast;
      } else {
        failure := Some(TextOr(reply.error.responseMessage, "Please try again"));
      }
      loading := false;
    }

    /**
     * `handleCustomNotification`: the recipients parsed from the text are sent with the
     * title and message; the form is cleared only after a successful send, and a failure
     * reports the backend's message.
     */
    method HandleCustomNotification(reply: Reply<()>) returns (request: Request, sentCount: Option<nat>, failure: Option<string>)
      modifies this
      ensures request == CustomRequest(old(customForm))
      ensures !loading && broadcastForm == old(broadcastForm)
      ensures reply.Ok? ==>
        customForm == EmptyCustom && dialogOpen && dialogMessage == CustomSent
        && sentCount.Some? && sentCount.value == |request.recipientList| && failure.None?
      ensures reply.Failed? ==>
        customForm == old(customForm) && dialogOpen == old(dialogOpen) && dialogMessage == old(dialogMessage)
        && sentCount.None? && failure == Some(TextOr(reply.error.responseMessage, "Please try again"))
    {
      request := CustomRequest(customForm);
      sentCount, failure := Conclude(reply, |request.recipientList|);
    }

    /** The reply to a custom notification that reached `count` recipients. */
    method Conclude(reply: Reply<()>, count: nat) returns (sentCount: Option<nat>, failure: Option<string>)
      modifies this
      ensures !loading && broadcastForm == old(broadcastForm)
      ensures reply.Ok? ==>
        customForm == EmptyCustom && dialogOpen && dialogMessage == CustomSent && sentCount == Some(count)
        && failure.None?
      ensures reply.Failed? ==>
        customForm == old(customForm) && dialogOpen == old(dialogOpen) && dialogMessage == old(dialogMessage)
        && sentCount.None? && failure == Some(TextOr(reply.error.responseMessage, "Please try again"))
    {
      loading := true;
      sentCount, failure := None, None;
      if reply.Ok? {
        dialogMessage := CustomSent;
        dialogOpen := true;
        sentCount := Some(count);
        customForm := EmptyCustom;
      } else {
        failure := Some(TextOr(reply.error.responseMessage, "Please try again"));
      }
      loading := false;
    }

    method CloseDialog()
      modifies this
      ensures !dialogOpen && dialogMessage == old(dialogMessage)
      ensures broadcastForm == old(broadcastForm) && customForm == old(customForm) && loading == old(loading)
    {
      dialogOpen := false;
    }
  }
}
