/** The receipt upload page (app/student/upload/page.tsx): one upload form per category. */
module StudentUpload {
  import opened Wrappers
  import opened Strings

  const LevelPrefix := "LEVEL_"

  /** `formatLevel`: the first "LEVEL_" removed and " Level" appended. */
  function FormatLevel(level: string): string {
    ReplaceFirst(level, LevelPrefix, "") + " Level"
  }

  /** "LEVEL_n" reads "n Level", whatever n holds; a level without the prefix only gains the suffix. */
  lemma FormatLevelSpec(n: string, level: string)
    ensures FormatLevel(LevelPrefix + n) == n + " Level"
    ensures (forall j: nat :: !OccursAt(level, LevelPrefix, j)) ==> FormatLevel(level) == level + " Level"
  {
    var s := LevelPrefix + n;
    assert OccursAt(s, LevelPrefix, 0);
    assert s[6..] == n;
  }

  /** The file picked for a category: its name and MIME type. */
  datatype File = File(name: string, mimeType: string)

  /** Why an upload request was not made, in the order the page checks. */
  datatype Refusal = NoFile | InvalidType | LevelRequired | AlreadyBlocked(message: string)

  /** How a failed request is reported. */
  datatype Failure = DuplicateUpload(message: string) | UserNotFound | UploadFailed(description: string)

  datatype Outcome = Refused(refusal: Refusal) | Uploaded | Rejected(failure: Failure)

  const DuplicateMarker := "already uploaded a receipt"
  /** Where the page sends the student once an upload has succeeded. */
  const DashboardRoute := "/student/dashboard"
  const BlockedDefault := "You cannot upload another receipt for this level."
  const FailureDefault := "Something went wrong. Please try again."

  /** The checks before any request; `None` when all pass. */
  function Precheck(file: Option<File>, level: string, blocked: bool, blockedMessage: string): Option<Refusal> {
    if file.None? then Some(NoFile)
    else if file.value.mimeType != "application/pdf" then Some(InvalidType)
    else if level == "" then Some(LevelRequired)
    else if blocked then Some(AlreadyBlocked(if blockedMessage != "" then blockedMessage else BlockedDefault))
    else None
  }

  /** A request goes out iff all four checks hold, and the first that fails is the one reported. */
  lemma PrecheckSpec(file: Option<File>, level: string, blocked: bool, blockedMessage: string)
    ensures Precheck(file, level, blocked, blockedMessage).None? <==>
      file.Some? && file.value.mimeType == "application/pdf" && level != "" && !blocked
    ensures Precheck(file, level, blocked, blockedMessage) == Some(NoFile) <==> file.None?
    ensures Precheck(file, level, blocked, blockedMessage) == Some(InvalidType) <==>
      file.Some? && file.value.mimeType != "application/pdf"
    ensures Precheck(file, level, blocked, blockedMessage) == Some(LevelRequired) <==>
      file.Some? && file.value.mimeType == "application/pdf" && level == ""
    ensures (Precheck(file, level, blocked, blockedMessage).Some? &&
      Precheck(file, level, blocked, blockedMessage).value.AlreadyBlocked?) <==>
      file.Some? && file.value.mimeType == "application/pdf" && level != "" && blocked
  {
  }

  /** The classification of a failed upload by its backend message. */
  function Classify(e: ApiError): Failure {
    var message := TextOr(e.responseMessage, "");
    if Contains(message, DuplicateMarker) then DuplicateUpload(message)
    else if Contains(Lower(message), "user not found") then UserNotFound
    else UploadFailed(if message != "" then message else FailureDefault)
  }

  /**
   * The duplicate marker is matched as written and wins over "user not found",
   * which is matched in any letter case; anything else is reported with the
   * backend's message, or a default when there is none.
   */
  lemma ClassifySpec(e: ApiError)
    ensures Classify(e).DuplicateUpload? <==> Contains(TextOr(e.responseMessage, ""), DuplicateMarker)
    ensures Classify(e).DuplicateUpload? ==> Classify(e).message == TextOr(e.responseMessage, "")
    ensures Classify(e) == UserNotFound <==>
      !Contains(TextOr(e.responseMessage, ""), DuplicateMarker) &&
      Contains(Lower(TextOr(e.responseMessage, "")), "user not found")
    ensures Classify(e).UploadFailed? ==> Classify(e).description != ""
  {
  }

  /** A message that says both things is a duplicate, never a missing user. */
  lemma DuplicateWinsOverUserNotFound()
    ensures Classify(ApiError(Some(DuplicateMarker + " (user not found)"), None)).DuplicateUpload?
  {
    var m := DuplicateMarker + " (user not found)";
    assert m[0..|DuplicateMarker|] == DuplicateMarker;
    assert OccursAt(m, DuplicateMarker, 0);
  }

  /** The seven per-category records of the page. */
  class UploadPage {
    var files: map<string, Option<File>>
    var success: map<string, bool>
    var progress: map<string, int>
    var studentLevel: map<string, string>
    var blocked: map<string, bool>
    var blockedMessage: map<string, string>
    var uploading: map<string, bool>

    constructor ()
      ensures files == map[] && success == map[] && progress == map[] && studentLevel == map[]
      ensures blocked == map[] && blockedMessage == map[] && uploading == map[]
    {
      files := map[];
      success := map[];
      progress := map[];
      studentLevel := map[];
      blocked := map[];
      blockedMessage := map[];
      uploading := map[];
    }

    function FileOf(c: string): Option<File>
      reads this
    {
      if c in files then files[c] else None
    }

    function LevelOf(c: string): string
      reads this
    {
      if c in studentLevel then studentLevel[c] else ""
    }

    predicate BlockedOf(c: string)
      reads this
    {
      c in blocked && blocked[c]
    }

    function BlockedMessageOf(c: string): string
      reads this
    {
      if c in blockedMessage then blockedMessage[c] else ""
    }

    /**
     * The upload button is enabled unless the category is uploading, done or blocked; a
     * blocked category can be sent neither by the button nor past the handler's checks.
     */
    predicate UploadEnabled(c: string)
      reads this
      ensures BlockedOf(c) ==> !UploadEnabled(c) && Precheck(FileOf(c), LevelOf(c), true, BlockedMessageOf(c)).Some?
    {
      !(c in uploading && uploading[c]) && !(c in success && success[c]) && !BlockedOf(c)
    }

    /** Picking a file: c's file is replaced, its success flag and progress reset. */
    method HandleFileChange(c: string, file: Option<File>)
      modifies this
      ensures files == old(files)[c := file]
      ensures success == old(success)[c := false]
      ensures progress == old(progress)[c := 0]
      ensures studentLevel == old(studentLevel) && blocked == old(blocked)
      ensures blockedMessage == old(blockedMessage) && uploading == old(uploading)
    {
      files := files[c := file];
      success := success[c := false];
      progress := progress[c := 0];
    }

    /** Choosing a level: c's level is set and its block lifted. */
    method HandleLevelChange(c: string, level: string)
      modifies this
      ensures studentLevel == old(studentLevel)[c := level]
      ensures blocked == old(blocked)[c := false]
      ensures blockedMessage == old(blockedMessage)[c := ""]
      ensures files == old(files) && success == old(success)
      ensures progress == old(progress) && uploading == old(uploading)
    {
      studentLevel := studentLevel[c := level];
      blocked := blocked[c := false];
      blockedMessage := blockedMessage[c := ""];
    }

    /**
     * `handleUpload(c)`: the prechecks, then the request. Success clears the form and
     * sets progress to 100 and leads to the dashboard; a failure sets progress to 0 and,
     * for a duplicate, blocks c.
     * Only key c of any record changes, and `uploading[c]` is false afterwards.
     */
    method HandleUpload(c: string, reply: Reply<()>) returns (outcome: Outcome, route: Option<string>)
      modifies this
      ensures route == (if outcome == Uploaded then Some(DashboardRoute) else None)
      ensures var pre := Precheck(old(FileOf(c)), old(LevelOf(c)), old(BlockedOf(c)), old(BlockedMessageOf(c)));
        outcome == (if pre.Some? then Refused(pre.value)
                    else if reply.Ok? then Uploaded
                    else Rejected(Classify(reply.error)))
      ensures outcome.Refused? ==>
        files == old(files) && success == old(success) && progress == old(progress)
        && studentLevel == old(studentLevel) && blocked == old(blocked)
        && blockedMessage == old(blockedMessage) && uploading == old(uploading)
      ensures outcome == Uploaded ==>
        success == old(success)[c := true] && files == old(files)[c := None]
        && studentLevel == old(studentLevel)[c := ""] && progress == old(progress)[c := 100]
        && blocked == old(blocked) && blockedMessage == old(blockedMessage)
      ensures outcome.Rejected? ==>
        progress == old(progress)[c := 0] && success == old(success) && files == old(files)
        && studentLevel == old(studentLevel)
      ensures outcome.Rejected? && outcome.failure.DuplicateUpload? ==>
        blocked == old(blocked)[c := true] && blockedMessage == old(blockedMessage)[c := outcome.failure.message]
      ensures outcome.Rejected? && !outcome.failure.DuplicateUpload? ==>
        blocked == old(blocked) && blockedMessage == old(blockedMessage)
      ensures !outcome.Refused? ==> uploading == old(uploading)[c := false]
    {
      var pre := Precheck(FileOf(c), LevelOf(c), BlockedOf(c), BlockedMessageOf(c));
      if pre.Some? {
        return Refused(pre.value), None;
      }
      outcome, route := Send(c, reply);
    }

    /** The request of `handleUpload` once the checks pass, and its `finally`. */
    method Send(c: string, reply: Reply<()>) returns (outcome: Outcome, route: Option<string>)
      modifies this
      ensures outcome == (if reply.Ok? then Uploaded else Rejected(Classify(reply.error)))
      ensures route == (if reply.Ok? then Some(DashboardRoute) else None)
      ensures outcome == Uploaded ==>
        success == old(success)[c := true] && files == old(files)[c := None]
        && studentLevel == old(studentLevel)[c := ""] && progress == old(progress)[c := 100]
        && blocked == old(blocked) && blockedMessage == old(blockedMessage)
      ensures outcome.Rejected? ==>
        progress == old(progress)[c := 0] && success == old(success) && files == old(files)
        && studentLevel == old(studentLevel)
      ensures outcome.Rejected? && outcome.failure.DuplicateUpload? ==>
        blocked == old(blocked)[c := true] && blockedMessage == old(blockedMessage)[c := outcome.failure.message]
      ensures outcome.Rejected? && !outcome.failure.DuplicateUpload? ==>
        blocked == old(blocked) && blockedMessage == old(blockedMessage)
      ensures uploading == old(uploading)[c := false]
    {
      var before := uploading;
      uploading := before[c := true];
      route := None;
      if reply.Ok? {
        RecordSuccess(c);
        outcome := Uploaded;
        route := Some(DashboardRoute);
      } else {
        var failure := Classify(reply.error);
        RecordFailure(c, failure);
        outcome := Rejected(failure);
      }
      assert uploading == before[c := true];
      uploading := uploading[c := false];
    }

    /** The success branch of `handleUpload`: c is marked done, its form cleared and its bar full. */
    method RecordSuccess(c: string)
      modifies this
      ensures success == old(success)[c := true] && files == old(files)[c := None]
      ensures studentLevel == old(studentLevel)[c := ""] && progress == old(progress)[c := 100]
      ensures blocked == old(blocked) && blockedMessage == old(blockedMessage) && uploading == old(uploading)
    {
      success := success[c := true];
      files := files[c := None];
      studentLevel := studentLevel[c := ""];
      progress := progress[c := 100];
    }

    /** The `catch` branch of `handleUpload`: block c on a duplicate, and reset its progress. */
    method RecordFailure(c: string, failure: Failure)
      modifies this
      ensures progress == old(progress)[c := 0]
      ensures failure.DuplicateUpload? ==>
        blocked == old(blocked)[c := true] && blockedMessage == old(blockedMessage)[c := failure.message]
      ensures !failure.DuplicateUpload? ==> blocked == old(blocked) && blockedMessage == old(blockedMessage)
      ensures files == old(files) && success == old(success) && studentLevel == old(studentLevel)
      ensures uploading == old(uploading)
    {
      if failure.DuplicateUpload? {
        blocked := blocked[c := true];
        blockedMessage := blockedMessage[c := failure.message];
      }
      progress := progress[c := 0];
    }
  }
}
