/** The student dashboard (app/student/dashboard/page.tsx): greeting, own receipts by category, downloads. */
module StudentDashboard {
  import opened Wrappers
  import opened Strings
  import opened Receipts
  import Auth
  import StatusBadge

  /** `getGreeting()` for the local hour. */
  function Greeting(hour: int): string {
    if hour < 12 then "Good morning"
    else if hour < 18 then "Good afternoon"
    else "Good evening"
  }

  /** Morning before noon, afternoon until six, evening after; the three greetings differ. */
  lemma GreetingSpec(hour: int)
    ensures Greeting(hour) == "Good morning" <==> hour < 12
    ensures Greeting(hour) == "Good afternoon" <==> 12 <= hour < 18
    ensures Greeting(hour) == "Good evening" <==> hour >= 18
  {
  }

  /** `user?.matricNumber || "Student"`, for the user read from storage at render time. */
  function HeadingName(stored: Auth.StoredUser): (r: string)
    requires !stored.Unreadable?
    ensures r != ""
    ensures stored.Found? && stored.user.matricNumber.Some? && stored.user.matricNumber.value != "" ==>
      r == stored.user.matricNumber.value
    ensures !(stored.Found? && stored.user.matricNumber.Some? && stored.user.matricNumber.value != "") ==>
      r == "Student"
  {
    if stored.Found? then TextOr(stored.user.matricNumber, "Student") else "Student"
  }

  /** `url.split("/").pop() || "receipt.pdf"`: the name a single download is saved under. */
  function DownloadName(url: string): string {
    if LastSegment(url, '/') != "" then LastSegment(url, '/') else "receipt.pdf"
  }

  /** `receipt.pdfUrl.split("/").pop() || "Receipt"`: the name shown in the list. */
  function ListedName(url: string): string {
    if LastSegment(url, '/') != "" then LastSegment(url, '/') else "Receipt"
  }

  /**
   * Both names are the text after the last "/" when that is non-empty (it then ends
   * the URL and holds no "/"); a URL ending in "/" falls back to the two defaults.
   */
  lemma FileNamesSpec(url: string)
    ensures url != [] && url[|url| - 1] == '/' ==> DownloadName(url) == "receipt.pdf" && ListedName(url) == "Receipt"
    ensures DownloadName(url) != "receipt.pdf" ==> DownloadName(url) == ListedName(url)
    ensures DownloadName(url) != "receipt.pdf" ==>
      '/' !in DownloadName(url) && EndsWith(url, DownloadName(url))
    ensures '/' !in url && url != "" ==> DownloadName(url) == url && ListedName(url) == url
  {
    LastSegmentSpec(url, '/');
  }

  /** The status the badge is given, as written: `receipt.state || receipt.state || "PENDING"`. */
  function BadgeStatusAsWritten(r: Receipt): string {
    TextOr(r.state, TextOr(r.state, "PENDING"))
  }

  /** The status the badge is given: `state`, else `status`, else PENDING. */
  function BadgeStatus(r: Receipt): string {
    TextOr(r.state, TextOr(r.status, "PENDING"))
  }

  /** As written, `status` is never consulted: a receipt known only by its `status` shows as pending. */
  lemma BadgeStatusIgnoresStatus(r: Receipt, status: Option<string>)
    ensures BadgeStatusAsWritten(r) == BadgeStatusAsWritten(r.(status := status))
    ensures r.state.None? && status == Some("APPROVED") ==>
      BadgeStatusAsWritten(r.(status := status)) == "PENDING" && BadgeStatus(r.(status := status)) == "APPROVED"
  {
  }

  /**
   * The corrected fallback prefers a non-empty `state`, then a non-empty `status`,
   * and otherwise shows PENDING; whatever it picks from the three statuses renders a badge.
   */
  lemma BadgeStatusSpec(r: Receipt)
    ensures r.state.Some? && r.state.value != "" ==> BadgeStatus(r) == r.state.value
    ensures !(r.state.Some? && r.state.value != "") && r.status.Some? && r.status.value != "" ==>
      BadgeStatus(r) == r.status.value
    ensures BadgeStatus(r) == "PENDING" || BadgeStatus(r) == TextOr(r.state, "") || BadgeStatus(r) == TextOr(r.status, "")
    ensures BadgeStatus(r) in {"PENDING", "APPROVED", "REJECTED"} ==> StatusBadge.ConfigFor(BadgeStatus(r)).Some?
  {
    StatusBadge.StatusBadgeTable(BadgeStatus(r), BadgeStatus(r));
  }

  class Dashboard {
    var receipts: ReceiptsMap
    var loading: map<string, bool>
    var downloading: map<string, bool>

    constructor ()
      ensures receipts == map[] && loading == map[] && downloading == map[]
    {
      receipts := map[];
      loading := map[];
      downloading := map[];
    }

    /** `fetchReceipts(c)`: only category c's list and loading flag change. */
    method FetchReceipts(c: string, reply: Reply<seq<Receipt>>)
      modifies this
      ensures receipts == (if reply.Ok? then old(receipts)[c := reply.value] else old(receipts))
      ensures loading == old(loading)[c := false]
      ensures downloading == old(downloading)
    {
      loading := loading[c := true];
      if reply.Ok? {
        receipts := receipts[c := reply.value];
      }
      loading := loading[c := false];
    }

    /** `handleDownloadAll(c)`: the saved file's name on success; c's flag is cleared either way. */
    method DownloadAll(c: string, reply: Reply<()>) returns (saved: Option<string>)
      modifies this
      ensures saved == (if reply.Ok? then Some(ZipName(c)) else None)
      ensures downloading == old(downloading)[c := false]
      ensures receipts == old(receipts) && loading == old(loading)
    {
      downloading := downloading[c := true];
      saved := if reply.Ok? then Some(ZipName(c)) else None;
      downloading := downloading[c := false];
    }
  }
}
