/** The admin dashboard (app/admin/dashboard/page.tsx): analytics cards, receipts by category, review dialog, preview. */
module AdminDashboard {
  import opened Wrappers
  import opened JsonValue
  import opened Strings
  import opened Receipts
  import Api

  /**
   * `parseCount(data)`: 0 for a falsy value, a number as it is, otherwise the first of
   * `count`, `receiptCount`, `total` that is neither null nor undefined, else 0.
   */
  function ParseCount(data: JsValue): JsValue {
    if !Truthy(data) then Num(0)
    else if data.Num? then data
    else Coalesce(Coalesce(Coalesce(Get(data, "count"), Get(data, "receiptCount")), Get(data, "total")), Some(Num(0))).value
  }

  lemma ParseCountSpec(data: JsValue)
    ensures !Truthy(data) ==> ParseCount(data) == Num(0)
    ensures data.Num? ==> ParseCount(data) == data
    ensures data.Obj? && Present(Get(data, "count")) ==> ParseCount(data) == data.fields["count"]
    ensures data.Obj? && !Present(Get(data, "count")) && Present(Get(data, "receiptCount")) ==>
      ParseCount(data) == data.fields["receiptCount"]
    ensures (data.Obj? && !Present(Get(data, "count")) && !Present(Get(data, "receiptCount"))
      && Present(Get(data, "total"))) ==> ParseCount(data) == data.fields["total"]
    ensures (data.Obj? && !Present(Get(data, "count")) && !Present(Get(data, "receiptCount"))
      && !Present(Get(data, "total"))) ==> ParseCount(data) == Num(0)
    ensures !data.Num? && !data.Obj? ==> ParseCount(data) == Num(0)
    ensures !ParseCount(data).Null?
  {
  }

  /** The four analytics cards. */
  datatype Stats = Stats(approvedCount: JsValue, uploadsThisMonth: JsValue, approvedThisWeek: JsValue, newStudents: JsValue)

  /** The bodies of the four analytics calls, in the order they are requested. */
  datatype AnalyticsBodies = AnalyticsBodies(approved: JsValue, uploads: JsValue, weekly: JsValue, students: JsValue)

  function StatsFrom(b: AnalyticsBodies): Stats {
    Stats(ParseCount(b.approved), ParseCount(b.uploads), ParseCount(b.weekly), ParseCount(b.students))
  }

  const UploadSegment := "/upload/"
  const InlineUploadSegment := "/upload/fl_attachment:false/"

  /** The preview URL: the first "/upload/" gains the inline-display flag. */
  function PreviewUrl(url: string): string {
    if Contains(url, UploadSegment) then ReplaceFirst(url, UploadSegment, InlineUploadSegment) else url
  }

  /**
   * A URL without "/upload/" is left alone; otherwise only its first occurrence is
   * rewritten, with the text before and after it kept.
   */
  lemma PreviewUrlSpec(url: string)
    ensures !Contains(url, UploadSegment) ==> PreviewUrl(url) == url
    ensures Contains(url, UploadSegment) ==>
      var i := IndexOf(url, UploadSegment).value;
      PreviewUrl(url) == url[..i] + InlineUploadSegment + url[i + |UploadSegment|..] &&
      (forall j: nat :: j < i ==> !OccursAt(url, UploadSegment, j))
  {
  }

  /** What a click on "preview" opens; nothing without a (non-empty) file URL. */
  function PreviewOf(r: Receipt): (p: Option<Preview>)
    ensures p.Some? <==> r.pdfUrl.Some? && r.pdfUrl.value != ""
    ensures p.Some? ==> p.value.url == PreviewUrl(r.pdfUrl.value) && p.value.fileName == r.fileName
    ensures p.Some? ==> (p.value.isPdf <==> EndsWith(Lower(p.value.url), ".pdf"))
  {
    if r.pdfUrl.None? || r.pdfUrl.value == "" then None
    else
      var url := PreviewUrl(r.pdfUrl.value);
      Some(Preview(url, r.fileName, EndsWith(Lower(url), ".pdf")))
  }

  class Dashboard {
    var receiptsMap: ReceiptsMap
    var loadingReceipts: map<string, bool>
    var stats: Stats
    var loadingAnalytics: bool
    var actionLoadingId: Option<string>
    var dialogOpen: bool
    var selection: Option<Selection>
    var rejectReason: string
    var viewing: Option<Preview>
    var previewOpen: bool

    constructor ()
      ensures receiptsMap == map[] && loadingReceipts == map[]
      ensures stats == Stats(Num(0), Num(0), Num(0), Num(0)) && loadingAnalytics
      ensures actionLoadingId.None? && !dialogOpen && selection.None? && rejectReason == ""
      ensures viewing.None? && !previewOpen
    {
      receiptsMap := map[];
      loadingReceipts := map[];
      stats := Stats(Num(0), Num(0), Num(0), Num(0));
      loadingAnalytics := true;
      actionLoadingId := None;
      dialogOpen := false;
      selection := None;
      rejectReason := "";
      viewing := None;
      previewOpen := false;
    }

    /** `fetchReceipts(c)`: only category c's list and loading flag change. */
    method FetchReceipts(c: string, reply: Reply<seq<Receipt>>)
      modifies this
      ensures receiptsMap == (if reply.Ok? then old(receiptsMap)[c := reply.value] else old(receiptsMap))
      ensures loadingReceipts == old(loadingReceipts)[c := false]
      ensures stats == old(stats) && loadingAnalytics == old(loadingAnalytics)
      ensures actionLoadingId == old(actionLoadingId) && dialogOpen == old(dialogOpen)
      ensures selection == old(selection) && rejectReason == old(rejectReason)
      ensures viewing == old(viewing) && previewOpen == old(previewOpen)
    {
      loadingReceipts := loadingReceipts[c := true];
      if reply.Ok? {
        receiptsMap := receiptsMap[c := reply.value];
      }
      loadingReceipts := loadingReceipts[c := false];
    }

    /** The analytics effect: all four cards together, or none when any call fails. */
    method FetchAnalytics(reply: Reply<AnalyticsBodies>)
      modifies this
      ensures stats == (if reply.Ok? then StatsFrom(reply.value) else old(stats))
      ensures !loadingAnalytics
      ensures receiptsMap == old(receiptsMap) && loadingReceipts == old(loadingReceipts)
      ensures actionLoadingId == old(actionLoadingId) && dialogOpen == old(dialogOpen)
      ensures selection == old(selection) && rejectReason == old(rejectReason)
      ensures viewing == old(viewing) && previewOpen == old(previewOpen)
    {
      loadingAnalytics := true;
      if reply.Ok? {
        stats := StatsFrom(reply.value);
      }
      loadingAnalytics := false;
    }

    method OpenActionDialog(receiptId: string, c: string, action: Action)
      modifies this
      ensures selection == Some(Selection(receiptId, c, action)) && rejectReason == "" && dialogOpen
      ensures receiptsMap == old(receiptsMap) && loadingReceipts == old(loadingReceipts)
      ensures stats == old(stats) && loadingAnalytics == old(loadingAnalytics)
      ensures actionLoadingId == old(actionLoadingId)
      ensures viewing == old(viewing) && previewOpen == old(previewOpen)
    {
      selection := Some(Selection(receiptId, c, action));
      rejectReason := "";
      dialogOpen := true;
    }

    /** Typing in the reason box. */
    method SetRejectReason(reason: string)
      modifies this
      ensures rejectReason == reason
      ensures receiptsMap == old(receiptsMap) && loadingReceipts == old(loadingReceipts)
      ensures stats == old(stats) && loadingAnalytics == old(loadingAnalytics)
      ensures actionLoadingId == old(actionLoadingId) && dialogOpen == old(dialogOpen)
      ensures selection == old(selection)
      ensures viewing == old(viewing) && previewOpen == old(previewOpen)
    {
      rejectReason := reason;
    }

    /**
     * `confirmAction`: makes `ConfirmCall`'s call; after a successful call the acted-on
     * category is refetched and the analytics reloaded (their failure is swallowed).
     * Whenever there was a selection, the dialog ends closed and cleared.
     */
    method ConfirmAction(actionReply: Reply<()>, refetch: Reply<seq<Receipt>>, analytics: Reply<AnalyticsBodies>)
      returns (call: Option<Api.ReceiptCall>)
      modifies this
      ensures call == ConfirmCall(old(selection), old(rejectReason))
      ensures old(selection).None? ==>
        receiptsMap == old(receiptsMap) && loadingReceipts == old(loadingReceipts) && stats == old(stats)
        && actionLoadingId == old(actionLoadingId) && dialogOpen == old(dialogOpen)
        && selection == old(selection) && rejectReason == old(rejectReason)
      ensures old(selection).Some? ==>
        actionLoadingId.None? && !dialogOpen && selection.None? && rejectReason == ""
      ensures (call.Some? && actionReply.Ok?) ==>
        (receiptsMap == (if refetch.Ok? then old(receiptsMap)[call.value.category := refetch.value] else old(receiptsMap))
         && loadingReceipts == old(loadingReceipts)[call.value.category := false]
         && stats == (if analytics.Ok? then StatsFrom(analytics.value) else old(stats)))
      ensures !(call.Some? && actionReply.Ok?) ==>
        receiptsMap == old(receiptsMap) && loadingReceipts == old(loadingReceipts) && stats == old(stats)
      ensures loadingAnalytics == old(loadingAnalytics)
      ensures viewing == old(viewing) && previewOpen == old(previewOpen)
    {
      call := ConfirmCall(selection, rejectReason);
      if selection.None? {
        return;
      }
      actionLoadingId := Some(selection.value.receiptId);
      if call.Some? && actionReply.Ok? {
        Refresh(call.value.category, refetch, analytics);
      }
      FinishAction();
    }

    /** After a successful action: category c refetched and the analytics reloaded, a failure of either swallowed. */
    method Refresh(c: string, refetch: Reply<seq<Receipt>>, analytics: Reply<AnalyticsBodies>)
      modifies this
      ensures receiptsMap == (if refetch.Ok? then old(receiptsMap)[c := refetch.value] else old(receiptsMap))
      ensures loadingReceipts == old(loadingReceipts)[c := false]
      ensures stats == (if analytics.Ok? then StatsFrom(analytics.value) else old(stats))
      ensures loadingAnalytics == old(loadingAnalytics)
      ensures actionLoadingId == old(actionLoadingId) && dialogOpen == old(dialogOpen)
      ensures selection == old(selection) && rejectReason == old(rejectReason)
      ensures viewing == old(viewing) && previewOpen == old(previewOpen)
    {
      FetchReceipts(c, refetch);
      if analytics.Ok? {
        stats := StatsFrom(analytics.value);
      }
    }

    /** The `finally` of `confirmAction`: no receipt busy, the dialog closed and cleared. */
    method FinishAction()
      modifies this
      ensures actionLoadingId.None? && !dialogOpen && selection.None? && rejectReason == ""
      ensures receiptsMap == old(receiptsMap) && loadingReceipts == old(loadingReceipts)
      ensures stats == old(stats) && loadingAnalytics == old(loadingAnalytics)
      ensures viewing == old(viewing) && previewOpen == old(previewOpen)
    {
      actionLoadingId := None;
      dialogOpen := false;
      selection := None;
      rejectReason := "";
    }

    /** `handlePreview`: opens the preview when the receipt has a file URL; reports whether it did. */
    method HandlePreview(r: Receipt) returns (shown: bool)
      modifies this
      ensures shown <==> PreviewOf(r).Some?
      ensures shown ==> viewing == PreviewOf(r) && previewOpen
      ensures !shown ==> viewing == old(viewing) && previewOpen == old(previewOpen)
      ensures receiptsMap == old(receiptsMap) && loadingReceipts == old(loadingReceipts)
      ensures stats == old(stats) && loadingAnalytics == old(loadingAnalytics)
      ensures actionLoadingId == old(actionLoadingId) && dialogOpen == old(dialogOpen)
      ensures selection == old(selection) && rejectReason == old(rejectReason)
    {
      var p := PreviewOf(r);
      shown := p.Some?;
      if shown {
        viewing := p;
        previewOpen := true;
      }
    }

    method ClosePreview()
      modifies this
      ensures viewing.None? && !previewOpen
      ensures receiptsMap == old(receiptsMap) && loadingReceipts == old(loadingReceipts)
      ensures stats == old(stats) && loadingAnalytics == old(loadingAnalytics)
      ensures actionLoadingId == old(actionLoadingId) && dialogOpen == old(dialogOpen)
      ensures selection == old(selection) && rejectReason == old(rejectReason)
    {
      viewing := None;
      previewOpen := false;
    }
  }
}
