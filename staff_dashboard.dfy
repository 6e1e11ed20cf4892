/** The staff dashboard (app/staff/dashboard/page.tsx): receipts by category, review dialog, bulk download, preview. */
module StaffDashboard {
  import opened Wrappers
  import opened Strings
  import opened Receipts
  import Api

  /** The preview shows a PDF when the lower-cased URL ends in ".pdf" or mentions "application/pdf". */
  predicate LooksLikePdf(url: string) {
    EndsWith(Lower(url), ".pdf") || Contains(Lower(url), "application/pdf")
  }

  /** What a click on "preview" opens: the URL as stored, never rewritten; nothing without a URL. */
  function PreviewOf(r: Receipt): (p: Option<Preview>)
    ensures p.Some? <==> r.pdfUrl.Some? && r.pdfUrl.value != ""
    ensures p.Some? ==> p.value.url == r.pdfUrl.value && p.value.fileName == r.fileName
    ensures p.Some? ==> (p.value.isPdf <==> LooksLikePdf(r.pdfUrl.value))
  {
    if r.pdfUrl.None? || r.pdfUrl.value == "" then None
    else Some(Preview(r.pdfUrl.value, r.fileName, LooksLikePdf(r.pdfUrl.value)))
  }

  class Dashboard {
    var receipts: ReceiptsMap
    var loading: map<string, bool>
    var downloadLoading: map<string, bool>
    var actionLoading: Option<string>
    var dialogOpen: bool
    var selection: Option<Selection>
    var rejectReason: string
    var viewing: Option<Preview>
    var previewOpen: bool

    constructor ()
      ensures receipts == map[] && loading == map[] && downloadLoading == map[]
      ensures actionLoading.None? && !dialogOpen && selection.None? && rejectReason == ""
      ensures viewing.None? && !previewOpen
    {
      receipts := map[];
      loading := map[];
      downloadLoading := map[];
      actionLoading := None;
      dialogOpen := false;
      selection := None;
      rejectReason := "";
      viewing := None;
      previewOpen := false;
    }

    /** `fetchReceipts(c)`: only category c's list and loading flag change. */
    method FetchReceipts(c: string, reply: Reply<seq<Receipt>>)
      modifies this
      ensures receipts == (if reply.Ok? then old(receipts)[c := reply.value] else old(receipts))
      ensures loading == old(loading)[c := false]
      ensures downloadLoading == old(downloadLoading)
      ensures actionLoading == old(actionLoading) && dialogOpen == old(dialogOpen)
      ensures selection == old(selection) && rejectReason == old(rejectReason)
      ensures viewing == old(viewing) && previewOpen == old(previewOpen)
    {
      loading := loading[c := true];
      if reply.Ok? {
        receipts := receipts[c := reply.value];
      }
      loading := loading[c := false];
    }

    /** `handleDownloadAll(c)`: the saved file's name on success; c's flag is cleared either way. */
    method DownloadAll(c: string, reply: Reply<()>) returns (saved: Option<string>)
      modifies this
      ensures saved == (if reply.Ok? then Some(ZipName(c)) else None)
      ensures downloadLoading == old(downloadLoading)[c := false]
      ensures receipts == old(receipts) && loading == old(loading)
      ensures actionLoading == old(actionLoading) && dialogOpen == old(dialogOpen)
      ensures selection == old(selection) && rejectReason == old(rejectReason)
      ensures viewing == old(viewing) && previewOpen == old(previewOpen)
    {
      downloadLoading := downloadLoading[c := true];
      saved := if reply.Ok? then Some(ZipName(c)) else None;
      downloadLoading := downloadLoading[c := false];
    }

    /** `handleAction`: opens the dialog for one receipt with an empty reason. */
    method HandleAction(receiptId: string, c: string, action: Action)
      modifies this
      ensures selection == Some(Selection(receiptId, c, action)) && rejectReason == "" && dialogOpen
      ensures receipts == old(receipts) && loading == old(loading) && downloadLoading == old(downloadLoading)
      ensures actionLoading == old(actionLoading)
      ensures viewing == old(viewing) && previewOpen == old(previewOpen)
    {
      selection := Some(Selection(receiptId, c, action));
      rejectReason := "";
      dialogOpen := true;
    }

    method SetRejectReason(reason: string)
      modifies this
      ensures rejectReason == reason
      ensures receipts == old(receipts) && loading == old(loading) && downloadLoading == old(downloadLoading)
      ensures actionLoading == old(actionLoading) && dialogOpen == old(dialogOpen)
      ensures selection == old(selection)
      ensures viewing == old(viewing) && previewOpen == old(previewOpen)
    {
      rejectReason := reason;
    }

    /**
     * `confirmAction`: makes `ConfirmCall`'s call; after a successful call only the
     * acted-on category is refetched. Whenever there was a selection, the dialog
     * ends closed and cleared.
     */
    method ConfirmAction(actionReply: Reply<()>, refetch: Reply<seq<Receipt>>)
      returns (call: Option<Api.ReceiptCall>)
      modifies this
      ensures call == ConfirmCall(old(selection), old(rejectReason))
      ensures old(selection).None? ==>
        receipts == old(receipts) && loading == old(loading)
        && actionLoading == old(actionLoading) && dialogOpen == old(dialogOpen)
        && selection == old(selection) && rejectReason == old(rejectReason)
      ensures old(selection).Some? ==>
        actionLoading.None? && !dialogOpen && selection.None? && rejectReason == ""
      ensures (call.Some? && actionReply.Ok?) ==>
        (receipts == (if refetch.Ok? then old(receipts)[call.value.category := refetch.value] else old(receipts))
         && loading == old(loading)[call.value.category := false])
      ensures !(call.Some? && actionReply.Ok?) ==> receipts == old(receipts) && loading == old(loading)
      ensures downloadLoading == old(downloadLoading)
      ensures viewing == old(viewing) && previewOpen == old(previewOpen)
    {
      call := ConfirmCall(selection, rejectReason);
      if selection.None? {
        return;
      }
      actionLoading := Some(selection.value.receiptId);
      if call.Some? && actionReply.Ok? {
        FetchReceipts(call.value.category, refetch);
      }
      FinishAction();
    }

    /** The `finally` of `confirmAction`: no receipt busy, the dialog closed and cleared. */
    method FinishAction()
      modifies this
      ensures actionLoading.None? && !dialogOpen && selection.None? && rejectReason == ""
      ensures receipts == old(receipts) && loading == old(loading) && downloadLoading == old(downloadLoading)
      ensures viewing == old(viewing) && previewOpen == old(previewOpen)
    {
      actionLoading := None;
      dialogOpen := false;
      selection := None;
      rejectReason := "";
    }

    method HandlePreview(r: Receipt) returns (shown: bool)
      modifies this
      ensures shown <==> PreviewOf(r).Some?
      ensures shown ==> viewing == PreviewOf(r) && previewOpen
      ensures !shown ==> viewing == old(viewing) && previewOpen == old(previewOpen)
      ensures receipts == old(receipts) && loading == old(loading) && downloadLoading == old(downloadLoading)
      ensures actionLoading == old(actionLoading) && dialogOpen == old(dialogOpen)
      ensures selection == old(selection) && rejectReason == old(rejectReason)
    {
      var p := PreviewOf(r);
      shown := p.Some?;
      if shown {
        viewing := p;
        previewOpen := true;
      }
    }

    method ClosePreview()
      modifies this
      ensures viewing.None? && !previewOpen
      ensures receipts == old(receipts) && loading == old(loading) && downloadLoading == old(downloadLoading)
      ensures actionLoading == old(actionLoading) && dialogOpen == old(dialogOpen)
      ensures selection == old(selection) && rejectReason == old(rejectReason)
    {
      viewing := None;
      previewOpen := false;
    }
  }
}
