/**
 * What the three dashboards share about receipts: the record, the per-category
 * store, the status counts, and the approve/reject decision of the action dialog.
 */
module Receipts {
  import opened Wrappers
  import opened Strings
  import Api

  /** A receipt as the backend lists it; `status` is a field the student view also reads. */
  datatype Receipt = Receipt(
    id: string,
    state: Option<string>,
    status: Option<string>,
    fileName: Option<string>,
    pdfUrl: Option<string>)

  /** Receipts by category key, as the dashboards keep them. */
  type ReceiptsMap = map<string, seq<Receipt>>

  /** `rs.filter(r => r.state === s).length`. */
  function CountState(rs: seq<Receipt>, s: string): (r: nat)
    ensures r <= |rs|
  {
    if rs == [] then 0
    else (if rs[0].state == Some(s) then 1 else 0) + CountState(rs[1..], s)
  }

  /** Counting distributes over concatenation. */
  lemma {:induction false} CountStateAppend(a: seq<Receipt>, b: seq<Receipt>, s: string)
    ensures CountState(a + b, s) == CountState(a, s) + CountState(b, s)
    decreases |a|
  {
    if a == [] {
      assert a + b == b;
    } else {
      assert (a + b)[1..] == a[1..] + b;
      CountStateAppend(a[1..], b, s);
    }
  }

  /** The three statuses together never count more receipts than there are; each receipt counts at most once. */
  lemma {:induction false} StatusesBounded(rs: seq<Receipt>)
    ensures CountState(rs, "PENDING") + CountState(rs, "APPROVED") + CountState(rs, "REJECTED") <= |rs|
    decreases |rs|
  {
    if rs != [] {
      StatusesBounded(rs[1..]);
    }
  }

  /** `getPendingCount(c)`: PENDING receipts in category c, 0 for a category not loaded. */
  function PendingCount(m: ReceiptsMap, c: string): (r: nat)
    ensures c !in m ==> r == 0
    ensures c in m ==> r <= |m[c]|
  {
    if c in m then CountState(m[c], "PENDING") else 0
  }

  /** `countByStatus(s)`: the per-category counts summed over every loaded category. */
  ghost function CountByStatus(m: ReceiptsMap, s: string): nat
    decreases |m.Keys|
  {
    if m == map[] then 0
    else
      var k :| k in m;
      assert |(m - {k}).Keys| < |m.Keys| by { assert (m - {k}).Keys == m.Keys - {k}; }
      CountState(m[k], s) + CountByStatus(m - {k}, s)
  }

  /** The number of receipts loaded, over every category. */
  ghost function TotalReceipts(m: ReceiptsMap): nat
    decreases |m.Keys|
  {
    if m == map[] then 0
    else
      var k :| k in m;
      assert |(m - {k}).Keys| < |m.Keys| by { assert (m - {k}).Keys == m.Keys - {k}; }
      |m[k]| + TotalReceipts(m - {k})
  }

  /** The sum does not depend on which category is taken first. */
  lemma {:induction false} CountByStatusPick(m: ReceiptsMap, k: string, s: string)
    requires k in m
    ensures CountByStatus(m, s) == CountState(m[k], s) + CountByStatus(m - {k}, s)
    decreases |m.Keys|
  {
    var j :| j in m && CountByStatus(m, s) == CountState(m[j], s) + CountByStatus(m - {j}, s);
    if j != k {
      assert (m - {j}).Keys == m.Keys - {j};
      assert (m - {k}).Keys == m.Keys - {k};
      CountByStatusPick(m - {j}, k, s);
      CountByStatusPick(m - {k}, j, s);
      assert (m - {j}) - {k} == (m - {k}) - {j};
    }
  }

  lemma {:induction false} TotalReceiptsPick(m: ReceiptsMap, k: string)
    requires k in m
    ensures TotalReceipts(m) == |m[k]| + TotalReceipts(m - {k})
    decreases |m.Keys|
  {
    var j :| j in m && TotalReceipts(m) == |m[j]| + TotalReceipts(m - {j});
    if j != k {
      assert (m - {j}).Keys == m.Keys - {j};
      assert (m - {k}).Keys == m.Keys - {k};
      TotalReceiptsPick(m - {j}, k);
      TotalReceiptsPick(m - {k}, j);
      assert (m - {j}) - {k} == (m - {k}) - {j};
    }
  }

  /**
   * A receipt whose state is missing or unknown counts toward no total, so the
   * three status totals add up to at most the number of receipts loaded.
   */
  lemma {:induction false} StatusTotalsBounded(m: ReceiptsMap)
    ensures CountByStatus(m, "PENDING") + CountByStatus(m, "APPROVED") + CountByStatus(m, "REJECTED")
      <= TotalReceipts(m)
    decreases |m.Keys|
  {
    if m != map[] {
      var k :| k in m;
      assert (m - {k}).Keys == m.Keys - {k};
      CountByStatusPick(m, k, "PENDING");
      CountByStatusPick(m, k, "APPROVED");
      CountByStatusPick(m, k, "REJECTED");
      TotalReceiptsPick(m, k);
      StatusesBounded(m[k]);
      StatusTotalsBounded(m - {k});
    }
  }

  /** Loading category c replaces exactly c's contribution to every status total. */
  lemma ReplaceCategoryTotals(m: ReceiptsMap, c: string, rs: seq<Receipt>, s: string)
    ensures CountByStatus(m[c := rs], s) == CountByStatus(m - {c}, s) + CountState(rs, s)
    ensures c in m ==> CountByStatus(m, s) == CountByStatus(m - {c}, s) + CountState(m[c], s)
  {
    CountByStatusPick(m[c := rs], c, s);
    assert m[c := rs] - {c} == m - {c};
    if c in m {
      CountByStatusPick(m, c, s);
    }
  }

  /** The action the dialog was opened for. */
  datatype Action = Approve | Reject

  datatype Selection = Selection(receiptId: string, category: string, action: Action)

  /**
   * The call `confirmAction` makes: none without a selection or when rejecting with
   * a blank reason; the reason goes out as typed, untrimmed.
   */
  function ConfirmCall(selection: Option<Selection>, reason: string): Option<Api.ReceiptCall> {
    match selection
    case None => None
    case Some(Selection(id, c, Approve)) => Some(Api.Approve(c, id))
    case Some(Selection(id, c, Reject)) => if IsBlank(reason) then None else Some(Api.Reject(c, id, reason))
  }

  /** The confirm decision in both directions: which call goes out, and when none does. */
  lemma ConfirmCallSpec(selection: Option<Selection>, reason: string)
    ensures ConfirmCall(selection, reason).None? <==>
      selection.None? || (selection.value.action == Reject && AllWhitespace(reason))
    ensures ConfirmCall(selection, reason).Some? ==>
      ConfirmCall(selection, reason).value.category == selection.value.category &&
      ConfirmCall(selection, reason).value.receiptId == selection.value.receiptId
    ensures ConfirmCall(selection, reason).Some? ==>
      (ConfirmCall(selection, reason).value.Reject? <==> selection.value.action == Reject)
    ensures ConfirmCall(selection, reason).Some? && ConfirmCall(selection, reason).value.Reject? ==>
      ConfirmCall(selection, reason).value.reason == reason && !AllWhitespace(reason)
  {
    BlankIffAllWhitespace(reason);
  }

  const ZipSuffix := "-receipts.zip"

  /** The name a category's bulk download is saved under, on the staff and the student dashboards. */
  function ZipName(c: string): string {
    c + ZipSuffix
  }

  /** The zip name starts with the category and ends with "-receipts.zip", so it names the category. */
  lemma ZipNameSpec(c1: string, c2: string)
    ensures StartsWith(ZipName(c1), c1) && EndsWith(ZipName(c1), ZipSuffix)
    ensures ZipName(c1) == ZipName(c2) ==> c1 == c2
  {
    if ZipName(c1) == ZipName(c2) {
      assert c1 == ZipName(c1)[..|ZipName(c1)| - |ZipSuffix|];
      assert c2 == ZipName(c2)[..|ZipName(c2)| - |ZipSuffix|];
    }
  }

  /** A receipt opened in the preview dialog. */
  datatype Preview = Preview(url: string, fileName: Option<string>, isPdf: bool)
}
