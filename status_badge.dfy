/** The receipt status badge (components/status-badge.tsx): a fixed table from status to look. */
module StatusBadge {
  import opened Wrappers
  import opened Strings

  datatype Variant = Default | Destructive | Secondary
  datatype Icon = Clock | CheckCircle2 | XCircle

  datatype BadgeConfig = BadgeConfig(variant: Variant, icon: Icon, text: string, className: Option<string>)

  const ApprovedClass := "bg-green-500/10 text-green-500 hover:bg-green-500/20"

  /** The table entry for a status; `None` (nothing rendered) for any value outside the three. */
  function ConfigFor(status: string): Option<BadgeConfig> {
    if status == "PENDING" then Some(BadgeConfig(Secondary, Clock, "Pending", None))
    else if status == "APPROVED" then Some(BadgeConfig(Default, CheckCircle2, "Approved", Some(ApprovedClass)))
    else if status == "REJECTED" then Some(BadgeConfig(Destructive, XCircle, "Rejected", None))
    else None
  }

  /** The badge text is the status name with only its first letter capitalised. */
  function Capitalized(s: string): string {
    if s == [] then [] else [s[0]] + Lower(s[1..])
  }

  /**
   * Only the three statuses render; each badge text is the capitalised status name;
   * only APPROVED carries its own class; different statuses look different.
   */
  lemma StatusBadgeTable(status: string, other: string)
    ensures ConfigFor(status).Some? <==> status in {"PENDING", "APPROVED", "REJECTED"}
    ensures ConfigFor(status).Some? ==> ConfigFor(status).value.text == Capitalized(status)
    ensures ConfigFor(status).Some? && ConfigFor(status).value.className.Some? <==> status == "APPROVED"
    ensures ConfigFor(status).Some? && ConfigFor(status) == ConfigFor(other) ==> status == other
  {
    CapitalizedPending();
    CapitalizedApproved();
    CapitalizedRejected();
  }

  /** The three badge texts are the capitalised status names. */
  lemma CapitalizedPending()
    ensures Capitalized("PENDING") == "Pending"
  {
    assert Lower("ENDING") == "ending";
  }

  lemma CapitalizedApproved()
    ensures Capitalized("APPROVED") == "Approved"
  {
    assert Lower("PPROVED") == "pproved";
  }

  lemma CapitalizedRejected()
    ensures Capitalized("REJECTED") == "Rejected"
  {
    assert Lower("EJECTED") == "ejected";
  }
}
