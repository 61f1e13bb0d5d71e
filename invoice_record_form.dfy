/**
 * The invoice record form: the shared record form, the sales and
 * purchase amounts shown once a site is chosen, and the form's messages.
 */
module InvoiceRecordForm {
  import opened Wrappers
  import opened Amounts
  import opened RecordRules
  import opened RecordForm
  import InvoiceRecords

  const DateMissing := "계산서 발행일을 입력해주세요."
  const AmountMissing := "계산서 금액을 입력해주세요."

  /** `handleSubmit`'s checks with the invoice form's messages. */
  function ValidateInvoice(f: FormData): (r: Result<FormData, string>)
    ensures f.date == "" ==> r == Err(DateMissing)
    ensures f.date != "" && (f.cmsCode == "" || f.siteName == "") ==> r == Err(SiteMissing)
    ensures f.date != "" && f.cmsCode != "" && f.siteName != "" && !HasPositiveAmount(f) ==> r == Err(AmountMissing)
    ensures r.Ok? <==> f.date != "" && f.cmsCode != "" && f.siteName != "" && HasPositiveAmount(f)
  {
    Validate(f, DateMissing, AmountMissing)
  }

  /** The amounts shown after a site is chosen. `summary` is the site
      summary the server returned for the site's code (`None` for no data
      or a failed request). A site without a code leaves them as they were. */
  function FinancialsAfterSelect(current: SiteFinancials, site: Site, summary: Option<SiteSummaryRow>): (f: SiteFinancials)
    ensures site.cms == "" ==> f == current
    ensures site.cms != "" && summary.None? ==> f == NoSummary
    ensures site.cms != "" && summary.Some? ==>
      f.profitDifference == ParseAmountString(summary.value.salesAmount) - ParseAmountString(summary.value.purchaseAmount)
    ensures site.cms != "" ==> (f.isOverInvested <==> f.profitDifference < 0)
  {
    if site.cms == "" then current
    else match summary
      case None => NoSummary
      case Some(row) => FinancialsOf(row.salesAmount, row.purchaseAmount)
  }

  /** What the form shows for a coded site is what the server stores with
      an invoice for that code: both read the same site summary. */
  lemma PreviewMatchesStored(current: SiteFinancials, site: Site, table: Option<seq<SiteSummaryRow>>)
    requires site.cms != ""
    ensures FinancialsAfterSelect(current, site, InvoiceRecords.SiteSummary(table, site.cms))
         == InvoiceRecords.FinancialsFor(Str(site.cms), table)
  {
  }

  /** The invoice server writes `created_by` as the plain user name, so a
      multi-branch user reopening an invoice always starts from 본점,
      whichever branch was sent when it was saved. */
  lemma EditedInvoiceStartsAtHeadOffice(name: string, userBranch: Option<string>)
    requires IsMultiBranch(name)
    ensures InitialBranch(name, userBranch, Some(Some(name))) == HeadOffice
  {
    SuffixMarksIncheon(name);
  }
}
