/**
 * What the invoice record form and the collection record form share: the
 * site and amount fields, the branch a multi-branch user starts from, the
 * digits-only amount input, the submit checks and the branch attached to
 * the saved payload. Each form passes its own messages.
 */
module RecordForm {
  import opened Wrappers
  import opened Text
  import opened Amounts
  import opened RecordRules

  /** `InvoiceRecordFormData` / `CollectionRecordFormData`: the date and
      amount are the invoice's or the collection's. */
  datatype FormData = FormData(
    date: string,
    cmsId: Option<int>,
    cmsCode: string,
    siteName: string,
    siteAddress: string,
    salesManager: string,
    constructionManager: string,
    amount: Option<nat>)

  /** `getInitialBranch`: `record` is `None` for a new record, else the
      edited record's `created_by` (`None` when it has none). A
      multi-branch user editing a record gets 인천 exactly when its author
      carries "(In)", and 본점 otherwise; everyone else starts from their
      own branch, 인천 when they have none. */
  function InitialBranch(name: string, userBranch: Option<string>, record: Option<Option<string>>): (b: string)
    ensures record.Some? && IsMultiBranch(name) ==>
      (b == Incheon <==> record.value.Some? && Contains(record.value.value, BranchSuffix))
    ensures record.Some? && IsMultiBranch(name) ==> b == Incheon || b == HeadOffice
    ensures !(record.Some? && IsMultiBranch(name)) ==>
      b == (if userBranch.Some? && userBranch.value != "" then userBranch.value else Incheon)
  {
    if record.Some? && IsMultiBranch(name) then
      if record.value.Some? && Contains(record.value.value, BranchSuffix) then Incheon else HeadOffice
    else if userBranch.Some? && userBranch.value != "" then userBranch.value
    else Incheon
  }

  /** The Incheon author name carries the suffix; the multi-branch users'
      own names do not. */
  lemma SuffixMarksIncheon(name: string)
    requires IsMultiBranch(name)
    ensures Contains(IncheonName(name), BranchSuffix)
    ensures !Contains(name, BranchSuffix)
  {
    assert OccursAt(IncheonName(name), BranchSuffix, |name|) by {
      assert IncheonName(name)[|name|..|name| + 4] == BranchSuffix;
    }
    assert |name| == 3;
  }

  /** A multi-branch user editing a record authored under `BranchAuthor`
      starts from the branch the record was written for. */
  lemma InitialBranchOfAuthor(name: string, userBranch: Option<string>, branch: string)
    requires IsMultiBranch(name) && (branch == Incheon || branch == HeadOffice)
    ensures InitialBranch(name, userBranch, Some(Some(BranchAuthor(name, Str(branch))))) == branch
  {
    SuffixMarksIncheon(name);
  }

  /** `handleSiteSelect`: the six site fields; the date and amount kept. */
  function SelectSite(f: FormData, site: Site): (r: FormData)
    ensures r.cmsId == Some(site.id) && r.cmsCode == site.cms && r.siteName == site.siteName
    ensures r.siteAddress == site.siteAddress && r.salesManager == site.salesManager
    ensures r.constructionManager == site.constructionManager
    ensures r.date == f.date && r.amount == f.amount
  {
    f.(cmsId := Some(site.id), cmsCode := site.cms, siteName := site.siteName, siteAddress := site.siteAddress,
       salesManager := site.salesManager, constructionManager := site.constructionManager)
  }

  /** The amount input: the number formed by the input's digits, or
      undefined when there are none. */
  function AmountChange(f: FormData, input: string): (r: FormData)
    ensures r.amount.None? <==> forall i :: 0 <= i < |input| ==> !IsDigit(input[i])
    ensures r.amount.Some? ==> r.amount.value == ValueOf(Digits(input))
    ensures r == f.(amount := r.amount)
  {
    f.(amount := DigitsAmount(input))
  }

  /** Typing into the grouped display of an amount keeps the amount. */
  lemma AmountChangeOfDisplay(f: FormData, n: nat)
    ensures AmountChange(f, FormatAmount(n)).amount == Some(n)
  {
    DigitsOfFormattedAmount(n);
  }

  const SiteMissing := "현장을 선택해주세요."

  predicate HasPositiveAmount(f: FormData) { f.amount.Some? && f.amount.value > 0 }

  /** `handleSubmit`'s checks in order: a date, then both a code and a
      site name, then an amount above zero. */
  function Validate(f: FormData, dateMissing: string, amountMissing: string): (r: Result<FormData, string>)
    ensures f.date == "" ==> r == Err(dateMissing)
    ensures f.date != "" && (f.cmsCode == "" || f.siteName == "") ==> r == Err(SiteMissing)
    ensures f.date != "" && f.cmsCode != "" && f.siteName != "" && !HasPositiveAmount(f) ==> r == Err(amountMissing)
    ensures r.Ok? <==> f.date != "" && f.cmsCode != "" && f.siteName != "" && HasPositiveAmount(f)
    ensures r.Ok? ==> r.value == f
  {
    if f.date == "" then Err(dateMissing)
    else if f.cmsCode == "" || f.siteName == "" then Err(SiteMissing)
    else if !HasPositiveAmount(f) then Err(amountMissing)
    else Ok(f)
  }

  /** A dated form with a coded, named site and a typed amount with a
      non-zero digit goes through. */
  lemma SiteAndAmountValidate(f: FormData, site: Site, input: string, dateMissing: string, amountMissing: string)
    requires f.date != "" && site.cms != "" && site.siteName != ""
    requires ValueOf(Digits(input)) > 0
    ensures Validate(AmountChange(SelectSite(f, site), input), dateMissing, amountMissing).Ok?
  {
    DigitsEmptyIffNoDigit(input);
  }

  /** The payload handed to `onSave`: the form, with `branch` only for a
      multi-branch user. */
  datatype Payload = Payload(form: FormData, branch: Option<string>)

  function PayloadOf(f: FormData, name: string, selectedBranch: string): (p: Payload)
    ensures p.form == f
    ensures p.branch.Some? <==> IsMultiBranch(name)
    ensures p.branch.Some? ==> p.branch.value == selectedBranch
  {
    Payload(f, if IsMultiBranch(name) then Some(selectedBranch) else None)
  }
}
