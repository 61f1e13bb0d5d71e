/**
 * The invoice records module: the site-summary lookup that fills an
 * invoice's sales and purchase amounts, the rows written by create and
 * update, the permission check of update and delete, and the list query's
 * date range and pagination.
 */
module InvoiceRecords {
  import opened Wrappers
  import opened Amounts
  import opened RecordRules
  import opened MonthRanges

  /** The site_summary rows with code `code`, in table order. */
  function RowsWithCode(table: seq<SiteSummaryRow>, code: string): (rs: seq<SiteSummaryRow>)
    ensures |rs| <= |table|
    ensures forall r :: r in rs <==> r in table && r.cms == Some(code)
    decreases |table|
  {
    if table == [] then []
    else
      var front := RowsWithCode(table[..|table| - 1], code);
      var x := table[|table| - 1];
      assert table == table[..|table| - 1] + [x];
      if x.cms == Some(code) then front + [x] else front
  }

  /** `getSiteSummary(code)` over what the site_summary query returned
      (`None` when it failed): `.single()` yields the row when exactly one
      row has the code, and no row or several rows come back as no data. */
  function SiteSummary(table: Option<seq<SiteSummaryRow>>, code: string): (r: Option<SiteSummaryRow>)
    ensures r.Some? <==> table.Some? && |RowsWithCode(table.value, code)| == 1
    ensures r.Some? ==> r.value in table.value && r.value.cms == Some(code)
  {
    if table.Some? && |RowsWithCode(table.value, code)| == 1 then
      var row := RowsWithCode(table.value, code)[0];
      assert row in RowsWithCode(table.value, code);
      Some(row)
    else None
  }

  /** The summary looked up for a payload: only a truthy `cms_code` is looked up. */
  function SummaryOfPayload(code: Value, table: Option<seq<SiteSummaryRow>>): (r: Option<SiteSummaryRow>)
    ensures r.Some? ==> Truthy(code) && r.value.cms == TextOf(code)
    ensures !Truthy(code) ==> r.None?
  {
    if Truthy(code) && TextOf(code).Some? then SiteSummary(table, TextOf(code).value) else None
  }

  /** The amounts stored with an invoice: the summary's amounts with their
      parsed difference when a summary exists, the no-summary values
      otherwise; the flag always says whether the difference is negative. */
  function FinancialsFor(code: Value, table: Option<seq<SiteSummaryRow>>): (f: SiteFinancials)
    ensures f.isOverInvested <==> f.profitDifference < 0
    ensures SummaryOfPayload(code, table).None? ==> f == NoSummary
    ensures SummaryOfPayload(code, table).Some? ==>
      var row := SummaryOfPayload(code, table).value;
      f.profitDifference == ParseAmountString(row.salesAmount) - ParseAmountString(row.purchaseAmount)
  {
    match SummaryOfPayload(code, table)
    case None => NoSummary
    case Some(row) => FinancialsOf(row.salesAmount, row.purchaseAmount)
  }

  /** The four locals that start at '0', '0', 0 and false and are
      overwritten when the payload's summary is found. */
  method LookUpFinancials(code: Value, table: Option<seq<SiteSummaryRow>>) returns (f: SiteFinancials)
    ensures f == FinancialsFor(code, table)
  {
    var salesAmount := "0";
    var purchaseAmount := "0";
    var profitDifference := 0;
    var isOverInvested := false;
    if Truthy(code) && TextOf(code).Some? {
      var summary := SiteSummary(table, TextOf(code).value);
      if summary.Some? {
        salesAmount := OrZeroText(summary.value.salesAmount);
        purchaseAmount := OrZeroText(summary.value.purchaseAmount);
        var salesNum := ParseAmountString(Some(salesAmount));
        var purchaseNum := ParseAmountString(Some(purchaseAmount));
        profitDifference := salesNum - purchaseNum;
        isOverInvested := profitDifference < 0;
      }
    }
    f := SiteFinancials(salesAmount, purchaseAmount, profitDifference, isOverInvested);
  }

  /** The columns both `insert` and `update` write, less the author columns. */
  datatype InvoiceRow = InvoiceRow(
    cmsId: Value,
    cmsCode: Value,
    siteName: Value,
    siteAddress: Value,
    salesManager: Value,
    constructionManager: Value,
    salesAmount: string,
    purchaseAmount: string,
    profitDifference: int,
    isOverInvested: bool,
    invoiceDate: Value,
    invoiceAmount: Value)

  /** An inserted row carries the caller's id and `created_by`. */
  datatype InvoiceInsert = InvoiceInsert(userId: string, row: InvoiceRow, createdBy: string)

  /** An update writes `updated_by` and leaves `user_id` and `created_by` alone. */
  datatype InvoiceUpdate = InvoiceUpdate(row: InvoiceRow, updatedBy: string)

  /** The row holds the payload's copied fields. */
  predicate CopiesPayload(row: InvoiceRow, data: Record) {
    && row.cmsCode == Get(data, "cms_code")
    && row.siteName == Get(data, "site_name")
    && row.siteAddress == Get(data, "site_address")
    && row.salesManager == Get(data, "sales_manager")
    && row.constructionManager == Get(data, "construction_manager")
    && row.invoiceDate == Get(data, "invoice_date")
    && row.invoiceAmount == Get(data, "invoice_amount")
  }

  /** The row's amounts are the financials `f`. */
  predicate HoldsFinancials(row: InvoiceRow, f: SiteFinancials) {
    SiteFinancials(row.salesAmount, row.purchaseAmount, row.profitDifference, row.isOverInvested) == f
  }

  /** The row written for a resolved payload and its financials. */
  function RowOf(data: Record, f: SiteFinancials): (row: InvoiceRow)
    ensures CopiesPayload(row, data) && HoldsFinancials(row, f) && row.cmsId == Get(data, "cms_id")
  {
    InvoiceRow(Get(data, "cms_id"), Get(data, "cms_code"), Get(data, "site_name"), Get(data, "site_address"),
               Get(data, "sales_manager"), Get(data, "construction_manager"),
               f.salesAmount, f.purchaseAmount, f.profitDifference, f.isOverInvested,
               Get(data, "invoice_date"), Get(data, "invoice_amount"))
  }

  /** What create and update both store for a payload: its resolved site,
      its copied fields, and the financials of its summary. */
  predicate StoredFor(row: InvoiceRow, data: Record, sites: seq<Site>, table: Option<seq<SiteSummaryRow>>) {
    && row.cmsId == ResolvedCmsId(data, sites)
    && CopiesPayload(row, data)
    && HoldsFinancials(row, FinancialsFor(Get(data, "cms_code"), table))
  }

  /** A stored row is flagged over-invested exactly when its difference is
      negative, and without a summary it holds '0', '0', 0 and false. */
  lemma StoredRowFinancials(row: InvoiceRow, data: Record, sites: seq<Site>, table: Option<seq<SiteSummaryRow>>)
    requires StoredFor(row, data, sites, table)
    ensures row.isOverInvested <==> row.profitDifference < 0
    ensures SummaryOfPayload(Get(data, "cms_code"), table).None? ==>
      row.salesAmount == "0" && row.purchaseAmount == "0" && row.profitDifference == 0 && !row.isOverInvested
    ensures Truthy(row.cmsId) ==> Exists(sites, row.cmsId)
  {
    var f := FinancialsFor(Get(data, "cms_code"), table);
    assert row.isOverInvested == f.isOverInvested && row.profitDifference == f.profitDifference;
  }

  /** The resolution and the summary lookup shared by create and update. */
  method PrepareRow(data: Record, sites: seq<Site>, table: Option<seq<SiteSummaryRow>>) returns (row: InvoiceRow)
    ensures StoredFor(row, data, sites, table)
  {
    var resolved := ResolveCmsId(data, sites);
    var f := LookUpFinancials(Get(resolved, "cms_code"), table);
    row := RowOf(resolved, f);
    assert Get(resolved, "cms_code") == Get(data, "cms_code");
  }

  /** `createInvoiceRecord`: the row inserted for a payload, given the
      construction_management sites and what the site_summary query
      returned. */
  method CreateInvoiceRecord(data: Record, userId: string, userName: string, sites: seq<Site>,
                             table: Option<seq<SiteSummaryRow>>) returns (ins: InvoiceInsert)
    ensures ins.userId == userId && ins.createdBy == userName
    ensures StoredFor(ins.row, data, sites, table)
  {
    var row := PrepareRow(data, sites, table);
    ins := InvoiceInsert(userId, row, userName);
  }

  /** `updateInvoiceRecord`: `owner` is the user_id of the record with that
      id (`None` when the lookup failed). An admin or the owner gets the
      row written, with `updated_by`; anyone else gets the refusal, before
      any site lookup. */
  method UpdateInvoiceRecord(owner: Option<string>, data: Record, userId: string, userName: string, role: string,
                             sites: seq<Site>, table: Option<seq<SiteSummaryRow>>) returns (r: Result<InvoiceUpdate, Refusal>)
    ensures r.Ok? <==> owner.Some? && AdminOrOwner(role, owner.value, userId)
    ensures owner.None? ==> r == Err(NotFound)
    ensures owner.Some? && !AdminOrOwner(role, owner.value, userId) ==> r == Err(Forbidden(UpdateDenied))
    ensures r.Ok? ==> r.value.updatedBy == userName && StoredFor(r.value.row, data, sites, table)
  {
    var allowed := CheckAdminOrOwner(owner, role, userId, UpdateDenied);
    if allowed.Err? {
      return Err(allowed.error);
    }
    var row := PrepareRow(data, sites, table);
    r := Ok(InvoiceUpdate(row, userName));
  }

  /** The invoice_date range the list filters on: the first and the last
      day of the month. */
  function InvoiceRange(year: int, month: int): (r: Range)
    ensures forall d :: 1 <= month <= 12 && !(0 <= year <= 99) && ValidDate(d) ==>
      (InRange(d, r) <==> d.year == year && d.month == month)
  {
    forall d | 1 <= month <= 12 && !(0 <= year <= 99) && ValidDate(d)
      ensures InRange(d, MonthRange(year, month)) <==> d.year == year && d.month == month
    {
      MonthRangeIsMonth(year, month, d);
    }
    MonthRange(year, month)
  }

  /** `deleteInvoiceRecord`: the admin-or-owner delete of `DeleteOwned`, over the
      invoice records' id → user_id map. */
  method DeleteInvoiceRecord(owners: map<int, string>, id: int, userId: string, role: string)
    returns (r: Result<(), Refusal>, rest: map<int, string>)
    ensures (r, rest) == DeleteOwned(owners, id, role, userId)
  {
    var outcome := DeleteOwned(owners, id, role, userId);
    r, rest := outcome.0, outcome.1;
  }
}
