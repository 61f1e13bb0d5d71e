/**
 * The cost-efficiency statistics endpoint (`getCostEfficiencyStats`): the
 * inpays rows of the year give each month its confirmed revenue and the
 * set of CMS codes billed that month; the site summaries of those codes
 * give the month's over-investment; the difference is over-investment
 * minus confirmed revenue, and the summary totals the twelve months.
 */
module CostEfficiencyStats {
  import opened Wrappers
  import opened Seqs
  import opened Amounts
  import opened MonthBuckets
  import opened RecordRules

  /** An inpays row: its construction manager, `sales_date`, the month
      (1..12) of that date in the server's local time (0 when it does not
      parse), its `cms` code and `supply_price`. */
  datatype InpayRow = InpayRow(manager: string, salesDate: Option<string>, localMonth: int, cms: Option<string>, supplyPrice: Option<int>)


  function Manager(r: InpayRow): string { r.manager }

  /** `if (row.sales_date)` and then the month test. */
  predicate InMonth(r: InpayRow, m: int) {
    r.salesDate.Some? && r.salesDate.value != "" && InYear(r.localMonth) && r.localMonth == m
  }

  /** `confirmedRevenue += row.supply_price || 0` for every dated row. */
  function RevenuePosting(r: InpayRow): Posting {
    if r.salesDate.Some? && r.salesDate.value != "" then Posting(r.localMonth, GetOr(r.supplyPrice, 0)) else Skipped
  }

  /** `if (row.cms)`: the code the row adds to its month's set. */
  predicate HasCms(r: InpayRow) { r.cms.Some? && r.cms.value != "" }

  /** The codes month `m` meets, in row order, repeats included. */
  function CmsSeen(rows: seq<InpayRow>, m: int): seq<string>
    decreases |rows|
  {
    if rows == [] then []
    else
      var r := rows[|rows| - 1];
      CmsSeen(rows[..|rows| - 1], m) + (if InMonth(r, m) && HasCms(r) then [r.cms.value] else [])
  }

  /** `Array.from(cmsSet)`: each code of the month once, in the order in
      which the set first received it. */
  function CmsList(rows: seq<InpayRow>, m: int): seq<string> {
    Unique(CmsSeen(rows, m))
  }

  /** Row `r` bills code `c` in month `m`. */
  predicate Bills(r: InpayRow, m: int, c: string) {
    InMonth(r, m) && r.cms == Some(c) && c != ""
  }

  /** The CMS list of a month has no repeats and holds exactly the codes of
      the dated rows of that month. */
  lemma {:induction false} CmsListIsSet(rows: seq<InpayRow>, m: int, c: string)
    ensures NoDuplicates(CmsList(rows, m))
    ensures c in CmsList(rows, m) <==> exists r :: r in rows && Bills(r, m, c)
    decreases |rows|
  {
    UniqueMembership(CmsSeen(rows, m), c);
    if rows != [] {
      var front := rows[..|rows| - 1];
      var last := rows[|rows| - 1];
      assert rows == front + [last];
      CmsListIsSet(front, m, c);
      UniqueMembership(CmsSeen(front, m), c);
      assert c in CmsSeen(rows, m) <==> c in CmsSeen(front, m) || Bills(last, m, c);
      assert (exists r :: r in rows && Bills(r, m, c)) <==> (exists r :: r in front && Bills(r, m, c)) || Bills(last, m, c);
    }
  }

  /** One step of the inpays loop on the code list of a month:
      `cmsSet.add(row.cms)`. */
  lemma CmsListStep(rows: seq<InpayRow>, n: nat, m: int)
    requires n < |rows|
    ensures rows[..n + 1][..n] == rows[..n]
    ensures var r := rows[n];
      var before := CmsList(rows[..n], m);
      CmsList(rows[..n + 1], m) ==
        if InMonth(r, m) && HasCms(r) && r.cms.value !in before then before + [r.cms.value] else before
  {
    var r := rows[n];
    assert rows[..n + 1][..n] == rows[..n];
    var seen := CmsSeen(rows[..n], m);
    if InMonth(r, m) && HasCms(r) {
      assert CmsSeen(rows[..n + 1], m) == seen + [r.cms.value];
      UniqueSnoc(seen, r.cms.value);
      UniqueMembership(seen, r.cms.value);
    } else {
      assert CmsSeen(rows[..n + 1], m) == seen;
    }
  }

  /** The twelve code sets once `rows` are counted. */
  predicate CmsCollected(rows: seq<InpayRow>, cmsSets: seq<seq<string>>) {
    |cmsSets| == 12 && forall i :: 0 <= i < 12 ==> cmsSets[i] == CmsList(rows, i + 1)
  }

  /** The twelve revenue buckets once `rows` are counted. */
  predicate RevenueCollected(rows: seq<InpayRow>, revenue: seq<int>) {
    |revenue| == 12 && forall i :: 0 <= i < 12 ==> revenue[i] == MonthTotal(rows, RevenuePosting, i + 1)
  }

  /** The twelve code sets and revenue buckets once `rows` are counted. */
  predicate Collected(rows: seq<InpayRow>, cmsSets: seq<seq<string>>, revenue: seq<int>) {
    CmsCollected(rows, cmsSets) && RevenueCollected(rows, revenue)
  }

  /** A dated row of a month in 1..12, the rows the loop counts. */
  predicate Counted(r: InpayRow) {
    r.salesDate.Some? && r.salesDate.value != "" && 1 <= r.localMonth <= 12
  }

  /** One step of the inpays loop on the code sets. */
  lemma CmsStep(rows: seq<InpayRow>, n: nat, cmsSets: seq<seq<string>>, cmsSets': seq<seq<string>>)
    requires n < |rows| && CmsCollected(rows[..n], cmsSets)
    requires var r := rows[n];
      if Counted(r) then
        var k := r.localMonth - 1;
        cmsSets' == (if HasCms(r) && r.cms.value !in cmsSets[k] then cmsSets[k := cmsSets[k] + [r.cms.value]] else cmsSets)
      else cmsSets' == cmsSets
    ensures CmsCollected(rows[..n + 1], cmsSets')
  {
    forall i | 0 <= i < 12 ensures cmsSets'[i] == CmsList(rows[..n + 1], i + 1) {
      CmsListStep(rows, n, i + 1);
    }
  }

  /** One step of the inpays loop on the revenue buckets. */
  lemma RevenueStep(rows: seq<InpayRow>, n: nat, revenue: seq<int>, revenue': seq<int>)
    requires n < |rows| && RevenueCollected(rows[..n], revenue)
    requires var r := rows[n];
      if Counted(r) then revenue' == revenue[r.localMonth - 1 := revenue[r.localMonth - 1] + GetOr(r.supplyPrice, 0)]
      else revenue' == revenue
    ensures RevenueCollected(rows[..n + 1], revenue')
  {
    assert rows[..n + 1][..n] == rows[..n];
    assert rows[..n + 1][n] == rows[n];
  }

  /** The `forEach` over the inpays rows, filling the twelve code sets and
      revenue buckets. */
  method CollectMonths(rows: seq<InpayRow>) returns (cmsSets: seq<seq<string>>, revenue: seq<int>)
    ensures Collected(rows, cmsSets, revenue)
  {
    cmsSets := [[], [], [], [], [], [], [], [], [], [], [], []];
    revenue := [0, 0, 0, 0, 0, 0, 0, 0, 0, 0, 0, 0];
    assert rows[..0] == [];
    var n := 0;
    while n < |rows|
      invariant 0 <= n <= |rows|
      invariant Collected(rows[..n], cmsSets, revenue)
    {
      ghost var cmsSets0, revenue0 := cmsSets, revenue;
      var r := rows[n];
      if r.salesDate.Some? && r.salesDate.value != "" {
        var month := r.localMonth;
        if 1 <= month <= 12 {
          if r.cms.Some? && r.cms.value != "" && r.cms.value !in cmsSets[month - 1] {
            cmsSets := cmsSets[month - 1 := cmsSets[month - 1] + [r.cms.value]];
          }
          revenue := revenue[month - 1 := revenue[month - 1] + GetOr(r.supplyPrice, 0)];
        }
      }
      CmsStep(rows, n, cmsSets0, cmsSets);
      RevenueStep(rows, n, revenue0, revenue);
      n := n + 1;
    }
    assert rows[..n] == rows;
  }

  // ---------------------------------------------------------------------
  // Over-investment

  /** `.in('cms', cmsList)`: the site summaries of the listed codes. */
  function SitesOf(table: seq<SiteSummaryRow>, cmsList: seq<string>): (sites: seq<SiteSummaryRow>)
    ensures forall s :: s in sites <==> s in table && s.cms.Some? && s.cms.value in cmsList
    decreases |table|
  {
    if table == [] then []
    else
      var last := table[|table| - 1];
      assert table == table[..|table| - 1] + [last];
      SitesOf(table[..|table| - 1], cmsList) + (if last.cms.Some? && last.cms.value in cmsList then [last] else [])
  }

  /** A site's sales minus its purchases. */
  function Diff(s: SiteSummaryRow): int {
    ParseAmountString(s.salesAmount) - ParseAmountString(s.purchaseAmount)
  }

  /** What a site adds to the over-investment: `Math.abs(diff)` when the
      difference is negative. */
  function Shortfall(s: SiteSummaryRow): (v: int)
    ensures v >= 0
    ensures v > 0 <==> Diff(s) < 0
  {
    if Diff(s) < 0 then -Diff(s) else 0
  }

  /** The over-investment of the sites: what they bought beyond what they sold. */
  function OverInvestmentOf(sites: seq<SiteSummaryRow>): int {
    SumOf(sites, Shortfall)
  }

  /** No site bought more than it sold. */
  predicate NoneOverInvested(sites: seq<SiteSummaryRow>) {
    forall i :: 0 <= i < |sites| ==> Diff(sites[i]) >= 0
  }

  /** The over-investment is never negative, and it is zero exactly when
      no site bought more than it sold. */
  lemma OverInvestmentZero(sites: seq<SiteSummaryRow>)
    ensures OverInvestmentOf(sites) >= 0
    ensures OverInvestmentOf(sites) == 0 <==> NoneOverInvested(sites)
  {
    assert AllNonNegative(sites, Shortfall);
    SumOfNonNegative(sites, Shortfall);
    assert AllZero(sites, Shortfall) <==> NoneOverInvested(sites) by {
      forall i | 0 <= i < |sites| ensures Shortfall(sites[i]) == 0 <==> Diff(sites[i]) >= 0 {
      }
    }
  }

  lemma OverInvestmentSnoc(sites: seq<SiteSummaryRow>, i: nat)
    requires i < |sites|
    ensures OverInvestmentOf(sites[..i + 1]) == OverInvestmentOf(sites[..i]) + Shortfall(sites[i])
  {
    assert sites[..i + 1][..i] == sites[..i];
  }

  /** The `siteSummaryData.forEach` accumulating `overInvestment`. */
  method SumOverInvestment(sites: seq<SiteSummaryRow>) returns (overInvestment: int)
    ensures overInvestment == OverInvestmentOf(sites)
  {
    overInvestment := 0;
    var i := 0;
    while i < |sites|
      invariant 0 <= i <= |sites|
      invariant overInvestment == OverInvestmentOf(sites[..i])
    {
      OverInvestmentSnoc(sites, i);
      var diff := ParseAmountString(sites[i].salesAmount) - ParseAmountString(sites[i].purchaseAmount);
      assert diff == Diff(sites[i]);
      if diff < 0 {
        overInvestment := overInvestment + (-diff);
      }
      i := i + 1;
    }
    assert sites[..i] == sites;
  }

  // ---------------------------------------------------------------------
  // The endpoint

  datatype MonthlyCostEfficiency = MonthlyCostEfficiency(month: int, overInvestment: int, confirmedRevenue: int, difference: int)

  datatype CostSummary = CostSummary(totalOverInvestment: int, totalConfirmedRevenue: int, totalDifference: int)

  datatype CostEfficiencyData = CostEfficiencyData(monthly: seq<MonthlyCostEfficiency>, summary: CostSummary)

  /** A month's over-investment: zero when it met no code or its site
      query failed (`table` is `None`), else that of the codes' sites. */
  function MonthOverInvestment(cmsList: seq<string>, table: Option<seq<SiteSummaryRow>>): int {
    if cmsList == [] || table.None? then 0 else OverInvestmentOf(SitesOf(table.value, cmsList))
  }

  /** The record month `m` gets. */
  function ExpectedMonth(rows: seq<InpayRow>, table: Option<seq<SiteSummaryRow>>, m: int): (e: MonthlyCostEfficiency)
    ensures e.difference == e.overInvestment - e.confirmedRevenue
  {
    var over := MonthOverInvestment(CmsList(rows, m), table);
    var revenue := MonthTotal(rows, RevenuePosting, m);
    MonthlyCostEfficiency(m, over, revenue, over - revenue)
  }

  /** One month's record from the collected code set and revenue bucket. */
  method MonthRecord(rows: seq<InpayRow>, cmsSets: seq<seq<string>>, revenue: seq<int>, table: Option<seq<SiteSummaryRow>>,
                     month: int) returns (rec: MonthlyCostEfficiency)
    requires Collected(rows, cmsSets, revenue) && 1 <= month <= 12
    ensures rec == ExpectedMonth(rows, table, month)
  {
    var cmsList := cmsSets[month - 1];
    assert cmsList == CmsList(rows, month);
    var overInvestment := 0;
    if |cmsList| > 0 && table.Some? {
      overInvestment := SumOverInvestment(SitesOf(table.value, cmsList));
    }
    var confirmed := revenue[month - 1];
    assert confirmed == MonthTotal(rows, RevenuePosting, month);
    rec := MonthlyCostEfficiency(month, overInvestment, confirmed, overInvestment - confirmed);
  }

  /** The loop over months 1..12: look up the month's sites, add up their
      over-investment and push the month's record. */
  method BuildMonthly(rows: seq<InpayRow>, cmsSets: seq<seq<string>>, revenue: seq<int>, table: Option<seq<SiteSummaryRow>>)
    returns (monthly: seq<MonthlyCostEfficiency>)
    requires Collected(rows, cmsSets, revenue)
    ensures |monthly| == 12
    ensures forall i :: 0 <= i < 12 ==> monthly[i] == ExpectedMonth(rows, table, i + 1)
  {
    monthly := [];
    var month := 1;
    while month <= 12
      invariant 1 <= month <= 13
      invariant |monthly| == month - 1
      invariant forall i :: 0 <= i < month - 1 ==> monthly[i] == ExpectedMonth(rows, table, i + 1)
    {
      var rec := MonthRecord(rows, cmsSets, revenue, table, month);
      monthly := monthly + [rec];
      month := month + 1;
    }
  }

  function OverOf(m: MonthlyCostEfficiency): int { m.overInvestment }
  function RevenueOf(m: MonthlyCostEfficiency): int { m.confirmedRevenue }
  function DifferenceOf(m: MonthlyCostEfficiency): int { m.difference }

  /** The three `monthly.reduce` totals. */
  function SummaryOf(monthly: seq<MonthlyCostEfficiency>): CostSummary {
    CostSummary(SumOf(monthly, OverOf), SumOf(monthly, RevenueOf), SumOf(monthly, DifferenceOf))
  }

  predicate Bucketed(monthly: seq<MonthlyCostEfficiency>, rows: seq<InpayRow>, table: Option<seq<SiteSummaryRow>>) {
    |monthly| == 12 && forall i :: 0 <= i < 12 ==> monthly[i] == ExpectedMonth(rows, table, i + 1)
  }

  /** The summary of the twelve months: the total difference is the total
      over-investment minus the total confirmed revenue, the revenue total
      is that of the dated in-year rows, and no total over-investment is
      negative. */
  lemma SummaryTotals(monthly: seq<MonthlyCostEfficiency>, rows: seq<InpayRow>, table: Option<seq<SiteSummaryRow>>)
    requires Bucketed(monthly, rows, table)
    ensures SummaryOf(monthly).totalDifference == SummaryOf(monthly).totalOverInvestment - SummaryOf(monthly).totalConfirmedRevenue
    ensures SummaryOf(monthly).totalConfirmedRevenue == InYearTotal(rows, RevenuePosting)
    ensures SummaryOf(monthly).totalOverInvestment >= 0
  {
    forall i | 0 <= i < 12 ensures DifferenceOf(monthly[i]) == OverOf(monthly[i]) - RevenueOf(monthly[i]) {
      assert monthly[i] == ExpectedMonth(rows, table, i + 1);
    }
    SumOfSub(monthly, DifferenceOf, OverOf, RevenueOf);
    SumOfTwelveBuckets(monthly, RevenueOf, rows, RevenuePosting);
    forall i | 0 <= i < 12 ensures OverOf(monthly[i]) >= 0 {
      assert monthly[i] == ExpectedMonth(rows, table, i + 1);
      var cmsList := CmsList(rows, i + 1);
      if cmsList != [] && table.Some? {
        OverInvestmentZero(SitesOf(table.value, cmsList));
      }
    }
    SumOfNonNegative(monthly, OverOf);
  }

  /** Commas are dropped before the amount is read. */
  lemma GroupedAmountParses()
    ensures ParseAmountString(Some("1,234")) == 1234
  {
    ParseGroupedExample();
  }

  const InpaysFailed := "매출 데이터를 불러오지 못했습니다."

  /** `getCostEfficiencyStats` on what the inpays query of the year
      returned (`None` when it failed), keeping the rows of the author
      names of the user, and on the site_summary table the per-month
      queries read (`None` when they fail). */
  method GetCostEfficiencyStats(userName: string, showAllBranches: bool, inpays: Option<seq<InpayRow>>,
                                table: Option<seq<SiteSummaryRow>>)
    returns (r: Result<CostEfficiencyData, string>)
    ensures inpays.None? <==> r == Err(InpaysFailed)
    ensures inpays.Some? ==> r.Ok?
    ensures r.Ok? ==> (
      var rows := ByAuthor(inpays.value, Manager, AuthorNames(userName, showAllBranches));
      && Bucketed(r.value.monthly, rows, table)
      && r.value.summary == SummaryOf(r.value.monthly)
      && r.value.summary.totalDifference == r.value.summary.totalOverInvestment - r.value.summary.totalConfirmedRevenue
      && r.value.summary.totalConfirmedRevenue == InYearTotal(rows, RevenuePosting)
      && r.value.summary.totalOverInvestment >= 0)
  {
    if inpays.None? {
      return Err(InpaysFailed);
    }
    var rows := ByAuthor(inpays.value, Manager, AuthorNames(userName, showAllBranches));
    var cmsSets, revenue := CollectMonths(rows);
    var monthly := BuildMonthly(rows, cmsSets, revenue, table);
    SummaryTotals(monthly, rows, table);
    r := Ok(CostEfficiencyData(monthly, SummaryOf(monthly)));
  }
}
