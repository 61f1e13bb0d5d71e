/**
 * The order statistics endpoint (`getOrderStats`): the user's sites are
 * split by expected execution rate into sales contributors and profit
 * contributors, the construction rows of each class are bucketed by order
 * month, the weekly plans' order targets by creation month, and every
 * month derives its planned profit and totals; the summary adds up the
 * twelve months.
 */
module OrderStats {
  import opened Wrappers
  import opened Text
  import opened Amounts
  import opened MonthBuckets

  /** `x || 0` on a numeric column. */
  function OrZero(v: Option<int>): int {
    if v.None? then 0 else v.value
  }

  // ---------------------------------------------------------------------
  // Classification by execution rate

  /** A row of site_summary: the site's code and its expected execution rate. */
  datatype SiteRate = SiteRate(cms: string, rate: Option<int>)

  /** The rate the classification reads; a missing rate counts as 0. */
  function RateOf(s: SiteRate): int { OrZero(s.rate) }

  /** A site contributes to sales when its rate is at least 90 or zero. */
  predicate SalesContributor(rate: int) { rate >= 90 || rate == 0 }

  /** A site contributes to profit when its rate is below 90 and not zero. */
  predicate ProfitContributor(rate: int) { rate < 90 && rate != 0 }

  /** The codes of the sales contributors, in row order. */
  function SalesCms(sites: seq<SiteRate>): seq<string>
    decreases |sites|
  {
    if sites == [] then []
    else SalesCms(sites[..|sites| - 1])
         + (if SalesContributor(RateOf(sites[|sites| - 1])) then [sites[|sites| - 1].cms] else [])
  }

  /** The codes of the profit contributors, in row order. */
  function ProfitCms(sites: seq<SiteRate>): seq<string>
    decreases |sites|
  {
    if sites == [] then []
    else ProfitCms(sites[..|sites| - 1])
         + (if ProfitContributor(RateOf(sites[|sites| - 1])) then [sites[|sites| - 1].cms] else [])
  }

  /** Every site's code, in row order. */
  function AllCms(sites: seq<SiteRate>): seq<string>
    decreases |sites|
  {
    if sites == [] then [] else AllCms(sites[..|sites| - 1]) + [sites[|sites| - 1].cms]
  }

  /** The `siteSummary.forEach` loop with its two pushes. */
  method Classify(sites: seq<SiteRate>) returns (salesList: seq<string>, profitList: seq<string>)
    ensures salesList == SalesCms(sites) && profitList == ProfitCms(sites)
  {
    salesList, profitList := [], [];
    var i := 0;
    while i < |sites|
      invariant 0 <= i <= |sites|
      invariant salesList == SalesCms(sites[..i]) && profitList == ProfitCms(sites[..i])
    {
      assert sites[..i + 1][..i] == sites[..i];
      var rate := RateOf(sites[i]);
      if rate >= 90 || rate == 0 {
        salesList := salesList + [sites[i].cms];
      }
      if rate < 90 && rate != 0 {
        profitList := profitList + [sites[i].cms];
      }
      i := i + 1;
    }
    assert sites[..i] == sites;
  }

  /** The two conditions are complements, so every site lands in exactly
      one list: together the lists hold each site's code once. */
  lemma {:induction false} EverySiteInOneClass(sites: seq<SiteRate>)
    ensures multiset(SalesCms(sites)) + multiset(ProfitCms(sites)) == multiset(AllCms(sites))
    ensures |SalesCms(sites)| + |ProfitCms(sites)| == |sites|
    decreases |sites|
  {
    if sites != [] {
      EverySiteInOneClass(sites[..|sites| - 1]);
      assert |multiset(AllCms(sites))| == |AllCms(sites)|;
      AllCmsLength(sites);
    }
  }

  lemma {:induction false} AllCmsLength(sites: seq<SiteRate>)
    ensures |AllCms(sites)| == |sites|
    decreases |sites|
  {
    if sites != [] {
      AllCmsLength(sites[..|sites| - 1]);
    }
  }

  /** A site without a rate is a sales contributor. */
  lemma MissingRateIsSales(sites: seq<SiteRate>, cms: string)
    ensures SalesCms(sites + [SiteRate(cms, None)]) == SalesCms(sites) + [cms]
    ensures ProfitCms(sites + [SiteRate(cms, None)]) == ProfitCms(sites)
  {
    assert (sites + [SiteRate(cms, None)])[..|sites|] == sites;
  }

  // ---------------------------------------------------------------------
  // Order months

  /** `extractMonth`: the number after the first '-' of "YYYY-MM" or
      "YYYY-MM-DD", 0 for a missing or empty value or a value without '-';
      `None` stands for NaN, which `parseInt` gives for a part that does
      not start with a number. */
  function ExtractMonth(orderMonth: Option<string>): (r: Option<int>)
  {
    if orderMonth.None? || orderMonth.value == "" then Some(0)
    else
      var parts := Split(orderMonth.value, '-');
      if |parts| >= 2 then ParseNumberPrefix(parts[1]) else Some(0)
  }

  /** The month of "YYYY-MM" and of "YYYY-MM-DD" is MM. */
  lemma ExtractMonthOfDate(year: string, mm: string, rest: string)
    requires '-' !in year && AllDigits(mm) && mm != []
    requires rest == [] || rest[0] == '-'
    ensures ExtractMonth(Some(year + "-" + mm + rest)) == Some(ValueOf(mm) as int)
  {
    SecondPartIsMonth(year, mm, rest);
    assert ParseNumberPrefix(mm) == Some(ValueOf(mm) as int) by {
      ParseSignedDigits(mm, false);
      assert "" + mm == mm;
    }
  }

  lemma SecondPartIsMonth(year: string, mm: string, rest: string)
    requires '-' !in year && AllDigits(mm)
    requires rest == [] || rest[0] == '-'
    ensures var parts := Split(year + "-" + mm + rest, '-'); |parts| >= 2 && parts[1] == mm
  {
    assert forall i :: 0 <= i < |mm| ==> mm[i] != '-';
    assert year + "-" + mm + rest == year + ['-'] + mm + rest;
    SplitSecondField(year, mm, rest, '-');
  }

  /** A missing or empty value, or one without '-', has month 0. */
  lemma ExtractMonthZero(orderMonth: Option<string>)
    requires orderMonth.None? || '-' !in orderMonth.value
    ensures ExtractMonth(orderMonth) == Some(0)
  {
    if orderMonth.Some? && orderMonth.value != "" {
      SplitWithoutSeparator(orderMonth.value, '-');
    }
  }

  /** The bucket a row goes to: NaN is out of range like 0. */
  function MonthNumber(m: Option<int>): int { if m.None? then 0 else m.value }

  // ---------------------------------------------------------------------
  // The fetched rows

  /** A row of construction_management. */
  datatype OrderRow = OrderRow(cms: string, orderMonth: Option<string>, orderAmount: Option<int>, executionAmount: Option<int>)

  /** A weekly plan's creation date, the month (1..12) that date has in
      the server's local time (0 for a date that does not parse), and its
      two order targets. */
  datatype TargetRow = TargetRow(
    createdAt: Option<string>,
    localMonth: int,
    targetSales: Option<int>,
    targetProfit: Option<int>)

  /** `fetchOrderData`: no query for an empty list, otherwise the rows
      whose cms is in the list (the year range of the query is taken as
      already applied to `table`). */
  function FetchOrderData(cmsList: seq<string>, table: seq<OrderRow>): (rows: seq<OrderRow>)
    ensures forall r :: r in rows <==> r in table && r.cms in cmsList
    ensures cmsList == [] ==> rows == []
    decreases |table|
  {
    if cmsList == [] || table == [] then []
    else
      var last := table[|table| - 1];
      assert table == table[..|table| - 1] + [last];
      FetchOrderData(cmsList, table[..|table| - 1]) + (if last.cms in cmsList then [last] else [])
  }

  function OrderPosting(r: OrderRow): Posting {
    Posting(MonthNumber(ExtractMonth(r.orderMonth)), OrZero(r.orderAmount))
  }

  function ExecutionPosting(r: OrderRow): Posting {
    Posting(MonthNumber(ExtractMonth(r.orderMonth)), OrZero(r.executionAmount))
  }

  /** Plans without a creation date are skipped. */
  function TargetSalesPosting(t: TargetRow): Posting {
    if t.createdAt.None? || t.createdAt.value == "" then Skipped else Posting(t.localMonth, OrZero(t.targetSales))
  }

  function TargetProfitPosting(t: TargetRow): Posting {
    if t.createdAt.None? || t.createdAt.value == "" then Skipped else Posting(t.localMonth, OrZero(t.targetProfit))
  }

  // ---------------------------------------------------------------------
  // Monthly records

  datatype Figures = Figures(order: int, execution: int, profit: int)

  datatype MonthlyOrder = MonthlyOrder(
    month: int,
    salesContribution: Figures,
    profitContribution: Figures,
    total: Figures,
    targetSalesContribution: int,
    targetProfitContribution: int,
    targetTotal: int)

  datatype OrderSummary = OrderSummary(
    salesContribution: Figures,
    profitContribution: Figures,
    total: Figures,
    targetSalesContribution: int,
    targetProfitContribution: int,
    targetTotal: int)

  datatype OrderStatsData = OrderStatsData(monthly: seq<MonthlyOrder>, summary: OrderSummary)

  const NoFigures: Figures := Figures(0, 0, 0)

  /** The derived fields of one record: planned profit is order minus
      execution in each class, the totals add the two classes, and the
      target total adds the two targets. */
  predicate Derived(sales: Figures, profit: Figures, total: Figures, targetSales: int, targetProfit: int, targetTotal: int) {
    && sales.profit == sales.order - sales.execution
    && profit.profit == profit.order - profit.execution
    && total == Figures(sales.order + profit.order, sales.execution + profit.execution, sales.profit + profit.profit)
    && targetTotal == targetSales + targetProfit
  }

  predicate MonthDerived(m: MonthlyOrder) {
    Derived(m.salesContribution, m.profitContribution, m.total,
            m.targetSalesContribution, m.targetProfitContribution, m.targetTotal)
  }

  predicate SummaryDerived(s: OrderSummary) {
    Derived(s.salesContribution, s.profitContribution, s.total,
            s.targetSalesContribution, s.targetProfitContribution, s.targetTotal)
  }

  /** The record of month `m` once its six accumulated amounts are known. */
  function MonthRecord(m: int, salesOrder: int, salesExecution: int, profitOrder: int,
                       profitExecution: int, targetSales: int, targetProfit: int): (r: MonthlyOrder)
    ensures MonthDerived(r) && r.month == m
    ensures r.salesContribution.order == salesOrder && r.salesContribution.execution == salesExecution
    ensures r.profitContribution.order == profitOrder && r.profitContribution.execution == profitExecution
    ensures r.targetSalesContribution == targetSales && r.targetProfitContribution == targetProfit
  {
    var sales := Figures(salesOrder, salesExecution, salesOrder - salesExecution);
    var profit := Figures(profitOrder, profitExecution, profitOrder - profitExecution);
    MonthlyOrder(m, sales, profit,
      Figures(sales.order + profit.order, sales.execution + profit.execution, sales.profit + profit.profit),
      targetSales, targetProfit, targetSales + targetProfit)
  }

  /** What month `m` holds after bucketing the fetched rows. */
  function ExpectedMonth(salesData: seq<OrderRow>, profitData: seq<OrderRow>, targets: seq<TargetRow>, m: int): MonthlyOrder {
    MonthRecord(m,
      MonthTotal(salesData, OrderPosting, m), MonthTotal(salesData, ExecutionPosting, m),
      MonthTotal(profitData, OrderPosting, m), MonthTotal(profitData, ExecutionPosting, m),
      MonthTotal(targets, TargetSalesPosting, m), MonthTotal(targets, TargetProfitPosting, m))
  }

  function AddFigures(a: Figures, b: Figures): Figures {
    Figures(a.order + b.order, a.execution + b.execution, a.profit + b.profit)
  }

  /** Field-wise addition of a month into the running summary. */
  function AddMonth(s: OrderSummary, m: MonthlyOrder): OrderSummary {
    OrderSummary(
      AddFigures(s.salesContribution, m.salesContribution),
      AddFigures(s.profitContribution, m.profitContribution),
      AddFigures(s.total, m.total),
      s.targetSalesContribution + m.targetSalesContribution,
      s.targetProfitContribution + m.targetProfitContribution,
      s.targetTotal + m.targetTotal)
  }

  const ZeroSummary: OrderSummary := OrderSummary(NoFigures, NoFigures, NoFigures, 0, 0, 0)

  /** Every summary field is the sum of that field over the months. */
  function SummaryOf(monthly: seq<MonthlyOrder>): OrderSummary
    decreases |monthly|
  {
    if monthly == [] then ZeroSummary
    else AddMonth(SummaryOf(monthly[..|monthly| - 1]), monthly[|monthly| - 1])
  }

  /** Summing months keeps the derived relations: the summary's profit is
      its order minus its execution, its totals add the two classes, and
      its target total adds the two targets. */
  lemma {:induction false} SummaryKeepsDerived(monthly: seq<MonthlyOrder>)
    requires forall i :: 0 <= i < |monthly| ==> MonthDerived(monthly[i])
    ensures SummaryDerived(SummaryOf(monthly))
    decreases |monthly|
  {
    if monthly != [] {
      SummaryKeepsDerived(monthly[..|monthly| - 1]);
    }
  }

  function SalesOrderOf(m: MonthlyOrder): int { m.salesContribution.order }
  function SalesExecutionOf(m: MonthlyOrder): int { m.salesContribution.execution }
  function ProfitOrderOf(m: MonthlyOrder): int { m.profitContribution.order }
  function ProfitExecutionOf(m: MonthlyOrder): int { m.profitContribution.execution }
  function TargetSalesOf(m: MonthlyOrder): int { m.targetSalesContribution }
  function TargetProfitOf(m: MonthlyOrder): int { m.targetProfitContribution }

  lemma {:induction false} SummaryFields(monthly: seq<MonthlyOrder>)
    ensures var s := SummaryOf(monthly);
      && s.salesContribution.order == SumOf(monthly, SalesOrderOf)
      && s.salesContribution.execution == SumOf(monthly, SalesExecutionOf)
      && s.profitContribution.order == SumOf(monthly, ProfitOrderOf)
      && s.profitContribution.execution == SumOf(monthly, ProfitExecutionOf)
      && s.targetSalesContribution == SumOf(monthly, TargetSalesOf)
      && s.targetProfitContribution == SumOf(monthly, TargetProfitOf)
    decreases |monthly|
  {
    if monthly != [] {
      SummaryFields(monthly[..|monthly| - 1]);
    }
  }

  /** The summary of the twelve bucketed months: each accumulated field is
      the total of the in-year rows of its table, so a row whose month is
      outside 1..12 is in no total. */
  lemma SummaryIsInYearTotals(monthly: seq<MonthlyOrder>, salesData: seq<OrderRow>, profitData: seq<OrderRow>, targets: seq<TargetRow>)
    requires |monthly| == 12
    requires forall i :: 0 <= i < 12 ==> monthly[i] == ExpectedMonth(salesData, profitData, targets, i + 1)
    ensures var s := SummaryOf(monthly);
      && s.salesContribution.order == InYearTotal(salesData, OrderPosting)
      && s.salesContribution.execution == InYearTotal(salesData, ExecutionPosting)
      && s.profitContribution.order == InYearTotal(profitData, OrderPosting)
      && s.profitContribution.execution == InYearTotal(profitData, ExecutionPosting)
      && s.targetSalesContribution == InYearTotal(targets, TargetSalesPosting)
      && s.targetProfitContribution == InYearTotal(targets, TargetProfitPosting)
  {
    SummaryFields(monthly);
    SumOfTwelveBuckets(monthly, SalesOrderOf, salesData, OrderPosting);
    SumOfTwelveBuckets(monthly, SalesExecutionOf, salesData, ExecutionPosting);
    SumOfTwelveBuckets(monthly, ProfitOrderOf, profitData, OrderPosting);
    SumOfTwelveBuckets(monthly, ProfitExecutionOf, profitData, ExecutionPosting);
    SumOfTwelveBuckets(monthly, TargetSalesOf, targets, TargetSalesPosting);
    SumOfTwelveBuckets(monthly, TargetProfitOf, targets, TargetProfitPosting);
  }

  /** A construction row whose order month is outside 1..12 changes no month. */
  lemma OutOfRangeRowChangesNoMonth(salesData: seq<OrderRow>, r: OrderRow, profitData: seq<OrderRow>,
                                    targets: seq<TargetRow>, m: int)
    requires !InYear(MonthNumber(ExtractMonth(r.orderMonth)))
    ensures ExpectedMonth(salesData + [r], profitData, targets, m) == ExpectedMonth(salesData, profitData, targets, m)
    ensures ExpectedMonth(salesData, profitData + [r], targets, m) == ExpectedMonth(salesData, profitData, targets, m)
  {
    OutOfYearChangesNothing(salesData, r, OrderPosting, m);
    OutOfYearChangesNothing(salesData, r, ExecutionPosting, m);
    OutOfYearChangesNothing(profitData, r, OrderPosting, m);
    OutOfYearChangesNothing(profitData, r, ExecutionPosting, m);
  }

  // ---------------------------------------------------------------------
  // The endpoint

  /** The `monthlyMap.forEach` that derives each month's fields, followed
      by the conversion to an array in month order. */
  method DeriveMonths(salesOrder: seq<int>, salesExecution: seq<int>, profitOrder: seq<int>,
                      profitExecution: seq<int>, targetSales: seq<int>, targetProfit: seq<int>)
    returns (monthly: seq<MonthlyOrder>)
    requires |salesOrder| == |salesExecution| == |profitOrder| == |profitExecution| == |targetSales| == |targetProfit| == 12
    ensures |monthly| == 12
    ensures forall i :: 0 <= i < 12 ==>
      monthly[i] == MonthRecord(i + 1, salesOrder[i], salesExecution[i], profitOrder[i],
                                profitExecution[i], targetSales[i], targetProfit[i])
  {
    monthly := [];
    var month := 1;
    while month <= 12
      invariant 1 <= month <= 13 && |monthly| == month - 1
      invariant forall i :: 0 <= i < month - 1 ==>
        monthly[i] == MonthRecord(i + 1, salesOrder[i], salesExecution[i], profitOrder[i],
                                  profitExecution[i], targetSales[i], targetProfit[i])
    {
      var k := month - 1;
      var sales := Figures(salesOrder[k], salesExecution[k], salesOrder[k] - salesExecution[k]);
      var profit := Figures(profitOrder[k], profitExecution[k], profitOrder[k] - profitExecution[k]);
      var total := Figures(sales.order + profit.order, sales.execution + profit.execution, sales.profit + profit.profit);
      monthly := monthly + [MonthlyOrder(month, sales, profit, total, targetSales[k], targetProfit[k],
                                         targetSales[k] + targetProfit[k])];
      month := month + 1;
    }
  }

  /** The `monthly.forEach` that adds the months into the summary. */
  method Summarize(monthly: seq<MonthlyOrder>) returns (summary: OrderSummary)
    ensures summary == SummaryOf(monthly)
  {
    summary := ZeroSummary;
    var i := 0;
    while i < |monthly|
      invariant 0 <= i <= |monthly|
      invariant summary == SummaryOf(monthly[..i])
    {
      assert monthly[..i + 1][..i] == monthly[..i];
      var m := monthly[i];
      summary := OrderSummary(
        Figures(summary.salesContribution.order + m.salesContribution.order,
                summary.salesContribution.execution + m.salesContribution.execution,
                summary.salesContribution.profit + m.salesContribution.profit),
        Figures(summary.profitContribution.order + m.profitContribution.order,
                summary.profitContribution.execution + m.profitContribution.execution,
                summary.profitContribution.profit + m.profitContribution.profit),
        Figures(summary.total.order + m.total.order,
                summary.total.execution + m.total.execution,
                summary.total.profit + m.total.profit),
        summary.targetSalesContribution + m.targetSalesContribution,
        summary.targetProfitContribution + m.targetProfitContribution,
        summary.targetTotal + m.targetTotal);
      i := i + 1;
    }
    assert monthly[..i] == monthly;
  }

  /** `createEmptyResponse`: twelve all-zero months and an all-zero summary. */
  method CreateEmptyResponse() returns (r: OrderStatsData)
    ensures |r.monthly| == 12
    ensures forall i :: 0 <= i < 12 ==> r.monthly[i] == MonthlyOrder(i + 1, NoFigures, NoFigures, NoFigures, 0, 0, 0)
    ensures r.summary == ZeroSummary
  {
    var monthly: seq<MonthlyOrder> := [];
    var month := 1;
    while month <= 12
      invariant 1 <= month <= 13 && |monthly| == month - 1
      invariant forall i :: 0 <= i < month - 1 ==> monthly[i] == MonthlyOrder(i + 1, NoFigures, NoFigures, NoFigures, 0, 0, 0)
    {
      monthly := monthly + [MonthlyOrder(month, NoFigures, NoFigures, NoFigures, 0, 0, 0)];
      month := month + 1;
    }
    r := OrderStatsData(monthly, ZeroSummary);
  }

  predicate ZeroMonth(m: MonthlyOrder) {
    m == MonthlyOrder(m.month, NoFigures, NoFigures, NoFigures, 0, 0, 0)
  }

  lemma AddZeroMonth(m: MonthlyOrder)
    requires ZeroMonth(m)
    ensures AddMonth(ZeroSummary, m) == ZeroSummary
  {
  }

  lemma {:induction false} ZeroMonthsSumToZero(monthly: seq<MonthlyOrder>)
    requires forall i :: 0 <= i < |monthly| ==> ZeroMonth(monthly[i])
    ensures SummaryOf(monthly) == ZeroSummary
    decreases |monthly|
  {
    if monthly != [] {
      var front, last := monthly[..|monthly| - 1], monthly[|monthly| - 1];
      assert forall i :: 0 <= i < |front| ==> ZeroMonth(front[i]) by {
        forall i | 0 <= i < |front| ensures ZeroMonth(front[i]) {
          assert front[i] == monthly[i];
        }
      }
      ZeroMonthsSumToZero(front);
      AddZeroMonth(last);
    }
  }

  /** The empty response is what bucketing no rows at all yields. */
  lemma EmptyResponseIsNoRows(m: int)
    ensures ExpectedMonth([], [], [], m) == MonthlyOrder(m, NoFigures, NoFigures, NoFigures, 0, 0, 0)
    ensures SummaryOf([]) == ZeroSummary
  {
    var none: seq<OrderRow> := [];
    var noTargets: seq<TargetRow> := [];
    assert MonthTotal(none, OrderPosting, m) == 0 && MonthTotal(none, ExecutionPosting, m) == 0;
    assert MonthTotal(noTargets, TargetSalesPosting, m) == 0 && MonthTotal(noTargets, TargetProfitPosting, m) == 0;
  }

  /** Steps 6 and 7 of `getOrderStats`: the twelve buckets filled from the
      fetched rows, the derived fields, and the summary. */
  method Aggregate(salesData: seq<OrderRow>, profitData: seq<OrderRow>, targets: seq<TargetRow>)
    returns (r: OrderStatsData)
    ensures |r.monthly| == 12
    ensures forall i :: 0 <= i < 12 ==> r.monthly[i] == ExpectedMonth(salesData, profitData, targets, i + 1)
    ensures r.summary == SummaryOf(r.monthly)
  {
    var so := Accumulate(salesData, OrderPosting);
    var se := Accumulate(salesData, ExecutionPosting);
    var po := Accumulate(profitData, OrderPosting);
    var pe := Accumulate(profitData, ExecutionPosting);
    var ts := Accumulate(targets, TargetSalesPosting);
    var tp := Accumulate(targets, TargetProfitPosting);
    var monthly := DeriveMonths(so, se, po, pe, ts, tp);
    var summary := Summarize(monthly);
    r := OrderStatsData(monthly, summary);
  }

  /** Twelve records for months 1..12 in order, each with its derived fields. */
  predicate TwelveDerivedMonths(monthly: seq<MonthlyOrder>) {
    |monthly| == 12 && forall i :: 0 <= i < 12 ==> monthly[i].month == i + 1 && MonthDerived(monthly[i])
  }

  /** Bucketed months carry their month number and their derived fields,
      and so does their summary. */
  lemma BucketedMonthsDerived(monthly: seq<MonthlyOrder>, salesData: seq<OrderRow>, profitData: seq<OrderRow>, targets: seq<TargetRow>)
    requires |monthly| == 12
    requires forall i :: 0 <= i < 12 ==> monthly[i] == ExpectedMonth(salesData, profitData, targets, i + 1)
    ensures TwelveDerivedMonths(monthly)
    ensures SummaryDerived(SummaryOf(monthly))
  {
    SummaryKeepsDerived(monthly);
  }

  /** `getOrderStats` once the user's sites are read: the construction
      rows of the year and the user's weekly plans of the year. Without
      sites the targets are not read either. */
  method StatsOfSites(sites: seq<SiteRate>, table: seq<OrderRow>, targets: seq<TargetRow>)
    returns (r: OrderStatsData)
    ensures StatsOfSitesHold(r, sites, table, targets)
  {
    if sites == [] {
      r := CreateEmptyResponse();
      forall i | 0 <= i < 12 ensures r.monthly[i] == ExpectedMonth([], [], [], i + 1) {
        EmptyResponseIsNoRows(i + 1);
      }
      forall i | 0 <= i < 12 ensures ZeroMonth(r.monthly[i]) {
      }
      ZeroMonthsSumToZero(r.monthly);
      BucketedMonthsDerived(r.monthly, [], [], []);
    } else {
      var salesList, profitList := Classify(sites);
      var salesData := FetchOrderData(salesList, table);
      var profitData := FetchOrderData(profitList, table);
      r := Aggregate(salesData, profitData, targets);
      BucketedMonthsDerived(r.monthly, salesData, profitData, targets);
    }
  }

  /** What `StatsOfSites` promises about its answer. */
  predicate StatsOfSitesHold(r: OrderStatsData, sites: seq<SiteRate>, table: seq<OrderRow>, targets: seq<TargetRow>) {
    && |r.monthly| == 12
    && (sites == [] ==> (forall i :: 0 <= i < 12 ==> r.monthly[i] == ExpectedMonth([], [], [], i + 1)) && r.summary == ZeroSummary)
    && (sites != [] ==> forall i :: 0 <= i < 12 ==>
         r.monthly[i] == ExpectedMonth(FetchOrderData(SalesCms(sites), table), FetchOrderData(ProfitCms(sites), table), targets, i + 1))
    && TwelveDerivedMonths(r.monthly)
    && r.summary == SummaryOf(r.monthly) && SummaryDerived(r.summary)
  }

  const SiteReadFailed: string := "현장 정보를 불러오지 못했습니다."

  /** `getOrderStats` over what its queries returned, each `None` when the
      query failed. A failed site query is reported. A failed construction
      query reads as no rows, since `fetchOrderData` returns `[]`, and a
      failed plans query reads as no targets. */
  method GetOrderStats(sites: Option<seq<SiteRate>>, table: Option<seq<OrderRow>>, targets: Option<seq<TargetRow>>)
    returns (r: Result<OrderStatsData, string>)
    ensures r.Err? <==> sites.None?
    ensures sites.None? ==> r == Err(SiteReadFailed)
    ensures r.Ok? ==> StatsOfSitesHold(r.value, sites.value, GetOr(table, []), GetOr(targets, []))
  {
    if sites.None? {
      return Err(SiteReadFailed);
    }
    var rows, planned := GetOr(table, []), GetOr(targets, []);
    var data := StatsOfSites(sites.value, rows, planned);
    r := Ok(data);
  }
}
