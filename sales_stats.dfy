/**
 * The sales statistics endpoint (`getSalesStats`): revenue from the
 * inpays rows, cost from the outpays rows and the sales target from the
 * weekly plans are bucketed by month; each month's profit is revenue minus
 * cost, and the summary adds up the twelve months.
 */
module SalesStats {
  import opened Wrappers
  import opened MonthBuckets

  /** A fetched row: its date text, the month (1..12) of that date in the
      server's local time (0 when the date does not parse), and its amount
      (supply_price, or target_sales for a weekly plan). */
  datatype DatedAmount = DatedAmount(date: Option<string>, localMonth: int, amount: Option<int>)

  /** `row.date && row.amount`: rows without a date or with a zero or
      missing amount are skipped. */
  predicate Counted(r: DatedAmount) {
    r.date.Some? && r.date.value != "" && r.amount.Some? && r.amount.value != 0
  }

  function AmountPosting(r: DatedAmount): Posting {
    if Counted(r) then Posting(r.localMonth, r.amount.value) else Skipped
  }

  datatype MonthlySales = MonthlySales(month: int, revenue: int, cost: int, profit: int, targetSales: int)

  datatype SalesSummary = SalesSummary(revenue: int, cost: int, profit: int, targetSales: int)

  datatype SalesStatsData = SalesStatsData(monthly: seq<MonthlySales>, summary: SalesSummary)

  /** The record the `map` builds from one map entry. */
  function SalesMonth(m: int, revenue: int, cost: int, targetSales: int): (r: MonthlySales)
    ensures r.month == m && r.profit == r.revenue - r.cost
  {
    MonthlySales(m, revenue, cost, revenue - cost, targetSales)
  }

  /** What month `m` holds after bucketing the three tables. */
  function ExpectedMonth(inpays: seq<DatedAmount>, outpays: seq<DatedAmount>, plans: seq<DatedAmount>, m: int): MonthlySales {
    SalesMonth(m, MonthTotal(inpays, AmountPosting, m), MonthTotal(outpays, AmountPosting, m), MonthTotal(plans, AmountPosting, m))
  }

  /** `Array.from(monthlyMap.entries()).map(...).sort(...)`: the twelve
      records in month order. */
  function MonthlyRecords(revenue: seq<int>, cost: seq<int>, targetSales: seq<int>): (ms: seq<MonthlySales>)
    requires |revenue| == |cost| == |targetSales| == 12
    ensures |ms| == 12
    ensures forall i :: 0 <= i < 12 ==> ms[i] == SalesMonth(i + 1, revenue[i], cost[i], targetSales[i])
  {
    seq(12, i requires 0 <= i < 12 => SalesMonth(i + 1, revenue[i], cost[i], targetSales[i]))
  }

  function AddMonth(s: SalesSummary, m: MonthlySales): SalesSummary {
    SalesSummary(s.revenue + m.revenue, s.cost + m.cost, s.profit + m.profit, s.targetSales + m.targetSales)
  }

  /** Every summary field is the sum of that field over the months. */
  function SummaryOf(monthly: seq<MonthlySales>): SalesSummary
    decreases |monthly|
  {
    if monthly == [] then SalesSummary(0, 0, 0, 0)
    else AddMonth(SummaryOf(monthly[..|monthly| - 1]), monthly[|monthly| - 1])
  }

  /** The summary loop `monthly.forEach((m) => { summary.x += m.x })`. */
  method Summarize(monthly: seq<MonthlySales>) returns (summary: SalesSummary)
    ensures summary == SummaryOf(monthly)
  {
    summary := SalesSummary(0, 0, 0, 0);
    var i := 0;
    while i < |monthly|
      invariant 0 <= i <= |monthly|
      invariant summary == SummaryOf(monthly[..i])
    {
      assert monthly[..i + 1][..i] == monthly[..i];
      summary := SalesSummary(summary.revenue + monthly[i].revenue, summary.cost + monthly[i].cost,
                              summary.profit + monthly[i].profit, summary.targetSales + monthly[i].targetSales);
      i := i + 1;
    }
    assert monthly[..i] == monthly;
  }

  predicate ProfitIsRevenueMinusCost(monthly: seq<MonthlySales>) {
    forall i :: 0 <= i < |monthly| ==> monthly[i].profit == monthly[i].revenue - monthly[i].cost
  }

  lemma AddMonthKeepsProfit(s: SalesSummary, m: MonthlySales)
    requires s.profit == s.revenue - s.cost && m.profit == m.revenue - m.cost
    ensures AddMonth(s, m).profit == AddMonth(s, m).revenue - AddMonth(s, m).cost
  {
  }

  /** Summing months whose profit is revenue minus cost gives a summary
      whose profit is its revenue minus its cost. */
  lemma {:induction false} SummaryProfit(monthly: seq<MonthlySales>)
    requires ProfitIsRevenueMinusCost(monthly)
    ensures SummaryOf(monthly).profit == SummaryOf(monthly).revenue - SummaryOf(monthly).cost
    decreases |monthly|
  {
    if monthly != [] {
      var front := monthly[..|monthly| - 1];
      assert ProfitIsRevenueMinusCost(front) by {
        forall i | 0 <= i < |front| ensures front[i].profit == front[i].revenue - front[i].cost {
          assert front[i] == monthly[i];
        }
      }
      SummaryProfit(front);
      AddMonthKeepsProfit(SummaryOf(front), monthly[|monthly| - 1]);
    }
  }

  function RevenueOf(m: MonthlySales): int { m.revenue }
  function CostOf(m: MonthlySales): int { m.cost }
  function TargetOf(m: MonthlySales): int { m.targetSales }

  lemma {:induction false} SummaryFields(monthly: seq<MonthlySales>)
    ensures SummaryOf(monthly).revenue == SumOf(monthly, RevenueOf)
    ensures SummaryOf(monthly).cost == SumOf(monthly, CostOf)
    ensures SummaryOf(monthly).targetSales == SumOf(monthly, TargetOf)
    decreases |monthly|
  {
    if monthly != [] {
      SummaryFields(monthly[..|monthly| - 1]);
    }
  }

  /** Twelve bucketed months: the summary's revenue, cost and target are
      the totals of the counted in-year rows of their tables, and its profit
      is revenue minus cost. */
  lemma SummaryIsInYearTotals(monthly: seq<MonthlySales>, inpays: seq<DatedAmount>, outpays: seq<DatedAmount>, plans: seq<DatedAmount>)
    requires |monthly| == 12
    requires forall i :: 0 <= i < 12 ==> monthly[i] == ExpectedMonth(inpays, outpays, plans, i + 1)
    ensures SummaryOf(monthly).revenue == InYearTotal(inpays, AmountPosting)
    ensures SummaryOf(monthly).cost == InYearTotal(outpays, AmountPosting)
    ensures SummaryOf(monthly).targetSales == InYearTotal(plans, AmountPosting)
    ensures SummaryOf(monthly).profit == SummaryOf(monthly).revenue - SummaryOf(monthly).cost
  {
    SummaryFields(monthly);
    SumOfTwelveBuckets(monthly, RevenueOf, inpays, AmountPosting);
    SumOfTwelveBuckets(monthly, CostOf, outpays, AmountPosting);
    SumOfTwelveBuckets(monthly, TargetOf, plans, AmountPosting);
    assert ProfitIsRevenueMinusCost(monthly) by {
      forall i | 0 <= i < 12 ensures monthly[i].profit == monthly[i].revenue - monthly[i].cost {
        assert monthly[i] == ExpectedMonth(inpays, outpays, plans, i + 1);
      }
    }
    SummaryProfit(monthly);
  }

  /** A row without a date, or with a zero or missing amount, changes no month. */
  lemma SkippedRowChangesNothing(rows: seq<DatedAmount>, r: DatedAmount, m: int)
    requires !Counted(r)
    ensures MonthTotal(rows + [r], AmountPosting, m) == MonthTotal(rows, AmountPosting, m)
  {
    OutOfYearChangesNothing(rows, r, AmountPosting, m);
  }

  /** Twelve records for months 1..12 in order, each holding its buckets. */
  predicate Bucketed(monthly: seq<MonthlySales>, inpays: seq<DatedAmount>, outpays: seq<DatedAmount>, plans: seq<DatedAmount>) {
    |monthly| == 12 && forall i :: 0 <= i < 12 ==> monthly[i] == ExpectedMonth(inpays, outpays, plans, i + 1)
  }

  const InpaysFailed := "매출 데이터를 불러오지 못했습니다."
  const OutpaysFailed := "매입 데이터를 불러오지 못했습니다."

  /** `getSalesStats` on what the three queries of the year returned
      (`None` for a query that failed): the user's inpays and outpays rows
      and the user's target weekly plans. A failed inpays or outpays query
      ends the call with its message; a failed weekly-plan query only loses
      the targets. */
  method GetSalesStats(inpays: Option<seq<DatedAmount>>, outpays: Option<seq<DatedAmount>>, plans: Option<seq<DatedAmount>>)
    returns (r: Result<SalesStatsData, string>)
    ensures inpays.None? ==> r == Err(InpaysFailed)
    ensures inpays.Some? && outpays.None? ==> r == Err(OutpaysFailed)
    ensures inpays.Some? && outpays.Some? ==> r.Ok?
    ensures r.Ok? ==> (
      var targets := GetOr(plans, []);
      && inpays.Some? && outpays.Some?
      && Bucketed(r.value.monthly, inpays.value, outpays.value, targets)
      && r.value.summary == SummaryOf(r.value.monthly)
      && r.value.summary.revenue == InYearTotal(inpays.value, AmountPosting)
      && r.value.summary.cost == InYearTotal(outpays.value, AmountPosting)
      && r.value.summary.targetSales == InYearTotal(targets, AmountPosting)
      && r.value.summary.profit == r.value.summary.revenue - r.value.summary.cost)
  {
    if inpays.None? {
      return Err(InpaysFailed);
    }
    if outpays.None? {
      return Err(OutpaysFailed);
    }
    var targets := GetOr(plans, []);
    var revenue := Accumulate(inpays.value, AmountPosting);
    var cost := Accumulate(outpays.value, AmountPosting);
    var target := Accumulate(targets, AmountPosting);
    var monthly := MonthlyRecords(revenue, cost, target);
    var summary := Summarize(monthly);
    assert Bucketed(monthly, inpays.value, outpays.value, targets);
    SummaryIsInYearTotals(monthly, inpays.value, outpays.value, targets);
    r := Ok(SalesStatsData(monthly, summary));
  }
}
