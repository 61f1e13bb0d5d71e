/**
 * The collection statistics endpoint (`getCollectionStats`): the target
 * collection from the weekly plans and the user's own collections are
 * bucketed by month in Korean time, the administrator's monthly figures by
 * the month they are filed under; the summary totals the twelve months.
 */
module CollectionStats {
  import opened Wrappers
  import opened Calendar
  import opened MonthBuckets
  import opened RecordRules

  /** A weekly plan (`created_at`, `target_collection`) or a collection
      (`collection_date`, `collection_amount`): its author, its timestamp
      in milliseconds since the epoch (`None` when missing, empty or not a
      date) and its amount. */
  datatype TimedAmount = TimedAmount(createdBy: string, stamp: Option<int>, amount: Option<int>)

  /** A monthly_collection row filed by an administrator. */
  datatype MonthlyRow = MonthlyRow(managerName: string, month: int, collection: Option<int>, outstanding: Option<int>)

  function CreatedBy(r: TimedAmount): string { r.createdBy }
  function ManagerName(r: MonthlyRow): string { r.managerName }

  function OrZero(x: Option<int>): int { GetOr(x, 0) }

  /** `row.date && row.amount`, then the UTC month nine hours later. */
  function KstPosting(r: TimedAmount): (p: Posting)
    ensures r.stamp.None? || r.amount == Some(0) || r.amount.None? ==> p == Skipped
    ensures r.stamp.Some? && r.amount.Some? && r.amount.value != 0 ==> p == Posting(KstMonth(r.stamp.value), r.amount.value)
  {
    if r.stamp.Some? && r.amount.Some? && r.amount.value != 0 then Posting(KstMonth(r.stamp.value), r.amount.value)
    else Skipped
  }

  function ConfirmedPosting(r: MonthlyRow): Posting { Posting(r.month, OrZero(r.collection)) }
  function OutstandingPosting(r: MonthlyRow): Posting { Posting(r.month, OrZero(r.outstanding)) }

  datatype MonthlyCollection = MonthlyCollection(month: int, targetCollection: int, userCollection: int,
                                                 adminConfirmedCollection: int, outstandingBalance: int)

  datatype CollectionSummary = CollectionSummary(totalTargetCollection: int, totalUserCollection: int,
                                                 totalAdminConfirmedCollection: int, totalOutstandingBalance: int)

  datatype CollectionStatsData = CollectionStatsData(monthly: seq<MonthlyCollection>, summary: CollectionSummary)

  /** What month `m` holds once the three tables are bucketed. */
  function ExpectedMonth(plans: seq<TimedAmount>, collections: seq<TimedAmount>, rows: seq<MonthlyRow>, m: int): MonthlyCollection {
    MonthlyCollection(m, MonthTotal(plans, KstPosting, m), MonthTotal(collections, KstPosting, m),
                      MonthTotal(rows, ConfirmedPosting, m), MonthTotal(rows, OutstandingPosting, m))
  }

  /** The `monthly.push` loop over months 1..12. */
  method BuildMonthly(target: seq<int>, user: seq<int>, confirmed: seq<int>, outstanding: seq<int>)
    returns (monthly: seq<MonthlyCollection>)
    requires |target| == |user| == |confirmed| == |outstanding| == 12
    ensures |monthly| == 12
    ensures forall i :: 0 <= i < 12 ==>
      monthly[i] == MonthlyCollection(i + 1, target[i], user[i], confirmed[i], outstanding[i])
  {
    monthly := [];
    var month := 1;
    while month <= 12
      invariant 1 <= month <= 13
      invariant |monthly| == month - 1
      invariant forall i :: 0 <= i < month - 1 ==>
        monthly[i] == MonthlyCollection(i + 1, target[i], user[i], confirmed[i], outstanding[i])
    {
      var k := month - 1;
      monthly := monthly + [MonthlyCollection(month, target[k], user[k], confirmed[k], outstanding[k])];
      month := month + 1;
    }
  }

  function TargetOf(m: MonthlyCollection): int { m.targetCollection }
  function UserOf(m: MonthlyCollection): int { m.userCollection }
  function ConfirmedOf(m: MonthlyCollection): int { m.adminConfirmedCollection }
  function OutstandingOf(m: MonthlyCollection): int { m.outstandingBalance }

  /** The four `monthly.reduce((sum, m) => sum + m.x, 0)` totals. */
  function SummaryOf(monthly: seq<MonthlyCollection>): CollectionSummary {
    CollectionSummary(SumOf(monthly, TargetOf), SumOf(monthly, UserOf), SumOf(monthly, ConfirmedOf), SumOf(monthly, OutstandingOf))
  }

  predicate Bucketed(monthly: seq<MonthlyCollection>, plans: seq<TimedAmount>, collections: seq<TimedAmount>, rows: seq<MonthlyRow>) {
    |monthly| == 12 && forall i :: 0 <= i < 12 ==> monthly[i] == ExpectedMonth(plans, collections, rows, i + 1)
  }

  /** Twelve bucketed months total to the in-year totals of the tables:
      every counted plan and collection falls in some Korean month, and
      the administrator's rows filed outside 1..12 count nowhere. */
  lemma SummaryIsInYearTotals(monthly: seq<MonthlyCollection>, plans: seq<TimedAmount>, collections: seq<TimedAmount>, rows: seq<MonthlyRow>)
    requires Bucketed(monthly, plans, collections, rows)
    ensures SummaryOf(monthly).totalTargetCollection == InYearTotal(plans, KstPosting)
    ensures SummaryOf(monthly).totalUserCollection == InYearTotal(collections, KstPosting)
    ensures SummaryOf(monthly).totalAdminConfirmedCollection == InYearTotal(rows, ConfirmedPosting)
    ensures SummaryOf(monthly).totalOutstandingBalance == InYearTotal(rows, OutstandingPosting)
  {
    SumOfTwelveBuckets(monthly, TargetOf, plans, KstPosting);
    SumOfTwelveBuckets(monthly, UserOf, collections, KstPosting);
    SumOfTwelveBuckets(monthly, ConfirmedOf, rows, ConfirmedPosting);
    SumOfTwelveBuckets(monthly, OutstandingOf, rows, OutstandingPosting);
  }

  /** An administrator's row filed under a month outside 1..12 changes no month. */
  lemma OutOfRangeRowIgnored(rows: seq<MonthlyRow>, r: MonthlyRow, m: int)
    requires !(1 <= r.month <= 12)
    ensures MonthTotal(rows + [r], ConfirmedPosting, m) == MonthTotal(rows, ConfirmedPosting, m)
    ensures MonthTotal(rows + [r], OutstandingPosting, m) == MonthTotal(rows, OutstandingPosting, m)
  {
    OutOfYearChangesNothing(rows, r, ConfirmedPosting, m);
    OutOfYearChangesNothing(rows, r, OutstandingPosting, m);
  }

  /** A counted plan or collection lands in the Korean month of its
      timestamp and adds its amount there. */
  lemma CountedRowLandsInKstMonth(rows: seq<TimedAmount>, r: TimedAmount)
    requires r.stamp.Some? && r.amount.Some? && r.amount.value != 0
    ensures MonthTotal(rows + [r], KstPosting, KstMonth(r.stamp.value)) ==
            MonthTotal(rows, KstPosting, KstMonth(r.stamp.value)) + r.amount.value
  {
    assert (rows + [r])[..|rows|] == rows;
  }

  const PlansFailed := "주간 계획 데이터를 불러오지 못했습니다."
  const CollectionsFailed := "수금 데이터를 불러오지 못했습니다."

  /** `getCollectionStats` on what the three queries of the year returned
      (`None` for a query that failed), each query keeping the rows of the
      author names of the user. A failed monthly_collection query only
      loses the administrator's figures. */
  method GetCollectionStats(userName: string, showAllBranches: bool,
                            plans: Option<seq<TimedAmount>>, collections: Option<seq<TimedAmount>>,
                            monthlyRows: Option<seq<MonthlyRow>>)
    returns (r: Result<CollectionStatsData, string>)
    ensures plans.None? ==> r == Err(PlansFailed)
    ensures plans.Some? && collections.None? ==> r == Err(CollectionsFailed)
    ensures plans.Some? && collections.Some? ==> r.Ok?
    ensures r.Ok? ==> (
      var names := AuthorNames(userName, showAllBranches);
      && plans.Some? && collections.Some?
      && var ps := ByAuthor(plans.value, CreatedBy, names);
      && var cs := ByAuthor(collections.value, CreatedBy, names);
      && var ms := ByAuthor(GetOr(monthlyRows, []), ManagerName, names);
      && Bucketed(r.value.monthly, ps, cs, ms)
      && r.value.summary == SummaryOf(r.value.monthly)
      && r.value.summary.totalTargetCollection == InYearTotal(ps, KstPosting)
      && r.value.summary.totalUserCollection == InYearTotal(cs, KstPosting)
      && r.value.summary.totalAdminConfirmedCollection == InYearTotal(ms, ConfirmedPosting)
      && r.value.summary.totalOutstandingBalance == InYearTotal(ms, OutstandingPosting))
  {
    var names := AuthorNames(userName, showAllBranches);
    if plans.None? {
      return Err(PlansFailed);
    }
    var ps := ByAuthor(plans.value, CreatedBy, names);
    if collections.None? {
      return Err(CollectionsFailed);
    }
    var cs := ByAuthor(collections.value, CreatedBy, names);
    var ms := ByAuthor(GetOr(monthlyRows, []), ManagerName, names);
    var target := Accumulate(ps, KstPosting);
    var user := Accumulate(cs, KstPosting);
    var confirmed := Accumulate(ms, ConfirmedPosting);
    var outstanding := Accumulate(ms, OutstandingPosting);
    var monthly := BuildMonthly(target, user, confirmed, outstanding);
    assert Bucketed(monthly, ps, cs, ms);
    SummaryIsInYearTotals(monthly, ps, cs, ms);
    r := Ok(CollectionStatsData(monthly, SummaryOf(monthly)));
  }
}
