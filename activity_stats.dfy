/**
 * The activity statistics endpoint (`getActivityStats`): weekly plans are
 * the planned activities and daily plans the carried-out ones. Every plan
 * counts its three activity flags into the entry of its month, an entry
 * being created the first time a month is met; the entries are sorted by
 * month, each gets achievement percentages, and the summary adds up the
 * counts and takes its percentages from the sums.
 */
module ActivityStats {
  import opened Wrappers
  import opened Seqs
  import opened Sorting
  import RecordRules

  /** A weekly or daily plan: the month (1..12) of its `created_at` in the
      server's local time and its three activity flags. */
  datatype PlanRow = PlanRow(month: int, construction: bool, additional: bool, support: bool)

  /** `{ construction, additional, support, total }` counters. */
  datatype Counts = Counts(construction: int, additional: int, support: int, total: int)

  const NoCounts: Counts := Counts(0, 0, 0, 0)

  function Flag(b: bool): int { if b then 1 else 0 }

  /** `if (flag) stats.x++` for each flag, then `total` recomputed as the
      sum of the three counters. */
  function Bump(c: Counts, r: PlanRow): Counts {
    var construction := c.construction + Flag(r.construction);
    var additional := c.additional + Flag(r.additional);
    var support := c.support + Flag(r.support);
    Counts(construction, additional, support, construction + additional + support)
  }

  /** The number of true flags of a plan. */
  function FlagCount(r: PlanRow): int {
    Flag(r.construction) + Flag(r.additional) + Flag(r.support)
  }

  /** The counters of one plan on its own. */
  function FlagsOf(r: PlanRow): Counts {
    Counts(Flag(r.construction), Flag(r.additional), Flag(r.support), FlagCount(r))
  }

  function AddCounts(a: Counts, b: Counts): Counts {
    Counts(a.construction + b.construction, a.additional + b.additional, a.support + b.support, a.total + b.total)
  }

  predicate Balanced(c: Counts) {
    c.total == c.construction + c.additional + c.support
  }

  /** What the counters of month `m` hold after the rows are counted. */
  function Tally(rows: seq<PlanRow>, m: int): Counts
    decreases |rows|
  {
    if rows == [] then NoCounts
    else
      var r := rows[|rows| - 1];
      var c := Tally(rows[..|rows| - 1], m);
      if r.month == m then Bump(c, r) else c
  }

  /** The counters of all the rows, whatever their month. */
  function TallyAll(rows: seq<PlanRow>): Counts
    decreases |rows|
  {
    if rows == [] then NoCounts else AddCounts(TallyAll(rows[..|rows| - 1]), FlagsOf(rows[|rows| - 1]))
  }

  /** The months of the rows, in row order. */
  function MonthsOf(rows: seq<PlanRow>): (ms: seq<int>)
    ensures |ms| == |rows|
    ensures forall i :: 0 <= i < |rows| ==> ms[i] == rows[i].month
  {
    seq(|rows|, i requires 0 <= i < |rows| => rows[i].month)
  }

  /** Counting a plan into balanced counters adds its flags, and the total
      grows by the number of true flags. */
  lemma BumpAdds(c: Counts, r: PlanRow)
    requires Balanced(c)
    ensures Bump(c, r) == AddCounts(c, FlagsOf(r))
    ensures Balanced(Bump(c, r))
    ensures Bump(c, r).total == c.total + FlagCount(r)
  {
  }

  /** Every month's counters keep `total` equal to the sum of the three. */
  lemma {:induction false} TallyBalanced(rows: seq<PlanRow>, m: int)
    ensures Balanced(Tally(rows, m))
    decreases |rows|
  {
    if rows != [] {
      TallyBalanced(rows[..|rows| - 1], m);
    }
  }

  /** A plan with k true flags raises its month's total by k and leaves
      every other month alone. */
  lemma TallySnoc(rows: seq<PlanRow>, r: PlanRow, m: int)
    ensures Tally(rows + [r], m) == if r.month == m then AddCounts(Tally(rows, m), FlagsOf(r)) else Tally(rows, m)
    ensures r.month == m ==> Tally(rows + [r], m).total == Tally(rows, m).total + FlagCount(r)
  {
    assert (rows + [r])[..|rows|] == rows;
    TallyBalanced(rows, m);
    BumpAdds(Tally(rows, m), r);
  }

  /** A month no row falls in has zero counters. */
  lemma {:induction false} TallyAbsent(rows: seq<PlanRow>, m: int)
    requires m !in MonthsOf(rows)
    ensures Tally(rows, m) == NoCounts
    decreases |rows|
  {
    if rows != [] {
      var front := rows[..|rows| - 1];
      assert MonthsOf(front) == MonthsOf(rows)[..|front|];
      TallyAbsent(front, m);
    }
  }

  // ---------------------------------------------------------------------
  // The month map

  /** A map value before the achievement is added. */
  datatype Entry = Entry(year: int, month: int, plan: Counts, actual: Counts)

  function EntryMonth(e: Entry): int { e.month }

  /** The value the map holds for month `m` once both tables are counted. */
  function EntryFor(year: int, m: int, weekly: seq<PlanRow>, daily: seq<PlanRow>): Entry {
    Entry(year, m, Tally(weekly, m), Tally(daily, m))
  }

  /** The map as parallel key and value sequences: the keys are the months
      of the rows counted so far in first-seen order, and value `i` holds
      the counters of key `i`. */
  predicate MapHolds(keys: seq<int>, vals: seq<Entry>, year: int, weekly: seq<PlanRow>, daily: seq<PlanRow>) {
    && keys == Unique(MonthsOf(weekly) + MonthsOf(daily))
    && |vals| == |keys|
    && forall i :: 0 <= i < |keys| ==> vals[i] == EntryFor(year, keys[i], weekly, daily)
  }

  /** `if (!monthlyMap.has(key)) monthlyMap.set(key, …)`: the keys and
      values once month `m` is present, with zero counters for a new month. */
  function WithKey(keys: seq<int>, m: int): seq<int> {
    if m in keys then keys else keys + [m]
  }

  function WithEntry(keys: seq<int>, vals: seq<Entry>, year: int, m: int): seq<Entry> {
    if m in keys then vals else vals + [Entry(year, m, NoCounts, NoCounts)]
  }

  lemma MonthsOfSnoc(rows: seq<PlanRow>, n: nat)
    requires n < |rows|
    ensures rows[..n + 1] == rows[..n] + [rows[n]]
    ensures MonthsOf(rows[..n + 1]) == MonthsOf(rows[..n]) + [rows[n].month]
  {
    assert rows[..n + 1] == rows[..n] + [rows[n]];
  }

  /** Where the counters of month `m` sit once the month is present. */
  lemma KeyPosition(keys: seq<int>, m: int)
    ensures m in WithKey(keys, m)
    ensures m !in keys ==> FirstIndex(WithKey(keys, m), m) == |keys|
  {
    if m !in keys {
      FirstIndexOfNew(keys, m);
    }
  }

  /** Counting row `n` changes the counters of its own month only. */
  lemma TallyPrefixStep(rows: seq<PlanRow>, n: nat, x: int)
    requires n < |rows|
    ensures Tally(rows[..n + 1], x) == if rows[n].month == x then Bump(Tally(rows[..n], x), rows[n]) else Tally(rows[..n], x)
  {
    assert rows[..n + 1][..n] == rows[..n];
  }

  /** The keys once month `m` of the next row is present. */
  lemma KeysStep(keys: seq<int>, before: seq<int>, m: int)
    requires keys == Unique(before)
    ensures WithKey(keys, m) == Unique(before + [m])
    ensures m in WithKey(keys, m)
    ensures (m in keys) == (m in before)
    ensures m !in keys ==> FirstIndex(WithKey(keys, m), m) == |keys|
  {
    UniqueSnoc(before, m);
    UniqueMembership(before, m);
    KeyPosition(keys, m);
  }

  /** One step of the weekly loop: the plan of row `n` is counted into the
      entry of its month. */
  lemma WeeklyStep(year: int, weekly: seq<PlanRow>, n: nat, keys: seq<int>, vals: seq<Entry>, keys': seq<int>, vals': seq<Entry>)
    requires n < |weekly|
    requires MapHolds(keys, vals, year, weekly[..n], [])
    requires keys' == WithKey(keys, weekly[n].month) && weekly[n].month in keys'
    requires var vs := WithEntry(keys, vals, year, weekly[n].month);
      var k := FirstIndex(keys', weekly[n].month);
      k < |vs| && vals' == vs[k := vs[k].(plan := Bump(vs[k].plan, weekly[n]))]
    ensures MapHolds(keys', vals', year, weekly[..n + 1], [])
  {
    var r := weekly[n];
    var m := r.month;
    MonthsOfSnoc(weekly, n);
    var before := MonthsOf(weekly[..n]) + MonthsOf([]);
    assert MonthsOf(weekly[..n + 1]) + MonthsOf([]) == before + [m];
    KeysStep(keys, before, m);
    var ks := WithKey(keys, m);
    var vs := WithEntry(keys, vals, year, m);
    var k := FirstIndex(ks, m);
    var next := vs[k := vs[k].(plan := Bump(vs[k].plan, r))];
    if m !in keys {
      assert m !in MonthsOf(weekly[..n]);
      TallyAbsent(weekly[..n], m);
    }
    assert next == vals';
    forall i | 0 <= i < |ks| ensures next[i] == EntryFor(year, ks[i], weekly[..n + 1], []) {
      TallyPrefixStep(weekly, n, ks[i]);
      if i != k {
        FirstIndexOfDistinct(ks, i);
      }
    }
  }

  /** One step of the daily loop: the work of row `n` is counted into the
      entry of its month, after every weekly plan has been counted. */
  lemma DailyStep(year: int, weekly: seq<PlanRow>, daily: seq<PlanRow>, n: nat, keys: seq<int>, vals: seq<Entry>, keys': seq<int>, vals': seq<Entry>)
    requires n < |daily|
    requires MapHolds(keys, vals, year, weekly, daily[..n])
    requires keys' == WithKey(keys, daily[n].month) && daily[n].month in keys'
    requires var vs := WithEntry(keys, vals, year, daily[n].month);
      var k := FirstIndex(keys', daily[n].month);
      k < |vs| && vals' == vs[k := vs[k].(actual := Bump(vs[k].actual, daily[n]))]
    ensures MapHolds(keys', vals', year, weekly, daily[..n + 1])
  {
    var r := daily[n];
    var m := r.month;
    MonthsOfSnoc(daily, n);
    var before := MonthsOf(weekly) + MonthsOf(daily[..n]);
    assert MonthsOf(weekly) + MonthsOf(daily[..n + 1]) == before + [m];
    KeysStep(keys, before, m);
    var ks := WithKey(keys, m);
    var vs := WithEntry(keys, vals, year, m);
    var k := FirstIndex(ks, m);
    var next := vs[k := vs[k].(actual := Bump(vs[k].actual, r))];
    if m !in keys {
      assert m !in MonthsOf(weekly) && m !in MonthsOf(daily[..n]);
      TallyAbsent(weekly, m);
      TallyAbsent(daily[..n], m);
    }
    assert next == vals';
    forall i | 0 <= i < |ks| ensures next[i] == EntryFor(year, ks[i], weekly, daily[..n + 1]) {
      TallyPrefixStep(daily, n, ks[i]);
      if i != k {
        FirstIndexOfDistinct(ks, i);
      }
    }
  }

  /** The two `forEach` loops that fill the month map: an entry per month
      met, in first-seen order, holding the plan counters of the weekly
      rows and the actual counters of the daily rows of that month. */
  method CountMonths(year: int, weekly: seq<PlanRow>, daily: seq<PlanRow>) returns (keys: seq<int>, vals: seq<Entry>)
    ensures MapHolds(keys, vals, year, weekly, daily)
  {
    keys, vals := [], [];
    var n := 0;
    while n < |weekly|
      invariant 0 <= n <= |weekly|
      invariant MapHolds(keys, vals, year, weekly[..n], [])
    {
      ghost var keys0, vals0 := keys, vals;
      var r := weekly[n];
      if r.month !in keys {
        keys, vals := keys + [r.month], vals + [Entry(year, r.month, NoCounts, NoCounts)];
      }
      KeyPosition(keys0, r.month);
      var k := FirstIndex(keys, r.month);
      vals := vals[k := vals[k].(plan := Bump(vals[k].plan, r))];
      WeeklyStep(year, weekly, n, keys0, vals0, keys, vals);
      n := n + 1;
    }
    assert weekly[..n] == weekly;
    assert daily[..0] == [];
    n := 0;
    while n < |daily|
      invariant 0 <= n <= |daily|
      invariant MapHolds(keys, vals, year, weekly, daily[..n])
    {
      ghost var keys0, vals0 := keys, vals;
      var r := daily[n];
      if r.month !in keys {
        keys, vals := keys + [r.month], vals + [Entry(year, r.month, NoCounts, NoCounts)];
      }
      KeyPosition(keys0, r.month);
      var k := FirstIndex(keys, r.month);
      vals := vals[k := vals[k].(actual := Bump(vals[k].actual, r))];
      DailyStep(year, weekly, daily, n, keys0, vals0, keys, vals);
      n := n + 1;
    }
    assert daily[..n] == daily;
  }

  // ---------------------------------------------------------------------
  // Achievement percentages

  /** `plan > 0 ? Math.round((actual / plan) * 100) : 0`, with the quotient
      taken exactly: the integer nearest to 100·actual/plan, halves rounded
      up. */
  function Percent(actual: int, plan: int): (r: int)
    ensures plan <= 0 ==> r == 0
    ensures plan > 0 ==> r * (2 * plan) <= 200 * actual + plan < (r + 1) * (2 * plan)
  {
    if plan > 0 then (200 * actual + plan) / (2 * plan) else 0
  }

  /** Carrying out every planned activity and no more is 100%, and
      carrying out none is 0%. */
  lemma PercentBounds(actual: int, plan: int)
    requires 0 <= actual <= plan && plan > 0
    ensures 0 <= Percent(actual, plan) <= 100
    ensures actual == plan ==> Percent(actual, plan) == 100
    ensures actual == 0 ==> Percent(actual, plan) == 0
  {
    var r := Percent(actual, plan);
    var q := 2 * plan;
    assert r * q <= 200 * actual + plan < (r + 1) * q;
    if r < 0 {
      RecordRules.MulMono(r + 1, 0, q);
      assert false;
    }
    if r > 100 {
      RecordRules.MulMono(101, r, q);
      assert false;
    }
    if actual == plan && r <= 99 {
      RecordRules.MulMono(r + 1, 100, q);
      assert false;
    }
    if actual == 0 && r >= 1 {
      RecordRules.MulMono(1, r, q);
      assert false;
    }
  }

  datatype Rates = Rates(construction: int, additional: int, support: int, total: int)

  function AchievementOf(plan: Counts, actual: Counts): Rates {
    Rates(Percent(actual.construction, plan.construction), Percent(actual.additional, plan.additional),
          Percent(actual.support, plan.support), Percent(actual.total, plan.total))
  }

  datatype MonthStats = MonthStats(year: int, month: int, plan: Counts, actual: Counts, achievement: Rates)

  /** `{ ...stats, achievement: … }`. */
  function WithAchievement(e: Entry): MonthStats {
    MonthStats(e.year, e.month, e.plan, e.actual, AchievementOf(e.plan, e.actual))
  }

  /** The record month `m` gets: the counters of its weekly and daily rows
      and the percentages taken from them. */
  function StatsFor(year: int, m: int, weekly: seq<PlanRow>, daily: seq<PlanRow>): MonthStats {
    WithAchievement(EntryFor(year, m, weekly, daily))
  }

  function StatMonths(ms: seq<MonthStats>): (months: seq<int>)
    ensures |months| == |ms|
    ensures forall i :: 0 <= i < |ms| ==> months[i] == ms[i].month
  {
    seq(|ms|, i requires 0 <= i < |ms| => ms[i].month)
  }

  /** The `map` adding the percentages to the sorted entries. */
  function AddAchievements(es: seq<Entry>): (ms: seq<MonthStats>)
    ensures |ms| == |es|
    ensures forall i :: 0 <= i < |es| ==> ms[i] == WithAchievement(es[i])
  {
    seq(|es|, i requires 0 <= i < |es| => WithAchievement(es[i]))
  }

  // ---------------------------------------------------------------------
  // The summary

  function PlanOf(m: MonthStats): Counts { m.plan }
  function ActualOf(m: MonthStats): Counts { m.actual }

  /** The field-wise sum of one counter group over the months. */
  function SumCounts(ms: seq<MonthStats>, f: MonthStats -> Counts): Counts
    decreases |ms|
  {
    if ms == [] then NoCounts else AddCounts(SumCounts(ms[..|ms| - 1], f), f(ms[|ms| - 1]))
  }

  /** The summary loop: `summary.plan.x += m.plan.x` and
      `summary.actual.x += m.actual.x` for every counter. */
  method SumMonths(monthly: seq<MonthStats>) returns (plan: Counts, actual: Counts)
    ensures plan == SumCounts(monthly, PlanOf)
    ensures actual == SumCounts(monthly, ActualOf)
  {
    plan, actual := NoCounts, NoCounts;
    var i := 0;
    while i < |monthly|
      invariant 0 <= i <= |monthly|
      invariant plan == SumCounts(monthly[..i], PlanOf)
      invariant actual == SumCounts(monthly[..i], ActualOf)
    {
      assert monthly[..i + 1][..i] == monthly[..i];
      var m := monthly[i];
      plan := Counts(plan.construction + m.plan.construction, plan.additional + m.plan.additional,
                     plan.support + m.plan.support, plan.total + m.plan.total);
      actual := Counts(actual.construction + m.actual.construction, actual.additional + m.actual.additional,
                       actual.support + m.actual.support, actual.total + m.actual.total);
      i := i + 1;
    }
    assert monthly[..i] == monthly;
  }

  /** The counters of the given months added up. */
  function SumTallies(rows: seq<PlanRow>, ks: seq<int>): Counts
    decreases |ks|
  {
    if ks == [] then NoCounts else AddCounts(SumTallies(rows, ks[..|ks| - 1]), Tally(rows, ks[|ks| - 1]))
  }

  lemma {:induction false} SumTalliesNoRows(ks: seq<int>)
    ensures SumTallies([], ks) == NoCounts
    decreases |ks|
  {
    if ks != [] {
      SumTalliesNoRows(ks[..|ks| - 1]);
    }
  }

  /** Over distinct months, one more row adds its flags once when its month
      is among them and not at all otherwise. */
  lemma {:induction false} SumTalliesSnoc(front: seq<PlanRow>, r: PlanRow, ks: seq<int>)
    requires NoDuplicates(ks)
    ensures SumTallies(front + [r], ks) == AddCounts(SumTallies(front, ks), if r.month in ks then FlagsOf(r) else NoCounts)
    decreases |ks|
  {
    if ks == [] {
      assert SumTallies(front + [r], ks) == NoCounts;
      assert SumTallies(front, ks) == NoCounts;
    } else {
      var init := ks[..|ks| - 1];
      var k := ks[|ks| - 1];
      assert ks == init + [k];
      assert NoDuplicates(init);
      assert k !in init by {
        forall i | 0 <= i < |init| ensures init[i] != k {
          assert ks[i] != ks[|ks| - 1];
        }
      }
      SumTalliesSnoc(front, r, init);
      TallySnoc(front, r, k);
      var x := if r.month in init then FlagsOf(r) else NoCounts;
      var y := if r.month in ks then FlagsOf(r) else NoCounts;
      var t' := Tally(front + [r], k);
      var t := Tally(front, k);
      var s := SumTallies(front, init);
      assert SumTallies(front + [r], ks) == AddCounts(AddCounts(s, x), t');
      assert SumTallies(front, ks) == AddCounts(s, t);
      assert r.month in ks <==> r.month in init || r.month == k;
      ShuffleCounts(s, x, t, t', y, FlagsOf(r), r.month == k);
    }
  }

  /** The bookkeeping of one month more: the new row's flags land either in
      the earlier months (`x`) or in the new month (`t'`), never in both. */
  lemma ShuffleCounts(s: Counts, x: Counts, t: Counts, t': Counts, y: Counts, f: Counts, here: bool)
    requires here ==> x == NoCounts && t' == AddCounts(t, f) && y == f
    requires !here ==> t' == t && y == x
    ensures AddCounts(AddCounts(s, x), t') == AddCounts(AddCounts(s, t), y)
  {
  }

  /** Adding up the counters of distinct months that include every row's
      month gives the counters of all the rows. */
  lemma {:induction false} SumTalliesPartition(rows: seq<PlanRow>, ks: seq<int>)
    requires NoDuplicates(ks)
    requires forall i :: 0 <= i < |rows| ==> rows[i].month in ks
    ensures SumTallies(rows, ks) == TallyAll(rows)
    decreases |rows|
  {
    if rows == [] {
      SumTalliesNoRows(ks);
    } else {
      var front := rows[..|rows| - 1];
      var r := rows[|rows| - 1];
      assert rows == front + [r];
      SumTalliesPartition(front, ks);
      SumTalliesSnoc(front, r, ks);
    }
  }

  /** Summing records that hold the counters of their months is summing
      the counters of those months. */
  lemma {:induction false} SumOfRecords(ms: seq<MonthStats>, f: MonthStats -> Counts, rows: seq<PlanRow>)
    requires forall i :: 0 <= i < |ms| ==> f(ms[i]) == Tally(rows, ms[i].month)
    ensures SumCounts(ms, f) == SumTallies(rows, StatMonths(ms))
    decreases |ms|
  {
    if ms != [] {
      var init := ms[..|ms| - 1];
      assert StatMonths(init) == StatMonths(ms)[..|init|];
      SumOfRecords(init, f, rows);
    }
  }

  // ---------------------------------------------------------------------
  // The endpoint

  /** The `monthly` list: one record per month that has a weekly or daily
      plan, in strictly ascending month order, each with its counters and
      percentages. */
  ghost predicate MonthlyHolds(monthly: seq<MonthStats>, year: int, weekly: seq<PlanRow>, daily: seq<PlanRow>) {
    && (forall i :: 0 <= i < |monthly| ==> monthly[i] == StatsFor(year, monthly[i].month, weekly, daily))
    && (forall i, j :: 0 <= i < j < |monthly| ==> monthly[i].month < monthly[j].month)
    && (forall m :: m in StatMonths(monthly) <==> m in MonthsOf(weekly) + MonthsOf(daily))
  }

  function EntryMonths(es: seq<Entry>): (months: seq<int>)
    ensures |months| == |es|
    ensures forall i :: 0 <= i < |es| ==> months[i] == es[i].month
  {
    seq(|es|, i requires 0 <= i < |es| => es[i].month)
  }

  /** Distinct keys make distinct values. */
  lemma EntriesDistinct(keys: seq<int>, vals: seq<Entry>, year: int, weekly: seq<PlanRow>, daily: seq<PlanRow>)
    requires MapHolds(keys, vals, year, weekly, daily)
    ensures NoDuplicates(vals)
    ensures EntryMonths(vals) == keys
  {
    forall i, j | 0 <= i < j < |vals| ensures vals[i] != vals[j] {
      assert vals[i].month == keys[i] && vals[j].month == keys[j];
    }
  }

  /** Whatever order they are put in, the values remain the entries of
      their months. */
  lemma PermutedEntries(keys: seq<int>, vals: seq<Entry>, sorted: seq<Entry>, year: int, weekly: seq<PlanRow>, daily: seq<PlanRow>)
    requires MapHolds(keys, vals, year, weekly, daily)
    requires multiset(sorted) == multiset(vals)
    ensures forall i :: 0 <= i < |sorted| ==> sorted[i] == EntryFor(year, sorted[i].month, weekly, daily)
    ensures forall m :: m in EntryMonths(sorted) <==> m in keys
  {
    PermutationFacts(sorted, vals);
    EntriesDistinct(keys, vals, year, weekly, daily);
    forall i | 0 <= i < |sorted| ensures sorted[i] == EntryFor(year, sorted[i].month, weekly, daily) {
      assert sorted[i] in vals;
    }
    forall m ensures m in EntryMonths(sorted) <==> m in keys {
      if m in keys {
        var i :| 0 <= i < |keys| && keys[i] == m;
        assert vals[i] in sorted;
        var j :| 0 <= j < |sorted| && sorted[j] == vals[i];
        assert EntryMonths(sorted)[j] == m;
      }
      if m in EntryMonths(sorted) {
        var j :| 0 <= j < |sorted| && EntryMonths(sorted)[j] == m;
        assert sorted[j] in vals;
        var i :| 0 <= i < |vals| && vals[i] == sorted[j];
        assert EntryMonths(vals)[i] == m;
      }
    }
  }

  /** Sorted distinct entries of distinct months are in strictly ascending
      month order. */
  lemma StrictlyAscending(sorted: seq<Entry>, year: int, weekly: seq<PlanRow>, daily: seq<PlanRow>)
    requires SortedBy(sorted, EntryMonth) && NoDuplicates(sorted)
    requires forall i :: 0 <= i < |sorted| ==> sorted[i] == EntryFor(year, sorted[i].month, weekly, daily)
    ensures forall i, j :: 0 <= i < j < |sorted| ==> sorted[i].month < sorted[j].month
  {
    forall i, j | 0 <= i < j < |sorted| ensures sorted[i].month < sorted[j].month {
      assert EntryMonth(sorted[i]) <= EntryMonth(sorted[j]);
    }
  }

  /** The sorted entries with their percentages are the `monthly` list. */
  lemma SortedEntries(keys: seq<int>, vals: seq<Entry>, year: int, weekly: seq<PlanRow>, daily: seq<PlanRow>)
    requires MapHolds(keys, vals, year, weekly, daily)
    ensures MonthlyHolds(AddAchievements(SortBy(vals, EntryMonth)), year, weekly, daily)
  {
    var sorted := SortBy(vals, EntryMonth);
    var ms := AddAchievements(sorted);
    PermutedEntries(keys, vals, sorted, year, weekly, daily);
    EntriesDistinct(keys, vals, year, weekly, daily);
    PermutationKeepsDistinct(sorted, vals);
    StrictlyAscending(sorted, year, weekly, daily);
    assert StatMonths(ms) == EntryMonths(sorted);
    forall m ensures m in keys <==> m in MonthsOf(weekly) + MonthsOf(daily) {
      UniqueMembership(MonthsOf(weekly) + MonthsOf(daily), m);
    }
  }

  /** The summary counters are the counters of all the weekly and all the
      daily rows, whatever months the records list. */
  lemma SummaryCounts(monthly: seq<MonthStats>, year: int, weekly: seq<PlanRow>, daily: seq<PlanRow>)
    requires MonthlyHolds(monthly, year, weekly, daily)
    ensures SumCounts(monthly, PlanOf) == TallyAll(weekly)
    ensures SumCounts(monthly, ActualOf) == TallyAll(daily)
  {
    var ks := StatMonths(monthly);
    assert NoDuplicates(ks) by {
      forall i, j | 0 <= i < j < |ks| ensures ks[i] != ks[j] {
        assert monthly[i].month < monthly[j].month;
      }
    }
    forall i | 0 <= i < |monthly| ensures PlanOf(monthly[i]) == Tally(weekly, monthly[i].month) && ActualOf(monthly[i]) == Tally(daily, monthly[i].month) {
      assert monthly[i] == StatsFor(year, monthly[i].month, weekly, daily);
    }
    SumOfRecords(monthly, PlanOf, weekly);
    SumOfRecords(monthly, ActualOf, daily);
    forall i | 0 <= i < |weekly| ensures weekly[i].month in ks {
      assert MonthsOf(weekly)[i] == weekly[i].month;
      assert (MonthsOf(weekly) + MonthsOf(daily))[i] == weekly[i].month;
    }
    forall i | 0 <= i < |daily| ensures daily[i].month in ks {
      assert MonthsOf(daily)[i] == daily[i].month;
      assert (MonthsOf(weekly) + MonthsOf(daily))[|weekly| + i] == daily[i].month;
    }
    SumTalliesPartition(weekly, ks);
    SumTalliesPartition(daily, ks);
  }

  datatype Summary = Summary(plan: Counts, actual: Counts, achievement: Rates)

  datatype ActivityStatsData = ActivityStatsData(monthly: seq<MonthStats>, summary: Summary)

  const WeeklyFailed := "주간 계획 데이터를 불러오지 못했습니다."
  const DailyFailed := "일일 업무 데이터를 불러오지 못했습니다."

  /** `getActivityStats` on what the weekly and the daily query of the year
      returned (`None` for a query that failed). */
  method GetActivityStats(year: int, weekly: Option<seq<PlanRow>>, daily: Option<seq<PlanRow>>)
    returns (r: Result<ActivityStatsData, string>)
    ensures weekly.None? ==> r == Err(WeeklyFailed)
    ensures weekly.Some? && daily.None? ==> r == Err(DailyFailed)
    ensures weekly.Some? && daily.Some? ==> r.Ok?
    ensures r.Ok? ==> weekly.Some? && daily.Some?
    ensures r.Ok? ==> MonthlyHolds(r.value.monthly, year, weekly.value, daily.value)
    ensures r.Ok? ==> r.value.summary.plan == TallyAll(weekly.value) && r.value.summary.actual == TallyAll(daily.value)
    ensures r.Ok? ==> r.value.summary.achievement == AchievementOf(r.value.summary.plan, r.value.summary.actual)
  {
    if weekly.None? {
      return Err(WeeklyFailed);
    }
    if daily.None? {
      return Err(DailyFailed);
    }
    var keys, vals := CountMonths(year, weekly.value, daily.value);
    var monthly := AddAchievements(SortBy(vals, EntryMonth));
    SortedEntries(keys, vals, year, weekly.value, daily.value);
    var plan, actual := SumMonths(monthly);
    SummaryCounts(monthly, year, weekly.value, daily.value);
    r := Ok(ActivityStatsData(monthly, Summary(plan, actual, AchievementOf(plan, actual))));
  }
}
