/**
 * The construction sales score page: the request it sends for the chosen
 * user, branch and period, the rows it expands, the activity history it
 * draws under an expanded row, and the rows of its quote and meeting
 * tables. The scores themselves come from the statistics the server
 * computes (module ConstructionScoreStats).
 */
module ConstructionSalesScore {
  import opened Wrappers
  import opened Text
  import opened RecordRules
  import opened ConstructionScoreStats

  // ---------------------------------------------------------------------
  // The request

  datatype ViewMode = MonthView | YearView

  /** The branch select of a multi-branch user: 'all', '본점' or '인천'. */
  datatype BranchChoice = AllBranches | HeadOfficeBranch | IncheonBranch

  /** The logged-in user as the page sees it. */
  datatype Viewer = Viewer(id: string, name: string, role: string)

  /** The filter state; an empty string is an empty selection. */
  datatype Filters = Filters(selectedUser: string, selectedCreatedBy: string, selectedBranch: BranchChoice,
                             year: int, month: int, viewMode: ViewMode)

  const MonthEndpoint: string := "/api/construction-score-stats/month"
  const YearEndpoint: string := "/api/construction-score-stats/year"

  /** `URLSearchParams`: the name-value pairs in the order appended. */
  type Params = seq<(string, string)>

  /** `params.get(name)`: the first value appended under `name`. */
  function ParamValue(ps: Params, name: string): (r: Option<string>)
    ensures r.Some? ==> (name, r.value) in ps
    ensures r.None? <==> forall i :: 0 <= i < |ps| ==> ps[i].0 != name
  {
    if ps == [] then None
    else if ps[0].0 == name then Some(ps[0].1)
    else
      var r := ParamValue(ps[1..], name);
      assert forall i :: 1 <= i < |ps| ==> ps[i] == ps[1..][i - 1];
      r
  }

  /** Whose daily plans a score query reads. */
  datatype AuthorFilter = ByCreatedBy(name: string) | ByUserId(id: string) | Everyone

  /** The score query's author filter for the request's parameters: a
      non-empty `created_by` wins over a non-empty `user_id`, and without
      either every user's plans are read. */
  function ServerFilter(ps: Params): (f: AuthorFilter)
    ensures f.ByCreatedBy? ==> ParamValue(ps, "created_by") == Some(f.name) && f.name != ""
    ensures f.ByUserId? ==> ParamValue(ps, "user_id") == Some(f.id) && f.id != ""
    ensures f.Everyone? <==>
      (ParamValue(ps, "created_by") in {None, Some("")} && ParamValue(ps, "user_id") in {None, Some("")})
  {
    var createdBy := ParamValue(ps, "created_by");
    var userId := ParamValue(ps, "user_id");
    if createdBy.Some? && createdBy.value != "" then ByCreatedBy(createdBy.value)
    else if userId.Some? && userId.value != "" then ByUserId(userId.value)
    else Everyone
  }

  /** The author an admin's filters ask for. */
  function AdminFilter(f: Filters): AuthorFilter {
    if f.selectedCreatedBy != "" then ByCreatedBy(f.selectedCreatedBy)
    else if f.selectedUser != "" then ByUserId(f.selectedUser) else Everyone
  }

  /** The author part of the request: on `created_by` when an admin chose
      an author name, else on `user_id` when an admin chose a user, else
      nothing for an admin; a multi-branch user who picked a branch asks
      for that branch's author name; anyone else asks for their own id. */
  method AuthorParams(user: Viewer, f: Filters) returns (params: Params)
    ensures |params| <= 1 && forall i :: 0 <= i < |params| ==> params[i].0 in {"created_by", "user_id"}
    ensures user.role == "admin" ==>
      ServerFilter(params) == AdminFilter(f)
    ensures user.role != "admin" && IsMultiBranch(user.name) && f.selectedBranch != AllBranches ==>
      ServerFilter(params) ==
        ByCreatedBy(if f.selectedBranch == IncheonBranch then IncheonName(user.name) else user.name)
    ensures user.role != "admin" && !(IsMultiBranch(user.name) && f.selectedBranch != AllBranches) ==>
      ParamValue(params, "user_id") == Some(user.id) && ParamValue(params, "created_by") == None
  {
    params := [];
    if user.role == "admin" {
      if f.selectedCreatedBy != "" {
        params := params + [("created_by", f.selectedCreatedBy)];
      } else if f.selectedUser != "" {
        params := params + [("user_id", f.selectedUser)];
      }
    } else if IsMultiBranch(user.name) && f.selectedBranch != AllBranches {
      var createdByValue := if f.selectedBranch == IncheonBranch then IncheonName(user.name) else user.name;
      assert createdByValue != "" by {
        if f.selectedBranch == IncheonBranch { assert |IncheonName(user.name)| >= 4; }
        else { assert user.name in MultiBranchNames; }
      }
      params := params + [("created_by", createdByValue)];
    } else {
      params := params + [("user_id", user.id)];
    }
  }

  /** The request `fetchScores` sends: the author part, then the period.
      The month view asks the month endpoint for a year and a month, the
      year view the year endpoint for a year; the period leaves the author
      filter as it was. */
  method ScoreRequest(user: Viewer, f: Filters) returns (endpoint: string, params: Params)
    ensures user.role == "admin" ==>
      ServerFilter(params) == AdminFilter(f)
    ensures user.role != "admin" && IsMultiBranch(user.name) && f.selectedBranch != AllBranches ==>
      ServerFilter(params) ==
        ByCreatedBy(if f.selectedBranch == IncheonBranch then IncheonName(user.name) else user.name)
    ensures user.role != "admin" && !(IsMultiBranch(user.name) && f.selectedBranch != AllBranches) ==>
      ParamValue(params, "user_id") == Some(user.id) && ParamValue(params, "created_by") == None
    ensures endpoint == (if f.viewMode == MonthView then MonthEndpoint else YearEndpoint)
    ensures ParamValue(params, "year") == Some(IntToString(f.year))
    ensures ParamValue(params, "month") == (if f.viewMode == MonthView then Some(IntToString(f.month)) else None)
  {
    var author := AuthorParams(user, f);
    var period: Params;
    if f.viewMode == MonthView {
      period := [("year", IntToString(f.year)), ("month", IntToString(f.month))];
    } else {
      period := [("year", IntToString(f.year))];
    }
    params := author + period;
    PeriodParams(author, period);
    endpoint := if f.viewMode == MonthView then MonthEndpoint else YearEndpoint;
  }

  /** Appending parameters under other names leaves a lookup alone, and a
      name the author part lacks is found in the appended part. */
  lemma {:induction false} AppendedParams(a: Params, b: Params, name: string)
    ensures ParamValue(a, name).Some? ==> ParamValue(a + b, name) == ParamValue(a, name)
    ensures ParamValue(a, name).None? ==> ParamValue(a + b, name) == ParamValue(b, name)
    decreases |a|
  {
    if a != [] {
      assert (a + b)[1..] == a[1..] + b;
      AppendedParams(a[1..], b, name);
    } else {
      assert a + b == b;
    }
  }

  /** The period part appended after at most one author parameter. */
  lemma PeriodParams(author: Params, period: Params)
    requires |author| <= 1 && forall i :: 0 <= i < |author| ==> author[i].0 in {"created_by", "user_id"}
    requires forall i :: 0 <= i < |period| ==> period[i].0 in {"year", "month"}
    ensures ParamValue(author + period, "created_by") == ParamValue(author, "created_by")
    ensures ParamValue(author + period, "user_id") == ParamValue(author, "user_id")
    ensures ParamValue(author + period, "year") == ParamValue(period, "year")
    ensures ParamValue(author + period, "month") == ParamValue(period, "month")
    ensures ServerFilter(author + period) == ServerFilter(author)
  {
    AppendedParams(author, period, "created_by");
    AppendedParams(author, period, "user_id");
    AppendedParams(author, period, "year");
    AppendedParams(author, period, "month");
    assert ParamValue(period, "created_by") == None;
    assert ParamValue(period, "user_id") == None;
  }

  /** The admin's user select: the option of an entry has the value of its
      author name, or of its id when it has none; choosing a value looks up
      the first entry it belongs to and selects that entry's id and name. */
  function OptionValue(e: UserEntry): string {
    if e.createdBy.Some? && e.createdBy.value != "" then e.createdBy.value else e.id
  }

  predicate OptionMatches(e: UserEntry, value: string) {
    if e.createdBy.Some? && e.createdBy.value != "" then e.createdBy.value == value else e.id == value
  }

  function FindEntry(users: seq<UserEntry>, value: string): (r: Option<UserEntry>)
    ensures r.Some? ==> r.value in users && OptionMatches(r.value, value)
    ensures r.None? ==> forall i :: 0 <= i < |users| ==> !OptionMatches(users[i], value)
  {
    if users == [] then None
    else if OptionMatches(users[0], value) then Some(users[0])
    else
      assert forall i :: 1 <= i < |users| ==> users[i] == users[1..][i - 1];
      FindEntry(users[1..], value)
  }

  function SelectUser(users: seq<UserEntry>, value: string, f: Filters): (g: Filters)
    ensures FindEntry(users, value).None? ==> g == f
    ensures g.selectedBranch == f.selectedBranch && g.year == f.year && g.month == f.month && g.viewMode == f.viewMode
  {
    match FindEntry(users, value)
    case None => f
    case Some(u) =>
      f.(selectedUser := u.id, selectedCreatedBy := if u.createdBy.Some? then u.createdBy.value else "")
  }

  /** Whatever entry the lookup finds, an admin's next request filters on
      exactly the value chosen: as an author name when the entry has one,
      as a user id otherwise. */
  lemma SelectedValueIsFiltered(users: seq<UserEntry>, value: string, f: Filters)
    requires value != "" && FindEntry(users, value).Some?
    ensures var u := FindEntry(users, value).value;
      AdminFilter(SelectUser(users, value, f)) ==
      (if u.createdBy.Some? && u.createdBy.value != "" then ByCreatedBy(value) else ByUserId(value))
  {
  }

  /** The option of an entry finds an entry with the same filter value. */
  lemma EntryOptionSelectable(users: seq<UserEntry>, i: nat)
    requires i < |users|
    ensures FindEntry(users, OptionValue(users[i])).Some?
  {
    assert OptionMatches(users[i], OptionValue(users[i]));
  }

  // ---------------------------------------------------------------------
  // Expanded rows

  /** `${constructionId}_${itemId}`. */
  function RowKey(constructionId: int, itemId: int): string {
    IntToString(constructionId) + "_" + IntToString(itemId)
  }

  lemma IntToStringHasNoUnderscore(i: int)
    ensures forall k :: 0 <= k < |IntToString(i)| ==> IntToString(i)[k] != '_'
  {
    if i < 0 {
      assert forall k :: 1 <= k < |IntToString(i)| ==> IntToString(i)[k] == NatToString(-i)[k - 1];
    }
  }

  lemma IntToStringInjective(a: int, b: int)
    requires IntToString(a) == IntToString(b)
    ensures a == b
  {
    if a < 0 && b < 0 {
      assert NatToString(-a) == IntToString(a)[1..];
      NatToStringInjective(-a, -b);
    } else if a >= 0 && b >= 0 {
      NatToStringInjective(a, b);
    }
  }

  /** Different rows have different keys: the first underscore of a key
      ends the construction id. */
  lemma RowKeyInjective(c1: int, i1: int, c2: int, i2: int)
    requires RowKey(c1, i1) == RowKey(c2, i2)
    ensures c1 == c2 && i1 == i2
  {
    var a, b := IntToString(c1), IntToString(c2);
    var k := RowKey(c1, i1);
    IntToStringHasNoUnderscore(c1);
    IntToStringHasNoUnderscore(c2);
    var k2 := RowKey(c2, i2);
    assert k[|a|] == '_' && k2[|b|] == '_';
    assert forall j :: 0 <= j < |a| ==> k[j] == a[j];
    assert forall j :: 0 <= j < |b| ==> k2[j] == b[j];
    assert |a| == |b|;
    assert a == k[..|a|] == b;
    IntToStringInjective(c1, c2);
    assert IntToString(i1) == k[|a| + 1..] == IntToString(i2);
    IntToStringInjective(i1, i2);
  }

  /** A toggled set: `key` flips, every other key keeps its state. */
  function Toggled(expanded: set<string>, key: string): (r: set<string>)
    ensures key in r <==> key !in expanded
    ensures forall k :: k != key ==> (k in r <==> k in expanded)
  {
    if key in expanded then expanded - {key} else expanded + {key}
  }

  /** `toggleQuoteRowExpansion` / `toggleMeetingRowExpansion`: copy the set,
      delete the row's key from the copy when present, add it otherwise. */
  method ToggleRowExpansion(expanded: set<string>, constructionId: int, itemId: int) returns (next: set<string>)
    ensures next == Toggled(expanded, RowKey(constructionId, itemId))
  {
    var key := RowKey(constructionId, itemId);
    next := expanded;
    if key in next {
      next := next - {key};
    } else {
      next := next + {key};
    }
  }

  /** `isQuoteRowExpanded` / `isMeetingRowExpanded`. */
  predicate IsRowExpanded(expanded: set<string>, constructionId: int, itemId: int) {
    RowKey(constructionId, itemId) in expanded
  }

  /** A click flips its own row and no other. */
  lemma ToggleFlipsOnlyItsRow(expanded: set<string>, c: int, i: int, c2: int, i2: int)
    ensures IsRowExpanded(Toggled(expanded, RowKey(c, i)), c2, i2) <==>
      (if c2 == c && i2 == i then !IsRowExpanded(expanded, c, i) else IsRowExpanded(expanded, c2, i2))
  {
    if RowKey(c2, i2) == RowKey(c, i) {
      RowKeyInjective(c2, i2, c, i);
    }
  }

  /** Two clicks on a row restore the set. */
  lemma ToggleTwice(expanded: set<string>, key: string)
    ensures Toggled(Toggled(expanded, key), key) == expanded
  {
  }

  // ---------------------------------------------------------------------
  // Activity history

  /** One line of an expanded row, in tenths of a point. */
  datatype HistoryEntry = HistoryEntry(date: string, incrementTenths: nat, cumulativeTenths: nat)

  /** `calculateActivityHistory`: the first date adds a point, each later
      one a tenth, and each line shows the score reached. */
  function ActivityHistory(activities: seq<string>): (h: seq<HistoryEntry>)
    ensures |h| == |activities|
    ensures forall i :: 0 <= i < |h| ==> h[i].date == activities[i]
  {
    seq(|activities|, i requires 0 <= i < |activities| =>
      HistoryEntry(activities[i], if i == 0 then 10 else 1, if i == 0 then 10 else 10 + i))
  }

  function SumIncrements(h: seq<HistoryEntry>): nat {
    if h == [] then 0 else SumIncrements(h[..|h| - 1]) + h[|h| - 1].incrementTenths
  }

  /** Each cumulative score is the sum of the increments up to its line. */
  lemma {:induction false} CumulativeIsRunningSum(activities: seq<string>, k: nat)
    requires k < |activities|
    ensures ActivityHistory(activities)[k].cumulativeTenths == SumIncrements(ActivityHistory(activities)[..k + 1])
  {
    var h := ActivityHistory(activities);
    if k > 0 {
      CumulativeIsRunningSum(activities, k - 1);
      assert h[..k + 1][..k] == h[..k];
    } else {
      assert h[..1][..0] == [];
    }
  }

  /** The last line reaches the score the server computes for that many
      activities. */
  lemma HistoryEndsAtScore(activities: seq<string>)
    requires activities != []
    ensures ActivityHistory(activities)[|activities| - 1].cumulativeTenths == ScoreTenths(|activities|)
  {
  }

  /** For an item score the server produced, the quote history ends at the
      quote score and the meeting history at the meeting score. */
  lemma HistoriesMatchItemScore(e: Entry)
    ensures var s := ScoreItem(e);
      (s.quoteCount > 0 ==> ActivityHistory(s.quoteDates)[s.quoteCount - 1].cumulativeTenths == s.quoteScore) &&
      (s.meetingCount > 0 ==> ActivityHistory(s.meetingDates)[s.meetingCount - 1].cumulativeTenths == s.meetingScore)
  {
    var s := ScoreItem(e);
    assert |s.quoteDates| == s.quoteCount && |s.meetingDates| == s.meetingCount;
    if s.quoteCount > 0 { HistoryEndsAtScore(s.quoteDates); }
    if s.meetingCount > 0 { HistoryEndsAtScore(s.meetingDates); }
  }

  // ---------------------------------------------------------------------
  // Table rows

  /** A table row: the construction's rank (its position plus one), its
      name, and the item. */
  datatype Row = Row(rank: nat, constructionName: string, item: ItemScore)

  /** The count a table shows: quotes for the quote table, meetings for the meeting table. */
  function CountIn(item: ItemScore, quote: bool): nat {
    if quote then item.quoteCount else item.meetingCount
  }

  /** `item_scores.filter(...).map(...)` for the construction at `index`. */
  function RowsOf(index: nat, score: ConstructionStats, quote: bool): (r: seq<Row>)
    ensures forall row :: row in r <==>
      row.rank == index + 1 && row.constructionName == score.constructionName &&
      row.item in score.itemScores && CountIn(row.item, quote) > 0
    decreases |score.itemScores|
  {
    var items := score.itemScores;
    if items == [] then []
    else
      var front := RowsOf(index, score.(itemScores := items[..|items| - 1]), quote);
      var x := items[|items| - 1];
      assert items == items[..|items| - 1] + [x];
      if CountIn(x, quote) > 0 then front + [Row(index + 1, score.constructionName, x)] else front
  }

  /** `scores.flatMap(...)`: the rows of every construction in rank order. */
  function TableRows(scores: seq<ConstructionStats>, quote: bool): (r: seq<Row>)
    ensures forall row :: row in r ==> 1 <= row.rank <= |scores| && CountIn(row.item, quote) > 0
    ensures forall k, item :: 0 <= k < |scores| ==>
      (Row(k + 1, scores[k].constructionName, item) in r <==>
       item in scores[k].itemScores && CountIn(item, quote) > 0)
    decreases |scores|
  {
    if scores == [] then []
    else
      var n := |scores| - 1;
      var front := TableRows(scores[..n], quote);
      assert forall k :: 0 <= k < n ==> scores[..n][k] == scores[k];
      front + RowsOf(n, scores[n], quote)
  }

  /** The quote table lists exactly the items with a quote, and the meeting
      table exactly the items with a meeting, each under its construction. */
  lemma TablesSplitByActivity(scores: seq<ConstructionStats>, k: nat, item: ItemScore)
    requires k < |scores| && item in scores[k].itemScores
    ensures Row(k + 1, scores[k].constructionName, item) in TableRows(scores, true) <==> item.quoteCount > 0
    ensures Row(k + 1, scores[k].constructionName, item) in TableRows(scores, false) <==> item.meetingCount > 0
  {
  }
}
