/**
 * The collection records module: the list query's month range, filters
 * and pagination, the author names of create and update, the outstanding
 * balance stored with a record, and the ownership rule of update and
 * delete, which (unlike the other record modules) has no admin override.
 */
module Collections {
  import opened Wrappers
  import opened RecordRules
  import opened MonthRanges

  // ---------------------------------------------------------------------
  // The list query

  /** `user_id` and `created_by` filters, each applied when given, so
      both hold together when both are given. */
  function CollectionFilters(userId: Option<string>, createdBy: Option<string>): (fs: seq<Filter>)
    ensures |fs| <= 2
    ensures userId.Some? && userId.value != "" ==> Eq("user_id", userId.value) in fs
    ensures createdBy.Some? && createdBy.value != "" ==> Eq("created_by", createdBy.value) in fs
    ensures forall f :: f in fs ==>
      || (f.column == "user_id" && userId == Some(f.value) && f.value != "")
      || (f.column == "created_by" && createdBy == Some(f.value) && f.value != "")
  {
    EqIfGiven("user_id", userId) + EqIfGiven("created_by", createdBy)
  }

  /** What `getCollectionRecords` asks the database for: the date strings,
      the author filters and the row range of the page. */
  datatype ListQuery = ListQuery(start: string, end: string, filters: seq<Filter>, from: int, to: int)

  function CollectionListQuery(userId: Option<string>, createdBy: Option<string>, year: int, month: int,
                               page: Option<int>, limit: Option<int>): (q: ListQuery)
    ensures (q.start, q.end) == MonthRangeText(year, month)
    ensures q.filters == CollectionFilters(userId, createdBy)
    ensures q.from == (GetOr(page, 1) - 1) * GetOr(limit, 20)
    ensures q.to - q.from + 1 == GetOr(limit, 20)
  {
    var p := GetOr(page, 1);
    var l := GetOr(limit, 20);
    ListQuery(MonthRangeText(year, month).0, MonthRangeText(year, month).1, CollectionFilters(userId, createdBy),
              Offset(p, l), RangeEnd(p, l))
  }

  /** The list response's pagination object. */
  function CollectionPagination(count: Option<nat>, page: Option<int>, limit: Option<int>): (p: Pagination)
    requires GetOr(limit, 20) > 0
    ensures p.total == GetOr(count, 0) && p.page == GetOr(page, 1) && p.limit == GetOr(limit, 20)
    ensures p.totalPages * p.limit >= p.total && (p.totalPages > 0 ==> (p.totalPages - 1) * p.limit < p.total)
  {
    PaginationOf(count, page, limit)
  }

  // ---------------------------------------------------------------------
  // Author names

  /** Create's author: the Incheon name whenever the payload's branch is
      인천, whoever the user is. */
  function CreateAuthor(name: string, branch: Value): (a: string)
    ensures a == IncheonName(name) <==> branch == Str(Incheon)
    ensures a == name <==> branch != Str(Incheon)
  {
    if branch == Str(Incheon) then IncheonName(name) else name
  }

  /** For a multi-branch user create and update name the author alike;
      for anyone else sending 인천, create suffixes the name and update
      does not. */
  lemma CreateAndUpdateAuthors(name: string, branch: Value)
    ensures IsMultiBranch(name) ==> CreateAuthor(name, branch) == BranchAuthor(name, branch)
    ensures !IsMultiBranch(name) && branch == Str(Incheon) ==>
      CreateAuthor(name, branch) == IncheonName(name) && BranchAuthor(name, branch) == name
  {
  }

  // ---------------------------------------------------------------------
  // The outstanding balance

  /** A row of monthly_collection, the outstanding amounts an admin uploaded. */
  datatype MonthlyCollectionRow = MonthlyCollectionRow(year: int, month: int, managerName: string,
                                                       outstandingAmount: Option<int>)

  predicate RowFor(r: MonthlyCollectionRow, year: int, month: int, name: string) {
    r.year == year && r.month == month && r.managerName == name
  }

  /** The monthly_collection rows of a manager's month, in table order. */
  function RowsFor(table: seq<MonthlyCollectionRow>, year: int, month: int, name: string): (rs: seq<MonthlyCollectionRow>)
    ensures |rs| <= |table|
    ensures forall r :: r in rs <==> r in table && RowFor(r, year, month, name)
    decreases |table|
  {
    if table == [] then []
    else
      var front := RowsFor(table[..|table| - 1], year, month, name);
      var x := table[|table| - 1];
      assert table == table[..|table| - 1] + [x];
      if RowFor(x, year, month, name) then front + [x] else front
  }

  /** `monthlyCollectionData?.outstanding_amount || 0` after a `.single()`
      lookup of the manager's month (`None` when the query failed): the
      amount of the one matching row, and 0 without exactly one. */
  function MonthlyOutstanding(table: Option<seq<MonthlyCollectionRow>>, year: int, month: int, name: string): (o: int)
    ensures o != 0 ==> table.Some? && |RowsFor(table.value, year, month, name)| == 1
    ensures o != 0 ==> exists r :: r in table.value && RowFor(r, year, month, name) && r.outstandingAmount == Some(o)
    ensures table.Some? && |RowsFor(table.value, year, month, name)| == 1 ==>
      o == GetOr(RowsFor(table.value, year, month, name)[0].outstandingAmount, 0)
  {
    if table.Some? && |RowsFor(table.value, year, month, name)| == 1 then
      var row := RowsFor(table.value, year, month, name)[0];
      assert row in RowsFor(table.value, year, month, name);
      GetOr(row.outstandingAmount, 0)
    else 0
  }

  /** `data.collection_amount || 0` for a numeric amount. */
  function AmountOrZero(v: Value): (n: int)
    ensures !Truthy(v) ==> n == 0
    ensures v.Num? ==> n == v.n
  {
    if v.Num? then v.n else 0
  }

  /** The balance left after a collection: the month's outstanding amount
      less the collected amount. */
  function OutstandingBalance(monthly: int, amount: Value): (b: int)
    ensures b + AmountOrZero(amount) == monthly
    ensures !Truthy(amount) ==> b == monthly
  {
    monthly - AmountOrZero(amount)
  }

  // ---------------------------------------------------------------------
  // Create and update

  /** The columns both `insert` and `update` write, less the author columns. */
  datatype CollectionRow = CollectionRow(
    cmsId: Value,
    cmsCode: Value,
    siteName: Value,
    siteAddress: Value,
    salesManager: Value,
    constructionManager: Value,
    collectionDate: Value,
    collectionAmount: Value,
    outstandingBalance: int)

  datatype CollectionInsert = CollectionInsert(userId: string, row: CollectionRow, createdBy: string)

  datatype CollectionUpdate = CollectionUpdate(row: CollectionRow, createdBy: string, updatedBy: string)

  /** The row copies the payload's fields, and its balance is the
      manager's outstanding amount for the month less the collection. */
  predicate StoredFor(row: CollectionRow, data: Record, table: Option<seq<MonthlyCollectionRow>>,
                      year: int, month: int, userName: string) {
    && row.cmsId == Get(data, "cms_id")
    && row.cmsCode == Get(data, "cms_code")
    && row.siteName == Get(data, "site_name")
    && row.siteAddress == Get(data, "site_address")
    && row.salesManager == Get(data, "sales_manager")
    && row.constructionManager == Get(data, "construction_manager")
    && row.collectionDate == Get(data, "collection_date")
    && row.collectionAmount == Get(data, "collection_amount")
    && row.outstandingBalance + AmountOrZero(Get(data, "collection_amount")) == MonthlyOutstanding(table, year, month, userName)
  }

  /** The monthly lookup and the row shared by create and update; `year`
      and `month` are those of the collection date. */
  method BuildRow(data: Record, table: Option<seq<MonthlyCollectionRow>>, year: int, month: int, userName: string)
    returns (row: CollectionRow)
    ensures StoredFor(row, data, table, year, month, userName)
  {
    var monthlyOutstanding := MonthlyOutstanding(table, year, month, userName);
    var outstandingBalance := OutstandingBalance(monthlyOutstanding, Get(data, "collection_amount"));
    row := CollectionRow(Get(data, "cms_id"), Get(data, "cms_code"), Get(data, "site_name"), Get(data, "site_address"),
                         Get(data, "sales_manager"), Get(data, "construction_manager"),
                         Get(data, "collection_date"), Get(data, "collection_amount"), outstandingBalance);
  }

  /** `createCollectionRecord`. */
  method CreateCollectionRecord(userId: string, userName: string, data: Record, table: Option<seq<MonthlyCollectionRow>>,
                                year: int, month: int) returns (ins: CollectionInsert)
    ensures ins.userId == userId
    ensures ins.createdBy == CreateAuthor(userName, Get(data, "branch"))
    ensures StoredFor(ins.row, data, table, year, month, userName)
  {
    var createdBy := userName;
    if Get(data, "branch") == Str(Incheon) {
      createdBy := userName + BranchSuffix;
    }
    var row := BuildRow(data, table, year, month, userName);
    ins := CollectionInsert(userId, row, createdBy);
  }

  /** The id and owner of a collections row. */
  datatype CollectionKey = CollectionKey(id: int, userId: string)

  /** The rows `.eq('id', id).eq('user_id', caller)` selects. */
  function OwnedRows(records: seq<CollectionKey>, id: int, caller: string): (rs: seq<CollectionKey>)
    ensures forall r :: r in rs <==> r in records && r == CollectionKey(id, caller)
    decreases |records|
  {
    if records == [] then []
    else
      var front := OwnedRows(records[..|records| - 1], id, caller);
      var x := records[|records| - 1];
      assert records == records[..|records| - 1] + [x];
      if x == CollectionKey(id, caller) then front + [x] else front
  }

  /** The `.single()` lookup of the caller's record with that id succeeds. */
  predicate FoundOwned(records: seq<CollectionKey>, id: int, caller: string) {
    |OwnedRows(records, id, caller)| == 1
  }

  /** No two rows share an id, as for a primary key. */
  predicate UniqueIds(records: seq<CollectionKey>) {
    forall i, j :: 0 <= i < j < |records| ==> records[i].id != records[j].id
  }

  /** With unique ids the lookup succeeds exactly when the row with that
      id belongs to the caller. */
  lemma {:induction false} FoundOwnedIffOwner(records: seq<CollectionKey>, id: int, caller: string)
    requires UniqueIds(records)
    ensures FoundOwned(records, id, caller) <==> CollectionKey(id, caller) in records
    decreases |records|
  {
    if records != [] {
      var front := records[..|records| - 1];
      var x := records[|records| - 1];
      assert UniqueIds(front) by {
        forall i, j | 0 <= i < j < |front| ensures front[i].id != front[j].id {
          assert front[i] == records[i] && front[j] == records[j];
        }
      }
      FoundOwnedIffOwner(front, id, caller);
      assert records == front + [x];
      if x == CollectionKey(id, caller) {
        forall i | 0 <= i < |front| ensures front[i] != CollectionKey(id, caller) {
          assert records[i].id != records[|records| - 1].id;
        }
        OwnedRowsEmpty(front, id, caller);
      }
    }
  }

  /** No row is selected when the caller owns no row with that id. */
  lemma {:induction false} OwnedRowsEmpty(records: seq<CollectionKey>, id: int, caller: string)
    requires CollectionKey(id, caller) !in records
    ensures OwnedRows(records, id, caller) == []
    decreases |records|
  {
    if records != [] {
      var front := records[..|records| - 1];
      assert records == front + [records[|records| - 1]];
      OwnedRowsEmpty(front, id, caller);
    }
  }

  const UpdateNotFoundOrDenied := "수금 기록을 찾을 수 없거나 수정 권한이 없습니다."

  /** `updateCollectionRecord`: only the caller's own record can be
      updated, whatever the caller's role; the author columns follow the
      branch rule of multi-branch users. */
  method UpdateCollectionRecord(records: seq<CollectionKey>, id: int, userId: string, userName: string, data: Record,
                                table: Option<seq<MonthlyCollectionRow>>, year: int, month: int)
    returns (r: Result<CollectionUpdate, string>)
    ensures r.Ok? <==> FoundOwned(records, id, userId)
    ensures r.Err? ==> r.error == UpdateNotFoundOrDenied
    ensures r.Ok? ==>
      && r.value.createdBy == BranchAuthor(userName, Get(data, "branch"))
      && r.value.updatedBy == r.value.createdBy
      && StoredFor(r.value.row, data, table, year, month, userName)
  {
    if !FoundOwned(records, id, userId) {
      return Err(UpdateNotFoundOrDenied);
    }
    var createdBy := userName;
    var updatedBy := userName;
    if IsMultiBranch(userName) && Truthy(Get(data, "branch")) {
      if Get(data, "branch") == Str(Incheon) {
        createdBy := userName + BranchSuffix;
        updatedBy := userName + BranchSuffix;
      }
    }
    var row := BuildRow(data, table, year, month, userName);
    r := Ok(CollectionUpdate(row, createdBy, updatedBy));
  }

  // ---------------------------------------------------------------------
  // Delete

  /** The table after `delete().eq('id', id).eq('user_id', caller)`. */
  function AfterDelete(records: seq<CollectionKey>, id: int, caller: string): (rest: seq<CollectionKey>)
    ensures |rest| <= |records|
    ensures forall r :: r in rest <==> r in records && !(r.id == id && r.userId == caller)
    decreases |records|
  {
    if records == [] then []
    else
      var front := AfterDelete(records[..|records| - 1], id, caller);
      var x := records[|records| - 1];
      assert records == records[..|records| - 1] + [x];
      if x.id == id && x.userId == caller then front else front + [x]
  }

  /** Deleting a record the caller does not own changes nothing. */
  lemma {:induction false} DeleteOthersKeepsAll(records: seq<CollectionKey>, id: int, caller: string)
    requires CollectionKey(id, caller) !in records
    ensures AfterDelete(records, id, caller) == records
    decreases |records|
  {
    if records != [] {
      var front := records[..|records| - 1];
      assert records == front + [records[|records| - 1]];
      DeleteOthersKeepsAll(front, id, caller);
    }
  }
}
