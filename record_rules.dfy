/**
 * Record rules shared by the CRUD modules of the server: the two users who
 * work for both branches and the "(In)" author suffix, LIKE-pattern
 * escaping, pagination arithmetic, the admin-or-owner permission, request
 * payloads as JavaScript objects, `cms_id` resolution against the
 * construction_management sites, and the user list expanded per branch.
 */
module RecordRules {
  import opened Wrappers
  import opened Text

  const Incheon: string := "인천"
  const HeadOffice: string := "본점"
  const BranchSuffix: string := "(In)"

  /** The users who record activity for both the head office and Incheon. */
  const MultiBranchNames: set<string> := {"송기정", "김태현"}

  predicate IsMultiBranch(name: string) { name in MultiBranchNames }

  /** The author name used for a multi-branch user's Incheon records. */
  function IncheonName(name: string): (r: string)
    ensures |r| == |name| + 4 && r[..|name|] == name
  {
    name + BranchSuffix
  }

  // ---------------------------------------------------------------------
  // Request payloads

  /** The values a JSON request payload can carry in the fields the rules read. */
  datatype Value = Str(s: string) | Num(n: int) | Bool(b: bool) | Null | Undefined

  /** A JavaScript object: field name to value. */
  type Record = map<string, Value>

  /** `obj.key`, undefined when the key is missing. */
  function Get(r: Record, k: string): Value { if k in r then r[k] else Undefined }

  /** JavaScript truthiness. */
  predicate Truthy(v: Value) {
    match v
    case Str(s) => s != ""
    case Num(n) => n != 0
    case Bool(b) => b
    case Null => false
    case Undefined => false
  }

  /** The text a value is compared as in an equality filter. */
  function TextOf(v: Value): Option<string> {
    match v
    case Str(s) => Some(s)
    case Num(n) => Some(IntToString(n))
    case Bool(b) => Some(if b then "true" else "false")
    case Null => None
    case Undefined => None
  }

  /** `const { branch, ...rest } = data`: the payload without its `branch` key. */
  function WithoutBranch(r: Record): (out: Record)
    ensures "branch" !in out
    ensures forall k :: k != "branch" ==> (k in out <==> k in r) && (k in out ==> out[k] == r[k])
  {
    r - {"branch"}
  }

  /** `{ user_id: userId, ...data, created_by: author }`: fields of the
      payload override `user_id`, and `created_by` overrides the payload's. */
  function SpreadInsert(data: Record, userId: string, author: string): (row: Record)
    ensures "created_by" in row && row["created_by"] == Str(author)
    ensures "user_id" in row && row["user_id"] == (if "user_id" in data then data["user_id"] else Str(userId))
    ensures forall k :: k != "user_id" && k != "created_by" ==> (k in row <==> k in data) && (k in row ==> row[k] == data[k])
  {
    (map["user_id" := Str(userId)] + data)["created_by" := Str(author)]
  }

  /** `{ ...data, column: name }`: the payload with one column set. */
  function SpreadSet(data: Record, column: string, v: Value): (row: Record)
    ensures column in row && row[column] == v
    ensures forall k :: k != column ==> (k in row <==> k in data) && (k in row ==> row[k] == data[k])
  {
    data[column := v]
  }

  // ---------------------------------------------------------------------
  // Author names

  /** The author name of a sales activity or daily plan and of a
      collection update: the Incheon name for a multi-branch user whose
      payload says branch 인천, the plain name otherwise. */
  function BranchAuthor(name: string, branch: Value): (a: string)
    ensures a == IncheonName(name) <==> IsMultiBranch(name) && branch == Str(Incheon)
    ensures a == name <==> !(IsMultiBranch(name) && branch == Str(Incheon))
  {
    if IsMultiBranch(name) && Truthy(branch) && branch == Str(Incheon) then IncheonName(name) else name
  }

  /** The author names whose records a statistics query reads: both
      branch names for a multi-branch user who asked for all branches. */
  function AuthorNames(name: string, showAllBranches: bool): (names: set<string>)
    ensures name in names
    ensures IncheonName(name) in names <==> IsMultiBranch(name) && showAllBranches
    ensures forall n :: n in names ==> n == name || n == IncheonName(name)
  {
    if IsMultiBranch(name) && showAllBranches then {name, IncheonName(name)} else {name}
  }

  /** A query's `.eq(column, name)`, or `.or(column.eq.name,
      column.eq.name(In))`: the rows whose author column holds one of the
      names, in table order. */
  function ByAuthor<T(!new)>(rows: seq<T>, author: T -> string, names: set<string>): (r: seq<T>)
    ensures |r| <= |rows|
    ensures forall x :: x in r <==> x in rows && author(x) in names
    decreases |rows|
  {
    if rows == [] then []
    else
      var front := ByAuthor(rows[..|rows| - 1], author, names);
      var x := rows[|rows| - 1];
      assert rows == rows[..|rows| - 1] + [x];
      if author(x) in names then front + [x] else front
  }

  // ---------------------------------------------------------------------
  // LIKE patterns

  predicate IsLikeSpecial(c: char) { c == '%' || c == '_' || c == '\\' }

  /** `query.replace(/[%_\\]/g, '\\$&')`. */
  function EscapeLike(s: string): (r: string)
    ensures |r| >= |s|
  {
    if s == [] then []
    else (if IsLikeSpecial(s[0]) then ['\\', s[0]] else [s[0]]) + EscapeLike(s[1..])
  }

  /** Reads an escaped pattern back: a backslash takes the next character literally. */
  function UnescapeLike(p: string): string
    decreases |p|
  {
    if p == [] then []
    else if p[0] == '\\' && |p| >= 2 then [p[1]] + UnescapeLike(p[2..])
    else [p[0]] + UnescapeLike(p[1..])
  }

  /** A pattern that matches only its literal text: every `%`, `_` and `\`
      is preceded by an escaping backslash. */
  predicate LiteralPattern(p: string)
    decreases |p|
  {
    p == []
    || (p[0] == '\\' && |p| >= 2 && IsLikeSpecial(p[1]) && LiteralPattern(p[2..]))
    || (!IsLikeSpecial(p[0]) && LiteralPattern(p[1..]))
  }

  /** Escaping changes nothing but the inserted backslashes, and leaves no
      wildcard unescaped. */
  lemma {:induction false} EscapeLikeRoundTrip(s: string)
    ensures UnescapeLike(EscapeLike(s)) == s
    ensures LiteralPattern(EscapeLike(s))
  {
    if s != [] {
      EscapeLikeRoundTrip(s[1..]);
      var rest := EscapeLike(s[1..]);
      if IsLikeSpecial(s[0]) {
        assert EscapeLike(s) == ['\\', s[0]] + rest;
        assert (['\\', s[0]] + rest)[2..] == rest;
      } else {
        assert EscapeLike(s) == [s[0]] + rest;
        assert ([s[0]] + rest)[1..] == rest;
      }
      assert s == [s[0]] + s[1..];
    }
  }

  function CountLikeSpecial(s: string): nat {
    if s == [] then 0 else (if IsLikeSpecial(s[0]) then 1 else 0) + CountLikeSpecial(s[1..])
  }

  /** One backslash is added per special character and nothing else. */
  lemma {:induction false} EscapeLikeLength(s: string)
    ensures |EscapeLike(s)| == |s| + CountLikeSpecial(s)
  {
    if s != [] { EscapeLikeLength(s[1..]); }
  }

  // ---------------------------------------------------------------------
  // Pagination

  /** `(page - 1) * limit`, the first row of a page. */
  function Offset(page: int, limit: int): int { (page - 1) * limit }

  /** `offset + limit - 1`, the last row of a page (inclusive, as `range` takes it). */
  function RangeEnd(page: int, limit: int): int { Offset(page, limit) + limit - 1 }

  /** `Math.ceil(total / limit)`: the fewest pages of `limit` rows that hold
      `total` rows. */
  function TotalPages(total: nat, limit: int): (p: nat)
    requires limit > 0
    ensures p * limit >= total
    ensures p > 0 ==> (p - 1) * limit < total
  {
    var p := (total + limit - 1) / limit;
    DivBounds(total + limit - 1, limit);
    p
  }

  lemma DivBounds(a: nat, b: int)
    requires b > 0
    ensures (a / b) * b <= a < (a / b) * b + b
  {
  }

  lemma MulMono(x: int, y: int, c: int)
    requires x <= y && c > 0
    ensures x * c <= y * c
  {
  }

  /** The only `k` with `k * b <= a < (k + 1) * b` is `a / b`. */
  lemma DivUnique(a: nat, b: int, k: int)
    requires b > 0 && k * b <= a < k * b + b
    ensures k == a / b
  {
    var d := a / b;
    DivBounds(a, b);
    if k < d {
      MulMono(k + 1, d, b);
    } else if k > d {
      MulMono(d + 1, k, b);
    }
  }

  /** Every row index lies on exactly one page, and that page exists. */
  lemma RowOnOnePage(i: nat, total: nat, limit: int)
    requires limit > 0 && i < total
    ensures var p := i / limit + 1;
      1 <= p <= TotalPages(total, limit) && Offset(p, limit) <= i <= RangeEnd(p, limit)
    ensures forall q :: Offset(q, limit) <= i <= RangeEnd(q, limit) ==> q == i / limit + 1
  {
    var d := i / limit;
    DivBounds(i, limit);
    assert Offset(d + 1, limit) == d * limit;
    var tp := TotalPages(total, limit);
    if tp <= d {
      MulMono(tp, d, limit);
      assert false;
    }
    forall q | Offset(q, limit) <= i <= RangeEnd(q, limit) ensures q == d + 1 {
      assert Offset(q, limit) == (q - 1) * limit;
      DivUnique(i, limit, q - 1);
    }
  }

  /** The `pagination` object of a list response. */
  datatype Pagination = Pagination(total: nat, page: int, limit: int, totalPages: nat)

  /** The list parameters' defaults (`page = 1, limit = 20`) and the
      pagination object built from the query's `count || 0`. */
  function PaginationOf(count: Option<nat>, page: Option<int>, limit: Option<int>): (p: Pagination)
    requires GetOr(limit, 20) > 0
    ensures p.page == GetOr(page, 1) && p.limit == GetOr(limit, 20)
    ensures p.total == GetOr(count, 0)
    ensures p.totalPages * p.limit >= p.total && (p.totalPages > 0 ==> (p.totalPages - 1) * p.limit < p.total)
  {
    var l := GetOr(limit, 20);
    var total := GetOr(count, 0);
    Pagination(total, GetOr(page, 1), l, TotalPages(total, l))
  }

  // ---------------------------------------------------------------------
  // Permissions

  /** Invoice records, daily plans and weekly plans: an admin may change
      any record, anyone else only their own. */
  predicate AdminOrOwner(role: string, owner: string, caller: string) {
    role == "admin" || owner == caller
  }

  /** Why a call was refused: the record lookup failed (the database
      error's own message is not modelled), the caller may not change the
      record, or the input was rejected. */
  datatype Refusal = NotFound | Forbidden(message: string) | InvalidInput(message: string)

  const UpdateDenied := "수정 권한이 없습니다."
  const DeleteDenied := "삭제 권한이 없습니다."

  /** The permission step of an update or delete: the record must exist
      (its owner is known) and the caller must be admin or that owner;
      `denied` is the message of a refusal. */
  function CheckAdminOrOwner(owner: Option<string>, role: string, caller: string, denied: string): (r: Result<(), Refusal>)
    ensures r.Ok? <==> owner.Some? && AdminOrOwner(role, owner.value, caller)
    ensures owner.None? ==> r == Err(NotFound)
    ensures owner.Some? && !AdminOrOwner(role, owner.value, caller) ==> r == Err(Forbidden(denied))
  {
    if owner.None? then Err(NotFound)
    else if role != "admin" && owner.value != caller then Err(Forbidden(denied))
    else Ok(())
  }

  /** The delete of an invoice record, a daily plan or a weekly plan:
      `owners` maps each row's id to its user_id. A lookup that finds no
      row fails; a caller who is neither admin nor the owner is refused
      with '삭제 권한이 없습니다.'; otherwise the row is removed and no
      other row changes. The answer comes with the table after the call. */
  function DeleteOwned(owners: map<int, string>, id: int, role: string, caller: string)
    : (r: (Result<(), Refusal>, map<int, string>))
    ensures r.0.Ok? <==> id in owners && AdminOrOwner(role, owners[id], caller)
    ensures id !in owners ==> r.0 == Err(NotFound)
    ensures id in owners && !AdminOrOwner(role, owners[id], caller) ==> r.0 == Err(Forbidden(DeleteDenied))
    ensures r.0.Ok? ==> id !in r.1 && r.1 == owners - {id}
    ensures r.0.Err? ==> r.1 == owners
  {
    var allowed := CheckAdminOrOwner(if id in owners then Some(owners[id]) else None, role, caller, DeleteDenied);
    if allowed.Err? then (Err(allowed.error), owners) else (Ok(()), owners - {id})
  }

  // ---------------------------------------------------------------------
  // Construction sites and cms_id resolution

  /** A row of construction_management. */
  datatype Site = Site(
    id: int,
    cms: string,
    siteName: string,
    siteAddress: string,
    client: string,
    salesManager: string,
    constructionManager: string)

  /** `.eq('id', v)` matches the site. */
  predicate RefersTo(v: Value, site: Site) { v == Num(site.id) || v == Str(IntToString(site.id)) }

  /** `.eq('cms', v)` matches the site. */
  predicate HasCode(site: Site, v: Value) { TextOf(v) == Some(site.cms) }

  predicate Exists(sites: seq<Site>, v: Value) { exists i :: 0 <= i < |sites| && RefersTo(v, sites[i]) }

  /** The position of the first site with code `v` (`sites[0]` of the lookup). */
  function FirstWithCode(sites: seq<Site>, v: Value): (r: Option<nat>)
    ensures r.Some? ==> r.value < |sites| && HasCode(sites[r.value], v)
    ensures r.Some? ==> forall j :: 0 <= j < r.value ==> !HasCode(sites[j], v)
    ensures r.None? <==> forall j :: 0 <= j < |sites| ==> !HasCode(sites[j], v)
  {
    if sites == [] then None
    else if HasCode(sites[0], v) then Some(0)
    else match FirstWithCode(sites[1..], v)
      case None => None
      case Some(j) => Some(j + 1)
  }

  /** The position of the first site that `v` names (`.eq('id', v).single()`;
      ids are the table's primary key). */
  function FirstWithId(sites: seq<Site>, v: Value): (r: Option<nat>)
    ensures r.Some? ==> r.value < |sites| && RefersTo(v, sites[r.value])
    ensures r.None? <==> !Exists(sites, v)
  {
    if sites == [] then None
    else if RefersTo(v, sites[0]) then Some(0)
    else match FirstWithId(sites[1..], v)
      case None =>
        assert forall j :: 1 <= j < |sites| ==> sites[j] == sites[1..][j - 1];
        None
      case Some(j) => Some(j + 1)
  }

  /** The `cms_id` a payload is stored with: a truthy id that names a site
      is kept; otherwise the id of the first site whose cms equals a truthy
      `cms_code`; otherwise null for a truthy id, and the falsy id itself
      for a falsy one. A truthy result always names a site. */
  function ResolvedCmsId(data: Record, sites: seq<Site>): (v: Value)
    ensures var id := Get(data, "cms_id");
      Truthy(id) && Exists(sites, id) ==> v == id
    ensures var id, code := Get(data, "cms_id"), Get(data, "cms_code");
      !(Truthy(id) && Exists(sites, id)) && Truthy(code) && FirstWithCode(sites, code).Some? ==>
        v == Num(sites[FirstWithCode(sites, code).value].id)
    ensures var id, code := Get(data, "cms_id"), Get(data, "cms_code");
      !(Truthy(id) && Exists(sites, id)) && !(Truthy(code) && FirstWithCode(sites, code).Some?) ==>
        !Truthy(v) && (Truthy(id) ==> v == Null)
    ensures Truthy(v) ==> Exists(sites, v)
  {
    var id, code := Get(data, "cms_id"), Get(data, "cms_code");
    if Truthy(id) && Exists(sites, id) then id
    else if Truthy(code) && FirstWithCode(sites, code).Some? then
      var k := FirstWithCode(sites, code).value;
      assert RefersTo(Num(sites[k].id), sites[k]);
      Num(sites[k].id)
    else if Truthy(id) then Null
    else id
  }

  /** Resolves the payload's site reference in two steps: a truthy `cms_id`
      that names no site is set to null; then a falsy `cms_id` is set to
      the id of the first site whose cms equals a truthy `cms_code`. */
  method ResolveCmsId(data: Record, sites: seq<Site>) returns (out: Record)
    ensures Get(out, "cms_id") == ResolvedCmsId(data, sites)
    ensures forall k :: k != "cms_id" ==> (k in out <==> k in data) && (k in out ==> out[k] == data[k])
    ensures var id := Get(data, "cms_id");
      Truthy(id) && Exists(sites, id) ==> out == data
    ensures var id, code := Get(data, "cms_id"), Get(data, "cms_code");
      !(Truthy(id) && Exists(sites, id)) && Truthy(code) && FirstWithCode(sites, code).Some? ==>
        Get(out, "cms_id") == Num(sites[FirstWithCode(sites, code).value].id)
    ensures var id, code := Get(data, "cms_id"), Get(data, "cms_code");
      !(Truthy(id) && Exists(sites, id)) && !(Truthy(code) && FirstWithCode(sites, code).Some?) ==>
        out == (if Truthy(id) then data["cms_id" := Null] else data)
  {
    out := data;
    if Truthy(Get(out, "cms_id")) && !Exists(sites, Get(out, "cms_id")) {
      out := out["cms_id" := Null];
    }
    if !Truthy(Get(out, "cms_id")) && Truthy(Get(out, "cms_code")) {
      var first := FirstWithCode(sites, Get(out, "cms_code"));
      if first.Some? {
        out := out["cms_id" := Num(sites[first.value].id)];
      }
    }
  }

  // ---------------------------------------------------------------------
  // Site search

  /** `column.ilike.*q*` with `q` escaped: the column contains the query
      as literal text, ignoring case. */
  predicate ColumnMatches(column: string, query: string) {
    Contains(ToLower(column), ToLower(query))
  }

  /** The search's `.or(...)` over cms, site_name, site_address and client. */
  predicate SiteMatches(site: Site, query: string) {
    ColumnMatches(site.cms, query) || ColumnMatches(site.siteName, query) ||
    ColumnMatches(site.siteAddress, query) || ColumnMatches(site.client, query)
  }

  /** The matching sites, in table order. */
  function Matching(sites: seq<Site>, query: string): (r: seq<Site>)
    ensures |r| <= |sites|
    ensures forall s :: s in r <==> s in sites && SiteMatches(s, query)
    decreases |sites|
  {
    if sites == [] then []
    else
      var front := Matching(sites[..|sites| - 1], query);
      var x := sites[|sites| - 1];
      assert sites == sites[..|sites| - 1] + [x];
      if SiteMatches(x, query) then front + [x] else front
  }

  const SearchLimit: nat := 10

  /** `searchConstructionSites(query)`: at most ten matching sites, the
      first ones in table order; when ten or fewer match, all of them. */
  function SearchSites(sites: seq<Site>, query: string): (r: seq<Site>)
    ensures |r| <= SearchLimit
    ensures forall s :: s in r ==> s in sites && SiteMatches(s, query)
    ensures |Matching(sites, query)| <= SearchLimit ==> forall s :: s in sites && SiteMatches(s, query) ==> s in r
    ensures |r| <= |Matching(sites, query)| && r == Matching(sites, query)[..|r|]
  {
    var m := Matching(sites, query);
    if |m| <= SearchLimit then m else m[..SearchLimit]
  }

  // ---------------------------------------------------------------------
  // The user list for the admin filters

  /** A row of users as the list query selects it (`email` only where it is selected). */
  datatype UserRow = UserRow(id: string, name: string, department: string, email: Option<string>)

  /** One entry of the expanded list: `createdBy` is the filter value, if any. */
  datatype UserEntry = UserEntry(
    id: string,
    name: string,
    department: string,
    email: Option<string>,
    createdBy: Option<string>,
    displayName: string)

  /** `${name} (${department})`. */
  function DisplayName(name: string, department: string): string { name + " (" + department + ")" }

  /** The entries one user contributes: the head-office and Incheon entries
      of a multi-branch user, or a single entry without a filter value. */
  function EntriesOf(u: UserRow): (es: seq<UserEntry>)
    ensures |es| == (if IsMultiBranch(u.name) then 2 else 1)
    ensures forall e :: e in es ==> e.id == u.id && e.department == u.department && e.email == u.email
  {
    if IsMultiBranch(u.name) then
      [UserEntry(u.id, u.name, u.department, u.email, Some(u.name), DisplayName(u.name, u.department)),
       UserEntry(u.id, IncheonName(u.name), u.department, u.email, Some(IncheonName(u.name)),
                 DisplayName(IncheonName(u.name), u.department))]
    else [UserEntry(u.id, u.name, u.department, u.email, None, DisplayName(u.name, u.department))]
  }

  /** The expanded list: each user's entries in input order. */
  function Expanded(users: seq<UserRow>): seq<UserEntry> {
    if users == [] then [] else Expanded(users[..|users| - 1]) + EntriesOf(users[|users| - 1])
  }

  function CountMultiBranch(users: seq<UserRow>): nat {
    if users == [] then 0
    else CountMultiBranch(users[..|users| - 1]) + (if IsMultiBranch(users[|users| - 1].name) then 1 else 0)
  }

  /** The expanded list holds one entry per user plus one per multi-branch user. */
  lemma {:induction false} ExpandedLength(users: seq<UserRow>)
    ensures |Expanded(users)| == |users| + CountMultiBranch(users)
  {
    if users != [] { ExpandedLength(users[..|users| - 1]); }
  }

  /** Expansion works user by user: expanding a concatenation concatenates
      the expansions, so input order is kept. */
  lemma {:induction false} ExpandedAppend(a: seq<UserRow>, b: seq<UserRow>)
    ensures Expanded(a + b) == Expanded(a) + Expanded(b)
    decreases |b|
  {
    if b == [] {
      assert a + b == a;
    } else {
      var b' := b[..|b| - 1];
      assert (a + b)[..|a + b| - 1] == a + b';
      ExpandedAppend(a, b');
    }
  }

  /** The `for (const user of data)` loop of `getAllUsers`. */
  method ExpandUsers(users: seq<UserRow>) returns (out: seq<UserEntry>)
    ensures out == Expanded(users)
  {
    out := [];
    var i := 0;
    while i < |users|
      invariant 0 <= i <= |users|
      invariant out == Expanded(users[..i])
    {
      assert users[..i + 1][..i] == users[..i];
      var u := users[i];
      if IsMultiBranch(u.name) {
        out := out + [UserEntry(u.id, u.name, u.department, u.email, Some(u.name), DisplayName(u.name, u.department))];
        out := out + [UserEntry(u.id, IncheonName(u.name), u.department, u.email, Some(IncheonName(u.name)),
                                DisplayName(IncheonName(u.name), u.department))];
      } else {
        out := out + [UserEntry(u.id, u.name, u.department, u.email, None, DisplayName(u.name, u.department))];
      }
      i := i + 1;
    }
    assert users[..i] == users;
  }

  // ---------------------------------------------------------------------
  // Query filters

  /** An equality filter `.eq(column, value)` on a list query. */
  datatype Filter = Eq(column: string, value: string)

  /** `if (value) query = query.eq(column, value)`: a filter only for a
      given, non-empty value. */
  function EqIfGiven(column: string, value: Option<string>): (fs: seq<Filter>)
    ensures |fs| <= 1
    ensures fs != [] <==> value.Some? && value.value != ""
    ensures fs != [] ==> fs == [Eq(column, value.value)]
  {
    if value.Some? && value.value != "" then [Eq(column, value.value)] else []
  }
}
