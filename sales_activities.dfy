/**
 * The sales activities module: the site search with its two-character
 * minimum, the list filters, the site snapshot taken from a valid
 * `cms_id`, the rows written by create and update, the admin-only update
 * and delete, and the storage paths of the images an update or delete
 * removes.
 */
module SalesActivities {
  import opened Wrappers
  import opened Text
  import opened RecordRules

  // ---------------------------------------------------------------------
  // Site search

  /** `searchConstructionSites(query)`: a missing query or one shorter than
      two characters gives no sites and sends no lookup (`None`); any other
      query is looked up. */
  function SearchRequest(query: Option<string>): (r: Option<string>)
    ensures r.None? <==> query.None? || |query.value| < 2
    ensures r.Some? ==> r == query
  {
    if query.None? || |query.value| < 2 then None else query
  }

  function SearchActivitySites(sites: seq<Site>, query: Option<string>): (r: seq<Site>)
    ensures SearchRequest(query).None? ==> r == []
    ensures SearchRequest(query).Some? ==> r == SearchSites(sites, query.value)
  {
    match SearchRequest(query)
    case None => []
    case Some(q) => SearchSites(sites, q)
  }

  // ---------------------------------------------------------------------
  // List filters

  /** The optional list parameters of `getSalesActivities`. */
  datatype ListParams = ListParams(
    userId: Option<string>,
    createdBy: Option<string>,
    activityType: Option<string>,
    siteType: Option<string>)

  predicate Given(v: Option<string>) { v.Some? && v.value != "" }

  /** A type filter for a given value other than 'all'. */
  function TypeFilter(column: string, v: Option<string>): (fs: seq<Filter>)
    ensures fs != [] <==> Given(v) && v.value != "all"
    ensures fs != [] ==> fs == [Eq(column, v.value)]
  {
    if Given(v) && v.value != "all" then [Eq(column, v.value)] else []
  }

  /** The author filter: an admin's `created_by` wins over `user_id`; a
      'user' sees only their own activities; other roles see all. */
  function AuthorFilter(role: string, callerId: string, p: ListParams): (fs: seq<Filter>)
    ensures role == "admin" && Given(p.createdBy) ==> fs == [Eq("created_by", p.createdBy.value)]
    ensures role == "admin" && !Given(p.createdBy) ==> fs == EqIfGiven("user_id", p.userId)
    ensures role == "user" ==> fs == [Eq("user_id", callerId)]
    ensures role != "admin" && role != "user" ==> fs == []
  {
    if role == "admin" then
      if Given(p.createdBy) then [Eq("created_by", p.createdBy.value)] else EqIfGiven("user_id", p.userId)
    else if role == "user" then [Eq("user_id", callerId)]
    else []
  }

  /** Every equality filter of the list query, in the order they are added. */
  function ListFilters(role: string, callerId: string, p: ListParams): (fs: seq<Filter>)
    ensures fs == AuthorFilter(role, callerId, p) + TypeFilter("activity_type", p.activityType) + TypeFilter("site_type", p.siteType)
    ensures role == "admin" && Given(p.createdBy) ==> forall f :: f in fs ==> f.column != "user_id"
    ensures role == "user" ==> Eq("user_id", callerId) in fs && forall f :: f in fs && f.column == "user_id" ==> f.value == callerId
  {
    AuthorFilter(role, callerId, p) + TypeFilter("activity_type", p.activityType) + TypeFilter("site_type", p.siteType)
  }

  // ---------------------------------------------------------------------
  // Site snapshot

  /** What the payload holds after its `cms_id` is checked: a truthy id
      that names a site copies that site's cms, name, address and client
      into the payload; a truthy id that names none is cleared to
      undefined; a falsy id leaves the payload alone. No lookup by
      `cms_code` is made. */
  function SnapshotOf(data: Record, sites: seq<Site>): (out: Record)
    ensures !Truthy(Get(data, "cms_id")) ==> out == data
    ensures Truthy(Get(data, "cms_id")) && FirstWithId(sites, Get(data, "cms_id")).Some? ==>
      var site := sites[FirstWithId(sites, Get(data, "cms_id")).value];
      && Get(out, "cms_code") == Str(site.cms) && Get(out, "site_name") == Str(site.siteName)
      && Get(out, "site_address") == Str(site.siteAddress) && Get(out, "client") == Str(site.client)
      && Get(out, "cms_id") == Get(data, "cms_id")
    ensures Truthy(Get(data, "cms_id")) && !Exists(sites, Get(data, "cms_id")) ==>
      Get(out, "cms_id") == Undefined && forall k :: k != "cms_id" ==> Get(out, k) == Get(data, k)
    ensures forall k :: k !in SnapshotColumns ==> Get(out, k) == Get(data, k)
  {
    var id := Get(data, "cms_id");
    if !Truthy(id) then data
    else match FirstWithId(sites, id)
      case Some(i) =>
        data["cms_code" := Str(sites[i].cms)]["site_name" := Str(sites[i].siteName)]
            ["site_address" := Str(sites[i].siteAddress)]["client" := Str(sites[i].client)]
      case None => data["cms_id" := Undefined]
  }

  /** The fields the snapshot may change. */
  const SnapshotColumns: set<string> := {"cms_id", "cms_code", "site_name", "site_address", "client"}

  /** The step-by-step field assignments of create and update. */
  method TakeSnapshot(data: Record, sites: seq<Site>) returns (out: Record)
    ensures out == SnapshotOf(data, sites)
  {
    out := data;
    if Truthy(Get(data, "cms_id")) {
      var found := FirstWithId(sites, Get(data, "cms_id"));
      if found.Some? {
        var site := sites[found.value];
        out := out["cms_code" := Str(site.cms)];
        out := out["site_name" := Str(site.siteName)];
        out := out["site_address" := Str(site.siteAddress)];
        out := out["client" := Str(site.client)];
      } else {
        out := out["cms_id" := Undefined];
      }
    }
  }

  // ---------------------------------------------------------------------
  // Create, update, delete and read

  /** `createSalesActivity`: the snapshot payload without `branch`, with
      `created_by` set to the branch author name. */
  method CreateSalesActivity(data: Record, userName: string, sites: seq<Site>) returns (row: Record)
    ensures "branch" !in row
    ensures "created_by" in row && row["created_by"] == Str(BranchAuthor(userName, Get(data, "branch")))
    ensures forall k :: k != "branch" && k != "created_by" ==> Get(row, k) == Get(SnapshotOf(data, sites), k)
  {
    var snapshot := TakeSnapshot(data, sites);
    var createdByName := BranchAuthor(userName, Get(data, "branch"));
    row := SpreadSet(WithoutBranch(snapshot), "created_by", Str(createdByName));
  }

  /** The activity an update or delete finds: its stored attachment URLs
      (`None` when the column is null). */
  datatype Existing = Existing(userId: string, attachments: Option<seq<string>>)

  const ActivityNotFound := "영업 활동을 찾을 수 없습니다."
  const UpdateAdminOnly := "수정 권한이 없습니다. 관리자만 수정할 수 있습니다."
  const DeleteAdminOnly := "삭제 권한이 없습니다. 관리자만 삭제할 수 있습니다."
  const ReadDenied := "권한이 없습니다."
  const ReadFailed := "영업 활동을 불러오지 못했습니다."

  /** An update's effect: the row written and the storage paths removed. */
  datatype ActivityUpdate = ActivityUpdate(row: Record, removedPaths: seq<string>)

  /** `updateSalesActivity`: only an admin may update, owner or not. The
      snapshot payload is written without `branch` and with `created_by`
      and `updated_by` both set to the branch author name; the images of
      the dropped attachments are removed from storage. */
  method UpdateSalesActivity(existing: Option<Existing>, data: Record, role: string, userName: string,
                             newAttachments: Option<seq<string>>, sites: seq<Site>)
    returns (r: Result<ActivityUpdate, string>)
    ensures existing.None? ==> r == Err(ActivityNotFound)
    ensures existing.Some? && role != "admin" ==> r == Err(UpdateAdminOnly)
    ensures r.Ok? <==> existing.Some? && role == "admin"
    ensures r.Ok? ==>
      var row := r.value.row;
      var author := Str(BranchAuthor(userName, Get(data, "branch")));
      && "branch" !in row
      && Get(row, "created_by") == author && Get(row, "updated_by") == author
      && (forall k :: k !in {"branch", "created_by", "updated_by"} ==> Get(row, k) == Get(SnapshotOf(data, sites), k))
      && r.value.removedPaths == CleanupPaths(newAttachments, existing.value.attachments)
  {
    if existing.None? {
      return Err(ActivityNotFound);
    }
    if role != "admin" {
      return Err(UpdateAdminOnly);
    }
    var paths := CleanupPaths(newAttachments, existing.value.attachments);
    var snapshot := TakeSnapshot(data, sites);
    var author := BranchAuthor(userName, Get(data, "branch"));
    var row := SpreadSet(SpreadSet(WithoutBranch(snapshot), "created_by", Str(author)), "updated_by", Str(author));
    r := Ok(ActivityUpdate(row, paths));
  }

  const DeleteFailed := "영업 활동 삭제에 실패했습니다."
  const Deleted := "영업 활동이 삭제되었습니다."

  /** What `deleteSalesActivity` does: the storage paths it removes, and
      its answer. */
  datatype ActivityDeletion = ActivityDeletion(removedPaths: seq<string>, answer: Result<string, string>)

  /** `deleteSalesActivity`: only an admin may delete. The paths of every
      stored attachment are removed before the delete is attempted, so a
      failed delete (`deleteFailed`) keeps the row but not its images. */
  function DeleteSalesActivity(existing: Option<Existing>, role: string, deleteFailed: bool): (r: ActivityDeletion)
    ensures existing.None? ==> r == ActivityDeletion([], Err(ActivityNotFound))
    ensures existing.Some? && role != "admin" ==> r == ActivityDeletion([], Err(DeleteAdminOnly))
    ensures r.answer.Ok? <==> existing.Some? && role == "admin" && !deleteFailed
    ensures existing.Some? && role == "admin" ==> r.removedPaths == FilePaths(GetOr(existing.value.attachments, []))
    ensures existing.Some? && role == "admin" && deleteFailed ==> r.answer == Err(DeleteFailed)
    ensures r.answer.Ok? ==> r.answer.value == Deleted
  {
    if existing.None? then ActivityDeletion([], Err(ActivityNotFound))
    else if role != "admin" then ActivityDeletion([], Err(DeleteAdminOnly))
    else
      var paths := FilePaths(GetOr(existing.value.attachments, []));
      ActivityDeletion(paths, if deleteFailed then Err(DeleteFailed) else Ok(Deleted))
  }

  /** `getSalesActivity`: `owner` is the activity's user_id (`None` when
      the lookup failed). A 'user' may read only their own activity; every
      other role may read any. */
  function ReadSalesActivity(owner: Option<string>, role: string, callerId: string): (r: Result<(), string>)
    ensures r.Ok? <==> owner.Some? && (role != "user" || owner.value == callerId)
    ensures owner.None? ==> r == Err(ReadFailed)
    ensures owner.Some? && r.Err? ==> r.error == ReadDenied
  {
    if owner.None? then Err(ReadFailed)
    else if role == "user" && owner.value != callerId then Err(ReadDenied)
    else Ok(())
  }

  // ---------------------------------------------------------------------
  // Attachments and storage paths

  const ImagesMarker := "/sales-activity-images/"

  /** `url.split(marker)[1]`, when there is such a part: the text after the
      first marker, up to a second marker if there is one. */
  function StoragePath(url: string): (r: Option<string>)
    ensures r.None? <==> !Contains(url, ImagesMarker)
    ensures r.Some? ==> exists i :: OccursAt(url, ImagesMarker, i) && StartsWith(url[i + |ImagesMarker|..], r.value)
    ensures r.Some? ==> !Contains(r.value, ImagesMarker)
  {
    match IndexOf(url, ImagesMarker)
    case None => None
    case Some(i) =>
      var after := url[i + |ImagesMarker|..];
      match IndexOf(after, ImagesMarker)
      case None => assert StartsWith(after, after); Some(after)
      case Some(j) =>
        NoOccurrenceBefore(after, ImagesMarker, j);
        Some(after[..j])
  }

  /** A prefix that ends before the first occurrence holds none. */
  lemma NoOccurrenceBefore(s: string, p: string, j: nat)
    requires |p| > 0 && j <= |s|
    requires forall i :: 0 <= i < j ==> !OccursAt(s, p, i)
    ensures !Contains(s[..j], p)
    ensures StartsWith(s, s[..j])
  {
    forall k | 0 <= k <= j ensures !OccursAt(s[..j], p, k) {
      if OccursAt(s[..j], p, k) {
        assert s[..j][k..k + |p|] == s[k..k + |p|];
        assert OccursAt(s, p, k);
      }
    }
  }

  /** A URL whose only marker follows `prefix` yields everything after it. */
  lemma PathAfterSingleMarker(prefix: string, path: string)
    requires !Contains(prefix + ImagesMarker[..|ImagesMarker| - 1], ImagesMarker)
    requires !Contains(path, ImagesMarker)
    ensures StoragePath(prefix + ImagesMarker + path) == Some(path)
  {
    var url := prefix + ImagesMarker + path;
    var m := ImagesMarker;
    assert OccursAt(url, m, |prefix|) by {
      assert url[|prefix|..|prefix| + |m|] == m;
    }
    var head := prefix + m[..|m| - 1];
    assert url == head + m[|m| - 1..] + path by {
      assert m == m[..|m| - 1] + m[|m| - 1..];
    }
    assert url[..|head|] == head;
    forall i | 0 <= i < |prefix| ensures !OccursAt(url, m, i) {
      assert i + |m| <= |head|;
      assert url[i..i + |m|] == url[..|head|][i..i + |m|] == head[i..i + |m|];
      assert !OccursAt(head, m, i);
    }
    assert IndexOf(url, m) == Some(|prefix|);
    assert url[|prefix| + |m|..] == path;
  }

  /** The paths of the URLs that have one, in URL order. */
  function FilePaths(urls: seq<string>): (paths: seq<string>)
    ensures |paths| <= |urls|
    ensures forall p :: p in paths <==> exists u :: u in urls && StoragePath(u) == Some(p)
    decreases |urls|
  {
    if urls == [] then []
    else
      var front := FilePaths(urls[..|urls| - 1]);
      var u := urls[|urls| - 1];
      assert urls == urls[..|urls| - 1] + [u];
      match StoragePath(u)
      case None => front
      case Some(p) => front + [p]
  }

  /** `stored.filter(url => !current.includes(url))`: the dropped
      attachments, in stored order. */
  function Removed(stored: seq<string>, current: seq<string>): (r: seq<string>)
    ensures |r| <= |stored|
    ensures forall u :: u in r <==> u in stored && u !in current
    decreases |stored|
  {
    if stored == [] then []
    else
      var front := Removed(stored[..|stored| - 1], current);
      var u := stored[|stored| - 1];
      assert stored == stored[..|stored| - 1] + [u];
      if u in current then front else front + [u]
  }

  /** The paths an update removes: only when the payload has an attachment
      list and the stored record has one. */
  function CleanupPaths(newAttachments: Option<seq<string>>, stored: Option<seq<string>>): (paths: seq<string>)
    ensures newAttachments.None? || stored.None? ==> paths == []
    ensures newAttachments.Some? && stored.Some? ==> paths == FilePaths(Removed(stored.value, newAttachments.value))
  {
    if newAttachments.Some? && stored.Some? then FilePaths(Removed(stored.value, newAttachments.value)) else []
  }

  /** Keeping every stored attachment removes nothing. */
  lemma {:induction false} KeepingAllRemovesNothing(stored: seq<string>, current: seq<string>)
    requires forall u :: u in stored ==> u in current
    ensures Removed(stored, current) == []
    ensures FilePaths(Removed(stored, current)) == []
    decreases |stored|
  {
    if stored != [] {
      var front := stored[..|stored| - 1];
      assert forall u :: u in front ==> u in stored;
      KeepingAllRemovesNothing(front, current);
      assert stored[|stored| - 1] in stored;
    }
  }
}
