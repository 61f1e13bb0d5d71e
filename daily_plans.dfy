/**
 * The daily plans module: the list's author filter, and the rows written
 * by create and update after the `cms_id` resolution, with the branch
 * author name and without the `branch` field. Update and delete are
 * allowed for an admin or the plan's owner (`RecordRules.CheckAdminOrOwner`),
 * and the admin user list is `RecordRules.ExpandUsers`.
 */
module DailyPlans {
  import opened Wrappers
  import opened RecordRules

  /** The list's author filter: a given `created_by` wins, and `user_id`
      applies only without one. */
  function DailyListFilter(userId: Option<string>, createdBy: Option<string>): (fs: seq<Filter>)
    ensures createdBy.Some? && createdBy.value != "" ==> fs == [Eq("created_by", createdBy.value)]
    ensures !(createdBy.Some? && createdBy.value != "") ==> fs == EqIfGiven("user_id", userId)
    ensures |fs| <= 1
  {
    if createdBy.Some? && createdBy.value != "" then [Eq("created_by", createdBy.value)] else EqIfGiven("user_id", userId)
  }

  /** `createDailyPlan`: `{ user_id, ...payload, created_by }` with the
      resolved `cms_id`, no `branch`, and the branch author name. */
  method CreateDailyPlan(data: Record, userId: string, userName: string, sites: seq<Site>) returns (row: Record)
    ensures "branch" !in row
    ensures Get(row, "created_by") == Str(BranchAuthor(userName, Get(data, "branch")))
    ensures Get(row, "user_id") == (if "user_id" in data then data["user_id"] else Str(userId))
    ensures Get(row, "cms_id") == ResolvedCmsId(data, sites)
    ensures forall k :: k !in {"branch", "created_by", "user_id", "cms_id"} ==> Get(row, k) == Get(data, k)
  {
    var resolved := ResolveCmsId(data, sites);
    var createdByName := BranchAuthor(userName, Get(data, "branch"));
    row := SpreadInsert(WithoutBranch(resolved), userId, createdByName);
  }

  /** `updateDailyPlan`: for an admin or the owner, the resolved payload
      without `branch`, with `created_by` and `updated_by` both set to the
      branch author name. */
  method UpdateDailyPlan(owner: Option<string>, data: Record, userId: string, userName: string, role: string,
                         sites: seq<Site>) returns (r: Result<Record, Refusal>)
    ensures r.Ok? <==> owner.Some? && AdminOrOwner(role, owner.value, userId)
    ensures owner.None? ==> r == Err(NotFound)
    ensures owner.Some? && !AdminOrOwner(role, owner.value, userId) ==> r == Err(Forbidden(UpdateDenied))
    ensures r.Ok? ==>
      var author := Str(BranchAuthor(userName, Get(data, "branch")));
      && "branch" !in r.value
      && Get(r.value, "created_by") == author && Get(r.value, "updated_by") == author
      && Get(r.value, "cms_id") == ResolvedCmsId(data, sites)
      && (forall k :: k !in {"branch", "created_by", "updated_by", "cms_id"} ==> Get(r.value, k) == Get(data, k))
  {
    var allowed := CheckAdminOrOwner(owner, role, userId, UpdateDenied);
    if allowed.Err? {
      return Err(allowed.error);
    }
    var resolved := ResolveCmsId(data, sites);
    var name := BranchAuthor(userName, Get(data, "branch"));
    r := Ok(SpreadSet(SpreadSet(WithoutBranch(resolved), "created_by", Str(name)), "updated_by", Str(name)));
  }

  /** `deleteDailyPlan`: the admin-or-owner delete of `DeleteOwned`, over the
      daily plans' id → user_id map. */
  method DeleteDailyPlan(owners: map<int, string>, id: int, userId: string, role: string)
    returns (r: Result<(), Refusal>, rest: map<int, string>)
    ensures (r, rest) == DeleteOwned(owners, id, role, userId)
  {
    var outcome := DeleteOwned(owners, id, role, userId);
    r, rest := outcome.0, outcome.1;
  }
}
