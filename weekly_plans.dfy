/**
 * The weekly plans module: the rows written by create and update after the
 * `cms_id` resolution. Unlike daily plans, the author is the plain user
 * name and the payload is written as sent, `branch` included. Update and
 * delete are allowed for an admin or the plan's owner
 * (`RecordRules.CheckAdminOrOwner`).
 */
module WeeklyPlans {
  import opened Wrappers
  import opened RecordRules

  /** `createWeeklyPlan`: `{ user_id, ...payload, created_by: userName }`
      with the resolved `cms_id`; no branch suffix is ever added. */
  method CreateWeeklyPlan(data: Record, userId: string, userName: string, sites: seq<Site>) returns (row: Record)
    ensures Get(row, "created_by") == Str(userName)
    ensures Get(row, "user_id") == (if "user_id" in data then data["user_id"] else Str(userId))
    ensures Get(row, "cms_id") == ResolvedCmsId(data, sites)
    ensures forall k :: k !in {"created_by", "user_id", "cms_id"} ==> Get(row, k) == Get(data, k)
  {
    var resolved := ResolveCmsId(data, sites);
    row := SpreadInsert(resolved, userId, userName);
  }

  /** `updateWeeklyPlan`: for an admin or the owner, the resolved payload
      with `updated_by`; `created_by` is written only if the payload has one. */
  method UpdateWeeklyPlan(owner: Option<string>, data: Record, userId: string, userName: string, role: string,
                          sites: seq<Site>) returns (r: Result<Record, Refusal>)
    ensures r.Ok? <==> owner.Some? && AdminOrOwner(role, owner.value, userId)
    ensures owner.None? ==> r == Err(NotFound)
    ensures owner.Some? && !AdminOrOwner(role, owner.value, userId) ==> r == Err(Forbidden(UpdateDenied))
    ensures r.Ok? ==>
      && Get(r.value, "updated_by") == Str(userName)
      && ("created_by" in r.value <==> "created_by" in data)
      && Get(r.value, "cms_id") == ResolvedCmsId(data, sites)
      && (forall k :: k !in {"updated_by", "cms_id"} ==> Get(r.value, k) == Get(data, k))
  {
    var allowed := CheckAdminOrOwner(owner, role, userId, UpdateDenied);
    if allowed.Err? {
      return Err(allowed.error);
    }
    var resolved := ResolveCmsId(data, sites);
    r := Ok(SpreadSet(resolved, "updated_by", Str(userName)));
  }

  /** `deleteWeeklyPlan`: the admin-or-owner delete of `DeleteOwned`, over the
      weekly plans' id → user_id map. */
  method DeleteWeeklyPlan(owners: map<int, string>, id: int, userId: string, role: string)
    returns (r: Result<(), Refusal>, rest: map<int, string>)
    ensures (r, rest) == DeleteOwned(owners, id, role, userId)
  {
    var outcome := DeleteOwned(owners, id, role, userId);
    r, rest := outcome.0, outcome.1;
  }
}
