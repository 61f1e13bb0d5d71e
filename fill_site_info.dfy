/**
 * The one-off script that fills the site fields of weekly plans from
 * construction_management: each plan with a `cms_code` whose site fields
 * or `cms_id` are missing is matched by code against the sites, and only
 * its empty fields are written. The plans and sites are the queries'
 * results; whether each plan's site search and update succeed are inputs.
 */
module FillSiteInfo {
  import opened Wrappers
  import opened RecordRules

  /** A weekly_plans row as the script selects it. */
  datatype Plan = Plan(id: int, cmsId: Value, cmsCode: Value, siteName: Value, siteAddress: Value,
                       salesManager: Value, constructionManager: Value)

  /** `hasMissingInfo`: one of the four text fields is empty. */
  predicate HasMissingInfo(p: Plan) {
    !Truthy(p.siteName) || !Truthy(p.siteAddress) || !Truthy(p.salesManager) || !Truthy(p.constructionManager)
  }

  /** A plan the loop skips without a lookup. */
  predicate Complete(p: Plan) { !HasMissingInfo(p) && Truthy(p.cmsId) }

  /** The `updateData` object: a field is present only when written. */
  datatype SiteUpdate = SiteUpdate(cmsId: Option<int>, siteName: Option<string>, siteAddress: Option<string>,
                                   salesManager: Option<string>, constructionManager: Option<string>)

  predicate IsEmpty(u: SiteUpdate) {
    u.cmsId.None? && u.siteName.None? && u.siteAddress.None? && u.salesManager.None? && u.constructionManager.None?
  }

  /** Only the plan's empty fields are written, each with the site's value;
      a non-empty field is never overwritten. */
  function FillUpdate(p: Plan, site: Site): (u: SiteUpdate)
    ensures u.cmsId.Some? <==> !Truthy(p.cmsId)
    ensures u.siteName.Some? <==> !Truthy(p.siteName)
    ensures u.siteAddress.Some? <==> !Truthy(p.siteAddress)
    ensures u.salesManager.Some? <==> !Truthy(p.salesManager)
    ensures u.constructionManager.Some? <==> !Truthy(p.constructionManager)
    ensures u.cmsId.Some? ==> u.cmsId.value == site.id
    ensures u.siteName.Some? ==> u.siteName.value == site.siteName
    ensures u.siteAddress.Some? ==> u.siteAddress.value == site.siteAddress
    ensures u.salesManager.Some? ==> u.salesManager.value == site.salesManager
    ensures u.constructionManager.Some? ==> u.constructionManager.value == site.constructionManager
  {
    SiteUpdate(if Truthy(p.cmsId) then None else Some(site.id),
               if Truthy(p.siteName) then None else Some(site.siteName),
               if Truthy(p.siteAddress) then None else Some(site.siteAddress),
               if Truthy(p.salesManager) then None else Some(site.salesManager),
               if Truthy(p.constructionManager) then None else Some(site.constructionManager))
  }

  /** A plan that gets past the skip rule always has something to fill,
      so the script's "no updates needed" branch is never taken. */
  lemma UpdateOfIncompletePlanNotEmpty(p: Plan, site: Site)
    requires !Complete(p)
    ensures !IsEmpty(FillUpdate(p, site))
  {
  }

  /** The counters and the updates sent so far. */
  datatype FillState = FillState(updated: nat, skipped: nat, notFound: nat, sent: seq<(int, SiteUpdate)>)

  /** One plan of the loop. `searchOk` and `updateOk` say whether the
      plan's site search and update succeed; a failed search or update
      counts nowhere. */
  function Step(s: FillState, p: Plan, sites: seq<Site>, searchOk: bool, updateOk: bool): (t: FillState)
    ensures Complete(p) ==> t == s.(skipped := s.skipped + 1)
    ensures !Complete(p) && !searchOk ==> t == s
    ensures !Complete(p) && searchOk && FirstWithCode(sites, p.cmsCode).None? ==> t == s.(notFound := s.notFound + 1)
    ensures !Complete(p) && searchOk && FirstWithCode(sites, p.cmsCode).Some? ==>
      && t.sent == s.sent + [(p.id, FillUpdate(p, sites[FirstWithCode(sites, p.cmsCode).value]))]
      && t.updated == s.updated + (if updateOk then 1 else 0)
      && t.skipped == s.skipped && t.notFound == s.notFound
  {
    if Complete(p) then s.(skipped := s.skipped + 1)
    else if !searchOk then s
    else match FirstWithCode(sites, p.cmsCode)
      case None => s.(notFound := s.notFound + 1)
      case Some(k) =>
        // the script's "no updates needed" branch is left out here: the
        // update of a plan that is not complete is never empty
        FillState(s.updated + (if updateOk then 1 else 0), s.skipped, s.notFound, s.sent + [(p.id, FillUpdate(p, sites[k]))])
  }

  /** The loop over the plans. */
  function Filled(plans: seq<Plan>, sites: seq<Site>, searchOk: seq<bool>, updateOk: seq<bool>): (s: FillState)
    requires |searchOk| == |plans| && |updateOk| == |plans|
    ensures s.updated + s.skipped + s.notFound <= |plans|
    ensures s.updated <= |s.sent|
    ensures forall i :: 0 <= i < |s.sent| ==> !IsEmpty(s.sent[i].1)
    decreases |plans|
  {
    if plans == [] then FillState(0, 0, 0, [])
    else
      var n := |plans| - 1;
      var prev := Filled(plans[..n], sites, searchOk[..n], updateOk[..n]);
      StepBounds(prev, plans[n], sites, searchOk[n], updateOk[n]);
      Step(prev, plans[n], sites, searchOk[n], updateOk[n])
  }

  /** A step adds at most one to the counters, and sends only a non-empty update. */
  lemma StepBounds(s: FillState, p: Plan, sites: seq<Site>, searchOk: bool, updateOk: bool)
    ensures var t := Step(s, p, sites, searchOk, updateOk);
      && t.updated + t.skipped + t.notFound <= s.updated + s.skipped + s.notFound + 1
      && t.updated - s.updated <= |t.sent| - |s.sent|
      && t.sent[..|s.sent|] == s.sent
      && (forall i :: |s.sent| <= i < |t.sent| ==> !IsEmpty(t.sent[i].1))
  {
    if !Complete(p) && searchOk && FirstWithCode(sites, p.cmsCode).Some? {
      UpdateOfIncompletePlanNotEmpty(p, sites[FirstWithCode(sites, p.cmsCode).value]);
    }
  }

  /** The loop's state after `n + 1` plans is one step from its state after `n`. */
  lemma FilledSnoc(plans: seq<Plan>, sites: seq<Site>, searchOk: seq<bool>, updateOk: seq<bool>, n: nat)
    requires |searchOk| == |plans| && |updateOk| == |plans| && n < |plans|
    ensures Filled(plans[..n + 1], sites, searchOk[..n + 1], updateOk[..n + 1])
         == Step(Filled(plans[..n], sites, searchOk[..n], updateOk[..n]), plans[n], sites, searchOk[n], updateOk[n])
  {
    assert plans[..n + 1][..n] == plans[..n];
    assert searchOk[..n + 1][..n] == searchOk[..n] && updateOk[..n + 1][..n] == updateOk[..n];
  }

  /** `fillMissingSiteInfo`'s loop, with its three counters. */
  method FillMissingSiteInfo(plans: seq<Plan>, sites: seq<Site>, searchOk: seq<bool>, updateOk: seq<bool>)
    returns (updated: nat, skipped: nat, notFound: nat, sent: seq<(int, SiteUpdate)>)
    requires |searchOk| == |plans| && |updateOk| == |plans|
    ensures FillState(updated, skipped, notFound, sent) == Filled(plans, sites, searchOk, updateOk)
  {
    updated, skipped, notFound, sent := 0, 0, 0, [];
    var n := 0;
    while n < |plans|
      invariant 0 <= n <= |plans|
      invariant FillState(updated, skipped, notFound, sent) == Filled(plans[..n], sites, searchOk[..n], updateOk[..n])
    {
      ghost var before := FillState(updated, skipped, notFound, sent);
      var plan := plans[n];
      if !HasMissingInfo(plan) && Truthy(plan.cmsId) {
        skipped := skipped + 1;
      } else if searchOk[n] {
        var first := FirstWithCode(sites, plan.cmsCode);
        if first.None? {
          notFound := notFound + 1;
        } else {
          var updateData := FillUpdate(plan, sites[first.value]);
          if IsEmpty(updateData) {
            // the script's "no updates needed" branch: a plan that is not
            // complete always has a field to fill
            assert false;
          } else {
            sent := sent + [(plan.id, updateData)];
            if updateOk[n] {
              updated := updated + 1;
            }
          }
        }
      }
      assert FillState(updated, skipped, notFound, sent) == Step(before, plan, sites, searchOk[n], updateOk[n]);
      FilledSnoc(plans, sites, searchOk, updateOk, n);
      n := n + 1;
    }
    assert plans[..n] == plans && searchOk[..n] == searchOk && updateOk[..n] == updateOk;
  }
}
