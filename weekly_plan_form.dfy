/**
 * The weekly plan form's state: the site fields filled by the site
 * search, the three activity checkboxes, and the checks run on submit.
 */
module WeeklyPlanForm {
  import opened Wrappers
  import opened RecordRules

  /** `WeeklyPlanFormData` as the form holds it. */
  datatype PlanForm = PlanForm(
    cmsId: Option<int>,
    cmsCode: string,
    siteName: string,
    siteAddress: string,
    salesManager: string,
    constructionManager: string,
    constructionSales: bool,
    siteAdditionalSales: bool,
    siteSupport: bool)

  /** The fields of an edited plan that the form reads; `None` is a
      missing (null or undefined) value. */
  datatype PlanView = PlanView(
    cmsId: Option<int>,
    cmsCode: Option<string>,
    siteName: Option<string>,
    siteAddress: Option<string>,
    salesManager: Option<string>,
    constructionManager: Option<string>,
    constructionSales: Option<bool>,
    siteAdditionalSales: Option<bool>,
    siteSupport: Option<bool>)

  const EmptyForm: PlanForm := PlanForm(None, "", "", "", "", "", false, false, false)

  /** The form set up for `plan`: its fields with '' and false for missing
      ones, or the empty form when there is no plan. */
  function FormFor(plan: Option<PlanView>): (f: PlanForm)
    ensures plan.None? ==> f.cmsId.None? && f.cmsCode == "" && f.siteName == "" && f.siteAddress == ""
    ensures plan.None? ==> f.salesManager == "" && f.constructionManager == ""
    ensures plan.None? ==> !f.constructionSales && !f.siteAdditionalSales && !f.siteSupport
    ensures plan.Some? ==> f.cmsId == plan.value.cmsId && f.cmsCode == GetOr(plan.value.cmsCode, "")
    ensures plan.Some? ==> f.siteName == GetOr(plan.value.siteName, "") && f.siteAddress == GetOr(plan.value.siteAddress, "")
    ensures plan.Some? ==> f.salesManager == GetOr(plan.value.salesManager, "")
    ensures plan.Some? ==> f.constructionManager == GetOr(plan.value.constructionManager, "")
    ensures plan.Some? ==> f.constructionSales == GetOr(plan.value.constructionSales, false)
    ensures plan.Some? ==> f.siteAdditionalSales == GetOr(plan.value.siteAdditionalSales, false)
    ensures plan.Some? ==> f.siteSupport == GetOr(plan.value.siteSupport, false)
  {
    match plan
    case None => EmptyForm
    case Some(p) =>
      PlanForm(p.cmsId, GetOr(p.cmsCode, ""), GetOr(p.siteName, ""), GetOr(p.siteAddress, ""),
               GetOr(p.salesManager, ""), GetOr(p.constructionManager, ""),
               GetOr(p.constructionSales, false), GetOr(p.siteAdditionalSales, false), GetOr(p.siteSupport, false))
  }

  /** `handleSiteSelect`: the six site fields, the activity flags kept. */
  function SelectSite(f: PlanForm, site: Site): (r: PlanForm)
    ensures r.cmsId == Some(site.id) && r.cmsCode == site.cms && r.siteName == site.siteName
    ensures r.siteAddress == site.siteAddress && r.salesManager == site.salesManager
    ensures r.constructionManager == site.constructionManager
    ensures r.constructionSales == f.constructionSales && r.siteAdditionalSales == f.siteAdditionalSales
    ensures r.siteSupport == f.siteSupport
  {
    f.(cmsId := Some(site.id), cmsCode := site.cms, siteName := site.siteName, siteAddress := site.siteAddress,
       salesManager := site.salesManager, constructionManager := site.constructionManager)
  }

  /** The three checkboxes. */
  datatype Activity = ConstructionSales | SiteAdditionalSales | SiteSupport

  function Flag(f: PlanForm, a: Activity): bool {
    match a
    case ConstructionSales => f.constructionSales
    case SiteAdditionalSales => f.siteAdditionalSales
    case SiteSupport => f.siteSupport
  }

  /** `handleCheckboxChange(field)`: the named flag flips. */
  function ToggleActivity(f: PlanForm, a: Activity): (r: PlanForm)
    ensures Flag(r, a) == !Flag(f, a)
    ensures forall b :: b != a ==> Flag(r, b) == Flag(f, b)
    ensures r.cmsId == f.cmsId && r.cmsCode == f.cmsCode && r.siteName == f.siteName
    ensures r.siteAddress == f.siteAddress && r.salesManager == f.salesManager
    ensures r.constructionManager == f.constructionManager
  {
    match a
    case ConstructionSales => f.(constructionSales := !f.constructionSales)
    case SiteAdditionalSales => f.(siteAdditionalSales := !f.siteAdditionalSales)
    case SiteSupport => f.(siteSupport := !f.siteSupport)
  }

  /** Ticking a box twice leaves the form as it was. */
  lemma ToggleTwice(f: PlanForm, a: Activity)
    ensures ToggleActivity(ToggleActivity(f, a), a) == f
  {
  }

  const SiteMissing := "현장을 선택해주세요."
  const ActivityMissing := "최소 하나의 활동 구분을 선택해주세요."

  /** `formData.cms_id` is truthy: present and not 0. */
  predicate HasCmsId(f: PlanForm) { f.cmsId.Some? && f.cmsId.value != 0 }

  predicate AnyActivity(f: PlanForm) { exists a :: Flag(f, a) }

  /** `handleSubmit`'s checks: some site field, then some activity. */
  function ValidatePlan(f: PlanForm): (r: Result<PlanForm, string>)
    ensures !HasCmsId(f) && f.cmsCode == "" && f.siteName == "" ==> r == Err(SiteMissing)
    ensures (HasCmsId(f) || f.cmsCode != "" || f.siteName != "") && !AnyActivity(f) ==> r == Err(ActivityMissing)
    ensures r.Ok? <==> (HasCmsId(f) || f.cmsCode != "" || f.siteName != "") && AnyActivity(f)
    ensures r.Ok? ==> r.value == f
  {
    assert f.constructionSales ==> Flag(f, ConstructionSales);
    assert f.siteAdditionalSales ==> Flag(f, SiteAdditionalSales);
    assert f.siteSupport ==> Flag(f, SiteSupport);
    if !HasCmsId(f) && f.cmsCode == "" && f.siteName == "" then Err(SiteMissing)
    else if !f.constructionSales && !f.siteAdditionalSales && !f.siteSupport then Err(ActivityMissing)
    else Ok(f)
  }

  /** A new plan is refused until a site is chosen, then until a box is
      ticked; a site with a code and one ticked box is accepted. */
  lemma NewPlanValidation(site: Site, a: Activity)
    ensures ValidatePlan(FormFor(None)) == Err(SiteMissing)
    ensures site.cms != "" ==> ValidatePlan(SelectSite(FormFor(None), site)) == Err(ActivityMissing)
    ensures site.cms != "" ==> ValidatePlan(ToggleActivity(SelectSite(FormFor(None), site), a)).Ok?
  {
    var f := SelectSite(FormFor(None), site);
    assert !Flag(f, ConstructionSales) && !Flag(f, SiteAdditionalSales) && !Flag(f, SiteSupport);
    assert Flag(ToggleActivity(f, a), a);
  }
}
