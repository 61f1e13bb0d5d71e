/**
 * The sales activity form's state transitions: each handler maps the form
 * state to a new one (the component's object spreads), and submit and
 * the image upload validate by early return. Storage uploads and
 * removals are the outcomes given as parameters.
 */
module SalesActivityForm {
  import opened Wrappers
  import opened Text
  import opened Amounts
  import opened RecordRules
  import opened SalesActivities

  datatype ActivityType = Estimate | Contract
  datatype SiteType = Existing | New

  /** `SalesActivityFormData` as the form holds it. */
  datatype ActivityForm = ActivityForm(
    activityDate: string,
    activityType: ActivityType,
    siteType: SiteType,
    cmsId: Option<int>,
    cmsCode: string,
    siteName: string,
    siteAddress: string,
    client: string,
    amount: Option<nat>,
    executionRate: Option<int>,
    attachments: seq<string>)

  /** `formData.cms_id` is truthy: present and not 0. */
  predicate HasCmsId(f: ActivityForm) { f.cmsId.Some? && f.cmsId.value != 0 }

  /** `handleSiteSelect`: the site's id, code, name, address and client. */
  function SelectSite(f: ActivityForm, site: Site): (r: ActivityForm)
    ensures r.cmsId == Some(site.id) && r.cmsCode == site.cms && r.siteName == site.siteName
    ensures r.siteAddress == site.siteAddress && r.client == site.client
    ensures r.activityDate == f.activityDate && r.activityType == f.activityType && r.siteType == f.siteType
    ensures r.amount == f.amount && r.executionRate == f.executionRate && r.attachments == f.attachments
  {
    f.(cmsId := Some(site.id), cmsCode := site.cms, siteName := site.siteName,
       siteAddress := site.siteAddress, client := site.client)
  }

  /** `handleAmountChange`: the number formed by the input's digits, or
      undefined when it has none. */
  function AmountChange(f: ActivityForm, input: string): (r: ActivityForm)
    ensures r.amount.None? <==> forall i :: 0 <= i < |input| ==> !IsDigit(input[i])
    ensures r.amount.Some? ==> r.amount.value == ValueOf(Digits(input))
    ensures r == f.(amount := r.amount)
  {
    f.(amount := DigitsAmount(input))
  }

  /** `formatNumber`: the grouped amount, and the empty text for no
      amount or for 0. */
  function FormatNumber(amount: Option<nat>): string {
    if amount.None? || amount.value == 0 then "" else FormatAmount(amount.value)
  }

  /** Editing the field as `formatNumber` shows it keeps a positive
      amount and the rest of the form; a zero amount is shown empty, so the
      same edit clears it. */
  lemma AmountChangeOfDisplay(f: ActivityForm)
    ensures f.amount.Some? && f.amount.value > 0 ==> AmountChange(f, FormatNumber(f.amount)) == f
    ensures f.amount.None? || f.amount.value == 0 ==> AmountChange(f, FormatNumber(f.amount)).amount.None?
  {
    if f.amount.Some? && f.amount.value > 0 {
      DigitsOfFormattedAmount(f.amount.value);
    }
  }

  predicate RateInRange(rate: Option<int>) { rate.None? || 0 <= rate.value <= 100 }

  /** The execution rate input: `value` is the parsed input, `None` for an
      empty field; a value outside 0..100 is ignored. */
  function ExecutionRateChange(f: ActivityForm, value: Option<int>): (r: ActivityForm)
    ensures !RateInRange(value) ==> r == f
    ensures RateInRange(value) ==> r == f.(executionRate := value)
  {
    if value.Some? && (value.value < 0 || value.value > 100) then f else f.(executionRate := value)
  }

  /** Whatever is typed, a rate in 0..100 stays in 0..100. */
  lemma {:induction false} RateStaysInRange(f: ActivityForm, inputs: seq<Option<int>>)
    requires RateInRange(f.executionRate)
    ensures RateInRange(RatesTyped(f, inputs).executionRate)
    decreases |inputs|
  {
    if inputs != [] {
      RateStaysInRange(f, inputs[..|inputs| - 1]);
    }
  }

  /** The form after a sequence of rate inputs. */
  function RatesTyped(f: ActivityForm, inputs: seq<Option<int>>): ActivityForm
    decreases |inputs|
  {
    if inputs == [] then f else ExecutionRateChange(RatesTyped(f, inputs[..|inputs| - 1]), inputs[|inputs| - 1])
  }

  // ---------------------------------------------------------------------
  // Attachments

  /** `attachments.filter((_, i) => i !== index)`. */
  function WithoutIndex(xs: seq<string>, index: int): (r: seq<string>)
    decreases |xs|
  {
    if xs == [] then []
    else
      var n := |xs| - 1;
      WithoutIndex(xs[..n], index) + (if n != index then [xs[n]] else [])
  }

  /** The filter drops exactly the element at `index` and keeps the others
      in order. */
  lemma {:induction false} WithoutIndexIsRemoval(xs: seq<string>, index: int)
    ensures 0 <= index < |xs| ==> WithoutIndex(xs, index) == xs[..index] + xs[index + 1..]
    ensures !(0 <= index < |xs|) ==> WithoutIndex(xs, index) == xs
    decreases |xs|
  {
    if xs != [] {
      var n := |xs| - 1;
      WithoutIndexIsRemoval(xs[..n], index);
      if index == n {
        assert xs[..index] + xs[index + 1..] == xs[..n];
      } else if 0 <= index < n {
        assert xs[..n][..index] == xs[..index];
        assert xs[..n][index + 1..] + [xs[n]] == xs[index + 1..];
        assert xs[..index] + xs[..n][index + 1..] + [xs[n]] == xs[..index] + xs[index + 1..];
      } else {
        assert xs[..n] + [xs[n]] == xs;
      }
    }
  }

  /** `removeAttachment(index)`: an index with no attachment, or an empty
      URL, changes nothing; otherwise that one attachment goes. */
  function RemoveAttachment(f: ActivityForm, index: int): (r: ActivityForm)
    ensures !(0 <= index < |f.attachments|) || f.attachments[index] == "" ==> r == f
    ensures 0 <= index < |f.attachments| && f.attachments[index] != "" ==>
      r == f.(attachments := f.attachments[..index] + f.attachments[index + 1..])
  {
    WithoutIndexIsRemoval(f.attachments, index);
    if 0 <= index < |f.attachments| && f.attachments[index] != "" then
      f.(attachments := WithoutIndex(f.attachments, index))
    else f
  }

  /** The storage paths a cancel removes: those of the attachments that
      were not on the form when it opened, in attachment order. */
  function CleanupTargets(current: seq<string>, original: seq<string>): (paths: seq<string>)
    ensures forall p :: p in paths <==>
      exists u :: u in current && u !in original && StoragePath(u) == Some(p)
  {
    FilePaths(Removed(current, original))
  }

  /** Cancelling a form whose attachments were all there at the start
      removes nothing. */
  lemma CleanupOfUnchanged(current: seq<string>, original: seq<string>)
    requires forall u :: u in current ==> u in original
    ensures CleanupTargets(current, original) == []
  {
    KeepingAllRemovesNothing(current, original);
  }

  /** A picked file: its name, MIME type and size in bytes. */
  datatype PickedFile = PickedFile(name: string, mimeType: string, size: int)

  const MaxImageSize: int := 5 * 1024 * 1024

  function NotAnImage(name: string): string { name + "은(는) 이미지 파일이 아닙니다." }
  function TooLarge(name: string): string { name + "의 크기가 5MB를 초과합니다." }
  const UploadFailed := "파일 업로드 중 오류가 발생했습니다."

  /** The checks made before a file is uploaded, type first. */
  function CheckFile(file: PickedFile): (r: Result<(), string>)
    ensures r.Ok? <==> StartsWith(file.mimeType, "image/") && file.size <= MaxImageSize
    ensures !StartsWith(file.mimeType, "image/") ==> r == Err(NotAnImage(file.name))
    ensures StartsWith(file.mimeType, "image/") && file.size > MaxImageSize ==> r == Err(TooLarge(file.name))
  {
    if !StartsWith(file.mimeType, "image/") then Err(NotAnImage(file.name))
    else if file.size > MaxImageSize then Err(TooLarge(file.name))
    else Ok(())
  }

  /** The index of the first file that fails its checks. */
  function FirstRejected(files: seq<PickedFile>): (k: Option<nat>)
    ensures k.None? <==> forall i :: 0 <= i < |files| ==> CheckFile(files[i]).Ok?
    ensures k.Some? ==> k.value < |files| && CheckFile(files[k.value]).Err?
    ensures k.Some? ==> forall i :: 0 <= i < k.value ==> CheckFile(files[i]).Ok?
    decreases |files|
  {
    if files == [] then None
    else if CheckFile(files[0]).Err? then Some(0)
    else match FirstRejected(files[1..])
      case None => None
      case Some(k) => Some(k + 1)
  }

  /** The form and the error message after an upload. */
  datatype Upload = Upload(form: ActivityForm, error: string)

  /** `handleFileUpload`: the checks run for every file before any upload
      completes, so the first rejected file's message wins and nothing is
      added; otherwise `uploaded` is the storage outcome (the public URLs,
      or the storage error's message). */
  function UploadFiles(f: ActivityForm, error: string, files: seq<PickedFile>,
                       uploaded: Result<seq<string>, string>): (u: Upload)
    ensures files == [] ==> u == Upload(f, error)
    ensures files != [] && FirstRejected(files).Some? ==>
      u == Upload(f, CheckFile(files[FirstRejected(files).value]).error)
    ensures files != [] && FirstRejected(files).None? && uploaded.Ok? ==>
      u == Upload(f.(attachments := f.attachments + uploaded.value), "")
    ensures files != [] && FirstRejected(files).None? && uploaded.Err? ==>
      u.form == f && u.error == (if uploaded.error == "" then UploadFailed else uploaded.error)
  {
    if files == [] then Upload(f, error)
    else match FirstRejected(files)
      case Some(k) => Upload(f, CheckFile(files[k]).error)
      case None =>
        match uploaded
        case Ok(urls) => Upload(f.(attachments := f.attachments + urls), "")
        case Err(message) => Upload(f, if message == "" then UploadFailed else message)
  }

  // ---------------------------------------------------------------------
  // Site type and submit

  /** Either site-type radio button: the site fields are cleared. */
  function SwitchSiteType(f: ActivityForm, t: SiteType): (r: ActivityForm)
    ensures r.siteType == t && r.cmsId.None? && r.cmsCode == "" && r.siteName == ""
    ensures r.siteAddress == "" && r.client == ""
    ensures r.activityDate == f.activityDate && r.activityType == f.activityType
    ensures r.amount == f.amount && r.executionRate == f.executionRate && r.attachments == f.attachments
  {
    f.(siteType := t, cmsId := None, cmsCode := "", siteName := "", siteAddress := "", client := "")
  }

  const DateRequired := "활동 날짜를 선택해주세요."
  const SiteRequired := "기존 현장을 선택해주세요."

  /** `handleSubmit`'s checks: a date first, then a selected site for an
      existing site; a new site needs none. */
  function ValidateActivity(f: ActivityForm): (r: Result<ActivityForm, string>)
    ensures f.activityDate == "" ==> r == Err(DateRequired)
    ensures f.activityDate != "" && f.siteType.Existing? && !HasCmsId(f) && f.cmsCode == "" ==> r == Err(SiteRequired)
    ensures r.Ok? <==> f.activityDate != "" && (f.siteType.New? || HasCmsId(f) || f.cmsCode != "")
    ensures r.Ok? ==> r.value == f
  {
    if f.activityDate == "" then Err(DateRequired)
    else if f.siteType.Existing? && !HasCmsId(f) && f.cmsCode == "" then Err(SiteRequired)
    else Ok(f)
  }

  /** Switching to an existing site asks for a site again; once a site with
      a code or a non-zero id is chosen the form goes through, and a new
      site goes through with just its date. */
  lemma SiteTypeValidation(f: ActivityForm, site: Site)
    requires f.activityDate != ""
    ensures ValidateActivity(SwitchSiteType(f, SiteType.Existing)) == Err(SiteRequired)
    ensures site.id != 0 || site.cms != "" ==> ValidateActivity(SelectSite(SwitchSiteType(f, SiteType.Existing), site)).Ok?
    ensures ValidateActivity(SwitchSiteType(f, SiteType.New)).Ok?
  {
  }
}
