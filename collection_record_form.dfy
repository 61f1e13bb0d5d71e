/**
 * The collection record form: the shared record form, the month's
 * outstanding amount looked up for the user, the balance shown under it,
 * and the form's messages.
 */
module CollectionRecordForm {
  import opened Wrappers
  import opened RecordRules
  import opened RecordForm
  import Collections

  const DateMissing := "수금일을 입력해주세요."
  const AmountMissing := "수금 금액을 입력해주세요."

  /** `handleSubmit`'s checks with the collection form's messages. */
  function ValidateCollection(f: FormData): (r: Result<FormData, string>)
    ensures f.date == "" ==> r == Err(DateMissing)
    ensures f.date != "" && (f.cmsCode == "" || f.siteName == "") ==> r == Err(SiteMissing)
    ensures f.date != "" && f.cmsCode != "" && f.siteName != "" && !HasPositiveAmount(f) ==> r == Err(AmountMissing)
    ensures r.Ok? <==> f.date != "" && f.cmsCode != "" && f.siteName != "" && HasPositiveAmount(f)
  {
    Validate(f, DateMissing, AmountMissing)
  }

  /** `data.find(item => item.manager_name === name)`. */
  function FirstForManager(data: seq<Collections.MonthlyCollectionRow>, name: string): (k: Option<nat>)
    ensures k.None? <==> forall i :: 0 <= i < |data| ==> data[i].managerName != name
    ensures k.Some? ==> k.value < |data| && data[k.value].managerName == name
    ensures k.Some? ==> forall i :: 0 <= i < k.value ==> data[i].managerName != name
    decreases |data|
  {
    if data == [] then None
    else if data[0].managerName == name then Some(0)
    else match FirstForManager(data[1..], name)
      case None => None
      case Some(k) => Some(k + 1)
  }

  /** The monthly outstanding after the date changes: unchanged for an
      empty date; otherwise the first of the user's rows in the month's
      data (`None` for a failed request), 0 when there is none. */
  function OutstandingAfterDateChange(current: int, date: string, data: Option<seq<Collections.MonthlyCollectionRow>>,
                                      name: string): (o: int)
    ensures date == "" ==> o == current
    ensures date != "" && data.None? ==> o == 0
    ensures date != "" && data.Some? && FirstForManager(data.value, name).None? ==> o == 0
    ensures date != "" && data.Some? && FirstForManager(data.value, name).Some? ==>
      o == GetOr(data.value[FirstForManager(data.value, name).value].outstandingAmount, 0)
  {
    if date == "" then current
    else match data
      case None => 0
      case Some(rows) =>
        match FirstForManager(rows, name)
        case None => 0
        case Some(k) => GetOr(rows[k].outstandingAmount, 0)
  }

  /** When the month's data holds exactly one row for the user, the form
      shows the outstanding amount the server uses for the balance. */
  lemma OutstandingMatchesServer(current: int, date: string, rows: seq<Collections.MonthlyCollectionRow>,
                                 year: int, month: int, name: string)
    requires date != ""
    requires forall r :: r in rows ==> r.year == year && r.month == month
    requires |Collections.RowsFor(rows, year, month, name)| == 1
    ensures OutstandingAfterDateChange(current, date, Some(rows), name)
         == Collections.MonthlyOutstanding(Some(rows), year, month, name)
  {
    var rs := Collections.RowsFor(rows, year, month, name);
    var only := rs[0];
    assert only in rs;
    assert only in rows && only.managerName == name;
    var j :| 0 <= j < |rows| && rows[j] == only;
    var k := FirstForManager(rows, name);
    assert k.Some?;
    var row := rows[k.value];
    assert row in rows;
    assert Collections.RowFor(row, year, month, name);
    SingletonMember(rs, row);
  }

  lemma SingletonMember<T>(s: seq<T>, x: T)
    requires |s| == 1 && x in s
    ensures x == s[0]
  {
  }

  /** The balance shown: the monthly outstanding less the amount, 0 for
      no amount. */
  function ShownBalance(monthly: int, amount: Option<nat>): (b: int)
    ensures b + GetOr(amount, 0) == monthly
  {
    monthly - GetOr(amount, 0)
  }

  /** The balance shown is the balance the server stores for the same
      month and amount. */
  lemma ShownBalanceMatchesServer(monthly: int, amount: Option<nat>)
    ensures ShownBalance(monthly, amount)
         == Collections.OutstandingBalance(monthly, if amount.Some? then Num(amount.value) else Undefined)
  {
  }
}
