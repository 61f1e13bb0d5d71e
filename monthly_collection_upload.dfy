/**
 * The monthly collection upload: the spreadsheet's rows, as
 * `sheet_to_json(..., {header: 1})` returns them, are read into
 * manager / collected / outstanding rows, skipping the header; the dialog
 * keeps the last successful parse and forwards it on confirm. Reading the
 * workbook is an input: its first sheet, or the reason it could not be had.
 */
module MonthlyCollectionUpload {
  import opened Wrappers
  import opened Text
  import opened Amounts

  /** A spreadsheet cell: a number, text, or a hole in the row. */
  datatype Cell = Number(n: int) | TextCell(s: string) | Missing

  /** `row[0]` is truthy. */
  predicate CellTruthy(c: Cell) {
    match c
    case Number(n) => n != 0
    case TextCell(s) => s != ""
    case Missing => false
  }

  /** `String(cell)`. */
  function CellText(c: Cell): string {
    match c
    case Number(n) => IntToString(n)
    case TextCell(s) => s
    case Missing => "undefined"
  }

  /** A number cell as it is; anything else through `String`, with its
      commas dropped, and `parseFloat` (`None` for NaN). */
  function CellAmount(c: Cell): (r: Option<int>)
    ensures c.Number? ==> r == Some(c.n)
    ensures c.TextCell? ==> r == ParseNumberPrefix(RemoveChar(c.s, ','))
  {
    if c.Number? then Some(c.n) else ParseNumberPrefix(RemoveChar(CellText(c), ','))
  }

  /** A text cell holding a grouped amount reads as that amount. */
  lemma CellAmountOfFormatted(n: int)
    ensures CellAmount(TextCell(FormatAmount(n))) == Some(n)
  {
    var m: nat := if n < 0 then -n else n;
    var ds := NatToString(m);
    var sign := if n < 0 then "-" else "";
    UnformattedAmount(n, m, ds, sign);
    ParseSignedDigits(ds, n < 0);
    ValueOfNatToString(m);
    assert ParseNumberPrefix(sign + ds) == Some(n);
  }

  /** Dropping the commas of a displayed amount leaves its sign and digits. */
  lemma UnformattedAmount(n: int, m: nat, ds: string, sign: string)
    requires m == (if n < 0 then -n else n) && ds == NatToString(m) && sign == (if n < 0 then "-" else "")
    ensures RemoveChar(FormatAmount(n), ',') == sign + ds && AllDigits(ds) && ds != []
  {
    assert FormatAmount(n) == sign + GroupThousands(ds);
    RemoveCommasOfGrouping(ds);
    RemoveCharAppend(sign, GroupThousands(ds), ',');
    assert RemoveChar(sign, ',') == sign;
  }

  /** `MonthlyCollectionRow`. */
  datatype UploadRow = UploadRow(managerName: string, collectionAmount: int, outstandingAmount: int)

  /** The row has three cells, a truthy first cell and no hole in the
      other two. */
  predicate Candidate(row: seq<Cell>) {
    |row| >= 3 && CellTruthy(row[0]) && row[1] != Missing && row[2] != Missing
  }

  /** A sheet row is kept when it is a candidate whose trimmed name is not
      empty and whose two amounts are numbers. */
  function ParsedRow(row: seq<Cell>): (r: Option<UploadRow>)
    ensures r.Some? <==> Candidate(row) && Trim(CellText(row[0])) != ""
                         && CellAmount(row[1]).Some? && CellAmount(row[2]).Some?
    ensures r.Some? ==> r.value == UploadRow(Trim(CellText(row[0])), CellAmount(row[1]).value, CellAmount(row[2]).value)
  {
    if Candidate(row) then
      var name := Trim(CellText(row[0]));
      var ca := CellAmount(row[1]);
      var oa := CellAmount(row[2]);
      if name != "" && ca.Some? && oa.Some? then Some(UploadRow(name, ca.value, oa.value)) else None
    else None
  }

  /** The kept rows, in sheet order. */
  function ParsedRows(rows: seq<seq<Cell>>): (r: seq<UploadRow>)
    ensures |r| <= |rows|
    decreases |rows|
  {
    if rows == [] then []
    else
      var front := ParsedRows(rows[..|rows| - 1]);
      match ParsedRow(rows[|rows| - 1])
      case None => front
      case Some(x) => front + [x]
  }

  /** Every kept row has a name. */
  lemma {:induction false} ParsedRowsNamed(rows: seq<seq<Cell>>)
    ensures forall x :: x in ParsedRows(rows) ==> x.managerName != ""
    decreases |rows|
  {
    if rows != [] {
      ParsedRowsNamed(rows[..|rows| - 1]);
    }
  }

  const NoData := "엑셀 파일에 데이터가 없습니다."
  const NoValidRows := "유효한 데이터가 없습니다. 담당자, 수금 금액, 미수 금액 열을 확인해주세요."
  const ParseFailed := "엑셀 파일 파싱 중 오류가 발생했습니다."
  const ReadFailed := "파일을 읽는 중 오류가 발생했습니다."
  const WrongFileType := "엑셀 파일(.xlsx, .xls)만 업로드 가능합니다."

  /** The outcome of parsing a sheet: fewer than two rows is no data,
      and a sheet with no kept row is refused. */
  function SheetResult(sheet: seq<seq<Cell>>): (r: Result<seq<UploadRow>, string>)
    ensures |sheet| < 2 ==> r == Err(NoData)
    ensures |sheet| >= 2 && ParsedRows(sheet[1..]) == [] ==> r == Err(NoValidRows)
    ensures r.Ok? <==> |sheet| >= 2 && ParsedRows(sheet[1..]) != []
    ensures r.Ok? ==> r.value == ParsedRows(sheet[1..]) && 0 < |r.value| < |sheet|
  {
    if |sheet| < 2 then Err(NoData)
    else if ParsedRows(sheet[1..]) == [] then Err(NoValidRows)
    else Ok(ParsedRows(sheet[1..]))
  }

  /** The header row is never read as data: sheets that differ only in
      their first row parse alike. */
  lemma HeaderIgnored(h1: seq<Cell>, h2: seq<Cell>, body: seq<seq<Cell>>)
    ensures SheetResult([h1] + body) == SheetResult([h2] + body)
  {
    assert ([h1] + body)[1..] == body;
    assert ([h2] + body)[1..] == body;
  }

  /** The body of the loop for one sheet row. */
  method ParseRow(row: seq<Cell>) returns (kept: Option<UploadRow>)
    ensures kept == ParsedRow(row)
  {
    kept := None;
    if |row| >= 3 && CellTruthy(row[0]) && row[1] != Missing && row[2] != Missing {
      var managerName := Trim(CellText(row[0]));
      var collectionAmount := CellAmount(row[1]);
      var outstandingAmount := CellAmount(row[2]);
      if managerName != "" && collectionAmount.Some? && outstandingAmount.Some? {
        kept := Some(UploadRow(managerName, collectionAmount.value, outstandingAmount.value));
      }
    }
  }

  lemma ParsedRowsStep(sheet: seq<seq<Cell>>, i: nat)
    requires 1 <= i < |sheet|
    ensures ParsedRows(sheet[1..i + 1]) ==
      ParsedRows(sheet[1..i]) + (if ParsedRow(sheet[i]).Some? then [ParsedRow(sheet[i]).value] else [])
  {
    assert sheet[1..i + 1][..i - 1] == sheet[1..i];
    assert sheet[1..i + 1][i - 1] == sheet[i];
  }

  /** The `for` loop of `parseExcelFile` and the checks around it. */
  method ParseSheet(sheet: seq<seq<Cell>>) returns (r: Result<seq<UploadRow>, string>)
    ensures r == SheetResult(sheet)
  {
    if |sheet| < 2 {
      return Err(NoData);
    }
    var rows: seq<UploadRow> := [];
    var i := 1;
    while i < |sheet|
      invariant 1 <= i <= |sheet|
      invariant rows == ParsedRows(sheet[1..i])
    {
      ParsedRowsStep(sheet, i);
      var kept := ParseRow(sheet[i]);
      if kept.Some? {
        rows := rows + [kept.value];
      }
      i := i + 1;
    }
    assert sheet[1..i] == sheet[1..];
    r := if rows == [] then Err(NoValidRows) else Ok(rows);
  }

  // ---------------------------------------------------------------------
  // The dialog

  /** What the file reader and `XLSX.read` produce. */
  datatype FileContent = Read(sheet: seq<seq<Cell>>) | Unparsable | Unreadable

  /** The parsed rows on display, the loaded file's name and the error line. */
  datatype UploadState = UploadState(parsedData: seq<UploadRow>, fileName: string, error: string)

  const Initial: UploadState := UploadState([], "", "")

  /** Only `.xlsx` and `.xls` names are read. */
  predicate AcceptsName(name: string) { EndsWith(name, ".xlsx") || EndsWith(name, ".xls") }

  /** `handleFileChange` / `handleDrop` for one file: a refused name or a
      failed parse sets the error and keeps the rows on display; a
      successful parse replaces them. */
  function LoadFile(s: UploadState, name: string, content: FileContent): (t: UploadState)
    ensures !AcceptsName(name) ==> t == s.(error := WrongFileType)
    ensures AcceptsName(name) && content.Unparsable? ==> t == s.(error := ParseFailed)
    ensures AcceptsName(name) && content.Unreadable? ==> t == s.(error := ReadFailed)
    ensures AcceptsName(name) && content.Read? && SheetResult(content.sheet).Err? ==>
      t == s.(error := SheetResult(content.sheet).error)
    ensures AcceptsName(name) && content.Read? && SheetResult(content.sheet).Ok? ==>
      t == UploadState(SheetResult(content.sheet).value, name, "")
    ensures t.parsedData == s.parsedData || |t.parsedData| > 0
  {
    if !AcceptsName(name) then s.(error := WrongFileType)
    else match content
      case Unparsable => s.(error := ParseFailed)
      case Unreadable => s.(error := ReadFailed)
      case Read(sheet) =>
        match SheetResult(sheet)
        case Err(message) => s.(error := message)
        case Ok(rows) => UploadState(rows, name, "")
  }

  /** `handleConfirm`: the rows are forwarded only when there are some. */
  function Confirm(s: UploadState): (r: Option<seq<UploadRow>>)
    ensures r.Some? <==> |s.parsedData| > 0
    ensures r.Some? ==> r.value == s.parsedData
  {
    if |s.parsedData| > 0 then Some(s.parsedData) else None
  }

  /** The dialog after a series of files. */
  function LoadAll(s: UploadState, files: seq<(string, FileContent)>): UploadState
    decreases |files|
  {
    if files == [] then s else LoadFile(LoadAll(s, files[..|files| - 1]), files[|files| - 1].0, files[|files| - 1].1)
  }

  /** What confirm forwards after any series of files is either nothing
      (no file parsed) or the rows of a file that parsed. */
  lemma {:induction false} ConfirmForwardsAParsedFile(files: seq<(string, FileContent)>)
    ensures var r := Confirm(LoadAll(Initial, files));
      r.Some? ==> exists i :: 0 <= i < |files| && AcceptsName(files[i].0) && files[i].1.Read?
                    && SheetResult(files[i].1.sheet) == Ok(r.value)
    decreases |files|
  {
    if files != [] {
      var n := |files| - 1;
      ConfirmForwardsAParsedFile(files[..n]);
      var before := LoadAll(Initial, files[..n]);
      var after := LoadAll(Initial, files);
      if after.parsedData != before.parsedData {
        assert SheetResult(files[n].1.sheet) == Ok(after.parsedData);
      } else if |after.parsedData| > 0 {
        var i :| 0 <= i < n && AcceptsName(files[..n][i].0) && files[..n][i].1.Read?
                 && SheetResult(files[..n][i].1.sheet) == Ok(before.parsedData);
        assert files[..n][i] == files[i];
      }
    }
  }

  // ---------------------------------------------------------------------
  // Footer totals

  /** The footer's `reduce` sums. */
  function CollectionTotal(rows: seq<UploadRow>): int
    decreases |rows|
  {
    if rows == [] then 0 else CollectionTotal(rows[..|rows| - 1]) + rows[|rows| - 1].collectionAmount
  }

  function OutstandingTotal(rows: seq<UploadRow>): int
    decreases |rows|
  {
    if rows == [] then 0 else OutstandingTotal(rows[..|rows| - 1]) + rows[|rows| - 1].outstandingAmount
  }

  /** What a sheet row adds to the totals: its amounts when it is kept. */
  function Contribution(row: seq<Cell>): (int, int) {
    match ParsedRow(row)
    case None => (0, 0)
    case Some(x) => (x.collectionAmount, x.outstandingAmount)
  }

  /** The sums over the sheet rows, read cell by cell. */
  function SheetTotals(rows: seq<seq<Cell>>): (int, int)
    decreases |rows|
  {
    if rows == [] then (0, 0)
    else
      var t := SheetTotals(rows[..|rows| - 1]);
      var c := Contribution(rows[|rows| - 1]);
      (t.0 + c.0, t.1 + c.1)
  }

  /** The footer totals are the sums of the amounts of the kept sheet rows. */
  lemma {:induction false} FooterTotals(rows: seq<seq<Cell>>)
    ensures CollectionTotal(ParsedRows(rows)) == SheetTotals(rows).0
    ensures OutstandingTotal(ParsedRows(rows)) == SheetTotals(rows).1
    decreases |rows|
  {
    if rows != [] {
      var front := rows[..|rows| - 1];
      FooterTotals(front);
      match ParsedRow(rows[|rows| - 1])
      case None =>
      case Some(x) =>
        assert (ParsedRows(front) + [x])[..|ParsedRows(front)|] == ParsedRows(front);
    }
  }
}
