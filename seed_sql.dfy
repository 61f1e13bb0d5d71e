/**
 * The SQL text both seed-data exporters render: single-quoted literals with
 * doubled quotes, `(…)` tuples of literals joined by ",\n", and
 * `INSERT … VALUES … ON CONFLICT (<key>) DO NOTHING;` statements. A reader
 * of that text (literal, tuple, tuple list, statement) is the reference
 * the rendering is proved against.
 */
module SeedSql {
  import opened Wrappers
  import opened Text
  import opened Seqs

  // ---------------------------------------------------------------------
  // Quoted literals

  /** `s.replace("'", "''")` / `s.replace(/'/g, "''")`. */
  function SqlEscape(s: string): (r: string)
    ensures |r| >= |s|
    ensures (forall i :: 0 <= i < |s| ==> s[i] != '\'') ==> r == s
  {
    if s == [] then [] else (if s[0] == '\'' then "''" else [s[0]]) + SqlEscape(s[1..])
  }

  /** `t.replace("''", "'")`: a doubled quote read as one, left to right. */
  function SqlUnescape(t: string): string
    decreases |t|
  {
    if t == [] then []
    else if |t| >= 2 && t[0] == '\'' && t[1] == '\'' then "'" + SqlUnescape(t[2..])
    else [t[0]] + SqlUnescape(t[1..])
  }

  /** Every quote of the text belongs to a doubled pair, so the text can
      stand between two quotes as one SQL literal. */
  predicate QuotesDoubled(t: string)
    decreases |t|
  {
    t == []
    || (|t| >= 2 && t[0] == '\'' && t[1] == '\'' && QuotesDoubled(t[2..]))
    || (t[0] != '\'' && QuotesDoubled(t[1..]))
  }

  function CountQuotes(s: string): nat {
    if s == [] then 0 else (if s[0] == '\'' then 1 else 0) + CountQuotes(s[1..])
  }

  /** Undoing the escaping gives the original text. */
  lemma {:induction false} UnescapeEscape(s: string)
    ensures SqlUnescape(SqlEscape(s)) == s
  {
    if s != [] {
      UnescapeEscape(s[1..]);
      var rest := SqlEscape(s[1..]);
      if s[0] == '\'' {
        assert SqlEscape(s) == "''" + rest;
        assert ("''" + rest)[2..] == rest;
      } else {
        assert SqlEscape(s) == [s[0]] + rest;
        assert ([s[0]] + rest)[1..] == rest;
      }
      assert s == [s[0]] + s[1..];
    }
  }

  /** Every quote of the escaped text is paired. */
  lemma {:induction false} EscapeDoublesQuotes(s: string)
    ensures QuotesDoubled(SqlEscape(s))
  {
    if s != [] {
      EscapeDoublesQuotes(s[1..]);
      var rest := SqlEscape(s[1..]);
      if s[0] == '\'' {
        assert SqlEscape(s) == "''" + rest;
        assert ("''" + rest)[2..] == rest;
      } else {
        assert SqlEscape(s) == [s[0]] + rest;
        assert ([s[0]] + rest)[1..] == rest;
      }
    }
  }

  /** One character is added per quote. */
  lemma {:induction false} EscapeLength(s: string)
    ensures |SqlEscape(s)| == |s| + CountQuotes(s)
  {
    if s != [] { EscapeLength(s[1..]); }
  }

  /** With the quotes removed, the escaped text is the original text. */
  lemma {:induction false} EscapeKeepsOtherChars(s: string)
    ensures RemoveChar(SqlEscape(s), '\'') == RemoveChar(s, '\'')
  {
    if s != [] {
      EscapeKeepsOtherChars(s[1..]);
      var rest := SqlEscape(s[1..]);
      if s[0] == '\'' {
        assert SqlEscape(s) == "''" + rest;
        assert ("''" + rest)[1..] == "'" + rest;
        assert ("'" + rest)[1..] == rest;
      } else {
        assert SqlEscape(s) == [s[0]] + rest;
        assert ([s[0]] + rest)[1..] == rest;
      }
    }
  }

  /** Escaping doubles the quotes and changes nothing else: undoing it
      gives the original, every quote is paired, one quote is added per
      quote, and with quotes removed the text is unchanged. */
  lemma SqlEscapeProperties(s: string)
    ensures SqlUnescape(SqlEscape(s)) == s
    ensures QuotesDoubled(SqlEscape(s))
    ensures |SqlEscape(s)| == |s| + CountQuotes(s)
    ensures RemoveChar(SqlEscape(s), '\'') == RemoveChar(s, '\'')
  {
    UnescapeEscape(s);
    EscapeDoublesQuotes(s);
    EscapeLength(s);
    EscapeKeepsOtherChars(s);
  }

  /** A rendered literal: the escaped text between single quotes. */
  function Literal(s: string): string { "'" + SqlEscape(s) + "'" }

  /** Reads the body of a literal whose opening quote has been consumed: the
      text up to the first quote that is not doubled, and what follows it. */
  function ReadLiteral(t: string): (r: Option<(string, string)>)
    ensures r.Some? ==> |r.value.1| < |t|
    decreases |t|
  {
    if t == [] then None
    else if t[0] == '\'' then
      if |t| >= 2 && t[1] == '\'' then
        match ReadLiteral(t[2..])
        case Some((v, rest)) => Some(("'" + v, rest))
        case None => None
      else Some(("", t[1..]))
    else
      match ReadLiteral(t[1..])
      case Some((v, rest)) => Some(([t[0]] + v, rest))
      case None => None
  }

  /** A literal ends exactly at its closing quote, whatever follows it
      (other than a quote, which would read as part of the text). */
  lemma {:induction false} ReadEscaped(s: string, rest: string)
    requires rest == [] || rest[0] != '\''
    ensures ReadLiteral(SqlEscape(s) + "'" + rest) == Some((s, rest))
  {
    var t := SqlEscape(s) + "'" + rest;
    if s == [] {
      assert t == "'" + rest;
      assert t[1..] == rest;
    } else {
      ReadEscaped(s[1..], rest);
      var tail := SqlEscape(s[1..]) + "'" + rest;
      if s[0] == '\'' {
        assert t == "''" + tail;
        assert t[2..] == tail;
      } else {
        assert t == [s[0]] + tail;
        assert t[1..] == tail;
      }
      assert s == [s[0]] + s[1..];
    }
  }

  // ---------------------------------------------------------------------
  // Tuples of literals

  /** The literals of a row joined by ", ". */
  function Fields(fs: seq<string>): string {
    if fs == [] then "" else if |fs| == 1 then Literal(fs[0]) else Literal(fs[0]) + ", " + Fields(fs[1..])
  }

  /** `('a')` or `('a', 'b')`. */
  function Tuple(fs: seq<string>): string { "(" + Fields(fs) + ")" }

  /** Reads literals separated by ", " from text starting at a quote. */
  function ParseFields(t: string): (r: Option<(seq<string>, string)>)
    ensures r.Some? ==> |r.value.1| < |t|
    decreases |t|
  {
    if t == [] || t[0] != '\'' then None
    else match ReadLiteral(t[1..])
      case None => None
      case Some((v, rest)) =>
        if StartsWith(rest, ", ") then
          match ParseFields(rest[2..])
          case None => None
          case Some((vs, rest')) => Some(([v] + vs, rest'))
        else Some(([v], rest))
  }

  lemma {:induction false} ParseRenderedFields(fs: seq<string>, tail: string)
    requires |fs| >= 1
    requires tail == [] || tail[0] != '\''
    requires !StartsWith(tail, ", ")
    ensures ParseFields(Fields(fs) + tail) == Some((fs, tail))
  {
    if |fs| == 1 {
      ParseLastField(fs[0], tail);
      assert fs == [fs[0]];
    } else {
      var more := Fields(fs[1..]) + tail;
      ParseRenderedFields(fs[1..], tail);
      ParseNextField(fs[0], more, fs[1..], tail);
      assert Fields(fs) + tail == Literal(fs[0]) + ", " + more;
      assert fs == [fs[0]] + fs[1..];
    }
  }

  lemma ParseLastField(f: string, tail: string)
    requires tail == [] || tail[0] != '\''
    requires !StartsWith(tail, ", ")
    ensures ParseFields(Literal(f) + tail) == Some(([f], tail))
  {
    var t := Literal(f) + tail;
    var body := SqlEscape(f) + "'" + tail;
    assert t == "'" + body;
    assert t[0] == '\'' && t[1..] == body;
    ReadEscaped(f, tail);
    assert ReadLiteral(t[1..]) == Some((f, tail));
  }

  lemma ParseNextField(f: string, more: string, fs: seq<string>, tail: string)
    requires ParseFields(more) == Some((fs, tail))
    ensures ParseFields(Literal(f) + ", " + more) == Some(([f] + fs, tail))
  {
    var t := Literal(f) + ", " + more;
    var rest := ", " + more;
    assert t == "'" + (SqlEscape(f) + "'" + rest);
    assert t[1..] == SqlEscape(f) + "'" + rest;
    ReadEscaped(f, rest);
    assert rest[2..] == more;
  }

  function ParseTuple(t: string): (r: Option<(seq<string>, string)>)
    ensures r.Some? ==> |r.value.1| < |t|
  {
    if t == [] || t[0] != '(' then None
    else match ParseFields(t[1..])
      case None => None
      case Some((fs, rest)) => if StartsWith(rest, ")") then Some((fs, rest[1..])) else None
  }

  lemma ParseRenderedTuple(fs: seq<string>, tail: string)
    requires |fs| >= 1
    ensures ParseTuple(Tuple(fs) + tail) == Some((fs, tail))
  {
    var t := Tuple(fs) + tail;
    assert t == "(" + (Fields(fs) + (")" + tail));
    ParseRenderedFields(fs, ")" + tail);
    assert (")" + tail)[1..] == tail;
  }

  /** Reads tuples separated by ",\n". */
  function ParseTuples(t: string): (r: Option<(seq<seq<string>>, string)>)
    ensures r.Some? ==> |r.value.1| <= |t|
    decreases |t|
  {
    if !StartsWith(t, "(") then Some(([], t))
    else match ParseTuple(t)
      case None => None
      case Some((fs, rest)) =>
        if StartsWith(rest, ",\n") then
          match ParseTuples(rest[2..])
          case None => None
          case Some((more, rest')) => Some(([fs] + more, rest'))
        else Some(([fs], rest))
  }

  /** The rendered tuples of some rows. */
  function Tuples(rows: seq<seq<string>>): (ts: seq<string>)
    ensures |ts| == |rows| && forall i :: 0 <= i < |rows| ==> ts[i] == Tuple(rows[i])
  {
    if rows == [] then [] else [Tuple(rows[0])] + Tuples(rows[1..])
  }

  lemma {:induction false} ParseRenderedTuples(rows: seq<seq<string>>, tail: string)
    requires forall i :: 0 <= i < |rows| ==> |rows[i]| >= 1
    requires !StartsWith(tail, "(") && !StartsWith(tail, ",\n")
    ensures ParseTuples(Join(Tuples(rows), ",\n") + tail) == Some((rows, tail))
  {
    if rows == [] {
      assert Join(Tuples(rows), ",\n") + tail == tail;
    } else if |rows| == 1 {
      assert Join(Tuples(rows), ",\n") + tail == Tuple(rows[0]) + tail;
      ParseRenderedTuple(rows[0], tail);
      assert StartsWith(Tuple(rows[0]) + tail, "(");
      assert rows == [rows[0]];
    } else {
      var more := Join(Tuples(rows[1..]), ",\n") + tail;
      assert Join(Tuples(rows), ",\n") + tail == Tuple(rows[0]) + (",\n" + more) by {
        assert Tuples(rows)[1..] == Tuples(rows[1..]);
        var x, y := Tuple(rows[0]), Join(Tuples(rows[1..]), ",\n");
        assert (x + ",\n" + y) + tail == x + (",\n" + (y + tail));
      }
      ParseRenderedTuples(rows[1..], tail);
      ParseTuplesCons(rows[0], more, rows[1..], tail);
      assert rows == [rows[0]] + rows[1..];
    }
  }

  /** A rendered tuple followed by ",\n" and more tuples reads as one
      more row in front. */
  lemma ParseTuplesCons(fs: seq<string>, more: string, rest: seq<seq<string>>, tail: string)
    requires |fs| >= 1
    requires ParseTuples(more) == Some((rest, tail))
    ensures ParseTuples(Tuple(fs) + (",\n" + more)) == Some(([fs] + rest, tail))
  {
    ParseRenderedTuple(fs, ",\n" + more);
    assert (",\n" + more)[2..] == more;
    assert StartsWith(Tuple(fs) + (",\n" + more), "(") by {
      assert (Tuple(fs) + (",\n" + more))[0] == '(';
    }
  }

  // ---------------------------------------------------------------------
  // Statements

  const ConstructionsHeader: string := "INSERT INTO constructions (company_name) VALUES"
  const ItemsHeader: string := "INSERT INTO items (item_id, item_name) VALUES"

  /** `ON CONFLICT (<key>) DO NOTHING;`. */
  function ConflictClause(key: string): string { "ON CONFLICT (" + key + ") DO NOTHING;" }

  /** The header line, the tuples joined by ",\n" and the conflict clause,
      one per line. */
  function Statement(header: string, tuples: seq<string>, key: string): (r: string)
    ensures StartsWith(r, header + "\n")
    ensures EndsWith(r, "\n" + ConflictClause(key))
  {
    var r := header + "\n" + Join(tuples, ",\n") + "\n" + ConflictClause(key);
    assert r[..|header + "\n"|] == header + "\n";
    assert r[|r| - |"\n" + ConflictClause(key)|..] == "\n" + ConflictClause(key);
    r
  }

  /** Reads a statement back: its rows, when it has the given header and
      ends with the given conflict clause right after the last tuple. */
  function DecodeStatement(text: string, header: string, key: string): Option<seq<seq<string>>> {
    var h := header + "\n";
    if !StartsWith(text, h) then None
    else match ParseTuples(text[|h|..])
      case None => None
      case Some((rows, rest)) => if rest == "\n" + ConflictClause(key) then Some(rows) else None
  }

  /** A rendered statement reads back as exactly its rows, in order: one
      tuple per row, however the values are quoted. */
  lemma DecodeRenderedStatement(header: string, rows: seq<seq<string>>, key: string)
    requires forall i :: 0 <= i < |rows| ==> |rows[i]| >= 1
    ensures DecodeStatement(Statement(header, Tuples(rows), key), header, key) == Some(rows)
  {
    var values := Join(Tuples(rows), ",\n");
    assert ParseTuples(values + "\n" + ConflictClause(key)) == Some((rows, "\n" + ConflictClause(key))) by {
      var tail := "\n" + ConflictClause(key);
      assert !StartsWith(tail, "(") && !StartsWith(tail, ",\n");
      ParseRenderedTuples(rows, tail);
      assert values + tail == values + "\n" + ConflictClause(key);
    }
    DecodeStatementOf(header, values, key, rows);
  }

  lemma DecodeStatementOf(header: string, values: string, key: string, rows: seq<seq<string>>)
    requires ParseTuples(values + "\n" + ConflictClause(key)) == Some((rows, "\n" + ConflictClause(key)))
    ensures DecodeStatement(header + "\n" + values + "\n" + ConflictClause(key), header, key) == Some(rows)
  {
    var h, body := header + "\n", values + "\n" + ConflictClause(key);
    var text := header + "\n" + values + "\n" + ConflictClause(key);
    assert text == h + body;
    assert text[..|h|] == h;
    assert text[|h|..] == body;
  }

  // ---------------------------------------------------------------------
  // The two tables and the SQL section of the output

  /** A row of items.xlsx: the two columns the exporters read and the rest. */
  datatype ItemRow = ItemRow(itemId: string, itemName: string, otherColumns: map<string, string>)

  function CompanyRows(names: seq<string>): (rows: seq<seq<string>>)
    ensures |rows| == |names| && forall i :: 0 <= i < |names| ==> rows[i] == [names[i]]
  {
    if names == [] then [] else [[names[0]]] + CompanyRows(names[1..])
  }

  /** An entry of the item list: the two columns that become SQL fields. */
  datatype Item = Item(itemId: string, itemName: string)

  function ItemFieldRows(items: seq<Item>): (rows: seq<seq<string>>)
    ensures |rows| == |items| && forall i :: 0 <= i < |items| ==> rows[i] == [items[i].itemId, items[i].itemName]
  {
    if items == [] then [] else [[items[0].itemId, items[0].itemName]] + ItemFieldRows(items[1..])
  }

  /** The constructions statement for the given tuples. */
  function ConstructionsStatement(values: seq<string>): string {
    Statement(ConstructionsHeader, values, "company_name")
  }

  /** The items statement for the given tuples. */
  function ItemsStatement(values: seq<string>): string {
    Statement(ItemsHeader, values, "item_id")
  }

  /** Reading the constructions statement back gives one single-field row
      per company, in order. */
  lemma ConstructionsRoundTrip(names: seq<string>)
    ensures DecodeStatement(ConstructionsStatement(Tuples(CompanyRows(names))), ConstructionsHeader, "company_name")
      == Some(CompanyRows(names))
  {
    DecodeRenderedStatement(ConstructionsHeader, CompanyRows(names), "company_name");
  }

  /** Reading the items statement back gives the (item_id, item_name) pair of
      every item, in order. */
  lemma ItemsRoundTrip(items: seq<Item>)
    ensures DecodeStatement(ItemsStatement(Tuples(ItemFieldRows(items))), ItemsHeader, "item_id")
      == Some(ItemFieldRows(items))
  {
    DecodeRenderedStatement(ItemsHeader, ItemFieldRows(items), "item_id");
  }

  const ConstructionsComment: string := "-- constructions 테이블 데이터 삽입"
  const ItemsComment: string := "-- items 테이블 데이터 삽입"

  /** The lines both exporters print for the SQL section, one call each. */
  function SqlLines(cv: seq<string>, iv: seq<string>): seq<string> {
    [ConstructionsComment, ConstructionsHeader, Join(cv, ",\n"), ConflictClause("company_name"),
     "\n" + ItemsComment, ItemsHeader, Join(iv, ",\n"), ConflictClause("item_id")]
  }

  /** What printing each line (Python `print`, `console.log`) writes. */
  function PrintLines(lines: seq<string>): string {
    if lines == [] then "" else lines[0] + "\n" + PrintLines(lines[1..])
  }

  /** The SQL file text: the two commented statements separated by a blank line. */
  function SqlScript(cv: seq<string>, iv: seq<string>): string {
    ConstructionsComment + "\n" + ConstructionsStatement(cv) + "\n\n" + ItemsComment + "\n" + ItemsStatement(iv)
  }

  /** The printed SQL section is the SQL file text plus the final newline:
      the same tuples, separators and conflict clauses. */
  lemma PrintedSqlIsScript(cv: seq<string>, iv: seq<string>)
    ensures PrintLines(SqlLines(cv, iv)) == SqlScript(cv, iv) + "\n"
  {
    var ls := SqlLines(cv, iv);
    assert ls[0..4] + ls[4..] == ls;
    PrintLinesSplit(ls[0..4], ls[4..]);
    PrintFour(ls[0..4]);
    PrintFour(ls[4..]);
    ScriptShape(ConstructionsComment, ConstructionsStatement(cv), ItemsComment, ItemsStatement(iv));
  }

  /** How the two printed halves join into the file text plus a newline. */
  lemma ScriptShape(a: string, b: string, c: string, d: string)
    ensures (a + "\n" + b + "\n") + ("\n" + c + "\n" + d + "\n") == a + "\n" + b + "\n\n" + c + "\n" + d + "\n"
  {
    assert "\n" + "\n" == "\n\n";
  }

  lemma {:induction false} PrintLinesSplit(xs: seq<string>, ys: seq<string>)
    ensures PrintLines(xs + ys) == PrintLines(xs) + PrintLines(ys)
  {
    if xs == [] {
      assert xs + ys == ys;
    } else {
      assert (xs + ys)[0] == xs[0];
      assert (xs + ys)[1..] == xs[1..] + ys;
      PrintLinesSplit(xs[1..], ys);
      calc {
        PrintLines(xs + ys);
        xs[0] + "\n" + PrintLines(xs[1..] + ys);
        xs[0] + "\n" + (PrintLines(xs[1..]) + PrintLines(ys));
        (xs[0] + "\n" + PrintLines(xs[1..])) + PrintLines(ys);
      }
    }
  }

  lemma PrintFour(ls: seq<string>)
    requires |ls| == 4
    ensures PrintLines(ls) == ls[0] + "\n" + (ls[1] + "\n" + ls[2] + "\n" + ls[3]) + "\n"
  {
    var p3 := PrintLines(ls[3..]);
    assert ls[3..][1..] == [];
    assert ls[3..][0] == ls[3];
    assert PrintLines(ls[3..][1..]) == "";
    assert p3 == ls[3] + "\n" + "";
    assert ls[3] + "\n" + "" == ls[3] + "\n";
    assert ls[2..][1..] == ls[3..];
    assert PrintLines(ls[2..]) == ls[2] + "\n" + p3;
    assert ls[1..][1..] == ls[2..];
    assert PrintLines(ls[1..]) == ls[1] + "\n" + (ls[2] + "\n" + p3);
  }
}
