/** The TypeScript seed-data exporter: the same company list and item
    tuples as the Python exporter, built with `Set` spreading and `map`, plus
    the SQL text it writes to initial_data.sql. */
module ExtractExcelTs {
  import opened Wrappers
  import opened Text
  import opened Seqs
  import opened SeedSql

  /** The JSON bundle: the deduplicated names and the rows as the sheet gave
      them, every column included. */
  datatype Bundle = Bundle(constructions: seq<string>, items: seq<ItemRow>)

  /** The two fields each item row contributes to its SQL tuple. */
  function ItemsOf(rows: seq<ItemRow>): (items: seq<Item>)
    ensures |items| == |rows|
    ensures forall i :: 0 <= i < |rows| ==> items[i] == Item(rows[i].itemId, rows[i].itemName)
  {
    if rows == [] then [] else [Item(rows[0].itemId, rows[0].itemName)] + ItemsOf(rows[1..])
  }

  /** `constructionValues`: one tuple per distinct company. */
  function ConstructionValues(companyColumn: seq<string>): seq<string> {
    Tuples(CompanyRows(Unique(companyColumn)))
  }

  /** `itemValues`: one tuple per item row. */
  function ItemValues(rows: seq<ItemRow>): seq<string> {
    Tuples(ItemFieldRows(ItemsOf(rows)))
  }

  /** The SQL section written to the console, one `console.log` per line. */
  function ConsoleSql(companyColumn: seq<string>, rows: seq<ItemRow>): string {
    PrintLines(SqlLines(ConstructionValues(companyColumn), ItemValues(rows)))
  }

  /** `sqlContent`, the text of initial_data.sql. */
  function SqlFile(companyColumn: seq<string>, rows: seq<ItemRow>): string {
    SqlScript(ConstructionValues(companyColumn), ItemValues(rows))
  }

  /** `data`: the deduplicated names and the unmodified item rows. */
  function BundleOf(companyColumn: seq<string>, rows: seq<ItemRow>): (b: Bundle)
    ensures NoDuplicates(b.constructions)
    ensures forall x :: x in b.constructions <==> x in companyColumn
    ensures b.items == rows
  {
    assert forall x :: x in Unique(companyColumn) <==> x in companyColumn by {
      forall x { UniqueMembership(companyColumn, x); }
    }
    Bundle(Unique(companyColumn), rows)
  }

  /** The file holds the same statements as the console: same tuple lists,
      separators and `ON CONFLICT` clauses, without the last newline. */
  lemma FileMatchesConsole(companyColumn: seq<string>, rows: seq<ItemRow>)
    ensures ConsoleSql(companyColumn, rows) == SqlFile(companyColumn, rows) + "\n"
  {
    PrintedSqlIsScript(ConstructionValues(companyColumn), ItemValues(rows));
  }

  /** Spreading the `Set` of names keeps first appearances in order: each
      distinct name once, later duplicates dropped. */
  lemma NamesKeepFirstSeenOrder(companyColumn: seq<string>)
    ensures forall i, j :: 0 <= i < j < |BundleOf(companyColumn, []).constructions| ==>
      FirstIndex(companyColumn, BundleOf(companyColumn, []).constructions[i])
        < FirstIndex(companyColumn, BundleOf(companyColumn, []).constructions[j])
  {
    UniqueKeepsFirstSeenOrder(companyColumn);
  }

  /** `itemValues` follows `itemsData`: its i-th tuple reads back as the
      i-th row's id and name, with every quote in them doubled. */
  lemma ItemValuesFollowRows(rows: seq<ItemRow>, i: nat)
    requires i < |rows|
    ensures |ItemValues(rows)| == |rows|
    ensures ParseTuple(ItemValues(rows)[i]) == Some(([rows[i].itemId, rows[i].itemName], ""))
    ensures ItemValues(rows)[i] == "(" + Literal(rows[i].itemId) + ", " + Literal(rows[i].itemName) + ")"
    ensures QuotesDoubled(SqlEscape(rows[i].itemId)) && QuotesDoubled(SqlEscape(rows[i].itemName))
  {
    var fs := [rows[i].itemId, rows[i].itemName];
    assert ItemValues(rows)[i] == Tuple(fs);
    assert fs[1..] == [rows[i].itemName];
    assert Fields(fs[1..]) == Literal(rows[i].itemName);
    assert Fields(fs) == Literal(rows[i].itemId) + ", " + Literal(rows[i].itemName);
    ParseRenderedTuple(fs, "");
    assert Tuple(fs) + "" == Tuple(fs);
    SqlEscapeProperties(rows[i].itemId);
    SqlEscapeProperties(rows[i].itemName);
  }

  /** The i-th construction tuple reads back as the i-th distinct name, with
      every quote in it doubled. */
  lemma ConstructionValuesFollowNames(companyColumn: seq<string>, i: nat)
    requires i < |Unique(companyColumn)|
    ensures |ConstructionValues(companyColumn)| == |Unique(companyColumn)|
    ensures ParseTuple(ConstructionValues(companyColumn)[i]) == Some(([Unique(companyColumn)[i]], ""))
    ensures QuotesDoubled(SqlEscape(Unique(companyColumn)[i]))
  {
    var fs := [Unique(companyColumn)[i]];
    assert ConstructionValues(companyColumn)[i] == Tuple(fs);
    ParseRenderedTuple(fs, "");
    assert Tuple(fs) + "" == Tuple(fs);
    SqlEscapeProperties(fs[0]);
  }
}
