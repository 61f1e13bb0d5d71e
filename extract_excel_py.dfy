/** The Python seed-data exporter: the distinct company names of
    constructions.xlsx, the item rows of items.xlsx, the two INSERT statements
    it prints and the JSON bundle it saves. The sheets are given as their
    parsed columns; printing and file writing are modelled by the text they
    would produce. */
module ExtractExcelPy {
  import opened Wrappers
  import opened Seqs
  import opened SeedSql

  /** The JSON bundle: the company list and the item list. */
  datatype Bundle = Bundle(constructions: seq<string>, items: seq<Item>)

  /** What one run produces: the printed SQL section and the bundle. */
  datatype Export = Export(printedSql: string, bundle: Bundle)

  /** The item list: one `{item_id, item_name}` per sheet row, in row order,
      with no deduplication. */
  method CollectItems(rows: seq<ItemRow>) returns (items: seq<Item>)
    ensures |items| == |rows|
    ensures forall i :: 0 <= i < |rows| ==> items[i] == Item(rows[i].itemId, rows[i].itemName)
  {
    items := [];
    var k := 0;
    while k < |rows|
      invariant k <= |rows| && |items| == k
      invariant forall i :: 0 <= i < k ==> items[i] == Item(rows[i].itemId, rows[i].itemName)
    {
      items := items + [Item(rows[k].itemId, rows[k].itemName)];
      k := k + 1;
    }
  }

  /** One `('<escaped company>')` tuple per company, in list order. */
  method ConstructionValues(constructions: seq<string>) returns (values: seq<string>)
    ensures values == Tuples(CompanyRows(constructions))
  {
    values := [];
    var k := 0;
    while k < |constructions|
      invariant k <= |constructions| && |values| == k
      invariant forall i :: 0 <= i < k ==> values[i] == Tuple([constructions[i]])
    {
      values := values + [Tuple([constructions[k]])];
      k := k + 1;
    }
  }

  /** One `('<escaped id>', '<escaped name>')` tuple per item, in item order. */
  method ItemValues(items: seq<Item>) returns (values: seq<string>)
    ensures values == Tuples(ItemFieldRows(items))
  {
    values := [];
    var k := 0;
    while k < |items|
      invariant k <= |items| && |values| == k
      invariant forall i :: 0 <= i < k ==> values[i] == Tuple([items[i].itemId, items[i].itemName])
    {
      values := values + [Tuple([items[k].itemId, items[k].itemName])];
      k := k + 1;
    }
  }

  /** The whole run: `unique()` keeps each company once in first-seen order,
      the printed statements are built from exactly the lists put into the
      bundle. */
  method Run(companyColumn: seq<string>, itemRows: seq<ItemRow>) returns (e: Export)
    ensures e.bundle.constructions == Unique(companyColumn)
    ensures |e.bundle.items| == |itemRows|
    ensures forall i :: 0 <= i < |itemRows| ==>
      e.bundle.items[i] == Item(itemRows[i].itemId, itemRows[i].itemName)
    ensures e.printedSql == PrintLines(SqlLines(Tuples(CompanyRows(e.bundle.constructions)),
                                                Tuples(ItemFieldRows(e.bundle.items))))
  {
    var constructions := Unique(companyColumn);
    var items := CollectItems(itemRows);
    var cv := ConstructionValues(constructions);
    var iv := ItemValues(items);
    e := Export(PrintLines(SqlLines(cv, iv)), Bundle(constructions, items));
  }

  /** The printed SQL reads back as exactly the bundle: the constructions
      statement yields the companies and the items statement the items. */
  lemma PrintedSqlMatchesBundle(b: Bundle)
    ensures PrintLines(SqlLines(Tuples(CompanyRows(b.constructions)), Tuples(ItemFieldRows(b.items))))
      == SqlScript(Tuples(CompanyRows(b.constructions)), Tuples(ItemFieldRows(b.items))) + "\n"
    ensures DecodeStatement(ConstructionsStatement(Tuples(CompanyRows(b.constructions))),
                            ConstructionsHeader, "company_name") == Some(CompanyRows(b.constructions))
    ensures DecodeStatement(ItemsStatement(Tuples(ItemFieldRows(b.items))), ItemsHeader, "item_id")
      == Some(ItemFieldRows(b.items))
  {
    PrintedSqlIsScript(Tuples(CompanyRows(b.constructions)), Tuples(ItemFieldRows(b.items)));
    ConstructionsRoundTrip(b.constructions);
    ItemsRoundTrip(b.items);
  }
}
