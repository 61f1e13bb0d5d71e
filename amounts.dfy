/**
 * Amount handling shared by the server and the forms: the comma-tolerant
 * `parseAmountString`, the digits-only amount inputs, the thousands-grouped
 * display form, and the profit difference / over-investment pair derived
 * from a site summary's sales and purchase amounts.
 */
module Amounts {
  import opened Wrappers
  import opened Text

  /** The longest prefix of `s` made of digits. */
  function LeadingDigits(s: string): (r: string)
    ensures AllDigits(r) && StartsWith(s, r)
    ensures |r| < |s| ==> !IsDigit(s[|r|])
  {
    if s != [] && IsDigit(s[0]) then [s[0]] + LeadingDigits(s[1..]) else []
  }

  /** `parseFloat` on integer text: leading white space, an optional sign
      and the longest run of digits that follows; `None` stands for NaN. */
  function ParseNumberPrefix(s: string): (r: Option<int>)
    ensures r.None? <==> LeadingDigits(UnsignedPart(TrimStart(s))) == []
  {
    var t := TrimStart(s);
    var ds := LeadingDigits(UnsignedPart(t));
    var v: int := ValueOf(ds);
    if ds == [] then None
    else if t[0] == '-' then Some(-v)
    else Some(v)
  }

  /** The text after an optional leading sign. */
  function UnsignedPart(t: string): string {
    if t != [] && (t[0] == '-' || t[0] == '+') then t[1..] else t
  }

  /** `parseAmountString`: absent or empty text is 0, commas are dropped
      before parsing, and text that does not parse as a number is 0. */
  function ParseAmountString(s: Option<string>): (r: int)
    ensures s.None? || s == Some("") ==> r == 0
    ensures s.Some? && ParseNumberPrefix(RemoveChar(s.value, ',')).None? ==> r == 0
  {
    if s.None? || s.value == "" then 0
    else GetOr(ParseNumberPrefix(RemoveChar(s.value, ',')), 0)
  }

  /** A digit string with a comma before every group of three digits
      counted from the right (the grouping of `toLocaleString('ko-KR')`). */
  function GroupThousands(ds: string): (r: string)
    requires AllDigits(ds)
    decreases |ds|
  {
    if |ds| <= 3 then ds else GroupThousands(ds[..|ds| - 3]) + "," + ds[|ds| - 3..]
  }

  /** The display form of an integer amount: "-" for negatives and grouped digits. */
  function FormatAmount(n: int): (r: string)
    ensures |r| > 0 && (r[0] == '-' <==> n < 0)
  {
    var ds := NatToString(if n < 0 then -n else n);
    GroupThousandsStartsWithDigit(ds);
    if n < 0 then "-" + GroupThousands(ds) else GroupThousands(ds)
  }

  /** Grouping keeps the leading digit in front. */
  lemma {:induction false} GroupThousandsStartsWithDigit(ds: string)
    requires AllDigits(ds) && ds != []
    ensures |GroupThousands(ds)| > 0 && GroupThousands(ds)[0] == ds[0]
    decreases |ds|
  {
    if |ds| > 3 {
      var a := ds[..|ds| - 3];
      assert AllDigits(a) by { assert forall i :: 0 <= i < |a| ==> a[i] == ds[i]; }
      GroupThousandsStartsWithDigit(a);
    }
  }

  lemma {:induction false} RemoveCommasOfGrouping(ds: string)
    requires AllDigits(ds)
    ensures RemoveChar(GroupThousands(ds), ',') == ds
    decreases |ds|
  {
    if |ds| > 3 {
      var a := ds[..|ds| - 3];
      assert AllDigits(a) by { assert forall i :: 0 <= i < |a| ==> a[i] == ds[i]; }
      RemoveCommasOfGrouping(a);
      RemoveCommasStep(ds);
    } else {
      RemoveAbsentChar(ds, ',');
    }
  }

  /** One grouping step: the last three digits follow a single comma. */
  lemma RemoveCommasStep(ds: string)
    requires AllDigits(ds) && |ds| > 3
    requires RemoveChar(GroupThousands(ds[..|ds| - 3]), ',') == ds[..|ds| - 3]
    ensures RemoveChar(GroupThousands(ds), ',') == ds
  {
    var a, b := ds[..|ds| - 3], ds[|ds| - 3..];
    assert AllDigits(b) by {
      assert forall i :: 0 <= i < |b| ==> b[i] == ds[|ds| - 3 + i];
    }
    RemoveCommaJoin(GroupThousands(a), a, b);
    assert a + b == ds;
  }

  /** Dropping the commas of `g + "," + b` leaves `a + b` when dropping
      those of `g` leaves `a` and `b` is all digits. */
  lemma RemoveCommaJoin(g: string, a: string, b: string)
    requires RemoveChar(g, ',') == a && AllDigits(b)
    ensures RemoveChar(g + "," + b, ',') == a + b
  {
    assert RemoveChar(g + ",", ',') == a by {
      RemoveCharAppend(g, ",", ',');
      assert RemoveChar(",", ',') == "";
      assert a + "" == a;
    }
    RemoveAbsentChar(b, ',');
    RemoveCharAppend(g + ",", b, ',');
  }

  lemma {:induction false} RemoveCharAppend(x: string, y: string, c: char)
    ensures RemoveChar(x + y, c) == RemoveChar(x, c) + RemoveChar(y, c)
  {
    if x != [] {
      assert (x + y)[1..] == x[1..] + y;
      RemoveCharAppend(x[1..], y, c);
    } else {
      assert x + y == y;
    }
  }

  lemma {:induction false} LeadingDigitsOfDigits(ds: string)
    requires AllDigits(ds)
    ensures LeadingDigits(ds) == ds
  {
    if ds != [] { LeadingDigitsOfDigits(ds[1..]); }
  }

  /** Parsing what is displayed gives the amount back: formatting with
      thousands separators and `parseAmountString` are inverse. */
  lemma ParseFormattedAmount(n: int)
    ensures ParseAmountString(Some(FormatAmount(n))) == n
  {
    var t := FormatAmount(n);
    var u := SignText(n) + NatToString(Magnitude(n));
    UngroupFormattedAmount(n);
    assert t != "" by {
      assert |RemoveChar(t, ',')| <= |t|;
    }
    ParseSignedMagnitude(n);
    ParseAmountOf(t, u, n);
  }

  function SignText(n: int): string { if n < 0 then "-" else "" }

  function Magnitude(n: int): nat { if n < 0 then -n else n }

  /** Without its commas the display form is the sign and the digits. */
  lemma UngroupFormattedAmount(n: int)
    ensures RemoveChar(FormatAmount(n), ',') == SignText(n) + NatToString(Magnitude(n))
  {
    var ds := NatToString(Magnitude(n));
    var sign := SignText(n);
    assert FormatAmount(n) == sign + GroupThousands(ds);
    RemoveCommasOfGrouping(ds);
    RemoveCharAppend(sign, GroupThousands(ds), ',');
    assert RemoveChar(sign, ',') == sign;
  }

  /** The sign and the digits of an integer read back as the integer. */
  lemma ParseSignedMagnitude(n: int)
    ensures ParseNumberPrefix(SignText(n) + NatToString(Magnitude(n))) == Some(n)
  {
    ParseSignedDigits(NatToString(Magnitude(n)), n < 0);
    ValueOfNatToString(Magnitude(n));
  }

  /** Non-empty text whose comma-free form parses to `v` reads as `v`. */
  lemma ParseAmountOf(t: string, u: string, v: int)
    requires t != "" && RemoveChar(t, ',') == u && ParseNumberPrefix(u) == Some(v)
    ensures ParseAmountString(Some(t)) == v
  {
  }

  /** `parseFloat` reads an optionally negated digit string as its value. */
  lemma ParseSignedDigits(ds: string, negative: bool)
    requires AllDigits(ds) && ds != []
    ensures ParseNumberPrefix((if negative then "-" else "") + ds) ==
      Some(if negative then -(ValueOf(ds) as int) else ValueOf(ds) as int)
  {
    LeadingDigitsOfDigits(ds);
    var t := (if negative then "-" else "") + ds;
    assert t[0] == (if negative then '-' else ds[0]);
    assert !IsSpace(t[0]);
    assert TrimStart(t) == t;
    assert UnsignedPart(t) == ds by {
      if negative { assert t[1..] == ds; }
    }
  }

  /** The digits-only amount inputs of the forms (`replace(/[^\d]/g, '')`,
      then a number, or undefined when no digit is left). */
  function DigitsAmount(input: string): (r: Option<nat>)
    ensures r.None? <==> (forall i :: 0 <= i < |input| ==> !IsDigit(input[i]))
  {
    var ds := Digits(input);
    DigitsEmptyIffNoDigit(input);
    if ds == "" then None else Some(ValueOf(ds))
  }

  lemma {:induction false} DigitsEmptyIffNoDigit(s: string)
    ensures Digits(s) == "" <==> (forall i :: 0 <= i < |s| ==> !IsDigit(s[i]))
  {
    if s != [] {
      DigitsEmptyIffNoDigit(s[1..]);
      assert forall i :: 1 <= i < |s| ==> s[1..][i - 1] == s[i];
    }
  }

  lemma {:induction false} DigitsAppend(x: string, y: string)
    ensures Digits(x + y) == Digits(x) + Digits(y)
  {
    if x != [] {
      assert (x + y)[1..] == x[1..] + y;
      DigitsAppend(x[1..], y);
    } else {
      assert x + y == y;
    }
  }

  lemma {:induction false} DigitsOfGrouping(ds: string)
    requires AllDigits(ds)
    ensures Digits(GroupThousands(ds)) == ds
    decreases |ds|
  {
    if |ds| > 3 {
      var a, b := ds[..|ds| - 3], ds[|ds| - 3..];
      assert AllDigits(a) && AllDigits(b) by {
        assert forall i :: 0 <= i < |a| ==> a[i] == ds[i];
        assert forall i :: 0 <= i < |b| ==> b[i] == ds[|ds| - 3 + i];
      }
      DigitsOfGrouping(a);
      DigitsJoin(GroupThousands(a), a, b);
      assert a + b == ds;
    }
  }

  /** The digits of `g + "," + b` are `a + b` when those of `g` are `a`
      and `b` is all digits. */
  lemma DigitsJoin(g: string, a: string, b: string)
    requires Digits(g) == a && AllDigits(b)
    ensures Digits(g + "," + b) == a + b
  {
    assert Digits(g + ",") == a by {
      DigitsAppend(g, ",");
      assert Digits(",") == [];
      assert a + [] == a;
    }
    DigitsAppend(g + ",", b);
  }

  /** Editing a displayed non-negative amount keeps its value: the digit
      filter of the grouped text is the amount itself. */
  lemma DigitsOfFormattedAmount(n: nat)
    ensures DigitsAmount(FormatAmount(n)) == Some(n)
  {
    DigitsOfGrouping(NatToString(n));
    ValueOfNatToString(n);
  }

  /** A site_summary row with its amounts as stored text. */
  datatype SiteSummaryRow = SiteSummaryRow(cms: Option<string>, salesAmount: Option<string>, purchaseAmount: Option<string>)

  /** What a site summary contributes to an invoice record. */
  datatype SiteFinancials = SiteFinancials(
    salesAmount: string,
    purchaseAmount: string,
    profitDifference: int,
    isOverInvested: bool)

  /** The values stored when no site summary is available. */
  const NoSummary: SiteFinancials := SiteFinancials("0", "0", 0, false)

  /** `x || '0'` on a text amount. */
  function OrZeroText(s: Option<string>): string {
    if s.None? || s.value == "" then "0" else s.value
  }

  /** The amounts of a found summary, with the parsed difference and the
      over-investment flag. */
  function FinancialsOf(sales: Option<string>, purchase: Option<string>): (f: SiteFinancials)
    ensures f.isOverInvested <==> f.profitDifference < 0
    ensures f.profitDifference == ParseAmountString(sales) - ParseAmountString(purchase)
    ensures f.salesAmount != "" && f.purchaseAmount != ""
  {
    var s := OrZeroText(sales);
    var p := OrZeroText(purchase);
    ParseZeroText();
    var d := ParseAmountString(Some(s)) - ParseAmountString(Some(p));
    SiteFinancials(s, p, d, d < 0)
  }

  lemma ParseZeroText()
    ensures ParseAmountString(Some("0")) == 0
  {
    RemoveAbsentChar("0", ',');
    assert TrimStart("0") == "0";
    assert LeadingDigits("0") == "0";
  }

  /** A summary whose amounts are both missing reads the same as no summary. */
  lemma MissingAmountsAreNoSummary()
    ensures FinancialsOf(None, None) == NoSummary
  {
  }

  /** "1,234" reads as 1234. */
  lemma ParseGroupedExample()
    ensures ParseAmountString(Some("1,234")) == 1234
  {
    ParseFormattedAmount(1234);
    FormatExample();
  }

  /** 1234 is displayed as "1,234". */
  lemma FormatExample()
    ensures FormatAmount(1234) == "1,234"
  {
    var d := ['1'] + ['2'] + ['3'] + ['4'];
    assert NatToString(1234) == d by {
      assert NatToString(1) == ['1'];
      assert NatToString(12) == ['1'] + ['2'];
      assert NatToString(123) == ['1'] + ['2'] + ['3'];
    }
    assert d[..|d| - 3] == ['1'] && d[|d| - 3..] == "234";
    assert GroupThousands(d) == "1,234";
  }

  /** Parsing stops at the first character that is not a digit. */
  lemma ParsePrefixExample()
    ensures ParseAmountString(Some("12원")) == 12
  {
    assert RemoveChar("12원", ',') == "12원" by {
      RemoveAbsentChar("12원", ',');
    }
    assert LeadingDigits(UnsignedPart(TrimStart("12원"))) == "12" by {
      assert TrimStart("12원") == "12원";
      assert LeadingDigits("원") == "";
      assert LeadingDigits("2원") == "2";
    }
    assert ValueOf("12") == 12 by { assert "12"[..1] == "1"; }
  }

  /** Text without a leading number reads as 0. */
  lemma ParseNonNumericExample()
    ensures ParseAmountString(Some("abc")) == 0
  {
    var t := "abc";
    assert RemoveChar(t, ',') == t by { RemoveAbsentChar(t, ','); }
    assert !IsSpace(t[0]) && !IsDigit(t[0]) && t[0] != '-' && t[0] != '+';
    assert TrimStart(t) == t;
    assert UnsignedPart(t) == t;
    assert LeadingDigits(t) == [];
  }
}
