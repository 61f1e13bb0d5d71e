/**
 * The construction sales detail modal of the daily plan form: choosing a
 * construction company and an item, the quote and meeting flags, the
 * company search, and what `handleSubmit` saves. The company and item
 * lists are what the two list endpoints returned.
 */
module ConstructionSalesModal {
  import opened Wrappers
  import opened Text

  datatype Construction = Construction(id: int, companyName: string)

  datatype Item = Item(id: int, itemId: string, itemName: string)

  /** A `ConstructionSalesDetail` as the modal hands it to `onSave`. */
  datatype SalesDetail = SalesDetail(constructionId: int, itemId: int,
                                     hasQuoteSubmitted: bool, hasMeetingConducted: bool,
                                     construction: Option<Construction>, item: Option<Item>)

  /** The modal's state; `None` is a `null` selection. */
  datatype ModalState = ModalState(selectedConstruction: Option<int>, selectedItem: Option<int>,
                                   hasQuoteSubmitted: bool, hasMeetingConducted: bool,
                                   searchTerm: string, error: string)

  const ConstructionRequired: string := "건설사를 선택해주세요."
  const ItemRequired: string := "품목을 선택해주세요."

  /** A selection that passes `!selected`: present and not the falsy id 0. */
  predicate Chosen(id: Option<int>) { id.Some? && id.value != 0 }

  /** `constructions.find(c => c.id === id)`. */
  function FindConstruction(cs: seq<Construction>, id: int): (r: Option<Construction>)
    ensures r.Some? ==> r.value in cs && r.value.id == id
    ensures r.None? <==> forall i :: 0 <= i < |cs| ==> cs[i].id != id
  {
    if cs == [] then None
    else if cs[0].id == id then Some(cs[0])
    else
      assert forall i :: 1 <= i < |cs| ==> cs[i] == cs[1..][i - 1];
      FindConstruction(cs[1..], id)
  }

  /** `items.find(i => i.id === id)`. */
  function FindItem(items: seq<Item>, id: int): (r: Option<Item>)
    ensures r.Some? ==> r.value in items && r.value.id == id
    ensures r.None? <==> forall i :: 0 <= i < |items| ==> items[i].id != id
  {
    if items == [] then None
    else if items[0].id == id then Some(items[0])
    else
      assert forall i :: 1 <= i < |items| ==> items[i] == items[1..][i - 1];
      FindItem(items[1..], id)
  }

  /** `handleSubmit`: the state afterwards and the detail passed to
      `onSave`, if any. A missing construction is reported first, then a
      missing item; otherwise the detail carries the two ids, the two flags
      and the matching list entries, and the state is left as it was. */
  function Submit(s: ModalState, constructions: seq<Construction>, items: seq<Item>): (r: (ModalState, Option<SalesDetail>))
    ensures !Chosen(s.selectedConstruction) ==> r == (s.(error := ConstructionRequired), None)
    ensures Chosen(s.selectedConstruction) && !Chosen(s.selectedItem) ==> r == (s.(error := ItemRequired), None)
    ensures r.1.Some? <==> Chosen(s.selectedConstruction) && Chosen(s.selectedItem)
    ensures r.1.Some? ==>
      && r.0 == s
      && r.1.value.constructionId == s.selectedConstruction.value && r.1.value.itemId == s.selectedItem.value
      && r.1.value.hasQuoteSubmitted == s.hasQuoteSubmitted && r.1.value.hasMeetingConducted == s.hasMeetingConducted
  {
    if !Chosen(s.selectedConstruction) then (s.(error := ConstructionRequired), None)
    else if !Chosen(s.selectedItem) then (s.(error := ItemRequired), None)
    else
      var c := s.selectedConstruction.value;
      var i := s.selectedItem.value;
      (s, Some(SalesDetail(c, i, s.hasQuoteSubmitted, s.hasMeetingConducted,
                           FindConstruction(constructions, c), FindItem(items, i))))
  }

  /** The saved detail's company and item are listed entries with the saved
      ids, and they are missing only when the lists do not hold those ids. */
  lemma SavedDetailResolves(s: ModalState, constructions: seq<Construction>, items: seq<Item>)
    requires Submit(s, constructions, items).1.Some?
    ensures var d := Submit(s, constructions, items).1.value;
      (d.construction.Some? ==> d.construction.value in constructions && d.construction.value.id == d.constructionId) &&
      (d.item.Some? ==> d.item.value in items && d.item.value.id == d.itemId) &&
      (d.construction.None? <==> forall k :: 0 <= k < |constructions| ==> constructions[k].id != d.constructionId) &&
      (d.item.None? <==> forall k :: 0 <= k < |items| ==> items[k].id != d.itemId)
  {
  }

  // ---------------------------------------------------------------------
  // The company search

  /** The company name matches the search term ignoring ASCII case. */
  predicate NameMatches(c: Construction, term: string) {
    Contains(ToLower(c.companyName), ToLower(term))
  }

  /** `filteredConstructions`. */
  function Filtered(cs: seq<Construction>, term: string): (r: seq<Construction>)
    ensures |r| <= |cs|
    ensures forall c :: c in r <==> c in cs && NameMatches(c, term)
    decreases |cs|
  {
    if cs == [] then []
    else
      var front := Filtered(cs[..|cs| - 1], term);
      var x := cs[|cs| - 1];
      assert cs == cs[..|cs| - 1] + [x];
      if NameMatches(x, term) then front + [x] else front
  }

  /** Filtering a concatenation concatenates the filtered parts, so the
      list keeps the companies in their order. */
  lemma {:induction false} FilteredAppend(a: seq<Construction>, b: seq<Construction>, term: string)
    ensures Filtered(a + b, term) == Filtered(a, term) + Filtered(b, term)
    decreases |b|
  {
    if b == [] {
      assert a + b == a;
    } else {
      var b' := b[..|b| - 1];
      assert (a + b)[..|a + b| - 1] == a + b';
      assert (a + b)[|a + b| - 1] == b[|b| - 1];
      FilteredAppend(a, b', term);
    }
  }

  /** Every name contains the empty term, so an empty search lists every company. */
  lemma {:induction false} EmptyTermKeepsAll(cs: seq<Construction>)
    ensures Filtered(cs, "") == cs
    decreases |cs|
  {
    if cs != [] {
      var x := cs[|cs| - 1];
      assert OccursAt(ToLower(x.companyName), ToLower(""), 0);
      EmptyTermKeepsAll(cs[..|cs| - 1]);
      assert cs == cs[..|cs| - 1] + [x];
    }
  }

  // ---------------------------------------------------------------------
  // Opening the modal

  /** The initialising effect: an edited detail's selection and flags are
      loaded, keeping the search term; without one the selection, the
      flags and the search term are cleared. The error is left alone. */
  function OnOpen(s: ModalState, initial: Option<SalesDetail>): (r: ModalState)
    ensures r.error == s.error
    ensures initial.None? ==>
      r.selectedConstruction.None? && r.selectedItem.None? &&
      !r.hasQuoteSubmitted && !r.hasMeetingConducted && r.searchTerm == ""
    ensures initial.Some? ==>
      r.selectedConstruction == Some(initial.value.constructionId) && r.selectedItem == Some(initial.value.itemId) &&
      r.hasQuoteSubmitted == initial.value.hasQuoteSubmitted &&
      r.hasMeetingConducted == initial.value.hasMeetingConducted && r.searchTerm == s.searchTerm
  {
    match initial
    case Some(d) =>
      s.(selectedConstruction := Some(d.constructionId), selectedItem := Some(d.itemId),
         hasQuoteSubmitted := d.hasQuoteSubmitted, hasMeetingConducted := d.hasMeetingConducted)
    case None =>
      ModalState(None, None, false, false, "", s.error)
  }

  /** A freshly reset modal refuses to save and asks for a company. */
  lemma ResetRefusesToSave(s: ModalState, constructions: seq<Construction>, items: seq<Item>)
    ensures var r := Submit(OnOpen(s, None), constructions, items);
      r.1.None? && r.0.error == ConstructionRequired
  {
  }

  /** Reopening on a saved detail and saving again gives back the same
      ids and flags. */
  lemma ReopenSavesSameDetail(s: ModalState, d: SalesDetail, constructions: seq<Construction>, items: seq<Item>)
    requires d.constructionId != 0 && d.itemId != 0
    ensures var r := Submit(OnOpen(s, Some(d)), constructions, items);
      r.1.Some? && r.1.value.constructionId == d.constructionId && r.1.value.itemId == d.itemId &&
      r.1.value.hasQuoteSubmitted == d.hasQuoteSubmitted && r.1.value.hasMeetingConducted == d.hasMeetingConducted
  {
  }
}
