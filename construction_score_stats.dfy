/**
 * Construction sales scores: the daily-plan details of a period grouped by
 * (construction, item), each quote or meeting counted on its plan's date,
 * scored in tenths of a point, grouped again by construction and ranked by
 * total activity. The fetched plans and details are inputs; the date range
 * and user filters of the queries are applied before the rows arrive.
 */
module ConstructionScoreStats {
  import opened Wrappers
  import opened Text
  import opened Seqs
  import opened Sorting

  /** A fetched daily plan: its id and `created_at` timestamp. */
  datatype Plan = Plan(id: int, createdAt: string)

  /** A `daily_plan_construction_sales` row joined with its construction
      (`id`, `company_name`) and item (`id`, `item_id`, `item_name`). */
  datatype Detail = Detail(dailyPlanId: int, constructionId: int, companyName: string,
                           itemPk: int, itemCode: string, itemName: string,
                           hasQuote: bool, hasMeeting: bool)

  /** The (construction id, item id) pair behind the `"<cid>_<iid>"` key. */
  type Key = (int, int)

  function KeyOf(d: Detail): Key { (d.constructionId, d.itemPk) }

  /** `plans.find(p => p.id === id)`. */
  function FindPlan(plans: seq<Plan>, id: int): (r: Option<Plan>)
    ensures r.Some? ==> r.value in plans && r.value.id == id
    ensures r.None? ==> forall i :: 0 <= i < |plans| ==> plans[i].id != id
  {
    if plans == [] then None
    else if plans[0].id == id then Some(plans[0])
    else FindPlan(plans[1..], id)
  }

  /** `created_at.split('T')[0]`. */
  function ActivityDate(p: Plan): string { Split(p.createdAt, 'T')[0] }

  /** A detail that found its plan, with that plan's activity date. */
  type Activity = (Detail, string)

  /** The details whose plan was fetched, in detail order, each with its date. */
  function Matched(plans: seq<Plan>, ds: seq<Detail>): (acts: seq<Activity>)
    ensures |acts| <= |ds|
  {
    if ds == [] then []
    else
      var d := ds[|ds| - 1];
      match FindPlan(plans, d.dailyPlanId)
      case None => Matched(plans, ds[..|ds| - 1])
      case Some(p) => Matched(plans, ds[..|ds| - 1]) + [(d, ActivityDate(p))]
  }

  lemma MatchedSnoc(plans: seq<Plan>, ds: seq<Detail>, d: Detail)
    ensures Matched(plans, ds + [d]) == Matched(plans, ds) +
      (if FindPlan(plans, d.dailyPlanId).Some? then [(d, ActivityDate(FindPlan(plans, d.dailyPlanId).value))] else [])
  {
    assert (ds + [d])[..|ds|] == ds;
    if FindPlan(plans, d.dailyPlanId).None? {
      assert Matched(plans, ds) + [] == Matched(plans, ds);
    }
  }

  /** A detail whose plan is not among the fetched plans contributes nothing. */
  lemma UnmatchedDetailIgnored(plans: seq<Plan>, ds: seq<Detail>, d: Detail)
    requires FindPlan(plans, d.dailyPlanId).None?
    ensures Matched(plans, ds + [d]) == Matched(plans, ds)
  {
    assert (ds + [d])[..|ds|] == ds;
  }

  function Keys(acts: seq<Activity>): (ks: seq<Key>)
    ensures |ks| == |acts| && forall i :: 0 <= i < |acts| ==> ks[i] == KeyOf(acts[i].0)
  {
    if acts == [] then [] else Keys(acts[..|acts| - 1]) + [KeyOf(acts[|acts| - 1].0)]
  }

  /** Whether the activity is a quote (`quote`) or a meeting (`!quote`). */
  predicate Flagged(d: Detail, quote: bool) {
    if quote then d.hasQuote else d.hasMeeting
  }

  /** The dates pushed onto one key's quote or meeting list, in detail order. */
  function Dates(acts: seq<Activity>, k: Key, quote: bool): seq<string> {
    if acts == [] then []
    else
      var a := acts[|acts| - 1];
      Dates(acts[..|acts| - 1], k, quote) + (if KeyOf(a.0) == k && Flagged(a.0, quote) then [a.1] else [])
  }

  /** How many activities of the key carry the flag. */
  function CountFlagged(acts: seq<Activity>, k: Key, quote: bool): nat {
    if acts == [] then 0
    else
      var a := acts[|acts| - 1];
      CountFlagged(acts[..|acts| - 1], k, quote) + (if KeyOf(a.0) == k && Flagged(a.0, quote) then 1 else 0)
  }

  /** One date is recorded per flagged detail of the key, so a detail with both
      flags adds to both lists. */
  lemma {:induction false} DatesCount(acts: seq<Activity>, k: Key, quote: bool)
    ensures |Dates(acts, k, quote)| == CountFlagged(acts, k, quote)
  {
    if acts != [] { DatesCount(acts[..|acts| - 1], k, quote); }
  }

  /** An `itemScoresMap` value. */
  datatype Entry = Entry(constructionId: int, constructionName: string, itemId: int, itemName: string,
                         quoteDates: seq<string>, meetingDates: seq<string>)

  /** The entry created for a new key: the item is shown as
      `"<item_id> - <item_name>"`. */
  function NewEntry(d: Detail): Entry {
    Entry(d.constructionId, d.companyName, d.itemPk, d.itemCode + " - " + d.itemName, [], [])
  }

  /** The entry for a key after all activities: named by the key's first
      detail, holding every date recorded for it. */
  function EntryOf(acts: seq<Activity>, k: Key): Entry
    requires k in Keys(acts)
  {
    NewEntry(acts[FirstIndex(Keys(acts), k)].0).(quoteDates := Dates(acts, k, true), meetingDates := Dates(acts, k, false))
  }

  /** A key without activities has no dates yet. */
  lemma {:induction false} NoDatesBeforeFirst(acts: seq<Activity>, k: Key, q: bool)
    requires k !in Keys(acts)
    ensures Dates(acts, k, q) == []
  {
    if acts != [] {
      var p := acts[..|acts| - 1];
      assert Keys(acts) == Keys(p) + [KeyOf(acts[|acts| - 1].0)];
      NoDatesBeforeFirst(p, k, q);
    }
  }

  /** The entry after recording one activity's flags. */
  function Record(e: Entry, d: Detail, date: string): Entry {
    e.(quoteDates := e.quoteDates + (if d.hasQuote then [date] else []),
       meetingDates := e.meetingDates + (if d.hasMeeting then [date] else []))
  }

  /** Appending one activity to the entry of its key records its flags;
      the entries of other keys stay as they were. */
  lemma EntryOfSnoc(acts: seq<Activity>, a: Activity, k: Key)
    requires k in Keys(acts + [a])
    ensures KeyOf(a.0) != k ==> k in Keys(acts) && EntryOf(acts + [a], k) == EntryOf(acts, k)
    ensures KeyOf(a.0) == k ==>
      EntryOf(acts + [a], k) == Record(if k in Keys(acts) then EntryOf(acts, k) else NewEntry(a.0), a.0, a.1)
  {
    var acts' := acts + [a];
    assert Keys(acts') == Keys(acts) + [KeyOf(a.0)] by {
      assert acts'[..|acts|] == acts;
    }
    DatesSnoc(acts, a, k, true);
    DatesSnoc(acts, a, k, false);
    if k in Keys(acts) {
      FirstIndexOfOld(Keys(acts), k, KeyOf(a.0));
      assert acts'[FirstIndex(Keys(acts), k)] == acts[FirstIndex(Keys(acts), k)];
    } else {
      FirstIndexOfNew(Keys(acts), k);
      NoDatesBeforeFirst(acts, k, true);
      NoDatesBeforeFirst(acts, k, false);
    }
  }

  lemma DatesSnoc(acts: seq<Activity>, a: Activity, k: Key, quote: bool)
    ensures Dates(acts + [a], k, quote) ==
      Dates(acts, k, quote) + (if KeyOf(a.0) == k && Flagged(a.0, quote) then [a.1] else [])
  {
    assert (acts + [a])[..|acts|] == acts;
  }

  /** `itemScoresMap` after the activities. A `Map` iterates in insertion
      order, so it is modelled as its keys in first-seen order and the entry
      of each key at the same position. */
  function KeyEntries(acts: seq<Activity>): (es: seq<Entry>)
    ensures |es| == |Unique(Keys(acts))|
  {
    UniqueElements(Keys(acts));
    EntriesFor(acts, Unique(Keys(acts)))
  }

  function EntriesFor(acts: seq<Activity>, ks: seq<Key>): (es: seq<Entry>)
    requires forall i :: 0 <= i < |ks| ==> ks[i] in Keys(acts)
    ensures |es| == |ks|
  {
    if ks == [] then [] else [EntryOf(acts, ks[0])] + EntriesFor(acts, ks[1..])
  }

  lemma {:induction false} EntriesForAt(acts: seq<Activity>, ks: seq<Key>, i: nat)
    requires forall i :: 0 <= i < |ks| ==> ks[i] in Keys(acts)
    requires i < |ks|
    ensures EntriesFor(acts, ks)[i] == EntryOf(acts, ks[i])
  {
    if i > 0 { EntriesForAt(acts, ks[1..], i - 1); }
  }

  /** The map holds, at each position, the entry of the key at that position. */
  lemma KeyEntriesAt(acts: seq<Activity>, j: nat)
    requires j < |Unique(Keys(acts))|
    ensures Unique(Keys(acts))[j] in Keys(acts)
    ensures KeyEntries(acts)[j] == EntryOf(acts, Unique(Keys(acts))[j])
  {
    UniqueElements(Keys(acts));
    EntriesForAt(acts, Unique(Keys(acts)), j);
  }

  /** The map after one more activity: the entry of its key records the
      activity's flags, a new key gets a fresh entry at the end. */
  function AddActivity(keys: seq<Key>, entries: seq<Entry>, d: Detail, date: string): (r: (seq<Key>, seq<Entry>))
    requires |entries| == |keys|
  {
    var k := KeyOf(d);
    if k in keys then
      var j := FirstIndex(keys, k);
      (keys, entries[j := Record(entries[j], d, date)])
    else (keys + [k], entries + [Record(NewEntry(d), d, date)])
  }

  /** After one more activity, the entry at a position the map already had
      records the activity's flags when it belongs to the activity's key, and
      is unchanged otherwise. */
  lemma KeyEntriesOld(acts: seq<Activity>, a: Activity, j: nat)
    requires j < |Unique(Keys(acts))|
    ensures j < |Unique(Keys(acts + [a]))| && Unique(Keys(acts + [a]))[j] == Unique(Keys(acts))[j]
    ensures KeyEntries(acts + [a])[j] ==
      if Unique(Keys(acts))[j] == KeyOf(a.0) then Record(KeyEntries(acts)[j], a.0, a.1) else KeyEntries(acts)[j]
  {
    var acts' := acts + [a];
    assert acts'[..|acts|] == acts;
    assert Keys(acts') == Keys(acts) + [KeyOf(a.0)];
    UniqueSnoc(Keys(acts), KeyOf(a.0));
    var x := Unique(Keys(acts))[j];
    KeyEntriesAt(acts, j);
    KeyEntriesAt(acts', j);
    assert x in Keys(acts');
    EntryOfSnoc(acts, a, x);
  }

  /** An activity with a new key adds one entry at the end. */
  lemma KeyEntriesNew(acts: seq<Activity>, a: Activity)
    requires KeyOf(a.0) !in Keys(acts)
    ensures Unique(Keys(acts + [a])) == Unique(Keys(acts)) + [KeyOf(a.0)]
    ensures KeyEntries(acts + [a])[|Unique(Keys(acts))|] == Record(NewEntry(a.0), a.0, a.1)
  {
    var acts' := acts + [a];
    assert acts'[..|acts|] == acts;
    assert Keys(acts') == Keys(acts) + [KeyOf(a.0)];
    UniqueSnoc(Keys(acts), KeyOf(a.0));
    assert KeyOf(a.0) in Keys(acts');
    KeyEntriesAt(acts', |Unique(Keys(acts))|);
    EntryOfSnoc(acts, a, KeyOf(a.0));
  }

  /** An activity of a key already in the map updates that key's entry. */
  lemma OldKeyStep(acts: seq<Activity>, a: Activity)
    requires KeyOf(a.0) in Unique(Keys(acts))
    ensures Unique(Keys(acts + [a])) == Unique(Keys(acts))
    ensures var f := FirstIndex(Unique(Keys(acts)), KeyOf(a.0));
      KeyEntries(acts + [a]) == KeyEntries(acts)[f := Record(KeyEntries(acts)[f], a.0, a.1)]
  {
    var k := KeyOf(a.0);
    var acts' := acts + [a];
    var keys, entries := Unique(Keys(acts)), KeyEntries(acts);
    var entries' := KeyEntries(acts');
    assert Unique(Keys(acts')) == keys by {
      assert acts'[..|acts|] == acts;
      assert Keys(acts') == Keys(acts) + [k];
      UniqueSnoc(Keys(acts), k);
      UniqueMembership(Keys(acts), k);
    }
    var f := FirstIndex(keys, k);
    var r := entries[f := Record(entries[f], a.0, a.1)];
    forall j | 0 <= j < |keys| ensures r[j] == entries'[j] {
      KeyEntriesOld(acts, a, j);
      if keys[j] == k { FirstIndexOfDistinct(keys, j); }
    }
    assert r == entries' by { assert |r| == |entries'|; }
  }

  /** An activity of a new key appends a fresh entry. */
  lemma NewKeyStep(acts: seq<Activity>, a: Activity)
    requires KeyOf(a.0) !in Unique(Keys(acts))
    ensures Unique(Keys(acts + [a])) == Unique(Keys(acts)) + [KeyOf(a.0)]
    ensures KeyEntries(acts + [a]) == KeyEntries(acts) + [Record(NewEntry(a.0), a.0, a.1)]
  {
    var keys, entries := Unique(Keys(acts)), KeyEntries(acts);
    var entries' := KeyEntries(acts + [a]);
    UniqueMembership(Keys(acts), KeyOf(a.0));
    KeyEntriesNew(acts, a);
    forall j | 0 <= j < |entries| ensures entries'[j] == entries[j] {
      KeyEntriesOld(acts, a, j);
      assert keys[j] != KeyOf(a.0);
    }
    AppendedByPositions(entries, entries', Record(NewEntry(a.0), a.0, a.1));
  }

  /** Recording one more activity in the map gives the map of the longer
      activity list. */
  lemma GroupStep(acts: seq<Activity>, d: Detail, date: string)
    ensures AddActivity(Unique(Keys(acts)), KeyEntries(acts), d, date)
      == (Unique(Keys(acts + [(d, date)])), KeyEntries(acts + [(d, date)]))
  {
    if KeyOf(d) in Unique(Keys(acts)) {
      OldKeyStep(acts, (d, date));
    } else {
      NewKeyStep(acts, (d, date));
    }
  }

  /** The body of the grouping loop for a detail with a plan: create the
      entry of a new key, then push the date onto its quote and meeting lists
      as the flags say. */
  method RecordActivity(keys: seq<Key>, entries: seq<Entry>, d: Detail, date: string)
    returns (keys': seq<Key>, entries': seq<Entry>)
    requires |entries| == |keys|
    ensures (keys', entries') == AddActivity(keys, entries, d, date)
  {
    keys', entries' := keys, entries;
    var k := KeyOf(d);
    var j;
    if k in keys' {
      j := FirstIndex(keys', k);
    } else {
      keys', entries', j := keys' + [k], entries' + [NewEntry(d)], |keys'|;
    }
    var e := entries'[j];
    ghost var e0 := e;
    if d.hasQuote {
      e := e.(quoteDates := e.quoteDates + [date]);
    } else {
      assert e.quoteDates + [] == e.quoteDates;
    }
    if d.hasMeeting {
      e := e.(meetingDates := e.meetingDates + [date]);
    } else {
      assert e.meetingDates + [] == e.meetingDates;
    }
    assert e == Record(e0, d, date);
    if k !in keys {
      assert (entries + [NewEntry(d)])[j := e] == entries + [e];
    }
    entries' := entries'[j := e];
  }

  /** Step 3: one entry per key, in first-seen key order, holding the dates of
      its quotes and meetings. */
  method GroupDetails(plans: seq<Plan>, details: seq<Detail>) returns (keys: seq<Key>, entries: seq<Entry>)
    ensures keys == Unique(Keys(Matched(plans, details)))
    ensures entries == KeyEntries(Matched(plans, details))
  {
    keys, entries := [], [];
    var i := 0;
    assert details[..0] == [];
    while i < |details|
      invariant i <= |details|
      invariant keys == Unique(Keys(Matched(plans, details[..i])))
      invariant entries == KeyEntries(Matched(plans, details[..i]))
    {
      var d := details[i];
      assert details[..i + 1] == details[..i] + [d];
      MatchedSnoc(plans, details[..i], d);
      var p := FindPlan(plans, d.dailyPlanId);
      if p.Some? {
        GroupStep(Matched(plans, details[..i]), d, ActivityDate(p.value));
        keys, entries := RecordActivity(keys, entries, d, ActivityDate(p.value));
      } else {
        assert Matched(plans, details[..i]) + [] == Matched(plans, details[..i]);
      }
      i := i + 1;
    }
    assert details[..i] == details;
  }

  // ---------------------------------------------------------------------
  // Step 4: scoring one entry

  /** Score in tenths: the first activity is worth 1 point, each later one 0.1. */
  function ScoreTenths(count: nat): (s: nat)
    ensures count == 0 <==> s == 0
    ensures count > 0 ==> s == 10 + (count - 1)
  {
    if count > 0 then 10 + (count - 1) else 0
  }

  lemma StrLeRefl(a: string)
    ensures StrLe(a, a)
  {
    StrLeTotal(a, a);
  }

  /** `all_dates.sort().reverse()[0] || null`: the latest date, or nothing
      when there is no date or the latest is the empty string. */
  function Latest(dates: seq<string>): (r: Option<string>)
    ensures r.Some? ==> (r.value in dates && r.value != "" &&
      forall i :: 0 <= i < |dates| ==> StrLe(dates[i], r.value))
    ensures r.None? ==> forall i :: 0 <= i < |dates| ==> dates[i] == ""
  {
    var s := SortStrings(dates);
    PermutationFacts(s, dates);
    if s == [] then None
    else
      var m := s[|s| - 1];
      assert forall i :: 0 <= i < |dates| ==> StrLe(dates[i], m) by {
        forall i | 0 <= i < |dates| ensures StrLe(dates[i], m) {
          assert dates[i] in s;
          var j :| 0 <= j < |s| && s[j] == dates[i];
          if j == |s| - 1 { StrLeRefl(m); }
        }
      }
      assert m in dates;
      if m == "" then None else Some(m)
  }

  /** A `ConstructionItemScore` without the clock-dependent day count. */
  datatype ItemScore = ItemScore(constructionId: int, constructionName: string, itemId: int, itemName: string,
                                 quoteCount: nat, quoteScore: nat, meetingCount: nat, meetingScore: nat,
                                 recentActivityDate: Option<string>,
                                 quoteDates: seq<string>, meetingDates: seq<string>)

  /** Activities contributed by one item score. */
  function ItemActivities(s: ItemScore): nat { s.quoteCount + s.meetingCount }

  function ScoreItem(e: Entry): (s: ItemScore)
    ensures s.constructionId == e.constructionId && s.constructionName == e.constructionName
    ensures s.itemId == e.itemId && s.itemName == e.itemName
    ensures SortedStrings(s.quoteDates) && multiset(s.quoteDates) == multiset(e.quoteDates)
    ensures SortedStrings(s.meetingDates) && multiset(s.meetingDates) == multiset(e.meetingDates)
    ensures s.quoteCount == |e.quoteDates| && s.meetingCount == |e.meetingDates|
    ensures s.quoteScore == ScoreTenths(s.quoteCount) && s.meetingScore == ScoreTenths(s.meetingCount)
  {
    var q := SortStrings(e.quoteDates);
    var m := SortStrings(e.meetingDates);
    PermutationFacts(q, e.quoteDates);
    PermutationFacts(m, e.meetingDates);
    ItemScore(e.constructionId, e.constructionName, e.itemId, e.itemName,
              |q|, ScoreTenths(|q|), |m|, ScoreTenths(|m|), Latest(q + m), q, m)
  }

  /** The latest date of two sorted lists is the latest date of the lists
      they were sorted from. */
  lemma LatestOfBoth(q: seq<string>, m: seq<string>, q0: seq<string>, m0: seq<string>)
    requires multiset(q) == multiset(q0) && multiset(m) == multiset(m0)
    ensures Latest(q + m).Some? ==>
      var r := Latest(q + m).value;
      (r in q0 || r in m0) &&
      (forall i :: 0 <= i < |q0| ==> StrLe(q0[i], r)) &&
      (forall i :: 0 <= i < |m0| ==> StrLe(m0[i], r))
    ensures Latest(q + m).None? ==>
      (forall i :: 0 <= i < |q0| ==> q0[i] == "") &&
      (forall i :: 0 <= i < |m0| ==> m0[i] == "")
  {
    var all := q + m;
    forall i | 0 <= i < |q0| ensures q0[i] in all {
      assert q0[i] in multiset(q);
    }
    forall i | 0 <= i < |m0| ensures m0[i] in all {
      assert m0[i] in multiset(m);
    }
    if Latest(all).Some? {
      var r := Latest(all).value;
      assert r in q || r in m;
      assert r in q ==> r in multiset(q0);
      assert r in m ==> r in multiset(m0);
    }
  }

  /** The recent activity date is the latest date of either list, and is
      absent exactly when both lists hold no non-empty date. */
  lemma RecentIsLatestOfBoth(e: Entry)
    ensures ScoreItem(e).recentActivityDate.Some? ==>
      var r := ScoreItem(e).recentActivityDate.value;
      (r in e.quoteDates || r in e.meetingDates) &&
      (forall i :: 0 <= i < |e.quoteDates| ==> StrLe(e.quoteDates[i], r)) &&
      (forall i :: 0 <= i < |e.meetingDates| ==> StrLe(e.meetingDates[i], r))
    ensures ScoreItem(e).recentActivityDate.None? ==>
      (forall i :: 0 <= i < |e.quoteDates| ==> e.quoteDates[i] == "") &&
      (forall i :: 0 <= i < |e.meetingDates| ==> e.meetingDates[i] == "")
  {
    var s := ScoreItem(e);
    LatestOfBoth(s.quoteDates, s.meetingDates, e.quoteDates, e.meetingDates);
  }

  /** `.map(item => …)` over the entries. */
  function ScoreAll(es: seq<Entry>): (items: seq<ItemScore>)
    ensures |items| == |es| && forall i :: 0 <= i < |es| ==> items[i] == ScoreItem(es[i])
  {
    if es == [] then [] else [ScoreItem(es[0])] + ScoreAll(es[1..])
  }

  /** The item scores of step 4, in key order. */
  function ItemScores(acts: seq<Activity>): seq<ItemScore> {
    ScoreAll(KeyEntries(acts))
  }

  // ---------------------------------------------------------------------
  // Step 5: grouping by construction

  /** A `ConstructionScoreStats` entry. */
  datatype ConstructionStats = ConstructionStats(constructionId: int, constructionName: string,
                                                 totalActivities: nat, itemScores: seq<ItemScore>)

  function Cids(items: seq<ItemScore>): (cs: seq<int>)
    ensures |cs| == |items| && forall i :: 0 <= i < |items| ==> cs[i] == items[i].constructionId
  {
    if items == [] then [] else Cids(items[..|items| - 1]) + [items[|items| - 1].constructionId]
  }

  /** The item scores of one construction, in order. */
  function ItemsOf(items: seq<ItemScore>, c: int): (r: seq<ItemScore>)
    ensures forall i :: 0 <= i < |r| ==> r[i].constructionId == c
  {
    if items == [] then []
    else
      var x := items[|items| - 1];
      ItemsOf(items[..|items| - 1], c) + (if x.constructionId == c then [x] else [])
  }

  /** Quote plus meeting counts of a list of item scores. */
  function Activities(items: seq<ItemScore>): nat {
    if items == [] then 0 else Activities(items[..|items| - 1]) + ItemActivities(items[|items| - 1])
  }

  /** The group of a construction: named by its first item score, holding all
      its item scores and their activity count. */
  function GroupOf(items: seq<ItemScore>, c: int): ConstructionStats
    requires c in Cids(items)
  {
    ConstructionStats(c, items[FirstIndex(Cids(items), c)].constructionName,
                      Activities(ItemsOf(items, c)), ItemsOf(items, c))
  }

  /** A construction without item scores has no items yet. */
  lemma {:induction false} NoItemsBeforeFirst(items: seq<ItemScore>, c: int)
    requires c !in Cids(items)
    ensures ItemsOf(items, c) == []
  {
    if items != [] {
      var p := items[..|items| - 1];
      assert Cids(items) == Cids(p) + [items[|items| - 1].constructionId];
      NoItemsBeforeFirst(p, c);
    }
  }

  /** The group created for a new construction id. */
  function NewGroup(x: ItemScore): ConstructionStats {
    ConstructionStats(x.constructionId, x.constructionName, 0, [])
  }

  /** `item_scores.push(itemScore)` and `total_activities += quote_count + meeting_count`. */
  function AddItem(g: ConstructionStats, x: ItemScore): ConstructionStats {
    g.(itemScores := g.itemScores + [x], totalActivities := g.totalActivities + x.quoteCount + x.meetingCount)
  }

  lemma GroupOfSnoc(items: seq<ItemScore>, x: ItemScore, c: int)
    requires c in Cids(items + [x])
    ensures x.constructionId != c ==> c in Cids(items) && GroupOf(items + [x], c) == GroupOf(items, c)
    ensures x.constructionId == c ==>
      GroupOf(items + [x], c) == AddItem(if c in Cids(items) then GroupOf(items, c) else NewGroup(x), x)
  {
    var items' := items + [x];
    assert items'[..|items|] == items && items'[|items'| - 1] == x;
    assert Cids(items') == Cids(items) + [x.constructionId];
    if x.constructionId == c {
      GroupOfSnocSame(items, x);
    } else {
      FirstIndexOfOld(Cids(items), c, x.constructionId);
      var ys := ItemsOf(items, c);
      assert ItemsOf(items', c) == ys + [];
      assert ys + [] == ys;
    }
  }

  lemma GroupOfSnocSame(items: seq<ItemScore>, x: ItemScore)
    ensures GroupOf(items + [x], x.constructionId) ==
      AddItem(if x.constructionId in Cids(items) then GroupOf(items, x.constructionId) else NewGroup(x), x)
  {
    var c := x.constructionId;
    var items' := items + [x];
    assert items'[..|items|] == items && items'[|items'| - 1] == x;
    assert Cids(items') == Cids(items) + [c];
    var ys := ItemsOf(items, c);
    assert ItemsOf(items', c) == ys + [x];
    assert (ys + [x])[..|ys|] == ys && (ys + [x])[|ys|] == x;
    assert Activities(ys + [x]) == Activities(ys) + ItemActivities(x);
    if c in Cids(items) {
      FirstIndexOfOld(Cids(items), c, c);
    } else {
      FirstIndexOfNew(Cids(items), c);
      NoItemsBeforeFirst(items, c);
    }
  }

  /** The groups of step 5, in first-seen construction order. */
  function Groups(items: seq<ItemScore>): (gs: seq<ConstructionStats>)
    ensures |gs| == |Unique(Cids(items))|
  {
    UniqueElements(Cids(items));
    GroupsFor(items, Unique(Cids(items)))
  }

  function GroupsFor(items: seq<ItemScore>, cs: seq<int>): (gs: seq<ConstructionStats>)
    requires forall i :: 0 <= i < |cs| ==> cs[i] in Cids(items)
    ensures |gs| == |cs|
  {
    if cs == [] then [] else [GroupOf(items, cs[0])] + GroupsFor(items, cs[1..])
  }

  lemma {:induction false} GroupsForAt(items: seq<ItemScore>, cs: seq<int>, i: nat)
    requires forall i :: 0 <= i < |cs| ==> cs[i] in Cids(items)
    requires i < |cs|
    ensures GroupsFor(items, cs)[i] == GroupOf(items, cs[i])
  {
    if i > 0 { GroupsForAt(items, cs[1..], i - 1); }
  }

  /** Each position holds the group of the construction first seen there. */
  lemma GroupsAt(items: seq<ItemScore>, j: nat)
    requires j < |Unique(Cids(items))|
    ensures Unique(Cids(items))[j] in Cids(items)
    ensures Groups(items)[j] == GroupOf(items, Unique(Cids(items))[j])
  {
    UniqueElements(Cids(items));
    GroupsForAt(items, Unique(Cids(items)), j);
  }

  function AddToGroups(order: seq<int>, groups: seq<ConstructionStats>, x: ItemScore): (r: (seq<int>, seq<ConstructionStats>))
    requires |groups| == |order|
  {
    var c := x.constructionId;
    if c in order then
      var j := FirstIndex(order, c);
      (order, groups[j := AddItem(groups[j], x)])
    else (order + [c], groups + [AddItem(NewGroup(x), x)])
  }

  /** After one more item score, the group at a position that already
      existed gains the item when it is of the item's construction, and is
      unchanged otherwise. */
  lemma GroupsOld(items: seq<ItemScore>, x: ItemScore, j: nat)
    requires j < |Unique(Cids(items))|
    ensures j < |Unique(Cids(items + [x]))| && Unique(Cids(items + [x]))[j] == Unique(Cids(items))[j]
    ensures Groups(items + [x])[j] ==
      if Unique(Cids(items))[j] == x.constructionId then AddItem(Groups(items)[j], x) else Groups(items)[j]
  {
    var items' := items + [x];
    assert items'[..|items|] == items;
    assert Cids(items') == Cids(items) + [x.constructionId];
    UniqueSnoc(Cids(items), x.constructionId);
    var c := Unique(Cids(items))[j];
    GroupsAt(items, j);
    GroupsAt(items', j);
    assert c in Cids(items');
    GroupOfSnoc(items, x, c);
  }

  /** An item score of a new construction adds one group at the end. */
  lemma GroupsNew(items: seq<ItemScore>, x: ItemScore)
    requires x.constructionId !in Cids(items)
    ensures Unique(Cids(items + [x])) == Unique(Cids(items)) + [x.constructionId]
    ensures Groups(items + [x])[|Unique(Cids(items))|] == AddItem(NewGroup(x), x)
  {
    var items' := items + [x];
    assert items'[..|items|] == items;
    assert Cids(items') == Cids(items) + [x.constructionId];
    UniqueSnoc(Cids(items), x.constructionId);
    assert x.constructionId in Cids(items');
    GroupsAt(items', |Unique(Cids(items))|);
    GroupOfSnoc(items, x, x.constructionId);
  }

  /** An item score of a construction already grouped joins its group. */
  lemma OldGroupStep(items: seq<ItemScore>, x: ItemScore)
    requires x.constructionId in Unique(Cids(items))
    ensures Unique(Cids(items + [x])) == Unique(Cids(items))
    ensures var f := FirstIndex(Unique(Cids(items)), x.constructionId);
      Groups(items + [x]) == Groups(items)[f := AddItem(Groups(items)[f], x)]
  {
    var c := x.constructionId;
    var items' := items + [x];
    var order, groups := Unique(Cids(items)), Groups(items);
    var groups' := Groups(items');
    assert Unique(Cids(items')) == order by {
      assert items'[..|items|] == items;
      assert Cids(items') == Cids(items) + [c];
      UniqueSnoc(Cids(items), c);
      UniqueMembership(Cids(items), c);
    }
    var f := FirstIndex(order, c);
    var r := groups[f := AddItem(groups[f], x)];
    forall j | 0 <= j < |order| ensures r[j] == groups'[j] {
      GroupsOld(items, x, j);
      if order[j] == c { FirstIndexOfDistinct(order, j); }
    }
    assert r == groups' by { assert |r| == |groups'|; }
  }

  /** An item score of a new construction opens a group at the end. */
  lemma NewGroupStep(items: seq<ItemScore>, x: ItemScore)
    requires x.constructionId !in Unique(Cids(items))
    ensures Unique(Cids(items + [x])) == Unique(Cids(items)) + [x.constructionId]
    ensures Groups(items + [x]) == Groups(items) + [AddItem(NewGroup(x), x)]
  {
    var order, groups := Unique(Cids(items)), Groups(items);
    var groups' := Groups(items + [x]);
    UniqueMembership(Cids(items), x.constructionId);
    GroupsNew(items, x);
    forall j | 0 <= j < |groups| ensures groups'[j] == groups[j] {
      GroupsOld(items, x, j);
      assert order[j] != x.constructionId;
    }
    AppendedByPositions(groups, groups', AddItem(NewGroup(x), x));
  }

  /** Adding one more item score to the groups gives the groups of the
      longer list. */
  lemma GroupByStep(items: seq<ItemScore>, x: ItemScore)
    ensures AddToGroups(Unique(Cids(items)), Groups(items), x) == (Unique(Cids(items + [x])), Groups(items + [x]))
  {
    if x.constructionId in Unique(Cids(items)) {
      OldGroupStep(items, x);
    } else {
      NewGroupStep(items, x);
    }
  }

  lemma PrefixStep(items: seq<ItemScore>, i: nat)
    requires i < |items|
    ensures AddToGroups(Unique(Cids(items[..i])), Groups(items[..i]), items[i])
      == (Unique(Cids(items[..i + 1])), Groups(items[..i + 1]))
  {
    assert items[..i + 1] == items[..i] + [items[i]];
    GroupByStep(items[..i], items[i]);
  }

  /** The body of the construction loop: create the group of a new id, then
      push the item score and add its activities to the total. */
  method RecordItem(order: seq<int>, groups: seq<ConstructionStats>, x: ItemScore)
    returns (order': seq<int>, groups': seq<ConstructionStats>)
    requires |groups| == |order|
    ensures (order', groups') == AddToGroups(order, groups, x)
  {
    order', groups' := order, groups;
    var c := x.constructionId;
    var j;
    if c in order' {
      j := FirstIndex(order', c);
    } else {
      order', groups', j := order' + [c], groups' + [NewGroup(x)], |order'|;
    }
    var g := groups'[j];
    if c !in order {
      assert (groups + [NewGroup(x)])[j := AddItem(g, x)] == groups + [AddItem(g, x)];
    }
    groups' := groups'[j := g.(itemScores := g.itemScores + [x],
                               totalActivities := g.totalActivities + x.quoteCount + x.meetingCount)];
  }

  /** Step 5: one group per construction, in first-seen order; each group's
      total is accumulated with `+=` as its items are pushed. */
  method GroupByConstruction(items: seq<ItemScore>) returns (order: seq<int>, groups: seq<ConstructionStats>)
    ensures order == Unique(Cids(items))
    ensures groups == Groups(items)
  {
    order, groups := [], [];
    var i := 0;
    assert items[..0] == [];
    while i < |items|
      invariant i <= |items|
      invariant order == Unique(Cids(items[..i]))
      invariant groups == Groups(items[..i])
    {
      PrefixStep(items, i);
      order, groups := RecordItem(order, groups, items[i]);
      i := i + 1;
    }
    assert items[..i] == items;
  }

  /** A construction's total is the sum of quote and meeting counts of its
      items, and its items are exactly the item scores of that construction. */
  lemma GroupTotalIsItemSum(items: seq<ItemScore>, c: int)
    requires c in Cids(items)
    ensures GroupOf(items, c).totalActivities == Activities(GroupOf(items, c).itemScores)
    ensures forall x :: x in GroupOf(items, c).itemScores <==> x in items && x.constructionId == c
  {
    ItemsOfMembers(items, c);
  }

  lemma {:induction false} ItemsOfMembers(items: seq<ItemScore>, c: int)
    ensures forall x :: x in ItemsOf(items, c) <==> x in items && x.constructionId == c
  {
    if items != [] {
      var p := items[..|items| - 1];
      ItemsOfMembers(p, c);
      assert items == p + [items[|items| - 1]];
    }
  }

  // ---------------------------------------------------------------------
  // Steps 6 and 7: ranking and summary

  function NegTotal(s: ConstructionStats): int { -(s.totalActivities as int) }

  function TotalOf(scores: seq<ConstructionStats>): nat {
    if scores == [] then 0 else TotalOf(scores[..|scores| - 1]) + scores[|scores| - 1].totalActivities
  }

  /** The sum of totals does not depend on the order of the list. */
  lemma {:induction false} TotalOfPermutation(a: seq<ConstructionStats>, b: seq<ConstructionStats>)
    requires multiset(a) == multiset(b)
    ensures TotalOf(a) == TotalOf(b)
    decreases |a|
  {
    if a == [] {
      assert |multiset(b)| == 0;
    } else {
      var n := |a| - 1;
      var x := a[n];
      assert a == a[..n] + [x];
      assert multiset(a) == multiset(a[..n]) + multiset{x};
      assert x in multiset(b);
      var j :| 0 <= j < |b| && b[j] == x;
      var b' := b[..j] + b[j + 1..];
      assert b == b[..j] + [x] + b[j + 1..];
      assert multiset(b) == multiset(b[..j]) + multiset{x} + multiset(b[j + 1..]);
      assert multiset(b') == multiset(b[..j]) + multiset(b[j + 1..]);
      assert multiset(a[..n]) == multiset(a) - multiset{x};
      assert multiset(b') == multiset(b) - multiset{x};
      TotalOfPermutation(a[..n], b');
      TotalOfRemove(b, j);
    }
  }

  lemma {:induction false} TotalOfRemove(b: seq<ConstructionStats>, j: nat)
    requires j < |b|
    ensures TotalOf(b) == TotalOf(b[..j] + b[j + 1..]) + b[j].totalActivities
    decreases |b|
  {
    var n := |b| - 1;
    if j < n {
      var p := b[..n];
      TotalOfRemove(p, j);
      assert p[..j] + p[j + 1..] == (b[..j] + b[j + 1..])[..n - 1];
      assert b[..j] + b[j + 1..] == p[..j] + p[j + 1..] + [b[n]];
    } else {
      assert b[..j] + b[j + 1..] == b[..n];
    }
  }

  datatype Summary = Summary(totalConstructions: nat, totalActivities: nat)

  datatype ScoreData = ScoreData(scores: seq<ConstructionStats>, summary: Summary)

  /** `sort((a, b) => b.total_activities - a.total_activities)`: a stable
      sort, highest total first. */
  function Ranked(groups: seq<ConstructionStats>): (r: seq<ConstructionStats>)
    ensures multiset(r) == multiset(groups)
    ensures forall i, j :: 0 <= i < j < |r| ==> r[i].totalActivities >= r[j].totalActivities
  {
    var s := SortBy(groups, NegTotal);
    assert forall i, j :: 0 <= i < j < |s| ==> NegTotal(s[i]) <= NegTotal(s[j]);
    s
  }

  const ScoreReadFailed: string := "점수 통계를 조회하는데 실패했습니다."

  /** The message the catch block reports for a failed query: `error` is
      the error's message when the thrown value is an `Error`, and `None`
      when it is not. */
  function FailureMessage(error: Option<string>): string {
    match error
    case Some(message) => message
    case None => ScoreReadFailed
  }

  /** `getConstructionScoreStats` over what its two queries returned, each
      `Err` when the query failed. A failed plans query is reported; with no
      plan the answer is empty and the details are not read; a failed
      details query is reported; otherwise the answer is the groups ranked
      by total activity, with their count and the sum of their totals. */
  method ScoreStats(plans: Result<seq<Plan>, Option<string>>, details: Result<seq<Detail>, Option<string>>)
    returns (r: Result<ScoreData, string>)
    ensures plans.Err? ==> r == Err(FailureMessage(plans.error))
    ensures plans == Ok([]) ==> r == Ok(ScoreData([], Summary(0, 0)))
    ensures plans.Ok? && plans.value != [] && details.Err? ==> r == Err(FailureMessage(details.error))
    ensures r.Ok? <==> plans.Ok? && (plans.value == [] || details.Ok?)
    ensures plans.Ok? && plans.value != [] && details.Ok? ==>
      r.Ok? && r.value.scores == Ranked(Groups(ItemScores(Matched(plans.value, details.value))))
    ensures r.Ok? ==> r.value.summary == Summary(|r.value.scores|, TotalOf(r.value.scores))
  {
    if plans.Err? {
      return Err(FailureMessage(plans.error));
    }
    if plans.value == [] {
      return Ok(ScoreData([], Summary(0, 0)));
    }
    if details.Err? {
      return Err(FailureMessage(details.error));
    }
    var keys, entries := GroupDetails(plans.value, details.value);
    var items := ScoreAll(entries);
    var order, groups := GroupByConstruction(items);
    var scores := Ranked(groups);
    r := Ok(ScoreData(scores, Summary(|scores|, TotalOf(scores))));
  }

  /** Ranking keeps the total: the summary's activity count is the sum over
      the unranked groups, one group per distinct construction. */
  lemma RankingKeepsTotal(items: seq<ItemScore>)
    ensures TotalOf(Ranked(Groups(items))) == TotalOf(Groups(items))
    ensures |Ranked(Groups(items))| == |Unique(Cids(items))|
  {
    TotalOfPermutation(Ranked(Groups(items)), Groups(items));
    PermutationFacts(Ranked(Groups(items)), Groups(items));
  }

  /** Plans without any matching detail give no scores, like having no plan. */
  lemma NoMatchedDetailsNoScores(plans: seq<Plan>, details: seq<Detail>)
    requires Matched(plans, details) == []
    ensures Groups(ItemScores(Matched(plans, details))) == []
  {
    assert Keys([]) == [];
    assert Unique(Keys([])) == [];
    assert Cids(ItemScores([])) == [];
  }
}
