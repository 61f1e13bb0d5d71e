/**
 * The weekly plan table's pagination bar and activity badges: the page
 * numbers shown (the first, the last and the current page's neighbours
 * within two), the "..." placed before a page that does not follow its
 * predecessor, the "shown from-to" caption and the badge list.
 */
module WeeklyPlanTable {
  import opened Wrappers
  import opened RecordRules

  // ---------------------------------------------------------------------
  // The page window

  /** The filter over `1..totalPages`. */
  predicate Visible(p: int, page: int, totalPages: int) {
    p == 1 || p == totalPages || (page - 2 <= p && p <= page + 2)
  }

  predicate Increasing(ps: seq<int>) {
    forall i, j :: 0 <= i < j < |ps| ==> ps[i] < ps[j]
  }

  /** The visible pages among `1..n`, in ascending order. */
  function PagesUpTo(n: int, page: int, totalPages: int): (ps: seq<int>)
    ensures forall p :: p in ps <==> 1 <= p <= n && Visible(p, page, totalPages)
    ensures Increasing(ps)
    decreases n
  {
    if n <= 0 then []
    else
      var front := PagesUpTo(n - 1, page, totalPages);
      if Visible(n, page, totalPages) then
        assert forall i :: 0 <= i < |front| ==> front[i] in front;
        front + [n]
      else front
  }

  /** `Array.from({length: totalPages}, (_, i) => i + 1).filter(...)`. */
  function VisiblePages(page: int, totalPages: int): (ps: seq<int>)
    ensures forall p :: p in ps <==> 1 <= p <= totalPages && Visible(p, page, totalPages)
    ensures Increasing(ps)
  {
    PagesUpTo(totalPages, page, totalPages)
  }

  /** One fragment of the `.map`: an optional "..." and the page's button,
      highlighted for the current page. */
  datatype Fragment = Fragment(ellipsis: bool, page: int, current: bool)

  /** The fragment for index `i`: "..." when the previous visible page is
      not `page - 1`. */
  function FragmentAt(pages: seq<int>, i: nat, current: int): (f: Fragment)
    requires i < |pages|
    ensures f.page == pages[i] && (f.current <==> pages[i] == current)
  {
    Fragment(i > 0 && pages[i - 1] != pages[i] - 1, pages[i], pages[i] == current)
  }

  function Fragments(pages: seq<int>, current: int): (fs: seq<Fragment>)
    ensures |fs| == |pages|
    ensures forall i :: 0 <= i < |fs| ==> fs[i] == FragmentAt(pages, i, current)
  {
    seq(|pages|, i requires 0 <= i < |pages| => FragmentAt(pages, i, current))
  }

  /** No visible page lies strictly between two neighbours of an ascending list. */
  lemma NoneBetween(pages: seq<int>, i: nat, v: int)
    requires Increasing(pages) && i + 1 < |pages| && pages[i] < v < pages[i + 1]
    ensures v !in pages
  {
    forall j | 0 <= j < |pages| ensures pages[j] != v {
      if j <= i {
        assert j == i || pages[j] < pages[i];
      } else {
        assert j == i + 1 || pages[i + 1] < pages[j];
      }
    }
  }

  /** The first visible page is page 1. */
  lemma FirstIsOne(page: int, totalPages: int)
    requires totalPages >= 1
    ensures |VisiblePages(page, totalPages)| > 0 && VisiblePages(page, totalPages)[0] == 1
  {
    var ps := VisiblePages(page, totalPages);
    assert 1 in ps;
    var k :| 0 <= k < |ps| && ps[k] == 1;
    assert ps[0] in ps;
    assert ps[0] <= ps[k];
  }

  /** A gap in the window can only follow page 1 or precede the last page:
      two consecutive visible pages that are not adjacent numbers are
      1 and `page - 2`, or `page + 2` and `totalPages`. */
  lemma GapShape(page: int, totalPages: int, i: nat)
    requires 1 <= page <= totalPages
    requires var ps := VisiblePages(page, totalPages); i + 1 < |ps| && ps[i + 1] != ps[i] + 1
    ensures var ps := VisiblePages(page, totalPages);
      (ps[i] == 1 && ps[i + 1] == page - 2) || (ps[i] == page + 2 && ps[i + 1] == totalPages)
  {
    var ps := VisiblePages(page, totalPages);
    var a, b := ps[i], ps[i + 1];
    assert a in ps && b in ps;
    NoneBetween(ps, i, a + 1);
    NoneBetween(ps, i, b - 1);
    if a < page - 2 < b {
      NoneBetween(ps, i, page - 2);
    }
    if a < page + 2 < b {
      NoneBetween(ps, i, page + 2);
    }
  }

  /** The "..." appears exactly before `page - 2` when that page is beyond 3,
      and before the last page when it is beyond `page + 3`. */
  lemma EllipsisPlaces(page: int, totalPages: int, i: nat)
    requires 1 <= page <= totalPages && i < |VisiblePages(page, totalPages)|
    ensures var ps := VisiblePages(page, totalPages);
      Fragments(ps, page)[i].ellipsis <==>
        (ps[i] == page - 2 && page - 2 > 2) || (ps[i] == totalPages && totalPages > page + 3)
  {
    var ps := VisiblePages(page, totalPages);
    FirstIsOne(page, totalPages);
    if i > 0 {
      assert ps[i - 1] < ps[i];
      if ps[i] != ps[i - 1] + 1 {
        GapShape(page, totalPages, i - 1);
      }
      assert ps[i - 1] in ps && ps[i] in ps;
      if ps[i - 1] < ps[i] - 1 {
        NoneBetween(ps, i - 1, ps[i] - 1);
      }
    }
  }

  // ---------------------------------------------------------------------
  // The caption and the buttons

  /** The bar is rendered only when there is more than one page. */
  predicate ShowsControls(p: Pagination) { p.totalPages > 1 }

  /** The caption's first and last item numbers. */
  function DisplayedRange(p: Pagination): (r: (int, int))
    ensures r.0 == (p.page - 1) * p.limit + 1
    ensures r.1 <= p.page * p.limit && r.1 <= p.total
    ensures r.1 == p.page * p.limit || r.1 == p.total
  {
    ((p.page - 1) * p.limit + 1, if p.page * p.limit < p.total then p.page * p.limit else p.total)
  }

  /** On a page of the list the caption is a non-empty range of items
      ending no later than the last item, and it covers a whole page
      except on the last one. */
  lemma DisplayedRangeOnPage(count: Option<nat>, page: int, limit: Option<int>)
    requires GetOr(limit, 20) > 0
    requires var p := PaginationOf(count, Some(page), limit); 1 <= page <= p.totalPages
    ensures var p := PaginationOf(count, Some(page), limit); var r := DisplayedRange(p);
      && 1 <= r.0 <= r.1 <= p.total
      && (page < p.totalPages ==> r.1 - r.0 + 1 == p.limit)
  {
    var p := PaginationOf(count, Some(page), limit);
    RangeOnPage(p);
  }

  /** The arithmetic of the lemma above, for any pagination whose page
      count covers its total. */
  lemma RangeOnPage(p: Pagination)
    requires p.limit > 0 && 1 <= p.page <= p.totalPages
    requires p.totalPages * p.limit >= p.total && (p.totalPages - 1) * p.limit < p.total
    ensures var r := DisplayedRange(p);
      && 1 <= r.0 <= r.1 <= p.total
      && (p.page < p.totalPages ==> r.1 - r.0 + 1 == p.limit)
  {
    var l := p.limit;
    MulMonotone(0, p.page - 1, l);
    MulMonotone(p.page - 1, p.totalPages - 1, l);
    assert p.page * l == (p.page - 1) * l + l;
    if p.page < p.totalPages {
      MulMonotone(p.page, p.totalPages - 1, l);
    }
  }

  lemma MulMonotone(a: int, b: int, c: int)
    requires a <= b && c >= 0
    ensures a * c <= b * c
  {
  }

  /** "Previous" is disabled on page 1 and "next" on the last page. */
  datatype NavButtons = NavButtons(previousDisabled: bool, nextDisabled: bool)

  function Navigation(p: Pagination): (n: NavButtons)
    ensures n.previousDisabled <==> p.page == 1
    ensures n.nextDisabled <==> p.page == p.totalPages
  {
    NavButtons(p.page == 1, p.page == p.totalPages)
  }

  /** Between the first and the last page both buttons lead to a page of
      the list. */
  lemma NavigationStaysInRange(p: Pagination)
    requires 1 <= p.page <= p.totalPages
    ensures !Navigation(p).previousDisabled ==> 1 <= p.page - 1
    ensures !Navigation(p).nextDisabled ==> p.page + 1 <= p.totalPages
  {
  }

  // ---------------------------------------------------------------------
  // Badges

  const ConstructionSales := "건설사 영업"
  const SiteAdditionalSales := "현장 추가 영업"
  const SiteSupport := "현장 지원"

  /** The badges in their fixed order. */
  const AllBadges: seq<string> := [ConstructionSales, SiteAdditionalSales, SiteSupport]

  function Rank(b: string): int {
    if b == ConstructionSales then 0 else if b == SiteAdditionalSales then 1 else 2
  }

  predicate InBadgeOrder(bs: seq<string>) {
    forall i, j :: 0 <= i < j < |bs| ==> Rank(bs[i]) < Rank(bs[j])
  }

  /** `getActivityBadges`: one badge per set flag, in the fixed order. */
  function ActivityBadges(construction: bool, additional: bool, support: bool): (bs: seq<string>)
    ensures ConstructionSales in bs <==> construction
    ensures SiteAdditionalSales in bs <==> additional
    ensures SiteSupport in bs <==> support
    ensures forall b :: b in bs ==> b in AllBadges
    ensures |bs| == (if construction then 1 else 0) + (if additional then 1 else 0) + (if support then 1 else 0)
    ensures InBadgeOrder(bs)
  {
    var a := if construction then [ConstructionSales] else [];
    var b := a + if additional then [SiteAdditionalSales] else [];
    b + if support then [SiteSupport] else []
  }
}
