/**
 * The sidebar: the menu tree, the set of expanded groups, the highlighted
 * entry and the admin-only group.
 */
module Sidebar {
  import opened Wrappers

  /** A menu entry: a group has children and no path. */
  datatype MenuItem = MenuItem(id: string, path: Option<string>, children: seq<MenuItem>)

  function Leaf(id: string, path: string): MenuItem { MenuItem(id, Some(path), []) }

  const Performance: MenuItem := MenuItem("performance", None, [
    Leaf("weekly-plan", "/performance/weekly-plan"),
    Leaf("daily-plan", "/performance/daily-plan"),
    Leaf("sales-activity", "/performance/sales-activity"),
    Leaf("invoice", "/performance/invoice"),
    Leaf("collection", "/performance/collection")])

  const Analytics: MenuItem := MenuItem("analytics", None, [
    Leaf("activity-status", "/analytics/activity-status"),
    Leaf("monthly-sales", "/analytics/monthly-sales"),
    Leaf("order-achievement", "/analytics/order-achievement"),
    Leaf("cost-efficiency", "/analytics/cost-efficiency"),
    Leaf("collection-status", "/analytics/collection-status")])

  const Admin: MenuItem := MenuItem("admin", None, [
    Leaf("over-investment", "/admin/over-investment"),
    Leaf("confirmed-collection", "/admin/confirmed-collection"),
    Leaf("outstanding-balance", "/admin/outstanding-balance")])

  /** `menuItems`. */
  const Menu: seq<MenuItem> := [Leaf("dashboard", "/"), Performance, Analytics, Admin]

  /** The groups open when the sidebar mounts. */
  const InitialExpanded: seq<string> := ["performance", "analytics"]

  // ---------------------------------------------------------------------
  // Expanded groups

  /** `prev.filter(id => id !== itemId)`. */
  function Without(prev: seq<string>, itemId: string): (r: seq<string>)
    ensures forall x :: x in r <==> x in prev && x != itemId
    ensures |r| <= |prev|
    decreases |prev|
  {
    if prev == [] then []
    else
      var front := Without(prev[..|prev| - 1], itemId);
      var x := prev[|prev| - 1];
      assert prev == prev[..|prev| - 1] + [x];
      if x != itemId then front + [x] else front
  }

  /** `toggleExpanded`: an expanded group closes, a closed one opens at
      the end; the other groups keep their state. */
  function ToggleExpanded(prev: seq<string>, itemId: string): (r: seq<string>)
    ensures itemId in r <==> itemId !in prev
    ensures forall x :: x != itemId ==> (x in r <==> x in prev)
    ensures itemId !in prev ==> r == prev + [itemId]
  {
    if itemId in prev then Without(prev, itemId) else prev + [itemId]
  }

  /** Toggling a group twice restores which groups are expanded; when it
      was closed, it restores the list itself. */
  lemma ToggleTwice(prev: seq<string>, itemId: string)
    ensures forall x :: x in ToggleExpanded(ToggleExpanded(prev, itemId), itemId) <==> x in prev
    ensures itemId !in prev ==> ToggleExpanded(ToggleExpanded(prev, itemId), itemId) == prev
  {
    if itemId !in prev {
      WithoutAbsent(prev, itemId);
      WithoutLast(prev, itemId);
    }
  }

  /** Filtering out an absent id keeps the list. */
  lemma {:induction false} WithoutAbsent(prev: seq<string>, itemId: string)
    requires itemId !in prev
    ensures Without(prev, itemId) == prev
    decreases |prev|
  {
    if prev != [] {
      WithoutAbsent(prev[..|prev| - 1], itemId);
      assert prev[..|prev| - 1] + [prev[|prev| - 1]] == prev;
    }
  }

  lemma WithoutLast(prev: seq<string>, itemId: string)
    ensures Without(prev + [itemId], itemId) == Without(prev, itemId)
  {
    assert (prev + [itemId])[..|prev|] == prev;
  }

  /** The sidebar opens with exactly the performance and analytics groups. */
  lemma InitialGroups()
    ensures forall x :: x in InitialExpanded <==> x == "performance" || x == "analytics"
    ensures Performance.id in InitialExpanded && Analytics.id in InitialExpanded && Admin.id !in InitialExpanded
  {
  }

  // ---------------------------------------------------------------------
  // Highlight and role filter

  /** `isActive`: no path is never active; otherwise the path must be the
      current one. */
  function IsActive(path: Option<string>, currentPath: string): (a: bool)
    ensures a <==> path.Some? && path.value != "" && path.value == currentPath
  {
    if path.None? || path.value == "" then false else currentPath == path.value
  }

  /** What a click does: a group toggles, an entry with a path navigates. */
  datatype Click = Toggle(groupId: string) | Navigate(path: string) | Nothing

  function ClickOn(item: MenuItem): (c: Click)
    ensures item.children != [] ==> c == Toggle(item.id)
    ensures item.children == [] && item.path.Some? && item.path.value != "" ==> c == Navigate(item.path.value)
  {
    if item.children != [] then Toggle(item.id)
    else if item.path.Some? && item.path.value != "" then Navigate(item.path.value)
    else Nothing
  }

  /** After navigating from an entry that entry is highlighted, and a
      group, having no path, never is. */
  lemma NavigationHighlights(item: MenuItem, currentPath: string)
    ensures ClickOn(item) == Navigate(currentPath) ==> IsActive(item.path, currentPath)
    ensures item.path.None? ==> !IsActive(item.path, currentPath)
  {
  }

  /** `menuItems.filter(item => item.id !== 'admin' || userRole === 'admin')`. */
  function RoleFilter(items: seq<MenuItem>, userRole: Option<string>): seq<MenuItem>
    decreases |items|
  {
    if items == [] then []
    else
      var front := RoleFilter(items[..|items| - 1], userRole);
      var x := items[|items| - 1];
      if x.id != "admin" || userRole == Some("admin") then front + [x] else front
  }

  /** A list without the admin group passes the filter unchanged. */
  lemma {:induction false} RoleFilterKeepsOthers(items: seq<MenuItem>, userRole: Option<string>)
    requires forall i :: 0 <= i < |items| ==> items[i].id != "admin"
    ensures RoleFilter(items, userRole) == items
    decreases |items|
  {
    if items != [] {
      var front := items[..|items| - 1];
      RoleFilterKeepsOthers(front, userRole);
      assert items == front + [items[|items| - 1]];
    }
  }

  /** A menu whose last entry, and only that one, is the admin group. */
  predicate AdminLast(menu: seq<MenuItem>) {
    && |menu| > 0 && menu[|menu| - 1].id == "admin"
    && forall i :: 0 <= i < |menu| - 1 ==> menu[i].id != "admin"
  }

  /** On such a menu the filter keeps everything for an admin and drops
      just the admin group for anyone else. */
  lemma RoleFilterAdminLast(menu: seq<MenuItem>, userRole: Option<string>)
    requires AdminLast(menu)
    ensures userRole == Some("admin") ==> RoleFilter(menu, userRole) == menu
    ensures userRole != Some("admin") ==> RoleFilter(menu, userRole) == menu[..|menu| - 1]
  {
    var others, last := menu[..|menu| - 1], menu[|menu| - 1];
    assert forall i :: 0 <= i < |others| ==> others[i] == menu[i];
    RoleFilterKeepsOthers(others, userRole);
    assert RoleFilter(menu, userRole) == if last.id != "admin" || userRole == Some("admin") then others + [last] else others;
    assert menu == others + [last];
  }

  lemma MenuAdminLast()
    ensures AdminLast(Menu) && Menu[|Menu| - 1] == Admin && Admin !in Menu[..3]
  {
  }

  /** The top-level entries shown: the whole menu for an admin, the menu
      without its admin group for anyone else. */
  lemma VisibleMenu(userRole: Option<string>)
    ensures userRole == Some("admin") ==> RoleFilter(Menu, userRole) == Menu
    ensures userRole != Some("admin") ==> RoleFilter(Menu, userRole) == Menu[..3]
    ensures Admin in RoleFilter(Menu, userRole) <==> userRole == Some("admin")
  {
    MenuAdminLast();
    RoleFilterAdminLast(Menu, userRole);
  }
}
