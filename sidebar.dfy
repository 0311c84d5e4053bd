/** The dashboard's navigation sidebar: the menu, which entry is highlighted, and the collapse toggle. */
module Sidebar {
  import opened Text

  datatype MenuItem = MenuItem(caption: string, href: string)

  const Root := "/dashboard"

  /** `menuItems`, in display order. */
  const MenuItems: seq<MenuItem> := [
    MenuItem("Overview", Root),
    MenuItem("Booking Management", "/dashboard/booking-management"),
    MenuItem("User Management", "/dashboard/user-management"),
    MenuItem("Reports", "/dashboard/report"),
    MenuItem("Create Admin", "/dashboard/create-admin"),
    MenuItem("Settings", "/dashboard/settings")]

  /**
   * `pathname === item.href || (item.href !== '/dashboard' && pathname.startsWith(item.href))`:
   * the root entry needs an exact match, every other entry a raw string prefix.
   */
  predicate IsActive(pathname: string, href: string) {
    pathname == href || (href != Root && StartsWith(pathname, href))
  }

  /** The Overview entry is highlighted only on `/dashboard` itself. */
  lemma OverviewOnlyOnRoot(pathname: string)
    ensures IsActive(pathname, Root) <==> pathname == Root
  {
  }

  /** Any other entry is highlighted on its own page and on every path that extends it. */
  lemma SubpagesActivateEntry(href: string, rest: string)
    requires href != Root
    ensures IsActive(href + rest, href)
  {
    assert (href + rest)[..|href|] == href;
  }

  /** The prefix is a string prefix, not a path prefix: `/dashboard/reports` lights up Reports. */
  lemma RawPrefixMatch()
    ensures IsActive("/dashboard/reports", MenuItems[3].href)
  {
    SubpagesActivateEntry("/dashboard/report", "s");
    assert "/dashboard/report" + "s" == "/dashboard/reports";
  }

  /** The indices of the highlighted entries for a pathname. */
  function ActiveEntries(pathname: string): set<nat> {
    set i: nat | i < |MenuItems| && IsActive(pathname, MenuItems[i].href)
  }

  lemma {:induction false} NotPrefixOf(a: string, b: string, k: nat)
    requires k < |a| && k < |b| && a[k] != b[k]
    ensures !StartsWith(b, a) && !StartsWith(a, b)
  {
    if |a| <= |b| {
      assert b[..|a|][k] != a[k];
    }
    if |b| <= |a| {
      assert a[..|b|][k] != b[k];
    }
  }

  /** On each menu page exactly that entry is highlighted. */
  lemma OnMenuPageExactlyThatEntry(j: nat)
    requires j < |MenuItems|
    ensures ActiveEntries(MenuItems[j].href) == {j}
  {
    var hrefs := seq(|MenuItems|, i requires 0 <= i < |MenuItems| => MenuItems[i].href);
    // every pair of distinct sub-page entries differs at a position inside both
    assert hrefs[1][11] == 'b' && hrefs[2][11] == 'u' && hrefs[3][11] == 'r' && hrefs[4][11] == 'c' && hrefs[5][11] == 's';
    forall i | 0 <= i < |MenuItems| && i != j
      ensures !IsActive(MenuItems[j].href, MenuItems[i].href)
    {
      if i == 0 {
      } else if j == 0 {
        assert |MenuItems[j].href| < |MenuItems[i].href|;
      } else {
        NotPrefixOf(MenuItems[i].href, MenuItems[j].href, 11);
      }
    }
    assert IsActive(MenuItems[j].href, MenuItems[j].href);
  }

  /** The sidebar's one piece of state. */
  class SidebarState {
    var isCollapsed: bool

    constructor ()
      ensures !isCollapsed
    {
      isCollapsed := false;
    }

    /** The header button: `setIsCollapsed(!isCollapsed)`; two clicks restore the original value. */
    method Toggle()
      modifies this
      ensures isCollapsed == !old(isCollapsed)
    {
      isCollapsed := !isCollapsed;
    }

    /** The width class of the panel. */
    function WidthClass(): (width: string)
      reads this
      ensures width == "w-16" <==> isCollapsed
      ensures width == "w-64" <==> !isCollapsed
    {
      if isCollapsed then "w-16" else "w-64"
    }

    /** The title and the entry captions are rendered only when expanded. */
    function ShowsLabels(): (shown: bool)
      reads this
      ensures shown <==> WidthClass() == "w-64"
    {
      !isCollapsed
    }
  }
}
