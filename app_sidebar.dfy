/** The application sidebar: the five menu entries, the rule that marks one
    as active for the current path, and the two footer entries, which carry
    no active marker. */
module AppSidebar {
  datatype MenuItem = MenuItem(href: string, name: string)

  const MenuItems: seq<MenuItem> := [
    MenuItem("/dashboard", "Dashboard"),
    MenuItem("/incidents", "Incidents"),
    MenuItem("/safety-zones", "Safety Zones"),
    MenuItem("/digital-id", "Digital ID"),
    MenuItem("/settings", "Profile & Settings")
  ]

  const FooterItems: seq<MenuItem> := [
    MenuItem("/admin", "Admin"),
    MenuItem("/login", "Logout")
  ]

  const DashboardHref: string := "/dashboard"

  /** `isActive` of a menu entry; `href <= pathname` is
      `pathname.startsWith(href)`. */
  predicate IsActive(pathname: string, href: string) {
    pathname == href || (href != DashboardHref && href <= pathname)
  }

  /** An entry as the sidebar renders it. */
  datatype Rendered = Rendered(href: string, name: string, active: bool)

  function RenderMenu(pathname: string, items: seq<MenuItem>): (r: seq<Rendered>)
    ensures |r| == |items|
    ensures forall k :: 0 <= k < |r| ==>
              r[k] == Rendered(items[k].href, items[k].name, IsActive(pathname, items[k].href))
  {
    if items == [] then []
    else [Rendered(items[0].href, items[0].name, IsActive(pathname, items[0].href))]
         + RenderMenu(pathname, items[1..])
  }

  function RenderFooter(items: seq<MenuItem>): (r: seq<Rendered>)
    ensures |r| == |items|
    ensures forall k :: 0 <= k < |r| ==> r[k] == Rendered(items[k].href, items[k].name, false)
  {
    if items == [] then [] else [Rendered(items[0].href, items[0].name, false)] + RenderFooter(items[1..])
  }

  /** Every entry of the sidebar for `pathname`: the menu, then the footer. */
  function Sidebar(pathname: string): seq<Rendered> {
    RenderMenu(pathname, MenuItems) + RenderFooter(FooterItems)
  }

  /** The footer's Admin and Logout entries are never marked active, even on
      their own pages. */
  lemma FooterNeverActive(pathname: string)
    ensures |Sidebar(pathname)| == |MenuItems| + |FooterItems|
    ensures forall k :: |MenuItems| <= k < |Sidebar(pathname)| ==> !Sidebar(pathname)[k].active
  {
    var menu := RenderMenu(pathname, MenuItems);
    var footer := RenderFooter(FooterItems);
    forall k | |MenuItems| <= k < |Sidebar(pathname)| ensures !Sidebar(pathname)[k].active {
      assert Sidebar(pathname)[k] == footer[k - |menu|];
    }
  }

  /** An entry is active on its own page. */
  lemma ExactMatchActive(href: string)
    ensures IsActive(href, href)
  {
  }

  /** The dashboard entry is active on `/dashboard` and nowhere else. */
  lemma DashboardOnlyExact(pathname: string)
    ensures IsActive(pathname, DashboardHref) <==> pathname == DashboardHref
  {
  }

  /** Any other entry is active on every path that starts with its href. */
  lemma OthersByPrefix(pathname: string, href: string)
    requires href != DashboardHref
    ensures IsActive(pathname, href) <==> href <= pathname
  {
  }

  /** The report form's path marks Incidents, and only Incidents. */
  lemma NewIncidentMarksIncidents()
    ensures IsActive("/incidents/new", "/incidents")
    ensures forall k :: 0 <= k < |MenuItems| && MenuItems[k].href != "/incidents" ==>
              !IsActive("/incidents/new", MenuItems[k].href)
  {
    assert "/incidents" <= "/incidents/new";
    forall k | 0 <= k < |MenuItems| && MenuItems[k].href != "/incidents"
      ensures !IsActive("/incidents/new", MenuItems[k].href)
    {
      PrefixAt(MenuItems[k].href, "/incidents/new", 1);
      assert MenuItems[k].href[1] != 'i';
    }
  }

  /** Two prefixes of one path, the shorter is a prefix of the longer. */
  lemma PrefixesNest(a: string, b: string, p: string)
    requires a <= p && b <= p && |a| <= |b|
    ensures a <= b
  {
    assert a == p[..|a|] && b == p[..|b|];
    assert b[..|a|] == p[..|a|];
  }

  /** No menu href is a prefix of another, so at most one entry is active on
      any path. */
  lemma AtMostOneActive(pathname: string, i: nat, j: nat)
    requires i < |MenuItems| && j < |MenuItems| && i != j
    ensures !(IsActive(pathname, MenuItems[i].href) && IsActive(pathname, MenuItems[j].href))
  {
    var a := MenuItems[i].href;
    var b := MenuItems[j].href;
    NoMenuPrefix(i, j);
    NoMenuPrefix(j, i);
    if IsActive(pathname, a) && IsActive(pathname, b) {
      assert a <= pathname && b <= pathname;
      if |a| <= |b| {
        PrefixesNest(a, b, pathname);
      } else {
        PrefixesNest(b, a, pathname);
      }
    }
  }

  lemma NoMenuPrefix(i: nat, j: nat)
    requires i < |MenuItems| && j < |MenuItems| && i != j
    ensures !(MenuItems[i].href <= MenuItems[j].href)
  {
    var a := MenuItems[i].href;
    var b := MenuItems[j].href;
    PrefixAt(a, b, 1);
    PrefixAt(a, b, 2);
    assert a[1] != b[1] || a[2] != b[2];
  }

  /** A prefix agrees with the whole at each of its positions. */
  lemma PrefixAt(a: string, p: string, n: nat)
    ensures a <= p && n < |a| ==> a[n] == p[n]
  {
  }
}
