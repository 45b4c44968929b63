/**
 * The side navigation: the thirteen entries, which of them is highlighted
 * for the router's current pathname, and the collapse toggle.
 */
module Sidebar {
  import opened Strings
  import opened Lists

  datatype NavItem = NavItem(name: string, href: string)

  function NavItems(): seq<NavItem>
  {
    [NavItem("Dashboard", "/"), NavItem("Assets", "/assets"), NavItem("Users", "/users"),
     NavItem("Components", "/components"), NavItem("Accessories", "/accessories"),
     NavItem("Licenses", "/licenses"), NavItem("BitLocker", "/bitlocker"), NavItem("Network", "/network"),
     NavItem("Zabbix VMs", "/zabbix"), NavItem("VM Inventory", "/vm-inventory"), NavItem("Reports", "/reports"),
     NavItem("Activity", "/activity"), NavItem("Settings", "/settings")]
  }

  /** `isActive(path)`: the pathname is the entry's path, or lies below it after a "/". */
  predicate IsActive(pathname: string, path: string)
  {
    pathname == path || StartsWith(pathname, path + "/")
  }

  /**
   * The dashboard entry is highlighted on "/" and, because "/" + "/" is
   * "//", on any pathname starting with "//"; on no other pathname.
   */
  lemma RootActive(pathname: string)
    ensures IsActive(pathname, "/") <==> pathname == "/" || StartsWith(pathname, "//")
    ensures IsActive("//x", "/")
  {
    assert "/" + "/" == "//";
    assert ("//x")[..2] == "//";
  }

  /** An entry needs the separator: "/assets" is not highlighted on "/assetsx", but is on "/assets/new". */
  lemma SeparatorRequired()
    ensures !IsActive("/assetsx", "/assets")
    ensures IsActive("/assets/new", "/assets")
    ensures IsActive("/assets", "/assets")
  {
    assert ("/assetsx")[..8] != "/assets/" by {
      assert ("/assetsx")[7] == 'x';
    }
    assert ("/assets/new")[..8] == "/assets/";
  }

  /** Two active paths are equal or one lies below the other after a "/". */
  lemma ActiveNested(pathname: string, a: string, b: string)
    requires IsActive(pathname, a) && IsActive(pathname, b) && |a| <= |b|
    ensures a == b || StartsWith(b, a + "/")
  {
    var p := pathname + "/";
    assert StartsWith(p, a + "/") && StartsWith(p, b + "/") by {
      if pathname != a {
        assert p[..|a| + 1] == pathname[..|a| + 1];
      }
      if pathname != b {
        assert p[..|b| + 1] == pathname[..|b| + 1];
      }
    }
    if a != b {
      assert a == p[..|a|] && b == p[..|b|];
      assert (b + "/")[..|a| + 1] == p[..|a| + 1] == a + "/";
      assert b[..|a| + 1] == a + "/";
    }
  }

  /** A top-level path: "/" followed by a segment without a further "/". */
  predicate TopLevel(path: string)
  {
    |path| >= 1 && path[0] == '/' && '/' !in path[1..]
  }

  /** A path below a non-empty one has a "/" after its first character. */
  lemma SlashBelow(a: string, b: string)
    ensures |a| >= 1 && StartsWith(b, a + "/") ==> '/' in b[1..]
  {
    if |a| >= 1 && StartsWith(b, a + "/") {
      assert b[1..][|a| - 1] == (a + "/")[|a|];
    }
  }

  /** No top-level path lies below another. */
  lemma TopLevelNotNested(a: string, b: string)
    requires TopLevel(a) && TopLevel(b)
    ensures !StartsWith(b, a + "/")
  {
    SlashBelow(a, b);
  }

  function Hrefs(): (hs: seq<string>)
    ensures |hs| == |NavItems()|
    ensures forall k | 0 <= k < |hs| :: hs[k] == NavItems()[k].href
  {
    seq(|NavItems()|, k requires 0 <= k < |NavItems()| => NavItems()[k].href)
  }

  /** The entries' paths, in the order of the list. */
  const Paths: seq<string> := ["/", "/assets", "/users", "/components", "/accessories", "/licenses", "/bitlocker",
    "/network", "/zabbix", "/vm-inventory", "/reports", "/activity", "/settings"]

  lemma HrefsArePaths()
    ensures Hrefs() == Paths
  {
  }

  lemma HrefsTopLevel()
    ensures forall k | 0 <= k < |Hrefs()| :: TopLevel(Hrefs()[k])
  {
    HrefsArePaths();
    forall k | 0 <= k < |Paths|
      ensures TopLevel(Paths[k])
    {
      var seg := Paths[k][1..];
      assert forall i | 0 <= i < |seg| :: seg[i] != '/';
    }
  }

  lemma HrefsDistinct()
    ensures Distinct(Hrefs())
  {
    var hs := Hrefs();
    assert hs == ["/", "/assets", "/users", "/components", "/accessories", "/licenses", "/bitlocker",
      "/network", "/zabbix", "/vm-inventory", "/reports", "/activity", "/settings"];
  }

  /** For any pathname at most one entry is highlighted. */
  lemma AtMostOneActive(pathname: string)
    ensures forall i, j | 0 <= i < j < |NavItems()| ::
      !(IsActive(pathname, NavItems()[i].href) && IsActive(pathname, NavItems()[j].href))
  {
    HrefsTopLevel();
    HrefsDistinct();
    var hs := Hrefs();
    forall i, j | 0 <= i < j < |hs|
      ensures !(IsActive(pathname, hs[i]) && IsActive(pathname, hs[j]))
    {
      if IsActive(pathname, hs[i]) && IsActive(pathname, hs[j]) {
        if |hs[i]| <= |hs[j]| {
          ActiveNested(pathname, hs[i], hs[j]);
          TopLevelNotNested(hs[i], hs[j]);
        } else {
          ActiveNested(pathname, hs[j], hs[i]);
          TopLevelNotNested(hs[j], hs[i]);
        }
      }
    }
  }

  /** The highlighted entries for a pathname: none or one. */
  function ActiveItems(pathname: string): (r: seq<NavItem>)
    ensures |r| <= 1
    ensures forall k | 0 <= k < |NavItems()| :: IsActive(pathname, NavItems()[k].href) ==> NavItems()[k] in r
    ensures forall item | item in r :: item in NavItems() && IsActive(pathname, item.href)
  {
    AtMostOneActive(pathname);
    var items := NavItems();
    var active := (item: NavItem) => IsActive(pathname, item.href);
    AtMostOnePasses(items, active);
    Filter(items, active)
  }

  /** A filter keeps at most one element when no two elements pass. */
  lemma {:induction false} AtMostOnePasses<T>(s: seq<T>, p: T -> bool)
    requires forall i, j | 0 <= i < j < |s| :: !(p(s[i]) && p(s[j]))
    ensures |Filter(s, p)| <= 1
  {
    if |s| > 0 {
      var init := s[..|s| - 1];
      AtMostOnePasses(init, p);
      if p(s[|s| - 1]) {
        FilterNone(init, p);
      }
    }
  }

  class Panel {
    var isSidebarCollapsed: bool

    constructor()
      ensures !isSidebarCollapsed
    {
      isSidebarCollapsed := false;
    }

    /** The collapse button: the flag flips, and it is the panel's only state. */
    method ToggleCollapse()
      modifies this
      ensures isSidebarCollapsed == !old(isSidebarCollapsed)
    {
      isSidebarCollapsed := !isSidebarCollapsed;
    }
  }
}
