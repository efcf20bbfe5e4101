/**
 The navigation sidebar: which main-menu entry is highlighted for the current
 location. The root entry wants an exact match; every other entry is a
 plain prefix test, so `/customers/7` and even `/customersX` highlight
 "Customers".
 */
module Sidebar {
  import opened Common
  import Text

  datatype MenuItem = MenuItem(title: string, url: string)

  /** A rendered entry; utility entries carry no active flag at all. */
  datatype MenuEntry = MenuEntry(item: MenuItem, active: Option<bool>)

  const MainMenu: seq<MenuItem> := [
    MenuItem("Dashboard", "/"),
    MenuItem("Customers", "/customers"),
    MenuItem("Contracts", "/contracts"),
    MenuItem("Notifications", "/notifications")
  ]

  const UtilityMenu: seq<MenuItem> := [
    MenuItem("Settings", "#"),
    MenuItem("Help", "#")
  ]

  /** `isActiveRoute`: the root entry is active exactly on the root; any
      other entry exactly when the location is its URL followed by anything. */
  function IsActiveRoute(route: string, pathname: string): (r: bool)
    ensures route == "/" ==> (r <==> pathname == "/")
    ensures route != "/" ==> (r <==> exists rest :: pathname == route + rest)
  {
    assert route != "/" && Text.StartsWith(pathname, route) ==> pathname == route + pathname[|route|..];
    if route == "/" && pathname == "/" then true
    else if route != "/" && Text.StartsWith(pathname, route) then true
    else false
  }

  /** The prefix test does not stop at a path segment. */
  lemma PrefixMatchesLongerSegment()
    ensures IsActiveRoute("/customers", "/customersX")
    ensures IsActiveRoute("/customers", "/customers/7")
    ensures !IsActiveRoute("/", "/customers")
  {
  }

  /** The main menu as rendered for a location. */
  function MainMenuView(pathname: string): (r: seq<MenuEntry>)
    ensures |r| == |MainMenu|
    ensures forall i :: 0 <= i < |r| ==>
              r[i].item == MainMenu[i] && r[i].active == Some(IsActiveRoute(MainMenu[i].url, pathname))
  {
    seq(|MainMenu|, i requires 0 <= i < |MainMenu| => MenuEntry(MainMenu[i], Some(IsActiveRoute(MainMenu[i].url, pathname))))
  }

  /** The utility menu as rendered: no entry is ever marked active. */
  function UtilityMenuView(): (r: seq<MenuEntry>)
    ensures |r| == |UtilityMenu|
    ensures forall i :: 0 <= i < |r| ==> r[i].item == UtilityMenu[i] && r[i].active.None?
  {
    seq(|UtilityMenu|, i requires 0 <= i < |UtilityMenu| => MenuEntry(UtilityMenu[i], None))
  }

  predicate IsHighlighted(e: MenuEntry) {
    e.active == Some(true)
  }

  /** Two non-root URLs of the main menu are never both prefixes of one
      location: they differ at a position inside both. */
  lemma DistinctPrefixes(pathname: string, i: nat, j: nat)
    requires 1 <= i < j < |MainMenu|
    requires IsActiveRoute(MainMenu[i].url, pathname)
    ensures !IsActiveRoute(MainMenu[j].url, pathname)
  {
    var a := MainMenu[i].url;
    var b := MainMenu[j].url;
    // "/customers" and "/contracts" first differ at index 3 ('s' against 'n');
    // "/notifications" differs from both at index 1 ('n' against 'c').
    var k := if i == 1 then 3 else 1;
    assert a[k] != b[k];
    if |a| <= |pathname| && |b| <= |pathname| {
      assert pathname[..|a|][k] == pathname[k];
      assert pathname[..|b|][k] == pathname[k];
    }
  }

  /** For any location at most one main-menu entry is highlighted. */
  lemma AtMostOneActive(pathname: string)
    ensures Count(MainMenuView(pathname), IsHighlighted) <= 1
  {
    var view := MainMenuView(pathname);
    forall i, j | 0 <= i < j < |view|
      ensures !(IsHighlighted(view[i]) && IsHighlighted(view[j]))
    {
      if IsHighlighted(view[i]) && i >= 1 {
        DistinctPrefixes(pathname, i, j);
      }
    }
    CountAtMostOne(view, IsHighlighted);
  }
}
