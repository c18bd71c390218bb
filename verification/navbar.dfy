/** The site's navigation bar (src/components/Navbar.tsx): which link is
    highlighted for the current path, and the open/closed state of the mobile
    menu. */
module Navbar {
  import opened Strings

  datatype NavLink = NavLink(href: string, caption: string)

  /** The navigation table, in display order. */
  const NavLinks: seq<NavLink> := [
    NavLink("/", "Home"),
    NavLink("/program", "Program"),
    NavLink("/curriculum", "Curriculum"),
    NavLink("/schedule", "Schedule"),
    NavLink("/contact", "Contact")
  ]

  /** The path is the link's own page or lies below it. */
  predicate Covers(href: string, pathname: string) {
    pathname == href || StartsWith(pathname, href + "/")
  }

  /** Whether the link to `href` is highlighted on `pathname`: the home link
      only on "/" itself, any other link on its page and the pages below it. */
  predicate IsActive(href: string, pathname: string): (r: bool)
    ensures pathname == href ==> r
    ensures r ==> StartsWith(pathname, href)
    ensures r && pathname != href ==> href != "/" && pathname[|href|] == '/'
    ensures href == "/" && pathname != "/" ==> !r
    ensures href != "/" && StartsWith(pathname, href + "/") ==> r
  {
    if href == "/" then pathname == "/" else Covers(href, pathname)
  }

  /** One rendered link: where it goes, its text and its class names. */
  datatype NavItem = NavItem(href: string, caption: string, className: string)

  const DesktopActive := "text-gold border-b-2 border-gold pb-1"
  const MobileActive := "text-gold"
  const Inactive := "text-text"

  /** The desktop bar's links. */
  function DesktopItems(pathname: string): (r: seq<NavItem>)
    ensures |r| == |NavLinks|
    ensures forall i :: 0 <= i < |r| ==> r[i].href == NavLinks[i].href && r[i].caption == NavLinks[i].caption
    ensures forall i :: 0 <= i < |r| ==>
      && (r[i].className == DesktopActive <==> IsActive(NavLinks[i].href, pathname))
      && (r[i].className == Inactive <==> !IsActive(NavLinks[i].href, pathname))
  {
    seq(|NavLinks|, i requires 0 <= i < |NavLinks| =>
      NavItem(NavLinks[i].href, NavLinks[i].caption,
        if IsActive(NavLinks[i].href, pathname) then DesktopActive else Inactive))
  }

  /** The mobile panel's links. */
  function MobileItems(pathname: string): (r: seq<NavItem>)
    ensures |r| == |NavLinks|
    ensures forall i :: 0 <= i < |r| ==> r[i].href == NavLinks[i].href && r[i].caption == NavLinks[i].caption
    ensures forall i :: 0 <= i < |r| ==>
      && (r[i].className == MobileActive <==> IsActive(NavLinks[i].href, pathname))
      && (r[i].className == Inactive <==> !IsActive(NavLinks[i].href, pathname))
  {
    seq(|NavLinks|, i requires 0 <= i < |NavLinks| =>
      NavItem(NavLinks[i].href, NavLinks[i].caption,
        if IsActive(NavLinks[i].href, pathname) then MobileActive else Inactive))
  }

  // ---------------------------------------------------------------------------
  // The active rule

  /** Two links covering the same path are nested: the shorter one followed by
      "/" starts the longer one, or they are the same link. */
  lemma CoversNested(a: string, b: string, p: string)
    ensures Covers(a, p) && Covers(b, p) && |a| <= |b| ==> a == b || StartsWith(b, a + "/")
  {
    if Covers(a, p) && Covers(b, p) && |a| <= |b| {
      assert p[..|a|] == a;
      assert p[..|b|] == b;
      assert b[..|a|] == p[..|a|];
      if |a| < |b| {
        assert StartsWith(p, a + "/");
        assert p[|a|] == (a + "/")[|a|] == '/';
        assert b[..|a| + 1] == p[..|a| + 1] == a + "/";
      }
    }
  }

  /** Links that are not nested in each other are never active together. */
  lemma ExclusiveWhenUnnested(a: string, b: string, p: string)
    requires a != "/" && b != "/" && a != b
    requires !StartsWith(b, a + "/") && !StartsWith(a, b + "/")
    ensures !(IsActive(a, p) && IsActive(b, p))
  {
    CoversNested(a, b, p);
    CoversNested(b, a, p);
  }

  /** The home link and a link longer than "/" are never active together. */
  lemma HomeExclusive(b: string, p: string)
    requires |b| > 1
    ensures !(IsActive("/", p) && IsActive(b, p))
  {
    if p == "/" {
      assert p != b;
      assert !StartsWith(p, b + "/");
    }
  }

  /** For the site's table, at most one link is highlighted on any path. */
  lemma AtMostOneActive(p: string)
    ensures forall i, j :: 0 <= i < j < |NavLinks| ==>
      !(IsActive(NavLinks[i].href, p) && IsActive(NavLinks[j].href, p))
  {
    forall i, j | 0 <= i < j < |NavLinks|
      ensures !(IsActive(NavLinks[i].href, p) && IsActive(NavLinks[j].href, p))
    {
      var a, b := NavLinks[i].href, NavLinks[j].href;
      if i == 0 {
        HomeExclusive(b, p);
      } else {
        assert a[1] != b[1] || (a == "/curriculum" && b == "/contact");
        if a == "/curriculum" && b == "/contact" {
          Differs(b, a + "/", 2);
          Differs(a, b + "/", 2);
        } else {
          Differs(b, a + "/", 1);
          Differs(a, b + "/", 1);
        }
        ExclusiveWhenUnnested(a, b, p);
      }
    }
  }

  /** The prefix rule works on whole path segments: "/programs" does not
      highlight "/program", "/program/x" does. */
  lemma SegmentPrefix()
    ensures !IsActive("/program", "/programs")
    ensures IsActive("/program", "/program/x")
    ensures !IsActive("/", "/program")
  {
    Differs("/programs", "/program/", 8);
    assert "/program/x"[..9] == "/program/";
  }

  /** The desktop bar and the mobile panel highlight the same links. */
  lemma SameHighlight(p: string, i: nat)
    requires i < |NavLinks|
    ensures DesktopItems(p)[i].className == DesktopActive <==> MobileItems(p)[i].className == MobileActive
    ensures DesktopItems(p)[i].className == DesktopActive <==> IsActive(NavLinks[i].href, p)
  {
  }

  // ---------------------------------------------------------------------------
  // The mobile menu

  /** The menu's state and the path it was last rendered for. */
  datatype Menu = Menu(open: bool, pathname: string)

  /** What can happen to the menu: the toggle button, a key press, a change
      of route, a click on a mobile link or on the mobile Apply button. */
  datatype MenuEvent = ToggleButton | KeyDown(key: string) | RouteChange(to: string) | LinkClick | ApplyClick

  /** The state on first render: closed. */
  function Mount(pathname: string): (m: Menu)
    ensures !m.open && m.pathname == pathname
  {
    Menu(false, pathname)
  }

  function Step(m: Menu, e: MenuEvent): (r: Menu)
    ensures e == ToggleButton ==> r.open == !m.open
    ensures e.LinkClick? || e.ApplyClick? || e == KeyDown("Escape") ==> !r.open
    ensures e.KeyDown? && (e.key != "Escape" || !m.open) ==> r == m
    ensures e.RouteChange? ==> r.pathname == e.to && (e.to != m.pathname ==> !r.open)
    ensures e.RouteChange? && e.to == m.pathname ==> r == m
    ensures !e.RouteChange? ==> r.pathname == m.pathname
  {
    match e
    case ToggleButton => m.(open := !m.open)
    case KeyDown(key) => if key == "Escape" && m.open then m.(open := false) else m
    case RouteChange(to) => if to != m.pathname then Menu(false, to) else m
    case LinkClick => m.(open := false)
    case ApplyClick => m.(open := false)
  }

  /** The state after a sequence of events, first event first. */
  function Run(m: Menu, es: seq<MenuEvent>): Menu
    decreases |es|
  {
    if |es| == 0 then m else Run(Step(m, es[0]), es[1..])
  }

  lemma {:induction false} RunSnoc(m: Menu, es: seq<MenuEvent>, e: MenuEvent)
    ensures Run(m, es + [e]) == Step(Run(m, es), e)
    decreases |es|
  {
    if |es| == 0 {
      assert es + [e] == [e];
      assert [e][1..] == [];
    } else {
      assert (es + [e])[0] == es[0];
      assert (es + [e])[1..] == es[1..] + [e];
      RunSnoc(Step(m, es[0]), es[1..], e);
    }
  }

  /** Reference: the path after the events is the last route change's target. */
  function PathAfter(p0: string, es: seq<MenuEvent>): string
    decreases |es|
  {
    if |es| == 0 then p0
    else match es[|es| - 1]
      case RouteChange(to) => to
      case _ => PathAfter(p0, es[..|es| - 1])
  }

  /** Reference: how many toggles came after the last event that closed the
      menu (Escape, a mobile link or Apply click, a route change to a new path). */
  function TogglesSinceClose(p0: string, es: seq<MenuEvent>): nat
    decreases |es|
  {
    if |es| == 0 then 0
    else
      var pre := es[..|es| - 1];
      match es[|es| - 1]
      case ToggleButton => TogglesSinceClose(p0, pre) + 1
      case KeyDown(key) => if key == "Escape" then 0 else TogglesSinceClose(p0, pre)
      case RouteChange(to) => if to != PathAfter(p0, pre) then 0 else TogglesSinceClose(p0, pre)
      case LinkClick => 0
      case ApplyClick => 0
  }

  /** From the first render, the menu is open exactly when an odd number of
      toggles followed the last closing event, and it is rendered for the last
      route visited. */
  lemma {:induction false} MenuOpenIffOddToggles(p0: string, es: seq<MenuEvent>)
    ensures Run(Mount(p0), es) == Menu(TogglesSinceClose(p0, es) % 2 == 1, PathAfter(p0, es))
    decreases |es|
  {
    if |es| > 0 {
      var pre := es[..|es| - 1];
      var e := es[|es| - 1];
      assert es == pre + [e];
      RunSnoc(Mount(p0), pre, e);
      MenuOpenIffOddToggles(p0, pre);
    }
  }

  /** Two toggles in a row leave the menu as it was. */
  lemma ToggleTwice(m: Menu)
    ensures Step(Step(m, ToggleButton), ToggleButton) == m
  {
  }
}
