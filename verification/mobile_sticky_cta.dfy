/** The mobile call-to-action bar (src/components/MobileStickyCTA.tsx): shown
    only on the marketing pages, always pointing at the application page. */
module MobileStickyCta {
  import opened Wrappers
  import Navbar

  const MarketingPages: seq<string> := ["/", "/program", "/curriculum", "/schedule"]
  const ApplyHref := "/apply"

  /** The bar's link target when it is shown, `None` when it is hidden.
      Membership is exact: no prefix rule. */
  function StickyCta(pathname: string): (r: Option<string>)
    ensures r.Some? <==>
      pathname == "/" || pathname == "/program" || pathname == "/curriculum" || pathname == "/schedule"
    ensures r.Some? ==> r.value == ApplyHref
  {
    if pathname in MarketingPages then Some(ApplyHref) else None
  }

  /** The bar is hidden on the application and contact pages. */
  lemma HiddenOnFormPages()
    ensures StickyCta("/apply").None?
    ensures StickyCta("/contact").None?
  {
  }

  /** Below a marketing page the bar is hidden, though the navigation bar still
      highlights that page's link there. */
  lemma ExactMatchUnlikeNavbar()
    ensures StickyCta("/program/x").None?
    ensures Navbar.IsActive("/program", "/program/x")
  {
    Navbar.SegmentPrefix();
  }

  /** Wherever the bar shows, the current page is one of the navigation
      links, and that link is the highlighted one. */
  lemma ShownOnNavPages(p: string)
    requires StickyCta(p).Some?
    ensures exists i ::
              && 0 <= i < |Navbar.NavLinks|
              && Navbar.NavLinks[i].href == p
              && Navbar.IsActive(Navbar.NavLinks[i].href, p)
  {
    if p == "/" { assert Navbar.NavLinks[0].href == p; }
    else if p == "/program" { assert Navbar.NavLinks[1].href == p; }
    else if p == "/curriculum" { assert Navbar.NavLinks[2].href == p; }
    else { assert Navbar.NavLinks[3].href == p; }
  }
}
