/** The public site's top bar: exact-match link highlighting, the "Dashboards" dropdown that is
    highlighted when one of its links is, the mobile menu flag that every route change closes,
    and the "scrolled" flag that switches the bar's background. */
module Navbar {
  import DashboardLayout

  datatype NavLink = NavLink(name: string, href: string)

  /** A top-level entry: a plain link, or a dropdown with links of its own. */
  datatype NavEntry =
    | Plain(name: string, href: string)
    | Dropdown(name: string, href: string, children: seq<NavLink>)

  const DashboardLinks: seq<NavLink> := [
    NavLink("Administrator", "/admin"),
    NavLink("Moderator", "/moderator"),
    NavLink("Driver", "/driver"),
    NavLink("Client", "/client")
  ]

  const Navigation: seq<NavEntry> := [
    Plain("Home", "/"),
    Dropdown("Dashboards", "#", DashboardLinks)
  ]

  /** A link is highlighted only on exactly its own page. */
  function IsActive(pathname: string, href: string): (r: bool)
    ensures r ==> DashboardLayout.IsActive(pathname, href)
  {
    pathname == href
  }

  /** `children.some(child => isActive(child.href))`, scanning from the first child. */
  function AnyChildActive(pathname: string, children: seq<NavLink>): (r: bool)
    ensures r ==> children != []
  {
    children != [] && (IsActive(pathname, children[0].href) || AnyChildActive(pathname, children[1..]))
  }

  /** The dropdown is highlighted exactly when the current page is one of its links. */
  lemma {:induction false} AnyChildActiveIff(pathname: string, children: seq<NavLink>)
    ensures AnyChildActive(pathname, children) <==> exists i :: 0 <= i < |children| && children[i].href == pathname
  {
    if children != [] {
      AnyChildActiveIff(pathname, children[1..]);
      if exists i :: 0 <= i < |children| && children[i].href == pathname {
        var i :| 0 <= i < |children| && children[i].href == pathname;
        if i > 0 {
          assert children[1..][i - 1].href == pathname;
        }
      }
      if exists i :: 0 <= i < |children[1..]| && children[1..][i].href == pathname {
        var i :| 0 <= i < |children[1..]| && children[1..][i].href == pathname;
        assert children[i + 1].href == pathname;
      }
    }
  }

  /** Whether an entry of the bar is highlighted on `pathname`. */
  function EntryHighlighted(pathname: string, entry: NavEntry): (r: bool)
    ensures entry.Plain? ==> (r <==> pathname == entry.href)
    ensures entry.Dropdown? && r ==> entry.children != []
  {
    match entry
    case Plain(_, href) => IsActive(pathname, href)
    case Dropdown(_, _, children) => AnyChildActive(pathname, children)
  }

  /** "Dashboards" is highlighted on the four dashboard roots and nowhere else, so not on the
      pages below them. */
  lemma DashboardsHighlight(pathname: string)
    ensures EntryHighlighted(pathname, Navigation[1]) <==>
      pathname == "/admin" || pathname == "/moderator" || pathname == "/driver" || pathname == "/client"
    ensures !EntryHighlighted("/admin/zones", Navigation[1])
  {
    AnyChildActiveIff(pathname, DashboardLinks);
    AnyChildActiveIff("/admin/zones", DashboardLinks);
    if pathname == "/admin" || pathname == "/moderator" || pathname == "/driver" || pathname == "/client" {
      var i := if pathname == "/admin" then 0 else if pathname == "/moderator" then 1
        else if pathname == "/driver" then 2 else 3;
      assert DashboardLinks[i].href == pathname;
    }
  }

  /** The bar's exact rule is stricter than the sidebar's prefix rule: every page it
      highlights a link on, the sidebar highlights the same link on, but not the other way
      round. */
  lemma ExactIsStricterThanPrefix(pathname: string, href: string)
    ensures IsActive(pathname, href) ==> DashboardLayout.IsActive(pathname, href)
    ensures DashboardLayout.IsActive("/admin/zones", "/admin") && !IsActive("/admin/zones", "/admin")
  {
    DashboardLayout.AdminZonesHighlightsBoth();
  }

  // ---------------------------------------------------------------- bar state

  /** The scroll offset past which the bar gets its solid background. */
  const ScrollThreshold: real := 10.0

  /** The scroll handler's effect: the new `scrolled` value and whether the state was
      written. */
  datatype ScrollUpdate = ScrollUpdate(scrolled: bool, wrote: bool)

  function OnScroll(scrolled: bool, scrollY: real): (r: ScrollUpdate)
    ensures r.scrolled <==> scrollY > ScrollThreshold
    ensures r.wrote <==> r.scrolled != scrolled
  {
    var isScrolled := scrollY > ScrollThreshold;
    if isScrolled != scrolled then ScrollUpdate(isScrolled, true) else ScrollUpdate(scrolled, false)
  }

  /** A second scroll event at the same offset writes nothing. */
  lemma OnScrollIdempotent(scrolled: bool, scrollY: real)
    ensures OnScroll(OnScroll(scrolled, scrollY).scrolled, scrollY) == ScrollUpdate(OnScroll(scrolled, scrollY).scrolled, false)
  {
  }

  class NavbarState {
    /** The mobile menu is shown. */
    var isOpen: bool
    /** The page is scrolled past the threshold. */
    var scrolled: bool
    /** The current route. */
    var pathname: string

    constructor(pathname: string)
      ensures !isOpen && !scrolled && this.pathname == pathname
    {
      isOpen := false;
      scrolled := false;
      this.pathname := pathname;
    }

    /** The menu button. */
    method ToggleMenu()
      modifies this
      ensures isOpen == !old(isOpen)
      ensures scrolled == old(scrolled) && pathname == old(pathname)
    {
      isOpen := !isOpen;
    }

    /** A navigation. The reset effect depends on the path, so it runs only when the path
      changes. */
    method ChangeLocation(newPathname: string)
      modifies this
      ensures pathname == newPathname
      ensures isOpen == (old(isOpen) && newPathname == old(pathname))
      ensures scrolled == old(scrolled)
    {
      if newPathname != pathname {
        isOpen := false;
      }
      pathname := newPathname;
    }

    /** A scroll event at offset `scrollY`; reports whether the state was written. */
    method HandleScroll(scrollY: real) returns (wrote: bool)
      modifies this
      ensures ScrollUpdate(scrolled, wrote) == OnScroll(old(scrolled), scrollY)
      ensures isOpen == old(isOpen) && pathname == old(pathname)
    {
      var isScrolled := scrollY > ScrollThreshold;
      wrote := false;
      if isScrolled != scrolled {
        scrolled := isScrolled;
        wrote := true;
      }
    }
  }
}
