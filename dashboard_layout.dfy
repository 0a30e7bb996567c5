/** The dashboard shell: the sidebar navigation chosen by dashboard type, the route highlight
    with prefix matching, the header icon, and the mobile-sidebar and collapse toggles. */
module DashboardLayout {
  import opened Strings

  datatype Icon =
    | LayoutDashboardIcon | FileTextIcon | UsersIcon | PackageIcon | TruckIcon
    | ShieldIcon | UserIcon | BarChartIcon | SettingsIcon

  datatype SidebarItem = SidebarItem(name: string, href: string, icon: Icon)

  const AdminNavigation: seq<SidebarItem> := [
    SidebarItem("Dashboard", "/admin", LayoutDashboardIcon),
    SidebarItem("Zone Management", "/admin/zones", LayoutDashboardIcon),
    SidebarItem("Reports", "/admin/reports", FileTextIcon),
    SidebarItem("Users", "/admin/users", UsersIcon),
    SidebarItem("Merchandise", "/admin/merchandise", PackageIcon),
    SidebarItem("Analytics", "/admin/analytics", BarChartIcon),
    SidebarItem("Settings", "/admin/settings", SettingsIcon)
  ]

  const ModeratorNavigation: seq<SidebarItem> := [
    SidebarItem("Dashboard", "/moderator", LayoutDashboardIcon),
    SidebarItem("Client Orders", "/moderator/orders", FileTextIcon),
    SidebarItem("Driver Assignment", "/moderator/drivers", TruckIcon),
    SidebarItem("Merchandise", "/moderator/merchandise", PackageIcon),
    SidebarItem("Performance", "/moderator/performance", BarChartIcon),
    SidebarItem("Settings", "/moderator/settings", SettingsIcon)
  ]

  const DriverNavigation: seq<SidebarItem> := [
    SidebarItem("Dashboard", "/driver", LayoutDashboardIcon),
    SidebarItem("Assigned Tasks", "/driver/tasks", FileTextIcon),
    SidebarItem("History", "/driver/history", FileTextIcon),
    SidebarItem("Performance", "/driver/performance", BarChartIcon),
    SidebarItem("Settings", "/driver/settings", SettingsIcon)
  ]

  const ClientNavigation: seq<SidebarItem> := [
    SidebarItem("Dashboard", "/client", LayoutDashboardIcon),
    SidebarItem("My Products", "/client/products", PackageIcon),
    SidebarItem("Stocking Orders", "/client/stocking", FileTextIcon),
    SidebarItem("Destocking Orders", "/client/destocking", FileTextIcon),
    SidebarItem("Order Status", "/client/status", FileTextIcon),
    SidebarItem("Settings", "/client/settings", SettingsIcon)
  ]

  /** The dashboard types with a navigation list of their own; any other value is served the
      admin list. */
  predicate KnownType(dashboardType: string) {
    dashboardType == "admin" || dashboardType == "moderator"
    || dashboardType == "driver" || dashboardType == "client"
  }

  function GetNavigation(dashboardType: string): (r: seq<SidebarItem>)
    ensures !KnownType(dashboardType) ==> r == AdminNavigation
    ensures KnownType(dashboardType) ==> r != [] && r[0].href == "/" + dashboardType
  {
    if dashboardType == "admin" then AdminNavigation
    else if dashboardType == "moderator" then ModeratorNavigation
    else if dashboardType == "driver" then DriverNavigation
    else if dashboardType == "client" then ClientNavigation
    else AdminNavigation
  }

  /** The icon next to the page title. */
  function GetDashboardIcon(dashboardType: string): (r: Icon)
    ensures !KnownType(dashboardType) ==> r == LayoutDashboardIcon
    ensures r == LayoutDashboardIcon <==> !KnownType(dashboardType) || dashboardType == "admin"
  {
    if dashboardType == "admin" then LayoutDashboardIcon
    else if dashboardType == "moderator" then ShieldIcon
    else if dashboardType == "driver" then TruckIcon
    else if dashboardType == "client" then UserIcon
    else LayoutDashboardIcon
  }

  // ---------------------------------------------------------------- route highlight

  /** A sidebar link is highlighted on its own page and on every page below it. */
  function IsActive(pathname: string, href: string): (r: bool)
    ensures pathname == href ==> r
    ensures r ==> |href| <= |pathname| && pathname[..|href|] == href
  {
    pathname == href || StartsWith(pathname, href + "/")
  }

  /** The highlight rule as "the path is the link followed by nothing or by a segment
      boundary". */
  lemma IsActiveIff(pathname: string, href: string)
    ensures IsActive(pathname, href) <==>
      exists rest :: pathname == href + rest && (rest == [] || rest[0] == '/')
  {
    if pathname == href {
      assert pathname == href + [];
    } else if StartsWith(pathname, href + "/") {
      var rest := pathname[|href|..];
      assert pathname == href + rest;
      assert rest[0] == pathname[|href|] == (href + "/")[|href|];
    }
    if exists rest :: pathname == href + rest && (rest == [] || rest[0] == '/') {
      var rest :| pathname == href + rest && (rest == [] || rest[0] == '/');
      if rest != [] {
        assert pathname[..|href| + 1] == href + "/";
      }
    }
  }

  /** Highlighting passes up the tree: a page below a highlighted link's target also
      highlights every link that target highlights. */
  lemma IsActiveTransitive(pathname: string, middle: string, href: string)
    requires IsActive(pathname, middle) && IsActive(middle, href)
    ensures IsActive(pathname, href)
  {
    IsActiveIff(pathname, middle);
    IsActiveIff(middle, href);
    var r1 :| pathname == middle + r1 && (r1 == [] || r1[0] == '/');
    var r2 :| middle == href + r2 && (r2 == [] || r2[0] == '/');
    assert pathname == href + (r2 + r1);
    if r2 == [] {
      assert r2 + r1 == r1;
    } else {
      assert (r2 + r1)[0] == r2[0];
    }
    IsActiveIff(pathname, href);
  }

  /** On the zone management page both the dashboard link and the zone management link are
      highlighted. */
  lemma AdminZonesHighlightsBoth()
    ensures IsActive("/admin/zones", "/admin") && IsActive("/admin/zones", "/admin/zones")
  {
    assert ("/admin/zones")[..|"/admin/"|] == "/admin" + "/";
  }

  /** A longer word is not a page below: "/administrator" does not highlight "/admin". */
  lemma SlashBoundaryRequired()
    ensures !IsActive("/administrator", "/admin")
  {
    assert ("/administrator")[6] != ("/admin" + "/")[6];
  }

  /** A navigation list that starts with its dashboard root, which is highlighted on the page
      of every item of the list. */
  predicate UnderRoot(nav: seq<SidebarItem>) {
    && nav != []
    && nav[0].name == "Dashboard"
    && forall i :: 0 <= i < |nav| ==> IsActive(nav[i].href, nav[0].href)
  }

  /** An item whose link is the root followed by a slash and more is under the root. */
  lemma BelowRoot(href: string, root: string, rest: string)
    requires href == root + "/" + rest
    ensures IsActive(href, root)
  {
    assert href[..|root| + 1] == root + "/";
  }

  lemma AdminUnderRoot()
    ensures UnderRoot(AdminNavigation)
  {
    var nav := AdminNavigation;
    BelowRoot(nav[1].href, "/admin", "zones");
    BelowRoot(nav[2].href, "/admin", "reports");
    BelowRoot(nav[3].href, "/admin", "users");
    BelowRoot(nav[4].href, "/admin", "merchandise");
    BelowRoot(nav[5].href, "/admin", "analytics");
    BelowRoot(nav[6].href, "/admin", "settings");
  }

  lemma ModeratorUnderRoot()
    ensures UnderRoot(ModeratorNavigation)
  {
    var nav := ModeratorNavigation;
    BelowRoot(nav[1].href, "/moderator", "orders");
    BelowRoot(nav[2].href, "/moderator", "drivers");
    BelowRoot(nav[3].href, "/moderator", "merchandise");
    BelowRoot(nav[4].href, "/moderator", "performance");
    BelowRoot(nav[5].href, "/moderator", "settings");
  }

  lemma DriverUnderRoot()
    ensures UnderRoot(DriverNavigation)
  {
    var nav := DriverNavigation;
    BelowRoot(nav[1].href, "/driver", "tasks");
    BelowRoot(nav[2].href, "/driver", "history");
    BelowRoot(nav[3].href, "/driver", "performance");
    BelowRoot(nav[4].href, "/driver", "settings");
  }

  lemma ClientUnderRoot()
    ensures UnderRoot(ClientNavigation)
  {
    var nav := ClientNavigation;
    BelowRoot(nav[1].href, "/client", "products");
    BelowRoot(nav[2].href, "/client", "stocking");
    BelowRoot(nav[3].href, "/client", "destocking");
    BelowRoot(nav[4].href, "/client", "status");
    BelowRoot(nav[5].href, "/client", "settings");
  }

  /** Whatever the dashboard type, the list served starts with its dashboard root and every
      item sits under it; an unknown type is served the admin list. */
  lemma NavigationUnderRoot(dashboardType: string)
    ensures UnderRoot(GetNavigation(dashboardType))
    ensures !KnownType(dashboardType) ==> GetNavigation(dashboardType) == AdminNavigation
  {
    AdminUnderRoot();
    ModeratorUnderRoot();
    DriverUnderRoot();
    ClientUnderRoot();
  }

  /** The four navigation lists differ: each starts at its own dashboard root. */
  lemma NavigationsDistinct()
    ensures AdminNavigation != ModeratorNavigation && AdminNavigation != DriverNavigation
    ensures AdminNavigation != ClientNavigation && ModeratorNavigation != DriverNavigation
    ensures ModeratorNavigation != ClientNavigation && DriverNavigation != ClientNavigation
  {
    assert AdminNavigation[0].href != ModeratorNavigation[0].href;
    assert AdminNavigation[0].href != DriverNavigation[0].href;
    assert AdminNavigation[0].href != ClientNavigation[0].href;
    assert ModeratorNavigation[0].href != DriverNavigation[0].href;
    assert ModeratorNavigation[0].href != ClientNavigation[0].href;
    assert DriverNavigation[0].href != ClientNavigation[0].href;
  }

  /** The title icon and the navigation list are chosen by the same case split: each icon
      goes with exactly one list. */
  lemma IconAgreesWithNavigation(dashboardType: string)
    ensures GetDashboardIcon(dashboardType) == LayoutDashboardIcon <==> GetNavigation(dashboardType) == AdminNavigation
    ensures GetDashboardIcon(dashboardType) == ShieldIcon <==> GetNavigation(dashboardType) == ModeratorNavigation
    ensures GetDashboardIcon(dashboardType) == TruckIcon <==> GetNavigation(dashboardType) == DriverNavigation
    ensures GetDashboardIcon(dashboardType) == UserIcon <==> GetNavigation(dashboardType) == ClientNavigation
  {
    NavigationsDistinct();
  }

  // ---------------------------------------------------------------- sidebar state

  class Sidebar {
    /** The mobile drawer is shown. */
    var sidebarOpen: bool
    /** The desktop sidebar shows icons only. */
    var collapsed: bool

    constructor()
      ensures !sidebarOpen && !collapsed
    {
      sidebarOpen := false;
      collapsed := false;
    }

    /** The menu button in the top bar. */
    method OpenSidebar()
      modifies this
      ensures sidebarOpen && collapsed == old(collapsed)
    {
      sidebarOpen := true;
    }

    /** The backdrop and the close button: the drawer is closed whatever its state was, so a
      second close changes nothing. */
    method CloseSidebar()
      modifies this
      ensures !sidebarOpen && collapsed == old(collapsed)
    {
      sidebarOpen := false;
    }

    /** The collapse button: two clicks restore the sidebar. */
    method ToggleCollapsed()
      modifies this
      ensures collapsed == !old(collapsed) && sidebarOpen == old(sidebarOpen)
    {
      collapsed := !collapsed;
    }
  }
}
