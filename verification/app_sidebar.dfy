/** The navigation drawer: its entries, which entry is highlighted for the
    current location, and what a click on an entry does. */
module AppSidebar {
  /** A navigation entry: its label and the route it opens. */
  datatype NavItem = NavItem(text: string, path: string)

  const MainNavItems := [
    NavItem("Dashboard", "/"),
    NavItem("Websites", "/websites"),
    NavItem("Add Website", "/add-website")
  ]

  const SecondaryNavItems := [
    NavItem("Settings", "/settings"),
    NavItem("Help", "/help")
  ]

  /** Below this window width the drawer is the temporary, mobile one. */
  const MobileWidth := 600

  predicate StartsWith(s: string, prefix: string) {
    |prefix| <= |s| && s[..|prefix|] == prefix
  }

  /** `isActive(path)`: the root entry is highlighted only on the root
      itself; every other entry on every location that begins with its path. */
  function IsActive(path: string, pathname: string): (r: bool)
    ensures path == "/" ==> (r <==> pathname == "/")
    ensures path != "/" ==> (r <==> |path| <= |pathname| && pathname[..|path|] == path)
  {
    (path == "/" && pathname == "/") || (StartsWith(pathname, path) && path != "/")
  }

  /** Every path is highlighted on its own route. */
  lemma OwnRouteActive(path: string)
    ensures IsActive(path, path)
  {
  }

  /** An edit page of a website highlights "Websites" and no other entry. */
  lemma EditPageHighlightsWebsites(id: string)
    ensures forall item :: item in MainNavItems + SecondaryNavItems ==>
              (IsActive(item.path, "/websites/" + id + "/edit") <==> item.path == "/websites")
  {
    var p := "/websites/" + id + "/edit";
    assert p[..9] == "/websites";
    forall item | item in MainNavItems + SecondaryNavItems && item.path != "/" && item.path != "/websites"
      ensures !IsActive(item.path, p)
    {
      if |item.path| <= |p| {
        assert p[..|item.path|][1] == 'w' != item.path[1];
      }
    }
  }

  /** The root entry is never highlighted together with another entry. */
  lemma RootExclusive(pathname: string)
    ensures IsActive("/", pathname) ==>
              forall item :: item in MainNavItems + SecondaryNavItems && item.path != "/" ==>
                !IsActive(item.path, pathname)
  {
  }

  /** `handleNavigation(path)`: go to `path`, and on a narrow window also
      toggle the drawer. */
  function HandleNavigation(path: string, windowWidth: int, drawerOpen: bool): (r: (string, bool))
    ensures r.0 == path
    ensures r.1 == drawerOpen <==> windowWidth >= MobileWidth
  {
    (path, if windowWidth < MobileWidth then !drawerOpen else drawerOpen)
  }
}
