/** The in-memory client-side router of the StreamList application: the
    navigation state (the current path and the `navigate` operation that
    overwrites it), the route table with its first-match resolver, the
    link that navigates when activated, and the rule that marks a
    navigation-bar item as active. */
module Router {

  datatype Option<+T> = None | Some(value: T)

  /** The pages a route can render. The core never looks inside a page. */
  datatype View = StreamListPage | MoviesPage | CartPage | AboutPage

  /** One `<Route path=... element=... />` entry of the route table. */
  datatype Route = Route(path: string, element: View)

  /** One entry of the navigation bar: the path its link targets and the text
      of its label (`label` is a reserved word in Dafny). */
  datatype NavItem = NavItem(path: string, labelText: string)

  // ---------------------------------------------------------------------
  // Route resolution
  // ---------------------------------------------------------------------

  /** Entry `i` is the first entry of `routes`, in declaration order, whose
      path is exactly `p`. */
  ghost predicate FirstMatch(routes: seq<Route>, p: string, i: int)
  {
    0 <= i < |routes| && routes[i].path == p &&
    forall j :: 0 <= j < i ==> routes[j].path != p
  }

  /** No entry of `routes` has path `p`. */
  ghost predicate NoMatch(routes: seq<Route>, p: string)
  {
    forall i :: 0 <= i < |routes| ==> routes[i].path != p
  }

  /** The resolver of `Routes`: a linear scan of the table in declaration
      order that stops at the first entry whose path equals `p` exactly,
      or yields nothing when no entry matches. */
  function Resolve(routes: seq<Route>, p: string): (r: Option<Route>)
    ensures r.None? <==> NoMatch(routes, p)
    ensures r.Some? ==> r.value in routes && r.value.path == p
    ensures forall i :: FirstMatch(routes, p, i) ==> r == Some(routes[i])
  {
    if routes == [] then None
    else if routes[0].path == p then Some(routes[0])
    else
      var r := Resolve(routes[1..], p);
      assert forall i :: FirstMatch(routes, p, i) ==> FirstMatch(routes[1..], p, i - 1) by {
        forall i | FirstMatch(routes, p, i) ensures FirstMatch(routes[1..], p, i - 1) {
          assert i != 0;
          forall j | 0 <= j < i - 1 ensures routes[1..][j].path != p {
            assert routes[1..][j] == routes[j + 1];
          }
        }
      }
      r
  }

  /** What `Routes` renders for the current path: the element of the first
      matching route (a `<Route>` renders the element it was declared with),
      or nothing at all when no route matches. */
  function RenderRoutes(routes: seq<Route>, currentPath: string): (v: Option<View>)
    ensures v.None? <==> NoMatch(routes, currentPath)
    ensures forall i :: FirstMatch(routes, currentPath, i) ==> v == Some(routes[i].element)
  {
    match Resolve(routes, currentPath)
    case Some(route) => Some(route.element)
    case None => None
  }

  /** If some entry matches `p`, then some entry at or before it is the first match. */
  lemma {:induction false} FirstMatchExists(routes: seq<Route>, p: string, k: int)
    requires 0 <= k < |routes| && routes[k].path == p
    ensures exists i :: 0 <= i <= k && FirstMatch(routes, p, i)
  {
    if NoMatch(routes[..k], p) {
      assert FirstMatch(routes, p, k);
    } else {
      var k' :| 0 <= k' < k && routes[k'].path == p;
      FirstMatchExists(routes, p, k');
    }
  }

  /** With duplicate paths in the table, the first declared entry wins: for
      a path that entry `i` carries, the resolver returns an entry declared at
      or before `i`, so no later entry with the same path is ever reached. */
  lemma FirstDeclaredWins(routes: seq<Route>, i: int)
    requires 0 <= i < |routes|
    ensures Resolve(routes, routes[i].path).Some?
    ensures Resolve(routes, routes[i].path).value in routes[..i + 1]
  {
    var p := routes[i].path;
    FirstMatchExists(routes, p, i);
    var f :| 0 <= f <= i && FirstMatch(routes, p, f);
    assert routes[..i + 1][f] == routes[f];
  }

  /** All paths of the table are pairwise distinct. */
  ghost predicate DistinctPaths(routes: seq<Route>)
  {
    forall i, j :: 0 <= i < j < |routes| ==> routes[i].path != routes[j].path
  }

  /** When paths are distinct, the table order does not matter: the resolver
      returns `route` exactly when `route` is an entry with path `p`. */
  lemma ResolveDistinct(routes: seq<Route>, p: string, route: Route)
    requires DistinctPaths(routes)
    ensures Resolve(routes, p) == Some(route) <==> route in routes && route.path == p
  {
  }

  // ---------------------------------------------------------------------
  // The application's route table and navigation bar
  // ---------------------------------------------------------------------

  /** The route table declared inside `<Routes>`. */
  const AppRoutes: seq<Route> := [
    Route("/", StreamListPage),
    Route("/movies", MoviesPage),
    Route("/cart", CartPage),
    Route("/about", AboutPage)
  ]

  /** The items of the navigation bar, in display order. */
  const NavItems: seq<NavItem> := [
    NavItem("/", "Home"),
    NavItem("/movies", "Movies"),
    NavItem("/cart", "Cart"),
    NavItem("/about", "About")
  ]

  /** A navigation item is styled as active exactly when the location's
      pathname is its path, with no trimming, case folding or prefix match;
      an active item of the navigation bar always has a page to show. */
  predicate IsActive(pathname: string, item: NavItem)
    ensures IsActive(pathname, item) <==> pathname == item.path
    ensures IsActive(pathname, item) && item in NavItems ==> RenderRoutes(AppRoutes, pathname).Some?
  {
    pathname == item.path
  }

  /** The four navigation items have pairwise distinct paths, so at most one
      of them is active at any time. */
  lemma AtMostOneActive(pathname: string, i: int, j: int)
    requires 0 <= i < |NavItems| && 0 <= j < |NavItems|
    requires IsActive(pathname, NavItems[i]) && IsActive(pathname, NavItems[j])
    ensures i == j
  {
  }

  /** Exactly one navigation item is active when the location is one of the
      table's paths, and none is active on any other path. */
  lemma ActiveItemIff(pathname: string)
    ensures (exists i :: 0 <= i < |NavItems| && IsActive(pathname, NavItems[i])) <==>
            Resolve(AppRoutes, pathname).Some?
  {
    if Resolve(AppRoutes, pathname).Some? {
      var k :| 0 <= k < |AppRoutes| && AppRoutes[k].path == pathname;
      assert IsActive(pathname, NavItems[k]);
    }
  }

  /** Every link of the navigation bar leads to a page of the route table,
      and to the page its label names. */
  lemma NavLinksReachTheirPages()
    ensures RenderRoutes(AppRoutes, NavItems[0].path) == Some(StreamListPage)
    ensures RenderRoutes(AppRoutes, NavItems[1].path) == Some(MoviesPage)
    ensures RenderRoutes(AppRoutes, NavItems[2].path) == Some(CartPage)
    ensures RenderRoutes(AppRoutes, NavItems[3].path) == Some(AboutPage)
  {
  }

  /** A path that the table does not list renders nothing: not an error page
      and not a failure. */
  lemma UnknownPathRendersNothing()
    ensures RenderRoutes(AppRoutes, "/unknown") == None
  {
  }

  // ---------------------------------------------------------------------
  // Navigation state
  // ---------------------------------------------------------------------

  /** The path the router starts from: the page's pathname, or "/" when the
      pathname is empty (JavaScript's `||` treats "" as false). */
  function InitialPath(pathname: string): (p: string)
    ensures p != ""
    ensures pathname != "" ==> p == pathname
    ensures pathname == "" ==> p == "/"
  {
    if pathname != "" then pathname else "/"
  }

  /** The state behind `BrowserRouter`: one current path, overwritten only
      by `Navigate`. */
  class BrowserRouter {
    /** The current path; `useLocation` reports it as the pathname. */
    var currentPath: string

    /** Mounting the router reads the page's pathname once. */
    constructor (pathname: string)
      ensures currentPath == InitialPath(pathname)
    {
      currentPath := InitialPath(pathname);
    }

    /** `navigate`: sets the current path unconditionally, whether or not
        the table has a route for it, with no normalisation. */
    method Navigate(path: string)
      modifies this
      ensures currentPath == path
    {
      currentPath := path;
    }

    /** Activating a `<Link to=...>` navigates to its target. */
    method FollowLink(to: string)
      modifies this
      ensures currentPath == to
    {
      Navigate(to);
    }
  }

  /** A walk through the application's own table: start at "/", navigate
      twice to "/movies", follow the Cart link, then go to an unknown path. */
  method RouterScenario()
  {
    var router := new BrowserRouter("/");
    NavLinksReachTheirPages();
    assert RenderRoutes(AppRoutes, router.currentPath) == Some(StreamListPage);

    router.Navigate("/movies");
    router.Navigate("/movies");
    assert router.currentPath == "/movies";
    assert RenderRoutes(AppRoutes, router.currentPath) == Some(MoviesPage);

    router.FollowLink("/cart");
    assert IsActive(router.currentPath, NavItems[2]);
    assert !IsActive(router.currentPath, NavItems[0]);

    router.Navigate("/unknown");
    UnknownPathRendersNothing();
    assert RenderRoutes(AppRoutes, router.currentPath) == None;
  }
}
