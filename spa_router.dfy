/** The hash router and the caching page loader of the single-page front end
    (frontend/js/spa-router.js). */
module SpaRouter {

  import opened Wrappers
  import opened Browser
  import JsString

  /** The route used when the hash is empty and the one unknown routes redirect to. */
  const DefaultRoute: string := "dashboard"

  /** What a route runs. Every route the application registers loads the page of
      the same name; `Action` stands for any other handler `AddRoute` is given. */
  datatype Handler = LoadPage(page: string) | Action(name: string)

  /** One `#navmenu a` element: its `href` attribute and whether it has class `active`. */
  datatype NavLink = NavLink(href: string, active: bool)

  /** The key `handleRoute` looks up: the hash without its first character, or
      the default route when nothing is left. */
  function RouteKey(hash: string): (key: string)
    ensures key != ""
    ensures |hash| > 1 ==> hash == [hash[0]] + key
    ensures |hash| <= 1 ==> key == DefaultRoute
  {
    var k := JsString.SliceFrom1(hash);
    if k == "" then DefaultRoute else k
  }

  /** Navigating to a plain path makes the next resolution find exactly that path. */
  lemma NavigateThenResolve(path: string)
    requires path != "" && path[0] != '#'
    ensures RouteKey(AssignHash(path)) == path
  {
  }

  /** The links after the highlighting pass: the same links, and a link is active
      exactly when its href is `#` followed by the current page. */
  function Highlight(links: seq<NavLink>, current: string): (r: seq<NavLink>)
    ensures |r| == |links|
    ensures forall i :: 0 <= i < |r| ==> r[i].href == links[i].href
    ensures forall i :: 0 <= i < |r| ==> (r[i].active <==> links[i].href == "#" + current)
  {
    if links == [] then []
    else [NavLink(links[0].href, links[0].href == "#" + current)] + Highlight(links[1..], current)
  }

  /** Running the highlighting pass again for the same page changes nothing. */
  lemma HighlightIdempotent(links: seq<NavLink>, current: string)
    ensures Highlight(Highlight(links, current), current) == Highlight(links, current)
  {
    var once := Highlight(links, current);
    var twice := Highlight(once, current);
    assert forall i :: 0 <= i < |twice| ==> twice[i] == once[i];
  }

  /** When no two links share an href, at most one link is active afterwards. */
  lemma HighlightAtMostOne(links: seq<NavLink>, current: string)
    requires forall i, j :: 0 <= i < j < |links| ==> links[i].href != links[j].href
    ensures forall i, j :: 0 <= i < j < |links| ==>
      !(Highlight(links, current)[i].active && Highlight(links, current)[j].active)
  {
  }

  class Router {
    /** The route table: key to handler. */
    var routes: map<string, Handler>
    /** The key of the last route dispatched. */
    var currentPage: string
    /** `window.location.hash`, including its leading `#` when not empty. */
    var hash: string
    /** The `#navmenu a` elements of the document. */
    var navLinks: seq<NavLink>
    /** The handlers run so far, in order. */
    var invoked: seq<Handler>

    constructor (initialHash: string, links: seq<NavLink>)
      ensures routes == map[] && currentPage == ""
      ensures hash == initialHash && navLinks == links && invoked == []
    {
      routes := map[];
      currentPage := "";
      hash := initialHash;
      navLinks := links;
      invoked := [];
    }

    /** Registers `handler` for `path`, replacing any earlier one. */
    method AddRoute(path: string, handler: Handler)
      modifies this
      ensures routes == old(routes)[path := handler]
      ensures currentPage == old(currentPage) && hash == old(hash)
      ensures navLinks == old(navLinks) && invoked == old(invoked)
    {
      routes := routes[path := handler];
    }

    /** Dispatches the current hash: a registered key becomes the current page,
      the navigation is highlighted for it and its handler runs once; any other
      key runs nothing and sends the browser to the default route. */
    method HandleRoute()
      modifies this
      ensures routes == old(routes)
      ensures var key := RouteKey(old(hash));
        if key in routes then
          && currentPage == key
          && navLinks == Highlight(old(navLinks), key)
          && invoked == old(invoked) + [routes[key]]
          && hash == old(hash)
        else
          && currentPage == old(currentPage)
          && navLinks == old(navLinks)
          && invoked == old(invoked)
          && hash == AssignHash(DefaultRoute)
    {
      var key := RouteKey(hash);
      if key in routes {
        var route := routes[key];
        currentPage := key;
        UpdateActiveNav();
        invoked := invoked + [route];
      } else {
        NavigateTo(DefaultRoute);
      }
    }

    /** Sets the location hash; the hash-change dispatch that the browser then
      fires is a separate call of `HandleRoute`. */
    method NavigateTo(path: string)
      modifies this
      ensures hash == AssignHash(path)
      ensures routes == old(routes) && currentPage == old(currentPage)
      ensures navLinks == old(navLinks) && invoked == old(invoked)
    {
      hash := AssignHash(path);
    }

    /** Clears `active` from every navigation link and sets it on those whose
      href is `#` followed by the current page. */
    method UpdateActiveNav()
      modifies this
      ensures navLinks == Highlight(old(navLinks), currentPage)
      ensures routes == old(routes) && currentPage == old(currentPage)
      ensures hash == old(hash) && invoked == old(invoked)
    {
      var i := 0;
      while i < |navLinks|
        invariant 0 <= i <= |navLinks| == |old(navLinks)|
        invariant forall k :: 0 <= k < i ==>
          navLinks[k] == NavLink(old(navLinks)[k].href, old(navLinks)[k].href == "#" + currentPage)
        invariant forall k :: i <= k < |navLinks| ==> navLinks[k] == old(navLinks)[k]
        invariant routes == old(routes) && currentPage == old(currentPage)
        invariant hash == old(hash) && invoked == old(invoked)
      {
        var link := navLinks[i].(active := false);
        if link.href == "#" + currentPage {
          link := link.(active := true);
        }
        navLinks := navLinks[i := link];
        i := i + 1;
      }
      ghost var h := Highlight(old(navLinks), currentPage);
      assert forall k :: 0 <= k < |h| ==> navLinks[k] == h[k];
    }
  }

  /** The eight routes registered at start-up, each loading the page of its own name. */
  function StartupRoutes(): map<string, Handler>
  {
    map[]
      ["dashboard" := LoadPage("dashboard")]
      ["login" := LoadPage("login")]
      ["register" := LoadPage("register")]
      ["zones" := LoadPage("zones")]
      ["spots" := LoadPage("spots")]
      ["reservations" := LoadPage("reservations")]
      ["vehicles" := LoadPage("vehicles")]
      ["users" := LoadPage("users")]
  }

  /** The start-up registrations, in the order the application makes them. */
  method RegisterStartupRoutes(router: Router)
    modifies router
    ensures router.routes == old(router.routes) + StartupRoutes()
    ensures router.currentPage == old(router.currentPage) && router.hash == old(router.hash)
    ensures router.navLinks == old(router.navLinks) && router.invoked == old(router.invoked)
  {
    ghost var base := old(router.routes);
    ghost var added: map<string, Handler> := map[];
    router.AddRoute("dashboard", LoadPage("dashboard"));
    UnionUpdate(base, added, "dashboard", LoadPage("dashboard"));
    added := added["dashboard" := LoadPage("dashboard")];
    assert router.routes == base + added;
    router.AddRoute("login", LoadPage("login"));
    UnionUpdate(base, added, "login", LoadPage("login"));
    added := added["login" := LoadPage("login")];
    assert router.routes == base + added;
    router.AddRoute("register", LoadPage("register"));
    UnionUpdate(base, added, "register", LoadPage("register"));
    added := added["register" := LoadPage("register")];
    assert router.routes == base + added;
    router.AddRoute("zones", LoadPage("zones"));
    UnionUpdate(base, added, "zones", LoadPage("zones"));
    added := added["zones" := LoadPage("zones")];
    assert router.routes == base + added;
    router.AddRoute("spots", LoadPage("spots"));
    UnionUpdate(base, added, "spots", LoadPage("spots"));
    added := added["spots" := LoadPage("spots")];
    assert router.routes == base + added;
    router.AddRoute("reservations", LoadPage("reservations"));
    UnionUpdate(base, added, "reservations", LoadPage("reservations"));
    added := added["reservations" := LoadPage("reservations")];
    assert router.routes == base + added;
    router.AddRoute("vehicles", LoadPage("vehicles"));
    UnionUpdate(base, added, "vehicles", LoadPage("vehicles"));
    added := added["vehicles" := LoadPage("vehicles")];
    assert router.routes == base + added;
    router.AddRoute("users", LoadPage("users"));
    UnionUpdate(base, added, "users", LoadPage("users"));
    added := added["users" := LoadPage("users")];
    assert router.routes == base + added;
  }

  /** Updating a union updates its right operand. */
  lemma UnionUpdate<K, V>(m: map<K, V>, n: map<K, V>, k: K, v: V)
    ensures (m + n)[k := v] == m + n[k := v]
  {
  }

  /** The page initialisation routines `initializePageScripts` can select. */
  datatype PageInit =
    | InitLogin | InitRegister | InitDashboard | InitZones
    | InitSpots | InitReservations | InitVehicles | InitUsers

  /** The page name each routine is selected by. */
  function PageName(p: PageInit): string
  {
    match p
    case InitLogin => "login"
    case InitRegister => "register"
    case InitDashboard => "dashboard"
    case InitZones => "zones"
    case InitSpots => "spots"
    case InitReservations => "reservations"
    case InitVehicles => "vehicles"
    case InitUsers => "users"
  }

  /** The names that have an initialisation routine. */
  const PageNames: set<string> :=
    {"login", "register", "dashboard", "zones", "spots", "reservations", "vehicles", "users"}

  /** The routine `initializePageScripts` runs for `name`: one exactly for the eight
      page names, selected by exact match, and none for any other name. */
  function PageInitFor(name: string): (r: Option<PageInit>)
    ensures r.Some? <==> name in PageNames
    ensures r.Some? ==> PageName(r.value) == name
  {
    if name == "login" then Some(InitLogin)
    else if name == "register" then Some(InitRegister)
    else if name == "dashboard" then Some(InitDashboard)
    else if name == "zones" then Some(InitZones)
    else if name == "spots" then Some(InitSpots)
    else if name == "reservations" then Some(InitReservations)
    else if name == "vehicles" then Some(InitVehicles)
    else if name == "users" then Some(InitUsers)
    else None
  }

  /** Every routine is selected by its own name, so no two routines share a name. */
  lemma PageInitRoundTrip(p: PageInit)
    ensures PageInitFor(PageName(p)) == Some(p)
  {
  }

  /** Every route registered at start-up loads a page that has an initialisation routine. */
  lemma StartupRoutesHaveInits()
    ensures StartupRoutes().Keys == PageNames
    ensures DefaultRoute in StartupRoutes()
    ensures forall k :: k in StartupRoutes() ==> StartupRoutes()[k] == LoadPage(k)
  {
  }

  /** The trace one call of `initializePageScripts` adds. */
  function InitsRun(name: string): seq<PageInit>
  {
    match PageInitFor(name)
    case Some(p) => [p]
    case None => []
  }

  /** The path a page is fetched from. */
  function PagePath(name: string): string
  {
    name + ".html"
  }

  /** A cache entry is used only when it is present and not the empty string. */
  predicate IsHit(cache: map<string, string>, name: string)
  {
    name in cache && cache[name] != ""
  }

  class PageLoader {
    /** The `#app` element's contents. */
    var container: Content
    /** Fetched markup by page name; filled on demand and never evicted. */
    var cache: map<string, string>
    /** The paths fetched so far, in order. */
    var requested: seq<string>
    /** The page initialisation routines run so far, in order. */
    var inits: seq<PageInit>

    /** Every cached page has been fetched at least once: its path is among the requests. */
    ghost predicate Valid()
      reads this
    {
      forall k :: k in cache ==> PagePath(k) in requested
    }

    constructor (initial: Content)
      ensures Valid()
      ensures container == initial && cache == map[] && requested == [] && inits == []
    {
      container := initial;
      cache := map[];
      requested := [];
      inits := [];
    }

    /** Shows page `pageName`: from the cache when it holds a non-empty entry, without
      fetching; otherwise from one fetch, whose ok body is cached. Both run the page's
      initialisation. A failed fetch leaves the cache alone, runs nothing and shows
      the not-found notice for the page with a link back to the dashboard. */
    method LoadPage(pageName: string, response: FetchResult)
      requires Valid()
      modifies this
      ensures Valid()
      ensures old(cache).Keys <= cache.Keys
      ensures IsHit(old(cache), pageName) ==>
        && container == Html(old(cache)[pageName])
        && cache == old(cache)
        && requested == old(requested)
        && inits == old(inits) + InitsRun(pageName)
      ensures !IsHit(old(cache), pageName) ==>
        && requested == old(requested) + [PagePath(pageName)]
        && match response
           case Ok(body) =>
             && cache == old(cache)[pageName := body]
             && container == Html(body)
             && inits == old(inits) + InitsRun(pageName)
           case _ =>
             && cache == old(cache)
             && container == PageNotFound(pageName, "#" + DefaultRoute)
             && inits == old(inits)
    {
      if IsHit(cache, pageName) {
        container := Html(cache[pageName]);
        InitializePageScripts(pageName);
        return;
      }
      requested := requested + [PagePath(pageName)];
      match response
      case Ok(body) =>
        cache := cache[pageName := body];
        container := Html(body);
        InitializePageScripts(pageName);
      case _ =>
        container := PageNotFound(pageName, "#" + DefaultRoute);
    }

    /** Runs the initialisation routine selected for `name`, if any. */
    method InitializePageScripts(name: string)
      modifies this
      ensures inits == old(inits) + InitsRun(name)
      ensures container == old(container) && cache == old(cache) && requested == old(requested)
    {
      var selected := PageInitFor(name);
      if selected.Some? {
        inits := inits + [selected.value];
      }
    }
  }
}
