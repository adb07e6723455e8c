/** Clients of the two routers: what a caller can conclude from their contracts alone. */
module Scenarios {

  import opened Browser
  import opened SpaRouter
  import HybridRouter

  /** An unknown route redirects, and the hash change that redirect causes then
      dispatches the default route: its handler runs once and it becomes current. */
  method RedirectToDefault(router: Router)
    requires DefaultRoute in router.routes
    requires RouteKey(router.hash) !in router.routes
    modifies router
    ensures router.routes == old(router.routes)
    ensures router.currentPage == DefaultRoute
    ensures router.invoked == old(router.invoked) + [old(router.routes)[DefaultRoute]]
    ensures router.hash == "#" + DefaultRoute
  {
    router.HandleRoute();
    assert router.hash == "#dashboard";
    assert RouteKey(router.hash) == DefaultRoute;
    router.HandleRoute();
  }

  /** Route `zones` dispatched, its page fetched with body `<h1>Zones</h1>` and then
      loaded again from the cache without a second fetch. */
  method ZonesScenario(links: seq<NavLink>)
  {
    var router := new Router("#zones", links);
    RegisterStartupRoutes(router);
    assert router.routes == StartupRoutes();
    assert RouteKey("#zones") == "zones";
    assert StartupRoutes()["zones"] == LoadPage("zones");
    router.HandleRoute();
    assert router.currentPage == "zones";
    assert router.invoked == [LoadPage("zones")];

    var loader := new PageLoader(Html(""));
    assert PagePath("zones") == "zones.html";
    loader.LoadPage("zones", Ok("<h1>Zones</h1>"));
    assert loader.container == Html("<h1>Zones</h1>");
    assert loader.cache == map["zones" := "<h1>Zones</h1>"];
    assert loader.requested == ["zones.html"];
    assert loader.inits == [InitZones];

    loader.LoadPage("zones", NotOk);
    assert loader.requested == ["zones.html"];
    assert loader.container == Html("<h1>Zones</h1>");
    assert loader.inits == [InitZones, InitZones];
  }

  /** Hash `#foo` on a freshly started router: nothing runs, the hash becomes
      `#dashboard`, and the following dispatch loads the dashboard. */
  method UnknownHashScenario(links: seq<NavLink>)
  {
    var router := new Router("#foo", links);
    RegisterStartupRoutes(router);
    assert router.routes == StartupRoutes();
    assert RouteKey("#foo") == "foo";
    assert "foo" !in StartupRoutes();
    router.HandleRoute();
    assert router.invoked == [] && router.currentPage == "";
    assert router.hash == "#dashboard";
    NavigateThenResolve(DefaultRoute);
    assert DefaultRoute in StartupRoutes();
    router.HandleRoute();
    assert router.currentPage == "dashboard" && router.invoked == [LoadPage("dashboard")];
  }

  /** A page whose ok body is empty is cached as "", which is not a hit: the next
      load fetches it again. A failed fetch leaves the cache as it was. */
  method EmptyBodyScenario()
  {
    var loader := new PageLoader(Html(""));
    assert PagePath("spots") == "spots.html";
    loader.LoadPage("spots", Ok(""));
    loader.LoadPage("spots", Failed("network"));
    assert loader.requested == ["spots.html", "spots.html"];
    assert loader.cache == map["spots" := ""];
    assert loader.container == PageNotFound("spots", "#dashboard");
    assert loader.inits == [InitSpots];
  }

  /** The same view loaded twice, the first time successfully: both loads fetch
      (there is no view cache), and no element the first load bound is bound again.
      The element list is fixed here: the fresh, unflagged `.swiper` elements that the
      injected markup creates on each load are not modelled. */
  method RepeatedViewLoad(host: HybridRouter.ViewHost, name: string, first: FetchResult, second: FetchResult)
    requires host.Valid()
    requires first.Ok?
    modifies host
    ensures host.Valid()
    ensures host.requested == old(host.requested) + [HybridRouter.ViewPath(name), HybridRouter.ViewPath(name)]
    ensures host.swiperInits == old(host.swiperInits) + HybridRouter.NewlyBound(old(host.swiperBound), host.swiperLoaded)
  {
    host.LoadView(name, first);
    HybridRouter.SecondBindingIsEmpty(old(host.swiperBound), host.swiperLoaded);
    host.LoadView(name, second);
  }
}
