/** The hybrid router of the landing page (frontend/js/main.js): a hash names either
    an in-page section to scroll to or a view to fetch into `#app`. */
module HybridRouter {

  import opened Browser
  import JsString

  /** The sections that live inside the landing page. */
  const SectionIds: seq<string> := ["home", "about", "home-services", "contact"]

  /** Route key to the view fetched for it; `gallery` is served by `portfolio`. */
  const ViewRoutes: map<string, string> := map[
    "dashboard" := "dashboard",
    "zones" := "zones",
    "spots" := "spots",
    "reservations" := "reservations",
    "vehicles" := "vehicles",
    "users" := "users",
    "login" := "login",
    "register" := "register",
    "services" := "services",
    "gallery" := "portfolio"
  ]

  /** The view key used for every hash that names neither a section nor a view. */
  const DefaultView: string := "dashboard"

  /** `(location.hash || "").replace("#", "").trim()`: the first `#` removed, then
      the surrounding spaces. */
  function NormaliseHash(hash: string): (h: string)
    ensures JsString.IsTrimmed(h)
    ensures |h| <= |hash|
    ensures '#' !in hash ==> h == JsString.Trim(hash)
    ensures hash != [] && hash[0] == '#' ==> h == JsString.Trim(hash[1..])
  {
    var rest := JsString.RemoveFirst(hash, '#');
    assert hash != [] && hash[0] == '#' ==> rest == hash[1..] by {
      if hash != [] && hash[0] == '#' {
        JsString.RemoveFirstSplit([], '#', hash[1..]);
        assert [] + ['#'] + hash[1..] == hash;
      }
    }
    JsString.Trim(rest)
  }

  /** Wherever the first `#` stands, normalising removes it alone and trims the rest:
      `a + "#" + b` with no `#` in `a` normalises to the trim of `a + b`, so later
      `#` characters are kept. */
  lemma NormaliseSplit(a: string, b: string)
    requires '#' !in a
    ensures NormaliseHash(a + "#" + b) == JsString.Trim(a + b)
  {
    JsString.RemoveFirstSplit(a, '#', b);
    assert a + "#" + b == a + ['#'] + b;
  }

  /** What the router decides a hash is for. */
  datatype Route = Section(id: string) | View(name: string)

  /** The decision `routeFromHash` takes on the normalised hash `h`: a section when
      `h` is a section id; otherwise the view the table gives `h`, falling back to the
      default key. */
  function RouteFor(h: string): (r: Route)
    ensures r.Section? <==> h in SectionIds
    ensures r.Section? ==> r.id == h
    ensures r.View? ==> r.name in ViewRoutes.Values
  {
    if h in SectionIds then Section(h)
    else
      var view := if h in ViewRoutes then h else DefaultView;
      View(ViewRoutes[view])
  }

  /** The decision of `routeFromHash` on the raw hash: normalise it, then decide. */
  function RouteFromHash(hash: string): Route
  {
    RouteFor(NormaliseHash(hash))
  }

  /** The fallback key is in the table, and every view name is non-empty, so the
      truthiness test on `viewRoutes[hash]` is the same as membership. */
  lemma DefaultViewDefined()
    ensures DefaultView in ViewRoutes && ViewRoutes[DefaultView] == "dashboard"
    ensures forall k :: k in ViewRoutes ==> ViewRoutes[k] != ""
  {
  }

  /** No id is both a section and a view key, so the section-first order only
      decides between a section and the fallback. */
  lemma SectionsAndViewsDisjoint()
    ensures forall k :: k in SectionIds ==> k !in ViewRoutes
  {
  }

  /** A normalised hash that is a view key loads the view the table names. */
  lemma ViewKeyLoadsItsView(h: string)
    requires h in ViewRoutes
    ensures RouteFor(h) == View(ViewRoutes[h])
  {
    SectionsAndViewsDisjoint();
  }

  /** A normalised hash naming neither a section nor a view loads the dashboard. */
  lemma UnknownKeyLoadsDefault(h: string)
    requires h !in SectionIds && h !in ViewRoutes
    ensures RouteFor(h) == View("dashboard")
  {
    assert RouteFor(h) == View(ViewRoutes[DefaultView]);
    assert ViewRoutes[DefaultView] == "dashboard";
  }

  /** An absent or blank hash, with or without its `#`, normalises to the empty key;
      `b` may be empty. */
  lemma BlankHashNormalisesEmpty(b: string)
    requires JsString.AllSpaces(b)
    ensures NormaliseHash(b) == [] && NormaliseHash("#" + b) == []
  {
    assert '#' !in b;
    JsString.TrimExact(b, [], []);
    assert b + [] + [] == b;
    assert ("#" + b)[0] == '#' && ("#" + b)[1..] == b;
  }

  /** The empty key, which every absent or blank hash normalises to, loads the dashboard. */
  lemma EmptyKeyLoadsDefault()
    ensures RouteFor("") == View("dashboard")
  {
    UnknownKeyLoadsDefault("");
  }

  /** Every view key and section id has no space at either end. */
  lemma KeysTrimmed(k: string)
    requires k in ViewRoutes || k in SectionIds
    ensures JsString.IsTrimmed(k)
  {
    if k in SectionIds {
      assert k == "home" || k == "about" || k == "home-services" || k == "contact";
    } else {
      assert k == "dashboard" || k == "zones" || k == "spots" || k == "reservations"
        || k == "vehicles" || k == "users" || k == "login" || k == "register"
        || k == "services" || k == "gallery";
    }
  }

  /** A link `#k` to a view key `k` loads that key's view. */
  lemma {:induction false} ViewLinkResolves(k: string)
    requires k in ViewRoutes
    ensures RouteFromHash("#" + k) == View(ViewRoutes[k])
  {
    assert ("#" + k)[0] == '#' && ("#" + k)[1..] == k;
    KeysTrimmed(k);
    assert NormaliseHash("#" + k) == k;
    ViewKeyLoadsItsView(k);
  }

  /** The one renaming entry: the key `gallery` loads the `portfolio` view. */
  lemma GalleryLoadsPortfolio()
    ensures RouteFor("gallery") == View("portfolio")
  {
    ViewKeyLoadsItsView("gallery");
  }

  /** A link `#id` to a section scrolls to that section. */
  lemma {:induction false} SectionLinkResolves(id: string)
    requires id in SectionIds
    ensures RouteFromHash("#" + id) == Section(id)
  {
    assert ("#" + id)[0] == '#' && ("#" + id)[1..] == id;
    KeysTrimmed(id);
    assert NormaliseHash("#" + id) == id;
  }

  /** The path a view is fetched from (with `cache: "no-store"`). */
  function ViewPath(name: string): string
  {
    "./" + name + ".html"
  }

  /** The global a view's optional hook is looked up under. */
  function HookName(name: string): string
  {
    "init_" + name
  }

  /** The hook calls one bootstrap run adds: `init_<name>`, when that global is a function. */
  function HookCalls(name: string, hooks: set<string>): (r: seq<string>)
    ensures |r| <= 1
    ensures r != [] <==> HookName(name) in hooks
    ensures forall h :: h in r ==> h == HookName(name)
  {
    if HookName(name) in hooks then [HookName(name)] else []
  }

  /** The `.swiper` elements below index `n` that are not yet bound, in document order. */
  function UnboundBelow(bound: seq<bool>, n: nat): (r: seq<nat>)
    requires n <= |bound|
    ensures |r| <= n
  {
    if n == 0 then []
    else UnboundBelow(bound, n - 1) + (if !bound[n - 1] then [n - 1] else [])
  }

  /** Every index `UnboundBelow` lists is an unbound element below `n`, and the
      indices increase, so each is listed once. */
  lemma {:induction false} UnboundBelowSound(bound: seq<bool>, n: nat)
    requires n <= |bound|
    ensures forall j :: 0 <= j < |UnboundBelow(bound, n)| ==>
      UnboundBelow(bound, n)[j] < n && !bound[UnboundBelow(bound, n)[j]]
    ensures forall j, k :: 0 <= j < k < |UnboundBelow(bound, n)| ==>
      UnboundBelow(bound, n)[j] < UnboundBelow(bound, n)[k]
  {
    if n > 0 {
      UnboundBelowSound(bound, n - 1);
      var prefix := UnboundBelow(bound, n - 1);
      var r := UnboundBelow(bound, n);
      assert forall j :: 0 <= j < |prefix| ==> r[j] == prefix[j];
    }
  }

  /** Every unbound element below `n` is listed by `UnboundBelow`. */
  lemma {:induction false} UnboundBelowComplete(bound: seq<bool>, n: nat, i: nat)
    requires n <= |bound| && i < n && !bound[i]
    ensures i in UnboundBelow(bound, n)
  {
    if i < n - 1 {
      UnboundBelowComplete(bound, n - 1, i);
    }
  }

  /** The bound flags after a binding pass: every element bound when Swiper is loaded. */
  function AfterBinding(bound: seq<bool>, swiperLoaded: bool): (r: seq<bool>)
    ensures |r| == |bound|
    ensures forall i :: 0 <= i < |r| ==> (r[i] <==> swiperLoaded || bound[i])
  {
    if swiperLoaded then seq(|bound|, _ => true) else bound
  }

  /** The elements a binding pass constructs a Swiper on. */
  function NewlyBound(bound: seq<bool>, swiperLoaded: bool): seq<nat>
  {
    if swiperLoaded then UnboundBelow(bound, |bound|) else []
  }

  /** With Swiper loaded, a binding pass constructs on an element exactly when it
      is not yet bound, in document order; without Swiper it constructs on none. */
  lemma NewlyBoundExactlyUnbound(bound: seq<bool>, i: nat)
    ensures i in NewlyBound(bound, true) <==> i < |bound| && !bound[i]
    ensures forall j, k :: 0 <= j < k < |NewlyBound(bound, true)| ==>
      NewlyBound(bound, true)[j] < NewlyBound(bound, true)[k]
    ensures NewlyBound(bound, false) == []
  {
    UnboundBelowSound(bound, |bound|);
    if i < |bound| && !bound[i] {
      UnboundBelowComplete(bound, |bound|, i);
    }
  }

  /** A second binding pass constructs nothing: no element is ever bound twice. */
  lemma SecondBindingIsEmpty(bound: seq<bool>, swiperLoaded: bool)
    ensures NewlyBound(AfterBinding(bound, swiperLoaded), swiperLoaded) == []
    ensures AfterBinding(AfterBinding(bound, swiperLoaded), swiperLoaded) == AfterBinding(bound, swiperLoaded)
  {
    var once := AfterBinding(bound, swiperLoaded);
    if swiperLoaded {
      NoneUnboundWhenAllBound(once, |once|);
    }
  }

  /** Once every element is bound, none is left to bind. */
  lemma {:induction false} NoneUnboundWhenAllBound(bound: seq<bool>, n: nat)
    requires n <= |bound|
    requires forall i :: 0 <= i < |bound| ==> bound[i]
    ensures UnboundBelow(bound, n) == []
  {
    if n > 0 {
      NoneUnboundWhenAllBound(bound, n - 1);
    }
  }

  /** Each recorded Swiper construction is on a bound element, and no element has two. */
  ghost predicate BindingsConsistent(bound: seq<bool>, inits: seq<nat>)
  {
    && (forall j :: 0 <= j < |inits| ==> inits[j] < |bound| && bound[inits[j]])
    && (forall j, k :: 0 <= j < k < |inits| ==> inits[j] != inits[k])
  }

  /** A binding pass keeps the record consistent: the elements it records were
      unbound, so none of them was recorded before, and it records each at most once. */
  lemma BindingPassConsistent(bound: seq<bool>, inits: seq<nat>)
    requires BindingsConsistent(bound, inits)
    ensures BindingsConsistent(AfterBinding(bound, true), inits + NewlyBound(bound, true))
  {
    UnboundBelowSound(bound, |bound|);
    var after := AfterBinding(bound, true);
    var added := NewlyBound(bound, true);
    var all := inits + added;
    forall j | 0 <= j < |all|
      ensures all[j] < |after| && after[all[j]]
    {
      if j >= |inits| {
        assert all[j] == added[j - |inits|];
      }
    }
    forall j, k | 0 <= j < k < |all|
      ensures all[j] != all[k]
    {
      if k < |inits| {
      } else if j < |inits| {
        assert all[k] == added[k - |inits|];
        assert !bound[all[k]] && bound[inits[j]];
      } else {
        assert all[j] == added[j - |inits|] && all[k] == added[k - |inits|];
      }
    }
  }

  /** The `.swiper` pass over the elements in document order: each element not yet
      flagged gets a Swiper and the flag; a flagged one is skipped. */
  method BindUnbound(bound: seq<bool>, inits: seq<nat>) returns (bound': seq<bool>, inits': seq<nat>)
    requires BindingsConsistent(bound, inits)
    ensures bound' == AfterBinding(bound, true)
    ensures inits' == inits + NewlyBound(bound, true)
    ensures BindingsConsistent(bound', inits')
  {
    bound', inits' := bound, inits;
    var i := 0;
    while i < |bound'|
      invariant 0 <= i <= |bound'| == |bound|
      invariant forall k :: 0 <= k < i ==> bound'[k]
      invariant forall k :: i <= k < |bound'| ==> bound'[k] == bound[k]
      invariant inits' == inits + UnboundBelow(bound, i)
    {
      if !bound'[i] {
        inits' := inits' + [i];
        bound' := bound'[i := true];
      }
      i := i + 1;
    }
    assert forall k :: 0 <= k < |bound'| ==> bound'[k] == AfterBinding(bound, true)[k];
    BindingPassConsistent(bound, inits);
  }

  class ViewHost {
    /** The `#app` element's contents. */
    var appRoot: Content
    /** The paths fetched so far, in order. */
    var requested: seq<string>
    /** `dataset.swiperBound` of each `.swiper` element of the document. */
    var swiperBound: seq<bool>
    /** The indices of the elements a Swiper was constructed on, in order. */
    var swiperInits: seq<nat>
    /** The per-view hooks called so far, in order. */
    var hookCalls: seq<string>
    /** The sections scrolled to so far, in order. */
    var scrolledTo: seq<string>
    /** Whether the Swiper library is loaded (`window.Swiper`). */
    const swiperLoaded: bool
    /** The globals that hold a function. */
    const hooks: set<string>

    ghost predicate Valid()
      reads this`swiperBound, this`swiperInits
    {
      BindingsConsistent(swiperBound, swiperInits)
    }

    constructor (initial: Content, swipers: seq<bool>, loaded: bool, globals: set<string>)
      ensures Valid()
      ensures appRoot == initial && requested == [] && swiperBound == swipers
      ensures swiperInits == [] && hookCalls == [] && scrolledTo == []
      ensures swiperLoaded == loaded && hooks == globals
    {
      appRoot := initial;
      requested := [];
      swiperBound := swipers;
      swiperInits := [];
      hookCalls := [];
      scrolledTo := [];
      swiperLoaded := loaded;
      hooks := globals;
    }

    /** The state `loadView(name)` leaves behind: one fetch; on an ok response the body
      is shown and the bootstraps run for the same name; otherwise the error alert is
      shown (naming the view when the status is not ok) and nothing else happens. */
    twostate predicate ViewLoaded(name: string, response: FetchResult)
      reads this
    {
      && requested == old(requested) + [ViewPath(name)]
      && scrolledTo == old(scrolledTo)
      && match response
         case Ok(body) =>
           && appRoot == Html(body)
           && swiperBound == AfterBinding(old(swiperBound), swiperLoaded)
           && swiperInits == old(swiperInits) + NewlyBound(old(swiperBound), swiperLoaded)
           && hookCalls == old(hookCalls) + HookCalls(name, hooks)
         case NotOk =>
           && appRoot == ErrorAlert("View not found: " + name)
           && swiperBound == old(swiperBound) && swiperInits == old(swiperInits)
           && hookCalls == old(hookCalls)
         case Failed(message) =>
           && appRoot == ErrorAlert(message)
           && swiperBound == old(swiperBound) && swiperInits == old(swiperInits)
           && hookCalls == old(hookCalls)
    }

    /** The state acting on `route` leaves behind: a section is scrolled to and
      nothing else changes; a view is loaded as `ViewLoaded` says. */
    twostate predicate Routed(route: Route, response: FetchResult)
      reads this
    {
      match route
      case Section(id) =>
        && scrolledTo == old(scrolledTo) + [id]
        && appRoot == old(appRoot) && requested == old(requested)
        && swiperBound == old(swiperBound) && swiperInits == old(swiperInits)
        && hookCalls == old(hookCalls)
      case View(name) => ViewLoaded(name, response)
    }

    /** Decides the hash against the tables: a section is scrolled to and nothing is
      fetched; anything else loads the view the table gives it, or the default view. */
    method Navigate(hash: string, response: FetchResult)
      requires Valid()
      modifies this
      ensures Valid()
      ensures Routed(RouteFromHash(hash), response)
    {
      Follow(RouteFromHash(hash), response);
    }

    /** The two branches of the routing decision: scroll to the section, or load the view. */
    method Follow(route: Route, response: FetchResult)
      requires Valid()
      modifies this
      ensures Valid()
      ensures Routed(route, response)
    {
      match route
      case Section(id) =>
        scrolledTo := scrolledTo + [id];
      case View(name) =>
        LoadView(name, response);
    }

    /** Fetches view `name`, without any cache, and shows it or the error alert. */
    method LoadView(name: string, response: FetchResult)
      requires Valid()
      modifies this
      ensures Valid()
      ensures ViewLoaded(name, response)
    {
      requested := requested + [ViewPath(name)];
      match response
      case Ok(body) =>
        appRoot := Html(body);
        RunViewBootstraps(name);
      case NotOk =>
        appRoot := ErrorAlert("View not found: " + name);
      case Failed(message) =>
        appRoot := ErrorAlert(message);
    }

    /** Binds a Swiper to every `.swiper` element not yet flagged bound and flags it,
      then calls the view's `init_<name>` hook if that global is a function. */
    method RunViewBootstraps(name: string)
      requires Valid()
      modifies this
      ensures Valid()
      ensures swiperBound == AfterBinding(old(swiperBound), swiperLoaded)
      ensures swiperInits == old(swiperInits) + NewlyBound(old(swiperBound), swiperLoaded)
      ensures hookCalls == old(hookCalls) + HookCalls(name, hooks)
      ensures appRoot == old(appRoot) && requested == old(requested) && scrolledTo == old(scrolledTo)
    {
      if swiperLoaded {
        swiperBound, swiperInits := BindUnbound(swiperBound, swiperInits);
      }
      if HookName(name) in hooks {
        hookCalls := hookCalls + [HookName(name)];
      }
    }
  }
}
