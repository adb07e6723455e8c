# Client-side routers of the parking-management front end

This project models the two client-side routers of a parking-management web front end, and proves properties of the models:

- **`Router` and `PageLoader`** (`frontend/js/spa-router.js`). `Router` keeps a route table, the current page and the location hash. It dispatches the hash to a registered handler, or redirects to `dashboard`. It highlights the navigation link of the current page. `PageLoader.loadPage` shows a page from a cache that it fills lazily and never evicts, or from one fetch. It runs one of eight page initialisation routines. On failure it shows a "page not found" notice.
- **The hybrid router** (`frontend/js/main.js`). `routeFromHash` normalises the hash and picks one of three outcomes: an in-page section to scroll to, a view from the `viewRoutes` table, or the default view. `loadView` always fetches and then shows either the body or an error alert. `runViewBootstraps` binds each `.swiper` element at most once and calls the view's optional `init_<name>` hook.

Modules:

- `JsString`: the ECMAScript string operations the routers use, with the standard's semantics. These are `slice(1)`, `indexOf`, `replace` with a one-character string pattern (it removes the first occurrence only) and `trim` (the WhiteSpace and LineTerminator characters).
- `Browser`: the fetch oracle `FetchResult` (`Ok(body)`, `NotOk`, `Failed(message)`). Also what a container shows (`Content`) and how `location.hash = v` reads back (`AssignHash`).
- `SpaRouter`: the `Router` and `PageLoader` classes, the start-up route table, and the page-initialisation dispatch.
- `HybridRouter`: the `sectionIds`, `viewRoutes` and `DEFAULT_VIEW` tables, the pure `RouteFromHash` decision (normalise, then `RouteFor`), and the `ViewHost` class for `loadView` and `runViewBootstraps`.
- `Scenarios`: client methods that use only the contracts above. They show that a redirect reaches `dashboard` after the hash change it causes. They also walk through the `zones` run, the `#foo` run, the empty-body re-fetch, and two loads of the same view.

Abstractions:

- A container's contents are a `Content` value. `Html(markup)` is fetched markup. `PageNotFound(page, backLink)` stands for the fixed notice that names the page and links to `#dashboard`. `ErrorAlert(message)` stands for the danger alert. The notices' HTML itself is not modelled.
- Navigation links are `(href, active)` pairs. `.swiper` elements are a sequence of `swiperBound` flags. The globals holding a function are a set of names.
- Every fetch is a parameter of the call that makes it. Each call is atomic given that one result.
- Handlers, page-initialisation routines, hook calls, Swiper constructions, fetched paths and scroll targets are recorded in trace fields, in order.
- The registered handlers are `LoadPage(page)` values. `Action(name)` stands for any other handler `AddRoute` could be given.

Behaviour of the code worth noting:

- `spa-router.js` fetches `<name>.html` without disabling the browser cache. Only `main.js` passes `cache: "no-store"`.
- A cache entry holding the empty string is not a hit, because the test is truthiness. So a page whose ok body is empty is fetched again on every load (`Scenarios.EmptyBodyScenario`). A page is fetched at most once only when its body is non-empty.
- For `loadView`, only a non-ok status produces `View not found: <name>`. A rejected fetch shows the error's own message, which does not name the view.
- An unknown route does not make `dashboard` current by itself. `handleRoute` only assigns the hash. The browser's hash change then calls `handleRoute` a second time (`Scenarios.RedirectToDefault`).

## Model

| member | source | states |
|---|---|---|
| `JsString.IndexOf` | frontend/js/main.js:87 | -1 exactly when the character is absent; otherwise an index of it with no earlier occurrence |
| `JsString.RemoveFirst` | frontend/js/main.js:87 | unchanged when the character is absent; otherwise the string with exactly its first occurrence (the one `IndexOf` finds) cut out, everything else kept in order |
| `JsString.RemoveFirstSplit` | frontend/js/main.js:87 | in `a + [c] + b` with no `c` in `a`, removing the first `c` leaves `a + b`, whatever `b` holds |
| `JsString.TrimStart` | frontend/js/main.js:87 | a suffix of the input that does not start with a space, and everything dropped is a space |
| `JsString.TrimEnd` | frontend/js/main.js:87 | a prefix of the input that does not end with a space, and everything dropped is a space |
| `JsString.Trim` | frontend/js/main.js:87 | the result is the part of the input between a run of leading spaces and a run of trailing spaces, with no space at either end; a trimmed string is returned unchanged |
| `JsString.TrimParts` | frontend/js/main.js:87 | a space-free-ended suffix after spaces, cut to a space-free-ended prefix before spaces, lies between two runs of spaces in the input |
| `JsString.TrimExact` | frontend/js/main.js:87 | for a trimmed `t` between two runs of spaces, the trim is exactly `t` |
| `JsString.TrimIdempotent` | frontend/js/main.js:87 | trimming twice equals trimming once |
| `Browser.AssignHash` | frontend/js/spa-router.js:35-37 | the hash read back is empty or starts with `#`; it is empty exactly for `""` and `"#"`; otherwise dropping its first character gives the assigned value minus one leading `#` |
| `SpaRouter.RouteKey` | frontend/js/spa-router.js:22 | the key is never empty; for a hash longer than one character it is the hash minus its first character; otherwise it is `dashboard` |
| `SpaRouter.NavigateThenResolve` | frontend/js/spa-router.js:22-37 | after navigating to a non-empty path with no leading `#`, the next resolution yields exactly that path |
| `SpaRouter.Highlight` | frontend/js/spa-router.js:40-48 | same number of links with the same hrefs; a link is active iff its href equals `#` + current page |
| `SpaRouter.HighlightIdempotent` | frontend/js/spa-router.js:40-48 | highlighting again for the same page changes nothing |
| `SpaRouter.HighlightAtMostOne` | frontend/js/spa-router.js:40-48 | with pairwise distinct hrefs, at most one link is active |
| `SpaRouter.Router.constructor` | frontend/js/spa-router.js:6-9 | empty route table, empty current page, nothing invoked |
| `SpaRouter.Router.AddRoute` | frontend/js/spa-router.js:16-18 | the table maps the path to the new handler, replacing any earlier one; every other key and all other state unchanged |
| `SpaRouter.Router.HandleRoute` | frontend/js/spa-router.js:21-32 | registered key: it becomes current, the links are highlighted for it, and its handler is appended to the trace exactly once. Unregistered key: no handler runs, current page and links unchanged, hash set to `#dashboard`. The table is unchanged in both cases |
| `SpaRouter.Router.NavigateTo` | frontend/js/spa-router.js:35-37 | only the hash changes, to what the browser reads back after the assignment |
| `SpaRouter.Router.UpdateActiveNav` | frontend/js/spa-router.js:40-48 | the links become the highlighting of the old links for the current page; nothing else changes |
| `SpaRouter.RegisterStartupRoutes` | frontend/js/spa-router.js:206-214 | the table becomes the old table updated with the eight start-up routes; nothing else changes |
| `SpaRouter.StartupRoutesHaveInits` | frontend/js/spa-router.js:207-214 | the start-up keys are exactly the eight page names, include `dashboard`, and each loads the page of its own name |
| `SpaRouter.PageInitFor` | frontend/js/spa-router.js:97-124 | a routine is selected iff the name is one of login, register, dashboard, zones, spots, reservations, vehicles, users, and the selected routine is the one for that name |
| `SpaRouter.PageInitRoundTrip` | frontend/js/spa-router.js:97-124 | each routine is selected by its own name (the dispatch is one-to-one) |
| `SpaRouter.PageLoader.constructor` | frontend/js/spa-router.js:53-56 | empty cache, no fetches, no inits, cache invariant established |
| `SpaRouter.PageLoader.InitializePageScripts` | frontend/js/spa-router.js:97-124 | appends the selected routine, if any, to the init trace; nothing else changes |
| `SpaRouter.PageLoader.LoadPage` | frontend/js/spa-router.js:59-94 | cache hit (present, non-empty): no fetch, shows the cached markup, cache unchanged, page init runs. Miss: one fetch of `<name>.html`. Ok: the cache gets the body, the body is shown, init runs. Otherwise: cache unchanged, no init, the not-found notice names the page and links to `#dashboard`. Keys are never lost. Every cache entry came from a fetch of its page |
| `HybridRouter.NormaliseHash` | frontend/js/main.js:87 | the result has no surrounding spaces and is no longer than the hash; a hash starting with `#` gives the trim of the rest; a hash without `#` gives its trim |
| `HybridRouter.NormaliseSplit` | frontend/js/main.js:87 | `a + "#" + b` with no `#` in `a` normalises to the trim of `a + b`: only the first `#` goes |
| `HybridRouter.RouteFor` | frontend/js/main.js:90-101 | on the normalised hash: a section exactly when it is a section id, and then that id; otherwise always a view name defined in the table |
| `HybridRouter.DefaultViewDefined` | frontend/js/main.js:13-26 | `DEFAULT_VIEW` is a key of `viewRoutes` naming `dashboard`; every view name is non-empty, so the truthiness test equals membership |
| `HybridRouter.SectionsAndViewsDisjoint` | frontend/js/main.js:5-24 | no section id is a view key |
| `HybridRouter.ViewKeyLoadsItsView` | frontend/js/main.js:100-101 | a normalised key that is a view key loads the view the table gives it, never the fallback |
| `HybridRouter.UnknownKeyLoadsDefault` | frontend/js/main.js:100-101 | a normalised key that is neither a section id nor a view key loads `dashboard` |
| `HybridRouter.BlankHashNormalisesEmpty` | frontend/js/main.js:87 | an absent or all-space hash, with or without its `#`, normalises to the empty key |
| `HybridRouter.EmptyKeyLoadsDefault` | frontend/js/main.js:100-101 | the empty key is no section and no view key, so it loads `dashboard` |
| `HybridRouter.KeysTrimmed` | frontend/js/main.js:5-24 | no section id or view key starts or ends with a space |
| `HybridRouter.ViewLinkResolves` | frontend/js/main.js:86-101 | `#k` for a view key `k` loads `viewRoutes[k]` |
| `HybridRouter.GalleryLoadsPortfolio` | frontend/js/main.js:13-24 | the key `gallery` loads the `portfolio` view: the one entry whose view differs from its key |
| `HybridRouter.SectionLinkResolves` | frontend/js/main.js:86-97 | `#id` for a section id is that section, with no view loaded |
| `HybridRouter.HookCalls` | frontend/js/main.js:81-82 | at most one call, exactly `init_<name>`, and present iff that global is a function |
| `HybridRouter.UnboundBelowSound` | frontend/js/main.js:69-75 | every index the pass lists is an unbound element below the bound, and the indices strictly increase (document order, none twice) |
| `HybridRouter.UnboundBelowComplete` | frontend/js/main.js:69-75 | every unbound element below the bound is listed |
| `HybridRouter.AfterBinding` | frontend/js/main.js:68-76 | same elements; an element is bound afterwards iff Swiper is loaded or it was already bound |
| `HybridRouter.NewlyBoundExactlyUnbound` | frontend/js/main.js:68-76 | with Swiper loaded, an element gets a Swiper exactly when it was not yet bound, in document order; without Swiper none does |
| `HybridRouter.SecondBindingIsEmpty` | frontend/js/main.js:68-76 | a second binding pass constructs on no element and leaves the flags as they are |
| `HybridRouter.NoneUnboundWhenAllBound` | frontend/js/main.js:69-75 | when every flag is set, no index is left to bind |
| `HybridRouter.BindingPassConsistent` | frontend/js/main.js:69-75 | after a pass every recorded element is bound and no element has been recorded twice, given that this held before |
| `HybridRouter.BindUnbound` | frontend/js/main.js:69-75 | the loop over the `.swiper` elements flags every element, records a Swiper for exactly the previously unbound ones in order, and keeps the record consistent |
| `HybridRouter.ViewHost.constructor` | frontend/js/main.js:2 | empty traces, the given contents, flags and globals; the binding invariant holds |
| `HybridRouter.ViewHost.Navigate` | frontend/js/main.js:86-102 | the effect is exactly that of acting on the route `RouteFromHash` decides for the hash |
| `HybridRouter.ViewHost.Follow` | frontend/js/main.js:90-101 | section: scrolls to it, nothing fetched, nothing else changes. View: exactly the effect of `loadView` for that name |
| `HybridRouter.ViewHost.LoadView` | frontend/js/main.js:42-57 | always one fetch of `./<name>.html`. Ok: the body is shown and the bootstraps run with the same name. Non-ok: the alert reads `View not found: <name>`. Rejected: the alert shows the error message. When not ok, no slider is bound and no hook is called |
| `HybridRouter.ViewHost.RunViewBootstraps` | frontend/js/main.js:60-83 | with Swiper loaded, every unbound element is bound and recorded, in document order, and none is recorded twice across calls; the hook trace gains `init_<name>` iff it is a function |
| `Scenarios.RedirectToDefault` | frontend/js/spa-router.js:21-37 | when `dashboard` is registered, an unknown key followed by the hash change it causes makes `dashboard` current and runs its handler exactly once |
| `Scenarios.RepeatedViewLoad` | frontend/js/main.js:42-83 | loading one view twice fetches twice, and no element the first load bound is bound again (over a fixed element list) |

## Left out

- `ApiService.request` (frontend/js/spa-router.js:167-192): a `fetch` plus JSON decoding, with nothing beyond the fetch oracle to state.
- `handleLogin` and `handleRegister` (frontend/js/spa-router.js:218-255): form data, `localStorage` and `alert`. They call `apiService.login` and `apiService.register`, which `ApiService` does not define, so the source has no success path to model.
- The page initialisation routines' bodies (frontend/js/spa-router.js:127-163) and the data loaders they call (258-286). The loaders are empty stubs. The model records which routine runs, not what it does.
- `showMessage` (frontend/js/spa-router.js:289-307): DOM construction and a timer.
- `scrollToSection` and the scroll after `loadView` (frontend/js/main.js:29-39, 49-53): layout measurements in floating-point pixels. The model records only the section scrolled to.
- AOS, GLightbox, Swiper construction options and PureCounter (frontend/js/main.js:61-78): foreign libraries. Only the `swiperBound` flag and the record of which element a Swiper was constructed on are kept.
- Overlapping asynchronous `loadPage`/`loadView` calls: the interleaving of their fetches is concurrency. Each call is atomic given its one fetch result.
- The `hashchange`, `load` and `DOMContentLoaded` listeners (frontend/js/spa-router.js:11-12, 195-205; frontend/js/main.js:104-105). The browser's re-entry into `handleRoute` after a hash assignment is an explicit second call by a client.
- JavaScript prototype-chain lookups: `routes['constructor']` and `viewRoutes['toString']` are truthy in the source. The tables are finite maps, so such keys are unregistered in the model.
- The percent-encoding the URL parser applies when the hash is assigned. Also `char` is a Unicode scalar value here, not a UTF-16 code unit.
- Which `.swiper` elements the injected markup adds or removes. The element list is state of the host that only the binding pass changes. `innerHTML = html` in the source replaces the view's `.swiper` elements with fresh, unflagged ones, which the next pass binds.
- Scenarios.RepeatedViewLoad: holds over the fixed element list only. In the program, a second load re-creates the view's `.swiper` elements and binds those new ones.
- A missing `#app` element, a missing `href` attribute, and an exception thrown by a hook. The model assumes the container exists, every link has an href, and hooks return normally.
- What a handler does once it runs: its effect (the `loadPage` it starts) is recorded in the trace, not performed by the router. `Scenarios.ZonesScenario` performs it as the next step.
