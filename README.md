# Client-side navigation of the Exp-3 single-page app

This project models the navigation core of the Exp-3 React single-page
application and proves properties of it in Dafny. The model covers:

- **Breadcrumbs.** The pathname is split on `/` and empty segments are
  dropped. The trail is a Home link followed by one entry per segment. Each
  entry links to its cumulative path and carries a label from a fixed
  dictionary, or the raw segment when the segment is not a key. The last
  entry is the current one.
- **Route table.** Eight routes in declaration order. `/products/:productId`
  is the only route with a placeholder. `/dashboard` is the only guarded
  route. A final `*` catches everything else. The matcher works on segments:
  the first route that fits wins. A specificity ranking is also defined, and
  the model proves that both pick the same route for this table.
- **Session flag.** One `localStorage` key, `isAuthenticated`.
  - The login form sets the key to `"true"` and goes to `/dashboard`, but
    only when both fields are non-empty.
  - The navigation bar and the dashboard each have a logout button. Both
    remove the key and go to `/login`.
  - The navigation bar shows its Dashboard link and its Login/Logout choice
    according to the flag.
  - The browser (storage plus location) is a `Window` class whose methods
    change it in place. The form and the navigation bar are classes over it.
- **Product pages.**
  - The detail page looks the route's `productId` up in a four-entry
    dictionary. A missing key gives an entity-level "Product Not Found" page,
    which is not the router's 404.
  - The list page links each product to `/products/<id>`. The model proves
    that every such link reaches the detail page and finds its product.

Modules: `Wrappers` (Option), `Sitemap` (the app's fixed paths), `Strings` (JavaScript `split`/`join`/`filter`,
decimal rendering), `Paths` (segments of a pathname), `Breadcrumbs`,
`Browser` (storage map and the `Window` class), `Session`, `App` (route table,
matcher, guard), `LoginPage`, `NavigationBar`, `DashboardPage`,
`ProductDetailPage`, `ProductsPage`, `Scenarios` (whole-application walks).

## Model

| member | source | states |
|---|---|---|
| Strings.Split | Exp-3/src/components/Breadcrumbs.jsx:14 | `split` always yields at least one piece, and no piece contains the separator |
| Strings.NonEmpty | Exp-3/src/components/Breadcrumbs.jsx:14 | `filter(segment => segment)` keeps only non-empty strings, each taken from the input, and never lengthens the list |
| Strings.SplitConcat | Exp-3/src/components/Breadcrumbs.jsx:14 | splitting `a + sep + b` is splitting `a` followed by splitting `b` |
| Strings.Join | Exp-3/src/components/Breadcrumbs.jsx:21 | JavaScript `join`: the empty list gives `""`, one part gives itself, otherwise parts are separated by `sep`; `Strings.JoinSplit`, `Strings.SplitJoin` and `Strings.JoinSnoc` pin it down |
| Strings.JoinSplit | Exp-3/src/components/Breadcrumbs.jsx:14-21 | joining the pieces of a split gives back the original string |
| Strings.SplitJoin | Exp-3/src/components/Breadcrumbs.jsx:14-21 | splitting a join of separator-free parts gives back those parts |
| Strings.NonEmptyConcat | Exp-3/src/components/Breadcrumbs.jsx:14 | filtering distributes over concatenation |
| Strings.DecimalString | Exp-3/src/pages/Products.jsx:20 | the template rendering of a product id is a non-empty digit string with no leading zero |
| Strings.DecimalRoundTrip | Exp-3/src/pages/Products.jsx:20 | reading the rendered digits back gives the id |
| Strings.DecimalInjective | Exp-3/src/pages/Products.jsx:20 | two ids render to the same digits exactly when they are equal |
| Paths.Segments | Exp-3/src/components/Breadcrumbs.jsx:14 | every segment of a pathname is non-empty and free of `/` |
| Paths.SegmentsConcat | Exp-3/src/components/Breadcrumbs.jsx:14 | the segments of `a/b` are those of `a` followed by those of `b` |
| Paths.SlashesContributeNothing | Exp-3/src/components/Breadcrumbs.jsx:14 | a leading, trailing or doubled slash leaves the segment list unchanged |
| Paths.NoSegmentsIffOnlySlashes | Exp-3/src/components/Breadcrumbs.jsx:14 | a pathname has no segments exactly when it consists of slashes only |
| Paths.Rooted | Exp-3/src/components/Breadcrumbs.jsx:21 | `'/' + segments.join('/')`, also the shape of the product links; `Paths.SegmentsOfRooted` and `Paths.RootedSnoc` state its round trip and its growth by one segment |
| Paths.SegmentsOfRooted | Exp-3/src/components/Breadcrumbs.jsx:14-21 | `'/' + segments.join('/')` splits back into the same segments |
| Paths.RootedSnoc | Exp-3/src/components/Breadcrumbs.jsx:21 | the cumulative path of one more segment is the previous path plus `/segment` |
| Paths.SegmentsOfTwo | Exp-3/src/components/Breadcrumbs.jsx:14 | `/a/b` has exactly the segments `a` and `b` |
| Breadcrumbs.Label | Exp-3/src/components/Breadcrumbs.jsx:3-22 | a dictionary key shows its label; any other segment shows unchanged |
| Breadcrumbs.Labels | Exp-3/src/components/Breadcrumbs.jsx:3-10 | the label dictionary, key for key; `Breadcrumbs.LabelsTable` states its keys and that no label is empty |
| Breadcrumbs.LabelsTable | Exp-3/src/components/Breadcrumbs.jsx:3-10 | `BREADCRUMB_LABELS` has the six keys `''`, about, products, contact, login and dashboard, each with a non-empty label |
| Breadcrumbs.Build | Exp-3/src/components/Breadcrumbs.jsx:14-20 | the trail has one entry more than the path has segments, and starts with the Home link to `/` |
| Breadcrumbs.PathOfEntry | Exp-3/src/components/Breadcrumbs.jsx:18-21 | entry `i` links to `/` followed by the first `i` segments joined with `/` |
| Breadcrumbs.LabelOfEntry | Exp-3/src/components/Breadcrumbs.jsx:14-22 | segment entries are labelled from the dictionary or with the raw segment, which is never empty, so the `''` key is never used |
| Breadcrumbs.CurrentIsLast | Exp-3/src/components/Breadcrumbs.jsx:18-32 | an entry is current exactly when it is the last segment entry; for `/` nothing is current |
| Breadcrumbs.NextExtendsPath | Exp-3/src/components/Breadcrumbs.jsx:21 | each entry's path is a proper prefix of the next entry's path |
| Breadcrumbs.PathsNested | Exp-3/src/components/Breadcrumbs.jsx:21 | every earlier entry's path is a proper prefix of every later entry's path |
| Breadcrumbs.PathsDistinct | Exp-3/src/components/Breadcrumbs.jsx:21-26 | no two entries share a path, so the React keys are unique |
| Breadcrumbs.RebuildFromLast | Exp-3/src/components/Breadcrumbs.jsx:14-21 | building from the last entry's path gives the same segments and the same trail |
| Breadcrumbs.ProductTrail | Exp-3/src/components/Breadcrumbs.jsx:18-32 | `/products/<id>` gives Home, Products and the raw id as the current entry |
| App.Compile | Exp-3/src/App.jsx:24-42 | a route path compiles to one token per segment |
| App.MatchTokens | Exp-3/src/App.jsx:24-42 | the segment matcher: a match keeps earlier keys; without `*` it needs one segment per token, each literal equal to its segment, and binds every placeholder's name |
| App.MatchComplete | Exp-3/src/App.jsx:24-42 | conversely, a pattern without `*` matches every segment list of its length whose segments equal its literals |
| App.MatchBinds | Exp-3/src/App.jsx:27 | a placeholder is bound to the segment at its position, unless a later placeholder reuses its name |
| App.KeepsValue | Exp-3/src/App.jsx:24-42 | a binding made earlier keeps its value when the rest of the pattern never names it |
| App.PatternOf | Exp-3/src/App.jsx:24-42 | every route's declared path compiles to the pattern stored with it |
| App.FirstMatch | Exp-3/src/App.jsx:24-42 | returns the first route, in declaration order, that matches, with its bindings; none means no route matches |
| App.Resolve | Exp-3/src/App.jsx:24-42 | every pathname resolves to some route, which matches it, and no earlier route matches |
| App.BestMatch | Exp-3/src/App.jsx:24-42 | returns a matching route of maximal specificity, the earliest among equals; none means no route matches |
| App.RankingAgreesWithOrder | Exp-3/src/App.jsx:24-42 | for any table whose non-final routes never overlap and whose final route is the least specific, ranking and first-match agree |
| App.WildcardMatchesAll | Exp-3/src/App.jsx:42 | the `*` route matches every path and binds nothing |
| App.RouteMatches | Exp-3/src/App.jsx:24-42 | the exact set of segment lists each of the eight routes matches, and what `/products/:productId` binds |
| App.RootResolves | Exp-3/src/App.jsx:24 | `/` resolves to the Home route with no bindings |
| App.DeclaredPathResolves | Exp-3/src/App.jsx:24-39 | each declared path but `*` resolves to its own route: the static ones with no bindings, `/products/:productId` with `productId` bound to the literal text `:productId` |
| App.ResolveByCases | Exp-3/src/App.jsx:24-42 | resolution equals a reference decision on the shape of the segment list |
| App.NoOverlap | Exp-3/src/App.jsx:24-39 | no path matches two routes other than the wildcard |
| App.WildcardLeastSpecific | Exp-3/src/App.jsx:24-42 | every route but `*` is more specific than `*` |
| App.RankingAgreesForTable | Exp-3/src/App.jsx:24-42 | for this table, specificity ranking picks the route first-match picks, for every pathname |
| App.NotFoundIffNothingElseMatches | Exp-3/src/App.jsx:41-42 | a path resolves to NotFound exactly when no other route matches it |
| App.ProductPathResolves | Exp-3/src/App.jsx:27 | `/products/<x>` resolves to ProductDetail with `productId` bound to `x` |
| App.DeeperProductPathNotFound | Exp-3/src/App.jsx:27-42 | `/products/<x>/<y>` falls through to the wildcard |
| App.Table | Exp-3/src/App.jsx:24-42 | the eight routes in declaration order with their paths, patterns, views and guard flags; `App.TableShape`, `App.PatternOf` and `App.DeclaredPathResolves` state its shape |
| App.TableShape | Exp-3/src/App.jsx:24-42 | eight routes; `*` is last and nowhere else; only `/dashboard` is guarded; the only placeholder is `productId` of `/products/:productId` |
| App.Admits | Exp-3/src/App.jsx:32-39 | the assumed guard: a route of the table is let through exactly when it is not `/dashboard` or the session is authenticated |
| App.Navigate | Exp-3/src/App.jsx:32-39 | a redirect happens exactly for a guarded route and an unauthenticated session, and goes to `/login`; otherwise the route's view is shown with its bindings and the pathname |
| App.DashboardGuarded | Exp-3/src/App.jsx:32-39 | `/dashboard` is shown when authenticated and redirects to `/login` otherwise |
| App.DashboardScreen | Exp-3/src/App.jsx:32-39 | the same, for the literal pathname `/dashboard` |
| App.OthersUnguarded | Exp-3/src/App.jsx:24-42 | every other path is shown whatever the session |
| App.UnmatchedShowsNotFound | Exp-3/src/App.jsx:42 | an unmatched path shows NotFound, carrying the requested pathname |
| App.RedirectTargetPublic | Exp-3/src/App.jsx:29 | `/login` is shown in every session, so the guard's redirect cannot loop |
| Browser.Get | Exp-3/src/components/Navigation.jsx:6 | `getItem` finds a value exactly for a stored key |
| Browser.Put | Exp-3/src/pages/Login.jsx:21 | `setItem` stores the value under the key and changes no other key |
| Browser.Delete | Exp-3/src/components/Navigation.jsx:10 | `removeItem` leaves the key absent, changes no other key, and does nothing when the key is absent |
| Browser.Truthy | Exp-3/src/components/Navigation.jsx:50-57 | JavaScript truthiness of a `getItem` result or a form field: present and not the empty string |
| Browser.Window.SetItem | Exp-3/src/pages/Login.jsx:21 | the window's storage becomes the `Put` of the old storage; the location is unchanged |
| Browser.Window.RemoveItem | Exp-3/src/pages/Dashboard.jsx:7 | the window's storage becomes the `Delete` of the old storage; the location is unchanged |
| Browser.Window.Navigate | Exp-3/src/pages/Dashboard.jsx:8 | the location becomes the target; storage is unchanged |
| Session.IsAuthenticated | Exp-3/src/components/Navigation.jsx:6 | the flag counts exactly when the key is stored with a non-empty value, not only `"true"` |
| Session.LoggedIn | Exp-3/src/pages/Login.jsx:21-23 | after a login the flag is exactly `"true"`, the session is authenticated, the location is `/dashboard`, and no other key changes |
| Session.LoggedOut | Exp-3/src/components/Navigation.jsx:9-12 | after a logout the flag is absent, the session is not authenticated, the location is `/login`, and no other key changes |
| Session.LoginIdempotent | Exp-3/src/pages/Login.jsx:21 | logging in twice is logging in once |
| Session.LogoutIdempotent | Exp-3/src/pages/Dashboard.jsx:7 | logging out twice is logging out once |
| Session.LoginForgetsOrigin | Exp-3/src/pages/Login.jsx:23 | the login destination does not depend on the location the user came from |
| LoginPage.Submit | Exp-3/src/pages/Login.jsx:18-27 | the session ends authenticated exactly when both fields are filled or it already was; a filled form sets `"true"` and goes to `/dashboard`; an unfilled form changes nothing; no other key changes |
| LoginPage.CanSubmit | Exp-3/src/pages/Login.jsx:20 | the form can be submitted exactly when both the username and the password are present and non-empty |
| LoginPage.InitialCannotSubmit | Exp-3/src/pages/Login.jsx:5-20 | the initial empty form cannot be submitted |
| LoginPage.SubmitIdempotent | Exp-3/src/pages/Login.jsx:18-27 | submitting twice has the effect of submitting once |
| LoginPage.ChangeOtherFieldKeepsOutcome | Exp-3/src/pages/Login.jsx:11-20 | changing a field other than username and password does not change whether the form can be submitted |
| LoginPage.LoginForm.constructor | Exp-3/src/pages/Login.jsx:5-8 | the form starts with empty username and password |
| LoginPage.LoginForm.HandleChange | Exp-3/src/pages/Login.jsx:11-16 | only the named field takes the new value; every other field is unchanged |
| LoginPage.LoginForm.HandleLogin | Exp-3/src/pages/Login.jsx:18-27 | the window's new state is `Submit` of the form and the old state; the alert text is the success or the failure message accordingly |
| NavigationBar.ClassListOfWords | Exp-3/src/components/Navigation.jsx:14-29 | a word, a space and an optional word give one or two class names |
| NavigationBar.Modified | Exp-3/src/components/Navigation.jsx:14-29 | `navLinkClass` and the menu's class template give the base class, plus `active` or `open` exactly when the link is active or the menu open |
| NavigationBar.NavLinkClass | Exp-3/src/components/Navigation.jsx:14-15 | a link's class is `nav-link active` when active and `nav-link ` otherwise, that is `nav-link` plus `active` exactly when active |
| NavigationBar.MenuClass | Exp-3/src/components/Navigation.jsx:29 | the menu's class is `nav-menu open` when open and `nav-menu ` otherwise, that is `nav-menu` plus `open` exactly when open |
| NavigationBar.Items | Exp-3/src/components/Navigation.jsx:30-69 | the four public links always come first; when the flag is truthy they are followed by Dashboard then Logout, otherwise by Login alone |
| NavigationBar.ItemsAfterSessionChange | Exp-3/src/components/Navigation.jsx:50-69 | after a logout the bar offers Login and hides Dashboard; after a login it offers Logout and Dashboard |
| NavigationBar.NavBar.constructor | Exp-3/src/components/Navigation.jsx:7 | the menu starts closed |
| NavigationBar.NavBar.VisibleItems | Exp-3/src/components/Navigation.jsx:50-69 | the bar rendered from the stored flag: the public links first, Dashboard and Logout exactly when the session is authenticated, Login exactly when it is not |
| NavigationBar.NavBar.ToggleMenu | Exp-3/src/components/Navigation.jsx:24 | each toggle flips the menu |
| NavigationBar.NavBar.HandleLogout | Exp-3/src/components/Navigation.jsx:9-12 | the window's new state is `LoggedOut` of the old state |
| DashboardPage.Dashboard.HandleLogout | Exp-3/src/pages/Dashboard.jsx:6-9 | the window's new state is `LoggedOut` of the old state |
| ProductDetailPage.Catalog | Exp-3/src/pages/ProductDetail.jsx:3-56 | the four products with their ids, names, prices, descriptions and details; `ProductDetailPage.CatalogKeys` states its keys |
| ProductDetailPage.CatalogKeys | Exp-3/src/pages/ProductDetail.jsx:3-56 | `PRODUCTS` has exactly the keys 1 to 4; each entry's `id` renders to its key and each has five details |
| ProductDetailPage.Lookup | Exp-3/src/pages/ProductDetail.jsx:3-61 | a product is found exactly for the ids "1" to "4"; the product's id renders to the key, and it has five details |
| ProductDetailPage.Render | Exp-3/src/pages/ProductDetail.jsx:61-100 | "Product Not Found" appears exactly when the lookup fails; the details page shows the product's own fields in table order; both offer a way back to `/products` |
| ProductDetailPage.NonCanonicalIdsNotFound | Exp-3/src/pages/ProductDetail.jsx:61 | ids such as "01", " 1", "1.0" and "" are not found |
| ProductDetailPage.UnknownIdReachesPage | Exp-3/src/pages/ProductDetail.jsx:61-73 | an unknown id still routes to this page, which then shows "Product Not Found" |
| ProductsPage.LinkTo | Exp-3/src/pages/Products.jsx:20 | a card's link is the absolute path `/` + `products/<id>`, whose segments are `products` and the rendered id |
| ProductsPage.Cards | Exp-3/src/pages/Products.jsx:16-23 | one card per product, in list order, with its name, price and link |
| ProductsPage.Listing | Exp-3/src/pages/Products.jsx:3-8 | the four product summaries in display order; `ProductsPage.ListingIds` and `ProductsPage.ListingMatchesCatalog` state their ids and their agreement with the detail dictionary |
| ProductsPage.ListingIds | Exp-3/src/pages/Products.jsx:3-8 | four products with ids 1 to 4 in ascending order |
| ProductsPage.LinksDistinct | Exp-3/src/pages/Products.jsx:16-20 | no two cards link to the same path |
| ProductsPage.LinksReachProducts | Exp-3/src/pages/Products.jsx:20 | every card's link routes to ProductDetail with the product's id and finds the product there |
| ProductsPage.ListingMatchesCatalog | Exp-3/src/pages/Products.jsx:4-7 | the list and the detail dictionary agree on each product's id, name and price |
| Scenarios.SignInFlow | Exp-3/src/pages/Login.jsx:18-27 | a fresh visitor to `/dashboard` is redirected to `/login`; after filling both fields and submitting, the dashboard is shown and the bar offers Logout |
| Scenarios.EmptySubmitStays | Exp-3/src/pages/Login.jsx:24-26 | `handleLogin` on the untouched form alerts, stores nothing and stays on the login page |
| Scenarios.LogoutsAgree | Exp-3/src/pages/Dashboard.jsx:6-9 | the two logout buttons leave the same state, from which `/dashboard` redirects again |
| Scenarios.MenuToggledTwice | Exp-3/src/components/Navigation.jsx:7-29 | the menu is closed, then open, then closed again |
| Scenarios.UnknownTwoSegmentPath | Exp-3/src/pages/NotFound.jsx:11 | a two-segment path outside `/products` shows NotFound with the requested path |
| Scenarios.ProductVisit | Exp-3/src/pages/ProductDetail.jsx:59-61 | a catalogued product page is routed with its id, found, and given the trail Home, Products, id |

## Left out

- Route matching is react-router's, and its code is not part of this model. The model's matcher compares literal segments case-sensitively. It works on the segment list with empty segments dropped, so a trailing or doubled slash is ignored. The library's own choices on case and trailing slashes are not claimed. The library also percent-decodes parameters (`/products/%31` gives `productId` "1" and finds product 1); the model binds the raw segment, so `App.ProductPathResolves` and `ProductDetailPage.UnknownIdReachesPage` hold for undecoded segments only.
- App.WildcardMatchesAll: `*` matches any number of remaining segments, zero included, and binds nothing; the library's `*` splat parameter is not modelled.
- App.Table: each route stores its compiled pattern next to its path so that the matcher does not recompile literals; `App.PatternOf` proves that the two agree.
- App.Admits: `ProtectedRoute` (imported at Exp-3/src/App.jsx:6) is not part of this model. Its behaviour is assumed: admit when the flag is truthy, else redirect to `/login`. This matches how the flag is read in Exp-3/src/components/Navigation.jsx:6,50.
- Layout, history, `Outlet` and rendering are left out. JSX, `alert` and the breadcrumb separators are treated as outputs only. `alert` is modelled as the message that `HandleLogin` returns.
- `localStorage` is a string-to-string map. Durability across reloads and other tabs is not modelled.
- `e.preventDefault()` and the inputs' HTML `required` attributes are browser behaviour and are not modelled. In a browser, `required` blocks the submit of an empty field before `handleLogin` runs, so the failure alert at Exp-3/src/pages/Login.jsx:24-26 is reached only when the browser does not enforce `required`; `LoginPage.Submit` and `Scenarios.EmptySubmitStays` describe `handleLogin` itself.
- ProductDetailPage.Lookup: the product dictionary is a finite map, so "found exactly for 1 to 4" holds for that map only. In JavaScript, `/products/constructor` (or `__proto__`, `toString`) makes `PRODUCTS[productId]` truthy; `product.details.map` then throws (Exp-3/src/pages/ProductDetail.jsx:61,84) and the page crashes instead of showing "Product Not Found".
- Breadcrumbs.Label: the label dictionary is a finite map, so the model shows the raw segment for every non-key. In JavaScript, a segment naming an inherited property behaves differently. For `constructor`, `toString` or `hasOwnProperty` the lookup yields a function, which `|| segment` keeps and React does not render, so the entry has an empty label. For `__proto__` it yields `Object.prototype`, an object child that React refuses to render; since the breadcrumbs appear on every page (Exp-3/src/components/Layout.jsx:9), such a pathname fails to render at all.
- The `Add to Cart` button has no handler and is left out.
- Home, About, Layout and NotFound are static markup. NotFound echoes the requested path, which appears as the `pathname` of a NotFound screen. The Contact page is not part of this model.
- The Exp-2 and my-spa applications are not part of this model. They are component demos, network fetches and timer-driven forms.
