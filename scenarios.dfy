/**
 * Whole-application walks through the pieces above: a visitor is bounced from
 * the dashboard to the login page, signs in and lands on the dashboard; both
 * logout buttons have the same effect; unknown paths and product pages.
 */
module Scenarios {
  import opened Paths
  import opened Browser
  import opened Session
  import opened Sitemap
  import opened App
  import opened LoginPage
  import opened NavigationBar
  import opened DashboardPage
  import Breadcrumbs
  import ProductDetailPage

  /** A fresh visitor opens `/dashboard`, is redirected to `/login`, fills in both
      fields and submits; the router then shows the dashboard and the bar offers Logout. */
  method SignInFlow(username: string, password: string)
    returns (first: Screen, message: string, last: Screen, items: seq<NavItem>)
    requires username != "" && password != ""
    ensures first == Redirect(LoginPath)
    ensures message == SuccessMessage
    ensures last == Show(Dashboard, map[], DashboardPath)
    ensures LogoutButton in items && NavLink(LoginPath, "Login") !in items
  {
    var window := new Window(map[], DashboardPath);
    DashboardScreen(window.location, window.storage);
    first := App.Navigate(window.location, window.storage);
    if first.Redirect? {
      window.Navigate(first.to);
    }
    var form := new LoginForm(window);
    form.HandleChange("username", username);
    form.HandleChange("password", password);
    message := form.HandleLogin();
    DashboardScreen(window.location, window.storage);
    last := App.Navigate(window.location, window.storage);
    var bar := new NavBar(window);
    items := bar.VisibleItems();
  }

  /** `handleLogin` on the untouched form alerts, stays on `/login` and stores nothing.
      (In a browser the inputs' `required` attribute keeps this submit from firing.) */
  method EmptySubmitStays() returns (message: string, storage: Storage, screen: Screen)
    ensures message == FailureMessage
    ensures storage == map[]
    ensures screen == Show(Login, map[], LoginPath)
  {
    var window := new Window(map[], LoginPath);
    var form := new LoginForm(window);
    message := form.HandleLogin();
    storage := window.storage;
    RedirectTargetPublic(window.location, storage);
    screen := App.Navigate(window.location, storage);
  }

  /** The navigation bar's and the dashboard's logout buttons leave the same
      state, from which the dashboard is guarded again. */
  method LogoutsAgree(start: Snapshot) returns (viaBar: Snapshot, viaDashboard: Snapshot)
    ensures viaBar == viaDashboard == LoggedOut(start)
    ensures App.Navigate(DashboardPath, viaBar.storage) == Redirect(LoginPath)
  {
    var w1 := new Window(start.storage, start.location);
    var bar := new NavBar(w1);
    bar.HandleLogout();
    viaBar := w1.State();
    var w2 := new Window(start.storage, start.location);
    var page := new Dashboard(w2);
    page.HandleLogout();
    viaDashboard := w2.State();
    DashboardScreen(DashboardPath, viaBar.storage);
  }

  /** The menu starts closed; one toggle opens it, a second closes it again. */
  method MenuToggledTwice(window: Window) returns (classes: seq<seq<string>>)
    ensures classes == [["nav-menu"], ["nav-menu", "open"], ["nav-menu"]]
  {
    var bar := new NavBar(window);
    classes := [ClassList(MenuClass(bar.menuOpen))];
    bar.ToggleMenu();
    classes := classes + [ClassList(MenuClass(bar.menuOpen))];
    bar.ToggleMenu();
    classes := classes + [ClassList(MenuClass(bar.menuOpen))];
  }

  /** A two-segment path outside the product section shows NotFound, echoing the path. */
  lemma UnknownTwoSegmentPath(a: string, b: string, storage: Storage)
    requires IsSegment(a) && IsSegment(b) && a != "products"
    ensures Navigate("/" + a + "/" + b, storage) == Show(NotFound, map[], "/" + a + "/" + b)
  {
    SegmentsOfTwo(a, b);
    ResolveByCases("/" + a + "/" + b);
  }

  /** Visiting `/products/<id>` for a catalogued id: the detail page is shown with
      the id, the product is found, and the trail is Home > Products > id. */
  lemma ProductVisit(id: string, storage: Storage)
    requires id in {"1", "2", "3", "4"}
    ensures Navigate("/products/" + id, storage) ==
      Show(ProductDetail, map["productId" := id], "/products/" + id)
    ensures ProductDetailPage.Render(id).Detail?
    ensures Breadcrumbs.Build("/products/" + id) == [
      Breadcrumbs.HomeCrumb,
      Breadcrumbs.Crumb("Products", "/products", false),
      Breadcrumbs.Crumb(id, "/products/" + id, true)]
  {
    assert IsSegment(id) && id !in Breadcrumbs.Labels;
    ProductPathResolves(id);
    Breadcrumbs.ProductTrail(id);
  }
}
