/**
 * The navigation bar: four public links, a Dashboard link and a Login link
 * or Logout button chosen by the session flag, a menu toggle for small
 * screens, and the class names of its links and menu.
 */
module NavigationBar {
  import opened Wrappers
  import opened Strings
  import opened Browser
  import opened Session
  import opened Sitemap

  /** The class names of an element: the non-empty space-separated words of its `className`. */
  function ClassList(className: string): seq<string>
  {
    NonEmpty(Split(className, ' '))
  }

  predicate IsWord(w: string) { w != "" && ' ' !in w }

  lemma ClassListOfWords(a: string, b: string)
    requires IsWord(a) && (b == "" || IsWord(b))
    ensures ClassList(a + " " + b) == [a] + (if b == "" then [] else [b])
  {
    SplitConcat(a, ' ', b);
    assert a + [' '] + b == a + " " + b;
    SplitPlain(a, ' ');
    SplitPlain(b, ' ');
    NonEmptyConcat([a], [b]);
  }

  /** A template class name `${base} ${on ? modifier : ''}`: `base`, plus `modifier`
      exactly when `on`. */
  function Modified(base: string, modifier: string, on: bool): (className: string)
    requires IsWord(base) && IsWord(modifier)
    ensures ClassList(className) == if on then [base, modifier] else [base]
  {
    var state := if on then modifier else "";
    ClassListOfWords(base, state);
    base + " " + state
  }

  /** `navLinkClass`: a link's class names, with `active` exactly on the active link. */
  function NavLinkClass(isActive: bool): (className: string)
    ensures className == if isActive then "nav-link active" else "nav-link "
    ensures ClassList(className) == if isActive then ["nav-link", "active"] else ["nav-link"]
  {
    Modified("nav-link", "active", isActive)
  }

  /** The menu's class names: `open` is among them exactly when the menu is open. */
  function MenuClass(open: bool): (className: string)
    ensures className == if open then "nav-menu open" else "nav-menu "
    ensures ClassList(className) == if open then ["nav-menu", "open"] else ["nav-menu"]
  {
    Modified("nav-menu", "open", open)
  }

  datatype NavItem = NavLink(to: string, caption: string) | LogoutButton

  const PublicLinks := [
    NavLink(RootPath, "Home"), NavLink(AboutPath, "About"),
    NavLink(ProductsPath, "Products"), NavLink(ContactPath, "Contact")]

  /** The entries of the bar for a given `getItem('isAuthenticated')` result. */
  function Items(flag: Option<string>): (items: seq<NavItem>)
    ensures |items| == 5 + if Truthy(flag) then 1 else 0
    ensures items[..4] == PublicLinks
    ensures NavLink(DashboardPath, "Dashboard") in items <==> Truthy(flag)
    ensures LogoutButton in items <==> Truthy(flag)
    ensures NavLink(LoginPath, "Login") in items <==> !Truthy(flag)
    ensures Truthy(flag) ==> items[4..] == [NavLink(DashboardPath, "Dashboard"), LogoutButton]
    ensures !Truthy(flag) ==> items[4..] == [NavLink(LoginPath, "Login")]
  {
    PublicLinks
      + (if Truthy(flag) then [NavLink(DashboardPath, "Dashboard")] else [])
      + (if Truthy(flag) then [LogoutButton] else [NavLink(LoginPath, "Login")])
  }

  /** After a logout the bar offers Login and hides Dashboard; after a login the reverse. */
  lemma ItemsAfterSessionChange(s: Snapshot)
    ensures var after := Items(Get(LoggedOut(s).storage, AuthKey));
      NavLink(LoginPath, "Login") in after && NavLink(DashboardPath, "Dashboard") !in after
    ensures var after := Items(Get(LoggedIn(s).storage, AuthKey));
      LogoutButton in after && NavLink(DashboardPath, "Dashboard") in after
  {
  }

  class NavBar {
    const window: Window
    var menuOpen: bool

    constructor (window: Window)
      ensures this.window == window && !menuOpen
    {
      this.window := window;
      menuOpen := false;
    }

    /** The bar as rendered now: the flag is read from storage at render time. */
    function VisibleItems(): (items: seq<NavItem>)
      reads window
      ensures |items| >= 5 && items[..4] == PublicLinks
      ensures NavLink(DashboardPath, "Dashboard") in items <==> IsAuthenticated(window.storage)
      ensures LogoutButton in items <==> IsAuthenticated(window.storage)
      ensures NavLink(LoginPath, "Login") in items <==> !IsAuthenticated(window.storage)
    {
      Items(Get(window.storage, AuthKey))
    }

    /** The menu toggle button. */
    method ToggleMenu()
      modifies this
      ensures menuOpen == !old(menuOpen)
    {
      menuOpen := !menuOpen;
    }

    /** `handleLogout`: remove the flag, go to the login page. */
    method HandleLogout()
      modifies window
      ensures window.State() == LoggedOut(old(window.State()))
    {
      window.RemoveItem(AuthKey);
      window.Navigate(LoginPath);
    }
  }
}
