/** The protected dashboard page; its only behaviour is its logout button. */
module DashboardPage {
  import opened Browser
  import opened Session
  import opened Sitemap

  class Dashboard {
    const window: Window

    constructor (window: Window)
      ensures this.window == window
    {
      this.window := window;
    }

    /** `handleLogout`: remove the flag, go to the login page. */
    method HandleLogout()
      modifies window
      ensures window.State() == LoggedOut(old(window.State()))
    {
      window.RemoveItem(AuthKey);
      window.Navigate(LoginPath);
    }
  }
}
