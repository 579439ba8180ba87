/**
 * The session flag: one storage key whose truthy value means "logged in".
 * Login sets it to "true" and goes to the dashboard; both logout buttons
 * (navigation bar and dashboard) remove it and go to the login page.
 */
module Session {
  import opened Wrappers
  import opened Browser
  import opened Sitemap

  const AuthKey := "isAuthenticated"

  /** `localStorage.getItem('isAuthenticated')` read as a boolean: any present
      non-empty string counts, not only "true". */
  function IsAuthenticated(storage: Storage): (flagged: bool)
    ensures flagged <==> AuthKey in storage && storage[AuthKey] != ""
  {
    Truthy(Get(storage, AuthKey))
  }

  /** The effect of a successful login on storage and location. */
  function LoggedIn(s: Snapshot): (after: Snapshot)
    ensures Get(after.storage, AuthKey) == Some("true")
    ensures IsAuthenticated(after.storage)
    ensures after.location == DashboardPath
    ensures forall k :: k != AuthKey ==> Get(after.storage, k) == Get(s.storage, k)
  {
    Snapshot(Put(s.storage, AuthKey, "true"), DashboardPath)
  }

  /** The effect of a logout on storage and location. */
  function LoggedOut(s: Snapshot): (after: Snapshot)
    ensures Get(after.storage, AuthKey) == None
    ensures !IsAuthenticated(after.storage)
    ensures after.location == LoginPath
    ensures forall k :: k != AuthKey ==> Get(after.storage, k) == Get(s.storage, k)
  {
    Snapshot(Delete(s.storage, AuthKey), LoginPath)
  }

  /** Logging in twice is logging in once: the flag stays "true". */
  lemma LoginIdempotent(s: Snapshot)
    ensures LoggedIn(LoggedIn(s)) == LoggedIn(s)
  {
    assert LoggedIn(LoggedIn(s)).storage == LoggedIn(s).storage;
  }

  /** Logging out twice is logging out once. */
  lemma LogoutIdempotent(s: Snapshot)
    ensures LoggedOut(LoggedOut(s)) == LoggedOut(s)
  {
  }

  /** The login destination does not depend on where the user came from:
      there is no memory of a requested protected path. */
  lemma LoginForgetsOrigin(storage: Storage, from1: string, from2: string)
    ensures LoggedIn(Snapshot(storage, from1)) == LoggedIn(Snapshot(storage, from2))
  {
  }
}
