/**
 * The login form: two controlled fields and a submit handler that accepts
 * any non-empty username and password, sets the session flag and goes to
 * the dashboard.
 */
module LoginPage {
  import opened Wrappers
  import opened Browser
  import opened Session
  import opened Sitemap

  /** The form state: field name to current value. */
  type Credentials = map<string, string>

  const InitialCredentials: Credentials := map["username" := "", "password" := ""]

  const SuccessMessage := "Login successful!"
  const FailureMessage := "Please enter username and password"

  /** `credentials.username && credentials.password`. */
  function CanSubmit(c: Credentials): (ok: bool)
    ensures ok <==> "username" in c && c["username"] != "" && "password" in c && c["password"] != ""
  {
    Truthy(Get(c, "username")) && Truthy(Get(c, "password"))
  }

  /** The effect of submitting the form: log in when both fields are filled,
      otherwise change nothing. */
  function Submit(c: Credentials, s: Snapshot): (after: Snapshot)
    ensures IsAuthenticated(after.storage) <==> CanSubmit(c) || IsAuthenticated(s.storage)
    ensures CanSubmit(c) ==> Get(after.storage, AuthKey) == Some("true") && after.location == DashboardPath
    ensures !CanSubmit(c) ==> after == s
    ensures forall k :: k != AuthKey ==> Get(after.storage, k) == Get(s.storage, k)
  {
    if CanSubmit(c) then LoggedIn(s) else s
  }

  /** The empty initial form cannot be submitted. */
  lemma InitialCannotSubmit()
    ensures !CanSubmit(InitialCredentials)
  {
  }

  /** Submitting twice has the effect of submitting once. */
  lemma SubmitIdempotent(c: Credentials, s: Snapshot)
    ensures Submit(c, Submit(c, s)) == Submit(c, s)
  {
    if CanSubmit(c) {
      LoginIdempotent(s);
    }
  }

  /** Changing a field only affects submission through that field. */
  lemma ChangeOtherFieldKeepsOutcome(c: Credentials, name: string, value: string)
    requires name != "username" && name != "password"
    ensures CanSubmit(c[name := value]) == CanSubmit(c)
  {
  }

  class LoginForm {
    const window: Window
    var credentials: Credentials

    constructor (window: Window)
      ensures this.window == window && credentials == InitialCredentials
    {
      this.window := window;
      credentials := InitialCredentials;
    }

    /** `handleChange`: the input named `name` now holds `value`; every other field is kept. */
    method HandleChange(name: string, value: string)
      modifies this
      ensures credentials == old(credentials)[name := value]
      ensures Get(credentials, name) == Some(value)
      ensures forall k :: k != name ==> Get(credentials, k) == Get(old(credentials), k)
    {
      credentials := credentials[name := value];
    }

    /** `handleLogin`: returns the text of the alert it shows. */
    method HandleLogin() returns (message: string)
      modifies window
      ensures window.State() == Submit(credentials, old(window.State()))
      ensures message == if CanSubmit(credentials) then SuccessMessage else FailureMessage
    {
      if CanSubmit(credentials) {
        window.SetItem(AuthKey, "true");
        message := SuccessMessage;
        window.Navigate(DashboardPath);
      } else {
        message := FailureMessage;
      }
    }
  }
}
