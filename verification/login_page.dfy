/** The login page: form validation, the cleaned credentials it posts, the
    session update after a successful answer, and the two redirects. */
module LoginPage {
  import opened Outcomes
  import opened Text
  import Session
  import AdminGate

  /** The form: an email or username, and a password. */
  datatype Credentials = Credentials(login: string, password: string)

  /** At most one message per field. */
  datatype LoginErrors = LoginErrors(login: Option<string>, password: Option<string>)

  const LoginRequired := "Email or Username is required"
  const PasswordRequired := "Password is required"
  const LoginFailed := "Login failed. Please try again."
  const HomePath := "/"
  const SettingsPath := "/settings"

  /** `validateForm`: the login must not be blank once trimmed; the password
      is only checked for being empty, so white space alone passes. */
  function ValidateForm(c: Credentials): (e: LoginErrors)
    ensures e.login.Some? <==> AllSpace(c.login)
    ensures e.password.Some? <==> c.password == ""
    ensures e.login.Some? ==> e.login.value == LoginRequired
    ensures e.password.Some? ==> e.password.value == PasswordRequired
  {
    LoginErrors(
      if Trim(c.login) == "" then Some(LoginRequired) else None,
      if c.password == "" then Some(PasswordRequired) else None)
  }

  /** `Object.keys(tempErrors).length === 0`. */
  predicate NoErrors(e: LoginErrors)
  {
    e.login.None? && e.password.None?
  }

  /** The payload posted to `/login`: the login trimmed, the password as typed. */
  function Clean(c: Credentials): Credentials
  {
    Credentials(Trim(c.login), c.password)
  }

  /** What a successful `/login` answers. */
  datatype LoginResponse = LoginResponse(token: string, user: Session.SessionUser)

  /** Where the page goes after logging in: admins to the settings page,
      everyone else to the home page. */
  function PathAfterLogin(user: Session.SessionUser): (p: string)
    ensures p == SettingsPath <==> user.role == Some("admin")
    ensures p == HomePath <==> user.role != Some("admin")
  {
    if user.role == Some("admin") then SettingsPath else HomePath
  }

  /** Everything one press of "Sign In" does. */
  datatype Submit = Submit(
    errors: LoginErrors,
    request: Option<Credentials>,
    storage: Session.Storage,
    auth: Session.Auth,
    nav: Option<string>,
    failure: Option<string>)

  /** `handleSubmit`. Nothing is posted unless the form is valid; the context's
      `login` runs only on a successful answer, with exactly the returned token
      and user; a failed answer changes nothing and shows an error. */
  function HandleSubmit(c: Credentials, s: Session.Storage, a: Session.Auth,
                        codec: Session.Codec, resp: ApiResult<LoginResponse>): (r: Submit)
    ensures r.errors == ValidateForm(c)
    ensures r.request.Some? <==> NoErrors(ValidateForm(c))
    ensures r.request.Some? ==>
              r.request.value.login == Trim(c.login) && r.request.value.password == c.password
    ensures r.request.None? || resp.Fail? ==> r.storage == s && r.auth == a && r.nav.None?
    ensures r.failure.Some? <==> r.request.Some? && resp.Fail?
    ensures r.request.Some? && resp.Ok? ==>
              r.storage == Session.Login(s, codec, resp.data.token, resp.data.user).storage
    ensures r.request.Some? && resp.Ok? ==>
              r.auth == Session.Login(s, codec, resp.data.token, resp.data.user).auth
    ensures r.request.Some? && resp.Ok? ==> r.nav == Some(PathAfterLogin(resp.data.user))
  {
    var errors := ValidateForm(c);
    if !NoErrors(errors) then
      Submit(errors, None, s, a, None, None)
    else
      var request := Clean(c);
      match resp
      case Fail(_) => Submit(errors, Some(request), s, a, None, Some(ErrorText(resp, LoginFailed)))
      case Ok(data) =>
        var st := Session.Login(s, codec, data.token, data.user);
        Submit(errors, Some(request), st.storage, st.auth, Some(PathAfterLogin(data.user)), None)
  }

  /** The page's effect: with a token stored it goes to the home page. */
  function MountRedirect(s: Session.Storage): (nav: Option<string>)
    ensures nav.Some? <==> Session.Truthy(Session.GetItem(s, Session.TokenKey))
    ensures nav.Some? ==> nav.value == HomePath
  {
    if Session.Truthy(Session.GetItem(s, Session.TokenKey)) then Some(HomePath) else None
  }

  /** A password of spaces alone passes validation and is posted unchanged. */
  lemma BlankPasswordPosted(login: string, password: string)
    requires !AllSpace(login) && password != "" && AllSpace(password)
    ensures NoErrors(ValidateForm(Credentials(login, password)))
    ensures Clean(Credentials(login, password)).password == password
  {
  }

  /** After a successful sign-in with a non-empty token, revisiting the login
      page sends the user home. */
  lemma SignedInVisitorSentHome(c: Credentials, s: Session.Storage, a: Session.Auth,
                                codec: Session.Codec, data: LoginResponse)
    requires !AllSpace(c.login) && c.password != "" && data.token != ""
    ensures MountRedirect(HandleSubmit(c, s, a, codec, Ok(data)).storage) == Some(HomePath)
  {
  }

  /** The page sends a user to the settings page exactly when the admin
      wrapper guarding that page would render it for the session `login`
      has just set. */
  lemma SettingsPathIffGateRenders(s: Session.Storage, codec: Session.Codec, data: LoginResponse)
    ensures PathAfterLogin(data.user) == SettingsPath
            <==> AdminGate.Decide(Session.Login(s, codec, data.token, data.user).auth.isLoggedIn,
                                  Session.Login(s, codec, data.token, data.user).auth.userRole).render
  {
  }
}
