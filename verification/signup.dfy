/**
 * The signup page: GET shows the form, POST checks the fields, creates the
 * account, logs it in and sets the session cookie
 * (crates/server/src/server/routes/signup.rs).
 */
module SignupRoute {
  import opened Wrappers
  import opened Text
  import opened Errors
  import opened DbTypes
  import opened Db
  import opened Accounts
  import opened Http

  const NO_USERNAME := "Must specify a username"
  const NO_PASSWORD := "must specify a password"

  datatype SignupForm = SignupForm(username: string, password: string, email: string)

  /** The form decoder: all three fields must be present. */
  function DecodeSignupForm(form: Form): (r: Result<SignupForm, Error>)
    ensures r.Ok? <==> "username" in form && "password" in form && "email" in form
    ensures r.Ok? ==> r.value == SignupForm(form["username"], form["password"], form["email"])
    ensures r.Err? ==> r.error == FormRejected
  {
    match (Field(form, "username"), Field(form, "password"), Field(form, "email"))
    case (Some(username), Some(password), Some(email)) => Ok(SignupForm(username, password, email))
    case _ => Err(FormRejected)
  }

  /**
   * The cookie a signup sets: the session token, valid for thirty days, with
   * no path, `Secure`, `SameSite` or `HttpOnly` attribute.
   */
  function SignupCookie(token: string, now: Instant): (c: Cookie)
    ensures c.name == AUTH_COOKIE_NAME && c.value == token
    ensures c.path.None? && !c.secure && c.sameSite.None? && !c.httpOnly
    ensures c.expires.Some?
    ensures now + TOKEN_LIFETIME <= MAX_TIME ==> c.expires.value == now + TOKEN_LIFETIME
    ensures now + TOKEN_LIFETIME > MAX_TIME ==> c.expires.value == MAX_TIME
  {
    Cookie(AUTH_COOKIE_NAME, token, None, false, None, false, Some(SaturatingAdd(now, TOKEN_LIFETIME)))
  }

  /** The pre-checks of `handler_signup_submit`, in order: username, email, password. */
  function CheckFields(data: SignupForm): (r: Result<(), Error>)
    ensures data.username == "" ==> r == Err(Message(NO_USERNAME))
    ensures data.username != "" && data.email == "" ==> r == Err(Message(NO_USERNAME))
    ensures data.username != "" && data.email != "" && data.password == "" ==> r == Err(Message(NO_PASSWORD))
    ensures r.Ok? <==> data.username != "" && data.email != "" && data.password != ""
  {
    if data.username == "" then Err(Message(NO_USERNAME))
    else if data.email == "" then Err(Message(NO_USERNAME))
    else if data.password == "" then Err(Message(NO_PASSWORD))
    else Ok(())
  }

  /** `handler_signup_submit`. */
  function SignupSubmit(s: Store, p: Primitives, key: string, form: Form, now: Instant): (r: Step<Response>)
    requires Valid(s)
    ensures Valid(r.store)
    ensures r.result.Err? ==> r.store == s
    ensures DecodeSignupForm(form).Err? ==> r.result == Err(FormRejected)
    ensures DecodeSignupForm(form).Ok? && CheckFields(DecodeSignupForm(form).value).Err? ==>
      r.result == Err(CheckFields(DecodeSignupForm(form).value).error)
    ensures r.result.Ok? ==>
      var data := DecodeSignupForm(form).value;
      var account := UserSignupAndLogin(s, p, key, Signup(data.username, data.email, data.password), now);
      && CheckFields(data).Ok?
      && account.result.Ok?
      && r.store == account.store
      && r.result.value == RedirectHome(SignupCookie(account.result.value.token, now))
    ensures DecodeSignupForm(form).Ok? && CheckFields(DecodeSignupForm(form).value).Ok? ==>
      var data := DecodeSignupForm(form).value;
      var account := UserSignupAndLogin(s, p, key, Signup(data.username, data.email, data.password), now);
      && (r.result.Ok? <==> account.result.Ok?)
      && (r.result.Err? ==> r.result.error == account.result.error)
  {
    match DecodeSignupForm(form)
    case Err(e) => Step(s, Err(e))
    case Ok(data) =>
      match CheckFields(data)
      case Err(e) => Step(s, Err(e))
      case Ok(_) =>
        var account := UserSignupAndLogin(s, p, key, Signup(data.username, data.email, data.password), now);
        match account.result
        case Err(e) => Step(account.store, Err(e))
        case Ok(session) => Step(account.store, Ok(RedirectHome(SignupCookie(session.token, now))))
  }

  /** `handler_signup`: GET shows the form; a failed POST shows it again with the error; other methods are not found. */
  function HandleSignup(s: Store, p: Primitives, key: string, verb: Method, form: Form, now: Instant): (r: Exchange)
    requires Valid(s)
    ensures Valid(r.store)
    ensures !verb.Post? ==> r.store == s
    ensures verb.Get? ==> r.response == HtmlOk(SignupPage(None))
    ensures verb.OtherMethod? ==> r.response == NotFound()
    ensures verb.Post? ==>
      var submit := SignupSubmit(s, p, key, form, now);
      && r.store == submit.store
      && (submit.result.Err? ==> r.response == HtmlOk(SignupPage(Some(submit.result.error))))
      && (submit.result.Ok? ==> r.response == submit.result.value)
    ensures r.response.status in {OK, SEE_OTHER, NOT_FOUND}
  {
    match verb
    case Get => Exchange(s, HtmlOk(SignupPage(None)))
    case Post =>
      var submit := SignupSubmit(s, p, key, form, now);
      (match submit.result
       case Ok(response) => Exchange(submit.store, response)
       case Err(e) => Exchange(submit.store, HtmlOk(SignupPage(Some(e)))))
    case OtherMethod(_) => Exchange(s, NotFound())
  }

  /** An empty email is reported with the username message. */
  lemma EmptyEmailReportsUsername(username: string, password: string)
    requires username != ""
    ensures CheckFields(SignupForm(username, password, "")) == Err(Message("Must specify a username"))
  {
  }

  /**
   * Signing up logs the new user in: the cookie of a successful signup
   * carries a token that loads the account just created.
   */
  lemma SignupCookieLoadsNewUser(s: Store, p: Primitives, key: string, form: Form, now: Instant)
    requires Valid(s) && TokensVerify(p)
    requires SignupSubmit(s, p, key, form, now).result.Ok?
    ensures var r := SignupSubmit(s, p, key, form, now);
      var cookie := r.result.value.setCookie.value;
      && cookie.name == AUTH_COOKIE_NAME
      && LoadUserForToken(r.store, p, key, cookie.value).Ok?
      && LoadUserForToken(r.store, p, key, cookie.value).value.username == form["username"]
      && LoadUserForToken(r.store, p, key, cookie.value).value.id !in s.users
  {
    var data := DecodeSignupForm(form).value;
    var signup := Signup(data.username, data.email, data.password);
    SignupTokenLoadsUser(s, p, key, signup, now);
  }
}
