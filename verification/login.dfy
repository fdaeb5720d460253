/**
 * The login page: GET shows the form, POST checks the fields, logs the
 * user in and sets the session cookie (crates/server/src/server/routes/login.rs).
 */
module LoginRoute {
  import opened Wrappers
  import opened Text
  import opened Errors
  import opened DbTypes
  import opened Db
  import opened Accounts
  import opened Http

  const NO_USERNAME := "Must specify a username"
  const NO_PASSWORD := "must specify a password"

  datatype LoginForm = LoginForm(user: string, password: string)

  /** The form decoder: both fields must be present. */
  function DecodeLoginForm(form: Form): (r: Result<LoginForm, Error>)
    ensures r.Ok? <==> "user" in form && "password" in form
    ensures r.Ok? ==> r.value == LoginForm(form["user"], form["password"])
    ensures r.Err? ==> r.error == FormRejected
  {
    match (Field(form, "user"), Field(form, "password"))
    case (Some(user), Some(password)) => Ok(LoginForm(user, password))
    case _ => Err(FormRejected)
  }

  /** `build_auth_cookie`: the session cookie, locked down and valid for thirty days. */
  function BuildAuthCookie(token: string, now: Instant): (c: Cookie)
    ensures c.name == AUTH_COOKIE_NAME && c.value == token
    ensures c.path == Some("/") && c.secure && c.sameSite == Some(Strict) && c.httpOnly
    ensures c.expires.Some?
    ensures now + TOKEN_LIFETIME <= MAX_TIME ==> c.expires.value == now + TOKEN_LIFETIME
    ensures now + TOKEN_LIFETIME > MAX_TIME ==> c.expires.value == MAX_TIME
  {
    var expires := SaturatingAdd(now, TOKEN_LIFETIME);
    Cookie(AUTH_COOKIE_NAME, token, Some("/"), true, Some(Strict), true, Some(expires))
  }

  /**
   * `handler_login_submit`. The emptiness checks look at the raw fields;
   * only the lookup trims the name.
   */
  function LoginSubmit(s: Store, p: Primitives, key: string, form: Form, now: Instant): (r: Result<Response, Error>)
    requires Valid(s)
    ensures DecodeLoginForm(form).Err? ==> r == Err(FormRejected)
    ensures DecodeLoginForm(form).Ok? ==>
      var data := DecodeLoginForm(form).value;
      && (data.user == "" ==> r == Err(Message(NO_USERNAME)))
      && (data.user != "" && data.password == "" ==> r == Err(Message(NO_PASSWORD)))
      && (data.user != "" && data.password != "" ==>
            var login := UserLogin(s, p, key, data.user, data.password, now);
            && (login.Err? ==> r == Err(login.error))
            && (login.Ok? ==> r == Ok(RedirectHome(BuildAuthCookie(login.value.token, now)))))
    ensures r.Ok? ==> r.value.status == SEE_OTHER && r.value.setCookie.Some?
  {
    var data :- DecodeLoginForm(form);
    if data.user == "" then Err(Message(NO_USERNAME))
    else if data.password == "" then Err(Message(NO_PASSWORD))
    else
      var session :- UserLogin(s, p, key, data.user, data.password, now);
      Ok(RedirectHome(BuildAuthCookie(session.token, now)))
  }

  /** `handler_login`: GET shows the form; a failed POST shows it again with the error; other methods are not found. */
  function HandleLogin(s: Store, p: Primitives, key: string, verb: Method, form: Form, now: Instant): (r: Response)
    requires Valid(s)
    ensures verb.Get? ==> r == HtmlOk(LoginPage(None))
    ensures verb.Post? && LoginSubmit(s, p, key, form, now).Err? ==>
      r == HtmlOk(LoginPage(Some(LoginSubmit(s, p, key, form, now).error)))
    ensures verb.Post? && LoginSubmit(s, p, key, form, now).Ok? ==> r == LoginSubmit(s, p, key, form, now).value
    ensures verb.OtherMethod? ==> r == NotFound()
    ensures r.status in {OK, SEE_OTHER, NOT_FOUND}
  {
    match verb
    case Get => HtmlOk(LoginPage(None))
    case Post =>
      (match LoginSubmit(s, p, key, form, now)
       case Ok(response) => response
       case Err(e) => HtmlOk(LoginPage(Some(e))))
    case OtherMethod(_) => NotFound()
  }

  /** A name of spaces passes the emptiness check and is looked up as the empty name. */
  lemma BlankNameIsLookedUp(s: Store, p: Primitives, key: string, now: Instant)
    requires Valid(s) && s.online && !HasUserNamed(s, "")
    ensures LoginSubmit(s, p, key, map["user" := " ", "password" := "secret"], now) == Err(Message(USER_NOT_FOUND))
  {
    var form := map["user" := " ", "password" := "secret"];
    assert form.Keys == {"user", "password"};
    assert Trim(" ") == "" by {
      assert AllWhitespace(" ") by {
        assert IsWhitespace(" "[0]);
      }
    }
  }

  /**
   * A successful login answers with a redirect whose cookie carries a token
   * that loads the same user back.
   */
  lemma LoginCookieLoadsUser(s: Store, p: Primitives, key: string, verb: Method, form: Form, now: Instant)
    requires Valid(s) && TokensVerify(p)
    requires HandleLogin(s, p, key, verb, form, now).status == SEE_OTHER
    ensures var r := HandleLogin(s, p, key, verb, form, now);
      && r.setCookie.Some? && r.setCookie.value.name == AUTH_COOKIE_NAME
      && LoadUserForToken(s, p, key, r.setCookie.value.value).Ok?
      && LoadUserForToken(s, p, key, r.setCookie.value.value).value.username == Trim(form["user"])
  {
    var data := DecodeLoginForm(form).value;
    var session := UserLogin(s, p, key, data.user, data.password, now).value;
    TokenLoadsIssuer(s, p, key, session.user, now);
  }
}
