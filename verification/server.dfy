/**
 * The request entry point: configuration from the environment, path
 * splitting, session resolution from the auth cookie, dispatch to the
 * route handlers, and the mapping of handler errors to an error page
 * (crates/server/src/server/mod.rs).
 */
module Server {
  import opened Wrappers
  import opened Text
  import opened Errors
  import opened DbTypes
  import opened Db
  import opened Accounts
  import opened Http
  import opened DashboardRoute
  import opened LoginRoute
  import opened SignupRoute
  import opened StartRoute
  import opened FinishRoute

  // ---------------------------------------------------------------------------
  // Configuration
  // ---------------------------------------------------------------------------

  datatype Config = Config(endpoint: string, apiKey: string, tokenSecret: string)

  /** The error for an absent or blank variable. */
  function MissingVar(name: string): Error {
    Message("Missing required env var " + name)
  }

  /** A variable's trimmed value; absent and all-blank values are both missing. */
  function RequiredVar(env: map<string, string>, name: string): (r: Result<string, Error>)
    ensures r.Ok? <==> name in env && !AllWhitespace(env[name])
    ensures r.Ok? ==> r.value == Trim(env[name]) && r.value != ""
    ensures r.Err? ==> r.error == MissingVar(name)
  {
    if name in env && Trim(env[name]) != "" then Ok(Trim(env[name]))
    else Err(MissingVar(name))
  }

  /** `Config::from_env`: the backend endpoint, its key and the token secret, read in that order. */
  function ConfigFromEnv(env: map<string, string>): (r: Result<Config, Error>)
    ensures r.Ok? <==>
      && "SUPABASE_ENDPOINT" in env && !AllWhitespace(env["SUPABASE_ENDPOINT"])
      && "SUPABASE_KEY" in env && !AllWhitespace(env["SUPABASE_KEY"])
      && "TIMELY_TOKEN_SECRET" in env && !AllWhitespace(env["TIMELY_TOKEN_SECRET"])
    ensures r.Ok? ==>
      && r.value.endpoint == Trim(env["SUPABASE_ENDPOINT"])
      && r.value.apiKey == Trim(env["SUPABASE_KEY"])
      && r.value.tokenSecret == Trim(env["TIMELY_TOKEN_SECRET"])
    ensures ("SUPABASE_ENDPOINT" !in env || AllWhitespace(env["SUPABASE_ENDPOINT"])) ==>
      r == Err(MissingVar("SUPABASE_ENDPOINT"))
    ensures (&& "SUPABASE_ENDPOINT" in env && !AllWhitespace(env["SUPABASE_ENDPOINT"])
             && ("SUPABASE_KEY" !in env || AllWhitespace(env["SUPABASE_KEY"]))) ==>
      r == Err(MissingVar("SUPABASE_KEY"))
    ensures (&& "SUPABASE_ENDPOINT" in env && !AllWhitespace(env["SUPABASE_ENDPOINT"])
             && "SUPABASE_KEY" in env && !AllWhitespace(env["SUPABASE_KEY"])
             && ("TIMELY_TOKEN_SECRET" !in env || AllWhitespace(env["TIMELY_TOKEN_SECRET"]))) ==>
      r == Err(MissingVar("TIMELY_TOKEN_SECRET"))
  {
    match RequiredVar(env, "SUPABASE_ENDPOINT")
    case Err(e) => Err(e)
    case Ok(endpoint) =>
      match RequiredVar(env, "SUPABASE_KEY")
      case Err(e) => Err(e)
      case Ok(apiKey) =>
        match RequiredVar(env, "TIMELY_TOKEN_SECRET")
        case Err(e) => Err(e)
        case Ok(tokenSecret) => Ok(Config(endpoint, apiKey, tokenSecret))
  }

  // ---------------------------------------------------------------------------
  // Paths and routes
  // ---------------------------------------------------------------------------

  /** The path without one leading `/`, split at every `/`. */
  function SplitPath(path: string): (parts: seq<string>)
    ensures |parts| >= 1
    ensures Join(parts, '/') == DropLeading(path, '/')
    ensures forall i :: 0 <= i < |parts| ==> '/' !in parts[i]
  {
    Split(DropLeading(path, '/'), '/')
  }

  /** The root path splits into one empty part, never into none. */
  lemma RootPath()
    ensures SplitPath("/") == [""]
    ensures SplitPath("") == [""]
  {
    assert DropLeading("/", '/') == "";
  }

  /** A path of segments free of `/` splits back into exactly those segments. */
  lemma SplitPathSegments(parts: seq<string>)
    requires |parts| >= 1
    requires forall i :: 0 <= i < |parts| ==> '/' !in parts[i]
    ensures SplitPath("/" + Join(parts, '/')) == parts
  {
    assert DropLeading("/" + Join(parts, '/'), '/') == Join(parts, '/');
    SplitJoin(parts, '/');
  }

  /** The handler a request reaches. */
  datatype Route = SignupHandler | LoginHandler | DashboardHandler | StartHandler | FinishHandler | Logout | Unknown

  /** The dispatch table of `handler`: who is signed in, the path parts and the method decide. */
  function RouteFor(signedIn: bool, parts: seq<string>, verb: Method): (r: Route)
    ensures !signedIn ==> r == (if parts == ["signup"] then SignupHandler else LoginHandler)
    ensures signedIn && verb.Post? ==>
      r == (if parts == ["timelog", "start"] then StartHandler
            else if parts == ["timelog", "finish"] then FinishHandler
            else if parts == ["user", "logout"] then Logout
            else Unknown)
    ensures signedIn && verb.Get? ==> r == DashboardHandler
    ensures signedIn && verb.OtherMethod? ==> r == Unknown
  {
    if !signedIn then
      if parts == ["signup"] then SignupHandler else LoginHandler
    else if parts == [] && verb.Get? then DashboardHandler
    else if parts == ["timelog", "start"] && verb.Post? then StartHandler
    else if parts == ["timelog", "finish"] && verb.Post? then FinishHandler
    else if parts == ["user", "logout"] && verb.Post? then Logout
    else if verb.Get? then DashboardHandler
    else Unknown
  }

  /** `GET /` reaches the dashboard through the catch-all GET arm, since no path splits into no parts. */
  lemma RootReachesDashboard()
    ensures RouteFor(true, SplitPath("/"), Get) == DashboardHandler
    ensures SplitPath("/") != []
  {
    RootPath();
  }

  // ---------------------------------------------------------------------------
  // Responses
  // ---------------------------------------------------------------------------

  /**
   * `response_reset_auth_cookies`: back to `/` with the session cookie
   * emptied and dated thirty days in the past, so the browser drops it.
   */
  function ResetAuthCookies(now: Instant): (r: Response)
    ensures r.status == SEE_OTHER && r.location == Some("/") && r.view == NoBody
    ensures r.setCookie.Some?
    ensures var c := r.setCookie.value;
      && c.name == AUTH_COOKIE_NAME && c.value == ""
      && c.path == Some("/") && c.secure && c.sameSite == Some(Strict) && c.httpOnly
      && c.expires == Some(now - TOKEN_LIFETIME)
  {
    var c := BuildAuthCookie("", now);
    RedirectHome(c.(expires := Some(now - TOKEN_LIFETIME), value := ""))
  }

  /** Any handler error becomes a 500 error page carrying it. */
  function Recover(r: Result<Response, Error>): (response: Response)
    ensures r.Ok? ==> response == r.value
    ensures r.Err? ==> response.status == INTERNAL_SERVER_ERROR && response.view == ErrorPage(r.error)
  {
    match r
    case Ok(response) => response
    case Err(e) => Response(INTERNAL_SERVER_ERROR, None, None, ErrorPage(e))
  }

  // ---------------------------------------------------------------------------
  // The handler
  // ---------------------------------------------------------------------------

  /**
   * A request as the server sees it: method, path, the value of the
   * `timelytoken` cookie if one was sent, and the decoded form body.
   */
  datatype Request = Request(verb: Method, path: string, authToken: Option<string>, form: Form)

  /** The route a request reaches once its user is resolved. */
  function RouteOf(user: Option<User>, req: Request): Route {
    RouteFor(user.Some?, SplitPath(req.path), req.verb)
  }

  /** Runs the handler the route names, for an already resolved user. */
  function Dispatch(s: Store, p: Primitives, config: Config, user: Option<User>, req: Request, now: Instant)
    : (r: Exchange)
    requires Valid(s)
    ensures Valid(r.store)
    ensures !RouteOf(user, req).SignupHandler? && !RouteOf(user, req).StartHandler? && !RouteOf(user, req).FinishHandler? ==>
      r.store == s
    ensures RouteOf(user, req).Logout? ==> r.response == ResetAuthCookies(now)
    ensures RouteOf(user, req).Unknown? ==> r.response == NotFound()
    ensures RouteOf(user, req).LoginHandler? ==> r.response == HandleLogin(s, p, config.tokenSecret, req.verb, req.form, now)
    ensures RouteOf(user, req).SignupHandler? ==> r == HandleSignup(s, p, config.tokenSecret, req.verb, req.form, now)
    ensures RouteOf(user, req).DashboardHandler? ==> r.response == Recover(HandleDashboard(s, user, req.verb))
    ensures RouteOf(user, req).StartHandler? ==> r.store == TryStart(s, user, req.form, now).store
    ensures RouteOf(user, req).StartHandler? ==> r.response == Recover(HandleStart(s, user, req.form, now).result)
    ensures RouteOf(user, req).FinishHandler? ==> r.response == Recover(HandleFinish(s, p, user, req.form, now).result)
    ensures RouteOf(user, req).FinishHandler? ==> r.store == TryFinish(s, p, user, req.form, now).store
  {
    match RouteOf(user, req)
    case SignupHandler => HandleSignup(s, p, config.tokenSecret, req.verb, req.form, now)
    case LoginHandler => Exchange(s, HandleLogin(s, p, config.tokenSecret, req.verb, req.form, now))
    case DashboardHandler => Exchange(s, Recover(HandleDashboard(s, user, req.verb)))
    case StartHandler =>
      var step := HandleStart(s, user, req.form, now);
      Exchange(step.store, Recover(step.result))
    case FinishHandler =>
      var step := HandleFinish(s, p, user, req.form, now);
      Exchange(step.store, Recover(step.result))
    case Logout => Exchange(s, ResetAuthCookies(now))
    case Unknown => Exchange(s, NotFound())
  }

  /** Every dispatched request answers with one of four statuses; no handler error escapes. */
  lemma StatusKnown(s: Store, p: Primitives, config: Config, user: Option<User>, req: Request, now: Instant)
    requires Valid(s)
    ensures Dispatch(s, p, config, user, req, now).response.status in {OK, SEE_OTHER, NOT_FOUND, INTERNAL_SERVER_ERROR}
  {
    match RouteOf(user, req)
    case DashboardHandler =>
      var h := HandleDashboard(s, user, req.verb);
      assert h.Ok? ==> h.value.status in {OK, NOT_FOUND};
    case StartHandler =>
      var h := HandleStart(s, user, req.form, now);
      assert h.result.Ok? ==> h.result.value.status == OK;
    case FinishHandler =>
      var h := HandleFinish(s, p, user, req.form, now);
      assert h.result.Ok? ==> h.result.value.status == OK;
    case _ =>
  }

  /**
   * `handler`: a sent token that does not load a user resets the cookie
   * before any routing; otherwise the request is dispatched with the
   * resolved user, or with none when no token was sent.
   */
  function Handle(s: Store, p: Primitives, config: Config, req: Request, now: Instant): (r: Exchange)
    requires Valid(s)
    ensures Valid(r.store)
    ensures req.authToken.Some? && LoadUserForToken(s, p, config.tokenSecret, req.authToken.value).Err? ==>
      r == Exchange(s, ResetAuthCookies(now))
    ensures req.authToken.Some? && LoadUserForToken(s, p, config.tokenSecret, req.authToken.value).Ok? ==>
      r == Dispatch(s, p, config, Some(LoadUserForToken(s, p, config.tokenSecret, req.authToken.value).value), req, now)
    ensures req.authToken.None? ==> r == Dispatch(s, p, config, None, req, now)
    ensures r.response.status in {OK, SEE_OTHER, NOT_FOUND, INTERNAL_SERVER_ERROR}
  {
    match req.authToken
    case None =>
      StatusKnown(s, p, config, None, req, now);
      Dispatch(s, p, config, None, req, now)
    case Some(token) =>
      match LoadUserForToken(s, p, config.tokenSecret, token)
      case Err(_) => Exchange(s, ResetAuthCookies(now))
      case Ok(user) =>
        StatusKnown(s, p, config, Some(user), req, now);
        Dispatch(s, p, config, Some(user), req, now)
  }

  /** Without a session every path but `/signup` shows the login handler, whatever the method. */
  lemma SignedOutSeesLogin(s: Store, p: Primitives, config: Config, req: Request, now: Instant)
    requires Valid(s) && req.authToken.None?
    requires SplitPath(req.path) != ["signup"]
    ensures Handle(s, p, config, req, now) == Exchange(s, HandleLogin(s, p, config.tokenSecret, req.verb, req.form, now))
  {
  }

  /**
   * Logging out with a live session resets the cookie and changes nothing
   * else; `/user/logout` is such a path (`LogoutPath`).
   */
  lemma LogoutResets(s: Store, p: Primitives, config: Config, token: string, path: string, form: Form, now: Instant)
    requires Valid(s) && LoadUserForToken(s, p, config.tokenSecret, token).Ok?
    requires SplitPath(path) == ["user", "logout"]
    ensures Handle(s, p, config, Request(Post, path, Some(token), form), now) == Exchange(s, ResetAuthCookies(now))
  {
    assert RouteFor(true, ["user", "logout"], Post) == Logout;
  }

  /** `/user/logout` splits into its two segments. */
  lemma LogoutPath()
    ensures SplitPath("/user/logout") == ["user", "logout"]
  {
    SplitPathSegments(["user", "logout"]);
    assert Join(["user", "logout"], '/') == "user/logout";
  }
}
