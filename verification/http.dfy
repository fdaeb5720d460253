/**
 * What the route handlers exchange with the web front: request methods,
 * decoded form bodies, the authentication cookie, and responses whose
 * HTML body is named by the page it shows rather than rendered
 * (crates/server/src/server/mod.rs and the route files).
 */
module Http {
  import opened Wrappers
  import opened Errors
  import opened DbTypes
  import opened Db

  /** Request methods; only GET and POST are ever routed. */
  datatype Method = Get | Post | OtherMethod(name: string)

  /** A form body after URL-decoding: field name to value. */
  type Form = map<string, string>

  /** The name of the cookie that carries a session token. */
  const AUTH_COOKIE_NAME := "timelytoken"

  datatype SameSite = Strict | Lax

  /** A `Set-Cookie` value: `None` and `false` mean the attribute is not sent. */
  datatype Cookie = Cookie(
    name: string,
    value: string,
    path: Option<string>,
    secure: bool,
    sameSite: Option<SameSite>,
    httpOnly: bool,
    expires: Option<Time>
  )

  /** The page an HTML response shows, with the error text it displays. */
  datatype View =
    | LoginPage(loginError: Option<Error>)
    | SignupPage(signupError: Option<Error>)
    | DashboardPage(user: User, active: seq<Timelog>, finished: seq<Timelog>, dashboardError: Option<Error>)
    | NotFoundPage
    | ErrorPage(error: Error)
    | NoBody

  datatype Response = Response(status: nat, location: Option<string>, setCookie: Option<Cookie>, view: View)

  /** A handler's effect on the store together with the response it sends. */
  datatype Exchange = Exchange(store: Store, response: Response)

  const OK := 200
  const SEE_OTHER := 303
  const NOT_FOUND := 404
  const INTERNAL_SERVER_ERROR := 500

  /** `response_html_ok`. */
  function HtmlOk(view: View): (r: Response)
    ensures r.status == OK && r.view == view && r.location.None? && r.setCookie.None?
  {
    Response(OK, None, None, view)
  }

  /** `response_not_found_html`. */
  function NotFound(): (r: Response)
    ensures r.status == NOT_FOUND && r.view == NotFoundPage && r.setCookie.None?
  {
    Response(NOT_FOUND, None, None, NotFoundPage)
  }

  /** A 303 redirect to the dashboard that sets `cookie`. */
  function RedirectHome(cookie: Cookie): (r: Response)
    ensures r.status == SEE_OTHER && r.location == Some("/") && r.setCookie == Some(cookie) && r.view == NoBody
  {
    Response(SEE_OTHER, Some("/"), Some(cookie), NoBody)
  }

  /** A form field, when the body has it. */
  function Field(form: Form, name: string): (r: Option<string>)
    ensures r.Some? <==> name in form
    ensures r.Some? ==> r.value == form[name]
  {
    if name in form then Some(form[name]) else None
  }
}
