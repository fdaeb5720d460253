/**
 * The data behind the dashboard page: the signed-in user's running and
 * finished timelogs (crates/server/src/server/routes/dashboard.rs). The
 * page's HTML is not modelled; the view records what it shows.
 */
module DashboardRoute {
  import opened Wrappers
  import opened Errors
  import opened DbTypes
  import opened Db
  import opened Http

  const NO_USER := "expected a user in the context"

  /** `Context::require_user`. */
  function RequireUser(user: Option<User>): (r: Result<User, Error>)
    ensures r.Ok? <==> user.Some?
    ensures r.Ok? ==> r.value == user.value
    ensures r.Err? ==> r.error == Message(NO_USER)
  {
    if user.Some? then Ok(user.value) else Err(Message(NO_USER))
  }

  /** `build_dashboard`: reads the running logs, then the finished ones. */
  function BuildDashboard(s: Store, user: Option<User>, error: Option<Error>): (r: Result<View, Error>)
    requires Valid(s)
    ensures user.None? ==> r == Err(Message(NO_USER))
    ensures user.Some? && !s.online ==> r == Err(Offline)
    ensures r.Ok? <==> user.Some? && s.online
    ensures r.Ok? ==>
      && r.value.DashboardPage?
      && r.value.user == user.value
      && r.value.dashboardError == error
      && (forall t :: t in r.value.active <==> t in s.logs.Values && t.userId == user.value.id && t.finishedAt.None?)
      && (forall t :: t in r.value.finished <==> t in s.logs.Values && t.userId == user.value.id && t.finishedAt.Some?)
  {
    var u :- RequireUser(user);
    match Timelogs(s, UserActiveTimelogs(u.id))
    case Err(e) => Err(e)
    case Ok(active) =>
      match Timelogs(s, UserFinishedTimelogs(u.id))
      case Err(e) => Err(e)
      case Ok(finished) =>
        ActiveLogs(s, u.id);
        FinishedLogs(s, u.id);
        Ok(DashboardPage(u, active, finished, error))
  }

  /** `handler_dashboard`: GET shows the dashboard; anything else is not found. */
  function HandleDashboard(s: Store, user: Option<User>, verb: Method): (r: Result<Response, Error>)
    requires Valid(s)
    ensures verb.Get? ==> (r.Ok? <==> user.Some? && s.online)
    ensures verb.Get? && r.Ok? ==>
      && r.value.status == OK
      && r.value.view == BuildDashboard(s, user, None).value
      && r.value.view.dashboardError.None?
    ensures verb.Get? && r.Err? ==> r.error == BuildDashboard(s, user, None).error
    ensures !verb.Get? ==> r == Ok(NotFound())
    ensures r.Ok? ==> r.value.status in {OK, NOT_FOUND}
  {
    if verb.Get? then
      var view :- BuildDashboard(s, user, None);
      Ok(HtmlOk(view))
    else
      Ok(NotFound())
  }
}
