/**
 * Starting a work session: a non-blank title, and no other session of the
 * same user still running (crates/server/src/server/routes/timelog_start.rs).
 */
module StartRoute {
  import opened Wrappers
  import opened Text
  import opened Errors
  import opened DbTypes
  import opened Db
  import opened Accounts
  import opened Http
  import opened DashboardRoute

  const EMPTY_TITLE := "Title may not be empty"
  const OTHERS_RUNNING := "Other running tasks - finish them first!"

  /** Whether `user` has a session that has not finished. */
  predicate HasActive(s: Store, user: U64) {
    exists t :: t in s.logs.Values && t.userId == user && t.finishedAt.None?
  }

  /** The form decoder: the `title` field must be present. */
  function DecodeStartForm(form: Form): (r: Result<string, Error>)
    ensures r.Ok? <==> "title" in form
    ensures r.Ok? ==> r.value == form["title"]
    ensures r.Err? ==> r.error == FormRejected
  {
    match Field(form, "title")
    case Some(title) => Ok(title)
    case None => Err(FormRejected)
  }

  /** `try_start`. */
  function TryStart(s: Store, user: Option<User>, form: Form, now: Instant): (r: Step<Timelog>)
    requires Valid(s)
    ensures Valid(r.store)
    ensures r.result.Err? ==> r.store == s
    ensures "title" !in form ==> r.result == Err(FormRejected)
    ensures "title" in form && AllWhitespace(form["title"]) ==> r.result == Err(Message(EMPTY_TITLE))
    ensures "title" in form && !AllWhitespace(form["title"]) && user.Some? && s.online && HasActive(s, user.value.id) ==>
      r.result == Err(Message(OTHERS_RUNNING))
    ensures r.result.Ok? <==>
      "title" in form && !AllWhitespace(form["title"]) && user.Some? && s.online
      && !HasActive(s, user.value.id) && s.nextLogId < U64_LIMIT
    ensures r.result.Ok? ==>
      var t := r.result.value;
      && t.id !in s.logs
      && t.userId == user.value.id
      && t.title == Trim(form["title"])
      && t.description.None?
      && t.createdAt == now && t.startedAt == now
      && t.finishedAt.None?
      && AddsLog(s, r.store, t)
  {
    match DecodeStartForm(form)
    case Err(e) => Step(s, Err(e))
    case Ok(raw) =>
      var title := Trim(raw);
      if title == "" then Step(s, Err(Message(EMPTY_TITLE)))
      else
        match RequireUser(user)
        case Err(e) => Step(s, Err(e))
        case Ok(u) => StartFor(s, u, title, now)
  }

  /** The store half of `try_start`: refuse while `u` has a running session, else create one. */
  function StartFor(s: Store, u: User, title: string, now: Instant): (r: Step<Timelog>)
    requires Valid(s)
    ensures Valid(r.store)
    ensures r.result.Err? ==> r.store == s
    ensures s.online && HasActive(s, u.id) ==> r.result == Err(Message(OTHERS_RUNNING))
    ensures r.result.Ok? <==> s.online && !HasActive(s, u.id) && s.nextLogId < U64_LIMIT
    ensures r.result.Ok? ==>
      var t := r.result.value;
      && t.userId == u.id && t.title == title && t.description.None?
      && t.createdAt == now && t.startedAt == now && t.finishedAt.None?
      && AddsLog(s, r.store, t)
  {
    match Timelogs(s, UserActiveTimelogs(u.id))
    case Err(e) => Step(s, Err(e))
    case Ok(active) =>
      ActiveLogs(s, u.id);
      NoActiveLog(s, u.id, active);
      if |active| != 0 then
        Step(s, Err(Message(OTHERS_RUNNING)))
      else
        InsertTimelog(s, TimelogCreate(u.id, title, None, now, now))
  }

  /** The read of the running sessions comes back empty exactly when there are none. */
  lemma NoActiveLog(s: Store, user: U64, active: seq<Timelog>)
    requires forall t :: t in active <==> t in s.logs.Values && t.userId == user && t.finishedAt.None?
    ensures |active| == 0 <==> !HasActive(s, user)
  {
    if |active| != 0 {
      assert active[0] in active;
    }
  }

  /**
   * `handler`: whatever `try_start` returns, the dashboard is shown, with
   * the error inline; only a failure to build the dashboard escapes.
   */
  function HandleStart(s: Store, user: Option<User>, form: Form, now: Instant): (r: Step<Response>)
    requires Valid(s)
    ensures Valid(r.store)
    ensures r.store == TryStart(s, user, form, now).store
    ensures r.result.Ok? ==>
      var attempt := TryStart(s, user, form, now).result;
      && r.result.value.status == OK
      && r.result.value.view.DashboardPage?
      && r.result.value.view.dashboardError == (if attempt.Err? then Some(attempt.error) else None)
    ensures r.result.Ok? ==>
      var attempt := TryStart(s, user, form, now);
      var error := if attempt.result.Err? then Some(attempt.result.error) else None;
      && BuildDashboard(attempt.store, user, error).Ok?
      && r.result.value.view == BuildDashboard(attempt.store, user, error).value
    ensures r.result.Err? ==> user.None? || !s.online
  {
    var attempt := TryStart(s, user, form, now);
    var error := if attempt.result.Err? then Some(attempt.result.error) else None;
    match BuildDashboard(attempt.store, user, error)
    case Err(e) => Step(attempt.store, Err(e))
    case Ok(view) => Step(attempt.store, Ok(HtmlOk(view)))
  }

  /** Starting from no running session, a successful start leaves exactly one: the new one. */
  lemma StartLeavesOneActive(s: Store, user: User, form: Form, now: Instant)
    requires Valid(s)
    requires TryStart(s, Some(user), form, now).result.Ok?
    ensures var r := TryStart(s, Some(user), form, now);
      forall t :: t in r.store.logs.Values && t.userId == user.id && t.finishedAt.None? <==> t == r.result.value
  {
    var r := TryStart(s, Some(user), form, now);
    OnlyNewActive(s.logs, r.store.logs, r.result.value, user.id);
  }

  /** Adding one running session for a user who had none leaves that session the only running one. */
  lemma OnlyNewActive(before: map<nat, Timelog>, after: map<nat, Timelog>, n: Timelog, user: U64)
    requires forall t :: t in before.Values ==> !(t.userId == user && t.finishedAt.None?)
    requires n.userId == user && n.finishedAt.None?
    requires after == before[n.id := n]
    ensures forall t :: t in after.Values && t.userId == user && t.finishedAt.None? <==> t == n
  {
    assert after[n.id] == n;
    forall t | t in after.Values && t.userId == user && t.finishedAt.None? ensures t == n {
      var k :| k in after && after[k] == t;
      assert k != n.id ==> t in before.Values;
    }
  }
}
