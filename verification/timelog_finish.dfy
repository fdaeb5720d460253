/**
 * Finishing a work session: the log must exist and still be running; the
 * update stamps `finished_at` and touches nothing else
 * (crates/server/src/server/routes/timelog_finish.rs).
 */
module FinishRoute {
  import opened Wrappers
  import opened Text
  import opened Errors
  import opened DbTypes
  import opened Db
  import opened Accounts
  import opened Http
  import opened DashboardRoute

  const LOG_NOT_FOUND := "Timelog not found"
  const ALREADY_CLOSED := "Log entry already closed"
  const UPDATE_EMPTY := "not found"

  /** The form decoder: `timelog_id` must be present and read as a u64. */
  function DecodeFinishForm(form: Form): (r: Result<U64, Error>)
    ensures r.Ok? <==> "timelog_id" in form && ParseU64(form["timelog_id"]).Some?
    ensures r.Ok? ==> Some(r.value) == ParseU64(form["timelog_id"])
    ensures r.Err? ==> r.error == FormRejected
  {
    match Field(form, "timelog_id")
    case None => Err(FormRejected)
    case Some(text) =>
      match ParseU64(text)
      case None => Err(FormRejected)
      case Some(id) => Ok(id)
  }

  /** The only change a finish makes: the finish time, as RFC 3339 text. */
  function FinishPatch(p: Primitives, now: Instant): (patch: TimelogPatch)
    ensures patch.title.None? && patch.description.None?
    ensures patch.finishedAt == Some(p.formatTime(now))
    ensures PatchJson(patch).Keys == {"finished_at"}
  {
    TimelogPatch(None, None, Some(p.formatTime(now)))
  }

  /** The log `id` as it reads after the finish. */
  function Finished(s: Store, p: Primitives, id: U64, now: Instant): Timelog
    requires id in s.logs
  {
    FinishPatch(p, now).ApplyTo(s.logs[id])
  }

  /**
   * `try_finish`. The signed-in user is required but never compared with
   * the log's owner.
   */
  function TryFinish(s: Store, p: Primitives, user: Option<User>, form: Form, now: Instant): (r: Step<Timelog>)
    requires Valid(s)
    ensures Valid(r.store)
    ensures r.result.Err? ==> r.store == s
    ensures DecodeFinishForm(form).Err? ==> r.result == Err(FormRejected)
    ensures DecodeFinishForm(form).Ok? && user.Some? && s.online ==>
      var id := DecodeFinishForm(form).value;
      && (id !in s.logs ==> r.result == Err(Message(LOG_NOT_FOUND)))
      && (id in s.logs && s.logs[id].finishedAt.Some? ==> r.result == Err(Message(ALREADY_CLOSED)))
    ensures r.result.Ok? <==>
      DecodeFinishForm(form).Ok? && user.Some? && s.online
      && DecodeFinishForm(form).value in s.logs && s.logs[DecodeFinishForm(form).value].finishedAt.None?
    ensures r.result.Ok? ==>
      var id := DecodeFinishForm(form).value;
      && r.result.value == Finished(s, p, id, now)
      && r.store == s.(logs := s.logs[id := r.result.value])
      && r.result.value.finishedAt.Some?
  {
    match DecodeFinishForm(form)
    case Err(e) => Step(s, Err(e))
    case Ok(id) =>
      match RequireUser(user)
      case Err(e) => Step(s, Err(e))
      case Ok(_) =>
        match Timelogs(s, TimelogById(id))
        case Err(e) => Step(s, Err(e))
        case Ok(rows) =>
          LogById(s, id);
          if |rows| == 0 then Step(s, Err(Message(LOG_NOT_FOUND)))
          else if rows[0].finishedAt.Some? then Step(s, Err(Message(ALREADY_CLOSED)))
          else
            var update := UpdateTimelogs(s, NewSingleId(id), FinishPatch(p, now));
            UpdateByIdResult(s, id, FinishPatch(p, now));
            UpdateByIdStore(s, id, FinishPatch(p, now));
            match update.result
            case Err(e) => Step(update.store, Err(e))
            case Ok(out) =>
              if |out| == 0 then Step(update.store, Err(Message(UPDATE_EMPTY)))
              else Step(update.store, Ok(out[0]))
  }

  /**
   * `handler`: whatever `try_finish` returns, the dashboard is shown, with
   * the error inline; only a failure to build the dashboard escapes.
   */
  function HandleFinish(s: Store, p: Primitives, user: Option<User>, form: Form, now: Instant): (r: Step<Response>)
    requires Valid(s)
    ensures Valid(r.store)
    ensures r.store == TryFinish(s, p, user, form, now).store
    ensures r.result.Ok? ==>
      var attempt := TryFinish(s, p, user, form, now).result;
      && r.result.value.status == OK
      && r.result.value.view.DashboardPage?
      && r.result.value.view.dashboardError == (if attempt.Err? then Some(attempt.error) else None)
    ensures r.result.Ok? ==>
      var attempt := TryFinish(s, p, user, form, now);
      var error := if attempt.result.Err? then Some(attempt.result.error) else None;
      && BuildDashboard(attempt.store, user, error).Ok?
      && r.result.value.view == BuildDashboard(attempt.store, user, error).value
    ensures r.result.Err? <==> user.None? || !s.online
  {
    var attempt := TryFinish(s, p, user, form, now);
    var error := if attempt.result.Err? then Some(attempt.result.error) else None;
    match BuildDashboard(attempt.store, user, error)
    case Err(e) => Step(attempt.store, Err(e))
    case Ok(view) => Step(attempt.store, Ok(HtmlOk(view)))
  }

  /** A finish keeps the log's title, description, owner and times, and sets only its finish time. */
  lemma FinishTouchesOnlyFinishTime(s: Store, p: Primitives, id: U64, now: Instant)
    requires id in s.logs
    ensures var t := Finished(s, p, id, now);
      t == s.logs[id].(finishedAt := Some(p.formatTime(now)))
  {
  }

  /** Any signed-in user may finish any user's log: the outcome does not depend on who asks. */
  lemma OwnerNotChecked(s: Store, p: Primitives, a: User, b: User, form: Form, now: Instant)
    requires Valid(s)
    ensures TryFinish(s, p, Some(a), form, now) == TryFinish(s, p, Some(b), form, now)
  {
  }

  /** Finishing twice fails the second time and leaves the store as the first left it. */
  lemma FinishTwice(s: Store, p: Primitives, user: User, form: Form, now: Instant, later: Instant)
    requires Valid(s)
    requires TryFinish(s, p, Some(user), form, now).result.Ok?
    ensures var first := TryFinish(s, p, Some(user), form, now);
      var second := TryFinish(first.store, p, Some(user), form, later);
      second.result == Err(Message(ALREADY_CLOSED)) && second.store == first.store
  {
    var first := TryFinish(s, p, Some(user), form, now);
    var id := DecodeFinishForm(form).value;
    assert first.store.logs[id] == first.result.value;
  }
}
