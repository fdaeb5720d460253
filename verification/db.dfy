/**
 * The `Db` trait of crates/server/src/db/mod.rs and its three canned
 * queries. The backend behind the trait is modelled as an in-memory store
 * that answers each operation the way the REST backend reads the request
 * the client builds for it (the Postgrest module's `Matches`).
 */
module Db {
  import opened Wrappers
  import opened Text
  import opened DbTypes
  import opened Query
  import opened Postgrest
  import opened Client
  import opened Errors

  // ---------------------------------------------------------------------------
  // Canned queries
  // ---------------------------------------------------------------------------

  /** `user_active_timelogs`: the user's unfinished logs, newest start first. */
  function UserActiveTimelogs(user: U64): (q: TimelogQuery)
    ensures q.filter == Some(And([UserId(user), IsFinished(false)]))
    ensures q.limit == 100 && q.offset == 0
    ensures q.order == [Order(OrderStartedAt, Desc)]
  {
    TimelogQuery(Some(UserId(user).AndWith(IsFinished(false))), 100, 0, [Descending(OrderStartedAt)])
  }

  /** `user_finished_timelogs`: the user's finished logs, newest start first. */
  function UserFinishedTimelogs(user: U64): (q: TimelogQuery)
    ensures q.filter == Some(And([UserId(user), IsFinished(true)]))
    ensures q.limit == 100 && q.offset == 0
    ensures q.order == [Order(OrderStartedAt, Desc)]
  {
    TimelogQuery(Some(UserId(user).AndWith(IsFinished(true))), 100, 0, [Descending(OrderStartedAt)])
  }

  /** `timelog_by_id`. */
  function TimelogById(id: U64): (q: TimelogQuery)
    ensures q.filter == Some(Id(id)) && q.limit == 1 && q.offset == 0 && q.order == []
  {
    TimelogQuery(Some(Id(id)), 1, 0, [])
  }

  /** The finished query is the active one with the flag flipped, and nothing else. */
  lemma FinishedFlipsFlag(user: U64)
    ensures UserFinishedTimelogs(user)
         == UserActiveTimelogs(user).(filter := Some(And([UserId(user), IsFinished(true)])))
  {
  }

  /** `timelog_by_id(id)` agrees with `TimelogQuery::new_single_id(id)` in every field. */
  lemma TimelogByIdIsSingleId(id: U64)
    ensures TimelogById(id) == NewSingleId(id)
  {
  }

  /** The three parameters the active-log query of `user` compiles to. */
  function ActiveParams(user: U64): QueryMap {
    map["user_id" := ["eq." + Decimal(user)], "finished_at" := ["is.null"], "order" := ["started_at.desc"]]
  }

  /** The active-log query compiles to exactly three parameters. */
  lemma ActiveQueryCompiled(user: U64)
    ensures BuildTimelogQuery(UserActiveTimelogs(user))
         == map["user_id" := ["eq." + Decimal(user)], "finished_at" := ["is.null"], "order" := ["started_at.desc"]]
  {
    forall k ensures Values(BuildTimelogQuery(UserActiveTimelogs(user)), k) == Values(ActiveParams(user), k) {
      ActiveValuesAt(user, k);
    }
    SameValuesSameMap(BuildTimelogQuery(UserActiveTimelogs(user)), ActiveParams(user));
  }

  /** Key by key, the compiled active-log query lists the expected values. */
  lemma ActiveValuesAt(user: U64, k: string)
    ensures Values(BuildTimelogQuery(UserActiveTimelogs(user)), k) == Values(ActiveParams(user), k)
  {
    var q := UserActiveTimelogs(user);
    ActiveEntries(user);
    assert OrderParams(q.order)[0] == OrderParam(Order(OrderStartedAt, Desc)) == "started_at.desc";
    assert OrderParams(q.order) == ["started_at.desc"];
    if k != "order" {
      TwoEntryValues(("user_id", "eq." + Decimal(user)), ("finished_at", "is.null"), k);
    }
  }

  lemma ActiveEntries(user: U64)
    ensures Entries(And([UserId(user), IsFinished(false)]))
         == [("user_id", "eq." + Decimal(user)), ("finished_at", "is.null")]
  {
    var items := [UserId(user), IsFinished(false)];
    assert items[1..] == [IsFinished(false)];
    assert items[1..][1..] == [];
    assert Entries(items[0]) == [("user_id", "eq." + Decimal(user))];
    assert Entries(items[1]) == [("finished_at", "is.null")];
    assert EntriesAll(items[1..]) == Entries(items[1]) + EntriesAll([]);
  }

  lemma TwoEntryValues(e1: Entry, e2: Entry, k: string)
    ensures ValuesFor([e1, e2], k)
         == (if e1.0 == k then [e1.1] else []) + (if e2.0 == k then [e2.1] else [])
  {
    assert [e1, e2][0] == e1 && [e1, e2][1..] == [e2];
    assert [e2][0] == e2 && [e2][1..] == [];
    assert ValuesFor([e2], k) == (if e2.0 == k then [e2.1] else []) + ValuesFor([], k);
  }

  // ---------------------------------------------------------------------------
  // The store
  // ---------------------------------------------------------------------------

  /**
   * The backend's tables keyed by id, the next ids it will hand out, and
   * whether it can be reached at all.
   */
  datatype Store = Store(
    users: map<nat, User>,
    logs: map<nat, Timelog>,
    nextUserId: nat,
    nextLogId: nat,
    online: bool
  )

  /** Every row sits under its own id, below the next id to be handed out. */
  predicate Valid(s: Store) {
    && (forall k :: k in s.users ==> s.users[k].id == k && k < s.nextUserId)
    && (forall k :: k in s.logs ==> s.logs[k].id == k && k < s.nextLogId)
  }

  /** `after` is `before` with `u` stored under a previously unused id, and the id counter moved past it. */
  predicate AddsUser(before: Store, after: Store, u: User) {
    u.id !in before.users && after == before.(users := before.users[u.id := u], nextUserId := u.id + 1)
  }

  /** `after` is `before` with `t` stored under a previously unused id, and the id counter moved past it. */
  predicate AddsLog(before: Store, after: Store, t: Timelog) {
    t.id !in before.logs && after == before.(logs := before.logs[t.id := t], nextLogId := t.id + 1)
  }

  /** A store transition together with what the operation returned. */
  datatype Step<T> = Step(store: Store, result: Result<T, Error>)

  /** The ids below `n` whose rows `keep` accepts, ascending. */
  function MatchingKeys<T>(m: map<nat, T>, keep: T -> bool, n: nat): (ids: seq<nat>)
    ensures forall i :: i in ids <==> i < n && i in m && keep(m[i])
    ensures forall a :: 0 <= a < |ids| ==> ids[a] < n
    ensures forall a, b :: 0 <= a < b < |ids| ==> ids[a] < ids[b]
  {
    if n == 0 then []
    else
      var earlier := MatchingKeys(m, keep, n - 1);
      if n - 1 in m && keep(m[n - 1]) then earlier + [n - 1] else earlier
  }

  /** The rows stored under `ids`, in that order. */
  function Pick<T>(m: map<nat, T>, ids: seq<nat>): (rows: seq<T>)
    requires forall i :: i in ids ==> i in m
    ensures |rows| == |ids|
    ensures forall j :: 0 <= j < |ids| ==> rows[j] == m[ids[j]]
  {
    if |ids| == 0 then [] else [m[ids[0]]] + Pick(m, ids[1..])
  }

  /** The rows picked by `MatchingKeys` are exactly the stored rows `keep` accepts. */
  lemma PickMatching<T>(m: map<nat, T>, keep: T -> bool, n: nat)
    requires forall k :: k in m ==> k < n
    ensures forall t :: t in Pick(m, MatchingKeys(m, keep, n)) <==> t in m.Values && keep(t)
  {
    var ids := MatchingKeys(m, keep, n);
    var rows := Pick(m, ids);
    forall t | t in m.Values && keep(t) ensures t in rows {
      var k :| k in m && m[k] == t;
      assert k in ids;
      var j :| 0 <= j < |ids| && ids[j] == k;
      assert rows[j] == t;
    }
  }

  /** Logs stored under their own ids come out of `Pick` by ascending id. */
  lemma PickAscending(logs: map<nat, Timelog>, keep: Timelog -> bool, n: nat)
    requires forall k :: k in logs ==> logs[k].id == k
    ensures var rows := Pick(logs, MatchingKeys(logs, keep, n));
      forall a, b :: 0 <= a < b < |rows| ==> rows[a].id < rows[b].id
  {
    var ids := MatchingKeys(logs, keep, n);
    var rows := Pick(logs, ids);
    forall a, b | 0 <= a < b < |rows| ensures rows[a].id < rows[b].id {
      assert ids[a] in ids && ids[b] in ids;
    }
  }

  /** What a timelog query means for one row: its filter, if any, holds. */
  predicate Selects(q: TimelogQuery, t: Timelog) {
    q.filter.None? || Satisfies(t, q.filter.value)
  }

  /** The backend's row test for the parameters the client sends. */
  function Accepts(qm: QueryMap): Timelog -> bool {
    t => Matches(TimelogRow(t), qm)
  }

  function AcceptsUser(qm: QueryMap): User -> bool {
    u => Matches(UserRow(u), qm)
  }

  /** The parameters of a read and of an update select the rows the query's filter describes. */
  lemma RequestsSelect(q: TimelogQuery, p: TimelogPatch, t: Timelog)
    ensures Accepts(TimelogsRequest(q).query)(t) <==> Selects(q, t)
    ensures Accepts(TimelogUpdateRequest(q, p).query)(t) <==> Selects(q, t)
  {
    ReservedIgnored(TimelogRow(t), BuildTimelogQuery(q), "select", "*");
    TimelogQuerySound(t, q);
  }

  lemma UserRequestSelects(f: UserFilter, u: User)
    ensures AcceptsUser(UserRequest(f).query)(u) <==> UserSatisfies(u, f)
  {
    ReservedIgnored(UserRow(u), BuildUserFilter(f), "select", "*");
    UserFilterSound(u, f);
  }

  lemma UsersRequestSelects(q: UserQuery, u: User)
    ensures AcceptsUser(UsersRequest(q).query)(u) <==> (q.filter.None? || UserSatisfies(u, q.filter.value))
  {
    ReservedIgnored(UserRow(u), BuildUserQuery(q), "select", "*");
    if q.filter.Some? {
      UserFilterSound(u, q.filter.value);
    } else {
      MatchesEmpty(UserRow(u));
    }
  }

  const Offline: Error := Backend(Transport)

  /** The first matching id is the least id whose row `keep` accepts; no id means no such row. */
  lemma FirstMatching<T>(m: map<nat, T>, keep: T -> bool, n: nat)
    requires forall k :: k in m ==> k < n
    ensures var ids := MatchingKeys(m, keep, n);
      && (|ids| == 0 ==> forall k :: k in m ==> !keep(m[k]))
      && (|ids| > 0 ==> ids[0] in m && keep(m[ids[0]]) && forall k :: k in m && keep(m[k]) ==> ids[0] <= k)
  {
    var ids := MatchingKeys(m, keep, n);
    if |ids| > 0 {
      assert ids[0] in ids;
      forall k | k in m && keep(m[k]) ensures ids[0] <= k {
        assert k in ids;
        var j :| 0 <= j < |ids| && ids[j] == k;
        assert j == 0 || ids[0] < ids[j];
      }
    }
  }

  /** `Db::user`: the first user, by id, that the filter describes. */
  function UserLookup(s: Store, f: UserFilter): (r: Result<Option<User>, Error>)
    requires Valid(s)
    ensures r.Err? <==> !s.online
    ensures r.Ok? && r.value.Some? ==> r.value.value in s.users.Values && UserSatisfies(r.value.value, f)
    ensures r.Ok? && r.value.Some? ==>
      forall u :: u in s.users.Values && UserSatisfies(u, f) ==> r.value.value.id <= u.id
    ensures r.Ok? && r.value.None? ==> forall u :: u in s.users.Values ==> !UserSatisfies(u, f)
  {
    if !s.online then Err(Offline)
    else
      var keep := AcceptsUser(UserRequest(f).query);
      var ids := MatchingKeys(s.users, keep, s.nextUserId);
      FirstMatching(s.users, keep, s.nextUserId);
      assert forall u :: keep(u) <==> UserSatisfies(u, f) by {
        forall u ensures keep(u) <==> UserSatisfies(u, f) {
          UserRequestSelects(f, u);
        }
      }
      if |ids| == 0 then Ok(None) else Ok(Some(s.users[ids[0]]))
  }

  /** `Db::users`: every user the query's filter describes, by ascending id. */
  function Users(s: Store, q: UserQuery): (r: Result<seq<User>, Error>)
    requires Valid(s)
    ensures r.Err? <==> !s.online
    ensures r.Ok? ==> forall u :: u in r.value <==>
      u in s.users.Values && (q.filter.None? || UserSatisfies(u, q.filter.value))
  {
    if !s.online then Err(Offline)
    else
      var keep := AcceptsUser(UsersRequest(q).query);
      PickMatching(s.users, keep, s.nextUserId);
      assert forall u :: keep(u) <==> (q.filter.None? || UserSatisfies(u, q.filter.value)) by {
        forall u ensures keep(u) <==> (q.filter.None? || UserSatisfies(u, q.filter.value)) {
          UsersRequestSelects(q, u);
        }
      }
      Ok(Pick(s.users, MatchingKeys(s.users, keep, s.nextUserId)))
  }

  /** `Db::user_create`: the backend assigns the next id and the creation time. */
  function InsertUser(s: Store, draft: UserCreate, now: Time): (r: Step<User>)
    requires Valid(s)
    ensures Valid(r.store)
    ensures r.result.Err? <==> !s.online || s.nextUserId >= U64_LIMIT
    ensures r.result.Err? ==> r.store == s
    ensures r.result.Ok? ==>
      var u := r.result.value;
      && u.id !in s.users
      && u.username == draft.username && u.email == draft.email && u.passwordHash == draft.passwordHash
      && u.createdAt == now
      && AddsUser(s, r.store, u)
  {
    if !s.online then Step(s, Err(Offline))
    else if s.nextUserId >= U64_LIMIT then Step(s, Err(Backend(Api(None))))
    else
      var u := User(s.nextUserId, draft.username, draft.email, draft.passwordHash, now);
      Step(s.(users := s.users[u.id := u], nextUserId := u.id + 1), Ok(u))
  }

  /** `Db::timelogs`: every log the query's filter describes, by ascending id. */
  function Timelogs(s: Store, q: TimelogQuery): (r: Result<seq<Timelog>, Error>)
    requires Valid(s)
    ensures r.Err? <==> !s.online
    ensures r.Ok? ==> forall t :: t in r.value <==> t in s.logs.Values && Selects(q, t)
    ensures r.Ok? ==> forall a, b :: 0 <= a < b < |r.value| ==> r.value[a].id < r.value[b].id
  {
    if !s.online then Err(Offline) else Ok(ReadLogs(s.logs, s.nextLogId, q))
  }

  /** The rows the backend returns for the read request of `q`. */
  function ReadLogs(logs: map<nat, Timelog>, n: nat, q: TimelogQuery): (rows: seq<Timelog>)
    requires forall k :: k in logs ==> logs[k].id == k && k < n
    ensures forall t :: t in rows <==> t in logs.Values && Selects(q, t)
    ensures forall a, b :: 0 <= a < b < |rows| ==> rows[a].id < rows[b].id
  {
    ReadRows(logs, n, q);
    Pick(logs, MatchingKeys(logs, Accepts(TimelogsRequest(q).query), n))
  }

  lemma ReadRows(logs: map<nat, Timelog>, n: nat, q: TimelogQuery)
    requires forall k :: k in logs ==> logs[k].id == k && k < n
    ensures var rows := Pick(logs, MatchingKeys(logs, Accepts(TimelogsRequest(q).query), n));
      && (forall t :: t in rows <==> t in logs.Values && Selects(q, t))
      && (forall a, b :: 0 <= a < b < |rows| ==> rows[a].id < rows[b].id)
  {
    var keep := Accepts(TimelogsRequest(q).query);
    ReadSelects(q);
    PickMatching(logs, keep, n);
    PickAscending(logs, keep, n);
  }

  lemma ReadSelects(q: TimelogQuery)
    ensures forall t :: Accepts(TimelogsRequest(q).query)(t) <==> Selects(q, t)
  {
    forall t ensures Accepts(TimelogsRequest(q).query)(t) <==> Selects(q, t) {
      RequestsSelect(q, TimelogPatch(None, None, None), t);
    }
  }

  lemma UpdateSelects(q: TimelogQuery, p: TimelogPatch)
    ensures forall t :: Accepts(TimelogUpdateRequest(q, p).query)(t) <==> Selects(q, t)
  {
    forall t ensures Accepts(TimelogUpdateRequest(q, p).query)(t) <==> Selects(q, t) {
      RequestsSelect(q, p, t);
    }
  }

  /** `Db::timelog_create`: the backend assigns the next id; a new log is unfinished. */
  function InsertTimelog(s: Store, draft: TimelogCreate): (r: Step<Timelog>)
    requires Valid(s)
    ensures Valid(r.store)
    ensures r.result.Err? <==> !s.online || s.nextLogId >= U64_LIMIT
    ensures r.result.Err? ==> r.store == s
    ensures r.result.Ok? ==>
      var t := r.result.value;
      && t.id !in s.logs
      && t.userId == draft.userId && t.title == draft.title && t.description == draft.description
      && t.createdAt == draft.createdAt && t.startedAt == draft.startedAt
      && t.finishedAt.None?
      && AddsLog(s, r.store, t)
  {
    if !s.online then Step(s, Err(Offline))
    else if s.nextLogId >= U64_LIMIT then Step(s, Err(Backend(Api(None))))
    else
      var t := Timelog(s.nextLogId, draft.userId, draft.title, draft.description,
                       draft.createdAt, draft.startedAt, None);
      Step(s.(logs := s.logs[t.id := t], nextLogId := t.id + 1), Ok(t))
  }

  /** The stored logs with `patch` applied to those `keep` accepts. */
  function PatchWhere(logs: map<nat, Timelog>, keep: Timelog -> bool, patch: TimelogPatch): (r: map<nat, Timelog>)
    ensures r.Keys == logs.Keys
    ensures forall k :: k in logs ==> r[k] == (if keep(logs[k]) then patch.ApplyTo(logs[k]) else logs[k])
  {
    map k | k in logs :: if keep(logs[k]) then patch.ApplyTo(logs[k]) else logs[k]
  }

  /** The rows an update echoes: the patched versions of the accepted logs, by ascending id. */
  lemma PatchedRows(logs: map<nat, Timelog>, keep: Timelog -> bool, n: nat, patch: TimelogPatch)
    requires forall k :: k in logs ==> logs[k].id == k && k < n
    ensures var rows := Pick(PatchWhere(logs, keep, patch), MatchingKeys(logs, keep, n));
      && (forall t :: t in rows ==> t.id in logs && keep(logs[t.id]) && t == patch.ApplyTo(logs[t.id]))
      && (forall k :: k in logs && keep(logs[k]) ==> patch.ApplyTo(logs[k]) in rows)
      && (forall a, b :: 0 <= a < b < |rows| ==> rows[a].id < rows[b].id)
  {
    var patched := PatchWhere(logs, keep, patch);
    var ids := MatchingKeys(logs, keep, n);
    var rows := Pick(patched, ids);
    forall t | t in rows ensures t.id in logs && keep(logs[t.id]) && t == patch.ApplyTo(logs[t.id]) {
      var j :| 0 <= j < |rows| && rows[j] == t;
      assert ids[j] in ids;
    }
    forall k | k in logs && keep(logs[k]) ensures patch.ApplyTo(logs[k]) in rows {
      assert k in ids;
      var j :| 0 <= j < |ids| && ids[j] == k;
      assert rows[j] == patched[k];
    }
    forall a, b | 0 <= a < b < |rows| ensures rows[a].id < rows[b].id {
      assert ids[a] in ids && ids[b] in ids;
    }
  }

  /**
   * `Db::timelog_update`: patches every log the selector's filter describes
   * (its limit is never sent) and returns the patched rows.
   */
  function UpdateTimelogs(s: Store, selector: TimelogQuery, patch: TimelogPatch): (r: Step<seq<Timelog>>)
    requires Valid(s)
    ensures Valid(r.store)
    ensures r.result.Err? <==> !s.online
    ensures r.result.Err? ==> r.store == s
    ensures r.result.Ok? ==> r.store == s.(logs := r.store.logs) && r.store.logs.Keys == s.logs.Keys
    ensures r.result.Ok? ==> forall k :: k in s.logs ==>
      r.store.logs[k] == (if Selects(selector, s.logs[k]) then patch.ApplyTo(s.logs[k]) else s.logs[k])
    ensures r.result.Ok? ==> forall t :: t in r.result.value ==>
      t.id in s.logs && Selects(selector, s.logs[t.id]) && t == patch.ApplyTo(s.logs[t.id])
    ensures r.result.Ok? ==> forall k :: k in s.logs && Selects(selector, s.logs[k]) ==>
      patch.ApplyTo(s.logs[k]) in r.result.value
    ensures r.result.Ok? ==> forall a, b :: 0 <= a < b < |r.result.value| ==>
      r.result.value[a].id < r.result.value[b].id
  {
    if !s.online then Step(s, Err(Offline))
    else
      var keep := Accepts(TimelogUpdateRequest(selector, patch).query);
      UpdateRows(s.logs, s.nextLogId, selector, patch);
      var patched := PatchWhere(s.logs, keep, patch);
      Step(s.(logs := patched), Ok(Pick(patched, MatchingKeys(s.logs, keep, s.nextLogId))))
  }

  lemma UpdateRows(logs: map<nat, Timelog>, n: nat, selector: TimelogQuery, patch: TimelogPatch)
    requires forall k :: k in logs ==> logs[k].id == k && k < n
    ensures var keep := Accepts(TimelogUpdateRequest(selector, patch).query);
      var patched := PatchWhere(logs, keep, patch);
      var rows := Pick(patched, MatchingKeys(logs, keep, n));
      && (forall k :: k in logs ==>
            patched[k] == (if Selects(selector, logs[k]) then patch.ApplyTo(logs[k]) else logs[k]))
      && (forall t :: t in rows ==>
            t.id in logs && Selects(selector, logs[t.id]) && t == patch.ApplyTo(logs[t.id]))
      && (forall k :: k in logs && Selects(selector, logs[k]) ==> patch.ApplyTo(logs[k]) in rows)
      && (forall a, b :: 0 <= a < b < |rows| ==> rows[a].id < rows[b].id)
  {
    var keep := Accepts(TimelogUpdateRequest(selector, patch).query);
    UpdateSelects(selector, patch);
    PatchedRows(logs, keep, n, patch);
  }

  // ---------------------------------------------------------------------------
  // The canned queries against the store
  // ---------------------------------------------------------------------------

  /** The active query returns exactly the user's unfinished logs. */
  lemma ActiveLogs(s: Store, user: U64)
    requires Valid(s) && s.online
    ensures forall t :: t in Timelogs(s, UserActiveTimelogs(user)).value <==>
      t in s.logs.Values && t.userId == user && t.finishedAt.None?
  {
    forall t ensures Selects(UserActiveTimelogs(user), t) <==> t.userId == user && t.finishedAt.None? {
      PairHolds(t, UserId(user), IsFinished(false));
    }
  }

  /** The finished query returns exactly the user's finished logs. */
  lemma FinishedLogs(s: Store, user: U64)
    requires Valid(s) && s.online
    ensures forall t :: t in Timelogs(s, UserFinishedTimelogs(user)).value <==>
      t in s.logs.Values && t.userId == user && t.finishedAt.Some?
  {
    forall t ensures Selects(UserFinishedTimelogs(user), t) <==> t.userId == user && t.finishedAt.Some? {
      PairHolds(t, UserId(user), IsFinished(true));
    }
  }

  lemma PairHolds(t: Timelog, a: TimelogFilter, b: TimelogFilter)
    ensures Satisfies(t, a.AndWith(b)) <==> Satisfies(t, a) && Satisfies(t, b)
  {
    var items := [a, b];
    assert items[0] == a && items[1..] == [b];
    assert [b][0] == b && [b][1..] == [];
    assert SatisfiesAll(t, [b]) <==> Satisfies(t, b) && SatisfiesAll(t, []);
  }

  /** A selector by id picks, in a valid store, the one log stored under that id. */
  lemma SelectsById(s: Store, id: U64, k: nat)
    requires Valid(s) && k in s.logs
    ensures Selects(NewSingleId(id), s.logs[k]) <==> k == id
  {
  }

  /** Rows with strictly increasing ids that all equal one row are that row, once. */
  lemma SingleRow(rows: seq<Timelog>, w: Timelog)
    requires forall a, b :: 0 <= a < b < |rows| ==> rows[a].id < rows[b].id
    requires forall t :: t in rows ==> t == w
    requires w in rows
    ensures rows == [w]
  {
    var last := |rows| - 1;
    assert rows[0] in rows && rows[last] in rows;
  }

  /** A sequence without members is empty. */
  lemma NoRows<T>(rows: seq<T>)
    requires forall t :: t !in rows
    ensures rows == []
  {
    HeadIn(rows);
  }

  lemma HeadIn<T>(rows: seq<T>)
    ensures |rows| > 0 ==> rows[0] in rows
  {
  }

  /** Any answer set for a by-id selector in a valid store is the log under that id, or nothing. */
  lemma ByIdRows(s: Store, id: U64, rows: seq<Timelog>)
    requires Valid(s)
    requires forall t :: t in rows <==> t in s.logs.Values && Selects(NewSingleId(id), t)
    requires forall a, b :: 0 <= a < b < |rows| ==> rows[a].id < rows[b].id
    ensures rows == (if id in s.logs then [s.logs[id]] else [])
  {
    forall t | t in rows ensures id in s.logs && t == s.logs[id] {
      var k :| k in s.logs && s.logs[k] == t;
      SelectsById(s, id, k);
    }
    if id in s.logs {
      SelectsById(s, id, id);
      assert s.logs[id] in rows;
      SingleRow(rows, s.logs[id]);
    } else {
      NoRows(rows);
    }
  }

  /** The by-id query returns the one log stored under that id, or nothing. */
  lemma LogById(s: Store, id: U64)
    requires Valid(s) && s.online
    ensures Timelogs(s, TimelogById(id)).value == (if id in s.logs then [s.logs[id]] else [])
  {
    ByIdRows(s, id, Timelogs(s, NewSingleId(id)).value);
  }

  /** Patching a single id returns that log, patched, and nothing else. */
  lemma UpdateByIdResult(s: Store, id: U64, patch: TimelogPatch)
    requires Valid(s) && s.online && id in s.logs
    ensures UpdateTimelogs(s, NewSingleId(id), patch).result == Ok([patch.ApplyTo(s.logs[id])])
  {
    var rows := UpdateTimelogs(s, NewSingleId(id), patch).result.value;
    var want := patch.ApplyTo(s.logs[id]);
    forall t | t in rows ensures t == want {
      SelectsById(s, id, t.id);
    }
    SelectsById(s, id, id);
    assert want in rows;
    SingleRow(rows, want);
  }

  /** Patching with a by-id selector changes the log under that id and no other. */
  lemma PatchOneId(s: Store, id: U64, patch: TimelogPatch, after: map<nat, Timelog>)
    requires Valid(s) && id in s.logs
    requires after.Keys == s.logs.Keys
    requires forall k :: k in s.logs ==>
      after[k] == (if Selects(NewSingleId(id), s.logs[k]) then patch.ApplyTo(s.logs[k]) else s.logs[k])
    ensures after == s.logs[id := patch.ApplyTo(s.logs[id])]
  {
    forall k | k in s.logs ensures after[k] == s.logs[id := patch.ApplyTo(s.logs[id])][k] {
      SelectsById(s, id, k);
    }
  }

  /** Patching a single id changes that log and no other. */
  lemma UpdateByIdStore(s: Store, id: U64, patch: TimelogPatch)
    requires Valid(s) && s.online && id in s.logs
    ensures UpdateTimelogs(s, NewSingleId(id), patch).store == s.(logs := s.logs[id := patch.ApplyTo(s.logs[id])])
  {
    PatchOneId(s, id, patch, UpdateTimelogs(s, NewSingleId(id), patch).store.logs);
  }
}
