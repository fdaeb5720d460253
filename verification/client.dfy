/**
 * The REST client of crates/server/src/db/client_supabase.rs: URL joining,
 * the headers and parameters each `Db` operation sends, and how replies are
 * turned into values or errors. The HTTP exchange itself is not modelled;
 * the requests are values.
 */
module Client {
  import opened Wrappers
  import opened Text
  import opened DbTypes
  import opened Query
  import opened Errors

  datatype SupaDb = SupaDb(endpoint: string, apiKey: string)

  /** `SupaDb::new`: keeps the key and drops one trailing `/` from the endpoint. */
  function Connect(endpoint: string, apiKey: string): (db: SupaDb)
    ensures db.apiKey == apiKey
    ensures |endpoint| > 0 && endpoint[|endpoint| - 1] == '/' ==> endpoint == db.endpoint + "/"
    ensures (|endpoint| == 0 || endpoint[|endpoint| - 1] != '/') ==> db.endpoint == endpoint
  {
    SupaDb(DropTrailing(endpoint, '/'), apiKey)
  }

  /** The URL `send` addresses: the endpoint, one `/`, and the path without one leading `/`. */
  function RequestUrl(db: SupaDb, path: string): string {
    db.endpoint + "/" + DropLeading(path, '/')
  }

  /**
   * Joining is insensitive to one trailing slash on the endpoint and one
   * leading slash on the path: all four spellings give the same URL.
   */
  lemma UrlJoinSingleSlash(e: string, p: string, key: string)
    requires |e| == 0 || e[|e| - 1] != '/'
    requires |p| == 0 || p[0] != '/'
    ensures RequestUrl(Connect(e + "/", key), "/" + p) == e + "/" + p
    ensures RequestUrl(Connect(e + "/", key), p) == e + "/" + p
    ensures RequestUrl(Connect(e, key), "/" + p) == e + "/" + p
    ensures RequestUrl(Connect(e, key), p) == e + "/" + p
  {
    assert (e + "/")[..|e + "/"| - 1] == e;
    assert ("/" + p)[1..] == p;
  }

  /** Only one slash is removed on each side: doubled slashes survive the join. */
  lemma UrlJoinAtMostOne(e: string, p: string, key: string)
    requires |e| == 0 || e[|e| - 1] != '/'
    ensures RequestUrl(Connect(e + "//", key), "//" + p) == e + "///" + p
  {
    assert (e + "//")[..|e + "//"| - 1] == e + "/";
    assert ("//" + p)[1..] == "/" + p;
  }

  lemma UrlJoinExample()
    ensures RequestUrl(Connect("https://h/", "k"), "/users?x") == "https://h/users?x"
  {
    UrlJoinSingleSlash("https://h", "users?x", "k");
  }

  // ---------------------------------------------------------------------------
  // Requests
  // ---------------------------------------------------------------------------

  datatype HttpMethod = GET | POST | PATCH

  /** A JSON request body. */
  datatype Payload =
    | NoPayload
    | NewUser(user: UserCreate)
    | NewTimelog(log: TimelogCreate)
    | PatchObject(members: map<string, string>)

  /**
   * One request as a `Db` operation builds it; `path` is the table path and
   * `query` the parameters `to_query` would encode after the `?`.
   */
  datatype Request = Request(
    verb: HttpMethod,
    path: string,
    query: QueryMap,
    headers: map<string, string>,
    body: Payload
  )

  const JSON: string := "application/json"

  /** `list_table`'s `Range` header: the offset, a dash, then the limit, both in decimal. */
  function RangeHeader(limit: U64, offset: U64): string {
    Decimal(offset) + "-" + Decimal(limit)
  }

  /**
   * The header reads back as the pair (offset, limit): the second number is
   * the limit itself, not the index of the last row wanted.
   */
  lemma RangeHeaderReadsBack(limit: U64, offset: U64)
    ensures SplitOnce(RangeHeader(limit, offset), '-') == Some((Decimal(offset), Decimal(limit)))
    ensures ParseU64(Decimal(offset)) == Some(offset as U64)
    ensures ParseU64(Decimal(limit)) == Some(limit as U64)
  {
    var d := Decimal(offset);
    assert '-' !in d by {
      forall i | 0 <= i < |d| ensures d[i] != '-' {
        assert IsDigit(d[i]);
      }
    }
    SplitOnceAt(d, '-', Decimal(limit));
    ParseDecimal(offset);
    ParseDecimal(limit);
  }

  /** Headers of `get_json`, plus the `Range` header when listing. */
  function ReadHeaders(range: Option<string>): map<string, string> {
    var h := map["content-type" := JSON, "accept" := JSON];
    if range.Some? then h["Range" := range.value] else h
  }

  /** Headers of `send_json_with_prefer_return`: the backend echoes the written rows. */
  function WriteHeaders(): map<string, string> {
    map["content-type" := JSON, "accept" := JSON, "Prefer" := "return=representation"]
  }

  /** `Db::user`: the user filter with `select` set to `*`. */
  function UserRequest(f: UserFilter): (r: Request)
    ensures r.verb == GET && r.path == "/users" && r.body == NoPayload
    ensures Values(r.query, "select") == ["*"]
    ensures forall k :: k != "select" ==> Values(r.query, k) == Values(BuildUserFilter(f), k)
    ensures "Range" !in r.headers && "Prefer" !in r.headers
  {
    Request(GET, "/users", Set(BuildUserFilter(f), "select", "*"), ReadHeaders(None), NoPayload)
  }

  /** `Db::users`: the user query with `select` set to `*`, paged by the `Range` header. */
  function UsersRequest(q: UserQuery): (r: Request)
    ensures r.verb == GET && r.path == "/users" && r.body == NoPayload
    ensures Values(r.query, "select") == ["*"]
    ensures forall k :: k != "select" ==> Values(r.query, k) == Values(BuildUserQuery(q), k)
    ensures "Range" in r.headers && SplitOnce(r.headers["Range"], '-') == Some((Decimal(q.offset), Decimal(q.limit)))
  {
    RangeHeaderReadsBack(q.limit, q.offset);
    Request(GET, "/users", Set(BuildUserQuery(q), "select", "*"),
            ReadHeaders(Some(RangeHeader(q.limit, q.offset))), NoPayload)
  }

  /** `Db::user_create`: the draft as body, no parameters, and the rows echoed back. */
  function UserCreateRequest(draft: UserCreate): (r: Request)
    ensures r.verb == POST && r.path == "/users" && r.query == map[] && r.body == NewUser(draft)
    ensures "Prefer" in r.headers && r.headers["Prefer"] == "return=representation"
    ensures "Range" !in r.headers
  {
    Request(POST, "/users", map[], WriteHeaders(), NewUser(draft))
  }

  /** `Db::timelogs`: the compiled query with `select=*` added, paged by the `Range` header. */
  function TimelogsRequest(q: TimelogQuery): (r: Request)
    ensures r.verb == GET && r.path == "/timelogs" && r.body == NoPayload
    ensures Values(r.query, "select") == ["*"]
    ensures forall k :: k != "select" ==> Values(r.query, k) == Values(BuildTimelogQuery(q), k)
    ensures "Range" in r.headers && SplitOnce(r.headers["Range"], '-') == Some((Decimal(q.offset), Decimal(q.limit)))
  {
    RangeHeaderReadsBack(q.limit, q.offset);
    Request(GET, "/timelogs", Add(BuildTimelogQuery(q), "select", "*"),
            ReadHeaders(Some(RangeHeader(q.limit, q.offset))), NoPayload)
  }

  /** `Db::timelog_create`: the draft as body, no parameters, and the rows echoed back. */
  function TimelogCreateRequest(draft: TimelogCreate): (r: Request)
    ensures r.verb == POST && r.path == "/timelogs" && r.query == map[] && r.body == NewTimelog(draft)
    ensures "Prefer" in r.headers && r.headers["Prefer"] == "return=representation"
    ensures "Range" !in r.headers
  {
    Request(POST, "/timelogs", map[], WriteHeaders(), NewTimelog(draft))
  }

  /** `Db::timelog_update`: the selector's compiled query with `select` set, and the patch as body. */
  function TimelogUpdateRequest(selector: TimelogQuery, patch: TimelogPatch): (r: Request)
    ensures r.verb == PATCH && r.path == "/timelogs"
    ensures Values(r.query, "select") == ["*"]
    ensures forall k :: k != "select" ==> Values(r.query, k) == Values(BuildTimelogQuery(selector), k)
    ensures r.body.PatchObject? && r.body.members.Keys <= {"title", "description", "finished_at"}
    ensures ("finished_at" in r.body.members <==> patch.finishedAt.Some?)
    ensures "Prefer" in r.headers && r.headers["Prefer"] == "return=representation"
    ensures "Range" !in r.headers
  {
    Request(PATCH, "/timelogs", Set(BuildTimelogQuery(selector), "select", "*"), WriteHeaders(),
            PatchObject(PatchJson(patch)))
  }

  /** What goes on the wire: the joined URL and the final header set. */
  datatype Outgoing = Outgoing(url: string, headers: map<string, string>)

  /** `send`: the joined URL and the `apikey` header on top of the request's own headers. */
  function Send(db: SupaDb, req: Request): Outgoing {
    Outgoing(RequestUrl(db, req.path), req.headers["apikey" := db.apiKey])
  }

  /**
   * No builder emits `select`, so every read and update asks for exactly
   * `select=*`, whether it was added or set.
   */
  lemma SelectIsStar(f: UserFilter, uq: UserQuery, q: TimelogQuery, p: TimelogPatch)
    ensures Values(UserRequest(f).query, "select") == ["*"]
    ensures Values(UsersRequest(uq).query, "select") == ["*"]
    ensures Values(TimelogsRequest(q).query, "select") == ["*"]
    ensures Values(TimelogUpdateRequest(q, p).query, "select") == ["*"]
    ensures Add(BuildTimelogQuery(q), "select", "*") == Set(BuildTimelogQuery(q), "select", "*")
  {
    assert Values(BuildTimelogQuery(q), "select") == [];
  }

  /**
   * An update sends no `Range` header, so a selector's limit and offset never
   * reach the backend: only its filter (and order list) shape the request.
   */
  lemma UpdateIgnoresPagination(selector: TimelogQuery, other: TimelogQuery, p: TimelogPatch)
    requires selector.filter == other.filter && selector.order == other.order
    ensures TimelogUpdateRequest(selector, p) == TimelogUpdateRequest(other, p)
  {
    var base: QueryMap := if selector.filter.None? then map[] else BuildTimelogFilter(selector.filter.value);
    assert BuildTimelogQuery(selector) == OrdersInto(selector.order, base);
    assert BuildTimelogQuery(other) == OrdersInto(other.order, base);
  }

  lemma UpdateSendsNoRange(selector: TimelogQuery, p: TimelogPatch)
    ensures "Range" !in TimelogUpdateRequest(selector, p).headers
    ensures "Range" in TimelogsRequest(selector).headers
  {
    assert WriteHeaders().Keys == {"content-type", "accept", "Prefer"};
  }

  /** Every request carries the API key once it goes through `send`. */
  lemma SendAddsApiKey(db: SupaDb, req: Request)
    ensures "apikey" in Send(db, req).headers && Send(db, req).headers["apikey"] == db.apiKey
    ensures forall h :: h in req.headers && h != "apikey" ==> h in Send(db, req).headers && Send(db, req).headers[h] == req.headers[h]
  {
  }

  // ---------------------------------------------------------------------------
  // Replies
  // ---------------------------------------------------------------------------

  predicate IsSuccess(status: nat) {
    200 <= status < 300
  }

  /**
   * What came back for one request: nothing (the exchange failed), or a
   * status with the body decoded as the expected value and as an API error,
   * each when it decodes.
   */
  datatype Reply<T> = NoReply | Reply(status: nat, decoded: Option<T>, apiError: Option<ApiError>)

  /** `get_json` / `list_table`: a non-2xx status is an error before the body is read. */
  function ReadOutcome<T>(r: Reply<T>): (out: Result<T, BackendError>)
    ensures out.Ok? <==> r.Reply? && IsSuccess(r.status) && r.decoded.Some?
    ensures out.Ok? ==> out.value == r.decoded.value
    ensures r.NoReply? ==> out == Err(Transport)
    ensures r.Reply? && !IsSuccess(r.status) ==> out == Err(Status(r.status))
    ensures r.Reply? && IsSuccess(r.status) && r.decoded.None? ==> out == Err(Decode)
  {
    match r
    case NoReply => Err(Transport)
    case Reply(status, decoded, _) =>
      if !IsSuccess(status) then Err(Status(status))
      else if decoded.None? then Err(Decode)
      else Ok(decoded.value)
  }

  /** `send_json_with_prefer_return`: a non-2xx status carries the parsed API error when there is one. */
  function WriteOutcome<T>(r: Reply<T>): (out: Result<T, BackendError>)
    ensures out.Ok? <==> r.Reply? && IsSuccess(r.status) && r.decoded.Some?
    ensures out.Ok? ==> out.value == r.decoded.value
    ensures r.NoReply? ==> out == Err(Transport)
    ensures r.Reply? && !IsSuccess(r.status) ==> out == Err(Api(r.apiError))
    ensures r.Reply? && IsSuccess(r.status) && r.decoded.None? ==> out == Err(Decode)
  {
    match r
    case NoReply => Err(Transport)
    case Reply(status, decoded, apiError) =>
      if !IsSuccess(status) then Err(Api(apiError))
      else if decoded.None? then Err(Decode)
      else Ok(decoded.value)
  }

  /**
   * Reads and writes classify a reply alike, except for a non-2xx status:
   * a read reports the bare status, a write the API error it carried.
   */
  lemma OutcomesDifferOnlyOnStatus<T>(r: Reply<T>)
    ensures ReadOutcome(r) == WriteOutcome(r) <==> r.NoReply? || IsSuccess(r.status)
    ensures r.Reply? && !IsSuccess(r.status) ==>
      ReadOutcome(r) == Err(Status(r.status)) && WriteOutcome(r) == Err(Api(r.apiError))
  {
  }

  /** `Db::user`: the first row of a successful read, if any. */
  function UserOutcome(r: Reply<seq<User>>): (out: Result<Option<User>, Error>)
    ensures out.Ok? <==> ReadOutcome(r).Ok?
    ensures out.Err? ==> out.error == Backend(ReadOutcome(r).error)
    ensures out.Ok? ==> (out.value.None? <==> |ReadOutcome(r).value| == 0)
    ensures out.Ok? && out.value.Some? ==> out.value.value == ReadOutcome(r).value[0]
  {
    match ReadOutcome(r)
    case Err(e) => Err(Backend(e))
    case Ok(rows) => Ok(if |rows| == 0 then None else Some(rows[0]))
  }

  const NO_USER_ROW: string := "API returned invalid data"
  const NO_TIMELOG_ROW: string := "No item in response"

  /**
   * `Db::user_create` / `Db::timelog_create`: the first echoed row; an empty
   * echo fails with the operation's own context text.
   */
  function CreatedOutcome<T>(r: Reply<seq<T>>, emptyText: string): (out: Result<T, Error>)
    ensures out.Ok? <==> WriteOutcome(r).Ok? && |WriteOutcome(r).value| > 0
    ensures out.Ok? ==> out.value == WriteOutcome(r).value[0]
    ensures WriteOutcome(r).Err? ==> out == Err(Backend(WriteOutcome(r).error))
    ensures WriteOutcome(r).Ok? && |WriteOutcome(r).value| == 0 ==> out == Err(Message(emptyText))
  {
    match WriteOutcome(r)
    case Err(e) => Err(Backend(e))
    case Ok(rows) => if |rows| == 0 then Err(Message(emptyText)) else Ok(rows[0])
  }
}
