/**
 * The records and query descriptors the server exchanges with its store
 * (crates/server/src/db/types.rs).
 */
module DbTypes {
  import opened Wrappers
  import opened Text

  /** Unix time in whole seconds; RFC 3339 text is produced and read by foreign code. */
  type Time = int

  datatype User = User(
    id: U64,
    username: string,
    email: string,
    passwordHash: string,
    createdAt: Time
  )

  /** The row a signup sends; the store assigns `id` and `createdAt`. */
  datatype UserCreate = UserCreate(username: string, email: string, passwordHash: string)

  /**
   * A work session. `finishedAt` is kept as the raw text the store returns:
   * `None` while the session runs.
   */
  datatype Timelog = Timelog(
    id: U64,
    userId: U64,
    title: string,
    description: Option<string>,
    createdAt: Time,
    startedAt: Time,
    finishedAt: Option<string>
  ) {
    /** The finish time, when the raw text is present and parses as RFC 3339. */
    function FinishedTime(parseTime: string -> Option<Time>): (r: Option<Time>)
      ensures finishedAt.None? ==> r.None?
      ensures r.Some? ==> finishedAt.Some? && parseTime(finishedAt.value) == r
      ensures finishedAt.Some? ==> r == parseTime(finishedAt.value)
    {
      match finishedAt
      case None => None
      case Some(text) => parseTime(text)
    }
  }

  datatype TimelogCreate = TimelogCreate(
    userId: U64,
    title: string,
    description: Option<string>,
    createdAt: Time,
    startedAt: Time
  )

  /** A partial update: a `None` field is left out of the request body altogether. */
  datatype TimelogPatch = TimelogPatch(
    title: Option<string>,
    description: Option<string>,
    finishedAt: Option<string>
  ) {
    /** The row after the patch: present fields overwrite, absent ones keep their value. */
    function ApplyTo(t: Timelog): (r: Timelog)
      ensures r.id == t.id && r.userId == t.userId
      ensures r.createdAt == t.createdAt && r.startedAt == t.startedAt
      ensures r.title == (if title.Some? then title.value else t.title)
      ensures r.description == (if description.Some? then description else t.description)
      ensures r.finishedAt == (if finishedAt.Some? then finishedAt else t.finishedAt)
    {
      t.(title := if title.Some? then title.value else t.title,
         description := if description.Some? then description else t.description,
         finishedAt := if finishedAt.Some? then finishedAt else t.finishedAt)
    }
  }

  /**
   * The JSON object a patch serialises to: a member per present field and
   * none at all for an absent one (absent is not the same as `null`).
   */
  function PatchJson(p: TimelogPatch): (obj: map<string, string>)
    ensures "title" in obj <==> p.title.Some?
    ensures "description" in obj <==> p.description.Some?
    ensures "finished_at" in obj <==> p.finishedAt.Some?
    ensures obj.Keys <= {"title", "description", "finished_at"}
    ensures p.title.Some? ==> obj["title"] == p.title.value
    ensures p.description.Some? ==> obj["description"] == p.description.value
    ensures p.finishedAt.Some? ==> obj["finished_at"] == p.finishedAt.value
  {
    var none: map<string, string> := map[];
    var withTitle := if p.title.Some? then none["title" := p.title.value] else none;
    var withDescription :=
      if p.description.Some? then withTitle["description" := p.description.value] else withTitle;
    if p.finishedAt.Some? then withDescription["finished_at" := p.finishedAt.value] else withDescription
  }

  /** A predicate tree over timelogs. */
  datatype TimelogFilter =
    | Id(id: U64)
    | UserId(userId: U64)
    | IsFinished(finished: bool)
    | And(items: seq<TimelogFilter>)
  {
    /** `a.and(b)`: the two-element conjunction. */
    function AndWith(other: TimelogFilter): (r: TimelogFilter)
      ensures r.And? && |r.items| == 2 && r.items[0] == this && r.items[1] == other
    {
      And([this, other])
    }
  }

  /** What a timelog filter means for one row: the reference the query builder is checked against. */
  predicate Satisfies(t: Timelog, f: TimelogFilter)
    decreases f
  {
    match f
    case Id(id) => t.id == id
    case UserId(u) => t.userId == u
    case IsFinished(b) => t.finishedAt.Some? == b
    case And(items) => SatisfiesAll(t, items)
  }

  predicate SatisfiesAll(t: Timelog, items: seq<TimelogFilter>)
    decreases items
  {
    |items| == 0 || (Satisfies(t, items[0]) && SatisfiesAll(t, items[1..]))
  }

  datatype Direction = Asc | Desc

  datatype TimelogOrder = OrderId | OrderStartedAt

  datatype Order = Order(expr: TimelogOrder, direction: Direction)

  /** `Order::asc(e)`. */
  function Ascending(e: TimelogOrder): (o: Order)
    ensures o.expr == e && o.direction.Asc?
  {
    Order(e, Asc)
  }

  /** `Order::desc(e)`. */
  function Descending(e: TimelogOrder): (o: Order)
    ensures o.expr == e && o.direction.Desc?
  {
    Order(e, Desc)
  }

  datatype TimelogQuery = TimelogQuery(
    filter: Option<TimelogFilter>,
    limit: U64,
    offset: U64,
    order: seq<Order>
  )

  /** `TimelogQuery::new()`: everything, first fifty rows, no ordering. */
  function NewQuery(): (q: TimelogQuery)
    ensures q.filter.None? && q.limit == 50 && q.offset == 0 && q.order == []
  {
    TimelogQuery(None, 50, 0, [])
  }

  /** `TimelogQuery::new_single_id(id)`: `new()` narrowed to one id and one row. */
  function NewSingleId(id: U64): (q: TimelogQuery)
    ensures q.filter == Some(Id(id)) && q.limit == 1
    ensures q.offset == NewQuery().offset && q.order == NewQuery().order
  {
    NewQuery().(filter := Some(Id(id)), limit := 1)
  }

  datatype UserFilter = ById(id: U64) | ByName(name: string)

  /** What a user filter means for one row. */
  predicate UserSatisfies(u: User, f: UserFilter) {
    match f
    case ById(id) => u.id == id
    case ByName(name) => u.username == name
  }

  datatype UserQuery = UserQuery(filter: Option<UserFilter>, limit: U64, offset: U64)
}
