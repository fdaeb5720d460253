/**
 * How the REST backend reads a query-parameter map: every non-reserved key
 * names a column, and every value under it is one condition on that column
 * (`eq.V`, `is.null`, `not.is.null`); a row is selected when all hold.
 * This is the backend's side of the contract, written down so that the
 * builders of the Query module can be checked against the filter trees.
 */
module Postgrest {
  import opened Wrappers
  import opened Text
  import opened DbTypes
  import opened Query

  /** A column value as text, or SQL null. */
  datatype Cell = Null | Str(text: string)

  type Row = map<string, Cell>

  /** Parameters the backend treats as instructions rather than column filters. */
  const Reserved: set<string> := {"select", "order", "limit", "offset"}

  function Column(row: Row, col: string): Option<Cell> {
    if col in row then Some(row[col]) else None
  }

  /** One condition on one column. An unknown operator or column selects nothing. */
  predicate CondHolds(cell: Option<Cell>, cond: string) {
    if cond == "is.null" then cell == Some(Null)
    else if cond == "not.is.null" then cell.Some? && cell.value.Str?
    else if |cond| >= 3 && cond[..3] == "eq." then cell == Some(Str(cond[3..]))
    else false
  }

  predicate EntryHolds(row: Row, e: Entry) {
    e.0 in Reserved || CondHolds(Column(row, e.0), e.1)
  }

  /** Whether the backend selects `row` for the parameters `qm`. */
  predicate Matches(row: Row, qm: QueryMap) {
    forall k :: k in qm && k !in Reserved ==> forall v :: v in qm[k] ==> CondHolds(Column(row, k), v)
  }

  predicate AllHold(row: Row, es: seq<Entry>) {
    forall i :: 0 <= i < |es| ==> EntryHolds(row, es[i])
  }

  function TimelogRow(t: Timelog): Row {
    map[
      "id" := Str(Decimal(t.id)),
      "user_id" := Str(Decimal(t.userId)),
      "title" := Str(t.title),
      "description" := (if t.description.Some? then Str(t.description.value) else Null),
      "finished_at" := (if t.finishedAt.Some? then Str(t.finishedAt.value) else Null)
    ]
  }

  function UserRow(u: User): Row {
    map[
      "id" := Str(Decimal(u.id)),
      "username" := Str(u.username),
      "email" := Str(u.email),
      "password_hash" := Str(u.passwordHash)
    ]
  }

  // ---------------------------------------------------------------------------
  // Matching a map built by Add / AddAll
  // ---------------------------------------------------------------------------

  lemma MatchesEmpty(row: Row)
    ensures Matches(row, map[])
  {
  }

  lemma MatchesAdd(row: Row, m: QueryMap, k: string, v: string)
    ensures Matches(row, Add(m, k, v)) <==> Matches(row, m) && EntryHolds(row, (k, v))
  {
    var r := Add(m, k, v);
    if Matches(row, m) && EntryHolds(row, (k, v)) {
      forall j | j in r && j !in Reserved
        ensures forall w :: w in r[j] ==> CondHolds(Column(row, j), w)
      {
        assert r[j] == Values(r, j);
        if j == k {
          assert r[j] == Values(m, k) + [v];
        } else {
          assert r[j] == Values(m, j);
        }
      }
    }
    if Matches(row, r) {
      forall j | j in m && j !in Reserved
        ensures forall w :: w in m[j] ==> CondHolds(Column(row, j), w)
      {
        assert m[j] == Values(m, j);
        if j == k {
          assert r[j] == m[j] + [v];
        } else {
          assert r[j] == m[j];
        }
      }
      if k !in Reserved {
        assert v in r[k];
      }
    }
  }

  lemma {:induction false} MatchesAddAll(row: Row, m: QueryMap, es: seq<Entry>)
    ensures Matches(row, AddAll(m, es)) <==> Matches(row, m) && AllHold(row, es)
    decreases |es|
  {
    if |es| > 0 {
      MatchesAdd(row, m, es[0].0, es[0].1);
      MatchesAddAll(row, Add(m, es[0].0, es[0].1), es[1..]);
      assert AllHold(row, es) <==> EntryHolds(row, es[0]) && AllHold(row, es[1..]) by {
        if EntryHolds(row, es[0]) && AllHold(row, es[1..]) {
          forall i | 0 <= i < |es| ensures EntryHolds(row, es[i]) {
            if i > 0 {
              assert es[i] == es[1..][i - 1];
            }
          }
        }
      }
    }
  }

  lemma AllHoldConcat(row: Row, a: seq<Entry>, b: seq<Entry>)
    ensures AllHold(row, a + b) <==> AllHold(row, a) && AllHold(row, b)
  {
    if AllHold(row, a + b) {
      forall i | 0 <= i < |a| ensures EntryHolds(row, a[i]) {
        assert a[i] == (a + b)[i];
      }
      forall i | 0 <= i < |b| ensures EntryHolds(row, b[i]) {
        assert b[i] == (a + b)[|a| + i];
      }
    }
    if AllHold(row, a) && AllHold(row, b) {
      forall i | 0 <= i < |a + b| ensures EntryHolds(row, (a + b)[i]) {
        if i < |a| {
          assert (a + b)[i] == a[i];
        } else {
          assert (a + b)[i] == b[i - |a|];
        }
      }
    }
  }

  lemma AllHoldSingle(row: Row, e: Entry)
    ensures AllHold(row, [e]) <==> EntryHolds(row, e)
  {
    assert [e][0] == e;
  }

  // ---------------------------------------------------------------------------
  // Soundness of the builders
  // ---------------------------------------------------------------------------

  lemma EqualityCondition(n: U64, m: U64)
    ensures CondHolds(Some(Str(Decimal(m))), "eq." + Decimal(n)) <==> m == n
  {
    var cond := "eq." + Decimal(n);
    assert cond[0] == 'e';
    assert cond[..3] == "eq." && cond[3..] == Decimal(n);
    if Decimal(m) == Decimal(n) {
      DecimalInjective(m, n);
    }
  }

  lemma {:induction false} EntriesSound(t: Timelog, f: TimelogFilter)
    ensures AllHold(TimelogRow(t), Entries(f)) <==> Satisfies(t, f)
    decreases f
  {
    var row := TimelogRow(t);
    match f
    case Id(id) =>
      assert Column(row, "id") == Some(Str(Decimal(t.id)));
      var e := ("id", "eq." + Decimal(id));
      assert Entries(f) == [e];
      AllHoldSingle(row, e);
      EqualityCondition(id, t.id);
    case UserId(u) =>
      assert Column(row, "user_id") == Some(Str(Decimal(t.userId)));
      var e := ("user_id", "eq." + Decimal(u));
      assert Entries(f) == [e];
      AllHoldSingle(row, e);
      EqualityCondition(u, t.userId);
    case IsFinished(b) =>
      assert Column(row, "finished_at") == Some(if t.finishedAt.Some? then Str(t.finishedAt.value) else Null);
      assert Entries(f) == [LeafEntry(f)];
      AllHoldSingle(row, LeafEntry(f));
    case And(items) =>
      EntriesAllSound(t, items);
  }

  lemma {:induction false} EntriesAllSound(t: Timelog, items: seq<TimelogFilter>)
    ensures AllHold(TimelogRow(t), EntriesAll(items)) <==> SatisfiesAll(t, items)
    decreases items
  {
    if |items| > 0 {
      EntriesSound(t, items[0]);
      EntriesAllSound(t, items[1..]);
      AllHoldConcat(TimelogRow(t), Entries(items[0]), EntriesAll(items[1..]));
    }
  }

  /** The compiled filter selects exactly the timelogs the filter tree describes. */
  lemma FilterSound(t: Timelog, f: TimelogFilter)
    ensures Matches(TimelogRow(t), BuildTimelogFilter(f)) <==> Satisfies(t, f)
  {
    MatchesAddAll(TimelogRow(t), map[], Entries(f));
    EntriesSound(t, f);
  }

  /** Adding `select` or `order` parameters never changes which rows are selected. */
  lemma ReservedIgnored(row: Row, m: QueryMap, k: string, v: string)
    requires k in Reserved
    ensures Matches(row, Add(m, k, v)) <==> Matches(row, m)
    ensures Matches(row, Set(m, k, v)) <==> Matches(row, m)
  {
    MatchesAdd(row, m, k, v);
    var r := Set(m, k, v);
    if Matches(row, m) {
      forall j | j in r && j !in Reserved
        ensures forall w :: w in r[j] ==> CondHolds(Column(row, j), w)
      {
        assert r[j] == Values(r, j) == Values(m, j);
      }
    }
    if Matches(row, r) {
      forall j | j in m && j !in Reserved
        ensures forall w :: w in m[j] ==> CondHolds(Column(row, j), w)
      {
        assert m[j] == Values(m, j) == Values(r, j);
      }
    }
  }

  /** A compiled timelog query selects exactly the rows its filter describes; orders select nothing away. */
  lemma {:induction false} TimelogQuerySound(t: Timelog, q: TimelogQuery)
    ensures Matches(TimelogRow(t), BuildTimelogQuery(q)) <==> (q.filter.None? || Satisfies(t, q.filter.value))
    decreases |q.order|
  {
    var row := TimelogRow(t);
    var m := BuildTimelogQuery(q);
    var base: QueryMap := if q.filter.None? then map[] else BuildTimelogFilter(q.filter.value);
    assert forall k :: k !in Reserved ==> Values(m, k) == Values(base, k);
    SameFilterValues(row, m, base);
    if q.filter.Some? {
      FilterSound(t, q.filter.value);
    }
  }

  /** Two maps that agree on every non-reserved key select the same rows. */
  lemma SameFilterValues(row: Row, a: QueryMap, b: QueryMap)
    requires forall k :: k !in Reserved ==> Values(a, k) == Values(b, k)
    ensures Matches(row, a) <==> Matches(row, b)
  {
    if Matches(row, a) {
      forall k | k in b && k !in Reserved
        ensures forall v :: v in b[k] ==> CondHolds(Column(row, k), v)
      {
        assert b[k] == Values(b, k) == Values(a, k);
      }
    }
    if Matches(row, b) {
      forall k | k in a && k !in Reserved
        ensures forall v :: v in a[k] ==> CondHolds(Column(row, k), v)
      {
        assert a[k] == Values(a, k) == Values(b, k);
      }
    }
  }

  /** The compiled user filter selects exactly the users the filter describes. */
  lemma UserFilterSound(u: User, f: UserFilter)
    ensures Matches(UserRow(u), BuildUserFilter(f)) <==> UserSatisfies(u, f)
  {
    var row := UserRow(u);
    var empty: QueryMap := map[];
    match f
    case ById(id) =>
      var cond := "eq." + Decimal(id);
      assert BuildUserFilter(f) == Add(empty, "id", cond);
      MatchesAdd(row, empty, "id", cond);
      assert Column(row, "id") == Some(Str(Decimal(u.id)));
      EqualityCondition(id, u.id);
    case ByName(name) =>
      var cond := "eq." + name;
      assert BuildUserFilter(f) == Add(empty, "username", cond);
      MatchesAdd(row, empty, "username", cond);
      assert Column(row, "username") == Some(Str(u.username));
      assert cond[0] == 'e';
      assert cond[..3] == "eq." && cond[3..] == name;
  }
}
