/**
 * Compilation of typed filters and orderings into the multi-valued
 * query-parameter map of a PostgREST-style REST backend
 * (`QueryMap` and the `build_*` functions of crates/server/src/db/client_supabase.rs).
 */
module Query {
  import opened Wrappers
  import opened Text
  import opened DbTypes

  /** Parameter name to the values recorded under it, in insertion order. */
  type QueryMap = map<string, seq<string>>

  type Entry = (string, string)

  /** The values recorded under `k`; empty when the key was never added. */
  function Values(m: QueryMap, k: string): seq<string> {
    if k in m then m[k] else []
  }

  /** `QueryMap::add`: appends `v` to `k`'s list; earlier values stay. */
  function Add(m: QueryMap, k: string, v: string): (r: QueryMap)
    ensures Values(r, k) == Values(m, k) + [v]
    ensures forall j :: j != k ==> Values(r, j) == Values(m, j)
    ensures r.Keys == m.Keys + {k}
  {
    m[k := Values(m, k) + [v]]
  }

  /** `QueryMap::set`: replaces `k`'s list by `[v]`. */
  function Set(m: QueryMap, k: string, v: string): (r: QueryMap)
    ensures Values(r, k) == [v]
    ensures forall j :: j != k ==> Values(r, j) == Values(m, j)
    ensures r.Keys == m.Keys + {k}
  {
    m[k := [v]]
  }

  /** Adds every entry, first to last. */
  function AddAll(m: QueryMap, es: seq<Entry>): QueryMap
    decreases |es|
  {
    if |es| == 0 then m else AddAll(Add(m, es[0].0, es[0].1), es[1..])
  }

  /** The values the entries carry for key `k`, in order. */
  function ValuesFor(es: seq<Entry>, k: string): seq<string>
    decreases |es|
  {
    if |es| == 0 then []
    else (if es[0].0 == k then [es[0].1] else []) + ValuesFor(es[1..], k)
  }

  lemma {:induction false} ValuesForConcat(a: seq<Entry>, b: seq<Entry>, k: string)
    ensures ValuesFor(a + b, k) == ValuesFor(a, k) + ValuesFor(b, k)
    decreases |a|
  {
    if |a| > 0 {
      assert (a + b)[1..] == a[1..] + b;
      ValuesForConcat(a[1..], b, k);
    } else {
      assert a + b == b;
    }
  }

  /** Adding a run of entries appends, per key, exactly that key's values. */
  lemma {:induction false} ValuesAddAll(m: QueryMap, es: seq<Entry>, k: string)
    ensures Values(AddAll(m, es), k) == Values(m, k) + ValuesFor(es, k)
    decreases |es|
  {
    if |es| > 0 {
      ValuesAddAll(Add(m, es[0].0, es[0].1), es[1..], k);
    }
  }

  lemma {:induction false} AddAllConcat(m: QueryMap, a: seq<Entry>, b: seq<Entry>)
    ensures AddAll(AddAll(m, a), b) == AddAll(m, a + b)
    decreases |a|
  {
    if |a| > 0 {
      assert (a + b)[1..] == a[1..] + b;
      AddAllConcat(Add(m, a[0].0, a[0].1), a[1..], b);
    } else {
      assert a + b == b;
    }
  }

  // ---------------------------------------------------------------------------
  // User filters
  // ---------------------------------------------------------------------------

  /** `build_user_filter`. */
  function BuildUserFilter(f: UserFilter): (m: QueryMap)
    ensures f.ById? ==> m == map["id" := ["eq." + Decimal(f.id)]]
    ensures f.ByName? ==> m == map["username" := ["eq." + f.name]]
  {
    var empty: QueryMap := map[];
    match f
    case ById(id) =>
      var v := "eq." + Decimal(id);
      assert Values(empty, "id") + [v] == [v];
      Add(empty, "id", v)
    case ByName(name) =>
      var v := "eq." + name;
      assert Values(empty, "username") + [v] == [v];
      Add(empty, "username", v)
  }

  /** `build_user_query`: the filter's parameters, or none. */
  function BuildUserQuery(q: UserQuery): (m: QueryMap)
    ensures q.filter.None? ==> m == map[]
    ensures q.filter.Some? ==> m == BuildUserFilter(q.filter.value)
  {
    match q.filter
    case None => map[]
    case Some(f) => BuildUserFilter(f)
  }

  // ---------------------------------------------------------------------------
  // Timelog filters
  // ---------------------------------------------------------------------------

  const FilterKeys: set<string> := {"id", "user_id", "finished_at"}

  /** The grammar of one filter leaf. */
  function LeafEntry(f: TimelogFilter): Entry
    requires !f.And?
  {
    match f
    case Id(id) => ("id", "eq." + Decimal(id))
    case UserId(u) => ("user_id", "eq." + Decimal(u))
    case IsFinished(b) => ("finished_at", if b then "not.is.null" else "is.null")
  }

  /**
   * The entries a filter contributes, in order: the leaves of the tree,
   * left to right. This is the reference the recursive builder is checked against.
   */
  function Entries(f: TimelogFilter): (es: seq<Entry>)
    ensures forall i :: 0 <= i < |es| ==> es[i].0 in FilterKeys
    decreases f
  {
    match f
    case And(items) => EntriesAll(items)
    case _ => [LeafEntry(f)]
  }

  function EntriesAll(items: seq<TimelogFilter>): (es: seq<Entry>)
    ensures forall i :: 0 <= i < |es| ==> es[i].0 in FilterKeys
    decreases items
  {
    if |items| == 0 then [] else Entries(items[0]) + EntriesAll(items[1..])
  }

  /** `build_timelog_filter_rec`: adds the filter's parameters to `m`. */
  function FilterInto(f: TimelogFilter, m: QueryMap): (r: QueryMap)
    ensures r == AddAll(m, Entries(f))
    decreases f
  {
    match f
    case UserId(u) => Add(m, "user_id", "eq." + Decimal(u))
    case IsFinished(flag) =>
      if flag then Add(m, "finished_at", "not.is.null") else Add(m, "finished_at", "is.null")
    case And(items) => FilterEachInto(items, m)
    case Id(id) => Add(m, "id", "eq." + Decimal(id))
  }

  /** The `for item in items` loop of the `And` case. */
  function FilterEachInto(items: seq<TimelogFilter>, m: QueryMap): (r: QueryMap)
    ensures r == AddAll(m, EntriesAll(items))
    decreases items
  {
    if |items| == 0 then m
    else
      var next := FilterInto(items[0], m);
      AddAllConcat(m, Entries(items[0]), EntriesAll(items[1..]));
      FilterEachInto(items[1..], next)
  }

  /** `build_timelog_filter`: the filter compiled on its own. */
  function BuildTimelogFilter(f: TimelogFilter): (m: QueryMap)
    ensures forall k :: Values(m, k) == ValuesFor(Entries(f), k)
    ensures forall k :: k in m ==> k in FilterKeys
    ensures forall k :: k in m <==> Values(m, k) != []
  {
    var m := FilterInto(f, map[]);
    assert forall k :: Values(m, k) == ValuesFor(Entries(f), k) by {
      forall k {
        ValuesAddAll(map[], Entries(f), k);
      }
    }
    AddAllKeys(map[], Entries(f));
    forall k | k in m ensures k in FilterKeys {
      ValuesForKeys(Entries(f), k);
    }
    m
  }

  /** A key is present after `AddAll` exactly when it was before or some entry carries it. */
  lemma {:induction false} AddAllKeys(m: QueryMap, es: seq<Entry>)
    ensures forall k :: k in AddAll(m, es) <==> k in m || ValuesFor(es, k) != []
    decreases |es|
  {
    if |es| > 0 {
      AddAllKeys(Add(m, es[0].0, es[0].1), es[1..]);
    }
  }

  /** A key with values among the entries is the key of one of them. */
  lemma {:induction false} ValuesForKeys(es: seq<Entry>, k: string)
    requires ValuesFor(es, k) != []
    ensures exists i :: 0 <= i < |es| && es[i].0 == k
    decreases |es|
  {
    if es[0].0 != k {
      ValuesForKeys(es[1..], k);
      var i :| 0 <= i < |es[1..]| && es[1..][i].0 == k;
      assert es[i + 1].0 == k;
    }
  }

  /** The leaves: an id or user id compiles to one `eq.` value, a finished flag to `(not.)is.null`. */
  lemma LeafFilters(n: U64)
    ensures BuildTimelogFilter(Id(n)) == map["id" := ["eq." + Decimal(n)]]
    ensures BuildTimelogFilter(UserId(n)) == map["user_id" := ["eq." + Decimal(n)]]
    ensures BuildTimelogFilter(IsFinished(true)) == map["finished_at" := ["not.is.null"]]
    ensures BuildTimelogFilter(IsFinished(false)) == map["finished_at" := ["is.null"]]
    ensures BuildTimelogFilter(And([])) == map[]
  {
    var empty: QueryMap := map[];
    var v := "eq." + Decimal(n);
    assert Values(empty, "id") + [v] == [v];
    assert Values(empty, "user_id") + [v] == [v];
    assert Values(empty, "finished_at") + ["not.is.null"] == ["not.is.null"];
    assert Values(empty, "finished_at") + ["is.null"] == ["is.null"];
  }

  /** A conjunction contributes its children's values, child by child, in order. */
  lemma {:induction false} AndConcatenates(a: seq<TimelogFilter>, b: seq<TimelogFilter>, k: string)
    ensures Values(BuildTimelogFilter(And(a + b)), k)
         == Values(BuildTimelogFilter(And(a)), k) + Values(BuildTimelogFilter(And(b)), k)
  {
    EntriesAllConcat(a, b);
    ValuesForConcat(EntriesAll(a), EntriesAll(b), k);
  }

  lemma {:induction false} EntriesAllConcat(a: seq<TimelogFilter>, b: seq<TimelogFilter>)
    ensures EntriesAll(a + b) == EntriesAll(a) + EntriesAll(b)
    decreases |a|
  {
    if |a| == 0 {
      assert a + b == b;
    } else {
      assert (a + b)[0] == a[0];
      assert (a + b)[1..] == a[1..] + b;
      EntriesAllConcat(a[1..], b);
    }
  }

  /** The multiset of values a list of filters contributes under one key. */
  function KeyBag(items: seq<TimelogFilter>, k: string): multiset<string> {
    multiset(ValuesFor(EntriesAll(items), k))
  }

  lemma {:induction false} KeyBagConcat(a: seq<TimelogFilter>, b: seq<TimelogFilter>, k: string)
    ensures KeyBag(a + b, k) == KeyBag(a, k) + KeyBag(b, k)
  {
    EntriesAllConcat(a, b);
    ValuesForConcat(EntriesAll(a), EntriesAll(b), k);
  }

  /**
   * Reordering the branches of a conjunction in any way leaves every key's
   * multiset of values unchanged: only the order within a key can differ.
   */
  lemma {:induction false} AndReorderInvariant(xs: seq<TimelogFilter>, ys: seq<TimelogFilter>, k: string)
    requires multiset(xs) == multiset(ys)
    ensures multiset(Values(BuildTimelogFilter(And(xs)), k)) == multiset(Values(BuildTimelogFilter(And(ys)), k))
    decreases |xs|
  {
    assert Values(BuildTimelogFilter(And(xs)), k) == ValuesFor(EntriesAll(xs), k);
    assert Values(BuildTimelogFilter(And(ys)), k) == ValuesFor(EntriesAll(ys), k);
    KeyBagPermutation(xs, ys, k);
  }

  lemma {:induction false} KeyBagPermutation(xs: seq<TimelogFilter>, ys: seq<TimelogFilter>, k: string)
    requires multiset(xs) == multiset(ys)
    ensures KeyBag(xs, k) == KeyBag(ys, k)
    decreases |xs|
  {
    if |xs| == 0 {
      assert |ys| == |multiset(ys)| == 0;
    } else {
      var x := xs[0];
      assert x in multiset(ys);
      var j :| 0 <= j < |ys| && ys[j] == x;
      var rest := ys[..j] + ys[j + 1..];
      RemoveAt(ys, j);
      assert xs == [x] + xs[1..];
      assert multiset(xs[1..]) == multiset(xs) - multiset{x};
      KeyBagPermutation(xs[1..], rest, k);
      KeyBagConcat([x], xs[1..], k);
      KeyBagSplit(ys, j, k);
    }
  }

  lemma RemoveAt<T>(ys: seq<T>, j: nat)
    requires j < |ys|
    ensures multiset(ys[..j] + ys[j + 1..]) == multiset(ys) - multiset{ys[j]}
  {
    assert ys == ys[..j] + [ys[j]] + ys[j + 1..];
  }

  lemma {:induction false} KeyBagSplit(ys: seq<TimelogFilter>, j: nat, k: string)
    requires j < |ys|
    ensures KeyBag(ys, k) == KeyBag([ys[j]], k) + KeyBag(ys[..j] + ys[j + 1..], k)
  {
    assert ys == (ys[..j] + [ys[j]]) + ys[j + 1..];
    KeyBagConcat(ys[..j] + [ys[j]], ys[j + 1..], k);
    KeyBagConcat(ys[..j], [ys[j]], k);
    KeyBagConcat(ys[..j], ys[j + 1..], k);
  }

  // ---------------------------------------------------------------------------
  // Timelog queries
  // ---------------------------------------------------------------------------

  function ColumnName(e: TimelogOrder): string {
    match e
    case OrderId => "id"
    case OrderStartedAt => "started_at"
  }

  function DirectionName(d: Direction): string {
    match d
    case Asc => "asc"
    case Desc => "desc"
  }

  /** One `order` value, `column.direction`. */
  function OrderParam(o: Order): string {
    ColumnName(o.expr) + "." + DirectionName(o.direction)
  }

  function OrderParams(orders: seq<Order>): (r: seq<string>)
    ensures |r| == |orders|
    ensures forall i :: 0 <= i < |orders| ==> r[i] == OrderParam(orders[i])
  {
    if |orders| == 0 then [] else [OrderParam(orders[0])] + OrderParams(orders[1..])
  }

  /** The `order` entries of an order list, one per item, in input sequence. */
  function OrderEntries(orders: seq<Order>): seq<Entry> {
    if |orders| == 0 then [] else [("order", OrderParam(orders[0]))] + OrderEntries(orders[1..])
  }

  lemma {:induction false} OrderEntriesValues(orders: seq<Order>, k: string)
    ensures ValuesFor(OrderEntries(orders), k) == (if k == "order" then OrderParams(orders) else [])
    decreases |orders|
  {
    if |orders| > 0 {
      var es := OrderEntries(orders);
      assert es[0] == ("order", OrderParam(orders[0])) && es[1..] == OrderEntries(orders[1..]);
      OrderEntriesValues(orders[1..], k);
    }
  }

  /** The `for order in &q.order` loop: one `add("order", …)` per item, in input sequence. */
  function OrdersInto(orders: seq<Order>, m: QueryMap): (r: QueryMap)
    ensures r == AddAll(m, OrderEntries(orders))
    decreases |orders|
  {
    if |orders| == 0 then m
    else
      assert OrderEntries(orders)[1..] == OrderEntries(orders[1..]);
      OrdersInto(orders[1..], Add(m, "order", OrderParam(orders[0])))
  }

  /** The filter's parameters, or none without a filter. */
  function FilterBase(filter: Option<TimelogFilter>): (m: QueryMap)
    ensures forall k :: Values(m, k) == (if filter.None? then [] else ValuesFor(Entries(filter.value), k))
    ensures forall k :: k in m <==> Values(m, k) != []
    ensures "order" !in m && "select" !in m
  {
    if filter.None? then map[] else BuildTimelogFilter(filter.value)
  }

  /** `build_timelog_query`. */
  function BuildTimelogQuery(q: TimelogQuery): (m: QueryMap)
    ensures Values(m, "order") == OrderParams(q.order)
    ensures forall k :: k != "order" ==>
      Values(m, k) == (if q.filter.None? then [] else ValuesFor(Entries(q.filter.value), k))
    ensures "select" !in m
    ensures forall k :: k in m <==> Values(m, k) != []
  {
    OrderedValues(q.order, FilterBase(q.filter));
    OrdersInto(q.order, FilterBase(q.filter))
  }

  /** The order loop appends its values under `order` and leaves every other key alone. */
  lemma OrderedValues(orders: seq<Order>, base: QueryMap)
    requires forall k :: k in base <==> Values(base, k) != []
    ensures var m := OrdersInto(orders, base);
      && (forall k :: Values(m, k) == Values(base, k) + (if k == "order" then OrderParams(orders) else []))
      && (forall k :: k in m <==> Values(m, k) != [])
  {
    var m := OrdersInto(orders, base);
    forall k ensures Values(m, k) == Values(base, k) + (if k == "order" then OrderParams(orders) else []) {
      ValuesAddAll(base, OrderEntries(orders), k);
      OrderEntriesValues(orders, k);
    }
    AddAllKeys(base, OrderEntries(orders));
    forall k ensures k in m <==> Values(m, k) != [] {
      OrderEntriesValues(orders, k);
    }
  }

  /** The compiled query carries each key's values in the order the tree and order list give them. */
  lemma TimelogQueryOrderFree(q: TimelogQuery)
    requires q.order == []
    requires q.filter.Some?
    ensures BuildTimelogQuery(q) == BuildTimelogFilter(q.filter.value)
  {
  }

  /**
   * Two maps in which no key is present with an empty list are equal as soon
   * as they record the same values under every key.
   */
  lemma SameValuesSameMap(a: QueryMap, b: QueryMap)
    requires forall k :: k in a <==> Values(a, k) != []
    requires forall k :: k in b <==> Values(b, k) != []
    requires forall k :: Values(a, k) == Values(b, k)
    ensures a == b
  {
    assert a.Keys == b.Keys;
    forall k | k in a ensures a[k] == b[k] {
      assert Values(a, k) == Values(b, k);
    }
  }
}
