/** app/api/orders/route.ts: `GET` lists orders with search, status filter and pagination, and
    gives every returned order a status. */
module OrdersApi {
  import opened Wrappers
  import opened Text
  import opened Time
  import opened Http
  import opened ListQuery
  import opened OrderModel

  datatype Query = Query(page: Option<int>, limit: Option<int>, search: string, status: string)

  predicate WellFormed(q: Query) {
    PageParam(q.page) >= 1 && LimitParam(q.limit) >= 1
  }

  /** The `filter` record: an optional `$or` of text clauses and an optional exact `status`. */
  datatype OrderFilter = OrderFilter(text: Option<string>, status: Option<string>)

  /** The `$or` clause: `orderNumber` or the customer's first name, last name or email contains
      the search, ignoring case. */
  predicate TextMatches(search: string, o: Order) {
    (o.orderNumber.Some? && ContainsIgnoreCase(o.orderNumber.value, search)) ||
    ContainsIgnoreCase(o.customer.firstname, search) ||
    ContainsIgnoreCase(o.customer.lastname, search) ||
    ContainsIgnoreCase(o.customer.email, search)
  }

  predicate FilterMatches(f: OrderFilter, o: Order) {
    (f.text.None? || TextMatches(f.text.value, o)) &&
    (f.status.None? || o.status == Some(f.status.value))
  }

  /** What a query asks for: an empty search imposes nothing, nor does a status that is empty
      or "all"; any other status must be the order's own, exactly. */
  predicate Selects(q: Query, o: Order) {
    (q.search == "" || TextMatches(q.search, o)) &&
    (q.status == "" || q.status == "all" || o.status == Some(q.status))
  }

  function Selector(q: Query): Order -> bool {
    o => Selects(q, o)
  }

  /** `.sort({ createdAt: -1 })`: newest order first. */
  function NewestFirst(o: Order): int {
    -(Rank(o.createdAt) as int)
  }

  /** Lines 26-37: start from `{}` and add the clauses the query calls for. */
  method BuildFilter(q: Query) returns (f: OrderFilter)
    ensures forall o :: FilterMatches(f, o) <==> Selects(q, o)
    ensures f.text.Some? <==> q.search != ""
    ensures f.status.Some? <==> q.status != "" && q.status != "all"
  {
    f := OrderFilter(None, None);
    if q.search != "" {
      f := f.(text := Some(q.search));
    }
    if q.status != "" && q.status != "all" {
      f := f.(status := Some(q.status));
    }
  }

  /** `{ ...order, status: order.status || "pending" }`. */
  function Normalize(o: Order): (r: Order)
    ensures r.status.Some? && r.status.value != ""
    ensures o.status.None? || o.status == Some("") ==> r.status == Some(DefaultStatus)
    ensures o.status.Some? && o.status.value != "" ==> r.status == o.status
    ensures r.(status := o.status) == o
  {
    if o.status.None? || o.status == Some("") then o.(status := Some(DefaultStatus)) else o
  }

  /** `orders.map(...)`: the same orders in the same order, each normalised. */
  function NormalizeAll(os: seq<Order>): (r: seq<Order>)
    ensures |r| == |os|
    ensures forall i :: 0 <= i < |os| ==> r[i] == Normalize(os[i])
  {
    seq(|os|, i requires 0 <= i < |os| => Normalize(os[i]))
  }

  /** Normalising an already normalised order changes nothing. */
  lemma NormalizeIdempotent(o: Order)
    ensures Normalize(Normalize(o)) == Normalize(o)
  {
  }

  datatype ListResponse = ListUnauthorized | Listed(orders: seq<Order>, pagination: Pagination) {
    function Code(): int {
      if ListUnauthorized? then 401 else 200
    }
  }

  /** `o` is the normalised form of an order of `db` that the query selects. */
  predicate NormalizedMatch(q: Query, db: seq<Order>, o: Order) {
    exists x :: x in db && Selects(q, x) && o == Normalize(x)
  }

  /** Normalising a sorted page of selected orders keeps its length and its newest-first order,
      and every entry then is a selected order, normalised. */
  lemma NormalizedPage(q: Query, db: seq<Order>, items: seq<Order>)
    requires SortedBy(items, NewestFirst)
    requires forall x :: x in items ==> x in db && Selector(q)(x)
    ensures var os := NormalizeAll(items);
      && (forall i, j :: 0 <= i < j < |os| ==> Rank(os[i].createdAt) >= Rank(os[j].createdAt))
      && (forall i :: 0 <= i < |os| ==> NormalizedMatch(q, db, os[i]))
  {
    var os := NormalizeAll(items);
    forall i, j | 0 <= i < j < |os| ensures Rank(os[i].createdAt) >= Rank(os[j].createdAt) {
      assert NewestFirst(items[i]) <= NewestFirst(items[j]);
    }
    forall i | 0 <= i < |os| ensures NormalizedMatch(q, db, os[i]) {
      assert items[i] in items;
      assert items[i] in db && Selects(q, items[i]) && os[i] == Normalize(items[i]);
    }
  }

  /** `GET /api/orders`. Without a session carrying an email: 401. Otherwise the requested page
      of matching orders, newest first, normalised, with the pagination block. */
  method Get(session: Session, q: Query, db: seq<Order>) returns (r: ListResponse)
    requires WellFormed(q)
    ensures !SignedInWithEmail(session) ==> r == ListUnauthorized
    ensures SignedInWithEmail(session) ==>
      var p := Run(db, Selector(q), NewestFirst, PageParam(q.page), LimitParam(q.limit));
      r == Listed(NormalizeAll(p.items), p.pagination)
    ensures r.Listed? ==>
      var page, limit := PageParam(q.page), LimitParam(q.limit);
      && r.pagination.total == |Filter(db, Selector(q))|
      && r.pagination.page == page && r.pagination.limit == limit
      && r.pagination.totalPages == TotalPages(r.pagination.total, limit)
      && |r.orders| <= limit
      && (forall i, j :: 0 <= i < j < |r.orders| ==> Rank(r.orders[i].createdAt) >= Rank(r.orders[j].createdAt))
      && (forall i :: 0 <= i < |r.orders| ==> r.orders[i].status.Some? && r.orders[i].status.value != "")
      && (forall i :: 0 <= i < |r.orders| ==> NormalizedMatch(q, db, r.orders[i]))
      && (r.orders == [] <==> Skip(page, limit) >= r.pagination.total)
  {
    if !SignedInWithEmail(session) {
      return ListUnauthorized;
    }
    var page, limit := PageParam(q.page), LimitParam(q.limit);
    var filter := BuildFilter(q);
    FilterExt(db, o => FilterMatches(filter, o), Selector(q));
    var found := Run(db, o => FilterMatches(filter, o), NewestFirst, page, limit);
    var p := Run(db, Selector(q), NewestFirst, page, limit);
    assert found == p;
    RunPagination(db, Selector(q), NewestFirst, page, limit);
    RunItems(db, Selector(q), NewestFirst, page, limit);
    RunPastTheEnd(db, Selector(q), NewestFirst, page, limit);
    NormalizedPage(q, db, p.items);
    r := Listed(NormalizeAll(p.items), p.pagination);
  }
}
