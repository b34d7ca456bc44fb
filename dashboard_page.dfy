/** The orders dashboard (app/dashboard/page.tsx): the page of orders on screen, the search
    and status filter that select it, the pagination block the server returned, the summary
    cards computed from the page, and the replacement of an order whose status was changed. */
module DashboardPage {
  import opened Wrappers
  import opened ListQuery
  import opened OrderModel
  import opened OrderStats
  import opened Lists
  import OrdersApi

  /** The summary cards: how many orders are on the page, how many in each status, and the sum
      of their totals. */
  datatype Stats = Stats(total: nat, delivered: nat, pending: nat, processing: nat, cancelled: nat, totalAmount: int)

  /** `orders.filter(order => order.status === s).length`. */
  function CountStatus(os: seq<Order>, s: string): nat {
    |Filter(os, (o: Order) => o.status == Some(s))|
  }

  /** Lines 101-108. */
  function StatsOf(os: seq<Order>): Stats {
    Stats(|os|, CountStatus(os, "delivered"), CountStatus(os, "pending"),
          CountStatus(os, "processing"), CountStatus(os, "cancelled"), SumTotals(os))
  }

  /** A per-status card counts exactly the orders with that status, the same number the stats
      route's status group reports. */
  lemma {:induction false} CountStatusIsGroupCount(os: seq<Order>, s: string)
    ensures CountStatus(os, s) == CountKey(os, StatusOf, Some(s))
  {
    if os != [] {
      CountStatusIsGroupCount(os[1..], s);
    }
  }

  /** The four statuses are distinct, so their cards add up to at most the number of orders. */
  lemma {:induction false} StatusCardsBounded(os: seq<Order>)
    ensures var st := StatsOf(os);
      st.delivered + st.pending + st.processing + st.cancelled <= st.total
  {
    if os != [] {
      StatusCardsBounded(os[1..]);
    }
  }

  /** When every order on the page has one of the four statuses, the cards add up to the total. */
  lemma {:induction false} StatusCardsExhaustive(os: seq<Order>)
    requires forall o :: o in os ==> o.status in {Some("delivered"), Some("pending"), Some("processing"), Some("cancelled")}
    ensures var st := StatsOf(os);
      st.delivered + st.pending + st.processing + st.cancelled == st.total
  {
    if os != [] {
      assert os[0] in os;
      StatusCardsExhaustive(os[1..]);
    }
  }

  /** An empty page shows zero everywhere, `totalAmount` included. */
  lemma EmptyStats()
    ensures StatsOf([]) == Stats(0, 0, 0, 0, 0, 0)
  {
  }

  function OrderId(o: Order): string {
    o.id
  }

  /** The page's state. */
  class Dashboard {
    var orders: seq<Order>
    var searchTerm: string
    var statusFilter: string
    var pagination: Pagination

    /** Lines 30-41: no orders yet, an empty search, every status, `{ 0, 1, 10, 0 }`. */
    constructor()
      ensures orders == [] && searchTerm == "" && statusFilter == "all"
      ensures pagination == Pagination(0, 1, 10, 0)
    {
      orders := [];
      searchTerm := "";
      statusFilter := "all";
      pagination := Pagination(0, 1, 10, 0);
    }

    /** Lines 43-51: the query `fetchOrders(page = 1)` sends. */
    function FetchQuery(page: Option<int>): (q: OrdersApi.Query)
      reads this
      ensures q.page == Some(page.GetOr(1)) && q.limit == Some(pagination.limit)
      ensures q.search == searchTerm && q.status == statusFilter
    {
      OrdersApi.Query(Some(page.GetOr(1)), Some(pagination.limit), searchTerm, statusFilter)
    }

    /** Lines 58-59: a successful response replaces the orders and the pagination block. */
    method OnOrdersLoaded(os: seq<Order>, p: Pagination)
      modifies this
      ensures orders == os && pagination == p
      ensures searchTerm == old(searchTerm) && statusFilter == old(statusFilter)
    {
      orders := os;
      pagination := p;
    }

    /** Lines 77-84: the order whose status changed replaces every order with its `_id`. */
    method OnOrderStatusUpdated(updated: Order)
      modifies this
      ensures orders == ReplaceById(old(orders), updated, OrderId)
      ensures |orders| == |old(orders)|
      ensures forall i :: 0 <= i < |orders| ==> orders[i].id == old(orders)[i].id
      ensures pagination == old(pagination) && searchTerm == old(searchTerm) && statusFilter == old(statusFilter)
    {
      orders := ReplaceById(orders, updated, OrderId);
    }

    function Stats(): Stats
      reads this
    {
      StatsOf(orders)
    }
  }

  /** The first fetch asks for page 1 of 10 with no search and every status, so it selects every
      order. */
  lemma InitialFetchSelectsAll(d: Dashboard, o: Order)
    requires d.searchTerm == "" && d.statusFilter == "all" && d.pagination == Pagination(0, 1, 10, 0)
    ensures d.FetchQuery(None) == OrdersApi.Query(Some(1), Some(10), "", "all")
    ensures OrdersApi.Selects(d.FetchQuery(None), o)
  {
  }
}
