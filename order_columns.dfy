/** The orders table's columns (app/dashboard/columns.tsx): the order-number and client cells,
    the status badge, the status menu and the status update it triggers. */
module OrderColumns {
  import opened Wrappers
  import opened OrderModel
  import opened OrderStatus
  import opened OrderDetails

  /** Line 84: `"#" + order._id.slice(-6).toUpperCase()`. */
  function OrderNumberCell(o: Order): (r: string)
    ensures |r| >= 1 && r[0] == '#' && r[1..] == OrderNumber(o.id)
  {
    "#" + OrderNumber(o.id)
  }

  /** Lines 91-92: the shipping first and last names, separated by a space. */
  function ClientCell(o: Order): (r: string)
    ensures |r| == |o.shippingInfo.firstname| + 1 + |o.shippingInfo.lastname|
    ensures r[..|o.shippingInfo.firstname|] == o.shippingInfo.firstname
    ensures r[|o.shippingInfo.firstname|] == ' '
    ensures r[|o.shippingInfo.firstname| + 1..] == o.shippingInfo.lastname
  {
    o.shippingInfo.firstname + " " + o.shippingInfo.lastname
  }

  const UnknownStatus: string := "Statut inconnu"

  /** Lines 107-125: the label of a known status, "Statut inconnu" for anything else, a missing
      status included. */
  function BadgeText(status: Option<string>): (r: string)
    ensures status.Some? && status.value in Keys ==> Some(r) == Label(status.value)
    ensures status.None? || status.value !in Keys ==> r == UnknownStatus
  {
    if status.Some? && Label(status.value).Some? then Label(status.value).value else UnknownStatus
  }

  /** A known status never reads as unknown: no label is "Statut inconnu". */
  lemma KnownNeverUnknown(s: string)
    requires s in Keys
    ensures BadgeText(Some(s)) != UnknownStatus
  {
  }

  /** One menu entry: the status it sets and the caption it shows. */
  datatype MenuEntry = MenuEntry(status: string, caption: string)

  /** Lines 169-177: `Object.entries(ORDER_STATUS)`, in declaration order. */
  function StatusMenu(): (r: seq<MenuEntry>)
    ensures |r| == |Keys|
    ensures forall i :: 0 <= i < |r| ==> r[i].status == Keys[i] && Label(Keys[i]) == Some(r[i].caption)
  {
    seq(|Keys|, i requires 0 <= i < |Keys| => MenuEntry(Keys[i], Label(Keys[i]).value))
  }

  /** The menu offers every known status exactly once, and nothing else. */
  lemma MenuIsTheStatusSet()
    ensures forall s :: (exists i :: 0 <= i < |StatusMenu()| && StatusMenu()[i].status == s) <==> s in Keys
    ensures forall i, j :: 0 <= i < j < |StatusMenu()| ==> StatusMenu()[i].status != StatusMenu()[j].status
  {
    KeysDistinct();
    forall s | s in Keys ensures exists i :: 0 <= i < |StatusMenu()| && StatusMenu()[i].status == s {
      var i :| 0 <= i < |Keys| && Keys[i] == s;
      assert StatusMenu()[i].status == s;
    }
  }

  /** The PATCH request a menu entry sends for an order. */
  datatype StatusRequest = StatusRequest(orderId: string, status: string)

  function StatusRequestFor(o: Order, e: MenuEntry): (r: StatusRequest)
    ensures r.orderId == o.id && r.status == e.status
  {
    StatusRequest(o.id, e.status)
  }

  /** What `updateOrderStatus` returns and the order it dispatches in `orderStatusUpdated`. */
  datatype UpdateResult = UpdateResult(ok: bool, dispatched: Option<Order>)

  /** Lines 36-76: `response` is the updated order when the response is ok and parses, `None`
      when it is not ok or anything throws. */
  function UpdateOrderStatus(response: Option<Order>): (r: UpdateResult)
    ensures r.ok <==> response.Some?
    ensures r.dispatched == response
  {
    match response
    case Some(o) => UpdateResult(true, Some(o))
    case None => UpdateResult(false, None)
  }
}
