/** The order details dialog (components/order-details-dialog.tsx): the progress stepper, the
    priced cart lines and the displayed order number. Prices are whole FCFA amounts. */
module OrderDetails {
  import opened Wrappers
  import opened Text
  import opened OrderModel
  import OrderStatus

  /** The stepper's steps, in display order. */
  const Steps: seq<string> := ["created", "processing", "pending", "delivered", "cancelled"]

  /** `xs.findIndex(x => x === key)`: the first position holding `key`, or -1. */
  function FindIndex(xs: seq<string>, key: string): (r: int)
    ensures -1 <= r < |xs|
    ensures r == -1 <==> key !in xs
    ensures r >= 0 ==> xs[r] == key && forall j :: 0 <= j < r ==> xs[j] != key
  {
    if xs == [] then -1
    else if xs[0] == key then 0
    else
      var r := FindIndex(xs[1..], key);
      assert forall x :: x in xs <==> x == xs[0] || x in xs[1..];
      if r == -1 then -1 else r + 1
  }

  function StatusIndex(status: string): int {
    FindIndex(Steps, status)
  }

  /** Line 68: `idx < statusIndex || idx === statusIndex`. */
  predicate IsActive(idx: int, status: string) {
    idx <= StatusIndex(status)
  }

  /** Line 83: a connector follows every step but the last. */
  predicate HasConnector(idx: int) {
    idx < |Steps| - 1
  }

  /** Line 87: a connector is coloured when the next step is reached too. */
  predicate ConnectorColoured(idx: int, status: string) {
    idx < StatusIndex(status)
  }

  /** No status appears twice among the steps. */
  lemma StepsDistinct()
    ensures forall i, j :: 0 <= i < j < |Steps| ==> Steps[i] != Steps[j]
  {
    assert Steps[0][1] == 'r' && Steps[1][1] == 'r' && Steps[2][1] == 'e' && Steps[3][1] == 'e' && Steps[4][1] == 'a';
    assert Steps[0][0] != Steps[1][0] && Steps[2][0] != Steps[3][0];
  }

  /** Step `idx` is lit exactly when the status is that step or a later one; the lit steps of a
      status that is a step are the first ones, up to and including its own. */
  lemma ActiveSteps(status: string, idx: nat)
    requires idx < |Steps|
    ensures IsActive(idx, status) <==> status in Steps[idx..]
    ensures IsActive(idx, status) ==> forall j :: 0 <= j <= idx ==> IsActive(j, status)
  {
    var s := StatusIndex(status);
    var tail := Steps[idx..];
    if status in tail {
      var k :| 0 <= k < |tail| && tail[k] == status;
      assert Steps[idx + k] == status;
      StepsDistinct();
      assert s == idx + k;
    }
    if IsActive(idx, status) {
      assert tail[s - idx] == Steps[s];
    }
  }

  lemma UnknownStatusActivatesNothing(status: string, idx: nat)
    requires status !in Steps
    ensures !IsActive(idx, status) && !ConnectorColoured(idx, status)
  {
  }

  /** "pending" lights created, processing and pending; "cancelled" lights all five steps. */
  lemma StepperExamples(idx: nat)
    requires idx < |Steps|
    ensures IsActive(idx, "pending") <==> idx <= 2
    ensures IsActive(idx, "cancelled")
    ensures HasConnector(idx) ==> (ConnectorColoured(idx, "delivered") <==> idx < 3)
  {
    assert Steps[2] == "pending" && Steps[3] == "delivered" && Steps[4] == "cancelled";
    assert StatusIndex("pending") == 2;
    assert StatusIndex("delivered") == 3;
    assert StatusIndex("cancelled") == 4;
  }

  /** Lines 103-105: the dialog looks the order's status up in `ORDER_STATUS` and reads its
      `icon`. A status that is not one of its keys, a missing one included, makes that read
      throw, so the dialog renders nothing and the stepper is never mounted; otherwise the stepper
      shows which of its steps are lit. */
  function DialogStepper(status: Option<string>): (r: Option<seq<bool>>)
    ensures r.None? <==> status.None? || status.value !in OrderStatus.Keys
    ensures r.Some? ==> |r.value| == |Steps|
    ensures r.Some? ==> forall idx :: 0 <= idx < |Steps| ==> (r.value[idx] <==> IsActive(idx, status.value))
  {
    if status.None? || OrderStatus.Label(status.value).None? then None
    else Some(seq(|Steps|, idx => IsActive(idx, status.value)))
  }

  /** Every status the dialog renders is a step from "processing" on, so a rendered stepper
      always lights its first two steps. */
  lemma RenderedStepperLightsFirstTwo(status: Option<string>)
    requires DialogStepper(status).Some?
    ensures StatusIndex(status.value) >= 1
    ensures DialogStepper(status).value[0] && DialogStepper(status).value[1]
  {
    var s := status.value;
    assert s in OrderStatus.Keys;
    assert Steps[1] == "processing" && Steps[2] == "pending" && Steps[3] == "delivered" && Steps[4] == "cancelled";
    assert s == "processing" || s == "pending" || s == "delivered" || s == "cancelled";
    assert s in Steps[1..];
    ActiveSteps(s, 1);
  }

  /** The "created" step names no status of `ORDER_STATUS`: an order with that status crashes the
      dialog, and so does an order without a status. */
  lemma CreatedStatusNotRendered()
    ensures DialogStepper(Some("created")).None?
    ensures DialogStepper(None).None?
  {
    assert "created" !in OrderStatus.Keys;
  }

  /** `Math.round(num / den)` for a positive `den`: the nearest integer, halves rounded up. */
  function RoundDiv(num: int, den: int): (r: int)
    requires den > 0
    ensures 2 * den * r <= 2 * num + den < 2 * den * r + 2 * den
  {
    (2 * num + den) / (2 * den)
  }

  /** Lines 178-181: `Math.round(price - price * discount / 100)`. */
  function UnitPrice(price: int, discount: int): int {
    RoundDiv(price * (100 - discount), 100)
  }

  /** The discounted unit price is the exact one rounded to the nearest FCFA, never more than
      the undiscounted price and never below zero for a discount in [0, 100]. */
  lemma UnitPriceBounds(price: nat, discount: int)
    requires 0 <= discount <= 100
    ensures 0 <= UnitPrice(price, discount) <= price
    ensures 200 * UnitPrice(price, discount) <= 2 * price * (100 - discount) + 100 < 200 * UnitPrice(price, discount) + 200
    ensures discount == 0 ==> UnitPrice(price, discount) == price
    ensures discount == 100 ==> UnitPrice(price, discount) == 0
  {
    var n := price * (100 - discount);
    assert 0 <= n <= price * 100;
  }

  /** What a cart line shows: the discounted unit price and the line total, when shown. */
  datatype LinePrices = LinePrices(unit: Option<int>, total: Option<int>)

  /** `prod.discount` is truthy: present and not 0. */
  predicate Discounted(item: LineItem) {
    item.discount.Some? && item.discount.value != 0
  }

  /** Lines 174-207. The discounted block needs a non-zero price and a positive discount; the
      plain total needs a non-zero price and no discount (missing or 0). A negative discount
      shows neither. */
  function Prices(item: LineItem): (r: LinePrices)
    ensures r.unit.Some? <==> item.price != 0 && Discounted(item) && item.discount.value > 0
    ensures r.unit.Some? ==> r.total == Some(r.unit.value * item.quantity)
    ensures r.total.Some? <==> item.price != 0 && (!Discounted(item) || item.discount.value > 0)
    ensures r.total.Some? && !Discounted(item) ==> r.total == Some(item.price * item.quantity)
  {
    if item.price != 0 && Discounted(item) && item.discount.value > 0 then
      var u := UnitPrice(item.price, item.discount.value);
      LinePrices(Some(u), Some(u * item.quantity))
    else if item.price != 0 && !Discounted(item) then
      LinePrices(None, Some(item.price * item.quantity))
    else LinePrices(None, None)
  }

  /** A 10% discount on 2 500 FCFA shows 2 250 FCFA a unit, 6 750 FCFA for three. */
  lemma PricesExample()
    ensures Prices(LineItem("p1", "Savon noir", 2500, 3, Some(10))) == LinePrices(Some(2250), Some(6750))
    ensures Prices(LineItem("p2", "Tisane", 1999, 2, Some(15))) == LinePrices(Some(1699), Some(3398))
    ensures Prices(LineItem("p3", "Baume", 1500, 2, None)) == LinePrices(None, Some(3000))
  {
  }

  /** Line 218: `order._id.slice(-6).toUpperCase()`. */
  function OrderNumber(id: string): (r: string)
    ensures |r| == if |id| < 6 then |id| else 6
    ensures forall i :: 0 <= i < |r| ==> r[i] == UpperChar(id[|id| - |r| + i])
  {
    Upper(TakeLast(id, 6))
  }

  /** Orders whose ids end alike show the same number: the number is a short display code, not
      a key. */
  lemma OrderNumberSuffix(a: string, b: string)
    requires |a| >= 6 && |b| >= 6 && a[|a| - 6..] == b[|b| - 6..]
    ensures OrderNumber(a) == OrderNumber(b)
  {
    assert TakeLast(a, 6) == TakeLast(b, 6);
  }

  lemma OrderNumberExample()
    ensures OrderNumber("665f1c2e9b1d4a0012ab34cd") == "AB34CD"
  {
    assert TakeLast("665f1c2e9b1d4a0012ab34cd", 6) == "ab34cd";
  }
}
