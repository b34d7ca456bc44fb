/** `orderSchema` of lib/models/order.ts: an order document, its required fields and the default
    `status` of "pending". The `userId` reference is modelled with the customer fields that
    `populate('userId', 'firstname lastname email')` attaches to it. */
module OrderModel {
  import opened Wrappers
  import opened Time

  datatype Customer = Customer(firstname: string, lastname: string, email: string)

  /** `shippingInfo`; `delivery` (the shipping zone) and `message` may be missing. */
  datatype ShippingInfo = ShippingInfo(
    address: string,
    city: string,
    postalCode: string,
    country: string,
    delivery: Option<string>,
    message: Option<string>,
    phone: string,
    firstname: string,
    lastname: string,
    email: string,
    zip: string)

  /** One cart line (`CART` of lib/types/types.ts), as snapshotted into the order. */
  datatype LineItem = LineItem(id: string, title: string, price: int, quantity: int, discount: Option<int>)

  /** An order document. `status` may be missing on documents that predate the default, and
      `orderNumber` is not a schema field at all: it is missing on every stored order. */
  datatype Order = Order(
    id: string,
    orderNumber: Option<string>,
    userId: string,
    customer: Customer,
    products: seq<LineItem>,
    shippingCost: int,
    total: int,
    paymentMethod: string,
    shippingInfo: ShippingInfo,
    status: Option<string>,
    createdAt: Instant,
    updatedAt: Instant)

  const DefaultStatus: string := "pending"

  /** A mongoose `required` string: set and not empty. */
  predicate Required(s: string) {
    s != ""
  }

  /** Every `shippingInfo` field except `message` is required, `zip` included. */
  predicate ShippingValid(s: ShippingInfo) {
    && Required(s.address) && Required(s.city) && Required(s.postalCode) && Required(s.country)
    && s.delivery.Some? && Required(s.delivery.value)
    && Required(s.phone) && Required(s.firstname) && Required(s.lastname) && Required(s.email)
    && Required(s.zip)
  }

  /** The schema's validators: `userId`, `paymentMethod`, the shipping fields and `status` are
      required. `products`, `shippingCost` and `total` are always present in this model. */
  predicate Valid(o: Order) {
    Required(o.userId) && Required(o.paymentMethod) && ShippingValid(o.shippingInfo) &&
    o.status.Some? && Required(o.status.value)
  }

  /** Mongoose's `default: "pending"`: applied when `status` is not supplied at all. */
  function ApplyDefaults(o: Order): (r: Order)
    ensures o.status.None? ==> r.status == Some(DefaultStatus)
    ensures o.status.Some? ==> r.status == o.status
    ensures r.(status := o.status) == o
  {
    if o.status.None? then o.(status := Some(DefaultStatus)) else o
  }

  /** After defaulting, an order is valid exactly when its required fields are set and it does
      not carry an explicitly empty status; `message` plays no part. */
  lemma {:induction false} ValidAfterDefaults(o: Order)
    ensures Valid(ApplyDefaults(o)) <==>
      Required(o.userId) && Required(o.paymentMethod) && ShippingValid(o.shippingInfo) &&
      o.status != Some("")
    ensures forall m :: Valid(ApplyDefaults(o)) == Valid(ApplyDefaults(o.(shippingInfo := o.shippingInfo.(message := m))))
  {
    assert DefaultStatus != "";
  }

  /** Applying the defaults twice is applying them once. */
  lemma ApplyDefaultsIdempotent(o: Order)
    ensures ApplyDefaults(ApplyDefaults(o)) == ApplyDefaults(o)
  {
  }
}
