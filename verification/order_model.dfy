/** The order schema (models/orderModel.js): its two status enums, required
    fields and defaults, the pre-save hook that derives `status` from
    `paymentStatus`, and the `Order` collection with its unique `orderCode`
    index. */
module OrderModel {
  import opened Wrappers

  const OrderCurrency: string := "INR"

  datatype PaymentStatus = PaymentPending | PaymentSuccessful | PaymentFailed
  datatype OrderStatus = OrderPending | OrderDelivered | OrderFailed

  function PaymentStatusName(p: PaymentStatus): string {
    match p
    case PaymentPending => "Pending"
    case PaymentSuccessful => "Successful"
    case PaymentFailed => "Failed"
  }

  function OrderStatusName(s: OrderStatus): string {
    match s
    case OrderPending => "Pending"
    case OrderDelivered => "Delivered"
    case OrderFailed => "Failed"
  }

  /** The `paymentStatus` enum validator: a string is accepted exactly when it
      names one of the three values. */
  function ParsePaymentStatus(s: string): (r: Option<PaymentStatus>)
    ensures r.Some? ==> PaymentStatusName(r.value) == s
    ensures r.None? ==> forall p :: PaymentStatusName(p) != s
  {
    if s == "Pending" then Some(PaymentPending)
    else if s == "Successful" then Some(PaymentSuccessful)
    else if s == "Failed" then Some(PaymentFailed)
    else None
  }

  /** The `status` enum validator. */
  function ParseOrderStatus(s: string): (r: Option<OrderStatus>)
    ensures r.Some? ==> OrderStatusName(r.value) == s
    ensures r.None? ==> forall o :: OrderStatusName(o) != s
  {
    if s == "Pending" then Some(OrderPending)
    else if s == "Delivered" then Some(OrderDelivered)
    else if s == "Failed" then Some(OrderFailed)
    else None
  }

  /** The pre-save hook: `status` is a function of `paymentStatus` alone. */
  function StatusFor(p: PaymentStatus): (s: OrderStatus)
    ensures s == OrderDelivered <==> p == PaymentSuccessful
    ensures s == OrderFailed <==> p == PaymentFailed
    ensures s == OrderPending <==> p == PaymentPending
  {
    match p
    case PaymentSuccessful => OrderDelivered
    case PaymentFailed => OrderFailed
    case PaymentPending => OrderPending
  }

  /** An entry of `items` as it reaches the schema; an absent field is ""
      or `None`. */
  datatype ItemInput = ItemInput(productId: string, name: string, price: Option<int>, quantity: Option<int>, imageUrl: Option<string>)

  /** An entry of a stored order's `items`. */
  datatype OrderItem = OrderItem(productId: string, name: string, price: int, quantity: int, imageUrl: Option<string>)

  /** The item sub-schema's `required` validators (an empty string fails
      `required`). */
  predicate ItemValid(i: ItemInput) {
    i.productId != "" && i.name != "" && i.price.Some? && i.quantity.Some?
  }

  predicate ItemsValid(items: seq<ItemInput>) {
    forall i :: 0 <= i < |items| ==> ItemValid(items[i])
  }

  function ToOrderItem(i: ItemInput): (o: OrderItem)
    requires ItemValid(i)
    ensures o.productId == i.productId && o.name == i.name && o.imageUrl == i.imageUrl
    ensures Some(o.price) == i.price && Some(o.quantity) == i.quantity
  {
    OrderItem(i.productId, i.name, i.price.value, i.quantity.value, i.imageUrl)
  }

  /** The object handed to `Order.create`. */
  datatype OrderPayload = OrderPayload(
    userId: string, items: seq<ItemInput>, total: Option<int>, currency: Option<string>,
    paymentMethod: string, paymentId: Option<string>, paymentStatus: Option<string>, status: Option<string>)

  /** A stored order; `createdAt` is the creation timestamp. */
  datatype Order = Order(
    orderCode: string, userId: string, items: seq<OrderItem>, total: int, currency: string,
    paymentMethod: string, paymentId: Option<string>, paymentStatus: PaymentStatus, status: OrderStatus,
    createdAt: int)

  /** Every cast and validator of the schema passes on the payload;
      `isObjectId` is the cast of `userId` to an object id. */
  predicate PayloadValid(p: OrderPayload, orderCode: string, isObjectId: string -> bool) {
    orderCode != "" && p.userId != "" && isObjectId(p.userId)
    && ItemsValid(p.items) && p.total.Some? && p.paymentMethod != ""
    && (p.paymentStatus.None? || ParsePaymentStatus(p.paymentStatus.value).Some?)
    && (p.status.None? || ParseOrderStatus(p.status.value).Some?)
  }

  /** Casting, defaults and validation of a payload, then the pre-save hook.
      A valid payload gives an order that keeps its fields, takes currency
      "INR" and payment status "Pending" when they are absent, and whose
      `status` is derived from the payment status whatever status was given. */
  function BuildOrder(p: OrderPayload, orderCode: string, now: int, isObjectId: string -> bool): (r: Option<Order>)
    ensures r.Some? <==> PayloadValid(p, orderCode, isObjectId)
    ensures r.Some? ==>
              var o := r.value;
              o.orderCode == orderCode && o.userId == p.userId && o.paymentMethod == p.paymentMethod
              && Some(o.total) == p.total && o.paymentId == p.paymentId && o.createdAt == now
              && |o.items| == |p.items| && (forall i :: 0 <= i < |p.items| ==> o.items[i] == ToOrderItem(p.items[i]))
              && o.currency == p.currency.GetOr(OrderCurrency)
              && (p.paymentStatus.None? ==> o.paymentStatus == PaymentPending)
              && (p.paymentStatus.Some? ==> PaymentStatusName(o.paymentStatus) == p.paymentStatus.value)
              && o.status == StatusFor(o.paymentStatus)
  {
    if !PayloadValid(p, orderCode, isObjectId) then None
    else
      var ps := if p.paymentStatus.None? then PaymentPending else ParsePaymentStatus(p.paymentStatus.value).value;
      var items := seq(|p.items|, i requires 0 <= i < |p.items| && ItemsValid(p.items) => ToOrderItem(p.items[i]));
      Some(Order(orderCode, p.userId, items, p.total.value, p.currency.GetOr(OrderCurrency),
                 p.paymentMethod, p.paymentId, ps, StatusFor(ps), now))
  }

  /** The status a payload supplies has no effect on the stored order. */
  lemma SuppliedStatusIgnored(p: OrderPayload, orderCode: string, now: int, isObjectId: string -> bool, s: OrderStatus)
    requires PayloadValid(p, orderCode, isObjectId)
    ensures BuildOrder(p.(status := Some(OrderStatusName(s))), orderCode, now, isObjectId)
            == BuildOrder(p.(status := None), orderCode, now, isObjectId)
  {
    var a := BuildOrder(p.(status := Some(OrderStatusName(s))), orderCode, now, isObjectId).value;
    var b := BuildOrder(p.(status := None), orderCode, now, isObjectId).value;
    assert a.items == b.items;
  }

  /** A payload without an `orderCode` fails its `required` validator,
      whatever else it holds. */
  lemma MissingOrderCodeRefused(p: OrderPayload, now: int, isObjectId: string -> bool)
    ensures BuildOrder(p, "", now, isObjectId).None?
  {
  }

  /** Order codes present in the collection. */
  function CodesOf(orders: seq<Order>): set<string> {
    set i | 0 <= i < |orders| :: orders[i].orderCode
  }

  /** The `Order` collection in insertion (natural) order. */
  class OrderCollection {
    var orders: seq<Order>

    /** The unique index on `orderCode`, and `required`. */
    ghost predicate Valid()
      reads this
    {
      (forall i, j :: 0 <= i < j < |orders| ==> orders[i].orderCode != orders[j].orderCode)
      && "" !in CodesOf(orders)
    }

    constructor ()
      ensures Valid() && orders == []
    {
      orders := [];
    }

    /** `Order.create(payload)`: validation, the hook, then the insert, which
        the unique index refuses for a code already present. */
    method Create(p: OrderPayload, orderCode: string, now: int, isObjectId: string -> bool) returns (r: Option<Order>)
      requires Valid()
      modifies this
      ensures Valid()
      ensures r.Some? <==> BuildOrder(p, orderCode, now, isObjectId).Some? && orderCode !in CodesOf(old(orders))
      ensures r.Some? ==> r == BuildOrder(p, orderCode, now, isObjectId) && orders == old(orders) + [r.value]
      ensures r.None? ==> orders == old(orders)
    {
      var built := BuildOrder(p, orderCode, now, isObjectId);
      if built.None? || orderCode in CodesOf(orders) {
        return None;
      }
      var o := built.value;
      var prev := orders;
      orders := orders + [o];
      forall i, j | 0 <= i < j < |orders| ensures orders[i].orderCode != orders[j].orderCode {
        if j == |prev| {
          assert orders[i] == prev[i];
        } else {
          assert orders[i] == prev[i] && orders[j] == prev[j];
        }
      }
      assert "" !in CodesOf(orders) by {
        forall i | 0 <= i < |orders| ensures orders[i].orderCode != "" {
          if i < |prev| {
            assert orders[i] == prev[i];
            assert prev[i].orderCode in CodesOf(prev);
          }
        }
      }
      return Some(o);
    }
  }
}
