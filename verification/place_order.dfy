/** `placeOrder` and `getUserOrders` (controllers/placeOrderController.js):
    pick the item source (the stored cart, else the body's `cartItems`),
    fill in payment defaults, create the order, and only then empty the
    cart; and list a user's orders. */
module PlaceOrder {
  import opened Wrappers
  import opened Js
  import opened CartModel
  import opened OrderModel

  /** The request body; an absent string is "" and an absent or non-numeric
      `total` is `None`. */
  datatype PlaceOrderBody = PlaceOrderBody(
    userId: string, paymentMethod: string, total: Option<int>, paymentId: string,
    paymentStatus: string, cartItems: Option<seq<ItemInput>>)

  /** `req.body.userId || authUserId`: the body wins whenever it is non-empty. */
  function ResolveUserId(bodyUserId: string, authUserId: string): (u: string)
    ensures bodyUserId != "" ==> u == bodyUserId
    ensures bodyUserId == "" ==> u == authUserId
  {
    if bodyUserId != "" then bodyUserId else authUserId
  }

  /** A stored cart line as an order item: the schema keeps the shared fields
      and the line has no image. */
  function CartItem(l: CartLine): (i: ItemInput)
    ensures i.productId == l.productId && i.name == l.name
    ensures i.price == Some(l.price) && i.quantity == Some(l.quantity) && i.imageUrl.None?
  {
    ItemInput(l.productId, l.name, Some(l.price), Some(l.quantity), None)
  }

  function CartItems(lines: seq<CartLine>): (items: seq<ItemInput>)
    ensures |items| == |lines|
    ensures forall i :: 0 <= i < |lines| ==> items[i] == CartItem(lines[i])
  {
    seq(|lines|, i requires 0 <= i < |lines| => CartItem(lines[i]))
  }

  /** The items and total an order is built from. */
  datatype Source = Source(items: seq<ItemInput>, total: Option<int>)

  /** A non-empty stored cart supplies its lines and `cartTotal`; otherwise a
      non-empty `cartItems` supplies the items with the body's total;
      otherwise there is nothing to order. */
  function ChooseSource(cart: Option<Cart>, body: PlaceOrderBody): (s: Option<Source>)
    ensures cart.Some? && |cart.value.products| > 0 ==>
              s == Some(Source(CartItems(cart.value.products), Some(cart.value.cartTotal)))
    ensures !(cart.Some? && |cart.value.products| > 0) ==>
              (s.Some? <==> body.cartItems.Some? && |body.cartItems.value| > 0)
              && (s.Some? ==> s.value == Source(body.cartItems.value, body.total))
  {
    if cart.Some? && |cart.value.products| > 0 then Some(Source(CartItems(cart.value.products), Some(cart.value.cartTotal)))
    else if body.cartItems.Some? && |body.cartItems.value| > 0 then Some(Source(body.cartItems.value, body.total))
    else None
  }

  /** `paymentId || \`pay_${now}\``. */
  function ResolvePaymentId(paymentId: string, now: int): (r: string)
    ensures r != ""
    ensures paymentId != "" ==> r == paymentId
    ensures paymentId == "" ==> |r| > 4 && r[..4] == "pay_" && r[4..] == IntToString(now)
  {
    if paymentId != "" then paymentId else "pay_" + IntToString(now)
  }

  /** `paymentStatus || "Failed"`. */
  function ResolvePaymentStatus(paymentStatus: string): (r: string)
    ensures paymentStatus != "" ==> r == paymentStatus
    ensures paymentStatus == "" ==> ParsePaymentStatus(r) == Some(PaymentFailed)
  {
    if paymentStatus != "" then paymentStatus else "Failed"
  }

  /** The payload's own `status` field as the code computes it. */
  function PayloadStatusAsWritten(resolvedPaymentStatus: string): string {
    if resolvedPaymentStatus == "Successful" then "Successful" else "Failed"
  }

  /** The payload passed to `Order.create`, with its `status` left to the
      pre-save hook. */
  function Payload(userId: string, src: Source, body: PlaceOrderBody, now: int): (p: OrderPayload)
    ensures p.userId == userId && p.items == src.items && p.total == src.total
    ensures p.currency == Some(OrderCurrency) && p.paymentMethod == body.paymentMethod
    ensures p.paymentId == Some(ResolvePaymentId(body.paymentId, now))
    ensures p.paymentStatus == Some(ResolvePaymentStatus(body.paymentStatus)) && p.status.None?
  {
    OrderPayload(userId, src.items, src.total, Some(OrderCurrency), body.paymentMethod,
                 Some(ResolvePaymentId(body.paymentId, now)), Some(ResolvePaymentStatus(body.paymentStatus)), None)
  }

  /** The payload as the code builds it, with its own `status` and no
      `orderCode`. */
  function PayloadAsWritten(userId: string, src: Source, body: PlaceOrderBody, now: int): (p: OrderPayload)
    ensures p.status.Some? && p.status.value in {"Successful", "Failed"}
    ensures p.(status := None) == Payload(userId, src, body, now)
  {
    Payload(userId, src, body, now).(status := Some(PayloadStatusAsWritten(ResolvePaymentStatus(body.paymentStatus))))
  }

  /** The payload's `status` for a successful payment is not a value of the
      status enum, and the validator runs before the hook that would map it
      to Delivered, so an order paid successfully is refused whatever code,
      user and items it has. */
  lemma PayloadStatusRejected(userId: string, src: Source, body: PlaceOrderBody, orderCode: string, now: int,
                              isObjectId: string -> bool)
    requires body.paymentStatus == "Successful"
    ensures ParseOrderStatus(PayloadStatusAsWritten(ResolvePaymentStatus(body.paymentStatus))) == None
    ensures StatusFor(ParsePaymentStatus(body.paymentStatus).value) == OrderDelivered
    ensures BuildOrder(PayloadAsWritten(userId, src, body, now), orderCode, now, isObjectId).None?
  {
    var p := PayloadAsWritten(userId, src, body, now);
    assert p.status == Some("Successful");
    assert !PayloadValid(p, orderCode, isObjectId);
  }

  /** The payload has no `orderCode`, so its `required` validator refuses
      every order the code as written creates. */
  lemma PayloadWithoutCodeRefused(userId: string, src: Source, body: PlaceOrderBody, now: int,
                                  isObjectId: string -> bool)
    ensures BuildOrder(PayloadAsWritten(userId, src, body, now), "", now, isObjectId).None?
  {
    MissingOrderCodeRefused(PayloadAsWritten(userId, src, body, now), now, isObjectId);
  }

  /** `placeOrder`. Both 400s come before any collection is read; no source
      gives 404; a failed `Order.create` gives 500 with both collections as
      they were. On success the order is appended, a cart document that
      exists (even an empty one) is emptied, and no cart is created. The
      stored order's status follows its payment status. */
  method PlaceOrder(carts: CartCollection, orders: OrderCollection, body: PlaceOrderBody,
                    authUserId: string, orderCode: string, now: int, isObjectId: string -> bool)
    returns (r: Result<Order>)
    requires carts.Valid() && orders.Valid()
    modifies carts, orders
    ensures carts.Valid() && orders.Valid()
    ensures var u := ResolveUserId(body.userId, authUserId);
            (r == Err(BadRequest) <==> u == "" || body.paymentMethod == "")
            && (r == Err(NotFound) <==>
                  u != "" && body.paymentMethod != ""
                  && ChooseSource(if u in old(carts.carts) then Some(old(carts.carts)[u]) else None, body).None?)
    ensures r.Err? ==> carts.carts == old(carts.carts) && orders.orders == old(orders.orders)
    ensures r.Err? ==> r.error in {BadRequest, NotFound, ServerError}
    ensures r == Err(ServerError) <==>
              var u := ResolveUserId(body.userId, authUserId);
              var src := ChooseSource(if u in old(carts.carts) then Some(old(carts.carts)[u]) else None, body);
              u != "" && body.paymentMethod != "" && src.Some?
              && (BuildOrder(Payload(u, src.value, body, now), orderCode, now, isObjectId).None? || orderCode in CodesOf(old(orders.orders)))
    ensures r.Ok? ==>
              var u := ResolveUserId(body.userId, authUserId);
              var src := ChooseSource(if u in old(carts.carts) then Some(old(carts.carts)[u]) else None, body);
              src.Some? && Some(r.value) == BuildOrder(Payload(u, src.value, body, now), orderCode, now, isObjectId)
              && orders.orders == old(orders.orders) + [r.value]
              && r.value.status == StatusFor(r.value.paymentStatus)
              && (u in old(carts.carts) ==>
                    carts.carts == old(carts.carts)[u := old(carts.carts)[u].(products := [], cartTotal := 0)])
              && (u !in old(carts.carts) ==> carts.carts == old(carts.carts))
  {
    var userId := ResolveUserId(body.userId, authUserId);
    if userId == "" {
      return Err(BadRequest);
    }
    if body.paymentMethod == "" {
      return Err(BadRequest);
    }
    var doc := carts.FindOne(userId);
    var stored: Option<Cart> := if doc == null then None else Some(doc.Record());
    var src := ChooseSource(stored, body);
    if src.None? {
      return Err(NotFound);
    }
    var order := orders.Create(Payload(userId, src.value, body, now), orderCode, now, isObjectId);
    if order.None? {
      return Err(ServerError);
    }
    if doc != null {
      doc.products := [];
      doc.cartTotal := 0;
      assert IdsOf(doc.products) == {};
      var ok := carts.Save(doc);
      assert ok;
    }
    return Ok(order.value);
  }

  /** A stored cart line without a name (the cart falls back to "") makes the
      order from that cart fail the item's `required` name. */
  lemma UnnamedCartLineFailsOrder(u: string, cart: Cart, body: PlaceOrderBody, orderCode: string, now: int,
                                  isObjectId: string -> bool, k: nat)
    requires k < |cart.products| && cart.products[k].name == ""
    ensures var src := ChooseSource(Some(cart), body);
            src.Some? && BuildOrder(Payload(u, src.value, body, now), orderCode, now, isObjectId).None?
  {
    var src := ChooseSource(Some(cart), body);
    assert !ItemValid(src.value.items[k]);
  }

  /** The fields `getUserOrders` selects from an order. */
  datatype OrderSummary = OrderSummary(
    orderCode: string, paymentMethod: string, paymentStatus: PaymentStatus, total: int,
    status: OrderStatus, createdAt: int, items: seq<OrderItem>)

  function Summary(o: Order): (s: OrderSummary)
    ensures s.orderCode == o.orderCode && s.paymentMethod == o.paymentMethod
    ensures s.paymentStatus == o.paymentStatus && s.total == o.total && s.status == o.status
    ensures s.createdAt == o.createdAt && s.items == o.items
  {
    OrderSummary(o.orderCode, o.paymentMethod, o.paymentStatus, o.total, o.status, o.createdAt, o.items)
  }

  /** `Order.find({ userId })` in natural order. */
  function OrdersOf(orders: seq<Order>, userId: string): (r: seq<Order>)
    ensures |r| <= |orders|
    ensures forall i :: 0 <= i < |r| ==> r[i].userId == userId
    ensures forall o :: o in r <==> o in orders && o.userId == userId
  {
    if orders == [] then []
    else
      var rest := OrdersOf(orders[..|orders| - 1], userId);
      var last := orders[|orders| - 1];
      assert orders == orders[..|orders| - 1] + [last];
      if last.userId == userId then rest + [last] else rest
  }

  /** Selecting a user's orders keeps their relative order: the selection of
      a list with one more order is the old selection, extended when the new
      order is the user's. */
  lemma OrdersOfSnoc(orders: seq<Order>, o: Order, userId: string)
    ensures OrdersOf(orders + [o], userId) ==
              if o.userId == userId then OrdersOf(orders, userId) + [o] else OrdersOf(orders, userId)
  {
    assert (orders + [o])[..|orders|] == orders;
  }

  /** `getUserOrders`: 400 without an authenticated id, 500 when the id does
      not cast to an object id (`isObjectId`), otherwise one summary per
      stored order of that user, in stored order. */
  function GetUserOrders(orders: seq<Order>, authUserId: string, isObjectId: string -> bool): (r: Result<seq<OrderSummary>>)
    ensures r == Err(BadRequest) <==> authUserId == ""
    ensures r == Err(ServerError) <==> authUserId != "" && !isObjectId(authUserId)
    ensures r.Err? ==> r.error in {BadRequest, ServerError}
    ensures r.Ok? ==> |r.value| == |OrdersOf(orders, authUserId)|
                      && forall i :: 0 <= i < |r.value| ==> r.value[i] == Summary(OrdersOf(orders, authUserId)[i])
  {
    if authUserId == "" then Err(BadRequest)
    else if !isObjectId(authUserId) then Err(ServerError)
    else
      var mine := OrdersOf(orders, authUserId);
      Ok(seq(|mine|, i requires 0 <= i < |mine| => Summary(mine[i])))
  }

  /** A placed order shows up at the end of its user's order list. */
  lemma PlacedOrderListed(orders: seq<Order>, o: Order, isObjectId: string -> bool)
    requires o.userId != "" && isObjectId(o.userId)
    ensures var r := GetUserOrders(orders + [o], o.userId, isObjectId);
            r.Ok? && |r.value| > 0 && r.value[|r.value| - 1] == Summary(o)
  {
    OrdersOfSnoc(orders, o, o.userId);
  }
}
