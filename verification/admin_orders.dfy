/** `getPaginatedOrders` (Admin/orderControllers.js): every order, newest
    first, a window of them chosen by `page` and `limit`, each projected with
    its user's id, email and name (null when the user reference does not
    resolve) and its items with a null-defaulted image. */
module AdminOrders {
  import opened Wrappers
  import opened Js
  import opened OrderModel
  import opened UserModel
  import opened Paging

  /** Orders in non-increasing `createdAt`. */
  predicate NewestFirstOrder(s: seq<Order>) {
    forall i, j :: 0 <= i < j < |s| ==> s[i].createdAt >= s[j].createdAt
  }

  /** `o` placed into a newest-first list, ahead of every order no newer
      than it. */
  function InsertNewest(o: Order, s: seq<Order>): (r: seq<Order>)
    requires NewestFirstOrder(s)
    ensures NewestFirstOrder(r)
    ensures multiset(r) == multiset(s) + multiset{o}
    ensures |r| == |s| + 1
  {
    if s == [] || o.createdAt >= s[0].createdAt then
      [o] + s
    else
      var rest := InsertNewest(o, s[1..]);
      assert s == [s[0]] + s[1..];
      InsertBehindHead(o, s, rest);
      [s[0]] + rest
  }

  /** The head of a newest-first list stays ahead of an older order
      inserted into its tail. */
  lemma InsertBehindHead(o: Order, s: seq<Order>, rest: seq<Order>)
    requires s != [] && NewestFirstOrder(s) && o.createdAt < s[0].createdAt
    requires NewestFirstOrder(rest) && multiset(rest) == multiset(s[1..]) + multiset{o}
    ensures NewestFirstOrder([s[0]] + rest)
  {
    forall x | x in rest ensures x.createdAt <= s[0].createdAt {
      assert x in multiset(rest);
      if x != o {
        assert x in multiset(s[1..]);
        var k :| 0 <= k < |s[1..]| && s[1..][k] == x;
        assert s[k + 1] == x;
      }
    }
    var r := [s[0]] + rest;
    forall i, j | 0 <= i < j < |r| ensures r[i].createdAt >= r[j].createdAt {
      if i == 0 {
        assert r[j] == rest[j - 1];
      } else {
        assert r[i] == rest[i - 1] && r[j] == rest[j - 1];
      }
    }
  }

  /** `.sort({ createdAt: -1 })`. Orders created at the same instant keep
      their natural order. */
  function NewestFirst(orders: seq<Order>): (r: seq<Order>)
    ensures NewestFirstOrder(r)
    ensures multiset(r) == multiset(orders)
    ensures |r| == |orders|
  {
    if orders == [] then []
    else
      assert orders == [orders[0]] + orders[1..];
      InsertNewest(orders[0], NewestFirst(orders[1..]))
  }

  /** The user an order's `userId` refers to, if any. */
  function FindUserById(users: seq<User>, id: string): (u: Option<User>)
    ensures u.None? <==> forall i :: 0 <= i < |users| ==> users[i].id != id
    ensures u.Some? ==> u.value in users && u.value.id == id
  {
    var ids := seq(|users|, i requires 0 <= i < |users| => users[i].id);
    assert forall i :: 0 <= i < |users| ==> ids[i] == users[i].id;
    match FirstIndexOf(ids, id)
    case None => None
    case Some(k) => Some(users[k])
  }

  /** One item of a listed order. */
  datatype AdminItemView = AdminItemView(productId: string, name: string, price: int, quantity: int, imageUrl: Option<string>)

  /** `imageUrl: item.imageUrl || null`. */
  function ItemView(it: OrderItem): (v: AdminItemView)
    ensures v.productId == it.productId && v.name == it.name && v.price == it.price && v.quantity == it.quantity
    ensures v.imageUrl.Some? <==> it.imageUrl.Some? && it.imageUrl.value != ""
    ensures v.imageUrl.Some? ==> v.imageUrl == it.imageUrl
  {
    AdminItemView(it.productId, it.name, it.price, it.quantity,
                  if it.imageUrl.Some? && it.imageUrl.value != "" then it.imageUrl else None)
  }

  /** One listed order. */
  datatype AdminOrderView = AdminOrderView(
    orderId: string, userId: Option<string>, email: Option<string>, name: Option<string>,
    paymentMethod: string, paymentStatus: PaymentStatus, total: int, currency: string,
    status: OrderStatus, createdAt: int, items: seq<AdminItemView>)

  /** The projection of one order after `populate('userId', 'email name')`:
      `orderId` is the order code; `userId`, `email` and `name` are null
      when the user does not resolve, and an empty email or name is null
      too. */
  function OrderView(o: Order, users: seq<User>): (v: AdminOrderView)
    ensures v.orderId == o.orderCode && v.createdAt == o.createdAt
    ensures v.paymentMethod == o.paymentMethod && v.paymentStatus == o.paymentStatus
    ensures v.total == o.total && v.currency == o.currency && v.status == o.status
    ensures FindUserById(users, o.userId).None? ==> v.userId.None? && v.email.None? && v.name.None?
    ensures FindUserById(users, o.userId).Some? ==>
              var u := FindUserById(users, o.userId).value;
              v.userId == Some(u.id)
              && (v.email.Some? <==> u.email != "") && (v.email.Some? ==> v.email.value == u.email)
              && (v.name.Some? <==> u.name != "") && (v.name.Some? ==> v.name.value == u.name)
    ensures |v.items| == |o.items| && forall i :: 0 <= i < |o.items| ==> v.items[i] == ItemView(o.items[i])
  {
    var u := FindUserById(users, o.userId);
    AdminOrderView(
      o.orderCode,
      if u.Some? then Some(u.value.id) else None,
      if u.Some? && u.value.email != "" then Some(u.value.email) else None,
      if u.Some? && u.value.name != "" then Some(u.value.name) else None,
      o.paymentMethod, o.paymentStatus, o.total, o.currency, o.status, o.createdAt,
      seq(|o.items|, i requires 0 <= i < |o.items| => ItemView(o.items[i])))
  }

  datatype OrdersPage = OrdersPage(page: int, totalPages: int, totalOrders: nat, orders: seq<AdminOrderView>)

  function Abs(n: int): nat {
    if n < 0 then -n else n
  }

  /** The views of the orders in a window of the newest-first list. */
  function ViewWindow(sorted: seq<Order>, users: seq<User>, skip: nat, n: nat): (vs: seq<AdminOrderView>)
    ensures |vs| <= n && |vs| == |Window(sorted, skip, n)|
    ensures forall i :: 0 <= i < |vs| ==> vs[i] == OrderView(sorted[skip + i], users)
  {
    var w := Window(sorted, skip, n);
    seq(|w|, i requires 0 <= i < |w| => OrderView(w[i], users))
  }

  /** The page a request with a non-negative skip selects. A negative limit
      is read by the driver as a single batch of that many orders. */
  function OrdersPageOf(orders: seq<Order>, users: seq<User>, q: PageRequest): (pg: OrdersPage)
    requires q.skip >= 0 && q.limit != 0
    ensures pg.page == q.page && pg.totalOrders == |orders| && pg.totalPages == CeilDiv(|orders|, q.limit)
    ensures |pg.orders| <= Abs(q.limit) && |pg.orders| == |Window(orders, q.skip, Abs(q.limit))|
    ensures forall i :: 0 <= i < |pg.orders| ==> pg.orders[i] == OrderView(NewestFirst(orders)[q.skip + i], users)
  {
    var sorted := NewestFirst(orders);
    var vs := ViewWindow(sorted, users, q.skip, Abs(q.limit));
    assert |sorted| == |orders|;
    OrdersPage(q.page, CeilDiv(|orders|, q.limit), |orders|, vs)
  }

  /** `getPaginatedOrders`: a negative skip makes the query fail (500);
      otherwise the page of views of the newest-first orders. */
  function GetPaginatedOrders(orders: seq<Order>, users: seq<User>, pageQuery: string, limitQuery: string)
    : (r: Result<OrdersPage>)
    ensures var q := ReadPageRequest(pageQuery, limitQuery);
            (r.Err? <==> q.skip < 0)
            && (r.Err? ==> r.error == ServerError)
            && (r.Ok? ==> q.skip >= 0 && r.value == OrdersPageOf(orders, users, q))
  {
    var q := ReadPageRequest(pageQuery, limitQuery);
    if q.skip < 0 then Err(ServerError) else Ok(OrdersPageOf(orders, users, q))
  }

  /** A listed page runs from newest to oldest. */
  lemma PageIsNewestFirst(orders: seq<Order>, users: seq<User>, pageQuery: string, limitQuery: string)
    ensures var r := GetPaginatedOrders(orders, users, pageQuery, limitQuery);
            r.Ok? ==> forall i, j :: 0 <= i < j < |r.value.orders| ==>
                        r.value.orders[i].createdAt >= r.value.orders[j].createdAt
  {
    var q := ReadPageRequest(pageQuery, limitQuery);
    if q.skip >= 0 {
      ViewWindowNewestFirst(NewestFirst(orders), users, q.skip, Abs(q.limit));
    }
  }

  lemma ViewWindowNewestFirst(sorted: seq<Order>, users: seq<User>, skip: nat, n: nat)
    requires NewestFirstOrder(sorted)
    ensures var vs := ViewWindow(sorted, users, skip, n);
            forall i, j :: 0 <= i < j < |vs| ==> vs[i].createdAt >= vs[j].createdAt
  {
    var vs := ViewWindow(sorted, users, skip, n);
    forall i, j | 0 <= i < j < |vs| ensures vs[i].createdAt >= vs[j].createdAt {
      assert vs[i].createdAt == sorted[skip + i].createdAt;
      assert vs[j].createdAt == sorted[skip + j].createdAt;
    }
  }

  /** Every listed entry is the view of a stored order. */
  lemma ListedOrdersAreStored(orders: seq<Order>, users: seq<User>, pageQuery: string, limitQuery: string, i: nat)
    ensures var r := GetPaginatedOrders(orders, users, pageQuery, limitQuery);
            r.Ok? && i < |r.value.orders| ==> exists o :: o in orders && r.value.orders[i] == OrderView(o, users)
  {
    var r := GetPaginatedOrders(orders, users, pageQuery, limitQuery);
    if r.Ok? && i < |r.value.orders| {
      var q := ReadPageRequest(pageQuery, limitQuery);
      var sorted := NewestFirst(orders);
      assert r.value.orders[i] == OrderView(sorted[q.skip + i], users);
      SortedEntryStored(orders, q.skip + i);
    }
  }

  /** Sorting keeps every order, so each sorted entry is a stored order. */
  lemma SortedEntryStored(orders: seq<Order>, k: nat)
    requires k < |NewestFirst(orders)|
    ensures NewestFirst(orders)[k] in orders
  {
    var sorted := NewestFirst(orders);
    assert sorted[k] in multiset(sorted);
  }

  /** Every order is listed on exactly one page of positive limit: page
      `i / limit + 1` of the newest-first list, at position `i % limit`. */
  lemma EveryOrderListedOnce(orders: seq<Order>, users: seq<User>, limit: nat, i: nat)
    requires 0 < limit && i < |orders|
    ensures var p := i / limit + 1;
            var r := GetPaginatedOrders(orders, users, IntToString(p), IntToString(limit));
            r.Ok? && i % limit < |r.value.orders|
            && r.value.orders[i % limit] == OrderView(NewestFirst(orders)[i], users)
            && 1 <= p <= r.value.totalPages
  {
    var p := i / limit + 1;
    PageRequestRoundTrip(p, limit);
    ItemInWindow(NewestFirst(orders), limit, i);
    ItemPageCounted(|orders|, limit, i);
  }
}
