/** `addToCart` (controllers/cartController.js and its nodeProject copy):
    validate the request, load the user's cart, compute the request lines,
    merge them into the loaded document or build a new one, recompute the
    total and save. */
module CartController {
  import opened Wrappers
  import opened CartModel
  import opened CartMerge

  /** The 400 guard: no user id, or `products` missing, not an array, or empty. */
  predicate BadAddRequest(userId: string, products: Option<seq<RequestItem>>) {
    userId == "" || products.None? || |products.value| == 0
  }

  /** Some request line has no usable `productId`, so its cart line fails `required`. */
  predicate MissingId(items: seq<RequestItem>) {
    exists i :: 0 <= i < |items| && StoredId(items[i].productId) == ""
  }

  /** `products.map(...)` together with its running `cartTotal`. */
  method ComputeLines(items: seq<RequestItem>) returns (incs: seq<Incoming>, cartTotal: int)
    requires AllNumeric(items)
    ensures incs == Incomings(items)
    ensures cartTotal == Sum(LinesOf(incs))
  {
    incs := [];
    cartTotal := 0;
    for i := 0 to |items|
      invariant |incs| == i
      invariant forall j :: 0 <= j < i ==> incs[j] == ToIncoming(items[j])
      invariant cartTotal == Sum(LinesOf(incs))
    {
      var inc := ToIncoming(items[i]);
      assert LinesOf(incs + [inc]) == LinesOf(incs) + [inc.line];
      SumSnoc(LinesOf(incs), inc.line);
      incs := incs + [inc];
      cartTotal := cartTotal + inc.line.totalPrice;
    }
  }

  /** `cart.products.find(p => p.productId === ref)`, as an index. */
  method FindIndex(lines: seq<CartLine>, r: ProductRef) returns (k: Option<nat>)
    ensures k == FindLine(lines, r)
  {
    var i := 0;
    while i < |lines|
      invariant 0 <= i <= |lines|
      invariant forall j :: 0 <= j < i ==> !SameProduct(lines[j], r)
    {
      if SameProduct(lines[i], r) {
        return Some(i);
      }
      i := i + 1;
    }
    return None;
  }

  /** The `forEach` over the request lines, changing the loaded document's
      `products` in place. */
  method MergeInto(doc: CartDocument, incs: seq<Incoming>, rule: NameRule)
    modifies doc`products
    ensures doc.products == MergeAll(old(doc.products), incs, rule)
  {
    for i := 0 to |incs|
      invariant doc.products == MergeAll(old(doc.products), incs[..i], rule)
    {
      ghost var prev := doc.products;
      var k := FindIndex(doc.products, incs[i].ref);
      match k {
        case None =>
          doc.products := doc.products + [incs[i].line];
        case Some(j) =>
          doc.products := doc.products[j := Bump(doc.products[j], incs[i].line, rule)];
      }
      assert doc.products == MergeOne(prev, incs[i], rule);
      assert incs[..i + 1][..i] == incs[..i];
      MergeAllStep(old(doc.products), incs[..i + 1], rule);
    }
    assert incs[..|incs|] == incs;
  }

  /** `cart.products.reduce((sum, p) => sum + p.totalPrice, 0)`. */
  method SumLines(lines: seq<CartLine>) returns (total: int)
    ensures total == Sum(lines)
  {
    total := 0;
    for i := 0 to |lines|
      invariant total == Sum(lines[..i])
    {
      SumPrefix(lines, i);
      total := total + lines[i].totalPrice;
    }
    assert lines[..|lines|] == lines;
  }

  /** The request lines' ids are the ids their references are stored as. */
  lemma IncomingIds(items: seq<RequestItem>)
    requires AllNumeric(items)
    ensures "" in IdsOf(LinesOf(Incomings(items))) <==> MissingId(items)
  {
    var ls := LinesOf(Incomings(items));
    if MissingId(items) {
      var i :| 0 <= i < |items| && StoredId(items[i].productId) == "";
      assert ls[i].productId == "";
    }
  }

  /** `addToCart`. The stored carts change only on success, and then exactly
      at the request's user id. A request with a price or quantity that is
      not a number, or a line without a product id, fails validation on save
      and answers 500; every other well-formed request succeeds. A new cart
      holds the request lines in order with currency "INR"; an existing cart
      gets the request lines merged into its lines and keeps its currency;
      either way the saved total is the sum of the saved lines. */
  method AddToCart(store: CartCollection, userId: string, products: Option<seq<RequestItem>>, rule: NameRule)
    returns (r: Result<Cart>)
    requires store.Valid()
    modifies store
    ensures store.Valid()
    ensures r == Err(BadRequest) <==> BadAddRequest(userId, products)
    ensures r == Err(ServerError) <==>
              !BadAddRequest(userId, products) && (!AllNumeric(products.value) || MissingId(products.value))
    ensures r.Err? ==> r.error == BadRequest || r.error == ServerError
    ensures r.Err? ==> store.carts == old(store.carts)
    ensures r.Ok? ==> store.carts == old(store.carts)[userId := r.value]
    ensures r.Ok? ==> r.value.userId == userId && r.value.cartTotal == Sum(r.value.products)
    ensures r.Ok? && userId !in old(store.carts) ==>
              r.value.products == LinesOf(Incomings(products.value)) && r.value.currency == DefaultCurrency
    ensures r.Ok? && userId in old(store.carts) ==>
              r.value.products == MergeAll(old(store.carts)[userId].products, Incomings(products.value), rule)
              && r.value.currency == old(store.carts)[userId].currency
  {
    if userId == "" || products.None? || |products.value| == 0 {
      return Err(BadRequest);
    }
    var items := products.value;
    var doc := store.FindOne(userId);
    if !AllNumeric(items) {
      // `Number(...)` gave NaN somewhere, and casting it fails the save.
      return Err(ServerError);
    }
    var incs, cartTotal := ComputeLines(items);
    IncomingIds(items);
    if doc != null {
      var stored := doc.products;
      MergeInto(doc, incs, rule);
      MergeAllIds(stored, incs, rule);
      doc.cartTotal := SumLines(doc.products);
    } else {
      doc := new CartDocument(Cart(userId, LinesOf(incs), cartTotal, DefaultCurrency));
    }
    var ok := store.Save(doc);
    if !ok {
      return Err(ServerError);
    }
    return Ok(doc.Record());
  }
}
