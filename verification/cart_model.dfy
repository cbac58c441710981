/** The cart schema (models/cartModel.js): a cart document per user holding
    product lines, a `cartTotal` and a currency label; the `Cart` collection
    as an in-memory map from user id to stored cart; and the loaded document
    that a controller changes in place before saving it back. */
module CartModel {
  import opened Wrappers

  const DefaultCurrency: string := "INR"

  /** One entry of a cart's `products` array. */
  datatype CartLine = CartLine(productId: string, name: string, price: int, quantity: int, totalPrice: int)

  /** A stored cart. */
  datatype Cart = Cart(userId: string, products: seq<CartLine>, cartTotal: int, currency: string)

  /** A line built from the schema's fields: `price` and `totalPrice` fall back
      to their default 0 when not given. */
  function MakeLine(productId: string, name: string, price: Option<int>, quantity: int, totalPrice: Option<int>): (l: CartLine)
    ensures l.productId == productId && l.name == name && l.quantity == quantity
    ensures price.None? ==> l.price == 0
    ensures price.Some? ==> l.price == price.value
    ensures totalPrice.None? ==> l.totalPrice == 0
    ensures totalPrice.Some? ==> l.totalPrice == totalPrice.value
  {
    CartLine(productId, name, price.GetOr(0), quantity, totalPrice.GetOr(0))
  }

  /** A cart built from the schema's fields: `cartTotal` defaults to 0 and
      `currency` to "INR". */
  function MakeCart(userId: string, products: seq<CartLine>, cartTotal: Option<int>, currency: Option<string>): (c: Cart)
    ensures c.userId == userId && c.products == products
    ensures cartTotal.None? ==> c.cartTotal == 0
    ensures cartTotal.Some? ==> c.cartTotal == cartTotal.value
    ensures currency.None? ==> c.currency == DefaultCurrency
    ensures currency.Some? ==> c.currency == currency.value
  {
    Cart(userId, products, cartTotal.GetOr(0), currency.GetOr(DefaultCurrency))
  }

  /** The product ids present in a list of lines. */
  function IdsOf(lines: seq<CartLine>): set<string> {
    set i | 0 <= i < |lines| :: lines[i].productId
  }

  /** The `required` validators: a cart needs a non-empty `userId` and every
      line a non-empty `productId` (a line's `quantity` is always a number here). */
  predicate CartValid(c: Cart) {
    c.userId != "" && "" !in IdsOf(c.products)
  }

  /** A line whose total is its price times its quantity. */
  predicate Consistent(l: CartLine) {
    l.totalPrice == l.price * l.quantity
  }

  predicate AllConsistent(lines: seq<CartLine>) {
    forall i :: 0 <= i < |lines| ==> Consistent(lines[i])
  }

  /** The sum of the lines' `totalPrice`, as `reduce((sum, p) => sum + p.totalPrice, 0)`. */
  function Sum(lines: seq<CartLine>): int {
    if lines == [] then 0 else Sum(lines[..|lines| - 1]) + lines[|lines| - 1].totalPrice
  }

  lemma SumSnoc(lines: seq<CartLine>, x: CartLine)
    ensures Sum(lines + [x]) == Sum(lines) + x.totalPrice
  {
    assert (lines + [x])[..|lines|] == lines;
  }

  lemma SumPrefix(lines: seq<CartLine>, i: nat)
    requires i < |lines|
    ensures Sum(lines[..i + 1]) == Sum(lines[..i]) + lines[i].totalPrice
  {
    assert lines[..i + 1][..i] == lines[..i];
  }

  /** Replacing one line changes the sum by the difference of the two totals. */
  lemma {:induction false} SumUpdate(lines: seq<CartLine>, k: nat, v: CartLine)
    requires k < |lines|
    ensures Sum(lines[k := v]) == Sum(lines) - lines[k].totalPrice + v.totalPrice
  {
    var n := |lines|;
    if k == n - 1 {
      assert lines[k := v][..n - 1] == lines[..n - 1];
    } else {
      assert lines[k := v][..n - 1] == lines[..n - 1][k := v];
      SumUpdate(lines[..n - 1], k, v);
    }
  }

  /** When every line is consistent, the sum is the sum of price times quantity. */
  function Expected(lines: seq<CartLine>): int {
    if lines == [] then 0
    else Expected(lines[..|lines| - 1]) + lines[|lines| - 1].price * lines[|lines| - 1].quantity
  }

  lemma {:induction false} SumOfConsistent(lines: seq<CartLine>)
    requires AllConsistent(lines)
    ensures Sum(lines) == Expected(lines)
  {
    if lines != [] {
      SumOfConsistent(lines[..|lines| - 1]);
    }
  }

  /** A cart document loaded into memory: the controllers assign its fields and
      push onto its `products` before saving it. */
  class CartDocument {
    var userId: string
    var products: seq<CartLine>
    var cartTotal: int
    var currency: string

    constructor (c: Cart)
      ensures Record() == c
    {
      userId, products, cartTotal, currency := c.userId, c.products, c.cartTotal, c.currency;
    }

    /** What `save` writes. */
    function Record(): Cart
      reads this
    {
      Cart(userId, products, cartTotal, currency)
    }
  }

  /** The `Cart` collection, keyed by the user id it is queried with. */
  class CartCollection {
    var carts: map<string, Cart>

    ghost predicate Valid()
      reads this
    {
      forall u :: u in carts ==> carts[u].userId == u && CartValid(carts[u])
    }

    constructor ()
      ensures Valid() && carts == map[]
    {
      carts := map[];
    }

    /** `Cart.findOne({ userId })`: a fresh in-memory copy, or null. */
    method FindOne(userId: string) returns (doc: CartDocument?)
      ensures doc == null <==> userId !in carts
      ensures doc != null ==> fresh(doc) && doc.Record() == carts[userId]
    {
      if userId in carts {
        doc := new CartDocument(carts[userId]);
      } else {
        doc := null;
      }
    }

    /** `cart.save()`: validation runs first; a document that fails it is not
        written. */
    method Save(doc: CartDocument) returns (ok: bool)
      requires Valid()
      modifies this
      ensures Valid()
      ensures ok <==> CartValid(doc.Record())
      ensures carts == if ok then old(carts)[doc.userId := doc.Record()] else old(carts)
    {
      ok := CartValid(doc.Record());
      if ok {
        carts := carts[doc.userId := doc.Record()];
      }
    }
  }
}
