/** The admin product operations (Admin/productControllers.js over the
    schema of Admin/productModel.js): `addProduct` with its falsy-field
    check, generated id and image defaults; `updateProduct` and
    `deleteProduct` on a trimmed id; and the paginated `getProducts`
    listing with its category join. The category collection is reached only
    through lookup functions given as parameters. */
module AdminProducts {
  import opened Wrappers
  import opened Js
  import opened UserModel
  import opened Paging

  /** A stored product. `categoryId` is the referenced category's id as a
      string; an unset `description` or `imageUrl` is `None`. */
  datatype Product = Product(
    productId: string, name: string, description: Option<string>, price: int, stock: int,
    categoryId: string, imageUrl: Option<string>, images: seq<string>)

  /** Product ids present in the collection. */
  function ProductIds(products: seq<Product>): set<string> {
    set i | 0 <= i < |products| :: products[i].productId
  }

  /** The first product, in natural order, with the given `productId`. */
  function FindProduct(products: seq<Product>, productId: string): (k: Option<nat>)
    ensures k.None? <==> productId !in ProductIds(products)
    ensures k.Some? ==> k.value < |products| && products[k.value].productId == productId
                        && forall i :: 0 <= i < k.value ==> products[i].productId != productId
  {
    var ids := seq(|products|, i requires 0 <= i < |products| => products[i].productId);
    assert forall i :: 0 <= i < |products| ==> ids[i] == products[i].productId;
    FirstIndexOf(ids, productId)
  }

  // ------------------------------------------------------------ addProduct

  /** The request body of `addProduct`. An absent string field is "";
      `price` and `stock` are whatever JSON value was sent. */
  datatype AddProductBody = AddProductBody(
    name: string, description: Option<string>, price: JsVal, stock: JsVal, categoryId: string,
    imageUrl: string, images: Option<seq<string>>)

  /** `!name || !price || !stock || !categoryId`: a price or a stock of 0 is
      as missing as an absent one. */
  predicate MissingFields(b: AddProductBody) {
    b.name == "" || !Truthy(b.price) || !Truthy(b.stock) || b.categoryId == ""
  }

  /** `"prod_" + uuidv4().slice(0, 8)`. */
  function NewProductId(uuid: string): (id: string)
    ensures |id| >= 5 && id[..5] == "prod_"
    ensures |uuid| >= 8 ==> |id| == 13 && id[5..] == uuid[..8]
    ensures |uuid| < 8 ==> id[5..] == uuid
  {
    "prod_" + uuid[..Min(8, |uuid|)]
  }

  /** The schema's cast of a JSON value to `Number`, for the values the
      model distinguishes: numbers, booleans and strings of decimal digits
      cast, anything else is a cast error. */
  function NumberCast(v: JsVal): (r: Option<int>)
    ensures v.Num? ==> r == Some(v.n)
    ensures v.Str? ==> (r.Some? <==> v.s != "" && AllRadixDigits(v.s, false))
    ensures v.Str? && r.Some? ==> r.value == RadixValue(v.s, false)
    ensures v.Undefined? || v.Null? ==> r.None?
  {
    match v
    case Num(n) => Some(n)
    case Bool(b) => Some(if b then 1 else 0)
    case Str(s) => if s != "" && AllRadixDigits(s, false) then Some(RadixValue(s, false)) else None
    case Undefined => None
    case Null => None
  }

  /** The document `new Product({...})` builds, after casting: `None` when
      the price or the stock does not cast to a number or the category id
      is not an object id. `imageUrl` falls back to null and `images` to
      the empty list. */
  function NewProduct(b: AddProductBody, productId: string, isObjectId: string -> bool): (r: Option<Product>)
    ensures r.Some? <==> NumberCast(b.price).Some? && NumberCast(b.stock).Some? && isObjectId(b.categoryId)
    ensures r.Some? ==>
              r.value.productId == productId && r.value.name == b.name && r.value.description == b.description
              && Some(r.value.price) == NumberCast(b.price) && Some(r.value.stock) == NumberCast(b.stock)
              && r.value.categoryId == b.categoryId
              && (b.imageUrl == "" ==> r.value.imageUrl.None?)
              && (b.imageUrl != "" ==> r.value.imageUrl == Some(b.imageUrl))
              && r.value.images == b.images.GetOr([])
  {
    var price := NumberCast(b.price);
    var stock := NumberCast(b.stock);
    if price.None? || stock.None? || !isObjectId(b.categoryId) then None
    else
      Some(Product(productId, b.name, b.description, price.value, stock.value, b.categoryId,
                   if b.imageUrl == "" then None else Some(b.imageUrl), b.images.GetOr([])))
  }

  /** What the schema as written keeps of a new product: it declares no
      `imageUrl` and no `images`, so strict mode drops both and the saved
      document has neither. */
  function PersistAsWritten(p: Product): (q: Product)
    ensures q.imageUrl.None? && q.images == []
    ensures q.productId == p.productId && q.name == p.name && q.description == p.description
    ensures q.price == p.price && q.stock == p.stock && q.categoryId == p.categoryId
  {
    p.(imageUrl := None, images := [])
  }

  /** With the schema as written, the image a product is added with is lost. */
  lemma AddedImageDroppedAsWritten(b: AddProductBody, productId: string, isObjectId: string -> bool)
    requires b.imageUrl != "" && NewProduct(b, productId, isObjectId).Some?
    ensures NewProduct(b, productId, isObjectId).value.imageUrl == Some(b.imageUrl)
    ensures PersistAsWritten(NewProduct(b, productId, isObjectId).value).imageUrl.None?
  {
  }

  /** The response of `addProduct`, after `populate` on the category:
      `categoryId` and `categoryName` are null when the category does not
      resolve. */
  datatype AddedProduct = AddedProduct(
    productId: string, name: string, description: Option<string>, price: int, stock: int,
    categoryId: Option<string>, categoryName: Option<string>, imageUrl: Option<string>, images: seq<string>)

  /** `categoryName: categoryId?.name || null`; `category` is the populated
      category's name, if it resolves. An empty `images` also stands for a
      document without the field, whose response then has no `images` key;
      the model does not tell the two apart. */
  function AddedView(p: Product, category: Option<string>): (v: AddedProduct)
    ensures v.productId == p.productId && v.name == p.name && v.description == p.description
    ensures v.price == p.price && v.stock == p.stock
    ensures v.imageUrl == p.imageUrl && v.images == p.images
    ensures v.categoryId.Some? <==> category.Some?
    ensures v.categoryId.Some? ==> v.categoryId.value == p.categoryId
    ensures v.categoryName.Some? <==> category.Some? && category.value != ""
    ensures v.categoryName.Some? ==> v.categoryName == category
  {
    AddedProduct(p.productId, p.name, p.description, p.price, p.stock,
                 if category.Some? then Some(p.categoryId) else None,
                 if category.Some? && category.value != "" then category else None,
                 p.imageUrl, p.images)
  }

  /** The `Product` collection in natural order. */
  class ProductCollection {
    var products: seq<Product>

    /** `productId` is required and unique. (`name` is required too, but
        an update does not run the validators, so only a new product is
        checked for it.) */
    ghost predicate Valid()
      reads this
    {
      (forall i :: 0 <= i < |products| ==> products[i].productId != "")
      && forall i, j :: 0 <= i < j < |products| ==> products[i].productId != products[j].productId
    }

    constructor ()
      ensures Valid() && products == []
    {
      products := [];
    }

    /** `save()` of a new document: the unique index refuses a product id
        already present. */
    method Insert(p: Product) returns (ok: bool)
      requires Valid() && p.productId != ""
      modifies this
      ensures Valid()
      ensures ok <==> p.productId !in ProductIds(old(products))
      ensures ok ==> products == old(products) + [p]
      ensures !ok ==> products == old(products)
    {
      ok := p.productId !in ProductIds(products);
      if ok {
        var prev := products;
        products := products + [p];
        forall i, j | 0 <= i < j < |products| ensures products[i].productId != products[j].productId {
          assert products[i] == prev[i];
          if j < |prev| {
            assert products[j] == prev[j];
          } else {
            assert prev[i].productId in ProductIds(prev);
          }
        }
      }
    }

    /** `findOneAndUpdate({ productId }, body, { new: true })`: the first
        product with that id takes the patch; no match changes nothing. */
    method FindOneAndUpdate(productId: string, patch: ProductPatch) returns (k: Option<nat>)
      requires Valid()
      modifies this
      ensures Valid()
      ensures k == FindProduct(old(products), productId)
      ensures k.None? ==> products == old(products)
      ensures k.Some? ==> products == old(products)[k.value := ApplyPatch(old(products)[k.value], patch)]
    {
      k := FindProduct(products, productId);
      if k.Some? {
        var prev := products;
        products := products[k.value := ApplyPatch(products[k.value], patch)];
        assert forall i :: 0 <= i < |products| ==> products[i].productId == prev[i].productId;
      }
    }

    /** `findOneAndDelete({ productId })`. */
    method FindOneAndDelete(productId: string) returns (k: Option<nat>)
      requires Valid()
      modifies this
      ensures Valid()
      ensures k == FindProduct(old(products), productId)
      ensures k.None? ==> products == old(products)
      ensures k.Some? ==> products == old(products)[..k.value] + old(products)[k.value + 1..]
    {
      k := FindProduct(products, productId);
      if k.Some? {
        var prev := products;
        products := products[..k.value] + products[k.value + 1..];
        assert forall i :: 0 <= i < |products| ==>
                 products[i] == if i < k.value then prev[i] else prev[i + 1];
      }
    }
  }

  /** `addProduct`: 400 when a required field is falsy; otherwise a product
      with a fresh `prod_` id is built and saved, and a failed cast or an id
      already taken answers 500. On success the product, without the image
      fields the schema drops, is appended and the response carries it with
      its category resolved. */
  method AddProduct(coll: ProductCollection, b: AddProductBody, uuid: string,
                    isObjectId: string -> bool, categoryById: string -> Option<string>)
    returns (r: Result<AddedProduct>)
    requires coll.Valid()
    modifies coll
    ensures coll.Valid()
    ensures r == Err(BadRequest) <==> MissingFields(b)
    ensures r == Err(ServerError) <==>
              !MissingFields(b)
              && (NewProduct(b, NewProductId(uuid), isObjectId).None?
                  || NewProductId(uuid) in ProductIds(old(coll.products)))
    ensures r.Err? ==> (r.error == BadRequest || r.error == ServerError) && coll.products == old(coll.products)
    ensures r.Ok? ==>
              var p := PersistAsWritten(NewProduct(b, NewProductId(uuid), isObjectId).value);
              coll.products == old(coll.products) + [p]
              && r.value == AddedView(p, categoryById(p.categoryId))
              && r.value.imageUrl.None? && r.value.images == []
  {
    if b.name == "" || !Truthy(b.price) || !Truthy(b.stock) || b.categoryId == "" {
      return Err(BadRequest);
    }
    var productId := NewProductId(uuid);
    var p := NewProduct(b, productId, isObjectId);
    if p.None? {
      return Err(ServerError);
    }
    var saved := PersistAsWritten(p.value);
    var ok := coll.Insert(saved);
    if !ok {
      return Err(ServerError);
    }
    return Ok(AddedView(saved, categoryById(saved.categoryId)));
  }

  /** With the image fields declared, a product added with an image would
      keep it in the collection and in the response. */
  lemma AddedProductKeepsImages(b: AddProductBody, uuid: string, isObjectId: string -> bool,
                                category: Option<string>)
    requires b.imageUrl != "" && NewProduct(b, NewProductId(uuid), isObjectId).Some?
    ensures var p := NewProduct(b, NewProductId(uuid), isObjectId).value;
            p.imageUrl == Some(b.imageUrl) && AddedView(p, category).imageUrl == Some(b.imageUrl)
  {
  }

  // ------------------------------------------------------------ update / delete

  /** The fields an update body sets; an absent field is `None`. */
  datatype ProductPatch = ProductPatch(
    name: Option<string>, description: Option<string>, price: Option<int>, stock: Option<int>,
    categoryId: Option<string>)

  /** A patch applied to a product: the fields it sets change, every other
      field (the id and the images included) is kept. */
  function ApplyPatch(p: Product, patch: ProductPatch): (q: Product)
    ensures q.productId == p.productId && q.imageUrl == p.imageUrl && q.images == p.images
    ensures q.name == patch.name.GetOr(p.name) && q.description == (if patch.description.Some? then patch.description else p.description)
    ensures q.price == patch.price.GetOr(p.price) && q.stock == patch.stock.GetOr(p.stock)
    ensures q.categoryId == patch.categoryId.GetOr(p.categoryId)
  {
    Product(p.productId, patch.name.GetOr(p.name),
            if patch.description.Some? then patch.description else p.description,
            patch.price.GetOr(p.price), patch.stock.GetOr(p.stock), patch.categoryId.GetOr(p.categoryId),
            p.imageUrl, p.images)
  }

  /** The response of `updateProduct`. */
  datatype UpdatedProduct = UpdatedProduct(
    productId: string, name: string, description: Option<string>, price: int, stock: int,
    categoryId: string, categoryName: Option<string>)

  /** `updateProduct`: the path id is trimmed; no product with it is 404 and
      nothing changes; otherwise the first match takes the patch and the
      response is the updated product with the name of the category found
      by `categoryByKey`, or null. */
  method UpdateProduct(coll: ProductCollection, rawId: string, patch: ProductPatch,
                       categoryByKey: string -> Option<string>)
    returns (r: Result<UpdatedProduct>)
    requires coll.Valid()
    modifies coll
    ensures coll.Valid()
    ensures r.Err? <==> FindProduct(old(coll.products), Trim(rawId)).None?
    ensures r.Err? ==> r.error == NotFound && coll.products == old(coll.products)
    ensures r.Ok? ==>
              var k := FindProduct(old(coll.products), Trim(rawId)).value;
              var q := ApplyPatch(old(coll.products)[k], patch);
              coll.products == old(coll.products)[k := q]
              && r.value == UpdatedProduct(q.productId, q.name, q.description, q.price, q.stock,
                                           q.categoryId, categoryByKey(q.categoryId))
  {
    var productId := Trim(rawId);
    var k := coll.FindOneAndUpdate(productId, patch);
    if k.None? {
      return Err(NotFound);
    }
    var q := coll.products[k.value];
    return Ok(UpdatedProduct(q.productId, q.name, q.description, q.price, q.stock,
                             q.categoryId, categoryByKey(q.categoryId)));
  }

  /** `deleteProduct`: the path id is trimmed; no product with it is 404;
      otherwise the first match is removed and the others keep their order. */
  method DeleteProduct(coll: ProductCollection, rawId: string) returns (r: Result<()>)
    requires coll.Valid()
    modifies coll
    ensures coll.Valid()
    ensures r.Err? <==> FindProduct(old(coll.products), Trim(rawId)).None?
    ensures r.Err? ==> r.error == NotFound && coll.products == old(coll.products)
    ensures r.Ok? ==>
              var k := FindProduct(old(coll.products), Trim(rawId)).value;
              coll.products == old(coll.products)[..k] + old(coll.products)[k + 1..]
  {
    var k := coll.FindOneAndDelete(Trim(rawId));
    if k.None? {
      return Err(NotFound);
    }
    return Ok(());
  }

  /** With unique ids, a deleted product is gone and every other product
      is still there. */
  lemma DeleteRemovesExactlyOne(products: seq<Product>, k: nat)
    requires k < |products|
    requires forall i, j :: 0 <= i < j < |products| ==> products[i].productId != products[j].productId
    ensures var rest := products[..k] + products[k + 1..];
            products[k].productId !in ProductIds(rest)
            && ProductIds(rest) + {products[k].productId} == ProductIds(products)
  {
    var rest := products[..k] + products[k + 1..];
    assert forall i :: 0 <= i < |rest| ==> rest[i] == if i < k then products[i] else products[i + 1];
    forall id | id in ProductIds(products) ensures id in ProductIds(rest) + {products[k].productId} {
      var i :| 0 <= i < |products| && products[i].productId == id;
      if i < k {
        assert rest[i] == products[i];
      } else if i > k {
        assert rest[i - 1] == products[i];
      }
    }
  }

  // ------------------------------------------------------------ getProducts

  /** One entry of the `getProducts` listing. */
  datatype ProductListing = ProductListing(
    productId: string, name: string, description: Option<string>, price: int, stock: int,
    categoryId: string, categoryName: Option<string>)

  /** `categoryName: p.categoryData ? p.categoryData.name : null`, after the
      `$lookup` on the category key. */
  function Listing(p: Product, categoryByKey: string -> Option<string>): (l: ProductListing)
    ensures l.productId == p.productId && l.name == p.name && l.description == p.description
    ensures l.price == p.price && l.stock == p.stock && l.categoryId == p.categoryId
    ensures l.categoryName == categoryByKey(p.categoryId)
  {
    ProductListing(p.productId, p.name, p.description, p.price, p.stock, p.categoryId, categoryByKey(p.categoryId))
  }

  datatype ProductPage = ProductPage(page: int, limit: int, total: nat, totalPages: int, products: seq<ProductListing>)

  /** The listings of the products in a window. */
  function ListWindow(products: seq<Product>, skip: nat, limit: nat,
                      categoryByKey: string -> Option<string>): (ls: seq<ProductListing>)
    ensures |ls| <= limit && |ls| == |Window(products, skip, limit)|
    ensures forall i :: 0 <= i < |ls| ==> ls[i] == Listing(products[skip + i], categoryByKey)
  {
    var w := Window(products, skip, limit);
    seq(|w|, i requires 0 <= i < |w| => Listing(w[i], categoryByKey))
  }

  /** The page a valid request selects. */
  function PageOf(products: seq<Product>, q: PageRequest, categoryByKey: string -> Option<string>): (pg: ProductPage)
    requires q.skip >= 0 && q.limit > 0
    ensures pg.page == q.page && pg.limit == q.limit
    ensures pg.total == |products| && pg.totalPages == CeilDiv(|products|, q.limit)
    ensures |pg.products| <= q.limit && |pg.products| == |Window(products, q.skip, q.limit)|
    ensures forall i :: 0 <= i < |pg.products| ==> pg.products[i] == Listing(products[q.skip + i], categoryByKey)
  {
    ProductPage(q.page, q.limit, |products|, CeilDiv(|products|, q.limit),
                ListWindow(products, q.skip, q.limit, categoryByKey))
  }

  /** `getProducts`: a negative skip or limit makes the aggregation fail
      (500); otherwise the listings of the window of products starting at
      `skip`, at most `limit` of them, in natural order, with the page
      count `ceil(total / limit)`. */
  function GetProducts(products: seq<Product>, pageQuery: string, limitQuery: string,
                       categoryByKey: string -> Option<string>): (r: Result<ProductPage>)
    ensures var q := ReadPageRequest(pageQuery, limitQuery);
            (r.Err? <==> q.skip < 0 || q.limit < 0)
            && (r.Err? ==> r.error == ServerError)
            && (r.Ok? ==> q.skip >= 0 && q.limit > 0 && r.value == PageOf(products, q, categoryByKey))
  {
    var q := ReadPageRequest(pageQuery, limitQuery);
    if q.skip < 0 || q.limit < 0 then Err(ServerError)
    else Ok(PageOf(products, q, categoryByKey))
  }

  /** Without query parameters the listing is the first ten products. */
  lemma DefaultListingIsFirstTen(products: seq<Product>, categoryByKey: string -> Option<string>)
    ensures var r := GetProducts(products, "", "", categoryByKey);
            r.Ok? && r.value.page == 1 && r.value.limit == 10
            && |r.value.products| == Min(10, |products|)
            && forall i :: 0 <= i < |r.value.products| ==>
                 r.value.products[i] == Listing(products[i], categoryByKey)
  {
    QueryNumberAbsent(DefaultPage);
    QueryNumberAbsent(DefaultLimit);
  }

  /** Every product is listed on exactly one page: page `i / limit + 1`, at
      position `i % limit`. */
  lemma EveryProductListedOnce(products: seq<Product>, limit: nat, i: nat, categoryByKey: string -> Option<string>)
    requires 0 < limit && i < |products|
    ensures var p := i / limit + 1;
            var r := GetProducts(products, IntToString(p), IntToString(limit), categoryByKey);
            r.Ok? && i % limit < |r.value.products| && r.value.products[i % limit] == Listing(products[i], categoryByKey)
            && 1 <= p <= r.value.totalPages
  {
    var p := i / limit + 1;
    PageRequestRoundTrip(p, limit);
    ItemInWindow(products, limit, i);
    ItemPageCounted(|products|, limit, i);
  }
}
