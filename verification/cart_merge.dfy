/** The merge at the heart of `addToCart` (controllers/cartController.js and
    nodeProject/controllers/cartController.js), as functions on sequences of
    lines: each computed request line either bumps the first stored line whose
    `productId` is strictly equal to its own, or is appended. */
module CartMerge {
  import opened Wrappers
  import opened Js
  import opened CartModel

  /** A request line's `productId` as JSON delivers it. */
  datatype ProductRef = IdString(s: string) | IdNumber(n: int) | IdMissing

  /** What the schema stores for it: a number is cast to its decimal string; a
      missing id stays empty and fails `required`. */
  function StoredId(r: ProductRef): (id: string)
    ensures r.IdString? ==> id == r.s
    ensures r.IdNumber? ==> id != ""
    ensures r.IdMissing? ==> id == ""
  {
    match r
    case IdString(s) => s
    case IdNumber(n) => IntToString(n)
    case IdMissing => ""
  }

  /** `p.productId === newItem.productId`: a stored id is a string, so only a
      string reference can be strictly equal to it. */
  predicate SameProduct(line: CartLine, r: ProductRef) {
    r == IdString(line.productId)
  }

  /** One line of the request body. `None` stands for a price or quantity
      that `Number(...)` turns into NaN. */
  datatype RequestItem = RequestItem(productId: ProductRef, name: Option<string>, price: Option<int>, quantity: Option<int>)

  predicate Numeric(item: RequestItem) {
    item.price.Some? && item.quantity.Some?
  }

  predicate AllNumeric(items: seq<RequestItem>) {
    forall i :: 0 <= i < |items| ==> Numeric(items[i])
  }

  /** A computed line together with the raw reference the merge compares. */
  datatype Incoming = Incoming(ref: ProductRef, line: CartLine)

  /** One step of `products.map`: `name` falls back to "", the total is price
      times quantity. */
  function ToIncoming(item: RequestItem): (inc: Incoming)
    requires Numeric(item)
    ensures inc.ref == item.productId && inc.line.productId == StoredId(item.productId)
    ensures Consistent(inc.line)
    ensures inc.line.price == item.price.value && inc.line.quantity == item.quantity.value
    ensures item.name.None? ==> inc.line.name == ""
    ensures item.name.Some? ==> inc.line.name == item.name.value
  {
    var p := item.price.value;
    var q := item.quantity.value;
    Incoming(item.productId, CartLine(StoredId(item.productId), item.name.GetOr(""), p, q, p * q))
  }

  function Incomings(items: seq<RequestItem>): (incs: seq<Incoming>)
    requires AllNumeric(items)
    ensures |incs| == |items|
    ensures forall i :: 0 <= i < |items| ==> incs[i] == ToIncoming(items[i])
  {
    seq(|items|, i requires 0 <= i < |items| => ToIncoming(items[i]))
  }

  function LinesOf(incs: seq<Incoming>): (lines: seq<CartLine>)
    ensures |lines| == |incs|
    ensures forall i :: 0 <= i < |incs| ==> lines[i] == incs[i].line
  {
    seq(|incs|, i requires 0 <= i < |incs| => incs[i].line)
  }

  /** Whether a merge may fill in an empty stored name (the root copy does,
      the nodeProject copy does not). */
  datatype NameRule = BackfillName | KeepName

  /** `cart.products.find(p => p.productId === r)`: the first strictly equal line. */
  function FindLine(lines: seq<CartLine>, r: ProductRef): (k: Option<nat>)
    ensures k.None? <==> forall i :: 0 <= i < |lines| ==> !SameProduct(lines[i], r)
    ensures k.Some? ==> k.value < |lines| && SameProduct(lines[k.value], r)
    ensures k.Some? ==> forall i :: 0 <= i < k.value ==> !SameProduct(lines[i], r)
  {
    if lines == [] then None
    else if SameProduct(lines[0], r) then Some(0)
    else
      match FindLine(lines[1..], r)
      case None => None
      case Some(j) => Some(j + 1)
  }

  /** A stored line after a matching request line is merged into it. */
  function Bump(stored: CartLine, added: CartLine, rule: NameRule): (r: CartLine)
    ensures r.productId == stored.productId && r.price == stored.price
    ensures r.quantity == stored.quantity + added.quantity
    ensures r.totalPrice == stored.totalPrice + added.totalPrice
    ensures r.name == stored.name || (rule == BackfillName && stored.name == "" && r.name == added.name)
  {
    stored.(quantity := stored.quantity + added.quantity,
            totalPrice := stored.totalPrice + added.totalPrice,
            name := if rule == BackfillName && stored.name == "" && added.name != "" then added.name else stored.name)
  }

  /** One `forEach` step: bump the first match, otherwise append. */
  function MergeOne(lines: seq<CartLine>, inc: Incoming, rule: NameRule): (r: seq<CartLine>)
    ensures FindLine(lines, inc.ref).None? ==> r == lines + [inc.line]
    ensures FindLine(lines, inc.ref).Some? ==>
              var k := FindLine(lines, inc.ref).value;
              |r| == |lines| && r[k] == Bump(lines[k], inc.line, rule)
              && forall j :: 0 <= j < |lines| && j != k ==> r[j] == lines[j]
    ensures Sum(r) == Sum(lines) + inc.line.totalPrice
  {
    match FindLine(lines, inc.ref)
    case None =>
      SumSnoc(lines, inc.line);
      lines + [inc.line]
    case Some(k) =>
      SumUpdate(lines, k, Bump(lines[k], inc.line, rule));
      lines[k := Bump(lines[k], inc.line, rule)]
  }

  /** The whole `forEach`: the request lines merged one after another, so a
      later line sees the lines appended by earlier ones. */
  function MergeAll(lines: seq<CartLine>, incs: seq<Incoming>, rule: NameRule): (r: seq<CartLine>)
    ensures |lines| <= |r| <= |lines| + |incs|
    ensures Sum(r) == Sum(lines) + Sum(LinesOf(incs))
    decreases |incs|
  {
    if incs == [] then lines
    else
      var n := |incs|;
      var prev := MergeAll(lines, incs[..n - 1], rule);
      assert LinesOf(incs) == LinesOf(incs[..n - 1]) + [incs[n - 1].line];
      SumSnoc(LinesOf(incs[..n - 1]), incs[n - 1].line);
      MergeOne(prev, incs[n - 1], rule)
  }

  /** Every stored line keeps its position, id and price; a non-empty name is
      never overwritten, and under `KeepName` no name changes at all. */
  lemma {:induction false} MergeAllKeepsStored(lines: seq<CartLine>, incs: seq<Incoming>, rule: NameRule, i: nat)
    requires i < |lines|
    ensures var r := MergeAll(lines, incs, rule);
            r[i].productId == lines[i].productId && r[i].price == lines[i].price
            && (lines[i].name != "" ==> r[i].name == lines[i].name)
            && (rule == KeepName ==> r[i].name == lines[i].name)
    decreases |incs|
  {
    if incs != [] {
      MergeAllKeepsStored(lines, incs[..|incs| - 1], rule, i);
    }
  }

  /** A stored line that no request line names is left exactly as it was. */
  lemma {:induction false} MergeAllKeepsUnnamed(lines: seq<CartLine>, incs: seq<Incoming>, rule: NameRule, i: nat)
    requires i < |lines|
    requires forall j :: 0 <= j < |incs| ==> !SameProduct(lines[i], incs[j].ref)
    ensures MergeAll(lines, incs, rule)[i] == lines[i]
    decreases |incs|
  {
    if incs != [] {
      MergeAllKeepsUnnamed(lines, incs[..|incs| - 1], rule, i);
    }
  }

  /** A numeric `productId` is never strictly equal to a stored (string) id,
      so it is always appended, even next to a line with the same digits. */
  lemma NumericIdAppends(lines: seq<CartLine>, inc: Incoming, rule: NameRule)
    requires inc.ref.IdNumber?
    ensures MergeOne(lines, inc, rule) == lines + [inc.line]
  {
    assert FindLine(lines, inc.ref).None?;
  }

  /** A product named twice in one request, and not yet in the cart, is
      appended once and the second occurrence merges into the appended line. */
  lemma RepeatMergesIntoAppended(lines: seq<CartLine>, a: Incoming, b: Incoming, rule: NameRule)
    requires a.ref.IdString? && a.line.productId == a.ref.s && b.ref == a.ref
    requires FindLine(lines, a.ref).None?
    ensures MergeAll(lines, [a, b], rule) == lines + [Bump(a.line, b.line, rule)]
  {
    assert [a, b][..1] == [a];
    assert [a][..0] == [];
    assert MergeAll(lines, [], rule) == lines;
    assert MergeAll(lines, [a], rule) == MergeOne(lines, a, rule) == lines + [a.line];
    var mid := lines + [a.line];
    assert forall i :: 0 <= i < |lines| ==> mid[i] == lines[i];
    assert SameProduct(mid[|lines|], b.ref);
    assert FindLine(mid, b.ref) == Some(|lines|);
    assert MergeAll(lines, [a, b], rule) == MergeOne(mid, b, rule);
  }

  /** Every line's price is the one a price list gives for its id. */
  ghost predicate PricedBy(lines: seq<CartLine>, priceOf: string -> int) {
    forall i :: 0 <= i < |lines| ==> lines[i].price == priceOf(lines[i].productId)
  }

  lemma BumpKeepsConsistent(e: CartLine, added: CartLine, rule: NameRule)
    requires Consistent(e) && Consistent(added) && added.price == e.price
    ensures Consistent(Bump(e, added, rule))
  {
    calc {
      e.totalPrice + added.totalPrice;
      e.price * e.quantity + e.price * added.quantity;
      e.price * (e.quantity + added.quantity);
    }
  }

  /** One merge step keeps the lines consistent and priced by the list. */
  lemma MergeOneKeepsConsistent(lines: seq<CartLine>, inc: Incoming, rule: NameRule, priceOf: string -> int)
    requires AllConsistent(lines) && PricedBy(lines, priceOf)
    requires inc.line.productId == StoredId(inc.ref) && Consistent(inc.line)
    requires inc.line.price == priceOf(inc.line.productId)
    ensures AllConsistent(MergeOne(lines, inc, rule)) && PricedBy(MergeOne(lines, inc, rule), priceOf)
  {
    var r := MergeOne(lines, inc, rule);
    match FindLine(lines, inc.ref)
    case None =>
      assert r == lines + [inc.line];
      forall j | 0 <= j < |r| ensures Consistent(r[j]) && r[j].price == priceOf(r[j].productId) {
        if j < |lines| {
          assert r[j] == lines[j];
        }
      }
    case Some(k) =>
      assert lines[k].price == priceOf(lines[k].productId);
      BumpKeepsConsistent(lines[k], inc.line, rule);
      forall j | 0 <= j < |r| ensures Consistent(r[j]) && r[j].price == priceOf(r[j].productId) {
        if j != k {
          assert r[j] == lines[j];
        }
      }
  }

  lemma PricedByPrefix(incs: seq<Incoming>, n: nat, priceOf: string -> int)
    requires n <= |incs| && PricedBy(LinesOf(incs), priceOf)
    ensures PricedBy(LinesOf(incs[..n]), priceOf)
  {
    forall j | 0 <= j < n ensures LinesOf(incs[..n])[j].price == priceOf(LinesOf(incs[..n])[j].productId) {
      assert LinesOf(incs[..n])[j] == LinesOf(incs)[j];
    }
  }

  /** When stored and requested prices all come from one price list, merging
      keeps every line's total equal to its price times its quantity. */
  lemma {:induction false} MergeAllKeepsConsistent(lines: seq<CartLine>, incs: seq<Incoming>, rule: NameRule, priceOf: string -> int)
    requires AllConsistent(lines) && PricedBy(lines, priceOf)
    requires forall j :: 0 <= j < |incs| ==> incs[j].line.productId == StoredId(incs[j].ref)
    requires forall j :: 0 <= j < |incs| ==> Consistent(incs[j].line)
    requires PricedBy(LinesOf(incs), priceOf)
    ensures AllConsistent(MergeAll(lines, incs, rule)) && PricedBy(MergeAll(lines, incs, rule), priceOf)
    decreases |incs|
  {
    if incs != [] {
      var n := |incs|;
      PricedByPrefix(incs, n - 1, priceOf);
      MergeAllKeepsConsistent(lines, incs[..n - 1], rule, priceOf);
      assert incs[n - 1].line == LinesOf(incs)[n - 1];
      MergeOneKeepsConsistent(MergeAll(lines, incs[..n - 1], rule), incs[n - 1], rule, priceOf);
    }
  }

  /** Without a common price list the line invariant breaks: a request line for
      a stored product at a different price adds its own total while the
      stored price is kept. */
  lemma PriceMismatchBreaksConsistency(rule: NameRule)
    ensures var stored := [CartLine("p1", "Pen", 10, 1, 10)];
            var r := MergeOne(stored, Incoming(IdString("p1"), CartLine("p1", "Pen", 20, 1, 20)), rule);
            r == [CartLine("p1", "Pen", 10, 2, 30)] && !AllConsistent(r)
  {
    var stored := [CartLine("p1", "Pen", 10, 1, 10)];
    assert FindLine(stored, IdString("p1")) == Some(0);
  }

  lemma IdsSnoc(lines: seq<CartLine>, x: CartLine)
    ensures IdsOf(lines + [x]) == IdsOf(lines) + {x.productId}
  {
    var r := lines + [x];
    assert r[|lines|] == x;
    forall y | y in IdsOf(lines) ensures y in IdsOf(r) {
      var i :| 0 <= i < |lines| && lines[i].productId == y;
      assert r[i] == lines[i];
    }
  }

  /** One merge step adds the request line's id to the ids present. */
  lemma MergeOneIds(lines: seq<CartLine>, inc: Incoming, rule: NameRule)
    requires inc.line.productId == StoredId(inc.ref)
    ensures IdsOf(MergeOne(lines, inc, rule)) == IdsOf(lines) + {inc.line.productId}
  {
    var r := MergeOne(lines, inc, rule);
    match FindLine(lines, inc.ref)
    case None =>
      IdsSnoc(lines, inc.line);
    case Some(k) =>
      assert inc.line.productId == lines[k].productId;
      forall y | y in IdsOf(lines) ensures y in IdsOf(r) {
        var i :| 0 <= i < |lines| && lines[i].productId == y;
        assert r[i].productId == lines[i].productId;
      }
      forall y | y in IdsOf(r) ensures y in IdsOf(lines) {
        var i :| 0 <= i < |r| && r[i].productId == y;
        assert r[i].productId == lines[i].productId;
      }
  }

  lemma MergeAllStep(lines: seq<CartLine>, incs: seq<Incoming>, rule: NameRule)
    requires incs != []
    ensures MergeAll(lines, incs, rule) == MergeOne(MergeAll(lines, incs[..|incs| - 1], rule), incs[|incs| - 1], rule)
  {
  }

  lemma IdsChain(lines: seq<CartLine>, prev: seq<CartLine>, next: seq<CartLine>, front: seq<CartLine>, all: seq<CartLine>, x: string)
    requires IdsOf(prev) == IdsOf(lines) + IdsOf(front)
    requires IdsOf(next) == IdsOf(prev) + {x}
    requires IdsOf(all) == IdsOf(front) + {x}
    ensures IdsOf(next) == IdsOf(lines) + IdsOf(all)
  {
  }

  lemma LinesOfIdsSnoc(incs: seq<Incoming>)
    requires incs != []
    ensures IdsOf(LinesOf(incs)) == IdsOf(LinesOf(incs[..|incs| - 1])) + {incs[|incs| - 1].line.productId}
  {
    assert LinesOf(incs) == LinesOf(incs[..|incs| - 1]) + [incs[|incs| - 1].line];
    IdsSnoc(LinesOf(incs[..|incs| - 1]), incs[|incs| - 1].line);
  }

  lemma MergeAllIdsLast(lines: seq<CartLine>, incs: seq<Incoming>, rule: NameRule)
    requires incs != [] && incs[|incs| - 1].line.productId == StoredId(incs[|incs| - 1].ref)
    ensures IdsOf(MergeAll(lines, incs, rule)) == IdsOf(MergeAll(lines, incs[..|incs| - 1], rule)) + {incs[|incs| - 1].line.productId}
  {
    MergeAllStep(lines, incs, rule);
    MergeOneIds(MergeAll(lines, incs[..|incs| - 1], rule), incs[|incs| - 1], rule);
  }

  /** The ids after a merge are the stored ids plus the requested ones: a
      matched request line shares its id with the line it bumps, an unmatched
      one is appended. */
  lemma {:induction false} MergeAllIds(lines: seq<CartLine>, incs: seq<Incoming>, rule: NameRule)
    requires forall j :: 0 <= j < |incs| ==> incs[j].line.productId == StoredId(incs[j].ref)
    ensures IdsOf(MergeAll(lines, incs, rule)) == IdsOf(lines) + IdsOf(LinesOf(incs))
    decreases |incs|
  {
    if incs == [] {
      assert IdsOf(LinesOf(incs)) == {};
    } else {
      var front := incs[..|incs| - 1];
      MergeAllIds(lines, front, rule);
      LinesOfIdsSnoc(incs);
      MergeAllIdsLast(lines, incs, rule);
      IdsChain(lines, MergeAll(lines, front, rule), MergeAll(lines, incs, rule), LinesOf(front), LinesOf(incs), incs[|incs| - 1].line.productId);
    }
  }
}
