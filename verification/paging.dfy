/** The page arithmetic shared by the admin listings
    (Admin/productControllers.js `getProducts`, Admin/orderControllers.js
    `getPaginatedOrders`): `parseInt(q) || default` for `page` and `limit`,
    `skip = (page - 1) * limit`, a window of at most `limit` items starting
    at `skip`, and `Math.ceil(total / limit)` pages. */
module Paging {
  import opened Wrappers
  import opened Js

  const DefaultPage: int := 1
  const DefaultLimit: int := 10

  /** `parseInt(q) || d`: NaN and 0 are falsy, so both give the default. */
  function QueryNumber(q: string, d: int): (r: int)
    ensures ParseInt(q).Some? && ParseInt(q).value != 0 ==> r == ParseInt(q).value
    ensures ParseInt(q).None? || ParseInt(q) == Some(0) ==> r == d
  {
    match ParseInt(q)
    case Some(n) => if n != 0 then n else d
    case None => d
  }

  /** A number written into the query string is read back as itself, unless
      it is 0. */
  lemma QueryNumberRoundTrip(n: int, d: int)
    requires n != 0
    ensures QueryNumber(IntToString(n), d) == n
  {
    ParseIntRoundTrip(n);
  }

  /** An absent parameter (read as the empty string) takes the default. */
  lemma QueryNumberAbsent(d: int)
    ensures QueryNumber("", d) == d
  {
    ParseIntNoDigits("");
  }

  /** The page, the limit and the number of items skipped. */
  datatype PageRequest = PageRequest(page: int, limit: int, skip: int)

  /** The two query parameters read with their defaults. Neither is ever 0;
      either can be negative. */
  function ReadPageRequest(pageQuery: string, limitQuery: string): (p: PageRequest)
    ensures p.page == QueryNumber(pageQuery, DefaultPage) && p.limit == QueryNumber(limitQuery, DefaultLimit)
    ensures p.page != 0 && p.limit != 0
    ensures p.skip == (p.page - 1) * p.limit
    ensures p.page == 1 && p.limit > 0 ==> p.skip == 0
  {
    var page := QueryNumber(pageQuery, DefaultPage);
    var limit := QueryNumber(limitQuery, DefaultLimit);
    PageRequest(page, limit, (page - 1) * limit)
  }

  /** A page and a limit written into the query string are read back. */
  lemma PageRequestRoundTrip(page: int, limit: int)
    requires page != 0 && limit != 0
    ensures ReadPageRequest(IntToString(page), IntToString(limit)) == PageRequest(page, limit, (page - 1) * limit)
  {
    QueryNumberRoundTrip(page, DefaultPage);
    QueryNumberRoundTrip(limit, DefaultLimit);
  }

  function Min(a: int, b: int): int {
    if a <= b then a else b
  }

  /** `$skip` then `$limit` (or `.skip().limit()`) over items in order: the
      items at positions `skip`, `skip + 1`, ... and at most `n` of them. */
  function Window<T>(xs: seq<T>, skip: nat, n: nat): (w: seq<T>)
    ensures |w| == if skip >= |xs| then 0 else Min(n, |xs| - skip)
    ensures forall i :: 0 <= i < |w| ==> w[i] == xs[skip + i]
  {
    if skip >= |xs| then [] else xs[skip..skip + Min(n, |xs| - skip)]
  }

  /** `Math.ceil(a / b)` for a count `a` and a non-zero `b`: the least page
      count that covers `a` items at `b` per page when `b` is positive, and
      the ceiling of the negative quotient when `b` is negative. */
  function CeilDiv(a: nat, b: int): (r: int)
    requires b != 0
    ensures b > 0 ==> (r - 1) * b < a <= r * b
    ensures b < 0 ==> r * b <= a < (r - 1) * b
  {
    if b > 0 then
      var q := a / b;
      assert q * b <= a < (q + 1) * b;
      if a == q * b then q else q + 1
    else
      var c := -b;
      var q := a / c;
      assert q * c <= a < (q + 1) * c;
      assert (-q) * b == q * c && (-q - 1) * b == (q + 1) * c;
      -q
  }

  /** Item `i` lies in the window of page `p` (at `limit` items per page)
      exactly when `p` is `i / limit + 1`: every item is on one page and on
      no other. */
  lemma ItemOnOnePage(limit: int, i: nat, p: int)
    requires limit > 0 && p >= 1
    ensures (p - 1) * limit <= i < (p - 1) * limit + limit <==> p == i / limit + 1
  {
    var q := i / limit;
    assert q * limit <= i < q * limit + limit;
    if p - 1 < q {
      MulMono(p, q, limit);
    } else if p - 1 > q {
      MulMono(q + 1, p - 1, limit);
    }
  }

  lemma MulMono(a: int, b: int, c: int)
    requires a <= b && c > 0
    ensures a * c <= b * c
  {
    assert b * c - a * c == (b - a) * c;
  }

  /** Item `i` is in the window of page `i / limit + 1`, at position
      `i % limit`. */
  lemma ItemInWindow<T>(xs: seq<T>, limit: int, i: nat)
    requires limit > 0 && i < |xs|
    ensures var skip := (i / limit + 1 - 1) * limit;
            skip >= 0 && i % limit < |Window(xs, skip, limit)| && Window(xs, skip, limit)[i % limit] == xs[i]
  {
    var q := i / limit;
    assert (q + 1 - 1) * limit == q * limit;
    assert q * limit + i % limit == i;
  }

  /** The page an item is on is one of the `totalPages` pages. */
  lemma ItemPageCounted(total: nat, limit: int, i: nat)
    requires limit > 0 && i < total
    ensures 1 <= i / limit + 1 <= CeilDiv(total, limit)
  {
    var t := CeilDiv(total, limit);
    var q := i / limit;
    assert q * limit <= i < total <= t * limit;
  }

  /** With `totalPages` pages, the last page holds at least one item and the
      page after it holds none. */
  lemma LastPageNonEmpty<T>(xs: seq<T>, limit: int)
    requires limit > 0 && |xs| > 0
    ensures var t := CeilDiv(|xs|, limit);
            t >= 1 && |Window(xs, (t - 1) * limit, limit)| > 0 && |Window(xs, t * limit, limit)| == 0
  {
    var t := CeilDiv(|xs|, limit);
  }
}
