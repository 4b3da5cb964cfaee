/**
 * `GET /api/products`: the query string becomes a `where` filter, the
 * matching products are read newest first, one page of them is returned,
 * and the number of matching products and of pages is reported.
 */
module ProductList {
  import opened Wrappers
  import opened Text
  import opened Envelopes
  import opened Catalog

  /** The query string; an absent parameter is `None`. */
  datatype ListQuery = ListQuery(
    page: Option<string>,
    limit: Option<string>,
    category: Option<string>,
    status: Option<string>,
    search: Option<string>,
    includeDrafts: Option<string>)

  /** The `where` object; an absent key is `None`. */
  datatype Where = Where(category: Option<string>, status: Option<string>, isDraft: Option<bool>, search: Option<string>)

  /** A query parameter that is present and not empty. */
  predicate Given(s: Option<string>) {
    s.Some? && s.value != ""
  }

  /** The three-way `OR` of case-insensitive `contains` filters; a product
      without a description does not match on it. */
  predicate SearchHit(p: Product, term: string) {
    || ContainsIgnoreCase(p.name, term)
    || ContainsIgnoreCase(p.sku, term)
    || (p.description.Some? && ContainsIgnoreCase(p.description.value, term))
  }

  /** How the store applies a `where` object to a row. */
  predicate Matches(w: Where, p: Product) {
    && (w.category.None? || p.category == w.category.value)
    && (w.status.None? || StatusValue(p.status) == w.status.value)
    && (w.isDraft.None? || p.isDraft == w.isDraft.value)
    && (w.search.None? || SearchHit(p, w.search.value))
  }

  /** What the query asks for, read off the query string: drafts only when
      `includeDrafts` is exactly "true", and each non-empty filter. */
  predicate Selected(q: ListQuery, p: Product) {
    && (q.includeDrafts.GetOr("false") == "true" || !p.isDraft)
    && (!Given(q.category) || p.category == q.category.value)
    && (!Given(q.status) || StatusValue(p.status) == q.status.value)
    && (!Given(q.search) || SearchHit(p, q.search.value))
  }

  /** The `where` object is assembled field by field; it selects exactly
      the products the query asks for, and it carries the status the query
      names, which the store checks against the enum. */
  method BuildWhere(q: ListQuery) returns (w: Where)
    ensures forall p :: Matches(w, p) <==> Selected(q, p)
    ensures w.status.Some? <==> Given(q.status)
    ensures w.status.Some? ==> w.status == q.status
  {
    w := Where(None, None, None, None);
    if Given(q.category) {
      w := w.(category := q.category);
    }
    if Given(q.status) {
      w := w.(status := q.status);
    }
    if q.includeDrafts.GetOr("false") != "true" {
      w := w.(isDraft := Some(false));
    }
    if Given(q.search) {
      w := w.(search := q.search);
    }
  }

  // ---------------------------------------------------------------------
  // Ordering

  predicate NewestFirst(s: seq<Product>) {
    forall i, j :: 0 <= i < j < |s| ==> s[i].createdAt >= s[j].createdAt
  }

  /** `p` placed before the first product that is not newer than it. */
  function InsertNewest(s: seq<Product>, p: Product): (r: seq<Product>)
    requires NewestFirst(s)
    ensures NewestFirst(r)
    ensures multiset(r) == multiset(s) + multiset{p}
  {
    if s == [] || p.createdAt >= s[0].createdAt then
      [p] + s
    else
      var rest := InsertNewest(s[1..], p);
      assert s == [s[0]] + s[1..];
      InsertedBelow(s[0], s[1..], p, rest);
      [s[0]] + rest
  }

  lemma InsertedBelow(head: Product, tail: seq<Product>, p: Product, rest: seq<Product>)
    requires NewestFirst([head] + tail) && NewestFirst(rest)
    requires p.createdAt < head.createdAt
    requires multiset(rest) == multiset(tail) + multiset{p}
    ensures NewestFirst([head] + rest)
  {
    forall j | 0 <= j < |rest| ensures rest[j].createdAt <= head.createdAt {
      assert rest[j] in multiset(rest);
      if rest[j] != p {
        assert rest[j] in multiset(tail);
        assert rest[j] in tail;
        var k :| 0 <= k < |tail| && tail[k] == rest[j];
        assert ([head] + tail)[0] == head;
        assert ([head] + tail)[k + 1] == tail[k];
      }
    }
    var r := [head] + rest;
    forall i, j | 0 <= i < j < |r| ensures r[i].createdAt >= r[j].createdAt {
      assert r[j] == rest[j - 1];
      if i > 0 {
        assert r[i] == rest[i - 1];
      }
    }
  }

  /** `ordered` is what `findMany({ where, orderBy: { createdAt: "desc" } })`
      reads before paging: every selected product once, no other row, newest
      first. Rows created in the same second may come in any order. */
  ghost predicate IsListing(products: map<string, Product>, q: ListQuery, ordered: seq<Product>) {
    && NewestFirst(ordered)
    && (forall i :: 0 <= i < |ordered| ==>
          ordered[i].id in products && products[ordered[i].id] == ordered[i] && Selected(q, ordered[i]))
    && (forall k :: k in products && Selected(q, products[k]) ==> products[k] in ordered)
    && (forall p :: multiset(ordered)[p] <= 1)
  }

  /** The ids `count({ where })` counts. */
  function MatchingIds(products: map<string, Product>, q: ListQuery): set<string> {
    set k | k in products && Selected(q, products[k])
  }

  /** `findMany` with the `where` object, newest first: the rows are taken
      one at a time and each matching row is placed by its creation time. */
  method FindMany(products: map<string, Product>, q: ListQuery, w: Where) returns (found: seq<Product>)
    requires KeyedById(products)
    requires forall p :: Matches(w, p) <==> Selected(q, p)
    ensures IsListing(products, q, found)
  {
    var remaining := products.Keys;
    found := [];
    while remaining != {}
      invariant remaining <= products.Keys
      invariant NewestFirst(found)
      invariant forall i :: 0 <= i < |found| ==>
                  found[i].id in products && found[i].id !in remaining
                  && products[found[i].id] == found[i] && Selected(q, found[i])
      invariant forall k :: k in products && k !in remaining && Selected(q, products[k]) ==> products[k] in found
      invariant forall p :: multiset(found)[p] <= 1
      decreases |remaining|
    {
      var k :| k in remaining;
      var p := products[k];
      if Matches(w, p) {
        ghost var before := found;
        assert p !in before;
        found := InsertNewest(found, p);
        forall x | x in before ensures x in found {
          assert x in multiset(before);
          assert x in multiset(found);
        }
        forall i | 0 <= i < |found|
          ensures found[i].id in products && found[i].id !in remaining - {k}
                  && products[found[i].id] == found[i] && Selected(q, found[i])
        {
          assert found[i] in multiset(found);
          if found[i] != p {
            assert found[i] in multiset(before);
          }
        }
        assert p in multiset(found);
      }
      remaining := remaining - {k};
    }
  }

  /** The ids of a sequence of products. */
  function Ids(s: seq<Product>): set<string> {
    set i | 0 <= i < |s| :: s[i].id
  }

  lemma {:induction false} DistinctIdsCount(s: seq<Product>)
    requires forall i, j :: 0 <= i < j < |s| ==> s[i].id != s[j].id
    ensures |Ids(s)| == |s|
  {
    if s != [] {
      var n := |s| - 1;
      var init := s[..n];
      DistinctIdsCount(init);
      forall x | x in Ids(s) ensures x in Ids(init) + {s[n].id} {
        var i :| 0 <= i < |s| && s[i].id == x;
        if i < n {
          assert init[i] == s[i];
        }
      }
      forall x | x in Ids(init) + {s[n].id} ensures x in Ids(s) {
        if x != s[n].id {
          var i :| 0 <= i < |init| && init[i].id == x;
          assert s[i] == init[i];
        }
      }
      assert Ids(s) == Ids(init) + {s[n].id};
      assert s[n].id !in Ids(init);
    }
  }

  lemma RepeatCounted(s: seq<Product>, i: nat, j: nat)
    requires i < j < |s| && s[i] == s[j]
    ensures multiset(s)[s[i]] >= 2
  {
    assert s == s[..j] + [s[j]] + s[j + 1..];
    assert s[..j][i] == s[i];
    assert s[i] in multiset(s[..j]);
  }

  /** The reported `total` is the length of the full listing: counting the
      selected rows and reading them give the same number. */
  lemma ListingLength(products: map<string, Product>, q: ListQuery, s: seq<Product>)
    requires KeyedById(products) && IsListing(products, q, s)
    ensures |s| == |MatchingIds(products, q)|
  {
    forall i, j | 0 <= i < j < |s| ensures s[i].id != s[j].id {
      if s[i].id == s[j].id {
        RepeatCounted(s, i, j);
      }
    }
    DistinctIdsCount(s);
    forall k | k in MatchingIds(products, q) ensures k in Ids(s) {
      var i :| 0 <= i < |s| && s[i] == products[k];
    }
    assert Ids(s) == MatchingIds(products, q);
  }

  // ---------------------------------------------------------------------
  // Paging

  function Min(a: int, b: int): int {
    if a <= b then a else b
  }

  /** `skip` and `take` over the ordered rows. A non-negative `take` counts
      from the front; a negative one counts `-take` rows back from the end,
      after skipping `skip` rows there. */
  function Paged(s: seq<Product>, skip: nat, take: int): (r: seq<Product>)
    ensures |r| <= if take >= 0 then take else -take
    ensures take >= 0 && skip + take <= |s| ==> r == s[skip..skip + take]
    ensures take >= 0 && skip >= |s| ==> r == []
  {
    if take >= 0 then
      s[Min(skip, |s|)..Min(skip + take, |s|)]
    else
      var hi := if skip <= |s| then |s| - skip else 0;
      var lo := if hi + take >= 0 then hi + take else 0;
      s[lo..hi]
  }

  /** With a positive limit every row is on exactly the page its position
      says: row `i` is entry `i % limit` of page `i / limit + 1`. */
  lemma PageOfRow(s: seq<Product>, limit: nat, i: nat)
    requires limit >= 1 && i < |s|
    ensures (i / limit) * limit <= i < (i / limit) * limit + limit
    ensures i % limit < |Paged(s, (i / limit) * limit, limit)|
    ensures Paged(s, (i / limit) * limit, limit)[i % limit] == s[i]
  {
    var start := (i / limit) * limit;
    assert i == start + i % limit;
  }

  /** `Math.ceil(total / limit)`, or `None` where it is not a finite number
      (a zero limit: the page count then serialises as null). */
  function PageCount(total: nat, limit: int): Option<int> {
    if limit > 0 then Some((total + limit - 1) / limit)
    else if limit == 0 then None
    else Some(-(total / -limit))
  }

  /** With a positive limit the page count is the least number of pages of
      `limit` rows that hold all `total` rows. */
  lemma PageCountIsCeiling(total: nat, limit: nat)
    requires limit >= 1
    ensures PageCount(total, limit).Some?
    ensures PageCount(total, limit).value * limit >= total
    ensures total > 0 ==> (PageCount(total, limit).value - 1) * limit < total
    ensures total == 0 ==> PageCount(total, limit).value == 0
  {
    var n := PageCount(total, limit).value;
    assert n == (total + limit - 1) / limit;
    assert n * limit <= total + limit - 1 < n * limit + limit;
  }

  /** A page past the last one is empty. */
  lemma PastLastPage(s: seq<Product>, page: nat, limit: nat)
    requires limit >= 1 && page >= 1
    requires page > PageCount(|s|, limit).value
    ensures Paged(s, (page - 1) * limit, limit) == []
  {
    PageCountIsCeiling(|s|, limit);
    var n := PageCount(|s|, limit).value;
    assert (page - 1) * limit >= n * limit;
  }

  // ---------------------------------------------------------------------
  // The handler

  function PageNumber(q: ListQuery): JsNumber {
    ParseInt(q.page.GetOr("1"))
  }

  function LimitNumber(q: ListQuery): JsNumber {
    ParseInt(q.limit.GetOr("50"))
  }

  /** The store refuses the query: a page or limit that is not a number, a
      negative `skip`, or a status outside the enum. */
  predicate Rejected(q: ListQuery) {
    || PageNumber(q).NaN?
    || LimitNumber(q).NaN?
    || (PageNumber(q).value - 1) * LimitNumber(q).value < 0
    || (Given(q.status) && ParseStatus(q.status.value).None?)
  }

  /** The handler. A rejected query is "Failed to fetch products" with
      status 500. Otherwise the reply holds the requested page of the
      selected products, newest first, the page and limit as parsed, the
      number of selected products and the page count. The table is only
      read. */
  method List(db: Store, q: ListQuery) returns (reply: Reply<ProductData>, ghost ordered: seq<Product>)
    requires db.Valid()
    ensures Rejected(q) ==> reply == SendError("Failed to fetch products", db.now, 500)
    ensures !Rejected(q) ==>
              var page := PageNumber(q).value;
              var limit := LimitNumber(q).value;
              var total := |MatchingIds(db.products, q)|;
              && IsListing(db.products, q, ordered)
              && reply == SendSuccess(Listing(Paged(ordered, (page - 1) * limit, limit), page, limit,
                                              total, PageCount(total, limit)),
                                      db.now, "Products retrieved successfully")
  {
    ordered := [];
    var pageNum := ParseInt(q.page.GetOr("1"));
    var limitNum := ParseInt(q.limit.GetOr("50"));
    var w := BuildWhere(q);
    if pageNum.NaN? || limitNum.NaN? {
      reply := SendError("Failed to fetch products", db.now, 500);
      return;
    }
    var skip := (pageNum.value - 1) * limitNum.value;
    if skip < 0 || (w.status.Some? && ParseStatus(w.status.value).None?) {
      reply := SendError("Failed to fetch products", db.now, 500);
      return;
    }

    var found := FindMany(db.products, q, w);
    ordered := found;

    var total := |set k | k in db.products && Matches(w, db.products[k])|;
    assert (set k | k in db.products && Matches(w, db.products[k])) == MatchingIds(db.products, q);
    reply := SendSuccess(Listing(Paged(found, skip, limitNum.value), pageNum.value, limitNum.value,
                                 total, PageCount(total, limitNum.value)),
                         db.now, "Products retrieved successfully");
  }
}
