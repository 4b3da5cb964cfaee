/**
 * The product table and the rules for its sequential ids.
 *
 * Products are stored by id. A new id is `P` followed by the zero-padded
 * successor of the number inside the greatest stored id, where "greatest"
 * is string order, the order `orderBy: { id: "desc" }` reads the table in.
 */
module Catalog {
  import opened Wrappers
  import opened Text
  import opened Utils
  import opened Envelopes

  datatype ProductStatus = Active | Inactive | OutOfStock

  function StatusValue(s: ProductStatus): string {
    match s
    case Active => "ACTIVE"
    case Inactive => "INACTIVE"
    case OutOfStock => "OUT_OF_STOCK"
  }

  /** The enum value a request names, if it names one. */
  function ParseStatus(s: string): (r: Option<ProductStatus>)
    ensures r.Some? <==> s in {"ACTIVE", "INACTIVE", "OUT_OF_STOCK"}
    ensures r.Some? ==> StatusValue(r.value) == s
  {
    if s == "ACTIVE" then Some(Active)
    else if s == "INACTIVE" then Some(Inactive)
    else if s == "OUT_OF_STOCK" then Some(OutOfStock)
    else None
  }

  /** A row of the `Product` table; prices are exact decimals. */
  datatype Product = Product(
    id: string,
    sku: string,
    name: string,
    category: string,
    description: Option<string>,
    notes: Option<string>,
    cost: real,
    sellingPrice: real,
    status: ProductStatus,
    isDraft: bool,
    createdAt: int)

  /** What the product routes put in a reply's data: one product, a page of
      a listing, or `{}`. */
  datatype ProductData =
    | Item(product: Product)
    | Listing(items: seq<Product>, page: int, limit: int, total: nat, totalPages: Option<int>)
    | NoData

  /** Every SKU in use. */
  function Skus(products: map<string, Product>): set<string> {
    set k | k in products :: products[k].sku
  }

  predicate KeyedById(products: map<string, Product>) {
    forall k :: k in products ==> products[k].id == k
  }

  /** The `sku` column is unique. */
  predicate UniqueSkus(products: map<string, Product>) {
    forall a, b :: a in products && b in products && a != b ==> products[a].sku != products[b].sku
  }

  /** Inserting a row under a new id with an unused SKU keeps every row
      under its own id and every SKU unique. */
  lemma InsertKeepsUnique(products: map<string, Product>, p: Product)
    requires KeyedById(products) && UniqueSkus(products)
    requires p.id !in products && p.sku !in Skus(products)
    ensures KeyedById(products[p.id := p]) && UniqueSkus(products[p.id := p])
  {
    var r := products[p.id := p];
    forall a, b | a in r && b in r && a != b ensures r[a].sku != r[b].sku {
      if a == p.id {
        assert r[b] == products[b];
        assert products[b].sku in Skus(products);
      } else if b == p.id {
        assert r[a] == products[a];
        assert products[a].sku in Skus(products);
      }
    }
  }

  /** The product table and the clock. */
  class Store {
    var products: map<string, Product>
    var now: int

    ghost predicate Valid()
      reads this
    {
      KeyedById(products) && UniqueSkus(products)
    }

    constructor (now: int)
      ensures products == map[] && this.now == now && Valid()
    {
      products := map[];
      this.now := now;
    }
  }

  // ---------------------------------------------------------------------
  // The greatest id

  /** `last` is the first row of `orderBy: { id: "desc" }`. */
  predicate IsLast(last: string, ids: set<string>) {
    last in ids && forall o :: o in ids && o != last ==> StrLess(o, last)
  }

  /** A non-empty table has a greatest id. */
  lemma {:induction false} LastExists(ids: set<string>)
    requires ids != {}
    ensures exists last :: IsLast(last, ids)
    decreases |ids|
  {
    var x :| x in ids;
    var rest := ids - {x};
    if rest == {} {
      assert ids == {x};
      assert IsLast(x, ids);
    } else {
      LastExists(rest);
      var m :| IsLast(m, rest);
      if StrLess(x, m) {
        forall o | o in ids && o != m ensures StrLess(o, m) {
          if o != x {
            assert o in rest;
          }
        }
        assert IsLast(m, ids);
      } else {
        StrLessTotal(x, m);
        forall o | o in ids && o != x ensures StrLess(o, x) {
          if o != m {
            assert o in rest;
            StrLessTransitive(o, m, x);
          }
        }
        assert IsLast(x, ids);
      }
    }
  }

  /** The greatest id is unique. */
  lemma LastUnique(a: string, b: string, ids: set<string>)
    requires IsLast(a, ids) && IsLast(b, ids)
    ensures a == b
  {
    if a != b {
      StrLessAsymmetric(a, b);
    }
  }

  /** `nextNumber`: 1 for an empty table, otherwise
      `parseInt(last.substring(1), 10) + 1`. */
  function NextNumber(last: Option<string>): JsNumber {
    match last
    case None => Finite(1)
    case Some(l) => Succ(ParseInt(SubstringFrom(l, 1)))
  }

  /** The id a creation tries to insert. */
  function NextId(last: Option<string>): string {
    GenerateId("P", NextNumber(last))
  }

  /** An id of the intended shape: `P` and six digits. */
  predicate WellFormedId(s: string) {
    |s| == 7 && s[0] == 'P' && AllDigits(s[1..])
  }

  /** A well-formed id is `generateId("P", n)` of the number it holds. */
  lemma WellFormedIsGenerated(s: string)
    requires WellFormedId(s)
    ensures Value(s[1..]) < 1000000
    ensures s == GenerateId("P", Finite(Value(s[1..])))
    ensures ParseInt(SubstringFrom(s, 1)) == Finite(Value(s[1..]))
  {
    var d := s[1..];
    IdOfDigits(d);
    assert GenerateId("P", Finite(Value(d))) == "P" + d;
    HeadAndTail(s);
    assert [s[0]] == "P";
  }

  lemma HeadAndTail(s: string)
    requires |s| >= 1
    ensures s == [s[0]] + s[1..]
  {}

  /** `P` followed by six digits is the id of the number they hold, and
      `parseInt` reads that number back. */
  lemma IdOfDigits(d: string)
    requires AllDigits(d) && |d| == 6
    ensures Value(d) < 1000000
    ensures "P" + d == GenerateId("P", Finite(Value(d)))
    ensures ParseInt(d) == Finite(Value(d))
  {
    SixDigitsBound(d);
    PaddedValue(d);
    PrefixedPadding(Value(d));
    ParseAllDigits(d);
  }

  /** Six digits are the padded rendering of the number they hold. */
  lemma PaddedValue(d: string)
    requires AllDigits(d) && |d| == 6
    ensures PadStart(Digits(Value(d)), 6, '0') == d
  {
    SixDigitsBound(d);
    SixDigits(Value(d));
    ValueInjective(d, PadStart(Digits(Value(d)), 6, '0'));
  }

  /** Six digits are worth less than a million. */
  lemma SixDigitsBound(d: string)
    requires AllDigits(d) && |d| == 6
    ensures Value(d) < 1000000
  {
    ValueBound(d);
    assert Pow10(6) == 1000000 by {
      assert Pow10(1) == 10;
    }
  }

  /** The id of a natural number is `P` and its padded digits. */
  lemma PrefixedPadding(n: nat)
    ensures GenerateId("P", Finite(n)) == "P" + PadStart(Digits(n), 6, '0')
  {
    assert NumberToString(Finite(n)) == Digits(n);
  }

  lemma {:induction false} ValueBound(d: string)
    requires AllDigits(d)
    ensures Value(d) < Pow10(|d|)
  {
    if d != [] {
      ValueBound(d[..|d| - 1]);
    }
  }

  /** While every stored id is well formed and below P999999, the next id is
      not in use: the successor of the greatest number is greater than every
      stored number, and ids order as their numbers do. */
  lemma NextIdFresh(ids: set<string>, last: Option<string>)
    requires forall s :: s in ids ==> WellFormedId(s) && Value(s[1..]) < 999999
    requires last.None? <==> ids == {}
    requires last.Some? ==> IsLast(last.value, ids)
    ensures NextId(last) !in ids
    ensures WellFormedId(NextId(last))
  {
    if last.None? {
      SixDigits(1);
      GenerateIdShape("P", 1);
    } else {
      var l := last.value;
      var n := Value(l[1..]);
      WellFormedIsGenerated(l);
      assert NextNumber(last) == Finite(n + 1);
      var next := GenerateId("P", Finite(n + 1));
      SixDigits(n + 1);
      GenerateIdShape("P", n + 1);
      GenerateIdOrder("P", n + 1, n);
      assert !StrLess(next, l);
      assert next[1..] == PadStart(Digits(n + 1), 6, '0');
      assert next != l;
    }
  }

  lemma ParseNines()
    ensures ParseInt(SubstringFrom("P999999", 1)) == Finite(999999)
  {
    assert SubstringFrom("P999999", 1) == "999999";
    ParseAllDigits("999999");
    assert Value("9") == 9;
    assert "99"[..1] == "9";
    assert Value("99") == 99;
    assert "999"[..2] == "99";
    assert Value("999") == 999;
    assert "9999"[..3] == "999";
    assert Value("9999") == 9999;
    assert "99999"[..4] == "9999";
    assert Value("99999") == 99999;
    assert "999999"[..5] == "99999";
  }

  lemma MillionId()
    ensures GenerateId("P", Finite(1000000)) == "P1000000"
  {
    assert Digits(1) == "1";
    assert Digits(10) == "10";
    assert Digits(100) == "100";
    assert Digits(1000) == "1000";
    assert Digits(10000) == "10000";
    assert Digits(100000) == "100000";
    assert Digits(1000000) == "1000000";
    assert NumberToString(Finite(1000000)) == "1000000";
  }

  /** After P999999 the ids outgrow six digits, and `P1000000` sorts below
      `P999999`: inserting it leaves P999999 the greatest id, so every later
      creation tries P1000000 again and its insert clashes. */
  lemma MillionthIdStalls(ids: set<string>)
    requires IsLast("P999999", ids)
    ensures NextId(Some("P999999")) == "P1000000"
    ensures IsLast("P999999", ids + {NextId(Some("P999999"))})
  {
    ParseNines();
    MillionId();
    assert NextNumber(Some("P999999")) == Finite(1000000);
    SameHeadOrder('P', "1000000", "999999");
    assert "P1000000" == ['P'] + "1000000" && "P999999" == ['P'] + "999999";
    assert StrLess("P1000000", "P999999");
  }

  /** A greatest id with no digits after its first character (and no sign
      there) gives `parseInt` nothing to read: the next id is `P000NaN`. */
  lemma NonNumericLastId(l: string)
    requires |l| >= 1 && LeadingDigits(l[1..]) == [] && (|l| == 1 || (l[1] != '-' && l[1] != '+'))
    ensures NextId(Some(l)) == "P000NaN"
  {
    assert ParseInt(SubstringFrom(l, 1)) == NaN;
    assert Repeat('0', 3) == "000";
    assert PadStart("NaN", 6, '0') == "000NaN";
  }

  /** `parseInt("000NaN", 10)` reads the leading zeros as 0, so a greatest id
      of `P000NaN` makes the next id `P000001`. */
  lemma NaNIdRestarts()
    ensures NextId(Some("P000NaN")) == "P000001"
  {
    assert SubstringFrom("P000NaN", 1) == "000NaN";
    assert LeadingDigits("NaN") == [];
    assert "0NaN"[1..] == "NaN";
    assert LeadingDigits("0NaN") == "0";
    assert "00NaN"[1..] == "0NaN";
    assert LeadingDigits("00NaN") == "00";
    assert "000NaN"[1..] == "00NaN";
    assert LeadingDigits("000NaN") == "000";
    assert Value("000") == 0 by {
      ZerosAreZero(3);
      assert Repeat('0', 3) == "000";
    }
    assert NextNumber(Some("P000NaN")) == Finite(1);
    assert Digits(1) == "1";
    assert Repeat('0', 5) == "00000";
    assert PadStart("1", 6, '0') == "000001";
  }
}
