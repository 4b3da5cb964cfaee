/**
 * The product form's validation schema: an object of six string fields,
 * each with its own checks. Parsing a record yields the list of issues, in
 * the order of the schema's keys; the record is accepted when the list is
 * empty. A form record maps field names to strings.
 */
module ProductSchema {
  import opened Wrappers
  import opened Text

  datatype Issue = Issue(path: string, message: string)

  type Form = map<string, string>

  // ---------------------------------------------------------------------
  // `Number(s)` on decimal text

  /** Digits with at most one decimal point and at least one digit: the
      unsigned literal `Number` reads. */
  function Magnitude(body: string): Option<real> {
    var whole := LeadingDigits(body);
    var rest := body[|whole|..];
    if rest == [] then
      if whole == [] then None else Some(Value(whole) as real)
    else if rest[0] == '.' && AllDigits(rest[1..]) && (whole != [] || |rest| > 1) then
      Some(Value(whole) as real + Value(rest[1..]) as real / Pow10(|rest| - 1) as real)
    else
      None
  }

  /** `Number(s)`: the empty string is 0, a sign may lead, anything else
      that is not a decimal literal is NaN (`None`). */
  function NumberOf(s: string): Option<real> {
    if s == [] then Some(0.0)
    else
      var body := if s[0] == '-' || s[0] == '+' then s[1..] else s;
      match Magnitude(body)
      case None => None
      case Some(m) => Some(if s[0] == '-' then -m else m)
  }

  /** The refinement on the two prices: a number, and not below zero. */
  predicate NonNegativeNumber(s: string) {
    NumberOf(s).Some? && NumberOf(s).value >= 0.0
  }

  // ---------------------------------------------------------------------
  // The fields

  /** A string field: a missing key is "Required" and nothing else is
      checked; otherwise every failed length check is reported. */
  function TextField(form: Form, key: string, min: nat, minMessage: string,
                     max: Option<nat>, maxMessage: string): (r: seq<Issue>)
    ensures key !in form ==> r == [Issue(key, "Required")]
    ensures key in form ==> (r == [] <==> min <= |form[key]| && (max.None? || |form[key]| <= max.value))
    ensures forall i :: 0 <= i < |r| ==> r[i].path == key
  {
    if key !in form then [Issue(key, "Required")]
    else
      var v := form[key];
      (if |v| < min then [Issue(key, minMessage)] else [])
      + (if max.Some? && |v| > max.value then [Issue(key, maxMessage)] else [])
  }

  /** A price field: required, non-empty, and then the refinement, which
      still runs after the length check has failed. */
  function PriceField(form: Form, key: string, minMessage: string, refineMessage: string): (r: seq<Issue>)
    ensures key !in form ==> r == [Issue(key, "Required")]
    ensures key in form ==> (r == [] <==> |form[key]| >= 1 && NonNegativeNumber(form[key]))
    ensures forall i :: 0 <= i < |r| ==> r[i].path == key
  {
    if key !in form then [Issue(key, "Required")]
    else
      var v := form[key];
      (if |v| < 1 then [Issue(key, minMessage)] else [])
      + (if NonNegativeNumber(v) then [] else [Issue(key, refineMessage)])
  }

  /** All issues of a record, field by field in the schema's order. The
      optional `description` accepts any string or its absence, and keys
      outside the schema are ignored. */
  function Issues(form: Form): seq<Issue> {
    NameIssues(form) + SkuIssues(form) + CategoryIssues(form) + CostIssues(form) + SellingPriceIssues(form)
  }

  /** Each field's rule as the schema declares it. */
  function NameIssues(form: Form): seq<Issue> {
    TextField(form, "name", 1, "Product name is required", Some(100), "Name is too long")
  }

  function SkuIssues(form: Form): seq<Issue> {
    TextField(form, "sku", 1, "SKU is required", Some(50), "SKU is too long")
  }

  function CategoryIssues(form: Form): seq<Issue> {
    TextField(form, "category", 1, "Category is required", None, "")
  }

  function CostIssues(form: Form): seq<Issue> {
    PriceField(form, "cost", "Cost price is required",
               "Cost must be a valid number greater than or equal to 0")
  }

  function SellingPriceIssues(form: Form): seq<Issue> {
    PriceField(form, "sellingPrice", "Selling price is required",
               "Selling price must be a valid number greater than or equal to 0")
  }

  /** The field rules, stated directly. */
  predicate Accepts(form: Form) {
    && "name" in form && 1 <= |form["name"]| <= 100
    && "sku" in form && 1 <= |form["sku"]| <= 50
    && "category" in form && |form["category"]| >= 1
    && "cost" in form && |form["cost"]| >= 1 && NonNegativeNumber(form["cost"])
    && "sellingPrice" in form && |form["sellingPrice"]| >= 1 && NonNegativeNumber(form["sellingPrice"])
  }

  const SchemaKeys: set<string> := {"name", "sku", "category", "cost", "sellingPrice"}

  /** A record parses exactly when it satisfies the field rules; every issue
      names one of the checked fields. */
  lemma IssuesMatchRules(form: Form)
    ensures Issues(form) == [] <==> Accepts(form)
    ensures forall i :: 0 <= i < |Issues(form)| ==> Issues(form)[i].path in SchemaKeys
  {
    var a := NameIssues(form);
    var b := SkuIssues(form);
    var c := CategoryIssues(form);
    var d := CostIssues(form);
    var e := SellingPriceIssues(form);
    assert Issues(form) == a + b + c + d + e;
    forall i | 0 <= i < |Issues(form)| ensures Issues(form)[i].path in SchemaKeys {
      var all := a + b + c + d + e;
      if i < |a| {
        assert all[i] == a[i];
      } else if i < |a| + |b| {
        assert all[i] == b[i - |a|];
      } else if i < |a| + |b| + |c| {
        assert all[i] == c[i - |a| - |b|];
      } else if i < |a| + |b| + |c| + |d| {
        assert all[i] == d[i - |a| - |b| - |c|];
      } else {
        assert all[i] == e[i - |a| - |b| - |c| - |d|];
      }
    }
  }

  /** A record without `sku` is always refused, with a "Required" issue
      at `sku`. */
  lemma MissingSkuRefused(form: Form)
    requires "sku" !in form
    ensures !Accepts(form) && Issues(form) != []
    ensures Issue("sku", "Required") in Issues(form)
  {
    var a := NameIssues(form);
    var b := SkuIssues(form);
    var c := CategoryIssues(form);
    var d := CostIssues(form);
    var e := SellingPriceIssues(form);
    assert (a + b)[|a|] == Issue("sku", "Required");
    assert (a + b + c + d + e)[|a|] == (a + b)[|a|];
  }

  /** Some prices as `Number` reads them: decimals are accepted, a minus
      sign on a non-zero amount and text are not, an empty price passes the
      refinement (it is refused by the length check instead). */
  lemma PriceExamples()
    ensures NumberOf("12.5") == Some(12.5)
    ensures NonNegativeNumber("12.5")
    ensures !NonNegativeNumber("-3")
    ensures NonNegativeNumber("-0")
    ensures !NonNegativeNumber("abc")
    ensures NonNegativeNumber("")
  {
    assert LeadingDigits("5") == "5";
    assert LeadingDigits(".5") == [];
    assert LeadingDigits("2.5") == "2";
    assert LeadingDigits("12.5") == "12";
    assert "12.5"[2..] == ".5" && ".5"[1..] == "5";
    assert Value("1") == 1;
    assert "12"[..1] == "1";
    assert Value("12") == 12;
    assert Value("5") == 5;
    assert Pow10(1) == 10;
    assert Magnitude("12.5") == Some(12.5);
    assert "-3"[1..] == "3";
    assert LeadingDigits("3") == "3";
    assert Value("3") == 3;
    assert Magnitude("3") == Some(3.0);
    assert "-0"[1..] == "0";
    assert LeadingDigits("0") == "0";
    assert Value("0") == 0;
    assert Magnitude("0") == Some(0.0);
    assert LeadingDigits("abc") == [];
    assert Magnitude("abc") == None;
  }
}
