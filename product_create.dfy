/**
 * `POST /api/products`: validate the body, draw an unused SKU, compute the
 * next sequential id, insert the product as active.
 */
module ProductCreate {
  import opened Wrappers
  import opened Text
  import opened Utils
  import opened Envelopes
  import opened Catalog

  /** The request body; an absent key is `None`. */
  datatype CreateBody = CreateBody(
    name: Option<string>,
    category: Option<string>,
    description: Option<string>,
    notes: Option<string>,
    cost: Option<real>,
    sellingPrice: Option<real>,
    isDraft: Option<bool>)

  /** `!name || !category || cost === undefined || sellingPrice === undefined`. */
  predicate MissingField(b: CreateBody) {
    b.name.None? || b.name.value == "" || b.category.None? || b.category.value == ""
    || b.cost.None? || b.sellingPrice.None?
  }

  predicate NegativePrice(b: CreateBody)
    requires !MissingField(b)
  {
    b.cost.value < 0.0 || b.sellingPrice.value < 0.0
  }

  const FieldsError: FieldErrors := map["fields" := ["name, category, cost, sellingPrice"]]
  const PriceError: FieldErrors := map["price" := ["Cost and selling price must be positive numbers"]]

  /** The row inserted: active, not a draft unless the body says so. */
  function NewProduct(id: string, sku: string, b: CreateBody, now: int): Product
    requires !MissingField(b)
  {
    Product(id, sku, b.name.value, b.category.value, b.description, b.notes,
            b.cost.value, b.sellingPrice.value, Active, b.isDraft.GetOr(false), now)
  }

  /** Some attempt of the SKU generator produces a code not in use. */
  predicate SkuAvailable(category: string, attempts: seq<Attempt>, taken: set<string>) {
    exists j :: 0 <= j < |attempts| && Candidate(category, attempts[j]) !in taken
  }

  /** The handler. `last` is the id the store reported as greatest, if any.
      A missing field is reported before a negative price; a valid body gets
      a fresh SKU and the id after `last`; if that id is already taken the
      insert fails and the reply is "Failed to create product" with status
      500. Nothing is stored on any failure. */
  method Create(db: Store, body: CreateBody, attempts: seq<Attempt>)
    returns (reply: Reply<ProductData>, ghost last: Option<string>)
    requires db.Valid()
    requires !MissingField(body) ==> SkuAvailable(body.category.value, attempts, Skus(db.products))
    modifies db`products
    ensures db.Valid()
    ensures MissingField(body) ==>
              reply == SendValidationError(FieldsError, db.now) && db.products == old(db.products)
    ensures !MissingField(body) && NegativePrice(body) ==>
              reply == SendValidationError(PriceError, db.now) && db.products == old(db.products)
    ensures !MissingField(body) && !NegativePrice(body) ==>
              && (last.None? <==> old(db.products) == map[])
              && (last.Some? ==> IsLast(last.value, old(db.products).Keys))
              && var id := NextId(last);
                 if id in old(db.products) then
                   reply == SendError("Failed to create product", db.now, 500) && db.products == old(db.products)
                 else
                   && id in db.products
                   && db.products == old(db.products)[id := db.products[id]]
                   && db.products[id] == NewProduct(id, db.products[id].sku, body, db.now)
                   && db.products[id].sku !in Skus(old(db.products))
                   && (exists j :: 0 <= j < |attempts| && db.products[id].sku == Candidate(body.category.value, attempts[j]))
                   && reply == SendSuccess(Item(db.products[id]), db.now, "Product created successfully", 201)
  {
    last := None;
    if body.name.None? || body.name.value == "" || body.category.None? || body.category.value == ""
       || body.cost.None? || body.sellingPrice.None?
    {
      reply := SendValidationError(FieldsError, db.now);
      return;
    }
    if body.cost.value < 0.0 || body.sellingPrice.value < 0.0 {
      reply := SendValidationError(PriceError, db.now);
      return;
    }

    var sku, k := GenerateSku(body.category.value, attempts, Skus(db.products));

    var nextNumber := Finite(1);
    if db.products != map[] {
      assert db.products.Keys != {} by {
        var some :| some in db.products;
      }
      LastExists(db.products.Keys);
      var l :| l in db.products.Keys && IsLast(l, db.products.Keys);
      last := Some(l);
      nextNumber := Succ(ParseInt(SubstringFrom(l, 1)));
    }
    var id := GenerateId("P", nextNumber);

    if id in db.products {
      reply := SendError("Failed to create product", db.now, 500);
      return;
    }
    var product := NewProduct(id, sku, body, db.now);
    InsertKeepsUnique(db.products, product);
    assert product.sku == Candidate(body.category.value, attempts[k]);
    db.products := db.products[id := product];
    reply := SendSuccess(Item(product), db.now, "Product created successfully", 201);
  }

  /** On a table whose ids all have the intended shape below P999999, a
      valid body is always stored, under a well-formed id, and the table
      keeps that shape up to one number more. */
  method CreateInWellFormedTable(db: Store, body: CreateBody, attempts: seq<Attempt>)
    returns (reply: Reply<ProductData>)
    requires db.Valid()
    requires forall s :: s in db.products ==> WellFormedId(s) && Value(s[1..]) < 999999
    requires !MissingField(body) && !NegativePrice(body)
    requires SkuAvailable(body.category.value, attempts, Skus(db.products))
    modifies db`products
    ensures db.Valid()
    ensures reply.code == 201 && |db.products| == |old(db.products)| + 1
    ensures forall s :: s in db.products ==> WellFormedId(s)
  {
    ghost var last;
    reply, last := Create(db, body, attempts);
    NextIdFresh(old(db.products).Keys, last);
  }
}
