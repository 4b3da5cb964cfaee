/**
 * `PUT /api/products/:id`: an existence check, a price check on the prices
 * the body supplies, then a partial update that overwrites exactly the
 * fields present in the body.
 */
module ProductUpdate {
  import opened Wrappers
  import opened Envelopes
  import opened Catalog

  /** The request body; an absent key is `None`. It has no `id`, `sku` or
      `createdAt`, so an update cannot change them. The status arrives as
      the string the client sent. */
  datatype UpdateBody = UpdateBody(
    name: Option<string>,
    category: Option<string>,
    description: Option<string>,
    notes: Option<string>,
    cost: Option<real>,
    sellingPrice: Option<real>,
    status: Option<string>,
    isDraft: Option<bool>)

  const NoChanges := UpdateBody(None, None, None, None, None, None, None, None)

  /** A supplied price is negative. */
  predicate NegativePrice(b: UpdateBody) {
    (b.cost.Some? && b.cost.value < 0.0) || (b.sellingPrice.Some? && b.sellingPrice.value < 0.0)
  }

  /** The store rejects a status outside the enum. */
  predicate UnknownStatus(b: UpdateBody) {
    b.status.Some? && ParseStatus(b.status.value).None?
  }

  function Pick<T>(given: Option<T>, current: T): T {
    if given.Some? then given.value else current
  }

  /** `product.update({ data })`: each field the body supplies replaces the
      stored one; the others are kept. */
  function Merged(p: Product, b: UpdateBody): (r: Product)
    requires !UnknownStatus(b)
    ensures r.id == p.id && r.sku == p.sku && r.createdAt == p.createdAt
    ensures b.name.Some? ==> r.name == b.name.value
    ensures b.name.None? ==> r.name == p.name
    ensures b.category.Some? ==> r.category == b.category.value
    ensures b.category.None? ==> r.category == p.category
    ensures b.description.Some? ==> r.description == b.description
    ensures b.description.None? ==> r.description == p.description
    ensures b.notes.Some? ==> r.notes == b.notes
    ensures b.notes.None? ==> r.notes == p.notes
    ensures b.cost.Some? ==> r.cost == b.cost.value
    ensures b.cost.None? ==> r.cost == p.cost
    ensures b.sellingPrice.Some? ==> r.sellingPrice == b.sellingPrice.value
    ensures b.sellingPrice.None? ==> r.sellingPrice == p.sellingPrice
    ensures b.status.Some? ==> StatusValue(r.status) == b.status.value
    ensures b.status.None? ==> r.status == p.status
    ensures b.isDraft.Some? ==> r.isDraft == b.isDraft.value
    ensures b.isDraft.None? ==> r.isDraft == p.isDraft
  {
    Product(p.id, p.sku,
            Pick(b.name, p.name),
            Pick(b.category, p.category),
            if b.description.Some? then b.description else p.description,
            if b.notes.Some? then b.notes else p.notes,
            Pick(b.cost, p.cost),
            Pick(b.sellingPrice, p.sellingPrice),
            if b.status.Some? then ParseStatus(b.status.value).value else p.status,
            Pick(b.isDraft, p.isDraft),
            p.createdAt)
  }

  /** An empty body changes nothing. */
  lemma MergeNothing(p: Product)
    ensures Merged(p, NoChanges) == p
  {
  }

  /** Applying the same update twice is applying it once. */
  lemma MergeIdempotent(p: Product, b: UpdateBody)
    requires !UnknownStatus(b)
    ensures Merged(Merged(p, b), b) == Merged(p, b)
  {
  }

  /** Two updates in a row act as one update with the later body's fields
      winning. */
  function Then(first: UpdateBody, second: UpdateBody): UpdateBody {
    UpdateBody(
      if second.name.Some? then second.name else first.name,
      if second.category.Some? then second.category else first.category,
      if second.description.Some? then second.description else first.description,
      if second.notes.Some? then second.notes else first.notes,
      if second.cost.Some? then second.cost else first.cost,
      if second.sellingPrice.Some? then second.sellingPrice else first.sellingPrice,
      if second.status.Some? then second.status else first.status,
      if second.isDraft.Some? then second.isDraft else first.isDraft)
  }

  lemma MergeCompose(p: Product, first: UpdateBody, second: UpdateBody)
    requires !UnknownStatus(first) && !UnknownStatus(second)
    ensures !UnknownStatus(Then(first, second))
    ensures Merged(Merged(p, first), second) == Merged(p, Then(first, second))
  {
  }

  /** The handler. An unknown id is 404 before the prices are looked at; a
      negative supplied price is 422; a status outside the enum makes the
      store's update throw, which is reported as a 500. Only a successful
      update changes the table, and only the one row. */
  method Update(db: Store, id: string, body: UpdateBody) returns (reply: Reply<ProductData>)
    requires db.Valid()
    modifies db`products
    ensures db.Valid()
    ensures id !in old(db.products) ==>
              reply == SendNotFound(db.now, "Product not found") && db.products == old(db.products)
    ensures id in old(db.products) && NegativePrice(body) ==>
              reply == SendValidationError(map["price" := ["Cost and selling price must be positive numbers"]], db.now)
              && db.products == old(db.products)
    ensures id in old(db.products) && !NegativePrice(body) && UnknownStatus(body) ==>
              reply == SendError("Failed to update product", db.now, 500) && db.products == old(db.products)
    ensures id in old(db.products) && !NegativePrice(body) && !UnknownStatus(body) ==>
              && db.products == old(db.products)[id := Merged(old(db.products)[id], body)]
              && reply == SendSuccess(Item(Merged(old(db.products)[id], body)), db.now, "Product updated successfully")
  {
    if id !in db.products {
      reply := SendNotFound(db.now, "Product not found");
      return;
    }
    if (body.cost.Some? && body.cost.value < 0.0) || (body.sellingPrice.Some? && body.sellingPrice.value < 0.0) {
      reply := SendValidationError(map["price" := ["Cost and selling price must be positive numbers"]], db.now);
      return;
    }
    if body.status.Some? && ParseStatus(body.status.value).None? {
      reply := SendError("Failed to update product", db.now, 500);
      return;
    }
    var product := Merged(db.products[id], body);
    db.products := db.products[id := product];
    reply := SendSuccess(Item(product), db.now, "Product updated successfully");
  }
}
