/**
 * `DELETE /api/products/:id`: an existence check, then a hard delete.
 */
module ProductDelete {
  import opened Envelopes
  import opened Catalog

  /** The handler: an unknown id is 404 and changes nothing; a known one is
      removed for good, the other rows untouched, and the reply carries
      empty data. */
  method Delete(db: Store, id: string) returns (reply: Reply<ProductData>)
    requires db.Valid()
    modifies db`products
    ensures db.Valid()
    ensures id !in old(db.products) ==>
              reply == SendNotFound(db.now, "Product not found") && db.products == old(db.products)
    ensures id in old(db.products) ==>
              && db.products == old(db.products) - {id}
              && reply == SendSuccess(NoData, db.now, "Product deleted successfully")
  {
    if id !in db.products {
      reply := SendNotFound(db.now, "Product not found");
      return;
    }
    db.products := db.products - {id};
    reply := SendSuccess(NoData, db.now, "Product deleted successfully");
  }

  /** Deleting is not idempotent: the second delete of an id is a 404. */
  method DeleteTwice(db: Store, id: string) returns (first: Reply<ProductData>, second: Reply<ProductData>)
    requires db.Valid() && id in db.products
    modifies db`products
    ensures db.Valid() && db.products == old(db.products) - {id}
    ensures first.code == 200 && second.code == 404
  {
    first := Delete(db, id);
    second := Delete(db, id);
  }
}
