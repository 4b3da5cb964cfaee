/**
 * `GET /api/products/:id`: the stored product, or 404.
 */
module ProductGet {
  import opened Wrappers
  import opened Envelopes
  import opened Catalog

  /** The handler's reply for `id` against the table. */
  function Get(products: map<string, Product>, id: string, now: int): (r: Reply<ProductData>)
    ensures r.code == 200 <==> id in products
    ensures id in products ==> r.body.data == Some(Item(products[id]))
                               && r.body.message == "Product retrieved successfully"
    ensures id !in products ==> r == SendNotFound(now, "Product not found")
  {
    if id !in products then SendNotFound(now, "Product not found")
    else SendSuccess(Item(products[id]), now, "Product retrieved successfully")
  }
}
