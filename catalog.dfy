/** A product as the client and the services exchange it. Prices are in
    integer cents. */
module Catalog {
  import opened Wrappers

  /** A stored product: it always has its id. */
  datatype Product = Product(id: int, name: string, description: string, price: int, stockQuantity: int)

  /** A product as a request body carries it (the products page's form data,
      the body the product API receives): the id may be absent. */
  datatype ProductData = ProductData(id: Option<int>, name: string, description: string, price: int, stockQuantity: int)
}
