/** How the pieces meet: the products page's requests as the product
    service applies them, and order creation priced against the product
    service's own store. */
module EndToEnd {
  import opened Wrappers
  import opened Catalog
  import opened Repository
  import opened ProductsPage
  import opened ProductServiceModel
  import opened OrderDomain

  /** The product client answering from the product service's store: the
      stored product, or `null` for an unknown id. */
  function CatalogOf(products: map<int, Product>): (catalog: int -> Lookup)
    ensures forall id :: id in products ==> catalog(id) == Found(products[id])
    ensures forall id :: id !in products ==> catalog(id) == NotFound
  {
    id => if id in products then Found(products[id]) else NotFound
  }

  /** Against the product service's store, an order is accepted exactly
      when every item names a stored product with at least the item's
      quantity in stock, and it then costs the stored prices. */
  lemma OrderAgainstStore(products: map<int, Product>, items: seq<OrderItem>)
    ensures Priced(items, CatalogOf(products)).Ok? <==>
              forall i :: 0 <= i < |items| ==>
                items[i].productId in products && products[items[i].productId].stockQuantity >= items[i].quantity
    ensures Priced(items, CatalogOf(products)).Ok? ==>
              Amount(Priced(items, CatalogOf(products)).value) == CatalogTotal(items, CatalogOf(products))
  {
    PricedOkIff(items, CatalogOf(products));
    if Priced(items, CatalogOf(products)).Ok? {
      PricedAmount(items, CatalogOf(products));
    }
  }

  /** Editing a product on the products page sends its stock along, but the
      product service keeps the stored stock: only the name, the
      description and the price change. */
  lemma EditedStockIsKept(stored: Product, editingId: Option<int>, form: ProductData)
    requires Editing(editingId)
    ensures SubmitRequest(editingId, form).UpdateProduct?
    ensures Updated(stored, SubmitRequest(editingId, form).body).stockQuantity == stored.stockQuantity
    ensures form.stockQuantity != stored.stockQuantity ==>
              Updated(stored, SubmitRequest(editingId, form).body).stockQuantity != form.stockQuantity
  {
  }

  /** Adding a product on the products page sends id 0, which no stored
      product has, so the product service stores it under the next
      identity value and never overwrites an existing product. */
  lemma CreatedFromPageGetsFreshId(products: map<int, Product>, nextId: int, editingId: Option<int>, form: ProductData)
    requires !Editing(editingId)
    requires forall k :: k in products ==> k >= 1
    ensures SubmitRequest(editingId, form).CreateProduct?
    ensures SaveId(products, nextId, SubmitRequest(editingId, form).body.id) == nextId
  {
    assert 0 !in products;
  }
}
