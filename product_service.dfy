/** The product service: products kept by id, created, read, renamed and
    re-priced, and deleted. The repository is a map from id to product plus
    the next identity value. */
module ProductServiceModel {
  import opened Wrappers
  import opened Catalog
  import opened Repository

  /** What `updateProduct` makes of a stored product: the name, the
      description and the price come from the details, while the id and the
      stock stay those of the stored product. */
  function Updated(stored: Product, details: ProductData): (p: Product)
    ensures p.id == stored.id && p.stockQuantity == stored.stockQuantity
    ensures p.name == details.name && p.description == details.description && p.price == details.price
  {
    stored.(name := details.name, description := details.description, price := details.price)
  }

  /** The product a request body becomes once stored under `k`. */
  function Stored(body: ProductData, k: int): (p: Product)
    ensures p.id == k
    ensures p.name == body.name && p.description == body.description
    ensures p.price == body.price && p.stockQuantity == body.stockQuantity
  {
    Product(k, body.name, body.description, body.price, body.stockQuantity)
  }

  class ProductService {
    var products: map<int, Product>
    var nextId: int

    /** Every product is stored under its own id, below the next identity
        value. */
    ghost predicate Valid()
      reads this
    {
      && nextId >= 1
      && forall k :: k in products ==> products[k].id == k && 1 <= k < nextId
    }

    constructor ()
      ensures products == map[] && nextId == 1 && Valid()
    {
      products := map[];
      nextId := 1;
    }

    /** `getProductById`: the stored product, or nothing for an unknown id. */
    function GetProductById(id: int): (r: Option<Product>)
      reads this
      requires Valid()
      ensures r.Some? <==> id in products
      ensures r.Some? ==> r.value == products[id] && r.value.id == id
    {
      if id in products then Some(products[id]) else None
    }

    /** `createProduct`: a body whose id is stored replaces that product,
        any other body is stored under the next identity value. */
    method CreateProduct(body: ProductData) returns (saved: Product)
      requires Valid()
      modifies this
      ensures Valid()
      ensures saved == Stored(body, SaveId(old(products), old(nextId), body.id))
      ensures products == old(products)[saved.id := saved]
      ensures saved.id in old(products) <==> body.id.Some? && body.id.value in old(products)
      ensures saved.id !in old(products) ==> saved.id == old(nextId)
      ensures nextId == (if saved.id == old(nextId) then old(nextId) + 1 else old(nextId))
    {
      var k := SaveId(products, nextId, body.id);
      saved := Stored(body, k);
      products := products[k := saved];
      if k == nextId {
        nextId := nextId + 1;
      }
    }

    /** `updateProduct`: the stored product takes the details' name,
        description and price; an unknown id changes nothing. */
    method UpdateProduct(id: int, details: ProductData) returns (r: Option<Product>)
      requires Valid()
      modifies this
      ensures Valid()
      ensures id !in old(products) ==> r.None? && products == old(products)
      ensures id in old(products) ==> r == Some(Updated(old(products)[id], details)) && products == old(products)[id := r.value]
      ensures nextId == old(nextId)
    {
      if id in products {
        var product := products[id].(name := details.name, description := details.description, price := details.price);
        products := products[id := product];
        return Some(product);
      }
      r := None;
    }

    /** `deleteProductById`: removes the product if there is one. */
    method DeleteProductById(id: int)
      requires Valid()
      modifies this
      ensures Valid()
      ensures products == old(products) - {id} && nextId == old(nextId)
    {
      products := products - {id};
    }

    /** `getAllProducts`: every stored product. */
    function GetAllProducts(): (r: set<Product>)
      reads this
      requires Valid()
      ensures forall p :: p in r <==> p.id in products && products[p.id] == p
    {
      set k | k in products :: products[k]
    }
  }
}
