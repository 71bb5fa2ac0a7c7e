/** The products page's own state: the per-product quantity inputs, and the
    add/edit form with the product request it submits. */
module ProductsPage {
  import opened Wrappers
  import opened Catalog
  import opened Cart

  /** The empty form `openAdd` shows. */
  const EmptyForm := ProductData(None, "", "", 0, 0)

  /** The request `submitForm` sends to the product API. */
  datatype ProductRequest = UpdateProduct(id: int, body: ProductData) | CreateProduct(body: ProductData)

  /** `this.quantities()[id] || 1`: the chosen quantity, or 1 when none was
      chosen or the chosen one is 0. */
  function RequestedQuantity(quantities: map<int, int>, id: int): (q: int)
    ensures q != 0
    ensures id in quantities && quantities[id] != 0 ==> q == quantities[id]
    ensures id !in quantities || quantities[id] == 0 ==> q == 1
  {
    if id in quantities && quantities[id] != 0 then quantities[id] else 1
  }

  /** `if (this.editingId())`: an id that is present and not 0. */
  predicate Editing(editingId: Option<int>) {
    editingId.Some? && editingId.value != 0
  }

  /** The request `submitForm` sends: an update of the edited product with the
      form's data and that id, or a creation with id 0. */
  function SubmitRequest(editingId: Option<int>, data: ProductData): (req: ProductRequest)
    ensures Editing(editingId) <==> req.UpdateProduct?
    ensures req.UpdateProduct? ==> req.id == editingId.value && req.body == data.(id := Some(editingId.value))
    ensures req.CreateProduct? ==> req.body == data.(id := Some(0))
  {
    if Editing(editingId) then UpdateProduct(editingId.value, data.(id := Some(editingId.value)))
    else CreateProduct(data.(id := Some(0)))
  }

  class ProductsComponent {
    const cart: CartService
    var quantities: map<int, int>
    var showForm: bool
    var editingId: Option<int>
    var formData: ProductData

    constructor (cart: CartService)
      ensures this.cart == cart
      ensures quantities == map[] && !showForm && editingId == None && formData == EmptyForm
    {
      this.cart := cart;
      quantities := map[];
      showForm := false;
      editingId := None;
      formData := EmptyForm;
    }

    /** `updateQuantity(productId, qty)`: sets that one entry. */
    method UpdateQuantity(productId: int, qty: int)
      modifies this
      ensures quantities == old(quantities)[productId := qty]
      ensures showForm == old(showForm) && editingId == old(editingId) && formData == old(formData)
    {
      quantities := quantities[productId := qty];
    }

    /** `addToCart(product)`: hands the cart the requested quantity, then
        drops the product's entry so its input shows 1 again. */
    method AddToCart(product: Product)
      modifies this, cart
      ensures cart.items == Added(old(cart.items), product, RequestedQuantity(old(quantities), product.id))
      ensures quantities == old(quantities) - {product.id}
      ensures showForm == old(showForm) && editingId == old(editingId) && formData == old(formData)
    {
      var qty := RequestedQuantity(quantities, product.id);
      cart.AddToCart(product, qty);
      quantities := quantities - {product.id};
    }

    /** `openAdd()`: an empty form for a new product. */
    method OpenAdd()
      modifies this
      ensures editingId == None && formData == EmptyForm && showForm
      ensures quantities == old(quantities)
    {
      editingId := None;
      formData := EmptyForm;
      showForm := true;
    }

    /** `openEdit(product)`: the form filled with a copy of the product. */
    method OpenEdit(product: Product)
      modifies this
      ensures editingId == Some(product.id)
      ensures formData == ProductData(Some(product.id), product.name, product.description, product.price, product.stockQuantity)
      ensures showForm
      ensures quantities == old(quantities)
    {
      editingId := Some(product.id);
      formData := ProductData(Some(product.id), product.name, product.description, product.price, product.stockQuantity);
      showForm := true;
    }

    /** `cancelForm()`: hides the form and changes nothing else. */
    method CancelForm()
      modifies this
      ensures !showForm
      ensures quantities == old(quantities) && editingId == old(editingId) && formData == old(formData)
    {
      showForm := false;
    }

    /** `submitForm()`: sends the request; once the product API has accepted
        it (`saved`), the form is hidden. */
    method SubmitForm(saved: bool) returns (req: ProductRequest)
      modifies this
      ensures req == SubmitRequest(old(editingId), old(formData))
      ensures showForm == (old(showForm) && !saved)
      ensures quantities == old(quantities) && editingId == old(editingId) && formData == old(formData)
    {
      var data := formData;
      if editingId.Some? && editingId.value != 0 {
        req := UpdateProduct(editingId.value, data.(id := Some(editingId.value)));
      } else {
        req := CreateProduct(data.(id := Some(0)));
      }
      if saved {
        showForm := false;
      }
    }
  }
}
