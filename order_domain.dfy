/** What the order service and the commande service share: the order and
    order-item entities, the pricing loop of order creation (every item
    re-priced from the product service, stock checked, total summed) and
    the enrichment of loaded orders with the current product details.
    Amounts are integer cents; the product service is reached through a
    `catalog` function standing for the Feign client. */
module OrderDomain {
  import opened Wrappers
  import opened Catalog

  /** An order line: `product` is a transient copy of the product, never
      stored (see `Persisted`). */
  datatype OrderItem = OrderItem(
    id: Option<int>, productId: int, quantity: int, price: Option<int>, product: Option<Product>)

  /** An order (the order service's `Order`, the commande service's
      `Commande`): the date is a timestamp, the status the enum constant's
      name, the owner's user id a username. */
  datatype Order = Order(
    id: Option<int>, orderDate: Option<int>, status: Option<string>, totalAmount: Option<int>,
    userId: Option<string>, orderItems: Option<seq<OrderItem>>)

  /** What `getProductById` on the product client gives: a product, `null`
      (the product service answers an empty body for an unknown id), or an
      exception (the service is down or refuses the call). */
  datatype Lookup = Found(product: Product) | NotFound | Failed

  /** The exceptions order creation raises. */
  datatype PricingError =
    | ProductNotFound(productId: int)
    | InsufficientStock(productName: string)
    | ClientFailure(productId: int)

  /** The product client's answer holds the product and enough stock for
      the item; equal stock is enough. */
  predicate Available(item: OrderItem, catalog: int -> Lookup) {
    catalog(item.productId).Found? && catalog(item.productId).product.stockQuantity >= item.quantity
  }

  /** One turn of the creation loop: the item priced from the catalogue, or
      the exception that turn raises. */
  function PriceItem(item: OrderItem, catalog: int -> Lookup): (r: Result<OrderItem, PricingError>)
    ensures r.Ok? <==> Available(item, catalog)
    ensures r.Ok? ==> r.value == item.(price := Some(catalog(item.productId).product.price),
                                       product := Some(catalog(item.productId).product))
    ensures catalog(item.productId).NotFound? ==> r == Err(ProductNotFound(item.productId))
    ensures catalog(item.productId).Failed? ==> r == Err(ClientFailure(item.productId))
    ensures catalog(item.productId).Found? && catalog(item.productId).product.stockQuantity < item.quantity ==>
              r == Err(InsufficientStock(catalog(item.productId).product.name))
  {
    match catalog(item.productId)
    case Failed => Err(ClientFailure(item.productId))
    case NotFound => Err(ProductNotFound(item.productId))
    case Found(p) =>
      if p.stockQuantity < item.quantity then Err(InsufficientStock(p.name))
      else Ok(item.(price := Some(p.price), product := Some(p)))
  }

  /** The creation loop over `items` in order: every item priced, or the
      exception of the first item that raises one. */
  function Priced(items: seq<OrderItem>, catalog: int -> Lookup): (r: Result<seq<OrderItem>, PricingError>)
    ensures r.Ok? ==> |r.value| == |items|
    ensures r.Ok? ==> forall i :: 0 <= i < |items| ==> r.value[i].productId == items[i].productId
    decreases |items|
  {
    if items == [] then Ok([])
    else
      match Priced(items[..|items| - 1], catalog)
      case Err(e) => Err(e)
      case Ok(front) =>
        match PriceItem(items[|items| - 1], catalog)
        case Err(e) => Err(e)
        case Ok(last) => Ok(front + [last])
  }

  /** Price times quantity, summed over the items (a missing price counts 0). */
  function Amount(items: seq<OrderItem>): int
    decreases |items|
  {
    if items == [] then 0
    else Amount(items[..|items| - 1]) + items[|items| - 1].price.GetOr(0) * items[|items| - 1].quantity
  }

  /** What the items cost at the catalogue's prices. */
  function CatalogTotal(items: seq<OrderItem>, catalog: int -> Lookup): int
    decreases |items|
  {
    if items == [] then 0
    else
      var last := items[|items| - 1];
      var price := if catalog(last.productId).Found? then catalog(last.productId).product.price else 0;
      CatalogTotal(items[..|items| - 1], catalog) + price * last.quantity
  }

  /** Creation succeeds exactly when every item's product is found with
      enough stock. */
  lemma {:induction false} PricedOkIff(items: seq<OrderItem>, catalog: int -> Lookup)
    ensures Priced(items, catalog).Ok? <==> forall i :: 0 <= i < |items| ==> Available(items[i], catalog)
    decreases |items|
  {
    if items != [] {
      var front := items[..|items| - 1];
      PricedOkIff(front, catalog);
      assert forall i :: 0 <= i < |front| ==> front[i] == items[i];
    }
  }

  /** On success every item keeps its position, id, product id and quantity,
      and carries the catalogue's price and product. */
  lemma {:induction false} PricedItems(items: seq<OrderItem>, catalog: int -> Lookup)
    requires Priced(items, catalog).Ok?
    ensures |Priced(items, catalog).value| == |items|
    ensures forall i :: 0 <= i < |items| ==>
              Available(items[i], catalog) &&
              Priced(items, catalog).value[i] ==
                items[i].(price := Some(catalog(items[i].productId).product.price),
                          product := Some(catalog(items[i].productId).product))
    decreases |items|
  {
    PricedOkIff(items, catalog);
    if items != [] {
      var front := items[..|items| - 1];
      PricedItems(front, catalog);
      assert forall i :: 0 <= i < |front| ==> front[i] == items[i];
    }
  }

  /** On success the summed amount is what the items cost at the
      catalogue's prices: the client's prices play no part. */
  lemma {:induction false} PricedAmount(items: seq<OrderItem>, catalog: int -> Lookup)
    requires Priced(items, catalog).Ok?
    ensures Amount(Priced(items, catalog).value) == CatalogTotal(items, catalog)
    decreases |items|
  {
    if items != [] {
      var front := items[..|items| - 1];
      PricedAmount(front, catalog);
      var ps := Priced(items, catalog).value;
      assert ps[..|ps| - 1] == Priced(front, catalog).value;
    }
  }

  /** On failure the exception is the one of the first item that is not
      available: every item before it is. */
  lemma {:induction false} PricedFirstFailure(items: seq<OrderItem>, catalog: int -> Lookup)
    requires Priced(items, catalog).Err?
    ensures exists i :: FirstUnavailable(items, catalog, i) &&
                        Priced(items, catalog).error == PriceItem(items[i], catalog).error
    decreases |items|
  {
    var front := items[..|items| - 1];
    assert forall i :: 0 <= i < |front| ==> front[i] == items[i];
    if Priced(front, catalog).Err? {
      PricedFirstFailure(front, catalog);
      var i :| FirstUnavailable(front, catalog, i) && Priced(front, catalog).error == PriceItem(front[i], catalog).error;
      assert FirstUnavailable(items, catalog, i);
    } else {
      PricedOkIff(front, catalog);
      assert FirstUnavailable(items, catalog, |items| - 1);
    }
  }

  /** Item `i` is the first one that is not available. */
  predicate FirstUnavailable(items: seq<OrderItem>, catalog: int -> Lookup, i: int) {
    && 0 <= i < |items|
    && !Available(items[i], catalog)
    && (forall j :: 0 <= j < i ==> Available(items[j], catalog))
  }

  /** Once a prefix of the items has failed, the whole list fails the
      same way: the loop stops at the first exception. */
  lemma {:induction false} PricedFailureStops(items: seq<OrderItem>, n: nat, catalog: int -> Lookup)
    requires n <= |items| && Priced(items[..n], catalog).Err?
    ensures Priced(items, catalog) == Priced(items[..n], catalog)
    decreases |items|
  {
    if n < |items| {
      var front := items[..|items| - 1];
      assert front[..n] == items[..n];
      PricedFailureStops(front, n, catalog);
    } else {
      assert items[..n] == items;
    }
  }

  /** The loop of `createOrder` / `createCommande` over the order's items:
      each item's product is fetched, a missing product, too little stock or
      a failed call raises, otherwise the item takes the catalogue's price
      and product and price times quantity is added to the total. */
  method PriceItems(items: seq<OrderItem>, catalog: int -> Lookup)
    returns (r: Result<(seq<OrderItem>, int), PricingError>)
    ensures r.Ok? <==> Priced(items, catalog).Ok?
    ensures r.Ok? ==> r.value.0 == Priced(items, catalog).value && r.value.1 == Amount(r.value.0)
    ensures r.Err? ==> r.error == Priced(items, catalog).error
  {
    var priced: seq<OrderItem> := [];
    var total := 0;
    var i := 0;
    while i < |items|
      invariant 0 <= i <= |items|
      invariant Priced(items[..i], catalog) == Ok(priced)
      invariant total == Amount(priced)
    {
      var item := items[i];
      match catalog(item.productId) {
        case Failed =>
          PricedFailsAt(items, i, catalog);
          return Err(ClientFailure(item.productId));
        case NotFound =>
          PricedFailsAt(items, i, catalog);
          return Err(ProductNotFound(item.productId));
        case Found(product) =>
          if product.stockQuantity < item.quantity {
            PricedFailsAt(items, i, catalog);
            return Err(InsufficientStock(product.name));
          }
          var updated := item.(price := Some(product.price), product := Some(product));
          PricedExtends(items, i, catalog);
          assert (priced + [updated])[..|priced|] == priced;
          total := total + product.price * item.quantity;
          priced := priced + [updated];
      }
      i := i + 1;
    }
    assert items[..i] == items;
    r := Ok((priced, total));
  }

  /** A loop turn that prices item `i` extends the priced prefix by it. */
  lemma PricedExtends(items: seq<OrderItem>, i: int, catalog: int -> Lookup)
    requires 0 <= i < |items| && Priced(items[..i], catalog).Ok? && PriceItem(items[i], catalog).Ok?
    ensures Priced(items[..i + 1], catalog) == Ok(Priced(items[..i], catalog).value + [PriceItem(items[i], catalog).value])
  {
    assert items[..i + 1][..i] == items[..i];
  }

  /** A loop turn whose item raises ends the whole loop with that exception. */
  lemma PricedFailsAt(items: seq<OrderItem>, i: int, catalog: int -> Lookup)
    requires 0 <= i < |items| && Priced(items[..i], catalog).Ok? && PriceItem(items[i], catalog).Err?
    ensures Priced(items, catalog) == Err(PriceItem(items[i], catalog).error)
  {
    assert items[..i + 1][..i] == items[..i];
    PricedFailureStops(items, i + 1, catalog);
  }

  /** The order creation saves, before its id is assigned: the date set to
      `now` when missing, the items priced and the total their amount (0
      without items), or the exception of the first item that raises. */
  function Placed(order: Order, now: int, catalog: int -> Lookup): (r: Result<Order, PricingError>)
    ensures r.Ok? <==> order.orderItems.None? || Priced(order.orderItems.value, catalog).Ok?
    ensures r.Ok? ==> r.value.id == order.id && r.value.status == order.status && r.value.userId == order.userId
    ensures r.Ok? ==> r.value.orderDate == (if order.orderDate.None? then Some(now) else order.orderDate)
    ensures r.Ok? && order.orderItems.None? ==> r.value.orderItems.None? && r.value.totalAmount == Some(0)
    ensures r.Ok? && order.orderItems.Some? ==>
              r.value.orderItems == Some(Priced(order.orderItems.value, catalog).value) &&
              r.value.totalAmount == Some(Amount(r.value.orderItems.value))
  {
    var dated := if order.orderDate.None? then order.(orderDate := Some(now)) else order;
    match order.orderItems
    case None => Ok(dated.(totalAmount := Some(0)))
    case Some(items) =>
      match Priced(items, catalog)
      case Err(e) => Err(e)
      case Ok(priced) => Ok(dated.(orderItems := Some(priced), totalAmount := Some(Amount(priced))))
  }

  /** No item of the order carries a product copy: the order as it is
      loaded back from the database. */
  predicate Unloaded(order: Order) {
    order.orderItems.Some? ==>
      forall i :: 0 <= i < |order.orderItems.value| ==> order.orderItems.value[i].product.None?
  }

  /** What the database keeps of an order: everything but the `@Transient`
      product copy of each item, which reads back as `null`. */
  function Persisted(order: Order): (r: Order)
    ensures Unloaded(r)
    ensures r.(orderItems := order.orderItems) == order
    ensures order.orderItems.None? <==> r.orderItems.None?
    ensures order.orderItems.Some? ==>
              && |r.orderItems.value| == |order.orderItems.value|
              && forall i :: 0 <= i < |order.orderItems.value| ==>
                   r.orderItems.value[i].(product := order.orderItems.value[i].product) == order.orderItems.value[i]
    ensures Unloaded(order) ==> r == order
  {
    match order.orderItems
    case None => order
    case Some(items) =>
      var kept := seq(|items|, i requires 0 <= i < |items| => items[i].(product := None));
      assert Unloaded(order) ==> kept == items;
      order.(orderItems := Some(kept))
  }

  /** Storing an order keeps the amount of its items: only the product
      copies are dropped. */
  lemma {:induction false} PersistedKeepsAmount(items: seq<OrderItem>)
    ensures Amount(Persisted(Order(None, None, None, None, None, Some(items))).orderItems.value) == Amount(items)
    decreases |items|
  {
    if items != [] {
      var front := items[..|items| - 1];
      PersistedKeepsAmount(front);
      var all := Persisted(Order(None, None, None, None, None, Some(items))).orderItems.value;
      assert all[..|items| - 1] == Persisted(Order(None, None, None, None, None, Some(front))).orderItems.value;
    }
  }

  /** Without items the saved total is 0, and with items it is what they cost
      at the catalogue's prices. */
  lemma PlacedTotalIsCatalogTotal(order: Order, now: int, catalog: int -> Lookup)
    requires Placed(order, now, catalog).Ok?
    ensures Placed(order, now, catalog).value.totalAmount == Some(CatalogTotal(order.orderItems.GetOr([]), catalog))
  {
    if order.orderItems.Some? {
      PricedAmount(order.orderItems.value, catalog);
    }
  }

  /** The enrichment of one item: the product found replaces the item's
      transient product, `null` clears it, and an exception is ignored. */
  function EnrichItem(item: OrderItem, lookup: Lookup): (r: OrderItem)
    ensures r.id == item.id && r.productId == item.productId && r.quantity == item.quantity && r.price == item.price
    ensures lookup.Found? ==> r.product == Some(lookup.product)
    ensures lookup.NotFound? ==> r.product.None?
    ensures lookup.Failed? ==> r == item
  {
    match lookup
    case Found(p) => item.(product := Some(p))
    case NotFound => item.(product := None)
    case Failed => item
  }

  /** Every item enriched from the catalogue. */
  function Enriched(items: seq<OrderItem>, catalog: int -> Lookup): (r: seq<OrderItem>)
    ensures |r| == |items|
    ensures forall i :: 0 <= i < |items| ==> r[i] == EnrichItem(items[i], catalog(items[i].productId))
  {
    seq(|items|, i requires 0 <= i < |items| => EnrichItem(items[i], catalog(items[i].productId)))
  }

  /** An order with its items enriched; an order without items is returned
      as it is. */
  function EnrichOrder(order: Order, catalog: int -> Lookup): (r: Order)
    ensures r.(orderItems := order.orderItems) == order
    ensures order.orderItems.None? ==> r == order
    ensures order.orderItems.Some? ==> r.orderItems == Some(Enriched(order.orderItems.value, catalog))
  {
    if order.orderItems.None? then order
    else order.(orderItems := Some(Enriched(order.orderItems.value, catalog)))
  }

  /** A stored order read back: an item carries a product exactly when the
      product client found one, so a failed call leaves it without. */
  lemma ReloadedProducts(order: Order, catalog: int -> Lookup)
    requires Unloaded(order) && order.orderItems.Some?
    ensures var items := order.orderItems.value;
            forall i :: 0 <= i < |items| ==>
              (EnrichOrder(order, catalog).orderItems.value[i].product.Some? <==> catalog(items[i].productId).Found?)
  {
  }

  /** The enrichment loop (`forEach` over the items): each item's product
      fetched and set, a failed call skipped. */
  method EnrichProducts(items: seq<OrderItem>, catalog: int -> Lookup) returns (r: seq<OrderItem>)
    ensures r == Enriched(items, catalog)
  {
    r := items;
    var i := 0;
    while i < |items|
      invariant 0 <= i <= |items| && |r| == |items|
      invariant forall j :: 0 <= j < i ==> r[j] == EnrichItem(items[j], catalog(items[j].productId))
      invariant forall j :: i <= j < |items| ==> r[j] == items[j]
    {
      var item := r[i];
      match catalog(item.productId) {
        case Found(product) => r := r[i := item.(product := Some(product))];
        case NotFound => r := r[i := item.(product := None)];
        case Failed =>
      }
      i := i + 1;
    }
  }

  /** Enrichment changes no price or quantity, so the amount of the items
      stays what it was. */
  lemma {:induction false} EnrichKeepsAmount(items: seq<OrderItem>, catalog: int -> Lookup)
    ensures Amount(Enriched(items, catalog)) == Amount(items)
    decreases |items|
  {
    if items != [] {
      var front := items[..|items| - 1];
      EnrichKeepsAmount(front, catalog);
      assert Enriched(items, catalog)[..|items| - 1] == Enriched(front, catalog);
    }
  }

  /** Enriching an order twice against the same catalogue is enriching it
      once. */
  lemma EnrichIdempotent(order: Order, catalog: int -> Lookup)
    ensures EnrichOrder(EnrichOrder(order, catalog), catalog) == EnrichOrder(order, catalog)
  {
    if order.orderItems.Some? {
      var once := Enriched(order.orderItems.value, catalog);
      assert Enriched(once, catalog) == once;
    }
  }
}
