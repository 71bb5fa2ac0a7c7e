/** The order service: orders kept by id, created for the calling user with
    server-side prices, read back only by their owner or an administrator,
    with their status and total updatable. The repository is a map from id
    to order plus the next identity value. */
module OrderServiceModel {
  import opened Wrappers
  import opened Principal
  import opened Repository
  import opened OrderDomain

  /** The exceptions reading one order raises: `AccessDeniedException` for
      a caller who neither owns the order nor is an administrator, and the
      `NullPointerException` of comparing a missing owner. */
  datatype AccessError = AccessDenied | MissingOwner

  /** Who may see an order: an administrator, or the user the order
      belongs to. */
  predicate CanView(auth: Option<Authentication>, order: Order) {
    IsAdmin(auth) || order.userId == Some(UserId(auth))
  }

  class OrderService {
    var orders: map<int, Order>
    var nextId: int

    /** Every order is stored under its own id, below the next identity
        value, and its items carry no product copy. */
    ghost predicate Valid()
      reads this
    {
      && nextId >= 1
      && forall k :: k in orders ==> orders[k].id == Some(k) && 1 <= k < nextId && Unloaded(orders[k])
    }

    /** Every stored order has an owner. */
    ghost predicate Owned()
      reads this
    {
      forall k :: k in orders ==> orders[k].userId.Some?
    }

    constructor ()
      ensures orders == map[] && nextId == 1
      ensures Valid() && Owned()
    {
      orders := map[];
      nextId := 1;
    }

    /** `getOrderById`: nothing for an unknown id; the order with its
        products enriched when the caller may see it; an access error
        otherwise. The store is not changed (the product copy is
        transient, see `ReloadedProducts`). */
    method GetOrderById(id: int, auth: Option<Authentication>, catalog: int -> Lookup)
      returns (r: Result<Option<Order>, AccessError>)
      ensures id !in orders ==> r == Ok(None)
      ensures id in orders && CanView(auth, orders[id]) ==> r == Ok(Some(EnrichOrder(orders[id], catalog)))
      ensures id in orders && !CanView(auth, orders[id]) ==>
                r == Err(if orders[id].userId.None? then MissingOwner else AccessDenied)
      ensures Owned() ==> r != Err(MissingOwner)
    {
      if id !in orders {
        return Ok(None);
      }
      var order := orders[id];
      if !IsAdmin(auth) {
        if order.userId.None? {
          return Err(MissingOwner);
        }
        if order.userId.value != UserId(auth) {
          return Err(AccessDenied);
        }
      }
      if order.orderItems.Some? {
        var items := EnrichProducts(order.orderItems.value, catalog);
        order := order.(orderItems := Some(items));
      }
      r := Ok(Some(order));
    }

    /** `createOrder`: the order is dated when it has no date, always given
        the caller's user id, priced from the catalogue and saved without
        its items' product copies; the answer keeps them. An exception
        while pricing leaves the store as it was. */
    method CreateOrder(order: Order, auth: Option<Authentication>, now: int, catalog: int -> Lookup)
      returns (r: Result<Order, PricingError>)
      requires Valid()
      modifies this
      ensures Valid()
      ensures old(Owned()) ==> Owned()
      ensures r.Err? <==> Placed(order.(userId := Some(UserId(auth))), now, catalog).Err?
      ensures r.Err? ==> r.error == Placed(order.(userId := Some(UserId(auth))), now, catalog).error &&
                         orders == old(orders) && nextId == old(nextId)
      ensures r.Ok? ==>
                var k := SaveId(old(orders), old(nextId), order.id);
                && r.value == Placed(order.(userId := Some(UserId(auth))), now, catalog).value.(id := Some(k))
                && orders == old(orders)[k := Persisted(r.value)]
                && nextId == (if k == old(nextId) then old(nextId) + 1 else old(nextId))
      ensures r.Ok? ==> r.value.userId == Some(UserId(auth))
    {
      var placed := order;
      if placed.orderDate.None? {
        placed := placed.(orderDate := Some(now));
      }
      placed := placed.(userId := Some(UserId(auth)));
      var total := 0;
      if placed.orderItems.Some? {
        var priced := PriceItems(placed.orderItems.value, catalog);
        if priced.Err? {
          return Err(priced.error);
        }
        placed := placed.(orderItems := Some(priced.value.0));
        total := priced.value.1;
      }
      placed := placed.(totalAmount := Some(total));
      var k := SaveId(orders, nextId, placed.id);
      placed := placed.(id := Some(k));
      orders := orders[k := Persisted(placed)];
      if k == nextId {
        nextId := nextId + 1;
      }
      r := Ok(placed);
    }

    /** `updateOrder`: only the status and the total of a stored order
        change, to the given ones; an unknown id changes nothing. */
    method UpdateOrder(id: int, details: Order) returns (r: Option<Order>)
      requires Valid()
      modifies this
      ensures Valid()
      ensures old(Owned()) ==> Owned()
      ensures id !in old(orders) ==> r.None? && orders == old(orders)
      ensures id in old(orders) ==>
                && r == Some(old(orders)[id].(status := details.status, totalAmount := details.totalAmount))
                && orders == old(orders)[id := r.value]
      ensures nextId == old(nextId)
    {
      if id in orders {
        var order := orders[id].(status := details.status, totalAmount := details.totalAmount);
        orders := orders[id := order];
        return Some(order);
      }
      r := None;
    }

    /** `deleteOrderById`: removes the order if there is one. */
    method DeleteOrderById(id: int)
      requires Valid()
      modifies this
      ensures Valid()
      ensures old(Owned()) ==> Owned()
      ensures orders == old(orders) - {id} && nextId == old(nextId)
    {
      orders := orders - {id};
    }

    /** `getAllOrders`: every order for an administrator, otherwise the
        caller's own orders (`findByUserId`), each with its products
        enriched. */
    method GetAllOrders(auth: Option<Authentication>, catalog: int -> Lookup) returns (r: set<Order>)
      ensures forall o :: o in r <==> exists k :: k in orders && CanView(auth, orders[k]) && o == EnrichOrder(orders[k], catalog)
      ensures !IsAdmin(auth) ==> forall o :: o in r ==> o.userId == Some(UserId(auth))
    {
      r := set k | k in orders && CanView(auth, orders[k]) :: EnrichOrder(orders[k], catalog);
    }
  }
}
