/** The orders page's helpers: the displayed order total with its fallbacks,
    the status badge class, and the copy `updateStatus` sends. */
module OrdersPage {
  import opened Wrappers
  import opened Catalog
  import opened Text

  /** An order item as the client receives it. */
  datatype OrderItemView = OrderItemView(
    id: int, productId: int, quantity: int,
    price: Option<int>, unitPrice: Option<int>, product: Option<Product>)

  /** An order as the client receives it; the items may be missing. */
  datatype OrderView = OrderView(
    id: Option<int>, orderDate: Option<string>, status: Option<string>,
    totalAmount: Option<int>, orderItems: Option<seq<OrderItemView>>)

  /** JavaScript truthiness of an optional number: present and not 0. */
  predicate Given(n: Option<int>) {
    n.Some? && n.value != 0
  }

  /** `item.price || item.unitPrice || item.product?.price || 0`: the first of
      the three prices that is given, else 0. */
  function UnitPrice(item: OrderItemView): (p: int)
    ensures Given(item.price) ==> p == item.price.value
    ensures !Given(item.price) && Given(item.unitPrice) ==> p == item.unitPrice.value
    ensures !Given(item.price) && !Given(item.unitPrice) && item.product.Some? ==> p == item.product.value.price
    ensures !Given(item.price) && !Given(item.unitPrice) && item.product.None? ==> p == 0
  {
    if Given(item.price) then item.price.value
    else if Given(item.unitPrice) then item.unitPrice.value
    else if item.product.Some? && item.product.value.price != 0 then item.product.value.price
    else 0
  }

  /** The `reduce` of `calculateTotal`: unit price times quantity, summed. */
  function ItemsTotal(items: seq<OrderItemView>): int {
    if items == [] then 0 else UnitPrice(items[0]) * items[0].quantity + ItemsTotal(items[1..])
  }

  /** `calculateTotal(order)`: the order's own total when it is present and
      positive, otherwise the sum over its items (none when they are missing). */
  function CalculateTotal(order: OrderView): (t: int)
    ensures order.totalAmount.Some? && order.totalAmount.value > 0 ==> t == order.totalAmount.value
    ensures !(order.totalAmount.Some? && order.totalAmount.value > 0) ==>
              t == ItemsTotal(order.orderItems.GetOr([]))
    ensures !(order.totalAmount.Some? && order.totalAmount.value > 0) && order.orderItems.None? ==> t == 0
  {
    if order.totalAmount.Some? && order.totalAmount.value > 0 then order.totalAmount.value
    else ItemsTotal(order.orderItems.GetOr([]))
  }

  /** When every item carries its price, the fallback total is the sum of
      price times quantity, whatever the other two prices say. */
  lemma {:induction false} ItemsTotalFromPrices(items: seq<OrderItemView>)
    requires forall i :: 0 <= i < |items| ==> Given(items[i].price)
    ensures ItemsTotal(items) == PricedTotal(items)
  {
    if items != [] {
      ItemsTotalFromPrices(items[1..]);
    }
  }

  /** Sum of the items' own `price` times quantity. */
  function PricedTotal(items: seq<OrderItemView>): int
    requires forall i :: 0 <= i < |items| ==> Given(items[i].price)
  {
    if items == [] then 0
    else
      assert Given(items[0].price);
      items[0].price.value * items[0].quantity + PricedTotal(items[1..])
  }

  /** `getStatusClass(status)`: the status upper-cased, or PENDING when it is
      missing or empty. */
  function StatusClass(status: Option<string>): (c: string)
    ensures c != ""
    ensures status.Some? && status.value != "" ==> c == Upper(status.value)
    ensures status.None? || status.value == "" ==> c == "PENDING"
  {
    if status.Some? && status.value != "" then Upper(status.value) else "PENDING"
  }

  /** A status class is its own class: an upper-case status, `PENDING`
      included, is displayed as it is. */
  lemma {:induction false} StatusClassStable(status: Option<string>)
    ensures StatusClass(Some(StatusClass(status))) == StatusClass(status)
  {
    var c := StatusClass(status);
    forall k | 0 <= k < |c|
      ensures UpperChar(c[k]) == c[k]
    {
      if status.Some? && status.value != "" {
        assert c[k] == UpperChar(status.value[k]);
      } else {
        assert c == "PENDING";
      }
    }
    assert Upper(c) == c;
  }

  /** What `updateStatus(order, newStatus)` sends: nothing for an order whose
      id is missing or 0, else that id with a copy of the order whose status
      is the new one. */
  function UpdateStatusRequest(order: OrderView, newStatus: string): (r: Option<(int, OrderView)>)
    ensures r.Some? <==> Given(order.id)
    ensures r.Some? ==> r.value.0 == order.id.value && r.value.1.status == Some(newStatus)
    ensures r.Some? ==> r.value.1.(status := order.status) == order
  {
    if !Given(order.id) then None else Some((order.id.value, order.(status := Some(newStatus))))
  }
}
