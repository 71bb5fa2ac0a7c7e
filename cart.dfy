/** `CartService`: the client's cart, a list of (product, quantity) items kept
    unique by product id, with its two running totals. */
module Cart {
  import opened Catalog

  datatype CartItem = CartItem(product: Product, quantity: int)

  /** `totalItems`: the sum of the quantities. */
  function TotalItems(items: seq<CartItem>): int {
    if items == [] then 0 else items[0].quantity + TotalItems(items[1..])
  }

  /** `totalPrice`: the sum of price times quantity. */
  function TotalPrice(items: seq<CartItem>): int {
    if items == [] then 0 else items[0].product.price * items[0].quantity + TotalPrice(items[1..])
  }

  /** No two items share a product id. */
  predicate UniqueIds(items: seq<CartItem>) {
    forall i, j :: 0 <= i < j < |items| ==> items[i].product.id != items[j].product.id
  }

  /** Some item holds product `id` (`curr.find(...)` succeeds). */
  predicate HasProduct(items: seq<CartItem>, id: int) {
    exists i :: 0 <= i < |items| && items[i].product.id == id
  }

  /** The `curr.map(...)` of `addToCart`: every item of product `id` gets `q`
      more; every other item is kept. */
  function Bump(items: seq<CartItem>, id: int, q: int): (r: seq<CartItem>)
    ensures |r| == |items|
    ensures forall i :: 0 <= i < |items| && items[i].product.id == id ==>
              r[i] == items[i].(quantity := items[i].quantity + q)
    ensures forall i :: 0 <= i < |items| && items[i].product.id != id ==> r[i] == items[i]
  {
    if items == [] then []
    else
      var head := if items[0].product.id == id then items[0].(quantity := items[0].quantity + q) else items[0];
      [head] + Bump(items[1..], id, q)
  }

  /** The update `addToCart(product, quantity)` applies to the items. */
  function Added(items: seq<CartItem>, p: Product, q: int): (r: seq<CartItem>)
    ensures HasProduct(r, p.id)
    ensures HasProduct(items, p.id) ==> |r| == |items|
    ensures !HasProduct(items, p.id) ==> r == items + [CartItem(p, q)]
    ensures forall i :: 0 <= i < |items| && items[i].product.id != p.id ==> r[i] == items[i]
  {
    if HasProduct(items, p.id) then Bump(items, p.id, q)
    else
      var r := items + [CartItem(p, q)];
      assert r[|items|].product == p;
      r
  }

  /** The update `removeFromCart(id)` applies: the items of other products, in order. */
  function Removed(items: seq<CartItem>, id: int): (r: seq<CartItem>)
    ensures forall x :: x in r <==> x in items && x.product.id != id
    ensures |r| <= |items|
  {
    if items == [] then []
    else if items[0].product.id != id then [items[0]] + Removed(items[1..], id)
    else Removed(items[1..], id)
  }

  /** Adding a product already in the cart changes only that product's
      quantity, by `q`; length and order are kept. */
  lemma AddExisting(items: seq<CartItem>, p: Product, q: int)
    requires HasProduct(items, p.id)
    ensures |Added(items, p, q)| == |items|
    ensures forall i :: 0 <= i < |items| ==>
              Added(items, p, q)[i] == if items[i].product.id == p.id then items[i].(quantity := items[i].quantity + q) else items[i]
  {
  }

  /** Adding a new product appends it with quantity `q`. */
  lemma AddNew(items: seq<CartItem>, p: Product, q: int)
    requires !HasProduct(items, p.id)
    ensures Added(items, p, q) == items + [CartItem(p, q)]
  {
  }

  /** Adding keeps product ids unique. */
  lemma AddKeepsUnique(items: seq<CartItem>, p: Product, q: int)
    requires UniqueIds(items)
    ensures UniqueIds(Added(items, p, q))
  {
    if HasProduct(items, p.id) {
      var r := Added(items, p, q);
      assert forall i :: 0 <= i < |items| ==> r[i].product == items[i].product;
    } else {
      var r := Added(items, p, q);
      assert forall i :: 0 <= i < |items| ==> r[i] == items[i];
    }
  }

  /** Removing keeps product ids unique. */
  lemma {:induction false} RemoveKeepsUnique(items: seq<CartItem>, id: int)
    requires UniqueIds(items)
    ensures UniqueIds(Removed(items, id))
  {
    if items != [] {
      RemoveKeepsUnique(items[1..], id);
      if items[0].product.id != id {
        var rest := Removed(items[1..], id);
        forall j | 0 <= j < |rest| ensures rest[j].product.id != items[0].product.id {
          assert rest[j] in items[1..];
        }
      }
    }
  }

  /** Removing an id no item holds changes nothing. */
  lemma {:induction false} RemoveAbsent(items: seq<CartItem>, id: int)
    requires !HasProduct(items, id)
    ensures Removed(items, id) == items
  {
    if items != [] {
      assert items[0].product.id != id;
      assert !HasProduct(items[1..], id);
      RemoveAbsent(items[1..], id);
      assert [items[0]] + items[1..] == items;
    }
  }

  /** Removing keeps the order of the items that stay: the result is the
      original with the removed items left out. */
  lemma {:induction false} RemoveKeepsOrder(items: seq<CartItem>, id: int)
    ensures Removed(items, id) == Filtered(items, id)
  {
    if items != [] {
      var front := items[..|items| - 1];
      var last := items[|items| - 1];
      RemoveKeepsOrder(front, id);
      RemoveAppend(front, last, id);
      assert front + [last] == items;
    }
  }

  lemma {:induction false} RemoveAppend(a: seq<CartItem>, x: CartItem, id: int)
    ensures Removed(a + [x], id) == Removed(a, id) + (if x.product.id != id then [x] else [])
  {
    if a != [] {
      RemoveAppend(a[1..], x, id);
      assert (a + [x])[1..] == a[1..] + [x];
      assert (a + [x])[0] == a[0];
    } else {
      assert [x][1..] == [];
    }
  }

  /** The items of other products, taken from the back: an independent
      definition of the filter. */
  function Filtered(items: seq<CartItem>, id: int): seq<CartItem> {
    if items == [] then []
    else
      var front := Filtered(items[..|items| - 1], id);
      if items[|items| - 1].product.id != id then front + [items[|items| - 1]] else front
  }

  lemma {:induction false} TotalsAppend(a: seq<CartItem>, b: seq<CartItem>)
    ensures TotalItems(a + b) == TotalItems(a) + TotalItems(b)
    ensures TotalPrice(a + b) == TotalPrice(a) + TotalPrice(b)
  {
    if a != [] {
      TotalsAppend(a[1..], b);
      assert (a + b)[1..] == a[1..] + b;
      assert (a + b)[0] == a[0];
    } else {
      assert a + b == b;
    }
  }

  /** Bumping a product no item holds changes nothing. */
  lemma BumpAbsent(items: seq<CartItem>, id: int, q: int)
    requires !HasProduct(items, id)
    ensures Bump(items, id, q) == items
  {
  }

  /** Bumping the one item of product `id` by `q` raises the item total by `q`
      and the price total by that item's price times `q`. */
  lemma {:induction false} BumpTotals(items: seq<CartItem>, k: int, q: int)
    requires UniqueIds(items)
    requires 0 <= k < |items|
    ensures TotalItems(Bump(items, items[k].product.id, q)) == TotalItems(items) + q
    ensures TotalPrice(Bump(items, items[k].product.id, q)) == TotalPrice(items) + items[k].product.price * q
  {
    var id := items[k].product.id;
    var r := Bump(items, id, q);
    assert r[1..] == Bump(items[1..], id, q);
    if k == 0 {
      assert !HasProduct(items[1..], id);
      BumpAbsent(items[1..], id, q);
      assert items[0].product.price * (items[0].quantity + q)
          == items[0].product.price * items[0].quantity + items[0].product.price * q;
    } else {
      assert items[1..][k - 1] == items[k];
      BumpTotals(items[1..], k - 1, q);
    }
  }

  /** The price the cart charges per unit of `p` after adding it: the price
      of the product already stored under that id, or `p`'s own. */
  function StoredUnitPrice(items: seq<CartItem>, p: Product): int
    requires UniqueIds(items)
  {
    if HasProduct(items, p.id) then
      var k :| 0 <= k < |items| && items[k].product.id == p.id; items[k].product.price
    else p.price
  }

  /** `addToCart(p, q)` on a cart with unique ids raises `totalItems` by
      exactly `q` and `totalPrice` by the unit price times `q`; when the
      stored product is `p` itself, that is `p.price * q`. */
  lemma AddTotals(items: seq<CartItem>, p: Product, q: int)
    requires UniqueIds(items)
    ensures TotalItems(Added(items, p, q)) == TotalItems(items) + q
    ensures TotalPrice(Added(items, p, q)) == TotalPrice(items) + StoredUnitPrice(items, p) * q
    ensures p in (set x | x in items :: x.product) || !HasProduct(items, p.id) ==>
              TotalPrice(Added(items, p, q)) == TotalPrice(items) + p.price * q
  {
    if HasProduct(items, p.id) {
      var k :| 0 <= k < |items| && items[k].product.id == p.id && items[k].product.price == StoredUnitPrice(items, p);
      BumpTotals(items, k, q);
      if p in (set x | x in items :: x.product) {
        var j :| 0 <= j < |items| && items[j].product == p;
        assert j == k;
      }
    } else {
      TotalsAppend(items, [CartItem(p, q)]);
    }
  }

  /** The client's cart. */
  class CartService {
    var items: seq<CartItem>

    constructor ()
      ensures items == []
    {
      items := [];
    }

    /** `addToCart(product, quantity)`. */
    method AddToCart(product: Product, quantity: int)
      modifies this
      ensures items == Added(old(items), product, quantity)
      ensures UniqueIds(old(items)) ==> UniqueIds(items)
    {
      if UniqueIds(items) {
        AddKeepsUnique(items, product, quantity);
      }
      items := Added(items, product, quantity);
    }

    /** `removeFromCart(productId)`. */
    method RemoveFromCart(productId: int)
      modifies this
      ensures items == Removed(old(items), productId)
      ensures UniqueIds(old(items)) ==> UniqueIds(items)
    {
      if UniqueIds(items) {
        RemoveKeepsUnique(items, productId);
      }
      items := Removed(items, productId);
    }

    /** `clearCart()`: no items, so both totals are 0. */
    method ClearCart()
      modifies this
      ensures items == [] && TotalItems(items) == 0 && TotalPrice(items) == 0
    {
      items := [];
    }
  }
}
