/**
 * The cart and order views of the store, over an in-memory shop whose fields
 * are the tables those views read and write: the product catalog, the cart of
 * each user, the CartItem table and the order log. Each view is one method;
 * every method keeps the shop's invariant Valid().
 */
module Views {
  import opened Wrappers
  import opened Models
  import opened Queries

  /** The result of a cart view: the row it looks up is found, or the view answers 404. */
  datatype Outcome = Done | NotFound

  /** The result of checkout: the cart is empty, the form is shown, or the id of the placed order. */
  datatype CheckoutOutcome = EmptyCart | FormShown | Placed(order: OrderId)

  /** The cart map after get_or_create for `user`, `newCart` being the next free cart id. */
  function WithCart(carts: map<UserId, CartId>, user: UserId, newCart: CartId): map<UserId, CartId> {
    if user in carts then carts else carts[user := newCart]
  }

  /** One cart per user, each with an id below the next free one. */
  predicate CartsWithin(carts: map<UserId, CartId>, nextCart: CartId) {
    && (forall u :: u in carts ==> carts[u] < nextCart)
    && (forall u, v :: u in carts && v in carts && u != v ==> carts[u] != carts[v])
  }

  /** Order ids increase along the log and stay below the next free one; each stored total is the sum of its items. */
  predicate LogWithin(orders: seq<Order>, nextOrder: OrderId) {
    && (forall i, j :: 0 <= i < j < |orders| ==> orders[i].id < orders[j].id)
    && (forall o :: o in orders ==> o.id < nextOrder && o.total == CalculateTotal(o.items))
  }

  /** Appending an order with the next free id and a consistent total keeps the log well formed. */
  lemma AppendOrderWithin(orders: seq<Order>, nextOrder: OrderId, order: Order)
    requires LogWithin(orders, nextOrder)
    requires order.id == nextOrder && order.total == CalculateTotal(order.items)
    ensures LogWithin(orders + [order], nextOrder + 1)
  {
    var r := orders + [order];
    forall i, j | 0 <= i < j < |r|
      ensures r[i].id < r[j].id
    {
      assert r[i] == orders[i];
      assert orders[i] in orders;
      if j < |orders| {
        assert r[j] == orders[j];
      }
    }
  }

  /** Every line lies in the cart of some user. */
  predicate LinesOwned(carts: map<UserId, CartId>, items: seq<CartItem>) {
    forall l :: l in items ==> l.cart in carts.Values
  }

  /**
   * The shop's invariant over its tables: one cart per user; one line per
   * (cart, product), each for a product of the catalog, with a positive
   * quantity, in the cart of some user; order ids increase along the log, and
   * every order's stored total is the sum of its items.
   */
  ghost predicate StoreWithin(catalog: Catalog, carts: map<UserId, CartId>, items: seq<CartItem>, orders: seq<Order>,
                              nextCart: CartId, nextItem: ItemId, nextOrder: OrderId) {
    && CartsWithin(carts, nextCart)
    && WellKeyed(items)
    && LinesWithin(catalog, items, nextCart, nextItem)
    && LinesOwned(carts, items)
    && LogWithin(orders, nextOrder)
  }

  /** get_or_create of a cart keeps the invariant, and a cart it creates has no lines. */
  lemma CreateCartWithin(catalog: Catalog, carts: map<UserId, CartId>, items: seq<CartItem>, orders: seq<Order>,
                         nextCart: CartId, nextItem: ItemId, nextOrder: OrderId, user: UserId)
    requires StoreWithin(catalog, carts, items, orders, nextCart, nextItem, nextOrder)
    ensures StoreWithin(catalog, WithCart(carts, user, nextCart), items, orders,
                        if user in carts then nextCart else nextCart + 1, nextItem, nextOrder)
    ensures user !in carts ==> Lines(items, nextCart) == []
  {
    if user !in carts {
      LinesOfUnused(items, nextCart);
      var grown := carts[user := nextCart];
      forall l | l in items
        ensures l.cart in grown.Values
      {
        var u :| u in carts && carts[u] == l.cart;
        assert grown[u] == l.cart;
      }
    }
  }

  /** add_to_cart of a catalog product into the cart of some user keeps the invariant. */
  lemma AddLineStoreWithin(catalog: Catalog, carts: map<UserId, CartId>, items: seq<CartItem>, orders: seq<Order>,
                           nextCart: CartId, nextItem: ItemId, nextOrder: OrderId, cart: CartId, product: ProductId)
    requires StoreWithin(catalog, carts, items, orders, nextCart, nextItem, nextOrder)
    requires product in catalog && cart in carts.Values
    ensures StoreWithin(catalog, carts, AddLine(items, cart, product, nextItem), orders, nextCart,
                        if FindLine(items, cart, product).Some? then nextItem else nextItem + 1, nextOrder)
  {
    var u :| u in carts && carts[u] == cart;
    AddLineWithin(catalog, items, cart, product, nextCart, nextItem);
    AddLineWellKeyed(items, cart, product, nextItem);
    AddLineRows(items, cart, product, nextItem);
  }

  /** Deleting one line keeps the invariant. */
  lemma RemoveAtStoreWithin(catalog: Catalog, carts: map<UserId, CartId>, items: seq<CartItem>, orders: seq<Order>,
                            nextCart: CartId, nextItem: ItemId, nextOrder: OrderId, k: nat)
    requires StoreWithin(catalog, carts, items, orders, nextCart, nextItem, nextOrder)
    requires k < |items|
    ensures StoreWithin(catalog, carts, RemoveAt(items, k), orders, nextCart, nextItem, nextOrder)
  {
    RemoveAtWellKeyed(items, k);
  }

  /** Setting a line's quantity to at least 1 keeps the invariant. */
  lemma SetQuantityStoreWithin(catalog: Catalog, carts: map<UserId, CartId>, items: seq<CartItem>, orders: seq<Order>,
                               nextCart: CartId, nextItem: ItemId, nextOrder: OrderId, k: nat, q: nat)
    requires StoreWithin(catalog, carts, items, orders, nextCart, nextItem, nextOrder)
    requires k < |items| && q >= 1
    ensures StoreWithin(catalog, carts, SetQuantity(items, k, q), orders, nextCart, nextItem, nextOrder)
  {
    SetQuantityWithin(catalog, items, k, q, nextCart, nextItem);
    SetQuantityRows(items, k, q);
    assert items[k] in items;
  }

  /** Appending an order with the next free id and a consistent total, and deleting one cart's lines, keeps the invariant. */
  lemma PlaceOrderStoreWithin(catalog: Catalog, carts: map<UserId, CartId>, items: seq<CartItem>, orders: seq<Order>,
                              nextCart: CartId, nextItem: ItemId, nextOrder: OrderId, cart: CartId, order: Order)
    requires StoreWithin(catalog, carts, items, orders, nextCart, nextItem, nextOrder)
    requires order.id == nextOrder && order.total == CalculateTotal(order.items)
    ensures StoreWithin(catalog, carts, WithoutCart(items, cart), orders + [order], nextCart, nextItem, nextOrder + 1)
  {
    AppendOrderWithin(orders, nextOrder, order);
    WithoutCartWellKeyed(items, cart);
  }

  /**
   * With distinct ids and a clock that moves forward between orders, the order
   * order_detail shows is exactly the first order order_list shows.
   */
  lemma LatestIsListedHead(orders: seq<Order>, nextOrder: OrderId, user: UserId)
    requires LogWithin(orders, nextOrder)
    requires ClockStrictlyFollowsIds(orders)
    requires LatestOrder(orders, user).Some?
    ensures SortNewestFirst(UserOrders(orders, user)) != []
    ensures SortNewestFirst(UserOrders(orders, user))[0] == LatestOrder(orders, user).value
  {
    var latest := LatestOrder(orders, user).value;
    var listed := SortNewestFirst(UserOrders(orders, user));
    ListedAreMine(orders, user);
    assert latest in listed;
    var k :| 0 <= k < |listed| && listed[k] == latest;
    var head := listed[0];
    assert head in listed;
    assert head.createdAt >= latest.createdAt by {
      if k > 0 {
        assert listed[0].createdAt >= listed[k].createdAt;
      }
    }
    assert latest.id <= head.id;
    var i :| 0 <= i < |orders| && orders[i] == head;
    var j :| 0 <= j < |orders| && orders[j] == latest;
    assert i == j;
  }

  /** Every order in the newest-first listing of a user is one of that user's stored orders, with a consistent total. */
  lemma ListedOrders(orders: seq<Order>, nextOrder: OrderId, user: UserId)
    requires LogWithin(orders, nextOrder)
    ensures forall o :: o in SortNewestFirst(UserOrders(orders, user)) ==>
      o in orders && o.user == user && o.total == CalculateTotal(o.items)
  {
    ListedAreMine(orders, user);
  }

  class Shop {
    const catalog: Catalog
    var carts: map<UserId, CartId>
    var cartItems: seq<CartItem>
    var orders: seq<Order>
    var nextCartId: CartId
    var nextItemId: ItemId
    var nextOrderId: OrderId

    /** The shop's invariant, StoreWithin over its fields. */
    ghost predicate Valid()
      reads this
    {
      StoreWithin(catalog, carts, cartItems, orders, nextCartId, nextItemId, nextOrderId)
    }

    constructor (catalog: Catalog)
      ensures Valid()
      ensures this.catalog == catalog
      ensures carts == map[] && cartItems == [] && orders == []
    {
      this.catalog := catalog;
      carts := map[];
      cartItems := [];
      orders := [];
      nextCartId, nextItemId, nextOrderId := 0, 0, 0;
    }

    /** The index of line `id` when it lies in the cart of `user`; None is the 404 of the lookup. */
    function OwnedItem(user: UserId, id: ItemId): (r: Option<nat>)
      reads this
      requires WellKeyed(cartItems)
      ensures r.Some? ==> r.value < |cartItems| && cartItems[r.value].id == id
      ensures r.Some? ==> user in carts && cartItems[r.value].cart == carts[user]
      ensures r.None? ==> forall l :: l in cartItems && l.id == id ==> user !in carts || l.cart != carts[user]
    {
      var k := FindItem(cartItems, id);
      if k.Some? && user in carts && cartItems[k.value].cart == carts[user] then k
      else
        assert forall l :: l in cartItems && l.id == id ==> l == cartItems[k.value] by {
          forall l | l in cartItems && l.id == id
            ensures l == cartItems[k.value]
          {
            var j :| 0 <= j < |cartItems| && cartItems[j] == l;
            assert j == k.value;
          }
        }
        None
    }

    /** _get_or_create_cart: the user's cart, created empty on first use. */
    method GetOrCreateCart(user: UserId) returns (cart: CartId)
      requires Valid()
      modifies this`carts, this`nextCartId
      ensures Valid()
      ensures carts == WithCart(old(carts), user, old(nextCartId))
      ensures cart == carts[user]
      ensures user !in old(carts) ==> Lines(cartItems, cart) == [] && nextCartId == old(nextCartId) + 1
      ensures user in old(carts) ==> nextCartId == old(nextCartId)
    {
      CreateCartWithin(catalog, carts, cartItems, orders, nextCartId, nextItemId, nextOrderId, user);
      if user in carts {
        cart := carts[user];
      } else {
        cart := nextCartId;
        carts := carts[user := cart];
        nextCartId := nextCartId + 1;
      }
    }

    /** add_to_cart: one more unit of an available product in the user's cart. */
    method AddToCart(user: UserId, product: ProductId) returns (r: Outcome)
      requires Valid()
      modifies this`carts, this`nextCartId, this`cartItems, this`nextItemId
      ensures Valid()
      ensures r == NotFound <==> product !in catalog || !catalog[product].available
      ensures r == NotFound ==> carts == old(carts) && cartItems == old(cartItems)
      ensures r == Done ==> carts == WithCart(old(carts), user, old(nextCartId))
      ensures r == Done ==> cartItems == AddLine(old(cartItems), carts[user], product, old(nextItemId))
      ensures r == NotFound ==> nextCartId == old(nextCartId) && nextItemId == old(nextItemId)
      ensures r == Done ==> nextCartId == if user in old(carts) then old(nextCartId) else old(nextCartId) + 1
      ensures r == Done ==>
        nextItemId == if FindLine(old(cartItems), carts[user], product).Some? then old(nextItemId) else old(nextItemId) + 1
    {
      if product !in catalog || !catalog[product].available {
        return NotFound;
      }
      var cart := GetOrCreateCart(user);
      assert cart in carts.Values;
      AddLineStoreWithin(catalog, carts, cartItems, orders, nextCartId, nextItemId, nextOrderId, cart, product);
      var next := if FindLine(cartItems, cart, product).Some? then nextItemId else nextItemId + 1;
      cartItems, nextItemId := AddLine(cartItems, cart, product, nextItemId), next;
      r := Done;
    }

    /** remove_from_cart: deletes line `id` when it lies in the user's cart; any other id is a 404. */
    method RemoveFromCart(user: UserId, id: ItemId) returns (r: Outcome)
      requires Valid()
      modifies this`cartItems
      ensures Valid()
      ensures r == NotFound <==> forall l :: l in old(cartItems) && l.id == id ==> user !in carts || l.cart != carts[user]
      ensures r == NotFound ==> cartItems == old(cartItems)
      ensures r == Done ==> FindItem(old(cartItems), id).Some?
      ensures r == Done ==> cartItems == RemoveAt(old(cartItems), FindItem(old(cartItems), id).value)
    {
      var k := OwnedItem(user, id);
      if k.None? {
        return NotFound;
      }
      RemoveAtStoreWithin(catalog, carts, cartItems, orders, nextCartId, nextItemId, nextOrderId, k.value);
      cartItems := RemoveAt(cartItems, k.value);
      r := Done;
    }

    /**
     * update_cart_item: for a line in the user's cart, a posted quantity below
     * 1 deletes the line and any other posted quantity replaces its quantity;
     * without a posted quantity (a GET) nothing changes. Any other id is a 404.
     */
    method UpdateCartItem(user: UserId, id: ItemId, qty: Option<int>) returns (r: Outcome)
      requires Valid()
      modifies this`cartItems
      ensures Valid()
      ensures r == NotFound <==> forall l :: l in old(cartItems) && l.id == id ==> user !in carts || l.cart != carts[user]
      ensures r == NotFound || qty.None? ==> cartItems == old(cartItems)
      ensures r == Done ==> FindItem(old(cartItems), id).Some?
      ensures r == Done && qty.Some? ==>
        var k := FindItem(old(cartItems), id).value;
        cartItems == (if qty.value < 1 then RemoveAt(old(cartItems), k) else SetQuantity(old(cartItems), k, qty.value))
    {
      var k := OwnedItem(user, id);
      if k.None? {
        return NotFound;
      }
      r := Done;
      if qty.None? {
        return;
      }
      var i := k.value;
      if qty.value < 1 {
        RemoveAtStoreWithin(catalog, carts, cartItems, orders, nextCartId, nextItemId, nextOrderId, i);
        cartItems := RemoveAt(cartItems, i);
      } else {
        SetQuantityStoreWithin(catalog, carts, cartItems, orders, nextCartId, nextItemId, nextOrderId, i, qty.value);
        cartItems := SetQuantity(cartItems, i, qty.value);
      }
    }

    /** The loop of checkout that copies each cart line into an order item at the product's current price. */
    method FreezeLines(lines: seq<CartItem>) returns (items: seq<OrderItem>)
      requires Priced(catalog, lines)
      ensures |items| == |lines|
      ensures forall i :: 0 <= i < |lines| ==>
        items[i] == OrderItem(lines[i].product, catalog[lines[i].product].price, lines[i].quantity)
      ensures items == FrozenItems(catalog, lines)
    {
      items := [];
      for i := 0 to |lines|
        invariant Priced(catalog, lines[..i])
        invariant items == FrozenItems(catalog, lines[..i])
      {
        var line := lines[i];
        assert lines[..i + 1][..i] == lines[..i];
        items := items + [OrderItem(line.product, catalog[line.product].price, line.quantity)];
      }
      assert lines[..|lines|] == lines;
    }

    /**
     * The valid-form branch of checkout: records one order with the cart's
     * current total and one item per line at the product's current price,
     * then deletes the cart's lines.
     */
    method PlaceOrder(user: UserId, cart: CartId, shipping: Shipping, now: nat) returns (id: OrderId)
      requires Valid()
      modifies this`cartItems, this`orders, this`nextOrderId
      ensures Valid()
      ensures id == old(nextOrderId) && nextOrderId == id + 1
      ensures
        var lines := Lines(old(cartItems), cart);
        && Priced(catalog, lines)
        && orders == old(orders) + [Order(id, user, now, DEFAULT_STATUS, shipping,
                                          CartTotal(catalog, lines), FrozenItems(catalog, lines))]
        && CalculateTotal(FrozenItems(catalog, lines)) == CartTotal(catalog, lines)
      ensures cartItems == WithoutCart(old(cartItems), cart)
    {
      var lines := Lines(cartItems, cart);
      var total := CartTotal(catalog, lines);
      var items := FreezeLines(lines);
      FrozenTotal(catalog, lines);
      id := nextOrderId;
      var order := Order(id, user, now, DEFAULT_STATUS, shipping, total, items);
      PlaceOrderStoreWithin(catalog, carts, cartItems, orders, nextCartId, nextItemId, nextOrderId, cart, order);
      orders, nextOrderId, cartItems := orders + [order], nextOrderId + 1, WithoutCart(cartItems, cart);
    }

    /**
     * checkout: with an empty cart nothing is placed; without a submitted
     * shipping form the form is shown; otherwise one order is appended that
     * carries the cart's current total and one item per cart line at the
     * product's current price, and the cart's lines are deleted.
     */
    method Checkout(user: UserId, shipping: Option<Shipping>, now: nat) returns (r: CheckoutOutcome)
      requires Valid()
      modifies this`carts, this`nextCartId, this`cartItems, this`orders, this`nextOrderId
      ensures Valid()
      ensures carts == WithCart(old(carts), user, old(nextCartId))
      ensures r == EmptyCart <==> Lines(old(cartItems), carts[user]) == []
      ensures r == FormShown <==> Lines(old(cartItems), carts[user]) != [] && shipping.None?
      ensures !r.Placed? ==> cartItems == old(cartItems) && orders == old(orders) && nextOrderId == old(nextOrderId)
      ensures r.Placed? ==>
        var lines := Lines(old(cartItems), carts[user]);
        && r.order == old(nextOrderId) && nextOrderId == old(nextOrderId) + 1
        && orders == old(orders) + [Order(old(nextOrderId), user, now, DEFAULT_STATUS, shipping.value,
                                          CartTotal(catalog, lines), FrozenItems(catalog, lines))]
        && CalculateTotal(FrozenItems(catalog, lines)) == CartTotal(catalog, lines)
      ensures r.Placed? ==> cartItems == WithoutCart(old(cartItems), carts[user])
      ensures nextCartId == if user in old(carts) then old(nextCartId) else old(nextCartId) + 1
    {
      var cart := GetOrCreateCart(user);
      var lines := Lines(cartItems, cart);
      if lines == [] {
        return EmptyCart;
      }
      if shipping.None? {
        return FormShown;
      }
      var id := PlaceOrder(user, cart, shipping.value, now);
      r := Placed(id);
    }

    /** The inner loop of order_list: the sum of price times quantity over the order's items. */
    method OrderTotal(order: Order) returns (total: Cents)
      ensures total == CalculateTotal(order.items)
    {
      total := 0;
      for j := 0 to |order.items|
        invariant total == CalculateTotal(order.items[..j])
      {
        var item := order.items[j];
        assert order.items[..j + 1][..j] == order.items[..j];
        total := total + item.price * item.quantity;
      }
      assert order.items[..|order.items|] == order.items;
    }

    /**
     * order_list: the user's orders newest first, each carrying the total
     * recomputed from its items, which is the total stored at checkout.
     */
    method OrderList(user: UserId) returns (r: seq<Order>)
      requires Valid()
      ensures r == SortNewestFirst(UserOrders(orders, user))
      ensures NewestFirst(r)
      ensures multiset(r) == multiset(UserOrders(orders, user))
      ensures forall o :: o in r ==> o in orders && o.user == user && o.total == CalculateTotal(o.items)
    {
      var listed := SortNewestFirst(UserOrders(orders, user));
      r := [];
      for i := 0 to |listed|
        invariant |r| == i
        invariant forall j :: 0 <= j < i ==> r[j] == listed[j].(total := CalculateTotal(listed[j].items))
      {
        var order := listed[i];
        var total := OrderTotal(order);
        r := r + [order.(total := total)];
      }
      ListedOrders(orders, nextOrderId, user);
      assert forall j :: 0 <= j < |listed| ==> listed[j] in listed;
      assert forall j :: 0 <= j < |r| ==> r[j] == listed[j];
    }

    /** order_detail: the user's order with the largest id, or None when the user has never ordered. */
    method OrderDetail(user: UserId) returns (r: Option<Order>)
      requires Valid()
      ensures r.None? <==> forall o :: o in orders ==> o.user != user
      ensures r.Some? ==> r.value in orders && r.value.user == user
      ensures r.Some? ==> forall o :: o in orders && o.user == user && o != r.value ==> o.id < r.value.id
    {
      r := LatestOrder(orders, user);
      if r.Some? {
        forall o | o in orders && o.user == user && o != r.value
          ensures o.id < r.value.id
        {
          var i :| 0 <= i < |orders| && orders[i] == o;
          var j :| 0 <= j < |orders| && orders[j] == r.value;
          assert i != j;
        }
      }
    }
  }
}
