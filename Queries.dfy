/**
 * The lookups and table updates that the store's views perform through the
 * ORM, written as functions on rows, with what each one does to the cart read
 * as a map from (cart, product) to quantity and to the cart's total. The
 * class in module Views applies them to its state.
 */
module Queries {
  import opened Wrappers
  import opened Models

  // ---------------------------------------------------------------- row invariant

  /** Every line is for a product of the catalog, has a positive quantity, and has its cart and own id below the next free ones. */
  predicate LinesWithin(catalog: Catalog, items: seq<CartItem>, nextCart: CartId, nextItem: ItemId) {
    forall l :: l in items ==> l.product in catalog && l.quantity >= 1 && l.cart < nextCart && l.id < nextItem
  }

  // ---------------------------------------------------------------- lookups

  /** The index of the CartItem with primary key `id`, if there is one. */
  function FindItem(items: seq<CartItem>, id: ItemId): (r: Option<nat>)
    ensures r.Some? ==> r.value < |items| && items[r.value].id == id
    ensures r.None? ==> forall l :: l in items ==> l.id != id
    decreases |items|
  {
    if items == [] then None
    else if items[|items| - 1].id == id then Some(|items| - 1)
    else FindItem(items[..|items| - 1], id)
  }

  /** The index of the line of `product` in `cart`, if there is one: the lookup half of get_or_create. */
  function FindLine(items: seq<CartItem>, cart: CartId, product: ProductId): (r: Option<nat>)
    ensures r.Some? ==> r.value < |items| && items[r.value].cart == cart && items[r.value].product == product
    ensures r.None? ==> forall l :: l in items ==> l.cart != cart || l.product != product
    decreases |items|
  {
    if items == [] then None
    else if items[|items| - 1].cart == cart && items[|items| - 1].product == product then Some(|items| - 1)
    else FindLine(items[..|items| - 1], cart, product)
  }

  // ---------------------------------------------------------------- single-line updates

  /** Saving line `k` with quantity `q`. */
  function SetQuantity(items: seq<CartItem>, k: nat, q: nat): seq<CartItem>
    requires k < |items|
  {
    items[k := items[k].(quantity := q)]
  }

  /** Every line after saving line `k` was already in the table or lies in the cart of line `k`. */
  lemma SetQuantityRows(items: seq<CartItem>, k: nat, q: nat)
    requires k < |items|
    ensures forall l :: l in SetQuantity(items, k, q) ==> l in items || l.cart == items[k].cart
  {
    var r := SetQuantity(items, k, q);
    forall l | l in r
      ensures l in items || l.cart == items[k].cart
    {
      var i :| 0 <= i < |r| && r[i] == l;
      if i != k {
        assert items[i] == l;
      }
    }
  }

  /** Deleting line `k`. */
  function RemoveAt(items: seq<CartItem>, k: nat): seq<CartItem>
    requires k < |items|
  {
    items[..k] + items[k + 1..]
  }

  /** The CartItem table after one add_to_cart of `product` into `cart`, `freshId` being the next free line id. */
  function AddLine(items: seq<CartItem>, cart: CartId, product: ProductId, freshId: ItemId): seq<CartItem> {
    match FindLine(items, cart, product)
    case Some(k) => SetQuantity(items, k, items[k].quantity + 1)
    case None => items + [CartItem(freshId, cart, product, 1)]
  }

  /** Every line after add_to_cart was already in the table or lies in the cart added to. */
  lemma AddLineRows(items: seq<CartItem>, cart: CartId, product: ProductId, freshId: ItemId)
    ensures forall l :: l in AddLine(items, cart, product, freshId) ==> l in items || l.cart == cart
  {
    match FindLine(items, cart, product)
    case Some(k) =>
      SetQuantityRows(items, k, items[k].quantity + 1);
    case None =>
  }

  /** Replacing line `k` changes only the quantity of its own key, and only by the difference. */
  lemma QuantityUpdate(items: seq<CartItem>, k: nat, x: CartItem, c: CartId, p: ProductId)
    requires k < |items|
    ensures Quantity(items[k := x], c, p) == Quantity(items, c, p) - Share(items[k], c, p) + Share(x, c, p)
  {
    var u := items[k := x];
    QuantitySplit(items, k, c, p);
    QuantitySplit(u, k, c, p);
    assert u[..k] == items[..k];
    assert u[k + 1..] == items[k + 1..];
  }

  /** Replacing line `k` by a line of the same cart leaves every other cart's lines alone. */
  lemma LinesUpdateOther(items: seq<CartItem>, k: nat, x: CartItem, c: CartId)
    requires k < |items| && x.cart == items[k].cart && c != x.cart
    ensures Lines(items[k := x], c) == Lines(items, c)
  {
    var u := items[k := x];
    LinesSplit(items, k, c);
    LinesSplit(u, k, c);
    assert u[..k] == items[..k];
    assert u[k + 1..] == items[k + 1..];
  }

  /** Replacing line `k` by a line of the same cart changes the cart total by the difference of the two line totals. */
  lemma CartTotalUpdate(catalog: Catalog, items: seq<CartItem>, k: nat, x: CartItem)
    requires k < |items| && Priced(catalog, items) && x.product in catalog && x.cart == items[k].cart
    ensures Priced(catalog, items[k := x])
    ensures CartTotal(catalog, Lines(items[k := x], x.cart))
         == CartTotal(catalog, Lines(items, x.cart)) - LineTotal(catalog, items[k]) + LineTotal(catalog, x)
  {
    var u := items[k := x];
    assert Priced(catalog, u) by {
      forall l | l in u ensures l.product in catalog {
        var i :| 0 <= i < |u| && u[i] == l;
        if i != k { assert items[i] == l; }
      }
    }
    CartTotalSplit(catalog, items, k, x.cart);
    CartTotalSplit(catalog, u, k, x.cart);
    assert u[..k] == items[..k];
    assert u[k + 1..] == items[k + 1..];
  }

  /** Deleting line `k` removes exactly its quantity from its own key and its total from its own cart. */
  lemma RemoveAtEffect(catalog: Catalog, items: seq<CartItem>, k: nat, c: CartId, p: ProductId)
    requires k < |items| && Priced(catalog, items)
    ensures Quantity(RemoveAt(items, k), c, p) == Quantity(items, c, p) - Share(items[k], c, p)
    ensures Priced(catalog, RemoveAt(items, k))
    ensures CartTotal(catalog, Lines(RemoveAt(items, k), c))
         == CartTotal(catalog, Lines(items, c)) - (if items[k].cart == c then LineTotal(catalog, items[k]) else 0)
  {
    var a, b := items[..k], items[k + 1..];
    QuantitySplit(items, k, c, p);
    QuantityAppend(a, b, c, p);
    CartTotalSplit(catalog, items, k, c);
    LinesAppend(a, b, c);
    CartTotalAppend(catalog, Lines(a, c), Lines(b, c));
  }

  /** Deleting one line keeps the table well keyed. */
  lemma RemoveAtWellKeyed(items: seq<CartItem>, k: nat)
    requires k < |items| && WellKeyed(items)
    ensures WellKeyed(RemoveAt(items, k))
    ensures forall l :: l in RemoveAt(items, k) ==> l in items
  {
    var r := RemoveAt(items, k);
    assert forall i :: 0 <= i < |r| ==> r[i] == (if i < k then items[i] else items[i + 1]);
  }

  /**
   * What deleting line `k` does: no line keeps its id, its (cart, product)
   * loses exactly its quantity, and its cart loses exactly its line total.
   */
  ghost predicate DropsLine(catalog: Catalog, before: seq<CartItem>, after: seq<CartItem>, k: nat)
    requires k < |before|
  {
    && Priced(catalog, before) && Priced(catalog, after)
    && (forall l :: l in after ==> l.id != before[k].id)
    && (forall c, p :: Quantity(after, c, p) == Quantity(before, c, p) - Share(before[k], c, p))
    && (forall c :: CartTotal(catalog, Lines(after, c))
               == CartTotal(catalog, Lines(before, c)) - (if before[k].cart == c then LineTotal(catalog, before[k]) else 0))
  }

  /** Deleting line `k` of a well-keyed table leaves no line with its id. */
  lemma RemoveAtDropsId(items: seq<CartItem>, k: nat)
    requires k < |items| && WellKeyed(items)
    ensures forall l :: l in RemoveAt(items, k) ==> l.id != items[k].id
  {
    var r := RemoveAt(items, k);
    forall l | l in r
      ensures l.id != items[k].id
    {
      var j :| 0 <= j < |r| && r[j] == l;
      if j < k { assert l == items[j]; } else { assert l == items[j + 1]; }
    }
  }

  /** RemoveAt does exactly what DropsLine describes. */
  lemma RemoveAtDropsLine(catalog: Catalog, items: seq<CartItem>, k: nat)
    requires k < |items| && Priced(catalog, items) && WellKeyed(items)
    ensures DropsLine(catalog, items, RemoveAt(items, k), k)
  {
    var r := RemoveAt(items, k);
    RemoveAtDropsId(items, k);
    RemoveAtEffect(catalog, items, k, 0, 0);
    forall c, p
      ensures Quantity(r, c, p) == Quantity(items, c, p) - Share(items[k], c, p)
    {
      RemoveAtEffect(catalog, items, k, c, p);
    }
    forall c
      ensures CartTotal(catalog, Lines(r, c))
           == CartTotal(catalog, Lines(items, c)) - (if items[k].cart == c then LineTotal(catalog, items[k]) else 0)
    {
      RemoveAtEffect(catalog, items, k, c, 0);
    }
  }

  /** What giving line `k`'s (cart, product) the quantity `q` does: that key now holds `q` and every other key is as it was. */
  ghost predicate SetsQuantity(before: seq<CartItem>, after: seq<CartItem>, k: nat, q: nat)
    requires k < |before|
  {
    && Quantity(after, before[k].cart, before[k].product) == q
    && (forall c, p :: (c != before[k].cart || p != before[k].product) ==> Quantity(after, c, p) == Quantity(before, c, p))
  }

  /** Overwriting the quantity of line `k` sets its key to that quantity. */
  lemma SetQuantitySets(items: seq<CartItem>, k: nat, q: nat)
    requires k < |items| && WellKeyed(items)
    ensures SetsQuantity(items, SetQuantity(items, k, q), k, q)
  {
    QuantityOfLine(items, k);
    forall c, p {
      QuantityUpdate(items, k, items[k].(quantity := q), c, p);
    }
  }

  /** Deleting line `k` sets its key to quantity 0. */
  lemma RemoveAtSetsZero(items: seq<CartItem>, k: nat)
    requires k < |items| && WellKeyed(items)
    ensures SetsQuantity(items, RemoveAt(items, k), k, 0)
  {
    QuantityOfLine(items, k);
    var a, b := items[..k], items[k + 1..];
    forall c, p
      ensures Quantity(RemoveAt(items, k), c, p) == Quantity(items, c, p) - Share(items[k], c, p)
    {
      QuantitySplit(items, k, c, p);
      QuantityAppend(a, b, c, p);
    }
  }

  // ---------------------------------------------------------------- adding

  /** One add_to_cart adds exactly one unit to its own (cart, product) and changes no other quantity. */
  lemma {:induction false} AddLineQuantity(items: seq<CartItem>, cart: CartId, product: ProductId, freshId: ItemId,
                                             c: CartId, p: ProductId)
    ensures Quantity(AddLine(items, cart, product, freshId), c, p)
         == Quantity(items, c, p) + (if c == cart && p == product then 1 else 0)
  {
    match FindLine(items, cart, product)
    case Some(k) =>
      QuantityUpdate(items, k, items[k].(quantity := items[k].quantity + 1), c, p);
    case None =>
      var line := CartItem(freshId, cart, product, 1);
      assert (items + [line])[..|items|] == items;
  }

  /** One add_to_cart keeps the table well keyed: it never makes a second line for the same product. */
  lemma AddLineWellKeyed(items: seq<CartItem>, cart: CartId, product: ProductId, freshId: ItemId)
    requires WellKeyed(items)
    requires forall l :: l in items ==> l.id < freshId
    ensures WellKeyed(AddLine(items, cart, product, freshId))
    ensures FindLine(items, cart, product).Some? ==> |AddLine(items, cart, product, freshId)| == |items|
    ensures FindLine(items, cart, product).None? ==> |AddLine(items, cart, product, freshId)| == |items| + 1
  {
    var r := AddLine(items, cart, product, freshId);
    if FindLine(items, cart, product).None? {
      forall i, j | 0 <= i < j < |r|
        ensures r[i].id < r[j].id && (r[i].cart != r[j].cart || r[i].product != r[j].product)
      {
        if j == |items| {
          assert r[i] == items[i];
          assert items[i] in items;
        }
      }
    }
  }

  /** One more unit on a line adds the product's price to the line total. */
  lemma LineTotalStep(catalog: Catalog, line: CartItem)
    requires line.product in catalog
    ensures LineTotal(catalog, line.(quantity := line.quantity + 1))
         == LineTotal(catalog, line) + catalog[line.product].price
  {
    var price := catalog[line.product].price;
    assert price * (line.quantity + 1) == price * line.quantity + price;
  }

  /** One add_to_cart leaves the lines of every other cart alone. */
  lemma AddLineOtherCarts(items: seq<CartItem>, cart: CartId, product: ProductId, freshId: ItemId, c: CartId)
    requires c != cart
    ensures Lines(AddLine(items, cart, product, freshId), c) == Lines(items, c)
  {
    match FindLine(items, cart, product)
    case Some(k) =>
      LinesUpdateOther(items, k, items[k].(quantity := items[k].quantity + 1), c);
    case None =>
      var line := CartItem(freshId, cart, product, 1);
      assert (items + [line])[..|items|] == items;
  }

  /** Appending a line adds its total to its own cart's total. */
  lemma CartTotalNewLine(catalog: Catalog, items: seq<CartItem>, line: CartItem)
    requires Priced(catalog, items) && line.product in catalog
    ensures Priced(catalog, items + [line])
    ensures CartTotal(catalog, Lines(items + [line], line.cart))
         == CartTotal(catalog, Lines(items, line.cart)) + LineTotal(catalog, line)
  {
    var r := items + [line];
    assert r[..|items|] == items;
    var a := Lines(items, line.cart);
    assert Lines(r, line.cart) == a + [line];
    assert (a + [line])[..|a|] == a;
  }

  /** One add_to_cart raises its cart's total by the product's current price. */
  lemma AddLineTotal(catalog: Catalog, items: seq<CartItem>, cart: CartId, product: ProductId, freshId: ItemId)
    requires Priced(catalog, items) && product in catalog
    ensures Priced(catalog, AddLine(items, cart, product, freshId))
    ensures CartTotal(catalog, Lines(AddLine(items, cart, product, freshId), cart))
         == CartTotal(catalog, Lines(items, cart)) + catalog[product].price
  {
    var r := AddLine(items, cart, product, freshId);
    match FindLine(items, cart, product)
    case Some(k) =>
      var x := items[k].(quantity := items[k].quantity + 1);
      assert r == items[k := x];
      CartTotalUpdate(catalog, items, k, x);
      LineTotalStep(catalog, items[k]);
    case None =>
      var line := CartItem(freshId, cart, product, 1);
      assert r == items + [line];
      CartTotalNewLine(catalog, items, line);
  }

  /** One add_to_cart of a catalog product into an existing cart keeps every line within bounds. */
  lemma AddLineWithin(catalog: Catalog, items: seq<CartItem>, cart: CartId, product: ProductId,
                      nextCart: CartId, nextItem: ItemId)
    requires LinesWithin(catalog, items, nextCart, nextItem)
    requires product in catalog && cart < nextCart
    ensures LinesWithin(catalog, AddLine(items, cart, product, nextItem), nextCart,
                        if FindLine(items, cart, product).Some? then nextItem else nextItem + 1)
  {
    var r := AddLine(items, cart, product, nextItem);
    match FindLine(items, cart, product)
    case Some(k) =>
      assert r == items[k := items[k].(quantity := items[k].quantity + 1)];
      forall l | l in r
        ensures l.product in catalog && l.quantity >= 1 && l.cart < nextCart && l.id < nextItem
      {
        var i :| 0 <= i < |r| && r[i] == l;
        assert items[i] in items;
      }
    case None =>
      assert r == items + [CartItem(nextItem, cart, product, 1)];
  }

  /**
   * What one add_to_cart does to the table, read through the quantity map and
   * the cart totals: one more unit of (cart, product), the cart's total up by
   * the product's price, and every other cart's lines as they were.
   */
  ghost predicate AddsOneUnit(catalog: Catalog, before: seq<CartItem>, after: seq<CartItem>, cart: CartId, product: ProductId) {
    && product in catalog && Priced(catalog, before) && Priced(catalog, after)
    && (forall c, p :: Quantity(after, c, p) == Quantity(before, c, p) + (if c == cart && p == product then 1 else 0))
    && CartTotal(catalog, Lines(after, cart)) == CartTotal(catalog, Lines(before, cart)) + catalog[product].price
    && (forall c :: c != cart ==> Lines(after, c) == Lines(before, c))
  }

  /** AddLine does exactly what AddsOneUnit describes. */
  lemma AddLineAddsOneUnit(catalog: Catalog, items: seq<CartItem>, cart: CartId, product: ProductId, freshId: ItemId)
    requires Priced(catalog, items) && product in catalog
    ensures AddsOneUnit(catalog, items, AddLine(items, cart, product, freshId), cart, product)
  {
    AddLineTotal(catalog, items, cart, product, freshId);
    forall c, p {
      AddLineQuantity(items, cart, product, freshId, c, p);
    }
    forall c | c != cart {
      AddLineOtherCarts(items, cart, product, freshId, c);
    }
  }

  /** Setting a quantity of at least 1 keeps every line within bounds. */
  lemma SetQuantityWithin(catalog: Catalog, items: seq<CartItem>, k: nat, q: nat, nextCart: CartId, nextItem: ItemId)
    requires LinesWithin(catalog, items, nextCart, nextItem)
    requires k < |items| && q >= 1
    ensures LinesWithin(catalog, SetQuantity(items, k, q), nextCart, nextItem)
    ensures WellKeyed(items) ==> WellKeyed(SetQuantity(items, k, q))
  {
    var r := SetQuantity(items, k, q);
    forall l | l in r
      ensures l.product in catalog && l.quantity >= 1 && l.cart < nextCart && l.id < nextItem
    {
      var i :| 0 <= i < |r| && r[i] == l;
      assert items[i] in items;
    }
  }

  /** The table after one add_to_cart per entry of `ids`, that entry being the id offered for a new line; RepeatedAdd holds whatever the ids are. */
  function AddEach(items: seq<CartItem>, cart: CartId, product: ProductId, ids: seq<ItemId>): seq<CartItem>
    decreases |ids|
  {
    if ids == [] then items
    else AddLine(AddEach(items, cart, product, ids[..|ids| - 1]), cart, product, ids[|ids| - 1])
  }

  /** Adding the same product n times raises its quantity by exactly n and no other quantity at all. */
  lemma {:induction false} RepeatedAdd(items: seq<CartItem>, cart: CartId, product: ProductId, ids: seq<ItemId>,
                                         c: CartId, p: ProductId)
    ensures Quantity(AddEach(items, cart, product, ids), c, p)
         == Quantity(items, c, p) + (if c == cart && p == product then |ids| else 0)
    decreases |ids|
  {
    if ids != [] {
      var init := ids[..|ids| - 1];
      RepeatedAdd(items, cart, product, init, c, p);
      AddLineQuantity(AddEach(items, cart, product, init), cart, product, ids[|ids| - 1], c, p);
    }
  }

  // ---------------------------------------------------------------- clearing a cart

  /** The CartItem table without the lines of `cart`. */
  function WithoutCart(items: seq<CartItem>, cart: CartId): (r: seq<CartItem>)
    ensures forall l :: l in r <==> l in items && l.cart != cart
    decreases |items|
  {
    if items == [] then []
    else
      var last := items[|items| - 1];
      WithoutCart(items[..|items| - 1], cart) + (if last.cart != cart then [last] else [])
  }

  /** Clearing a cart leaves it with no lines and every other cart with exactly the lines it had. */
  lemma {:induction false} WithoutCartLines(items: seq<CartItem>, cart: CartId, c: CartId)
    ensures Lines(WithoutCart(items, cart), c) == if c == cart then [] else Lines(items, c)
    decreases |items|
  {
    if items != [] {
      var init, last := items[..|items| - 1], items[|items| - 1];
      WithoutCartLines(init, cart, c);
      var tail := if last.cart != cart then [last] else [];
      LinesAppend(WithoutCart(init, cart), tail, c);
      if last.cart != cart {
        assert Lines(tail, c) == (if last.cart == c then [last] else []) by {
          assert tail[..0] == [];
        }
      }
    }
  }

  /** Appending a line with a larger id than every line and a key of its own keeps a table well keyed. */
  lemma AppendWellKeyed(w: seq<CartItem>, last: CartItem)
    requires WellKeyed(w)
    requires forall l :: l in w ==> l.id < last.id && (l.cart != last.cart || l.product != last.product)
    ensures WellKeyed(w + [last])
  {
    var r := w + [last];
    forall i, j | 0 <= i < j < |r|
      ensures r[i].id < r[j].id && (r[i].cart != r[j].cart || r[i].product != r[j].product)
    {
      assert r[i] == w[i] && w[i] in w;
      if j < |w| {
        assert r[j] == w[j];
      }
    }
  }

  /** In a well-keyed table the last line has a larger id and another key than every line before it. */
  lemma LastIsNewest(items: seq<CartItem>)
    requires WellKeyed(items) && items != []
    ensures forall l :: l in items[..|items| - 1] ==>
      l.id < items[|items| - 1].id && (l.cart != items[|items| - 1].cart || l.product != items[|items| - 1].product)
  {
    var init := items[..|items| - 1];
    forall l | l in init
      ensures l.id < items[|items| - 1].id && (l.cart != items[|items| - 1].cart || l.product != items[|items| - 1].product)
    {
      var j :| 0 <= j < |init| && init[j] == l;
      assert items[j] == l;
    }
  }

  /** Deleting one cart's lines keeps the table well keyed. */
  lemma {:induction false} WithoutCartWellKeyed(items: seq<CartItem>, cart: CartId)
    requires WellKeyed(items)
    ensures WellKeyed(WithoutCart(items, cart))
    decreases |items|
  {
    if items != [] {
      var init, last := items[..|items| - 1], items[|items| - 1];
      WithoutCartWellKeyed(init, cart);
      var w := WithoutCart(init, cart);
      if last.cart != cart {
        LastIsNewest(items);
        AppendWellKeyed(w, last);
      } else {
        assert WithoutCart(items, cart) == w + [];
      }
    }
  }

  /** What deleting one cart's lines does: that cart has none left and every other cart keeps its lines. */
  ghost predicate ClearsCart(before: seq<CartItem>, after: seq<CartItem>, cart: CartId) {
    && Lines(after, cart) == []
    && (forall c :: c != cart ==> Lines(after, c) == Lines(before, c))
  }

  /** WithoutCart does exactly what ClearsCart describes. */
  lemma WithoutCartClears(items: seq<CartItem>, cart: CartId)
    ensures ClearsCart(items, WithoutCart(items, cart), cart)
  {
    forall c {
      WithoutCartLines(items, cart, c);
    }
  }

  /** A cart id that no line mentions has no lines. */
  lemma LinesOfUnused(items: seq<CartItem>, cart: CartId)
    requires forall l :: l in items ==> l.cart != cart
    ensures Lines(items, cart) == []
  {
  }

  // ---------------------------------------------------------------- checkout

  /** The order items that checkout writes, one per cart line, at the products' current prices. */
  function FrozenItems(catalog: Catalog, lines: seq<CartItem>): (r: seq<OrderItem>)
    requires Priced(catalog, lines)
    ensures |r| == |lines|
    ensures forall i :: 0 <= i < |lines| ==>
      r[i] == OrderItem(lines[i].product, catalog[lines[i].product].price, lines[i].quantity)
    decreases |lines|
  {
    if lines == [] then []
    else
      var last := lines[|lines| - 1];
      FrozenItems(catalog, lines[..|lines| - 1]) + [OrderItem(last.product, catalog[last.product].price, last.quantity)]
  }

  /** The total that checkout freezes is the one the order's items sum to. */
  lemma {:induction false} FrozenTotal(catalog: Catalog, lines: seq<CartItem>)
    requires Priced(catalog, lines)
    ensures CalculateTotal(FrozenItems(catalog, lines)) == CartTotal(catalog, lines)
    decreases |lines|
  {
    if lines != [] {
      var init := lines[..|lines| - 1];
      FrozenTotal(catalog, init);
      var f := FrozenItems(catalog, lines);
      assert f[..|f| - 1] == FrozenItems(catalog, init);
    }
  }

  // ---------------------------------------------------------------- order queries

  /** The orders of one user, in table order. */
  function UserOrders(orders: seq<Order>, user: UserId): (r: seq<Order>)
    ensures forall o :: o in r <==> o in orders && o.user == user
    decreases |orders|
  {
    if orders == [] then []
    else
      var last := orders[|orders| - 1];
      UserOrders(orders[..|orders| - 1], user) + (if last.user == user then [last] else [])
  }

  /** The order of `user` with the largest id, or None when the user has no order. */
  function LatestOrder(orders: seq<Order>, user: UserId): (r: Option<Order>)
    ensures r.None? <==> forall o :: o in orders ==> o.user != user
    ensures r.Some? ==> r.value in orders && r.value.user == user
    ensures r.Some? ==> forall o :: o in orders && o.user == user ==> o.id <= r.value.id
    decreases |orders|
  {
    if orders == [] then None
    else
      var last := orders[|orders| - 1];
      var rest := LatestOrder(orders[..|orders| - 1], user);
      assert orders == orders[..|orders| - 1] + [last];
      if last.user != user then rest
      else if rest.None? || rest.value.id < last.id then Some(last)
      else rest
  }

  /** Ids and creation times never disagree: an order with a larger id is not older. */
  predicate ClockFollowsIds(orders: seq<Order>) {
    forall o1, o2 :: o1 in orders && o2 in orders && o1.id <= o2.id ==> o1.createdAt <= o2.createdAt
  }

  /** The clock moves forward between any two orders: an order with a larger id is strictly newer. */
  predicate ClockStrictlyFollowsIds(orders: seq<Order>) {
    forall o1, o2 :: o1 in orders && o2 in orders && o1.id < o2.id ==> o1.createdAt < o2.createdAt
  }

  /** The newest-first listing of a user holds exactly that user's orders. */
  lemma ListedAreMine(orders: seq<Order>, user: UserId)
    ensures forall o :: o in SortNewestFirst(UserOrders(orders, user)) <==> o in orders && o.user == user
  {
    var mine := UserOrders(orders, user);
    var listed := SortNewestFirst(mine);
    forall o
      ensures o in listed <==> o in mine
    {
      assert o in listed <==> o in multiset(listed);
      assert o in mine <==> o in multiset(mine);
    }
  }

  /**
   * When the clock never runs backwards along order ids, the order that
   * order_detail picks (the largest id) is created at the same moment as the
   * first order of the newest-first listing. The two may still be different
   * orders that share a timestamp.
   */
  lemma LatestIsListedFirst(orders: seq<Order>, user: UserId)
    requires ClockFollowsIds(orders)
    requires LatestOrder(orders, user).Some?
    ensures SortNewestFirst(UserOrders(orders, user)) != []
    ensures SortNewestFirst(UserOrders(orders, user))[0].createdAt == LatestOrder(orders, user).value.createdAt
  {
    var latest := LatestOrder(orders, user).value;
    var listed := SortNewestFirst(UserOrders(orders, user));
    ListedAreMine(orders, user);
    assert latest in listed;
    var k :| 0 <= k < |listed| && listed[k] == latest;
    var head := listed[0];
    assert head in listed;
    assert head.id <= latest.id;
    if k > 0 {
      assert head.createdAt >= listed[k].createdAt;
    }
  }

  /**
   * Two adds of a 10.00 product and one add of a 5.50 product into cart 0
   * leave one line of quantity 2 and one of quantity 1; the cart totals 25.50,
   * and so does the order that checkout builds from it. The order keeps that
   * total when the first product is repriced to 12.00, although the same lines
   * would then total 29.50 at the new price.
   */
  lemma WorkedExample()
    ensures
      var catalog := map[1 := Listing(1000, true), 2 := Listing(550, true)];
      var items := AddLine(AddLine(AddLine([], 0, 1, 0), 0, 1, 1), 0, 2, 1);
      && Priced(catalog, Lines(items, 0))
      && CartTotal(catalog, Lines(items, 0)) == 2550
      && CalculateTotal(FrozenItems(catalog, Lines(items, 0))) == 2550
      && CartTotal(catalog[1 := Listing(1200, true)], Lines(items, 0)) == 2950
  {
    var catalog := map[1 := Listing(1000, true), 2 := Listing(550, true)];
    var a := AddLine([], 0, 1, 0);
    assert a == [CartItem(0, 0, 1, 1)];
    var b := AddLine(a, 0, 1, 1);
    assert FindLine(a, 0, 1) == Some(0);
    assert b == [CartItem(0, 0, 1, 2)];
    var c := AddLine(b, 0, 2, 1);
    assert FindLine(b, 0, 2) == None;
    assert c == [CartItem(0, 0, 1, 2), CartItem(1, 0, 2, 1)];
    assert Lines(c, 0) == c by {
      assert c[..1] == [CartItem(0, 0, 1, 2)];
      assert c[..1][..0] == [];
    }
    assert CartTotal(catalog, c) == 2550 by {
      assert c[..1] == [CartItem(0, 0, 1, 2)];
      assert c[..1][..0] == [];
      assert CartTotal(catalog, c[..1]) == 2000;
    }
    FrozenTotal(catalog, c);
    var repriced := catalog[1 := Listing(1200, true)];
    assert CartTotal(repriced, c) == 2950 by {
      assert c[..1] == [CartItem(0, 0, 1, 2)];
      assert c[..1][..0] == [];
      assert CartTotal(repriced, c[..1]) == 2400;
    }
  }
}
