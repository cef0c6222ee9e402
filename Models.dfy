/**
 * The store's model layer: the rows that the cart and the checkout work on,
 * the slug rule that Category and Product apply when saved, and the totals
 * computed from rows. Money is an integer number of cents, since every price
 * column holds a decimal with two places.
 */
module Models {
  import opened Wrappers

  type Cents = int
  type UserId = nat
  type ProductId = nat
  type CartId = nat
  type ItemId = nat
  type OrderId = nat

  /** The columns of a Product row that the cart and the checkout read. */
  datatype Listing = Listing(price: Cents, available: bool)

  /** The product table, by id. */
  type Catalog = map<ProductId, Listing>

  /** A CartItem row: `quantity` units of `product` in the cart `cart`. */
  datatype CartItem = CartItem(id: ItemId, cart: CartId, product: ProductId, quantity: nat)

  /** An OrderItem row; `price` is a copy taken at checkout, not a reference to the catalog. */
  datatype OrderItem = OrderItem(product: ProductId, price: Cents, quantity: nat)

  /** The single entry of the order status choices. */
  datatype Status = Completed

  /** The shipping columns of an order, taken as the customer typed them. */
  datatype Shipping = Shipping(fullName: string, address: string, city: string, pincode: string, phone: string)

  datatype Order = Order(id: OrderId, user: UserId, createdAt: nat, status: Status,
                         shipping: Shipping, total: Cents, items: seq<OrderItem>)

  // ---------------------------------------------------------------- status

  /** The one-letter code stored for a status. */
  function StatusCode(s: Status): char {
    match s
    case Completed => 'C'
  }

  /** The status that a stored code stands for, if the code is one of the choices. */
  function ParseStatus(code: char): Option<Status> {
    if code == 'C' then Some(Completed) else None
  }

  /** The default of the status column. */
  const DEFAULT_STATUS: Status := Completed

  /** Codes and statuses correspond one to one, and the default is stored as 'C'. */
  lemma StatusChoices(s: Status, code: char)
    ensures ParseStatus(StatusCode(s)) == Some(s)
    ensures ParseStatus(code).Some? ==> StatusCode(ParseStatus(code).value) == code
    ensures StatusCode(DEFAULT_STATUS) == 'C'
  {
  }

  // ---------------------------------------------------------------- slugs

  /** A Category instance in memory, before and after it is saved. */
  class Category {
    var name: string
    var slug: string

    constructor (name: string, slug: string)
      ensures this.name == name && this.slug == slug
    {
      this.name := name;
      this.slug := slug;
    }

    /** Saving fills an empty slug from the name and never overwrites a given one. */
    method Save(slugify: string -> string)
      modifies this`slug
      ensures slug == (if old(slug) == "" then slugify(name) else old(slug))
    {
      if slug == "" {
        slug := slugify(name);
      }
    }
  }

  /**
   * A Product instance in memory, before and after it is saved. Only `Save`
   * uses it; the shop reads the price and availability columns from the
   * catalogue, where each product is a `Listing`.
   */
  class Product {
    var name: string
    var slug: string
    var price: Cents
    var available: bool

    constructor (name: string, slug: string, price: Cents, available: bool)
      ensures this.name == name && this.slug == slug
      ensures this.price == price && this.available == available
    {
      this.name := name;
      this.slug := slug;
      this.price := price;
      this.available := available;
    }

    /** Saving fills an empty slug from the name and never overwrites a given one. */
    method Save(slugify: string -> string)
      modifies this`slug
      ensures slug == (if old(slug) == "" then slugify(name) else old(slug))
    {
      if slug == "" {
        slug := slugify(name);
      }
    }
  }

  // ---------------------------------------------------------------- cart totals

  /** Every line names a product of the catalog. */
  predicate Priced(catalog: Catalog, lines: seq<CartItem>) {
    forall l :: l in lines ==> l.product in catalog
  }

  /** The total of one cart line, at the product's current price. */
  function LineTotal(catalog: Catalog, line: CartItem): Cents
    requires line.product in catalog
  {
    catalog[line.product].price * line.quantity
  }

  /** The sum of the line totals. */
  function CartTotal(catalog: Catalog, lines: seq<CartItem>): Cents
    requires Priced(catalog, lines)
    decreases |lines|
  {
    if lines == [] then 0
    else CartTotal(catalog, lines[..|lines| - 1]) + LineTotal(catalog, lines[|lines| - 1])
  }

  /** The lines of one cart, in table order. */
  function Lines(items: seq<CartItem>, cart: CartId): (r: seq<CartItem>)
    ensures forall l :: l in r <==> l in items && l.cart == cart
    ensures |r| <= |items|
    decreases |items|
  {
    if items == [] then []
    else
      var last := items[|items| - 1];
      Lines(items[..|items| - 1], cart) + (if last.cart == cart then [last] else [])
  }

  /** The total of a cart is additive over a split of its lines. */
  lemma {:induction false} CartTotalAppend(catalog: Catalog, a: seq<CartItem>, b: seq<CartItem>)
    requires Priced(catalog, a) && Priced(catalog, b)
    ensures Priced(catalog, a + b)
    ensures CartTotal(catalog, a + b) == CartTotal(catalog, a) + CartTotal(catalog, b)
    decreases |b|
  {
    if b == [] {
      assert a + b == a;
    } else {
      var init := b[..|b| - 1];
      CartTotalAppend(catalog, a, init);
      assert (a + b)[..|a + b| - 1] == a + init;
    }
  }

  /** The lines of a cart in a split table are the lines in each part. */
  lemma {:induction false} LinesAppend(a: seq<CartItem>, b: seq<CartItem>, cart: CartId)
    ensures Lines(a + b, cart) == Lines(a, cart) + Lines(b, cart)
    decreases |b|
  {
    if b == [] {
      assert a + b == a;
    } else {
      var init, last := b[..|b| - 1], b[|b| - 1];
      var tail := if last.cart == cart then [last] else [];
      LinesAppend(a, init, cart);
      assert (a + b)[..|a + b| - 1] == a + init;
      assert (a + b)[|a + b| - 1] == last;
      calc {
        Lines(a + b, cart);
        Lines(a + init, cart) + tail;
        (Lines(a, cart) + Lines(init, cart)) + tail;
        Lines(a, cart) + (Lines(init, cart) + tail);
        Lines(a, cart) + Lines(b, cart);
      }
    }
  }

  /** The lines of cart `cart` split around the line at index `k`. */
  lemma LinesSplit(items: seq<CartItem>, k: nat, cart: CartId)
    requires k < |items|
    ensures Lines(items, cart)
         == Lines(items[..k], cart) + (if items[k].cart == cart then [items[k]] else []) + Lines(items[k + 1..], cart)
  {
    var a, b := items[..k], items[k + 1..];
    assert items == a + [items[k]] + b;
    LinesAppend(a + [items[k]], b, cart);
    LinesAppend(a, [items[k]], cart);
    assert [items[k]][..0] == [];
  }

  /** The total of cart `cart` splits around the line at index `k`. */
  lemma CartTotalSplit(catalog: Catalog, items: seq<CartItem>, k: nat, cart: CartId)
    requires k < |items| && Priced(catalog, items)
    ensures Priced(catalog, Lines(items[..k], cart)) && Priced(catalog, Lines(items[k + 1..], cart))
    ensures CartTotal(catalog, Lines(items, cart))
         == CartTotal(catalog, Lines(items[..k], cart))
          + (if items[k].cart == cart then LineTotal(catalog, items[k]) else 0)
          + CartTotal(catalog, Lines(items[k + 1..], cart))
  {
    var a, b := Lines(items[..k], cart), Lines(items[k + 1..], cart);
    var mid := if items[k].cart == cart then [items[k]] else [];
    LinesSplit(items, k, cart);
    CartTotalAppend(catalog, a + mid, b);
    CartTotalAppend(catalog, a, mid);
    assert mid != [] ==> mid[..0] == [];
  }

  // ---------------------------------------------------------------- cart lines as a map

  /** What line `l` contributes to the quantity of (cart, product). */
  function Share(l: CartItem, cart: CartId, product: ProductId): nat {
    if l.cart == cart && l.product == product then l.quantity else 0
  }

  /** The quantity of `product` in `cart`: the table read as a map from (cart, product) to quantity. */
  function Quantity(items: seq<CartItem>, cart: CartId, product: ProductId): nat
    decreases |items|
  {
    if items == [] then 0
    else Quantity(items[..|items| - 1], cart, product) + Share(items[|items| - 1], cart, product)
  }

  /** Line ids increase along the table, and a cart has at most one line per product. */
  predicate WellKeyed(items: seq<CartItem>) {
    forall i, j :: 0 <= i < j < |items| ==>
      items[i].id < items[j].id &&
      (items[i].cart != items[j].cart || items[i].product != items[j].product)
  }

  /** The quantity of (cart, product) is additive over a split of the table. */
  lemma {:induction false} QuantityAppend(a: seq<CartItem>, b: seq<CartItem>, cart: CartId, product: ProductId)
    ensures Quantity(a + b, cart, product) == Quantity(a, cart, product) + Quantity(b, cart, product)
    decreases |b|
  {
    if b == [] {
      assert a + b == a;
    } else {
      QuantityAppend(a, b[..|b| - 1], cart, product);
      assert (a + b)[..|a + b| - 1] == a + b[..|b| - 1];
    }
  }

  /** The quantity of (cart, product) splits around the line at index `k`. */
  lemma QuantitySplit(items: seq<CartItem>, k: nat, cart: CartId, product: ProductId)
    requires k < |items|
    ensures Quantity(items, cart, product)
         == Quantity(items[..k], cart, product) + Share(items[k], cart, product)
          + Quantity(items[k + 1..], cart, product)
  {
    var a, b := items[..k], items[k + 1..];
    assert items == a + [items[k]] + b;
    QuantityAppend(a + [items[k]], b, cart, product);
    QuantityAppend(a, [items[k]], cart, product);
    assert [items[k]][..0] == [];
  }

  /** No line of (cart, product): its quantity is 0. */
  lemma {:induction false} QuantityAbsent(items: seq<CartItem>, cart: CartId, product: ProductId)
    requires forall l :: l in items ==> l.cart != cart || l.product != product
    ensures Quantity(items, cart, product) == 0
    decreases |items|
  {
    if items != [] {
      QuantityAbsent(items[..|items| - 1], cart, product);
    }
  }

  /** In a well-keyed table the quantity of a line's key is that line's quantity. */
  lemma QuantityOfLine(items: seq<CartItem>, k: nat)
    requires WellKeyed(items) && k < |items|
    ensures Quantity(items, items[k].cart, items[k].product) == items[k].quantity
  {
    var c, p := items[k].cart, items[k].product;
    QuantitySplit(items, k, c, p);
    forall l | l in items[..k]
      ensures l.cart != c || l.product != p
    {
      var i :| 0 <= i < k && items[..k][i] == l;
      assert items[i] == l;
    }
    forall l | l in items[k + 1..]
      ensures l.cart != c || l.product != p
    {
      var i :| 0 <= i < |items| - k - 1 && items[k + 1..][i] == l;
      assert items[k + 1 + i] == l;
    }
    QuantityAbsent(items[..k], c, p);
    QuantityAbsent(items[k + 1..], c, p);
  }

  // ---------------------------------------------------------------- order totals

  /** OrderItem.get_cost: the stored price times the quantity. */
  function ItemCost(item: OrderItem): Cents {
    item.price * item.quantity
  }

  /** Order.calculate_total: the sum of the item costs. */
  function CalculateTotal(items: seq<OrderItem>): Cents
    decreases |items|
  {
    if items == [] then 0
    else CalculateTotal(items[..|items| - 1]) + ItemCost(items[|items| - 1])
  }

  /** The computed total of an order is additive over a split of its items. */
  lemma {:induction false} CalculateTotalAppend(a: seq<OrderItem>, b: seq<OrderItem>)
    ensures CalculateTotal(a + b) == CalculateTotal(a) + CalculateTotal(b)
    decreases |b|
  {
    if b == [] {
      assert a + b == a;
    } else {
      CalculateTotalAppend(a, b[..|b| - 1]);
      assert (a + b)[..|a + b| - 1] == a + b[..|b| - 1];
    }
  }

  // ---------------------------------------------------------------- order ordering

  /** The default ordering of orders: newest first by creation time. */
  predicate NewestFirst(orders: seq<Order>) {
    forall i, j :: 0 <= i < j < |orders| ==> orders[i].createdAt >= orders[j].createdAt
  }

  /** An order no older than every order of a newest-first sequence may go in front of it. */
  lemma NewestFirstCons(head: Order, rest: seq<Order>)
    requires NewestFirst(rest)
    requires forall x :: x in rest ==> x.createdAt <= head.createdAt
    ensures NewestFirst([head] + rest)
  {
    var r := [head] + rest;
    forall i, j | 0 <= i < j < |r|
      ensures r[i].createdAt >= r[j].createdAt
    {
      assert r[j] == rest[j - 1];
      if i > 0 {
        assert r[i] == rest[i - 1];
      }
    }
  }

  /** The tail of a newest-first sequence is newest first, and no order in it is newer than the head. */
  lemma NewestFirstTail(orders: seq<Order>)
    requires NewestFirst(orders) && orders != []
    ensures NewestFirst(orders[1..])
    ensures forall x :: x in orders[1..] ==> x.createdAt <= orders[0].createdAt
  {
    var tail := orders[1..];
    forall x | x in tail
      ensures x.createdAt <= orders[0].createdAt
    {
      var j :| 0 <= j < |tail| && tail[j] == x;
      assert orders[j + 1] == x;
    }
    forall i, j | 0 <= i < j < |tail|
      ensures tail[i].createdAt >= tail[j].createdAt
    {
      assert tail[i] == orders[i + 1] && tail[j] == orders[j + 1];
    }
  }

  /** A bound on creation times that holds for `tail` and for `o` holds for any rearrangement of both. */
  lemma BoundKept(o: Order, tail: seq<Order>, rest: seq<Order>, bound: int)
    requires multiset(rest) == multiset(tail) + multiset{o}
    requires forall x :: x in tail ==> x.createdAt <= bound
    requires o.createdAt <= bound
    ensures forall x :: x in rest ==> x.createdAt <= bound
  {
    forall x | x in rest
      ensures x.createdAt <= bound
    {
      assert x in multiset(rest);
      if x != o {
        assert x in multiset(tail);
      }
    }
  }

  /** Puts `o` into a newest-first sequence, before every order that is not newer. */
  function InsertByCreation(o: Order, orders: seq<Order>): (r: seq<Order>)
    requires NewestFirst(orders)
    ensures NewestFirst(r)
    ensures multiset(r) == multiset(orders) + multiset{o}
    decreases |orders|
  {
    if orders == [] || o.createdAt >= orders[0].createdAt then
      NewestFirstCons(o, orders);
      [o] + orders
    else
      var head, tail := orders[0], orders[1..];
      assert orders == [head] + tail;
      NewestFirstTail(orders);
      var rest := InsertByCreation(o, tail);
      BoundKept(o, tail, rest, head.createdAt);
      NewestFirstCons(head, rest);
      [head] + rest
  }

  /** The orders rearranged newest first. */
  function SortNewestFirst(orders: seq<Order>): (r: seq<Order>)
    ensures NewestFirst(r)
    ensures multiset(r) == multiset(orders)
    decreases |orders|
  {
    if orders == [] then []
    else
      assert orders == [orders[0]] + orders[1..];
      InsertByCreation(orders[0], SortNewestFirst(orders[1..]))
  }
}
