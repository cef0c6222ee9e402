# Store cart and order bookkeeping, in Dafny

A model of the shopping-cart and order core of a small Django storefront
(the `store` app). The ORM tables become values held by one object:

- the product catalogue, as product id ↦ (price in cents, available);
- the cart of each user, as user ↦ cart id;
- the CartItem table, as a sequence of rows (line id, cart, product, quantity);
- the order log, as a sequence of orders, each carrying its id, user,
  creation time, status, shipping fields, stored total and order items.

Prices are integer cents, since every price column is a decimal with two
places. The views `_get_or_create_cart`, `add_to_cart`, `remove_from_cart`,
`update_cart_item`, `checkout`, `order_list` and `order_detail` are methods of
the class `Views.Shop`. The model functions `Cart.total_price`,
`CartItem.total_price`, `Order.calculate_total` and `OrderItem.get_cost` are
recursive functions in module `Models`, together with the slug rule of
`Category.save`/`Product.save`, the order status choices and the newest-first
ordering of orders. Module `Queries` holds the lookups and table updates the
views run through the ORM, written as functions on rows. It also holds what
each update does to the table read as a map from (cart, product) to quantity,
and to each cart's total.

Every method of `Views.Shop` keeps the invariant `Valid()` (`Views.StoreWithin`):

- one cart per user;
- at most one line per (cart, product), each for a catalogue product, with a
  quantity of at least 1, in the cart of some user (`Views.LinesOwned`), and
  line ids increasing along the table;
- order ids increasing along the log;
- every order's stored total equal to the sum of its items' price × quantity.

A state-changing method states its new state as a function of the old one
(`cartItems == AddLine(old(cartItems), …)`). Lemmas next to those functions
state what that update means.

Files: `Wrappers.dfy` (Option), `Models.dfy` (store/models.py), `Queries.dfy`
and `Views.dfy` (store/views.py).

Three behaviours of the code that a reader may not expect; the model keeps
each as the code has it:

- `checkout` calls `_get_or_create_cart` before it tests for an empty cart, so
  an empty-cart checkout by a user with no cart still creates that cart. It
  creates no order and changes no line.
- `order_detail` picks the order with the largest id (`order_by('-id')`), while
  `order_list` sorts by creation time (`order_by('-created_at')`). When the clock never runs backwards along order ids,
  `Queries.LatestIsListedFirst` shows that the order `order_detail` shows was
  created at the same moment as the first order `order_list` shows; two orders
  with equal timestamps may still differ. When the clock moves forward between
  any two orders, `Views.LatestIsListedHead` shows they are the same order.
- The newest-first listing is non-increasing in creation time, not strictly
  decreasing: two orders may share a timestamp.

## Model

| member | source | states |
|---|---|---|
| Models.StatusChoices | store/models.py:69-76 | 'C' is the only status code: it stands for Completed and back, and it is the default |
| Models.Category.Save | store/models.py:18-21 | saving a category with an empty slug sets it to slugify(name); a non-empty slug is kept |
| Models.Product.Save | store/models.py:40-43 | the same slug rule for products |
| Models.Lines | store/models.py:50-51 | `cart.items`: a row is among a cart's lines exactly when it is in the table and belongs to that cart |
| Models.LineTotal | store/models.py:61-62 | `CartItem.total_price`: the product's current catalogue price times the line's quantity |
| Models.CartTotal | store/models.py:50-51 | `Cart.total_price`: the sum of the line totals of the given lines, 0 for no lines |
| Models.ItemCost | store/models.py:102-103 | `OrderItem.get_cost`: the price stored in the order item times its quantity; the catalogue is not read |
| Models.CalculateTotal | store/models.py:89-90 | `Order.calculate_total`: the sum of the item costs, 0 for no items |
| Models.CartTotalAppend | store/models.py:50-51 | a cart total is additive over any split of its lines, with the empty cart totalling 0 |
| Models.LinesAppend | store/models.py:50-51 | the lines of a cart in a concatenated table are its lines in each part, in order |
| Models.LinesSplit | store/models.py:50-51 | a cart's lines split around any row of the table |
| Models.CartTotalSplit | store/models.py:50-62 | a cart total splits around any row, which adds its price × quantity exactly when it is in the cart |
| Models.QuantityAppend | store/models.py:56-59 | the quantity of a (cart, product) is additive over a split of the table |
| Models.QuantitySplit | store/models.py:56-59 | the quantity of a (cart, product) splits around any row |
| Models.QuantityAbsent | store/models.py:56-59 | with no line for a (cart, product), its quantity is 0 |
| Models.QuantityOfLine | store/views.py:78 | with one line per (cart, product), the quantity of a line's key is that line's quantity |
| Models.CalculateTotalAppend | store/models.py:89-90 | an order's computed total is additive over a split of its items |
| Models.NewestFirstCons | store/models.py:92-93 | an order no older than the rest may lead a newest-first sequence |
| Models.NewestFirstTail | store/models.py:92-93 | the tail of a newest-first sequence is newest first and none of it is newer than the head |
| Models.BoundKept | store/models.py:92-93 | a creation-time bound on a sequence and one more order holds for every rearrangement of them |
| Models.InsertByCreation | store/models.py:92-93 | inserting into a newest-first sequence keeps it newest first and adds exactly that order |
| Models.SortNewestFirst | store/models.py:92-93 | `ordering = ['-created_at']`: the result is newest first and a permutation of the input |
| Queries.FindItem | store/views.py:96 | the primary-key lookup finds a row with that id, or there is none |
| Queries.FindLine | store/views.py:78 | the (cart, product) lookup finds a row with that key, or there is none |
| Queries.SetQuantity | store/views.py:110-111 | `item.quantity = qty; item.save()`: the table with row k's quantity replaced by q, every other column and row as before |
| Queries.RemoveAt | store/views.py:97 | `item.delete()`: the table without row k, the other rows in their order |
| Queries.AddLine | store/views.py:78-81 | `get_or_create` then `quantity += 1`: the existing (cart, product) row with one more unit, or else a new row with the offered id and quantity 1 |
| Queries.SetQuantityRows | store/views.py:110-111 | after saving a quantity, every row was already there or lies in the same cart |
| Queries.AddLineRows | store/views.py:78-81 | after add_to_cart, every row was already there or lies in the cart added to |
| Queries.QuantityUpdate | store/views.py:110-111 | rewriting a row changes the quantity of a key only by the difference the row makes to it |
| Queries.LinesUpdateOther | store/views.py:110-111 | rewriting a row in place leaves every other cart's lines alone |
| Queries.CartTotalUpdate | store/views.py:110-111 | rewriting a row of a cart changes that cart's total by the difference of the two line totals |
| Queries.RemoveAtEffect | store/views.py:97 | deleting a row takes exactly its quantity off its key and its line total off its own cart |
| Queries.RemoveAtWellKeyed | store/views.py:97 | deleting a row keeps one line per key and increasing ids, and adds no row |
| Queries.RemoveAtDropsId | store/views.py:96-97 | after the deletion no row carries the deleted id |
| Queries.RemoveAtDropsLine | store/views.py:96-97 | `item.delete()`: the id is gone, its key loses its quantity, its cart loses its line total, all else is as it was |
| Queries.SetQuantitySets | store/views.py:109-111 | `item.quantity = qty`: the line's key now holds qty and every other key is unchanged |
| Queries.RemoveAtSetsZero | store/views.py:107-108 | a quantity below 1 deletes the line: its key holds 0 and every other key is unchanged |
| Queries.AddLineQuantity | store/views.py:78-81 | add_to_cart adds exactly one unit to its own (cart, product), whether the line is new (quantity 1) or not, and nothing to any other key |
| Queries.AddLineWellKeyed | store/views.py:78-81 | add_to_cart keeps one line per key, and creates a line exactly when there was none |
| Queries.LineTotalStep | store/models.py:61-62 | one more unit raises a line's total by the product's price |
| Queries.AddLineOtherCarts | store/views.py:78-81 | add_to_cart leaves every other cart's lines alone |
| Queries.CartTotalNewLine | store/models.py:50-51 | a new line adds its own total to its cart |
| Queries.AddLineTotal | store/views.py:78-81 | after add_to_cart the cart total is the previous total plus the product's price |
| Queries.AddLineWithin | store/views.py:78-81 | add_to_cart keeps every line for a catalogue product with quantity ≥ 1, using up a line id only when it creates a line |
| Queries.AddLineAddsOneUnit | store/views.py:78-81 | one add_to_cart: one more unit of the key, the cart total up by the price, other carts unchanged |
| Queries.SetQuantityWithin | store/views.py:110-111 | a quantity of at least 1 keeps the line invariant and one line per key |
| Queries.RepeatedAdd | store/views.py:78-81 | n add_to_cart calls for the same product raise its quantity by exactly n and leave every other key alone |
| Queries.WithoutCart | store/views.py:139 | `cart.items.all().delete()`: exactly the rows of other carts remain |
| Queries.WithoutCartLines | store/views.py:139 | after clearing, the cart has no lines and every other cart keeps its lines |
| Queries.AppendWellKeyed | store/views.py:78 | appending a line with a larger id and a key of its own keeps the table well keyed |
| Queries.LastIsNewest | store/views.py:78 | in a well-keyed table the last row has the largest id and a key of its own |
| Queries.WithoutCartWellKeyed | store/views.py:139 | clearing a cart keeps one line per key and increasing ids |
| Queries.WithoutCartClears | store/views.py:139 | clearing a cart leaves it with zero lines while every other cart keeps its lines |
| Queries.LinesOfUnused | store/views.py:69-71 | a cart id no row refers to, such as a freshly created cart, has no lines |
| Queries.FrozenItems | store/views.py:130-137 | one order item per cart line, in order, with the line's product, the product's current price and the line's quantity |
| Queries.FrozenTotal | store/views.py:127-137 | the order items built at checkout sum to the cart's total_price at that moment |
| Queries.UserOrders | store/views.py:151 | `filter(user=…)`: exactly the orders of that user |
| Queries.LatestOrder | store/views.py:168 | `order_by('-id').first()`: none exactly when the user has no order, else one of the user's orders with the largest id |
| Queries.ListedAreMine | store/views.py:151 | the newest-first listing holds exactly the user's orders |
| Queries.LatestIsListedFirst | store/views.py:151-168 | when ids follow the clock, the order of order_detail has the creation time of the first order of order_list (it may be another order with the same timestamp) |
| Queries.WorkedExample | store/views.py:76-139 | adds of 2 × 10.00 and 1 × 5.50 give a 25.50 cart and order, and the order keeps 25.50 after a later price change |
| Views.WithCart | store/views.py:70 | `Cart.objects.get_or_create(user=…)`: the cart map unchanged when the user has a cart, else extended with a cart of the next free id |
| Views.AppendOrderWithin | store/views.py:125-128 | saving an order with the next id and a consistent total keeps the order log well formed |
| Views.CreateCartWithin | store/views.py:69-71 | get_or_create of a cart keeps the shop invariant, and a created cart has no lines |
| Views.AddLineStoreWithin | store/views.py:78-81 | add_to_cart of a catalogue product into a user's cart keeps the shop invariant, every line still in some user's cart |
| Views.RemoveAtStoreWithin | store/views.py:97 | deleting a line keeps the shop invariant |
| Views.SetQuantityStoreWithin | store/views.py:110-111 | setting a quantity of at least 1 keeps the shop invariant |
| Views.PlaceOrderStoreWithin | store/views.py:125-139 | saving the order and clearing the cart keeps the shop invariant |
| Views.LatestIsListedHead | store/views.py:151-168 | with increasing ids and a clock that moves forward between orders, the order of order_detail is the first order of order_list |
| Views.ListedOrders | store/views.py:151-162 | every listed order is a stored order of that user whose stored total is the sum of its items |
| Views.Shop.OwnedItem | store/views.py:96 | `get_object_or_404(CartItem, id=…, cart__user=…)`: the row with that id in the user's cart, or none when no such row is in the user's cart |
| Views.Shop.GetOrCreateCart | store/views.py:69-71 | returns the user's cart, creating one with a fresh id and no lines only when the user has none |
| Views.Shop.AddToCart | store/views.py:74-83 | not found (carts, lines and id counters unchanged) exactly when the product is missing or unavailable; otherwise the cart exists, the table is AddLine of the old one, and a cart id or line id is used up only when a cart or line is created |
| Views.Shop.RemoveFromCart | store/views.py:94-99 | not found (nothing changes) exactly when no row with that id is in the user's cart; otherwise that row is deleted |
| Views.Shop.UpdateCartItem | store/views.py:102-112 | not found exactly when the id is not in the user's cart; a GET changes nothing; a posted qty < 1 deletes the row, any other qty becomes its quantity |
| Views.Shop.FreezeLines | store/views.py:130-137 | the loop builds exactly FrozenItems: per line, its product, current price and quantity |
| Views.Shop.PlaceOrder | store/views.py:124-139 | appends one Completed order with the next id, the cart total and the frozen items, then clears the cart |
| Views.Shop.Checkout | store/views.py:115-146 | the cart exists afterwards, a cart id used up only if it was created; empty cart: no order; no valid form: form shown; both leave lines, orders and the order counter unchanged; otherwise one order as above with the next order id, whose items sum to its total, and the cart emptied |
| Views.Shop.OrderTotal | store/views.py:158-160 | the loop's total is calculate_total of the order's items |
| Views.Shop.OrderList | store/views.py:149-164 | the user's orders newest first, a permutation of them, each carrying the total recomputed from its items, which equals the stored total |
| Views.Shop.OrderDetail | store/views.py:166-178 | none exactly when the user has no order; otherwise the user's order with an id larger than every other order of the user |

## Left out

- Signup, login, logout, `@login_required` and the forms: the user is a parameter. The shipping form is an `Option<Shipping>`, with None standing for a GET or an invalid form.
- Rendering, `messages`, redirects, URL routing and the admin.
- `home`, `category_detail` and `product_detail`: they only read and render.
- `cart_view` as a view: its only write is the `_get_or_create_cart` call at store/views.py:88, which `Views.Shop.GetOrCreateCart` models; the rest reads and renders. The total it shows is `CartTotal` of the cart's `Lines`.
- Concurrency, transactions and the duplicate-cart race that a non-unique `Cart.user` allows. Each method is one atomic step, and the model keeps exactly one cart per user.
- Decimal arithmetic and `max_digits` overflow: prices are unbounded integer cents.
- The database range of the `PositiveIntegerField` quantities of cart lines and order items: quantities are unbounded naturals, and `update_cart_item` stores any posted integer of at least 1.
- Parsing of the posted quantity: `update_cart_item` takes it as `Option<int>`. A POST without the field is `Some(1)`. A value that `int()` rejects (a server error in the source) is not modelled.
- Timestamps: `created_at` is the parameter `now` of checkout.
- Product editing: the catalogue is a constant of the shop. A later reprice is shown on values in `Queries.WorkedExample`.
- Product deletion and the PROTECT rule on order items.
- Images, descriptions, product names and categories of products, `Product.Meta.ordering`.
- `slugify` is a function parameter of `Save`. Slug uniqueness is a database constraint and is not modelled.
- `OrderItem.total` returns a string built from a nonexistent attribute. It is not modelled.
- `order_list` reads `orderitem_set` where the model's relation is named `order_items`; the model has one "items of an order" relation, `Order.items`.
- The order of a cart's lines: `cart.items.all()` has no ordering, while the model reads the lines in table order, and the order items of a checkout follow that order.
- The order of orders with equal creation times in `order_list` is the one `SortNewestFirst` picks; the database leaves it unspecified.
- Views.Shop.AddToCart: the contract stops at `cartItems == AddLine(…)`. The per-key quantities, the new cart total and the untouched carts are stated for `AddLine` by `Queries.AddLineAddsOneUnit`, `Queries.AddLineQuantity` and `Queries.AddLineTotal`.
- Views.Shop.RemoveFromCart: the effect on quantities and totals is stated for `RemoveAt` by `Queries.RemoveAtDropsLine`, not in the method's contract.
- Views.Shop.UpdateCartItem: the effect on quantities is stated for `SetQuantity` and `RemoveAt` by `Queries.SetQuantitySets` and `Queries.RemoveAtSetsZero`, not in the method's contract.
- Views.Shop.Checkout: that the cart ends with zero lines and other carts keep theirs is stated for `WithoutCart` by `Queries.WithoutCartClears`, not in the method's contract.
