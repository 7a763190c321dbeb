# Wallpaper store: inventory and order engine

A Dafny model of the stock-keeping core of the `wallpaper_store` Django shop.
It covers the cart, the checkout, and order cancellation and restoration, as
written in `wallpaper_store/store/views.py`. It also covers the small
helpers on the models in `wallpaper_store/store/models.py`.

- `models.dfy` (module `Models`): the entities and their value helpers.
  - Entities: products by id, cart and order lines, orders, profiles, and the
    status, delivery and payment choices.
  - Money is integer kopecks, because every price is a two-place decimal.
  - Helpers: line totals, cart totals, the item count, the order total that
    `update_total_price` stores, `get_full_address`, and the slug rule of
    `Category.save`.
- `carts.dfy` (module `Carts`): the line rules of `add_to_cart`,
  `update_cart_item` and `remove_from_cart`, as functions on one cart.
  - A cart is a sequence of lines with one line per product.
  - `Quantity` reads a cart as a map from product to quantity.
- `inventory.dfy` (module `Inventory`): stock as a map from product to a
  natural number.
  - `Restock` puts an order's lines back; `Withdraw` takes them out.
  - `RedepleteFrom` is the admin's line-by-line walk when an order leaves
    "cancelled".
  - The round trips between these, and the walk's closed form.
- `views.dfy` (module `Views`): a `Store` class whose fields are the tables:
  categories, product categories, prices, stock, featured flags, profiles,
  carts, orders and the next order id.
  - Each request handler is a method that changes those fields in one
    sequential step.
  - The loops over cart and order lines are `while` loops whose invariants tie
    them to the functions above.
  - `Valid()` is the store invariant every handler keeps:
    - every product has a price, a stock level and an existing category;
    - carts hold one line per product, each line at least one unit;
    - order lines name known products, one line per product.

Moving an order out of "cancelled" is not all-or-nothing. The code checks
each line and takes its stock out before looking at the next line, so a
refusal on a later line leaves the earlier lines already deducted
(`views.py:486-492`). The model follows the code. `RedepleteIsNotAtomic`
shows a concrete case of it, and `CancelThenRestore` proves that restoring
right after a cancellation always succeeds and is net zero.

## Model

| member | source | states |
|---|---|---|
| Models.CartItemTotal | wallpaper_store/store/models.py:166-168 | A cart line costs nothing exactly when its price or its quantity is zero, and never costs a negative amount at a non-negative price. |
| Models.CartTotal | wallpaper_store/store/models.py:140-142 | An empty cart totals zero, and with no negative price the total is never negative. |
| Models.TotalItems | wallpaper_store/store/models.py:144-146 | The item count is zero exactly when every line holds zero units, and it is at least the quantity of any single line. |
| Models.OrderItemTotal | wallpaper_store/store/models.py:308-310 | An order line costs nothing exactly when its frozen price or its quantity is zero, and never costs a negative amount at a non-negative price. |
| Models.ItemsTotal | wallpaper_store/store/models.py:292 | The sum over an order's lines is zero for no lines, and never negative when no line has a negative price. |
| Models.FullAddress | wallpaper_store/store/models.py:59-70 | Never empty. With no address field it is the placeholder "Адрес не указан". |
| Models.CartTotalAppend | wallpaper_store/store/models.py:140-142 | The cart total, the sum of price × quantity over the lines, splits over any split of the cart. |
| Models.TotalItemsAtLeastLines | wallpaper_store/store/models.py:144-146 | With every line holding at least one unit, the item count is at least the number of lines, and equal to it exactly when every line holds one unit. |
| Models.AddressParts | wallpaper_store/store/models.py:61-69 | The collected address parts are all non-empty. There are none exactly when postal code, country, city and street address are all empty. |
| Models.JoinEnds | wallpaper_store/store/models.py:70 | `", ".join` of a non-empty list starts with its first part and ends with its last part. |
| Models.FullAddressShape | wallpaper_store/store/models.py:59-70 | With no address field the result is the placeholder "Адрес не указан". Otherwise it starts with the first shown field and ends with the last shown one, so it never starts or ends with a bare separator. |
| Models.FullAddressComplete | wallpaper_store/store/models.py:61-70 | With all four fields filled, the address is postal code, country, "г. " + city and street address, in that order, joined by ", ". |
| Models.PlaceholderIsAmbiguous | wallpaper_store/store/models.py:68-70 | A profile whose only field is a street address equal to the placeholder text also yields the placeholder. |
| Models.Category.Save | wallpaper_store/store/models.py:85-88 | A non-empty slug is kept. An empty slug becomes slugify(name). The name never changes. |
| Carts.AddOne | wallpaper_store/store/views.py:105-123 | Refused (out of stock, or insufficient stock) exactly when stock is 0 or one more unit would exceed stock. Otherwise the product's quantity becomes old + 1 ≤ stock, no other product changes, the cart stays one line per product, and a line is added only when none existed. |
| Carts.NewLineNeverRejected | wallpaper_store/store/views.py:119-123 | For a product in stock with no line yet, the add always succeeds, because a new line's quantity of 1 never exceeds the stock, so the delete-on-overflow branch is dead. |
| Carts.ReplaceLine | wallpaper_store/store/views.py:145-147 | Setting a line to a positive quantity n gives that product exactly n, keeps every other product and the set of products, and keeps the cart well-formed. |
| Carts.DeleteLine | wallpaper_store/store/views.py:148-149 | Deleting a line leaves the cart one line shorter and well-formed, without that product, and with every other product unchanged. |
| Carts.SetQuantity | wallpaper_store/store/views.py:141-151 | A missing line is not found. A quantity above stock is refused, and that happens exactly when q > stock. Otherwise q > 0 sets the quantity to exactly q, q ≤ 0 removes the line, and other products never change. |
| Carts.RemoveLine | wallpaper_store/store/views.py:130-131 | Fails, not found, exactly when the cart has no line for the product. Otherwise that line is gone, the cart is one line shorter, and other products are unchanged. |
| Inventory.Restock | wallpaper_store/store/views.py:338-341 | Putting lines back keeps the same products, never lowers a product's stock, and leaves every product the lines do not name as it was. |
| Inventory.Withdraw | wallpaper_store/store/views.py:200-203 | Taking lines out, when the stock covers them, keeps the same products, never raises a product's stock, and leaves every product the lines do not name as it was. |
| Inventory.RedepleteFrom | wallpaper_store/store/views.py:486-492 | The walk keeps the same products and never raises a stock. When it stops short, the product it names has a line from i on whose quantity exceeds that product's stock at the stop. |
| Inventory.FirstShortage | wallpaper_store/store/views.py:486-490 | The first line at or after i whose quantity exceeds its product's stock, or the end of the lines. Every line before it fits. |
| Inventory.FitsCovers | wallpaper_store/store/views.py:162-165 | With one line per product, checking each line against its own product's stock is enough for the stock to cover the whole order. |
| Inventory.WithdrawThenRestock | wallpaper_store/store/views.py:336-344 | Cancelling an order puts back exactly what checkout took out: restocking the withdrawn lines gives the original stock. |
| Inventory.RestockThenWithdraw | wallpaper_store/store/views.py:479-492 | Stock put back can always be taken out again, and taking it out gives the stock as before. |
| Inventory.RedepleteOutcome | wallpaper_store/store/views.py:485-492 | The line-by-line walk stops at the first line that does not fit, with the lines before it already taken out. If every line fits, every line is taken out. |
| Inventory.RedepleteSucceedsIffFits | wallpaper_store/store/views.py:485-492 | Leaving "cancelled" succeeds exactly when every line fits in stock, and then removes exactly the order's quantities. |
| Inventory.CancelThenRestore | wallpaper_store/store/views.py:479-492 | Cancelling and then restoring the same order always succeeds and leaves stock as it was before the cancellation. |
| Inventory.RedepleteIsNotAtomic | wallpaper_store/store/views.py:486-492 | Stock {1: 5, 2: 0} and lines (1 × 2, 2 × 1): the walk is refused on product 2 after product 1 has already dropped to 3. |
| Views.FindShortage | wallpaper_store/store/views.py:161-165 | Returns the first cart line whose quantity exceeds its product's stock, with every earlier line fitting, or the cart length exactly when every line fits. |
| Views.EmptyCartKeepsCarts | wallpaper_store/store/views.py:206 | Emptying a user's cart keeps every cart one line per product and within the catalogue. |
| Views.NewOrderKeepsOrders | wallpaper_store/store/views.py:181-198 | Adding an order with distinct, known lines under the next id keeps every order id below the next one and every order well-formed. |
| Views.Snapshot | wallpaper_store/store/views.py:192-198 | One order line per cart line, in order, with the same product and quantity at the product's current price. Together the lines cost exactly the cart total. |
| Views.SnapshotWellFormed | wallpaper_store/store/views.py:192-198 | The order lines of a cart with one line per product have one line per product and name only catalogue products. |
| Views.CheckoutOrder | wallpaper_store/store/views.py:181-189 | The new order has status "new", the chosen delivery and payment, the address snapshot, the posted city and postal code, and one line per cart line. Its total is the cart total plus 500 roubles exactly for home delivery, which is also the sum of its own lines plus that fee. |
| Views.TakeCartStock | wallpaper_store/store/views.py:192-203 | The loop builds exactly the snapshot lines. The stock covers them, and the stock it leaves is the old stock with every line's quantity taken out, still never negative. |
| Views.Store.AddToCart | wallpaper_store/store/views.py:101-126 | An unknown product is not found. Otherwise the user's cart, created on first use, changes exactly as AddOne says, and a refused add changes no cart. The store invariant is kept. |
| Views.Store.RemoveFromCart | wallpaper_store/store/views.py:129-133 | A line the user's cart does not hold is not found. Otherwise the cart becomes RemoveLine's result. The store invariant is kept. |
| Views.Store.UpdateCartItem | wallpaper_store/store/views.py:136-151 | A line the user's cart does not hold is not found. Otherwise the cart changes exactly as SetQuantity says against that product's stock, and a refusal changes nothing. The store invariant is kept. |
| Views.Store.Checkout | wallpaper_store/store/views.py:154-209 | No cart: not found. Empty cart: refused. Otherwise refused exactly when some line exceeds its stock, naming the first such line. A refusal changes no stock, cart, order or profile. Success places the order as Placed states. |
| Views.Store.PlaceOrder | wallpaper_store/store/views.py:167-206 | Saves the posted profile, adds the checkout order under a fresh id, takes every line's quantity out of stock, and empties the cart. Nothing else changes, and the store invariant is kept. |
| Views.Store.SaveOrder | wallpaper_store/store/views.py:167-206 | Saves the posted profile, stores the order under the next id, installs the stock left after the lines, empties the user's cart, and moves the next id on by one. The store invariant is kept. |
| Views.Store.RestoreStock | wallpaper_store/store/views.py:338-341 | The loop leaves the stock equal to the old stock with every line's quantity put back. |
| Views.Store.Redeplete | wallpaper_store/store/views.py:486-492 | The loop ends exactly as the line-by-line walk does: either every line is taken out, or the first short product is returned with the earlier lines taken out. |
| Views.Store.CancelOrder | wallpaper_store/store/views.py:333-349 | A missing order, or another user's order, is not found. Only a "new" order is cancelled: every line's quantity goes back to stock and the status becomes "cancelled". Any other status is refused and nothing changes. |
| Views.Store.AdminSetOrderStatus | wallpaper_store/store/views.py:468-494 | Non-admins are refused, and a missing order is not found. A missing or unchanged status has no effect. Moving into "cancelled" restocks. Moving out of it follows the line-by-line walk: on a short line the status stays and earlier lines stay deducted. Any other move only sets the status. |
| Views.Store.AdminDeleteOrder | wallpaper_store/store/views.py:688-704 | The order is removed. Its lines go back to stock exactly when it was not cancelled. |
| Views.Store.UpdateTotalPrice | wallpaper_store/store/models.py:290-293 | The total becomes the sum of price × quantity over the order's lines. For a checkout total that carried the delivery fee, the fee is dropped. |
| Views.Store.AdminDeleteCategory | wallpaper_store/store/views.py:633-646 | A category is refused exactly when some product still belongs to it. Otherwise it is removed. |
| Views.Store.AdminEditProduct | wallpaper_store/store/views.py:235-250 | Non-admins are refused and an unknown product is not found. A category outside the category table fails the form and a negative stock is refused; neither changes anything. Otherwise category, price, stock and the featured flag are all saved, as the product form's field list (`forms.py:38`) says. Success does not depend on how many products are already featured, because the featured-count check in `Product.save` (`models.py:114-119`) has an empty branch. |

## Left out

- HTTP plumbing: rendering, flash messages, redirects, the GET pages of `checkout`, `admin_category_delete` and `admin_order_delete`, and the `try`/`except` around `admin_order_delete`.
  - These are framework I/O. Not-found and ownership become `Err` results.
- Login and permission decorators: the caller's identity is a parameter, either `user` or `caller: Account`.
- Parsing of POST fields, including `int(...)` on the quantity and free-form status strings outside the status choices.
  - The model takes already-typed values: `q: int`, `Option<Status>`, and enums for delivery and payment.
  - A delivery method other than "delivery" is `Pickup`.
- `index`, `admin_dashboard`, `product_detail`, `cart_view` (apart from the cart it creates, below), the list, search and pagination views, `register`, `profile`/`update_profile`, both `admin_user_detail` definitions, `admin_product_create`/`admin_product_delete`, and `admin_category_create`/`admin_category_edit`.
  - These are ORM queries, wall-clock time, floating-point statistics or plain field sets with no stock rule.
- The admin notes, assignee and priority updates in `admin_order_detail`: plain field sets, not modelled.
- The profile's name, email and phone that checkout also saves: only the four address fields are modelled.
- `pytils.translit.slugify`: a foreign library, passed to `Category.Save` as a function parameter.
- `Product.save`'s count query of featured products (`models.py:115-117`): its result is never used, so the model leaves the query out and saves a product whatever the count.
- `cart_view` creates an empty cart on a user's first visit (`views.py:89`). The model creates carts only in `AddToCart`, so for a user who has only opened the cart page, `Views.Store.Checkout` answers not found where the code answers that the cart is empty.
- The `unique=True` on `Category.name` and `Category.slug` (`models.py:76-77`): a save whose `slugify(name)` collides with another category's slug fails in the database. `Models.Category.Save` always succeeds, because other categories are not part of its state.
- Cascading deletes of products and carts: not modelled.
- The `try`/`except` around `order.save()` in `admin_order_detail` (`views.py:516-520`): a failing save would keep the stock changes already made for the status move while dropping the status itself. The model treats the save as always succeeding.
- Field widths: `DecimalField(max_digits=10, decimal_places=2)` on prices and totals and the upper bound of `PositiveIntegerField` on quantities and stock. Money and counts are unbounded integers, so an overflowing total or stock that the database would reject is not modelled.
- The product's name, description and image, which the edit form also saves: plain field sets, not modelled.
- Concurrency: two checkouts racing for the last unit, and request transactions. Every handler is one sequential step.
- `Views.Store.AdminEditProduct`: refuses every negative stock, not only one the form marks as changed. An unchanged stock is never negative, so the outcomes agree.
- `Models.FullAddressShape`: states only that empty fields give the placeholder, not the converse. A street address that reads as the placeholder also gives it, as `Models.PlaceholderIsAmbiguous` shows.
