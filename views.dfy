/** The request handlers of wallpaper_store/store/views.py that change the
    catalogue, carts and orders, as methods of one Store whose fields are the
    tables. Each handler is one sequential step; HTTP plumbing is left out. */
module Views {
  import opened Models
  import opened Carts
  import opened Inventory

  /** is_admin: a signed-in account with the admin role, or a superuser. */
  predicate IsAdmin(a: Account)
  {
    a.Member? && (a.role == Admin || a.superuser)
  }

  /** Every line of the cart fits in the current stock of its product. */
  predicate CartFits(cart: seq<CartItem>, stock: Stock)
  {
    forall i :: 0 <= i < |cart| ==> cart[i].product in stock && cart[i].quantity <= stock[cart[i].product]
  }

  /** checkout's validation loop: the first cart line whose quantity exceeds
      its product's stock, or |cart| when every line fits. */
  method FindShortage(cart: seq<CartItem>, stock: Stock) returns (k: nat)
    requires Products(cart) <= stock.Keys
    ensures k <= |cart|
    ensures forall j :: 0 <= j < k ==> cart[j].quantity <= stock[cart[j].product]
    ensures k < |cart| ==> cart[k].quantity > stock[cart[k].product]
    ensures k == |cart| <==> CartFits(cart, stock)
  {
    k := 0;
    while k < |cart|
      invariant k <= |cart|
      invariant forall j :: 0 <= j < k ==> cart[j].product in stock && cart[j].quantity <= stock[cart[j].product]
    {
      assert cart[k].product in Products(cart);
      if cart[k].quantity > stock[cart[k].product] {
        return;
      }
      k := k + 1;
    }
  }

  /** Every cart has one line per product, at least one unit a line, and
      names only products in the catalogue. */
  predicate CartsWellFormed(carts: map<UserId, seq<CartItem>>, catalogue: set<ProductId>)
  {
    forall u :: u in carts ==> WellFormedCart(carts[u]) && Products(carts[u]) <= catalogue
  }

  /** Every order id is below the next id to hand out, and every order has
      one line per product, each naming a product of the catalogue. */
  predicate OrdersWellFormed(orders: map<OrderId, Order>, nextOrderId: OrderId, catalogue: set<ProductId>)
  {
    forall id :: id in orders ==>
      id < nextOrderId && DistinctItems(orders[id].items) && LinesIn(orders[id].items, catalogue)
  }

  /** Every order line names a product of the catalogue. */
  predicate LinesIn(items: seq<OrderItem>, catalogue: set<ProductId>)
  {
    forall i :: 0 <= i < |items| ==> items[i].product in catalogue
  }

  /** Emptying one user's cart keeps every cart well-formed. */
  lemma EmptyCartKeepsCarts(carts: map<UserId, seq<CartItem>>, catalogue: set<ProductId>, user: UserId)
    requires CartsWellFormed(carts, catalogue)
    ensures CartsWellFormed(carts[user := []], catalogue)
  {
    assert Products([]) == {};
  }

  /** Adding a well-formed order under the next id keeps every order
      well-formed. */
  lemma NewOrderKeepsOrders(orders: map<OrderId, Order>, nextOrderId: OrderId,
                            catalogue: set<ProductId>, order: Order)
    requires OrdersWellFormed(orders, nextOrderId, catalogue)
    requires DistinctItems(order.items) && LinesIn(order.items, catalogue)
    ensures OrdersWellFormed(orders[nextOrderId := order], nextOrderId + 1, catalogue)
  {
  }

  /** The order lines checkout creates: one per cart line, in cart order,
      with the line's product and quantity and the product's current price;
      together they cost what the cart costs. */
  function Snapshot(cart: seq<CartItem>, price: map<ProductId, Cents>): (items: seq<OrderItem>)
    requires PricesKnown(cart, price)
    ensures |items| == |cart|
    ensures forall i :: 0 <= i < |cart| ==>
      items[i] == OrderItem(cart[i].product, cart[i].quantity, price[cart[i].product])
    ensures ItemsTotal(items) == CartTotal(cart, price)
  {
    if cart == [] then []
    else
      var rest := Snapshot(cart[1..], price);
      var items := [OrderItem(cart[0].product, cart[0].quantity, price[cart[0].product])] + rest;
      assert items[1..] == rest;
      items
  }

  /** The order checkout creates from a cart: status "new", the given
      address snapshot with the posted city and postal code, the cart's
      lines at current prices, and a total of the cart total plus the fee
      for home delivery, which is also the sum of its own lines plus that
      fee. */
  function CheckoutOrder(user: UserId, cart: seq<CartItem>, form: Profile, address: string,
                         delivery: DeliveryMethod, payment: PaymentMethod,
                         price: map<ProductId, Cents>): (o: Order)
    requires PricesKnown(cart, price)
    ensures o.user == user && o.status == New && o.delivery == delivery && o.payment == payment
    ensures o.shippingAddress == address && o.shippingCity == form.city
    ensures o.shippingZipCode == form.postalCode
    ensures |o.items| == |cart|
    ensures o.totalPrice == CartTotal(cart, price) + DeliveryCharge(delivery)
    ensures o.totalPrice == ItemsTotal(o.items) + DeliveryCharge(delivery)
  {
    Order(user, New, delivery, payment, CartTotal(cart, price) + DeliveryCharge(delivery),
          address, form.city, form.postalCode, Snapshot(cart, price))
  }

  /** Checkout's lines from a well-formed cart are one per product and name
      only products of the catalogue. */
  lemma SnapshotWellFormed(cart: seq<CartItem>, price: map<ProductId, Cents>, catalogue: set<ProductId>)
    requires WellFormedCart(cart) && Products(cart) <= catalogue && PricesKnown(cart, price)
    ensures DistinctItems(Snapshot(cart, price)) && LinesIn(Snapshot(cart, price), catalogue)
  {
    assert forall i :: 0 <= i < |cart| ==> cart[i].product in Products(cart);
  }

  /** checkout's second loop: one order line per cart line at the product's
      current price, each product's stock dropping by its line's quantity.
      The stock it returns is the given one with every line taken out. */
  method TakeCartStock(cart: seq<CartItem>, price: map<ProductId, Cents>, stock: Stock)
    returns (items: seq<OrderItem>, after: Stock)
    requires WellFormedCart(cart) && stock.Keys == price.Keys && CartFits(cart, stock)
    ensures PricesKnown(cart, price) && items == Snapshot(cart, price)
    ensures after.Keys == stock.Keys
    ensures Covers(stock, items) && after == Withdraw(stock, items)
  {
    items := [];
    after := stock;
    var i := 0;
    while i < |cart|
      invariant 0 <= i <= |cart|
      invariant |items| == i
      invariant forall j :: 0 <= j < i ==>
        items[j] == OrderItem(cart[j].product, cart[j].quantity, price[cart[j].product])
      invariant Covers(stock, items) && after == Withdraw(stock, items)
      invariant forall j :: i <= j < |cart| ==> after[cart[j].product] == stock[cart[j].product]
    {
      var line := cart[i];
      var p := line.product;
      var it := OrderItem(p, line.quantity, price[p]);
      OrderedAbsent(items, p);
      WithdrawLast(stock, items, it);
      after := after[p := after[p] - line.quantity];
      items := items + [it];
      i := i + 1;
    }
  }

  class Store {
    var categories: set<CategoryId>
    var productCategory: map<ProductId, CategoryId>
    var price: map<ProductId, Cents>
    var stock: Stock
    var featured: set<ProductId>
    var profiles: map<UserId, Profile>
    var carts: map<UserId, seq<CartItem>>
    var orders: map<OrderId, Order>
    var nextOrderId: OrderId

    /** Every product has a price, a stock and an existing category; carts
        and orders name known products, one line per product; order ids are
        below the next id to hand out. */
    ghost predicate Valid()
      reads this
    {
      && price.Keys == productCategory.Keys && stock.Keys == productCategory.Keys
      && featured <= productCategory.Keys
      && (forall p :: p in productCategory ==> productCategory[p] in categories)
      && CartsWellFormed(carts, productCategory.Keys)
      && OrdersWellFormed(orders, nextOrderId, productCategory.Keys)
    }

    /** A store over an initial catalogue, with no carts and no orders. */
    constructor (categories: set<CategoryId>, productCategory: map<ProductId, CategoryId>,
                 price: map<ProductId, Cents>, stock: Stock)
      requires productCategory.Keys == price.Keys == stock.Keys
      requires forall p :: p in productCategory ==> productCategory[p] in categories
      ensures Valid()
      ensures this.categories == categories && this.productCategory == productCategory
      ensures this.price == price && this.stock == stock && featured == {}
      ensures profiles == map[] && carts == map[] && orders == map[] && nextOrderId == 0
    {
      this.categories := categories;
      this.productCategory := productCategory;
      this.price := price;
      this.stock := stock;
      featured := {};
      profiles := map[];
      carts := map[];
      orders := map[];
      nextOrderId := 0;
    }

    // -------------------------------------------------------------------------
    // Cart
    // -------------------------------------------------------------------------

    /** add_to_cart: an unknown product is not found; otherwise the cart
        (created on first use) changes as AddOne says, and a refused add
        leaves every cart as it was. */
    method AddToCart(user: UserId, p: ProductId) returns (r: Result<()>)
      requires Valid()
      modifies this`carts
      ensures Valid()
      ensures p !in stock ==> r == Err(NotFound) && carts == old(carts)
      ensures p in stock ==>
        var added := AddOne(if user in old(carts) then old(carts)[user] else [], p, stock[p]);
        && (r.Ok? <==> added.Ok?)
        && (r.Err? ==> r.error == added.error && carts == old(carts))
        && (r.Ok? ==> carts == old(carts)[user := added.value])
    {
      if p !in stock {
        return Err(NotFound);
      }
      if stock[p] == 0 {
        return Err(OutOfStock(p));
      }
      var cart := if user in carts then carts[user] else [];
      var added := AddOne(cart, p, stock[p]);
      if added.Err? {
        return Err(added.error);
      }
      carts := carts[user := added.value];
      return Ok(());
    }

    /** remove_from_cart: a line the user's cart does not hold is not found;
        otherwise that line is deleted. */
    method RemoveFromCart(user: UserId, p: ProductId) returns (r: Result<()>)
      requires Valid()
      modifies this`carts
      ensures Valid()
      ensures user !in old(carts) ==> r == Err(NotFound) && carts == old(carts)
      ensures user in old(carts) ==>
        var removed := RemoveLine(old(carts)[user], p);
        && (r.Ok? <==> removed.Ok?)
        && (r.Err? ==> r.error == removed.error && carts == old(carts))
        && (r.Ok? ==> carts == old(carts)[user := removed.value])
    {
      if user !in carts {
        return Err(NotFound);
      }
      var removed := RemoveLine(carts[user], p);
      if removed.Err? {
        return Err(removed.error);
      }
      carts := carts[user := removed.value];
      return Ok(());
    }

    /** update_cart_item: a line the user's cart does not hold is not found;
        otherwise the cart changes as SetQuantity says against the line's
        product stock, and a refused update changes nothing. */
    method UpdateCartItem(user: UserId, p: ProductId, q: int) returns (r: Result<()>)
      requires Valid()
      modifies this`carts
      ensures Valid()
      ensures user !in old(carts) || IndexOf(old(carts)[user], p) == -1 ==>
        r == Err(NotFound) && carts == old(carts)
      ensures user in old(carts) && IndexOf(old(carts)[user], p) != -1 ==>
        p in stock &&
        var updated := SetQuantity(old(carts)[user], p, q, stock[p]);
        && (r.Ok? <==> updated.Ok?)
        && (r.Err? ==> r.error == updated.error && carts == old(carts))
        && (r.Ok? ==> carts == old(carts)[user := updated.value])
    {
      if user !in carts || IndexOf(carts[user], p) == -1 {
        return Err(NotFound);
      }
      var cart := carts[user];
      assert cart[IndexOf(cart, p)].product == p;
      assert p in Products(cart);
      var updated := SetQuantity(cart, p, q, stock[p]);
      if updated.Err? {
        return Err(updated.error);
      }
      carts := carts[user := updated.value];
      return Ok(());
    }

    // -------------------------------------------------------------------------
    // Checkout
    // -------------------------------------------------------------------------

    /** checkout: with no cart the request is not found; an empty cart, or
        any line above its product's stock, is refused and nothing changes.
        Otherwise the order is placed as PlaceOrder says. */
    method Checkout(user: UserId, form: Profile, delivery: DeliveryMethod, payment: PaymentMethod)
      returns (r: Result<OrderId>)
      requires Valid()
      modifies this`stock, this`carts, this`orders, this`nextOrderId, this`profiles
      ensures Valid()
      ensures user !in old(carts) ==> r == Err(NotFound)
      ensures user in old(carts) && old(carts)[user] == [] ==> r == Err(EmptyCart)
      ensures user in old(carts) && old(carts)[user] != [] ==>
        (r.Err? <==> !CartFits(old(carts)[user], old(stock)))
      ensures user in old(carts) && old(carts)[user] != [] && !CartFits(old(carts)[user], old(stock)) ==>
        r.Err? && r.error.InsufficientStock?
      ensures r.Err? && r.error.InsufficientStock? ==>
        (user in old(carts) &&
         var cart := old(carts)[user];
         exists k :: 0 <= k < |cart| && cart[k].product == r.error.product
           && cart[k].quantity > old(stock)[cart[k].product]
           && forall j :: 0 <= j < k ==> cart[j].quantity <= old(stock)[cart[j].product])
      ensures r.Err? ==>
        && stock == old(stock) && carts == old(carts) && orders == old(orders)
        && nextOrderId == old(nextOrderId) && profiles == old(profiles)
      ensures r.Ok? ==>
        user in old(carts) && Placed(user, old(carts)[user], form, FullAddress(form), delivery, payment, r.value)
    {
      if user !in carts {
        return Err(NotFound);
      }
      var cart := carts[user];
      if cart == [] {
        return Err(EmptyCart);
      }
      var k := FindShortage(cart, stock);
      if k < |cart| {
        return Err(InsufficientStock(cart[k].product));
      }
      var id := PlaceOrder(user, form, FullAddress(form), delivery, payment);
      return Ok(id);
    }

    /** The state a successful checkout leaves: the posted address saved to
        the profile; a new order under the next id, with status "new", the
        address snapshot, one line per cart line at the product's price,
        and a total of the cart total plus the delivery fee for home
        delivery; each product's stock lower by its line's quantity; the
        cart emptied; nothing else changed. */
    twostate predicate Placed(user: UserId, cart: seq<CartItem>, form: Profile, address: string,
                              delivery: DeliveryMethod, payment: PaymentMethod, id: OrderId)
      reads this
    {
      && id == old(nextOrderId) && id !in old(orders)
      && nextOrderId == id + 1
      && PricesKnown(cart, price)
      && orders == old(orders)[id := CheckoutOrder(user, cart, form, address, delivery, payment, price)]
      && Covers(old(stock), Snapshot(cart, price))
      && stock == Withdraw(old(stock), Snapshot(cart, price))
      && carts == old(carts)[user := []]
      && profiles == old(profiles)[user := form]
    }

    /** The materialising half of checkout, once the cart is known to be
        non-empty and to fit in stock. */
    method PlaceOrder(user: UserId, form: Profile, address: string, delivery: DeliveryMethod, payment: PaymentMethod)
      returns (id: OrderId)
      requires Valid() && user in carts && CartFits(carts[user], stock)
      modifies this`stock, this`carts, this`orders, this`nextOrderId, this`profiles
      ensures Valid()
      ensures Placed(user, old(carts)[user], form, address, delivery, payment, id)
    {
      var cart := carts[user];
      var items, after := TakeCartStock(cart, price, stock);
      var order := CheckoutOrder(user, cart, form, address, delivery, payment, price);
      SnapshotWellFormed(cart, price, productCategory.Keys);
      id := SaveOrder(user, form, order, after);
    }

    /** Saves a checkout's outcome: the new order under the next id, the
        given stock, the user's cart emptied and the posted profile. */
    method SaveOrder(user: UserId, form: Profile, order: Order, after: Stock) returns (id: OrderId)
      requires Valid() && user in carts && after.Keys == stock.Keys
      requires DistinctItems(order.items) && LinesIn(order.items, productCategory.Keys)
      modifies this`stock, this`carts, this`orders, this`nextOrderId, this`profiles
      ensures Valid()
      ensures id == old(nextOrderId) && id !in old(orders) && nextOrderId == id + 1
      ensures stock == after && orders == old(orders)[id := order]
      ensures carts == old(carts)[user := []] && profiles == old(profiles)[user := form]
    {
      id := nextOrderId;
      assert id !in orders;
      EmptyCartKeepsCarts(carts, productCategory.Keys, user);
      NewOrderKeepsOrders(orders, id, productCategory.Keys, order);
      stock := after;
      orders := orders[id := order];
      carts := carts[user := []];
      profiles := profiles[user := form];
      nextOrderId := nextOrderId + 1;
    }

    // -------------------------------------------------------------------------
    // Stock loops over order lines
    // -------------------------------------------------------------------------

    /** Puts every line's quantity back into its product's stock. */
    method RestoreStock(items: seq<OrderItem>)
      requires Known(stock, items)
      modifies this`stock
      ensures stock == Restock(old(stock), items)
    {
      var i := 0;
      while i < |items|
        invariant 0 <= i <= |items|
        invariant stock == Restock(old(stock), items[..i])
      {
        var it := items[i];
        assert items[..i + 1] == items[..i] + [it];
        forall x ensures Ordered(items[..i + 1], x) == Ordered(items[..i], x) + (if x == it.product then it.quantity else 0) {
          OrderedAppend(items[..i], [it], x);
          assert [it][1..] == [];
        }
        stock := stock[it.product := stock[it.product] + it.quantity];
        i := i + 1;
      }
      assert items[..|items|] == items;
    }

    /** The admin's move out of "cancelled": each line is checked against its
        product's stock and taken out before the next line is looked at; the
        first line that does not fit stops the loop and is returned, with the
        earlier lines already taken out. */
    method Redeplete(items: seq<OrderItem>) returns (short: Option<ProductId>)
      requires Known(stock, items)
      modifies this`stock
      ensures stock.Keys == old(stock).Keys
      ensures RedepleteFrom(old(stock), items, 0) ==
        if short.None? then Redepleted(stock) else Short(stock, short.value)
    {
      ghost var outcome := RedepleteFrom(stock, items, 0);
      var i := 0;
      while i < |items|
        invariant 0 <= i <= |items|
        invariant stock.Keys == old(stock).Keys
        invariant RedepleteFrom(stock, items, i) == outcome
      {
        var it := items[i];
        if it.quantity > stock[it.product] {
          return Some(it.product);
        }
        var next := stock[it.product := stock[it.product] - it.quantity];
        RedepleteTaken(stock, items, i);
        assert RedepleteFrom(next, items, i + 1) == outcome;
        stock := next;
        i := i + 1;
      }
      return None;
    }

    // -------------------------------------------------------------------------
    // Orders
    // -------------------------------------------------------------------------

    /** cancel_order: an order that is missing or not the user's is not
        found; only a "new" order may be cancelled, which puts every line's
        quantity back into stock; any other status is refused and nothing
        changes. */
    method CancelOrder(user: UserId, id: OrderId) returns (r: Result<()>)
      requires Valid()
      modifies this`stock, this`orders
      ensures Valid()
      ensures id !in old(orders) || old(orders)[id].user != user ==> r == Err(NotFound)
      ensures id in old(orders) && old(orders)[id].user == user ==>
        (r.Ok? <==> old(orders)[id].status == New) && (r.Err? ==> r.error == InvalidTransition)
      ensures r.Err? ==> stock == old(stock) && orders == old(orders)
      ensures r.Ok? ==> id in old(orders)
      ensures r.Ok? ==>
        && stock == Restock(old(stock), old(orders)[id].items)
        && orders == old(orders)[id := old(orders)[id].(status := Cancelled)]
    {
      if id !in orders || orders[id].user != user {
        return Err(NotFound);
      }
      var order := orders[id];
      if order.status != New {
        return Err(InvalidTransition);
      }
      RestoreStock(order.items);
      orders := orders[id := order.(status := Cancelled)];
      return Ok(());
    }

    /** The status part of admin_order_detail. A missing or unchanged status
        has no effect. Moving into "cancelled" puts the stock back. Moving
        out of "cancelled" takes it out line by line; a line that does not
        fit refuses the move, the status stays "cancelled", and the lines
        before it stay taken out. Any other move only sets the status. */
    method AdminSetOrderStatus(caller: Account, id: OrderId, newStatus: Option<Status>)
      returns (r: Result<()>)
      requires Valid()
      modifies this`stock, this`orders
      ensures Valid()
      ensures !IsAdmin(caller) ==> r == Err(Forbidden) && stock == old(stock) && orders == old(orders)
      ensures IsAdmin(caller) && id !in old(orders) ==>
        r == Err(NotFound) && stock == old(stock) && orders == old(orders)
      ensures IsAdmin(caller) && id in old(orders) ==>
        var o := old(orders)[id];
        && (newStatus.None? || newStatus.value == o.status ==>
              r == Ok(()) && stock == old(stock) && orders == old(orders))
        && (newStatus.Some? && newStatus.value != o.status && newStatus.value == Cancelled ==>
              && r == Ok(())
              && stock == Restock(old(stock), o.items)
              && orders == old(orders)[id := o.(status := Cancelled)])
        && (newStatus.Some? && newStatus.value != o.status && o.status == Cancelled ==>
              var walk := RedepleteFrom(old(stock), o.items, 0);
              && stock == walk.stock
              && (walk.Redepleted? ==> r == Ok(()) && orders == old(orders)[id := o.(status := newStatus.value)])
              && (walk.Short? ==> r == Err(InsufficientStock(walk.product)) && orders == old(orders)))
        && (newStatus.Some? && newStatus.value != o.status && newStatus.value != Cancelled
            && o.status != Cancelled ==>
              r == Ok(()) && stock == old(stock) && orders == old(orders)[id := o.(status := newStatus.value)])
    {
      if !IsAdmin(caller) {
        return Err(Forbidden);
      }
      if id !in orders {
        return Err(NotFound);
      }
      var order := orders[id];
      if newStatus.Some? && newStatus.value != order.status {
        if newStatus.value == Cancelled && order.status != Cancelled {
          RestoreStock(order.items);
        } else if order.status == Cancelled && newStatus.value != Cancelled {
          var short := Redeplete(order.items);
          if short.Some? {
            return Err(InsufficientStock(short.value));
          }
        }
        orders := orders[id := order.(status := newStatus.value)];
      }
      return Ok(());
    }

    /** admin_order_delete: an order that is not cancelled has its stock put
        back first; the order and its lines are then removed. */
    method AdminDeleteOrder(caller: Account, id: OrderId) returns (r: Result<()>)
      requires Valid()
      modifies this`stock, this`orders
      ensures Valid()
      ensures !IsAdmin(caller) ==> r == Err(Forbidden) && stock == old(stock) && orders == old(orders)
      ensures IsAdmin(caller) && id !in old(orders) ==>
        r == Err(NotFound) && stock == old(stock) && orders == old(orders)
      ensures IsAdmin(caller) && id in old(orders) ==>
        && r == Ok(())
        && orders == old(orders) - {id}
        && stock == if old(orders)[id].status != Cancelled
                    then Restock(old(stock), old(orders)[id].items) else old(stock)
    {
      if !IsAdmin(caller) {
        return Err(Forbidden);
      }
      if id !in orders {
        return Err(NotFound);
      }
      var order := orders[id];
      if order.status != Cancelled {
        RestoreStock(order.items);
      }
      orders := orders - {id};
      return Ok(());
    }

    /** Order.update_total_price: the total becomes the sum of the line
        totals; for an order whose total carried a delivery fee, the fee is
        dropped. */
    method UpdateTotalPrice(id: OrderId)
      requires Valid() && id in orders
      modifies this`orders
      ensures Valid()
      ensures orders == old(orders)[id := old(orders)[id].(totalPrice := ItemsTotal(old(orders)[id].items))]
      ensures old(orders)[id].totalPrice == ItemsTotal(old(orders)[id].items) + DeliveryCharge(old(orders)[id].delivery)
        ==> orders[id].totalPrice == old(orders)[id].totalPrice - DeliveryCharge(old(orders)[id].delivery)
    {
      var order := orders[id];
      orders := orders[id := order.(totalPrice := ItemsTotal(order.items))];
    }

    // -------------------------------------------------------------------------
    // Catalogue guards
    // -------------------------------------------------------------------------

    /** admin_category_delete: a category that still has products is not
        deleted; an empty one is. */
    method AdminDeleteCategory(caller: Account, c: CategoryId) returns (r: Result<()>)
      requires Valid()
      modifies this`categories
      ensures Valid()
      ensures !IsAdmin(caller) ==> r == Err(Forbidden) && categories == old(categories)
      ensures IsAdmin(caller) && c !in old(categories) ==> r == Err(NotFound) && categories == old(categories)
      ensures IsAdmin(caller) && c in old(categories) ==>
        && (r.Ok? <==> forall p :: p in productCategory ==> productCategory[p] != c)
        && (r.Err? ==> r.error == CategoryHasProducts && categories == old(categories))
        && (r.Ok? ==> categories == old(categories) - {c})
    {
      if !IsAdmin(caller) {
        return Err(Forbidden);
      }
      if c !in categories {
        return Err(NotFound);
      }
      if exists p :: p in productCategory && productCategory[p] == c {
        return Err(CategoryHasProducts);
      }
      categories := categories - {c};
      return Ok(());
    }

    /** admin_product_edit: the form saves every edited field. A category
        outside the category table fails the form's validation and a
        negative stock is refused; either way nothing changes. Otherwise
        category, price, stock and the featured flag are saved, whatever the
        number of featured products. Order lines keep their frozen prices. */
    method AdminEditProduct(caller: Account, p: ProductId, newCategory: CategoryId, newPrice: Cents,
                            newStock: int, newFeatured: bool)
      returns (r: Result<()>)
      requires Valid()
      modifies this`productCategory, this`price, this`stock, this`featured
      ensures Valid()
      ensures !IsAdmin(caller) ==> r == Err(Forbidden)
      ensures IsAdmin(caller) && p !in old(stock) ==> r == Err(NotFound)
      ensures IsAdmin(caller) && p in old(stock) && newCategory !in categories ==> r == Err(UnknownCategory)
      ensures IsAdmin(caller) && p in old(stock) && newCategory in categories ==>
        (r.Err? <==> newStock < 0) && (r.Err? ==> r.error == NegativeStock)
      ensures r.Err? ==>
        && productCategory == old(productCategory) && price == old(price)
        && stock == old(stock) && featured == old(featured)
      ensures r.Ok? ==> newStock >= 0 && newCategory in categories
      ensures r.Ok? ==>
        && productCategory == old(productCategory)[p := newCategory]
        && price == old(price)[p := newPrice]
        && stock == old(stock)[p := newStock]
        && featured == if newFeatured then old(featured) + {p} else old(featured) - {p}
    {
      if !IsAdmin(caller) {
        return Err(Forbidden);
      }
      if p !in stock {
        return Err(NotFound);
      }
      if newCategory !in categories {
        return Err(UnknownCategory);
      }
      if newStock < 0 {
        return Err(NegativeStock);
      }
      productCategory := productCategory[p := newCategory];
      price := price[p := newPrice];
      stock := stock[p := newStock];
      featured := if newFeatured then featured + {p} else featured - {p};
      return Ok(());
    }
  }
}
