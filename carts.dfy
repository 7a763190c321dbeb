/** The cart-line rules of add_to_cart, update_cart_item and remove_from_cart
    (wallpaper_store/store/views.py), stated on the lines of one cart. A cart
    is read as a map from product to quantity through Quantity. */
module Carts {
  import opened Models

  /** The quantity of product x that the cart holds. */
  function Quantity(cart: seq<CartItem>, x: ProductId): nat
  {
    if cart == [] then 0
    else (if cart[0].product == x then cart[0].quantity else 0) + Quantity(cart[1..], x)
  }

  /** At most one line per product: CartItem is unique on (cart, product). */
  predicate DistinctLines(cart: seq<CartItem>)
  {
    forall i, j :: 0 <= i < j < |cart| ==> cart[i].product != cart[j].product
  }

  /** The products the cart has a line for. */
  function Products(cart: seq<CartItem>): set<ProductId>
  {
    set i | 0 <= i < |cart| :: cart[i].product
  }

  /** Distinct products, and every line holds at least one unit. */
  predicate WellFormedCart(cart: seq<CartItem>)
  {
    DistinctLines(cart) && forall i :: 0 <= i < |cart| ==> cart[i].quantity >= 1
  }

  /** The position of the line for p, or -1 when the cart has none. */
  function IndexOf(cart: seq<CartItem>, p: ProductId): (k: int)
    ensures -1 <= k < |cart|
    ensures 0 <= k ==> cart[k].product == p
    ensures k == -1 <==> forall i :: 0 <= i < |cart| ==> cart[i].product != p
  {
    if cart == [] then -1
    else if cart[0].product == p then 0
    else
      var k := IndexOf(cart[1..], p);
      assert forall i :: 1 <= i < |cart| ==> cart[i] == cart[1..][i - 1];
      if k == -1 then -1 else k + 1
  }

  function RemoveAt(cart: seq<CartItem>, k: nat): seq<CartItem>
    requires k < |cart|
  {
    cart[..k] + cart[k + 1..]
  }

  lemma {:induction false} QuantityAppend(a: seq<CartItem>, b: seq<CartItem>, x: ProductId)
    ensures Quantity(a + b, x) == Quantity(a, x) + Quantity(b, x)
  {
    if a == [] {
      assert a + b == b;
    } else {
      assert (a + b)[1..] == a[1..] + b;
      QuantityAppend(a[1..], b, x);
    }
  }

  lemma {:induction false} QuantityAbsent(cart: seq<CartItem>, x: ProductId)
    requires forall i :: 0 <= i < |cart| ==> cart[i].product != x
    ensures Quantity(cart, x) == 0
  {
    if cart != [] {
      assert forall i :: 0 <= i < |cart[1..]| ==> cart[1..][i] == cart[i + 1];
      QuantityAbsent(cart[1..], x);
    }
  }

  /** Splitting a cart at line k: the lines before it, the line, the lines after. */
  lemma QuantitySplit(cart: seq<CartItem>, k: nat, x: ProductId)
    requires k < |cart|
    ensures Quantity(cart, x) ==
      Quantity(cart[..k], x) + (if cart[k].product == x then cart[k].quantity else 0) + Quantity(cart[k + 1..], x)
  {
    assert cart == cart[..k] + ([cart[k]] + cart[k + 1..]);
    QuantityAppend(cart[..k], [cart[k]] + cart[k + 1..], x);
    QuantityAppend([cart[k]], cart[k + 1..], x);
    assert ([cart[k]] + cart[k + 1..])[1..] == cart[k + 1..];
  }

  /** With distinct lines, the quantity of a product is that of its one line. */
  lemma QuantityOfLine(cart: seq<CartItem>, k: nat)
    requires DistinctLines(cart) && k < |cart|
    ensures Quantity(cart, cart[k].product) == cart[k].quantity
  {
    var x := cart[k].product;
    QuantitySplit(cart, k, x);
    QuantityAbsent(cart[..k], x);
    QuantityAbsent(cart[k + 1..], x);
  }

  /** Setting line k to quantity n changes that product's quantity only. */
  lemma QuantityReplace(cart: seq<CartItem>, k: nat, n: nat, x: ProductId)
    requires k < |cart|
    ensures var c := cart[k := CartItem(cart[k].product, n)];
      Quantity(c, x) + (if cart[k].product == x then cart[k].quantity else 0)
      == Quantity(cart, x) + (if cart[k].product == x then n else 0)
  {
    var c := cart[k := CartItem(cart[k].product, n)];
    QuantitySplit(cart, k, x);
    QuantitySplit(c, k, x);
    assert c[..k] == cart[..k] && c[k + 1..] == cart[k + 1..];
  }

  /** Deleting line k removes that line's quantity only. */
  lemma QuantityRemove(cart: seq<CartItem>, k: nat, x: ProductId)
    requires k < |cart|
    ensures Quantity(RemoveAt(cart, k), x) + (if cart[k].product == x then cart[k].quantity else 0)
      == Quantity(cart, x)
  {
    QuantitySplit(cart, k, x);
    QuantityAppend(cart[..k], cart[k + 1..], x);
  }

  lemma RemoveAtKeepsWellFormed(cart: seq<CartItem>, k: nat)
    requires WellFormedCart(cart) && k < |cart|
    ensures WellFormedCart(RemoveAt(cart, k))
    ensures forall i :: 0 <= i < |RemoveAt(cart, k)| ==> RemoveAt(cart, k)[i].product != cart[k].product
  {
    var r := RemoveAt(cart, k);
    assert forall i :: 0 <= i < |r| ==> r[i] == if i < k then cart[i] else cart[i + 1];
  }

  lemma ProductsAppend(cart: seq<CartItem>, line: CartItem)
    ensures Products(cart + [line]) == Products(cart) + {line.product}
  {
    var c := cart + [line];
    assert c[|cart|].product == line.product;
    forall x | x in Products(cart) ensures x in Products(c) {
      var i :| 0 <= i < |cart| && cart[i].product == x;
      assert c[i].product == x;
    }
  }

  lemma ProductsReplace(cart: seq<CartItem>, k: nat, n: nat)
    requires k < |cart|
    ensures Products(cart[k := CartItem(cart[k].product, n)]) == Products(cart)
  {
    var c := cart[k := CartItem(cart[k].product, n)];
    forall x | x in Products(cart) ensures x in Products(c) {
      var i :| 0 <= i < |cart| && cart[i].product == x;
      assert c[i].product == x;
    }
  }

  lemma ProductsRemove(cart: seq<CartItem>, k: nat)
    requires DistinctLines(cart) && k < |cart|
    ensures Products(RemoveAt(cart, k)) == Products(cart) - {cart[k].product}
  {
    var r := RemoveAt(cart, k);
    assert forall i :: 0 <= i < |r| ==> r[i] == if i < k then cart[i] else cart[i + 1];
    forall x | x in Products(cart) - {cart[k].product} ensures x in Products(r) {
      var i :| 0 <= i < |cart| && cart[i].product == x;
      assert r[if i < k then i else i - 1].product == x;
    }
  }

  /** Setting line k to a positive quantity n: the cart stays well-formed,
      holds n of that line's product, and keeps every other product and the
      set of products. */
  lemma ReplaceLine(cart: seq<CartItem>, k: nat, n: nat)
    requires WellFormedCart(cart) && k < |cart| && n >= 1
    ensures var c := cart[k := CartItem(cart[k].product, n)];
      && WellFormedCart(c) && c[k].product == cart[k].product
      && Quantity(c, cart[k].product) == n
      && (forall x :: x != cart[k].product ==> Quantity(c, x) == Quantity(cart, x))
      && Products(c) == Products(cart)
  {
    var c := cart[k := CartItem(cart[k].product, n)];
    QuantityOfLine(cart, k);
    QuantityOfLine(c, k);
    forall x | x != cart[k].product ensures Quantity(c, x) == Quantity(cart, x) {
      QuantityReplace(cart, k, n, x);
    }
    ProductsReplace(cart, k, n);
  }

  /** Deleting line k: the cart stays well-formed, one line shorter, without
      that line's product, and keeps every other product. */
  lemma DeleteLine(cart: seq<CartItem>, k: nat)
    requires WellFormedCart(cart) && k < |cart|
    ensures var c := RemoveAt(cart, k);
      && WellFormedCart(c) && |c| == |cart| - 1
      && IndexOf(c, cart[k].product) == -1 && Quantity(c, cart[k].product) == 0
      && (forall x :: x != cart[k].product ==> Quantity(c, x) == Quantity(cart, x))
      && Products(c) == Products(cart) - {cart[k].product}
  {
    var c := RemoveAt(cart, k);
    RemoveAtKeepsWellFormed(cart, k);
    ProductsRemove(cart, k);
    QuantityAbsent(c, cart[k].product);
    forall x | x != cart[k].product ensures Quantity(c, x) == Quantity(cart, x) {
      QuantityRemove(cart, k, x);
    }
  }

  /** add_to_cart once the product is found: refused when the product is out
      of stock or one more unit would exceed the stock; otherwise the product's
      quantity grows by exactly one (an existing line is incremented in place,
      a new line of quantity 1 is appended) and no other product changes. */
  function AddOne(cart: seq<CartItem>, p: ProductId, stock: nat): (r: Result<seq<CartItem>>)
    requires WellFormedCart(cart)
    ensures r.Err? <==> stock == 0 || Quantity(cart, p) + 1 > stock
    ensures r.Err? ==> r.error == if stock == 0 then OutOfStock(p) else InsufficientStock(p)
    ensures r.Ok? ==> WellFormedCart(r.value)
    ensures r.Ok? ==> Quantity(r.value, p) == Quantity(cart, p) + 1 <= stock
    ensures r.Ok? ==> forall x :: x != p ==> Quantity(r.value, x) == Quantity(cart, x)
    ensures r.Ok? ==> |r.value| == if IndexOf(cart, p) == -1 then |cart| + 1 else |cart|
    ensures r.Ok? ==> Products(r.value) == Products(cart) + {p}
  {
    if stock == 0 then Err(OutOfStock(p))
    else
      var k := IndexOf(cart, p);
      if k >= 0 then
        QuantityOfLine(cart, k);
        if cart[k].quantity + 1 > stock then Err(InsufficientStock(p))
        else
          ReplaceLine(cart, k, cart[k].quantity + 1);
          Ok(cart[k := CartItem(p, cart[k].quantity + 1)])
      else
        var c := cart + [CartItem(p, NewLineQuantity)];
        QuantityAbsent(cart, p);
        ProductsAppend(cart, CartItem(p, NewLineQuantity));
        forall x ensures Quantity(c, x) == Quantity(cart, x) + (if p == x then NewLineQuantity else 0) {
          QuantityAppend(cart, [CartItem(p, NewLineQuantity)], x);
          assert [CartItem(p, NewLineQuantity)][1..] == [];
        }
        if NewLineQuantity > stock then Err(InsufficientStock(p)) else Ok(c)
  }

  /** A product in stock that has no line yet always gets a new line: the
      branch that deletes an over-stock new line can never be taken. */
  lemma NewLineNeverRejected(cart: seq<CartItem>, p: ProductId, stock: nat)
    requires WellFormedCart(cart) && stock > 0 && IndexOf(cart, p) == -1
    ensures AddOne(cart, p, stock).Ok?
    ensures NewLineQuantity <= stock
  {
    QuantityAbsent(cart, p);
  }

  /** update_cart_item once the request is parsed: a missing line is not
      found; a quantity above the stock is refused and changes nothing; a
      positive quantity becomes the product's quantity exactly; zero or less
      deletes the line. Other products never change. */
  function SetQuantity(cart: seq<CartItem>, p: ProductId, q: int, stock: nat): (r: Result<seq<CartItem>>)
    requires WellFormedCart(cart)
    ensures IndexOf(cart, p) == -1 ==> r == Err(NotFound)
    ensures IndexOf(cart, p) != -1 ==> (r.Err? <==> q > stock)
    ensures IndexOf(cart, p) != -1 && r.Err? ==> r.error == InsufficientStock(p)
    ensures r.Ok? ==> WellFormedCart(r.value)
    ensures r.Ok? ==> Quantity(r.value, p) == (if q > 0 then q else 0) <= stock
    ensures r.Ok? ==> forall x :: x != p ==> Quantity(r.value, x) == Quantity(cart, x)
    ensures r.Ok? ==> (IndexOf(r.value, p) == -1 <==> q <= 0)
    ensures r.Ok? ==> Products(r.value) <= Products(cart)
  {
    var k := IndexOf(cart, p);
    if k == -1 then Err(NotFound)
    else if q > stock then Err(InsufficientStock(p))
    else if q > 0 then
      ReplaceLine(cart, k, q);
      Ok(cart[k := CartItem(p, q)])
    else
      DeleteLine(cart, k);
      Ok(RemoveAt(cart, k))
  }

  /** remove_from_cart once the line is found: the line is deleted and no
      other product changes; a missing line is not found. */
  function RemoveLine(cart: seq<CartItem>, p: ProductId): (r: Result<seq<CartItem>>)
    requires WellFormedCart(cart)
    ensures r.Err? <==> IndexOf(cart, p) == -1
    ensures r.Err? ==> r.error == NotFound
    ensures r.Ok? ==> WellFormedCart(r.value) && |r.value| == |cart| - 1
    ensures r.Ok? ==> IndexOf(r.value, p) == -1 && Quantity(r.value, p) == 0
    ensures r.Ok? ==> forall x :: x != p ==> Quantity(r.value, x) == Quantity(cart, x)
    ensures r.Ok? ==> Products(r.value) == Products(cart) - {p}
  {
    var k := IndexOf(cart, p);
    if k == -1 then Err(NotFound)
    else
      DeleteLine(cart, k);
      Ok(RemoveAt(cart, k))
  }
}
