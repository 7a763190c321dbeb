/** Entities of the store and the small helpers defined on them
    (wallpaper_store/store/models.py). */
module Models {

  type ProductId = nat
  type CategoryId = nat
  type UserId = nat
  type OrderId = nat

  /** Money in kopecks: every price is a DecimalField with two decimal places. */
  type Cents = int

  /** Flat fee added at checkout for home delivery: 500 roubles. */
  const DeliveryFee: Cents := 500 * 100

  /** Quantity of a cart line when it is first created. */
  const NewLineQuantity: nat := 1

  datatype Role = Admin | Customer

  /** Order.STATUS_CHOICES */
  datatype Status = New | Processing | Paid | Shipped | Completed | Cancelled

  /** Order.DELIVERY_CHOICES */
  datatype DeliveryMethod = Pickup | Delivery

  /** Order.PAYMENT_CHOICES */
  datatype PaymentMethod = Online | CashOnDelivery

  /** The requesting account: an anonymous visitor or a signed-in user. */
  datatype Account = Anonymous | Member(id: UserId, role: Role, superuser: bool)

  /** The address fields of a user profile. */
  datatype Profile = Profile(postalCode: string, country: string, city: string, address: string)

  /** One line of a cart: a product and the wanted quantity. */
  datatype CartItem = CartItem(product: ProductId, quantity: nat)

  /** One frozen line of an order: the price is the product's price at checkout. */
  datatype OrderItem = OrderItem(product: ProductId, quantity: nat, price: Cents)

  datatype Order = Order(
    user: UserId,
    status: Status,
    delivery: DeliveryMethod,
    payment: PaymentMethod,
    totalPrice: Cents,
    shippingAddress: string,
    shippingCity: string,
    shippingZipCode: string,
    items: seq<OrderItem>)

  /** The errors a request can end with; each leaves a message for the user. */
  datatype Error =
    | NotFound
    | Forbidden
    | OutOfStock(product: ProductId)
    | InsufficientStock(product: ProductId)
    | EmptyCart
    | InvalidTransition
    | NegativeStock
    | CategoryHasProducts
    | UnknownCategory

  datatype Result<T> = Ok(value: T) | Err(error: Error)

  datatype Option<T> = None | Some(value: T)

  // ---------------------------------------------------------------------------
  // Totals
  // ---------------------------------------------------------------------------

  /** CartItem.total_price: the line's quantity at the product's current price. */
  function CartItemTotal(item: CartItem, price: Cents): (t: Cents)
    ensures t == 0 <==> price == 0 || item.quantity == 0
    ensures price >= 0 ==> t >= 0
  {
    price * item.quantity
  }

  predicate PricesKnown(cart: seq<CartItem>, prices: map<ProductId, Cents>)
  {
    forall i :: 0 <= i < |cart| ==> cart[i].product in prices
  }

  /** Cart.total_price: the sum of the line totals. */
  function CartTotal(cart: seq<CartItem>, prices: map<ProductId, Cents>): (t: Cents)
    requires PricesKnown(cart, prices)
    ensures cart == [] ==> t == 0
    ensures (forall x :: x in prices ==> prices[x] >= 0) ==> t >= 0
  {
    if cart == [] then 0
    else CartItemTotal(cart[0], prices[cart[0].product]) + CartTotal(cart[1..], prices)
  }

  /** Cart.total_items: the sum of the line quantities. */
  function TotalItems(cart: seq<CartItem>): (n: nat)
    ensures n == 0 <==> forall i :: 0 <= i < |cart| ==> cart[i].quantity == 0
    ensures forall i :: 0 <= i < |cart| ==> cart[i].quantity <= n
  {
    if cart == [] then 0
    else
      assert forall i :: 1 <= i < |cart| ==> cart[i] == cart[1..][i - 1];
      cart[0].quantity + TotalItems(cart[1..])
  }

  /** OrderItem.total_price: the line's quantity at its frozen price. */
  function OrderItemTotal(item: OrderItem): (t: Cents)
    ensures t == 0 <==> item.price == 0 || item.quantity == 0
    ensures item.price >= 0 ==> t >= 0
  {
    item.price * item.quantity
  }

  /** The sum that Order.update_total_price stores: the line totals, no fee. */
  function ItemsTotal(items: seq<OrderItem>): (t: Cents)
    ensures items == [] ==> t == 0
    ensures (forall i :: 0 <= i < |items| ==> items[i].price >= 0) ==> t >= 0
  {
    if items == [] then 0
    else
      assert forall i :: 1 <= i < |items| ==> items[i] == items[1..][i - 1];
      OrderItemTotal(items[0]) + ItemsTotal(items[1..])
  }

  /** The fee checkout adds on top of the cart total. */
  function DeliveryCharge(d: DeliveryMethod): Cents
  {
    if d == Delivery then DeliveryFee else 0
  }

  /** The cart total splits over any split of the cart. */
  lemma {:induction false} CartTotalAppend(a: seq<CartItem>, b: seq<CartItem>, prices: map<ProductId, Cents>)
    requires PricesKnown(a, prices) && PricesKnown(b, prices)
    ensures PricesKnown(a + b, prices)
    ensures CartTotal(a + b, prices) == CartTotal(a, prices) + CartTotal(b, prices)
  {
    if a == [] {
      assert a + b == b;
    } else {
      assert (a + b)[1..] == a[1..] + b;
      CartTotalAppend(a[1..], b, prices);
    }
  }

  /** A cart whose every line holds at least one unit has at least as many
      items as lines, and exactly as many when every line holds one unit. */
  lemma {:induction false} TotalItemsAtLeastLines(cart: seq<CartItem>)
    requires forall i :: 0 <= i < |cart| ==> cart[i].quantity >= 1
    ensures TotalItems(cart) >= |cart|
    ensures TotalItems(cart) == |cart| <==> forall i :: 0 <= i < |cart| ==> cart[i].quantity == 1
  {
    if cart != [] {
      TotalItemsAtLeastLines(cart[1..]);
      if TotalItems(cart) == |cart| {
        forall i | 0 <= i < |cart| ensures cart[i].quantity == 1 {
          if i > 0 { assert cart[i] == cart[1..][i - 1]; }
        }
      }
      if forall i :: 0 <= i < |cart| ==> cart[i].quantity == 1 {
        assert forall i :: 0 <= i < |cart[1..]| ==> cart[1..][i].quantity == 1 by {
          forall i | 0 <= i < |cart[1..]| ensures cart[1..][i].quantity == 1 {
            assert cart[1..][i] == cart[i + 1];
          }
        }
      }
    }
  }

  // ---------------------------------------------------------------------------
  // User.get_full_address
  // ---------------------------------------------------------------------------

  const AddressSeparator: string := ", "
  const CityPrefix: string := "г. "
  const NoAddress: string := "Адрес не указан"

  predicate NoAddressFields(p: Profile)
  {
    p.postalCode == "" && p.country == "" && p.city == "" && p.address == ""
  }

  /** The non-empty address fields, in the order postal code, country,
      city (with its prefix), street address. */
  function AddressParts(p: Profile): (parts: seq<string>)
    ensures forall i :: 0 <= i < |parts| ==> parts[i] != ""
    ensures parts == [] <==> NoAddressFields(p)
  {
    (if p.postalCode != "" then [p.postalCode] else [])
    + (if p.country != "" then [p.country] else [])
    + (if p.city != "" then [CityPrefix + p.city] else [])
    + (if p.address != "" then [p.address] else [])
  }

  /** Python's sep.join(parts). */
  function Join(parts: seq<string>, sep: string): string
  {
    if parts == [] then ""
    else if |parts| == 1 then parts[0]
    else parts[0] + sep + Join(parts[1..], sep)
  }

  /** User.get_full_address */
  function FullAddress(p: Profile): (a: string)
    ensures NoAddressFields(p) ==> a == NoAddress
    ensures a != ""
  {
    var parts := AddressParts(p);
    if parts != [] then
      JoinEnds(parts, AddressSeparator);
      Join(parts, AddressSeparator)
    else NoAddress
  }

  /** A join starts with its first part and ends with its last part, so no
      separator is added at either end. */
  lemma {:induction false} JoinEnds(parts: seq<string>, sep: string)
    requires parts != []
    ensures parts[0] <= Join(parts, sep)
    ensures var j := Join(parts, sep); var last := parts[|parts| - 1];
      |last| <= |j| && j[|j| - |last|..] == last
  {
    if |parts| > 1 {
      JoinEnds(parts[1..], sep);
      var rest := Join(parts[1..], sep);
      var j := parts[0] + sep + rest;
      assert j == Join(parts, sep);
      assert parts[1..][|parts[1..]| - 1] == parts[|parts| - 1];
      assert j[|j| - |rest|..] == rest;
      assert j[..|parts[0]|] == parts[0];
    }
  }

  /** The first field the address shows: the postal code, else the country,
      else the prefixed city, else the street address. */
  function FirstAddressField(p: Profile): string
  {
    if p.postalCode != "" then p.postalCode
    else if p.country != "" then p.country
    else if p.city != "" then CityPrefix + p.city
    else p.address
  }

  /** The last field the address shows: the street address, else the
      prefixed city, else the country, else the postal code. */
  function LastAddressField(p: Profile): string
  {
    if p.address != "" then p.address
    else if p.city != "" then CityPrefix + p.city
    else if p.country != "" then p.country
    else p.postalCode
  }

  /** With no address field the placeholder is returned; otherwise the address
      begins with the first shown field and ends with the last shown one, so
      it never begins or ends with a separator that no field supplies. */
  lemma FullAddressShape(p: Profile)
    ensures NoAddressFields(p) ==> FullAddress(p) == NoAddress
    ensures !NoAddressFields(p) ==>
      var a := FullAddress(p); var last := LastAddressField(p);
      FirstAddressField(p) <= a && |last| <= |a| && a[|a| - |last|..] == last
  {
    if !NoAddressFields(p) {
      var parts := AddressParts(p);
      JoinEnds(parts, AddressSeparator);
      assert parts[0] == FirstAddressField(p);
      assert parts[|parts| - 1] == LastAddressField(p);
    }
  }

  /** With every field filled in, the four fields appear in order, joined by
      the separator, the city with its prefix. */
  lemma FullAddressComplete(p: Profile)
    requires p.postalCode != "" && p.country != "" && p.city != "" && p.address != ""
    ensures FullAddress(p) == p.postalCode + ", " + p.country + ", " + "г. " + p.city + ", " + p.address
  {
    var parts := AddressParts(p);
    assert parts == [p.postalCode, p.country, CityPrefix + p.city, p.address];
    assert parts[1..] == [p.country, CityPrefix + p.city, p.address];
    assert parts[1..][1..] == [CityPrefix + p.city, p.address];
    assert parts[1..][1..][1..] == [p.address];
    var city := CityPrefix + p.city;
    assert Join(parts[1..][1..], AddressSeparator) == city + ", " + p.address;
    assert Join(parts[1..], AddressSeparator) == p.country + ", " + (city + ", " + p.address);
    assert Join(parts, AddressSeparator) == p.postalCode + ", " + (p.country + ", " + (city + ", " + p.address));
  }

  /** The placeholder does not mean the profile is empty: a street address
      that reads like the placeholder gives the same string. */
  lemma PlaceholderIsAmbiguous()
    ensures var p := Profile("", "", "", NoAddress);
      !NoAddressFields(p) && FullAddress(p) == NoAddress
  {
    var p := Profile("", "", "", NoAddress);
    assert AddressParts(p) == [NoAddress];
  }

  // ---------------------------------------------------------------------------
  // Category.save and Product.save
  // ---------------------------------------------------------------------------

  /** A category; an empty slug stands for a blank or missing one. */
  class Category {
    var name: string
    var slug: string

    constructor (name: string, slug: string)
      ensures this.name == name && this.slug == slug
    {
      this.name := name;
      this.slug := slug;
    }

    /** Category.save: a slug that is already set is kept; a missing one is
        derived from the name by the transliterating slugify. */
    method Save(slugify: string -> string)
      modifies this
      ensures name == old(name)
      ensures old(slug) != "" ==> slug == old(slug)
      ensures old(slug) == "" ==> slug == slugify(name)
    {
      if slug == "" {
        slug := slugify(name);
      }
    }
  }
}
