/** Stock reconciliation against the lines of an order
    (wallpaper_store/store/views.py): checkout takes stock out, cancelling or
    deleting an order puts it back, and an administrator moving an order out
    of "cancelled" takes it out again line by line. */
module Inventory {
  import opened Models

  /** Units on hand per product; a PositiveIntegerField, so never negative. */
  type Stock = map<ProductId, nat>

  /** The quantity of product x that the order lines hold. */
  function Ordered(items: seq<OrderItem>, x: ProductId): nat
  {
    if items == [] then 0
    else (if items[0].product == x then items[0].quantity else 0) + Ordered(items[1..], x)
  }

  /** At most one line per product: a checkout copies one cart line per product. */
  predicate DistinctItems(items: seq<OrderItem>)
  {
    forall i, j :: 0 <= i < j < |items| ==> items[i].product != items[j].product
  }

  /** Every line names a product the catalogue holds. */
  predicate Known(stock: Stock, items: seq<OrderItem>)
  {
    forall i :: 0 <= i < |items| ==> items[i].product in stock
  }

  /** Every line, on its own, fits in the stock of its product. */
  predicate Fits(stock: Stock, items: seq<OrderItem>)
  {
    Known(stock, items) && forall i :: 0 <= i < |items| ==> items[i].quantity <= stock[items[i].product]
  }

  /** The stock of every product covers all the lines for that product. */
  predicate Covers(stock: Stock, items: seq<OrderItem>)
  {
    forall x :: x in stock ==> Ordered(items, x) <= stock[x]
  }

  /** The stock once every line's quantity is put back. */
  function Restock(stock: Stock, items: seq<OrderItem>): (r: Stock)
    ensures r.Keys == stock.Keys
    ensures forall x {:trigger r[x]} :: x in stock ==> r[x] >= stock[x]
    ensures forall x {:trigger r[x]} :: x in stock && Ordered(items, x) == 0 ==> r[x] == stock[x]
  {
    map x | x in stock :: stock[x] + Ordered(items, x)
  }

  /** The stock once every line's quantity is taken out. */
  function Withdraw(stock: Stock, items: seq<OrderItem>): (r: Stock)
    requires Covers(stock, items)
    ensures r.Keys == stock.Keys
    ensures forall x {:trigger r[x]} :: x in stock ==> r[x] <= stock[x]
    ensures forall x {:trigger r[x]} :: x in stock && Ordered(items, x) == 0 ==> r[x] == stock[x]
  {
    map x | x in stock :: stock[x] - Ordered(items, x)
  }

  /** The outcome of taking an order's lines out of stock one at a time:
      every line taken, or a line that did not fit, with the stock as it
      stood when that line was reached. */
  datatype Redepletion = Redepleted(stock: Stock) | Short(stock: Stock, product: ProductId)

  /** The admin's move out of "cancelled", from line i on: each line is
      checked and, if it fits, taken out before the next line is looked at;
      the first line that does not fit stops the walk. */
  function RedepleteFrom(stock: Stock, items: seq<OrderItem>, i: nat): (r: Redepletion)
    requires i <= |items| && Known(stock, items)
    ensures r.stock.Keys == stock.Keys
    ensures forall x {:trigger r.stock[x]} :: x in stock ==> r.stock[x] <= stock[x]
    ensures r.Short? ==>
      exists j :: i <= j < |items| && items[j].product == r.product && items[j].quantity > r.stock[r.product]
    decreases |items| - i
  {
    if i == |items| then Redepleted(stock)
    else
      var it := items[i];
      if it.quantity > stock[it.product] then Short(stock, it.product)
      else RedepleteFrom(stock[it.product := stock[it.product] - it.quantity], items, i + 1)
  }

  /** The first line from i on that does not fit in the stock, or |items|. */
  function FirstShortage(stock: Stock, items: seq<OrderItem>, i: nat): (k: nat)
    requires i <= |items| && Known(stock, items)
    ensures i <= k <= |items|
    ensures forall j :: i <= j < k ==> items[j].quantity <= stock[items[j].product]
    ensures k < |items| ==> items[k].quantity > stock[items[k].product]
    decreases |items| - i
  {
    if i == |items| then i
    else if items[i].quantity > stock[items[i].product] then i
    else FirstShortage(stock, items, i + 1)
  }

  // ---------------------------------------------------------------------------
  // Quantities of order lines
  // ---------------------------------------------------------------------------

  lemma {:induction false} OrderedAppend(a: seq<OrderItem>, b: seq<OrderItem>, x: ProductId)
    ensures Ordered(a + b, x) == Ordered(a, x) + Ordered(b, x)
  {
    if a == [] {
      assert a + b == b;
    } else {
      assert (a + b)[1..] == a[1..] + b;
      OrderedAppend(a[1..], b, x);
    }
  }

  lemma {:induction false} OrderedAbsent(items: seq<OrderItem>, x: ProductId)
    requires forall i :: 0 <= i < |items| ==> items[i].product != x
    ensures Ordered(items, x) == 0
  {
    if items != [] {
      assert forall i :: 0 <= i < |items[1..]| ==> items[1..][i] == items[i + 1];
      OrderedAbsent(items[1..], x);
    }
  }

  /** With distinct lines, the quantity ordered of a product is that of its one line. */
  lemma {:induction false} OrderedOfLine(items: seq<OrderItem>, k: nat)
    requires DistinctItems(items) && k < |items|
    ensures Ordered(items, items[k].product) == items[k].quantity
  {
    var x := items[k].product;
    assert items == items[..k] + ([items[k]] + items[k + 1..]);
    OrderedAppend(items[..k], [items[k]] + items[k + 1..], x);
    OrderedAppend([items[k]], items[k + 1..], x);
    assert ([items[k]] + items[k + 1..])[1..] == items[k + 1..];
    OrderedAbsent(items[..k], x);
    OrderedAbsent(items[k + 1..], x);
  }

  /** Distinct lines that each fit in the stock are covered by it. */
  lemma {:induction false} FitsCovers(stock: Stock, items: seq<OrderItem>)
    requires DistinctItems(items) && Fits(stock, items)
    ensures Covers(stock, items)
  {
    forall x | x in stock ensures Ordered(items, x) <= stock[x] {
      if k :| 0 <= k < |items| && items[k].product == x {
        OrderedOfLine(items, k);
      } else {
        OrderedAbsent(items, x);
      }
    }
  }

  /** Taking out a first line and then the rest is taking out the whole. */
  lemma {:induction false} WithdrawFirst(stock: Stock, it: OrderItem, rest: seq<OrderItem>)
    requires it.product in stock && it.quantity <= stock[it.product]
    requires Ordered(rest, it.product) == 0
    requires Covers(stock[it.product := stock[it.product] - it.quantity], rest)
    ensures Covers(stock, [it] + rest)
    ensures Withdraw(stock[it.product := stock[it.product] - it.quantity], rest) == Withdraw(stock, [it] + rest)
  {
    var p := it.product;
    var s' := stock[p := stock[p] - it.quantity];
    forall x | x in stock
      ensures Ordered([it] + rest, x) == (if x == p then it.quantity else 0) + Ordered(rest, x)
    {
      OrderedAppend([it], rest, x);
      assert [it][1..] == [];
    }
    var l := Withdraw(s', rest);
    var r := Withdraw(stock, [it] + rest);
    assert l.Keys == r.Keys;
    forall x | x in l ensures l[x] == r[x] {
    }
  }

  /** Taking out some lines and then one more line, for a product those
      lines do not name, is taking out all of them. */
  lemma {:induction false} WithdrawLast(stock: Stock, items: seq<OrderItem>, it: OrderItem)
    requires Covers(stock, items)
    requires it.product in stock && it.quantity <= stock[it.product]
    requires Ordered(items, it.product) == 0
    ensures Covers(stock, items + [it])
    ensures Withdraw(stock, items)[it.product := stock[it.product] - it.quantity] == Withdraw(stock, items + [it])
  {
    var p := it.product;
    forall x | x in stock
      ensures Ordered(items + [it], x) == Ordered(items, x) + (if x == p then it.quantity else 0)
    {
      OrderedAppend(items, [it], x);
      assert [it][1..] == [];
    }
    var l := Withdraw(stock, items)[p := stock[p] - it.quantity];
    var r := Withdraw(stock, items + [it]);
    assert l.Keys == r.Keys;
    forall x | x in l ensures l[x] == r[x] {
    }
  }

  // ---------------------------------------------------------------------------
  // Round trips
  // ---------------------------------------------------------------------------

  /** Cancelling an order placed by checkout puts back exactly what the
      checkout took out. */
  lemma {:induction false} WithdrawThenRestock(stock: Stock, items: seq<OrderItem>)
    requires Covers(stock, items)
    ensures Restock(Withdraw(stock, items), items) == stock
  {
  }

  /** Whatever was put back can be taken out again, leaving the stock as before. */
  lemma {:induction false} RestockThenWithdraw(stock: Stock, items: seq<OrderItem>)
    ensures Covers(Restock(stock, items), items)
    ensures Withdraw(Restock(stock, items), items) == stock
  {
  }

  /** Stock differing only in products the lines from i on do not name gives
      the same first shortage. */
  lemma {:induction false} FirstShortageFrame(s: Stock, t: Stock, items: seq<OrderItem>, i: nat)
    requires i <= |items| && Known(s, items) && Known(t, items)
    requires forall j :: i <= j < |items| ==> s[items[j].product] == t[items[j].product]
    ensures FirstShortage(s, items, i) == FirstShortage(t, items, i)
    decreases |items| - i
  {
    if i < |items| && items[i].quantity <= s[items[i].product] {
      FirstShortageFrame(s, t, items, i + 1);
    }
  }

  /** The admin's line-by-line walk from line i, in closed form: it stops at
      the first line that does not fit, and the stock it leaves is the stock
      with the lines before that one already taken out. When every line fits,
      every line is taken out. */
  lemma {:induction false} RedepleteOutcome(stock: Stock, items: seq<OrderItem>, i: nat)
    requires DistinctItems(items) && Known(stock, items) && i <= |items|
    ensures var k := FirstShortage(stock, items, i);
      Covers(stock, items[i..k])
      && RedepleteFrom(stock, items, i) ==
        if k == |items| then Redepleted(Withdraw(stock, items[i..k]))
        else Short(Withdraw(stock, items[i..k]), items[k].product)
    decreases |items| - i
  {
    var k := FirstShortage(stock, items, i);
    if k == i {
      assert items[i..k] == [];
      assert Withdraw(stock, items[i..k]) == stock;
    } else {
      assert items[i].quantity <= stock[items[i].product];
      var s' := stock[items[i].product := stock[items[i].product] - items[i].quantity];
      FirstShortageAfterTaking(stock, items, i);
      RedepleteOutcome(s', items, i + 1);
      RedepleteStep(stock, items, i, k);
    }
  }

  /** Taking out a line that fits leaves the first shortage among the later
      lines where it was, since no later line names the same product. */
  lemma {:induction false} FirstShortageAfterTaking(stock: Stock, items: seq<OrderItem>, i: nat)
    requires DistinctItems(items) && Known(stock, items) && i < |items|
    requires items[i].quantity <= stock[items[i].product]
    ensures var s' := stock[items[i].product := stock[items[i].product] - items[i].quantity];
      Known(s', items) && FirstShortage(s', items, i + 1) == FirstShortage(stock, items, i)
  {
    var p := items[i].product;
    var s' := stock[p := stock[p] - items[i].quantity];
    assert Known(s', items);
    forall j | i + 1 <= j < |items| ensures s'[items[j].product] == stock[items[j].product] {
      assert items[j].product != p;
    }
    FirstShortageFrame(s', stock, items, i + 1);
  }

  /** One step of the walk: if the first line fits and the walk from the
      next line on, over the stock without that line, has the closed form,
      then so has the walk from the first line. */
  lemma {:induction false} RedepleteStep(stock: Stock, items: seq<OrderItem>, i: nat, k: nat)
    requires DistinctItems(items) && Known(stock, items) && i < k <= |items|
    requires items[i].quantity <= stock[items[i].product]
    requires var s' := stock[items[i].product := stock[items[i].product] - items[i].quantity];
      Covers(s', items[i + 1..k])
      && RedepleteFrom(s', items, i + 1) ==
        if k == |items| then Redepleted(Withdraw(s', items[i + 1..k]))
        else Short(Withdraw(s', items[i + 1..k]), items[k].product)
    ensures Covers(stock, items[i..k])
      && RedepleteFrom(stock, items, i) ==
        if k == |items| then Redepleted(Withdraw(stock, items[i..k]))
        else Short(Withdraw(stock, items[i..k]), items[k].product)
  {
    var it := items[i];
    var s' := stock[it.product := stock[it.product] - it.quantity];
    var rest := items[i + 1..k];
    assert items[i..k] == [it] + rest;
    RedepleteLaterLines(items, i, k);
    WithdrawFirst(stock, it, rest);
    var w := Withdraw(stock, items[i..k]);
    assert Withdraw(s', rest) == w;
    RedepleteTaken(stock, items, i);
    if k == |items| {
      assert RedepleteFrom(s', items, i + 1) == Redepleted(w);
    } else {
      assert RedepleteFrom(s', items, i + 1) == Short(w, items[k].product);
    }
  }

  /** With one line per product, the lines after line i do not name its product. */
  lemma {:induction false} RedepleteLaterLines(items: seq<OrderItem>, i: nat, k: nat)
    requires DistinctItems(items) && i < k <= |items|
    ensures Ordered(items[i + 1..k], items[i].product) == 0
  {
    var rest := items[i + 1..k];
    assert forall j :: 0 <= j < |rest| ==> rest[j] == items[i + 1 + j];
    OrderedAbsent(rest, items[i].product);
  }

  /** A line that fits is taken out before the walk moves on. */
  lemma {:induction false} RedepleteTaken(stock: Stock, items: seq<OrderItem>, i: nat)
    requires i < |items| && Known(stock, items)
    requires items[i].quantity <= stock[items[i].product]
    ensures RedepleteFrom(stock, items, i)
      == RedepleteFrom(stock[items[i].product := stock[items[i].product] - items[i].quantity], items, i + 1)
  {
  }

  /** The admin's move out of "cancelled" succeeds exactly when every line
      fits, and then takes every line out of stock. */
  lemma {:induction false} RedepleteSucceedsIffFits(stock: Stock, items: seq<OrderItem>)
    requires DistinctItems(items) && Known(stock, items)
    ensures RedepleteFrom(stock, items, 0).Redepleted? <==> Fits(stock, items)
    ensures Fits(stock, items) ==>
      Covers(stock, items) && RedepleteFrom(stock, items, 0) == Redepleted(Withdraw(stock, items))
  {
    RedepleteOutcome(stock, items, 0);
    assert items[0..|items|] == items;
  }

  /** Cancel then restore is net zero: after the lines are put back, moving
      the order out of "cancelled" always succeeds and leaves the stock as it
      was before the cancellation. */
  lemma {:induction false} CancelThenRestore(stock: Stock, items: seq<OrderItem>)
    requires DistinctItems(items) && Known(stock, items)
    ensures RedepleteFrom(Restock(stock, items), items, 0) == Redepleted(stock)
  {
    var up := Restock(stock, items);
    forall i | 0 <= i < |items| ensures items[i].quantity <= up[items[i].product] {
      OrderedOfLine(items, i);
    }
    RedepleteSucceedsIffFits(up, items);
    RestockThenWithdraw(stock, items);
  }

  /** The walk is not all-or-nothing: with two units of product 1 in stock 5
      and one unit of product 2 in stock 0, it is refused on product 2 after
      product 1 has already dropped to 3. */
  lemma {:induction false} RedepleteIsNotAtomic()
    ensures var items := [OrderItem(1, 2, 100), OrderItem(2, 1, 100)];
      RedepleteFrom(map[1 := 5, 2 := 0], items, 0) == Short(map[1 := 3, 2 := 0], 2)
  {
    var items := [OrderItem(1, 2, 100), OrderItem(2, 1, 100)];
    var s: Stock := map[1 := 5, 2 := 0];
    var t: Stock := s[1 := 3];
    assert t == map[1 := 3, 2 := 0];
    assert items[1].product == 2 && items[1].quantity == 1 && t[2] == 0;
    assert RedepleteFrom(t, items, 1) == Short(t, 2);
    assert RedepleteFrom(s, items, 0) == RedepleteFrom(t, items, 1);
  }
}
