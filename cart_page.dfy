/** The cart page: the actions its controls dispatch, the totals it shows, the free-shipping
    banner and the per-line stock controls. */
module CartPage {
  import opened Wrappers
  import opened Seqs
  import opened Catalog
  import opened AppContext
  import opened Checkout

  // ---------------------------------------------------------------------------------------
  // The actions behind the controls

  /** `updateQuantity`: a new quantity of 0 removes the line, any other value is stored. */
  function UpdateQuantity(id: int, n: int): (a: Action)
    ensures a.RemoveFromCart? <==> n == 0
    ensures a.RemoveFromCart? || a.UpdateCartItem?
    ensures a.RemoveFromCart? ==> a.id == id
    ensures a.UpdateCartItem? ==> a.id == id && a.quantity == n
  {
    if n == 0 then RemoveFromCart(id) else UpdateCartItem(id, n)
  }

  /** `removeItem`, the "Rimuovi" button. */
  function RemoveItem(id: int): Action {
    RemoveFromCart(id)
  }

  /** The '−' button on a line at quantity 1 does what "Rimuovi" does: the line is gone. */
  lemma DecrementAtOneRemovesLine(st: State, i: int)
    requires 0 <= i < |st.cart| && st.cart[i].quantity == 1
    ensures var line := st.cart[i];
      var next := Reduce(st, UpdateQuantity(line.id, line.quantity - 1));
      && next == Reduce(st, RemoveItem(line.id))
      && forall j :: 0 <= j < |next.cart| ==> next.cart[j].id != line.id
  {
    var x := st.cart[i];
    RemoveDropsExactly(st, x.id, x);
  }

  /** The '−' button on a line above quantity 1 lowers that line by one and touches nothing
      else. */
  lemma DecrementAboveOne(st: State, i: int)
    requires 0 <= i < |st.cart| && st.cart[i].quantity != 1
    requires UniqueIds(st.cart)
    ensures var line := st.cart[i];
      var next := Reduce(st, UpdateQuantity(line.id, line.quantity - 1)).cart;
      && |next| == |st.cart|
      && next[i] == line.(quantity := line.quantity - 1)
      && forall j :: 0 <= j < |next| && j != i ==> next[j] == st.cart[j]
  {
    UpdateLine(st, st.cart[i].id, st.cart[i].quantity - 1);
  }

  // ---------------------------------------------------------------------------------------
  // Totals

  /** `getTotalPrice`: `reduce` from the left, starting at 0. */
  function TotalPrice(cart: seq<LineItem>): real
    decreases |cart|
  {
    if cart == [] then 0.0 else TotalPrice(cart[..|cart| - 1]) + LineTotal(cart[|cart| - 1])
  }

  /** The cart page and the checkout page add up the same amount. */
  lemma {:induction false} TotalPriceIsSubtotal(cart: seq<LineItem>)
    ensures TotalPrice(cart) == Subtotal(cart)
    decreases |cart|
  {
    if cart != [] {
      var init := cart[..|cart| - 1];
      TotalPriceIsSubtotal(init);
      SubtotalAppend(init, [cart[|cart| - 1]]);
      assert init + [cart[|cart| - 1]] == cart;
      assert Subtotal([cart[|cart| - 1]]) == LineTotal(cart[|cart| - 1]) + Subtotal([]);
    }
  }

  /** How much more the customer must spend to ship for free. */
  function NeedsForFreeShipping(cart: seq<LineItem>): real {
    FreeShippingThreshold - TotalPrice(cart)
  }

  /** The banner appears when that amount is positive. */
  predicate ShowsShippingBanner(cart: seq<LineItem>) {
    NeedsForFreeShipping(cart) > 0.0
  }

  /** The banner shows exactly when checkout would charge shipping, and then names a positive
      amount that would bring the subtotal to the threshold. */
  lemma BannerIffShippingCharged(cart: seq<LineItem>)
    ensures ShowsShippingBanner(cart) <==> Subtotal(cart) < FreeShippingThreshold
    ensures ShowsShippingBanner(cart) <==> ShippingCost(Subtotal(cart)) == ShippingFee
    ensures ShowsShippingBanner(cart) ==>
      NeedsForFreeShipping(cart) > 0.0 && Subtotal(cart) + NeedsForFreeShipping(cart) == FreeShippingThreshold
  {
    TotalPriceIsSubtotal(cart);
  }

  /** The "Totale" row: the subtotal plus 5.99 below the threshold. */
  function DisplayedTotal(cart: seq<LineItem>): real {
    var t := TotalPrice(cart);
    t + (if t >= 75.0 then 0.0 else 5.99)
  }

  /** The total shown in the cart is the one checkout charges when no coupon is applied. */
  lemma DisplayedTotalMatchesCheckout(cart: seq<LineItem>)
    ensures DisplayedTotal(cart) == Total(cart, None)
  {
    TotalPriceIsSubtotal(cart);
  }

  // ---------------------------------------------------------------------------------------
  // Stock controls on a line

  /** The "Solo N disponibili" warning under a line. */
  predicate StockWarning(line: LineItem) {
    line.quantity > line.maxStock
  }

  /** The '+' button is disabled at or above the stock seen when the line was added. */
  predicate IncrementDisabled(line: LineItem) {
    line.quantity >= line.maxStock
  }

  /** An enabled '+' raises only that line by one, and never past its stock: a line without
      the warning still has none afterwards. */
  lemma EnabledIncrementStaysWithinStock(st: State, i: int)
    requires 0 <= i < |st.cart| && UniqueIds(st.cart)
    requires 0 <= st.cart[i].quantity && !IncrementDisabled(st.cart[i])
    ensures var line := st.cart[i];
      var next := Reduce(st, UpdateQuantity(line.id, line.quantity + 1)).cart;
      && |next| == |st.cart|
      && next[i].quantity == line.quantity + 1 <= line.maxStock
      && !StockWarning(next[i])
      && forall j :: 0 <= j < |next| && j != i ==> next[j] == st.cart[j]
  {
    UpdateLine(st, st.cart[i].id, st.cart[i].quantity + 1);
  }
}
