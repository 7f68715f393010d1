/** A product's card in the gallery: its add-to-cart button and its stock line. */
module ProductCard {
  import opened Wrappers
  import opened Strings
  import opened Catalog
  import opened AppContext

  /** The cart line the card's button adds: one unit, with the product's current stock as the
      line's ceiling. */
  function Payload(p: Product): (line: LineItem)
    ensures line.id == p.id && line.name == p.name && line.price == p.price && line.image == p.image
    ensures line.quantity == 1 && line.maxStock == p.inStock
  {
    LineItem(p.id, p.name, p.price, p.image, 1, p.inStock)
  }

  /** The product's cart line at quantity `n`, as the button builds it. */
  function LineOf(p: Product, n: int): LineItem {
    LineItem(p.id, p.name, p.price, p.image, n, p.inStock)
  }

  /** `handleAddToCart`: nothing is dispatched for a product with no stock. */
  function HandleAddToCart(p: Product): (a: Option<Action>)
    ensures a.None? <==> p.inStock == 0
    ensures a.Some? ==> a.value == AddToCart(Payload(p))
  {
    if p.inStock == 0 then None else Some(AddToCart(Payload(p)))
  }

  /** The stock line under the price. */
  function StockLabel(inStock: int): string {
    if inStock > 0 then
      (if inStock < 5 then "Solo " + NatToString(inStock) + " rimasti" else "Disponibile")
    else "Non disponibile"
  }

  /** No stock reads "Non disponibile", one to four units name the count, five or more read
      "Disponibile". */
  lemma StockLabelThresholds(inStock: int)
    ensures StockLabel(inStock) == "Non disponibile" <==> inStock <= 0
    ensures StockLabel(inStock) == "Disponibile" <==> inStock >= 5
    ensures 1 <= inStock < 5 ==> StockLabel(inStock) == "Solo " + [DigitChar(inStock)] + " rimasti"
  {
    if 1 <= inStock < 5 {
      var text := StockLabel(inStock);
      assert text[0] == 'S';
    }
  }

  /** `k` presses of the button, as a sequence of dispatches. */
  function Presses(p: Product, k: nat): seq<Action>
    requires p.inStock != 0
  {
    seq(k, _ => HandleAddToCart(p).value)
  }

  /** Pressing the button `k` times on a product not yet in the cart leaves the cart with one
      new last line for it, of quantity `k`; the earlier lines are untouched. */
  lemma PressesMakeOneLine(st: State, p: Product, k: nat)
    requires p.inStock != 0 && k >= 1
    requires forall i :: 0 <= i < |st.cart| ==> st.cart[i].id != p.id
    ensures ReduceAll(st, Presses(p, k)).cart == st.cart + [LineOf(p, k)]
  {
    PressesAreRepeat(st, p, k);
    FirstPress(st, p);
    PressGrows(p, st.cart);
    IterateFromFirst(Press(p), st, p, k);
  }

  /** The first press on a product not yet in the cart appends its line at quantity one. */
  lemma FirstPress(st: State, p: Product)
    requires p.inStock != 0
    requires forall i :: 0 <= i < |st.cart| ==> st.cart[i].id != p.id
    ensures EndsWith(Press(p)(st).cart, st.cart, p, 1)
  {
    AddNewLine(st, Payload(p));
  }

  /** A step that appends the line at quantity one and then raises it by one each time,
      applied `k` times, leaves it at quantity `k`. */
  lemma IterateFromFirst(f: State -> State, st: State, p: Product, k: nat)
    requires k >= 1
    requires forall s: State, r: int :: EndsWith(s.cart, st.cart, p, r) ==> EndsWith(f(s).cart, st.cart, p, r + 1)
    requires EndsWith(f(st).cart, st.cart, p, 1)
    ensures Iterate(f, st, k).cart == st.cart + [LineOf(p, k)]
  {
    IterateGrows(f, f(st), st.cart, p, 1, k - 1);
    assert Iterate(f, st, k) == Iterate(f, f(st), k - 1);
  }

  /** The reducer step of one press. */
  function Press(p: Product): State -> State {
    (s: State) => Reduce(s, AddToCart(Payload(p)))
  }

  /** `n` successive applications of a state step. */
  function Iterate(f: State -> State, st: State, n: nat): State
    decreases n
  {
    if n == 0 then st else Iterate(f, f(st), n - 1)
  }

  /** The cart is `before` followed by the product's line at quantity `q`. */
  predicate EndsWith(cart: seq<LineItem>, before: seq<LineItem>, p: Product, q: int) {
    cart == before + [LineOf(p, q)]
  }

  /** Dispatching the presses one after the other is iterating the press step. */
  lemma {:induction false} PressesAreRepeat(st: State, p: Product, k: nat)
    requires p.inStock != 0
    ensures ReduceAll(st, Presses(p, k)) == Iterate(Press(p), st, k)
    decreases k
  {
    if k > 0 {
      assert Presses(p, k)[0] == AddToCart(Payload(p));
      assert Presses(p, k)[1..] == Presses(p, k - 1);
      PressesAreRepeat(Press(p)(st), p, k - 1);
    } else {
      assert Presses(p, k) == [];
    }
  }

  /** A step that raises the last line by one, iterated `n` times, raises it by `n`. */
  lemma {:induction false} IterateGrows(f: State -> State, st: State, before: seq<LineItem>, p: Product,
                                        q: int, n: nat)
    requires forall s: State, r: int :: EndsWith(s.cart, before, p, r) ==> EndsWith(f(s).cart, before, p, r + 1)
    requires EndsWith(st.cart, before, p, q)
    ensures EndsWith(Iterate(f, st, n).cart, before, p, q + n)
    decreases n
  {
    if n > 0 {
      IterateGrows(f, f(st), before, p, q + 1, n - 1);
      assert q + 1 + (n - 1) == q + n;
    }
  }

  /** Each press on a product whose line is the last one raises that line by one. */
  lemma PressGrows(p: Product, before: seq<LineItem>)
    requires forall i :: 0 <= i < |before| ==> before[i].id != p.id
    ensures forall s: State, r: int :: EndsWith(s.cart, before, p, r) ==> EndsWith(Press(p)(s).cart, before, p, r + 1)
  {
    forall s: State, r: int | EndsWith(s.cart, before, p, r)
      ensures EndsWith(Press(p)(s).cart, before, p, r + 1)
    {
      PressOnLastLine(s, before, p, r);
    }
  }

  /** One press on a product whose line is the last one raises that line by one. */
  lemma PressOnLastLine(st: State, before: seq<LineItem>, p: Product, q: int)
    requires forall i :: 0 <= i < |before| ==> before[i].id != p.id
    requires st.cart == before + [LineOf(p, q)]
    ensures Reduce(st, AddToCart(Payload(p))).cart == before + [LineOf(p, q + 1)]
  {
    assert LineOf(p, q) == Payload(p).(quantity := q);
    AddToLastLine(st, before, Payload(p), q);
    assert Payload(p).(quantity := q + 1) == LineOf(p, q + 1);
  }

  /** Adding a product whose line is the last one raises that line only. */
  lemma AddToLastLine(st: State, before: seq<LineItem>, item: LineItem, q: int)
    requires forall i :: 0 <= i < |before| ==> before[i].id != item.id
    requires st.cart == before + [item.(quantity := q)]
    ensures Reduce(st, AddToCart(item)).cart == before + [item.(quantity := q + item.quantity)]
  {
    var c := Reduce(st, AddToCart(item)).cart;
    var want := before + [item.(quantity := q + item.quantity)];
    assert st.cart[|before|].id == item.id;
    AddExistingLine(st, item);
    forall i | 0 <= i < |c| ensures c[i] == want[i] {
      if i < |before| {
        assert st.cart[i] == before[i];
      }
    }
  }
}
