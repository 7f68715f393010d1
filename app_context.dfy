/** The application store: its state record, the actions dispatched to it, and the reducer
    that turns a state and an action into the next state. The reducer never changes a state
    in place; each action yields a new record. */
module AppContext {
  import opened Wrappers
  import opened Catalog
  import opened Seqs

  datatype State = State(
    products: seq<Product>,
    cart: seq<LineItem>,
    searchQuery: string,
    searchResults: seq<Product>,
    isLoading: bool,
    error: Option<string>,
    viewMode: string,
    sortBy: string,
    showWelcomePopup: bool,
    discount: Option<Coupon>)

  /** The store's state before any action: nothing loaded, an empty cart, grid view, newest
      first, the welcome popup pending and no coupon. */
  const InitialState: State :=
    State([], [], "", [], false, None, "grid", "newest", true, None)

  /** One constructor per action type the reducer recognises, and `Other` for any other
      type string. */
  datatype Action =
    | SetLoading(loading: bool)
    | SetError(message: Option<string>)
    | SetProducts(catalog: seq<Product>)
    | SetSearchQuery(query: string)
    | SetSearchResults(results: seq<Product>)
    | SetViewMode(mode: string)
    | SetSortBy(key: string)
    | AddToCart(item: LineItem)
    | UpdateCartItem(id: int, quantity: int)
    | RemoveFromCart(id: int)
    | ClearCart
    | HideWelcomePopup
    | SetDiscount(coupon: Option<Coupon>)
    | Other(kind: string)

  /** The tests handed to `find` and `filter` in the cart cases. */
  function IdIs(id: int): LineItem -> bool { (l: LineItem) => l.id == id }
  function IdIsNot(id: int): LineItem -> bool { (l: LineItem) => l.id != id }

  /** The quantity update of a merge: add the payload's quantity. */
  function Plus(n: int): int -> int { q => q + n }

  /** `cart.find(item => item.id === id)` returned an item. */
  predicate HasLine(cart: seq<LineItem>, id: int) {
    Find(cart, IdIs(id)).Some?
  }

  predicate UniqueIds(cart: seq<LineItem>) {
    forall i, j :: 0 <= i < j < |cart| ==> cart[i].id != cart[j].id
  }

  /** `cart.map(...)` rewriting the quantity of every line with id `id` through `f` and
      returning every other line as it is. */
  function Adjust(cart: seq<LineItem>, id: int, f: int -> int): (r: seq<LineItem>)
    ensures |r| == |cart|
    ensures forall i :: 0 <= i < |cart| ==>
              r[i] == if cart[i].id == id then cart[i].(quantity := f(cart[i].quantity)) else cart[i]
  {
    if cart == [] then []
    else
      var head := if cart[0].id == id then cart[0].(quantity := f(cart[0].quantity)) else cart[0];
      [head] + Adjust(cart[1..], id, f)
  }

  /** The ADD_TO_CART case: merge into the existing line, or append the payload. */
  function AddLine(cart: seq<LineItem>, item: LineItem): seq<LineItem> {
    if HasLine(cart, item.id) then Adjust(cart, item.id, Plus(item.quantity))
    else cart + [item]
  }

  function Reduce(st: State, action: Action): State {
    match action
    case SetLoading(b) => st.(isLoading := b)
    case SetError(m) => st.(error := m)
    case SetProducts(ps) => st.(products := ps)
    case SetSearchQuery(q) => st.(searchQuery := q)
    case SetSearchResults(rs) => st.(searchResults := rs)
    case SetViewMode(m) => st.(viewMode := m)
    case SetSortBy(k) => st.(sortBy := k)
    case AddToCart(item) => st.(cart := AddLine(st.cart, item))
    case UpdateCartItem(id, n) => st.(cart := Adjust(st.cart, id, _ => n))
    case RemoveFromCart(id) => st.(cart := Keep(st.cart, IdIsNot(id)))
    case ClearCart => st.(cart := [])
    case HideWelcomePopup => st.(showWelcomePopup := false)
    case SetDiscount(c) => st.(discount := c)
    case Other(_) => st
  }

  /** Applies a sequence of actions in order, as successive dispatches do. */
  function ReduceAll(st: State, actions: seq<Action>): State
    decreases |actions|
  {
    if actions == [] then st else ReduceAll(Reduce(st, actions[0]), actions[1..])
  }

  // ---------------------------------------------------------------------------------------
  // Properties of the reducer

  lemma InitialStateIsEmpty()
    ensures InitialState.cart == [] && InitialState.discount == None
    ensures InitialState.sortBy == "newest" && InitialState.viewMode == "grid"
    ensures InitialState.products == [] && InitialState.searchResults == []
    ensures !InitialState.isLoading && InitialState.error == None && InitialState.showWelcomePopup
  {
  }

  lemma HasLineIff(cart: seq<LineItem>, id: int)
    ensures HasLine(cart, id) <==> exists i :: 0 <= i < |cart| && cart[i].id == id
  {
    if !HasLine(cart, id) {
      forall i | 0 <= i < |cart| ensures cart[i].id != id {
        assert !IdIs(id)(cart[i]);
      }
    }
  }

  /** Adding a product already in the cart keeps the cart's length and order; the matching
      line's quantity grows by the payload's quantity, its name, price, image and maxStock are
      kept, and every other line is untouched. */
  lemma AddExistingLine(st: State, item: LineItem)
    requires exists i :: 0 <= i < |st.cart| && st.cart[i].id == item.id
    ensures var c := Reduce(st, AddToCart(item)).cart;
      && |c| == |st.cart|
      && (forall i :: 0 <= i < |c| && st.cart[i].id == item.id ==>
            && c[i].quantity == st.cart[i].quantity + item.quantity
            && c[i].id == st.cart[i].id && c[i].name == st.cart[i].name
            && c[i].price == st.cart[i].price && c[i].image == st.cart[i].image
            && c[i].maxStock == st.cart[i].maxStock)
      && (forall i :: 0 <= i < |c| && st.cart[i].id != item.id ==> c[i] == st.cart[i])
  {
    HasLineIff(st.cart, item.id);
  }

  /** Adding a product not yet in the cart appends the payload as the last line. */
  lemma AddNewLine(st: State, item: LineItem)
    requires forall i :: 0 <= i < |st.cart| ==> st.cart[i].id != item.id
    ensures Reduce(st, AddToCart(item)).cart == st.cart + [item]
  {
    HasLineIff(st.cart, item.id);
  }

  /** Adding never creates a second line for the same product. */
  lemma AddKeepsIdsUnique(st: State, item: LineItem)
    requires UniqueIds(st.cart)
    ensures UniqueIds(Reduce(st, AddToCart(item)).cart)
  {
    HasLineIff(st.cart, item.id);
  }

  /** No action creates a second line for the same product: ADD merges, UPDATE rewrites
      quantities only, REMOVE keeps a subsequence and CLEAR empties the cart. */
  lemma ReduceKeepsIdsUnique(st: State, action: Action)
    requires UniqueIds(st.cart)
    ensures UniqueIds(Reduce(st, action).cart)
  {
    match action
    case AddToCart(item) => AddKeepsIdsUnique(st, item);
    case UpdateCartItem(id, n) =>
      var c := Adjust(st.cart, id, _ => n);
      assert Reduce(st, action).cart == c;
      assert forall i :: 0 <= i < |c| ==> c[i].id == st.cart[i].id;
    case RemoveFromCart(id) => KeepKeepsIdsUnique(st.cart, IdIsNot(id));
    case _ =>
  }

  /** Filtering a cart with distinct ids leaves distinct ids. */
  lemma {:induction false} KeepKeepsIdsUnique(cart: seq<LineItem>, p: LineItem -> bool)
    requires UniqueIds(cart)
    ensures UniqueIds(Keep(cart, p))
  {
    if cart != [] {
      var rest := cart[1..];
      var kept := Keep(rest, p);
      KeepKeepsIdsUnique(rest, p);
      forall i | 0 <= i < |kept| ensures kept[i].id != cart[0].id {
        assert kept[i] in rest;
        var k :| 0 <= k < |rest| && rest[k] == kept[i];
        assert cart[k + 1] == kept[i];
      }
      if p(cart[0]) {
        ConsKeepsIdsUnique(cart[0], kept);
      }
    }
  }

  lemma ConsKeepsIdsUnique(x: LineItem, s: seq<LineItem>)
    requires UniqueIds(s)
    requires forall i :: 0 <= i < |s| ==> s[i].id != x.id
    ensures UniqueIds([x] + s)
  {
    var r := [x] + s;
    forall i, j | 0 <= i < j < |r| ensures r[i].id != r[j].id {
      assert r[j] == s[j - 1];
      if i > 0 {
        assert r[i] == s[i - 1];
      }
    }
  }

  /** Dispatches keep cart ids distinct ... */
  lemma {:induction false} ReduceAllKeepsIdsUnique(st: State, actions: seq<Action>)
    requires UniqueIds(st.cart)
    ensures UniqueIds(ReduceAll(st, actions).cart)
    decreases |actions|
  {
    if actions != [] {
      ReduceKeepsIdsUnique(st, actions[0]);
      ReduceAllKeepsIdsUnique(Reduce(st, actions[0]), actions[1..]);
    }
  }

  /** ... so every cart the store reaches from its initial state has distinct ids. */
  lemma ReachableIdsUnique(actions: seq<Action>)
    ensures UniqueIds(ReduceAll(InitialState, actions).cart)
  {
    ReduceAllKeepsIdsUnique(InitialState, actions);
  }

  /** UPDATE_CART_ITEM stores the given quantity, unchecked, in the matching line only; the
      length, the order and every other field stay as they were. */
  lemma UpdateLine(st: State, id: int, n: int)
    ensures var c := Reduce(st, UpdateCartItem(id, n)).cart;
      && |c| == |st.cart|
      && (forall i :: 0 <= i < |c| && st.cart[i].id == id ==> c[i] == st.cart[i].(quantity := n))
      && (forall i :: 0 <= i < |c| && st.cart[i].id != id ==> c[i] == st.cart[i])
  {
  }

  /** Updating an id that is not in the cart leaves the cart equal. */
  lemma UpdateAbsentIsNoOp(st: State, id: int, n: int)
    requires forall i :: 0 <= i < |st.cart| ==> st.cart[i].id != id
    ensures Reduce(st, UpdateCartItem(id, n)) == st
  {
    assert Reduce(st, UpdateCartItem(id, n)).cart == st.cart;
  }

  /** REMOVE_FROM_CART drops every line with that id and keeps each other line exactly as
      often as before. */
  lemma RemoveDropsExactly(st: State, id: int, x: LineItem)
    ensures var c := Reduce(st, RemoveFromCart(id)).cart;
      && (forall i :: 0 <= i < |c| ==> c[i].id != id)
      && multiset(c)[x] == if x.id == id then 0 else multiset(st.cart)[x]
  {
    KeepCount(st.cart, IdIsNot(id), x);
    var c := Reduce(st, RemoveFromCart(id)).cart;
    forall i | 0 <= i < |c| ensures c[i].id != id {
      assert c[i] in c;
    }
  }

  /** Removal keeps the surviving lines in their order: it works piecewise on any split of
      the cart. */
  lemma RemoveKeepsOrder(a: seq<LineItem>, b: seq<LineItem>, id: int)
    ensures Keep(a + b, IdIsNot(id)) == Keep(a, IdIsNot(id)) + Keep(b, IdIsNot(id))
  {
    KeepAppend(a, b, IdIsNot(id));
  }

  /** Removing twice is removing once. */
  lemma RemoveIdempotent(st: State, id: int)
    ensures var once := Reduce(st, RemoveFromCart(id));
      Reduce(once, RemoveFromCart(id)) == once
  {
    KeepIdempotent(st.cart, IdIsNot(id));
  }

  /** Removing an id that is not in the cart changes nothing. */
  lemma RemoveAbsentIsNoOp(st: State, id: int)
    requires forall i :: 0 <= i < |st.cart| ==> st.cart[i].id != id
    ensures Reduce(st, RemoveFromCart(id)) == st
  {
    KeepAll(st.cart, IdIsNot(id));
  }

  /** Adding a product not in the cart and then removing it gives back the original state. */
  lemma AddThenRemove(st: State, item: LineItem)
    requires forall i :: 0 <= i < |st.cart| ==> st.cart[i].id != item.id
    ensures Reduce(Reduce(st, AddToCart(item)), RemoveFromCart(item.id)) == st
  {
    var added := Reduce(st, AddToCart(item));
    AddNewLine(st, item);
    assert added == st.(cart := st.cart + [item]);
    RemoveAppended(st.cart, item);
    assert Reduce(added, RemoveFromCart(item.id)) == added.(cart := Keep(st.cart + [item], IdIsNot(item.id)));
  }

  /** Dropping a freshly appended line's id leaves the lines before it. */
  lemma RemoveAppended(cart: seq<LineItem>, item: LineItem)
    requires forall i :: 0 <= i < |cart| ==> cart[i].id != item.id
    ensures Keep(cart + [item], IdIsNot(item.id)) == cart
  {
    KeepAppend(cart, [item], IdIsNot(item.id));
    KeepAll(cart, IdIsNot(item.id));
    assert Keep([item], IdIsNot(item.id)) == [];
  }

  /** CLEAR_CART empties the cart and SET_DISCOUNT stores its payload, null included. */
  lemma ClearAndSetDiscount(st: State, c: Option<Coupon>)
    ensures Reduce(st, ClearCart).cart == []
    ensures Reduce(st, SetDiscount(c)).discount == c
  {
  }

  /** The state fields, to say which one an action may change. */
  datatype Field =
    | ProductsField | CartField | SearchQueryField | SearchResultsField | LoadingField
    | ErrorField | ViewModeField | SortByField | PopupField | DiscountField

  /** The one field each action writes; `None` for an unrecognised action. */
  function Writes(action: Action): Option<Field> {
    match action
    case SetLoading(_) => Some(LoadingField)
    case SetError(_) => Some(ErrorField)
    case SetProducts(_) => Some(ProductsField)
    case SetSearchQuery(_) => Some(SearchQueryField)
    case SetSearchResults(_) => Some(SearchResultsField)
    case SetViewMode(_) => Some(ViewModeField)
    case SetSortBy(_) => Some(SortByField)
    case AddToCart(_) => Some(CartField)
    case UpdateCartItem(_, _) => Some(CartField)
    case RemoveFromCart(_) => Some(CartField)
    case ClearCart => Some(CartField)
    case HideWelcomePopup => Some(PopupField)
    case SetDiscount(_) => Some(DiscountField)
    case Other(_) => None
  }

  /** `s` and `t` agree on every field other than `f` (on all of them when `f` is `None`). */
  predicate AgreeExcept(s: State, t: State, f: Option<Field>) {
    && (f != Some(ProductsField) ==> s.products == t.products)
    && (f != Some(CartField) ==> s.cart == t.cart)
    && (f != Some(SearchQueryField) ==> s.searchQuery == t.searchQuery)
    && (f != Some(SearchResultsField) ==> s.searchResults == t.searchResults)
    && (f != Some(LoadingField) ==> s.isLoading == t.isLoading)
    && (f != Some(ErrorField) ==> s.error == t.error)
    && (f != Some(ViewModeField) ==> s.viewMode == t.viewMode)
    && (f != Some(SortByField) ==> s.sortBy == t.sortBy)
    && (f != Some(PopupField) ==> s.showWelcomePopup == t.showWelcomePopup)
    && (f != Some(DiscountField) ==> s.discount == t.discount)
  }

  /** Each action changes at most its own field of the state; an unrecognised action returns
      the state unchanged. */
  lemma ReduceChangesOnlyItsField(st: State, action: Action)
    ensures AgreeExcept(st, Reduce(st, action), Writes(action))
    ensures action.Other? ==> Reduce(st, action) == st
  {
    match action
    case AddToCart(item) =>
      assert Reduce(st, action) == st.(cart := AddLine(st.cart, item));
    case UpdateCartItem(id, n) =>
      assert Reduce(st, action) == st.(cart := Adjust(st.cart, id, _ => n));
    case RemoveFromCart(id) =>
      assert Reduce(st, action) == st.(cart := Keep(st.cart, IdIsNot(id)));
    case _ =>
  }
}
