/** The site header: the cart badge counting units, the search box that navigates to
    `/search?q=…`, the navigation links with the active one marked, and the mobile menu. */
module AppHeader {
  import opened Wrappers
  import opened Seqs
  import opened Strings
  import opened Catalog
  import opened AppContext

  // ---------------------------------------------------------------------------------------
  // The cart badge

  /** `cart.reduce((total, item) => total + item.quantity, 0)`: units, not lines. */
  function CartItemsCount(cart: seq<LineItem>): int
    decreases |cart|
  {
    if cart == [] then 0 else cart[0].quantity + CartItemsCount(cart[1..])
  }

  /** The badge is drawn only for a positive count. */
  predicate ShowsBadge(cart: seq<LineItem>) {
    CartItemsCount(cart) > 0
  }

  lemma {:induction false} CountAppend(a: seq<LineItem>, b: seq<LineItem>)
    ensures CartItemsCount(a + b) == CartItemsCount(a) + CartItemsCount(b)
    decreases |a|
  {
    if a != [] {
      assert (a + b)[1..] == a[1..] + b;
      CountAppend(a[1..], b);
    } else {
      assert a + b == b;
    }
  }

  /** With every line holding at least one unit, the badge counts at least one per line, so
      it shows exactly when the cart has a line. */
  lemma {:induction false} CountAtLeastLines(cart: seq<LineItem>)
    requires forall i :: 0 <= i < |cart| ==> cart[i].quantity >= 1
    ensures CartItemsCount(cart) >= |cart|
    ensures ShowsBadge(cart) <==> cart != []
    decreases |cart|
  {
    if cart != [] {
      CountAtLeastLines(cart[1..]);
    }
  }

  /** Rewriting a line's quantity through `f` moves the count by exactly the change of that
      line, when the ids are unique. */
  lemma {:induction false} AdjustCount(cart: seq<LineItem>, id: int, f: int -> int, i: int)
    requires UniqueIds(cart) && 0 <= i < |cart| && cart[i].id == id
    ensures CartItemsCount(Adjust(cart, id, f)) == CartItemsCount(cart) - cart[i].quantity + f(cart[i].quantity)
    decreases |cart|
  {
    var r := Adjust(cart, id, f);
    assert r[1..] == Adjust(cart[1..], id, f);
    if i == 0 {
      AdjustAbsent(cart[1..], id, f);
    } else {
      assert cart[0].id != id;
      AdjustCount(cart[1..], id, f, i - 1);
    }
  }

  /** Rewriting an id no line carries changes nothing. */
  lemma AdjustAbsent(cart: seq<LineItem>, id: int, f: int -> int)
    requires forall j :: 0 <= j < |cart| ==> cart[j].id != id
    ensures Adjust(cart, id, f) == cart
  {
  }

  /** Adding to the cart raises the badge by the payload's quantity, whether the product
      already had a line or not. */
  lemma AddRaisesCount(st: State, item: LineItem)
    requires UniqueIds(st.cart)
    ensures CartItemsCount(Reduce(st, AddToCart(item)).cart) == CartItemsCount(st.cart) + item.quantity
  {
    var c := Reduce(st, AddToCart(item)).cart;
    assert c == AddLine(st.cart, item);
    HasLineIff(st.cart, item.id);
    if HasLine(st.cart, item.id) {
      assert c == Adjust(st.cart, item.id, Plus(item.quantity));
      var i :| 0 <= i < |st.cart| && st.cart[i].id == item.id;
      AdjustCount(st.cart, item.id, Plus(item.quantity), i);
    } else {
      assert c == st.cart + [item];
      CountAppend(st.cart, [item]);
      assert CartItemsCount([item]) == item.quantity + CartItemsCount([]);
    }
  }

  /** Setting a line's quantity to `n` moves the badge from the old quantity to `n`. */
  lemma UpdateMovesCount(st: State, i: int, n: int)
    requires UniqueIds(st.cart) && 0 <= i < |st.cart|
    ensures CartItemsCount(Reduce(st, UpdateCartItem(st.cart[i].id, n)).cart) ==
            CartItemsCount(st.cart) - st.cart[i].quantity + n
  {
    AdjustCount(st.cart, st.cart[i].id, _ => n, i);
  }

  /** Removing a line takes its units off the badge. */
  lemma {:induction false} RemoveLowersCount(cart: seq<LineItem>, i: int)
    requires UniqueIds(cart) && 0 <= i < |cart|
    ensures CartItemsCount(Keep(cart, IdIsNot(cart[i].id))) == CartItemsCount(cart) - cart[i].quantity
    decreases |cart|
  {
    var id := cart[i].id;
    var k := Keep(cart, IdIsNot(id));
    assert k == (if cart[0].id != id then [cart[0]] else []) + Keep(cart[1..], IdIsNot(id));
    if i == 0 {
      var rest := cart[1..];
      forall j | 0 <= j < |rest| ensures IdIsNot(id)(rest[j]) {
        assert rest[j] == cart[j + 1];
      }
      KeepAll(rest, IdIsNot(id));
      assert k == rest;
    } else {
      assert cart[0].id != id;
      RemoveLowersCount(cart[1..], i - 1);
      CountAppend([cart[0]], Keep(cart[1..], IdIsNot(id)));
      assert CartItemsCount([cart[0]]) == cart[0].quantity + CartItemsCount([]);
    }
  }

  // ---------------------------------------------------------------------------------------
  // The search box

  /** The route the search box leads to, followed by the query string's `q=`. */
  const SearchPrefix: string := "/search?q="

  /** `handleSearch`: a query that is blank after trimming does nothing; any other navigates
      to `/search?q=` followed by the trimmed query, written into the URL as it is. */
  function SearchPath(query: string): Option<string> {
    var t := Trim(query);
    if t != [] then Some(SearchPrefix + t) else None
  }

  /** The search navigates exactly when the query holds a non-blank character, and then with
      a query that neither starts nor ends with whitespace. */
  lemma SearchPathIff(query: string)
    ensures SearchPath(query).None? <==> Blank(query)
    ensures SearchPath(query).Some? ==>
      var path := SearchPath(query).value;
      && path == SearchPrefix + Trim(query)
      && |path| > |SearchPrefix|
      && !IsSpace(path[|SearchPrefix|]) && !IsSpace(path[|path| - 1])
  {
    TrimmedEmptyIffBlank(query);
    TrimEnds(query);
  }

  /** The `q` parameter as the gallery reads it from the query string that follows `?q=`:
      its value ends at the next `&` or at the fragment `#`, a `+` stands for a space, and
      `%` followed by two hex digits stands for the character with that code. */
  function DecodeParam(s: string): string
    decreases |s|
  {
    if s == [] || s[0] == '&' || s[0] == '#' then []
    else if s[0] == '+' then [' '] + DecodeParam(s[1..])
    else if s[0] == '%' && |s| >= 3 && IsHexDigit(s[1]) && IsHexDigit(s[2]) then
      [(HexValue(s[1]) * 16 + HexValue(s[2])) as char] + DecodeParam(s[3..])
    else [s[0]] + DecodeParam(s[1..])
  }

  predicate IsHexDigit(c: char) {
    '0' <= c <= '9' || 'a' <= c <= 'f' || 'A' <= c <= 'F'
  }

  function HexValue(c: char): (v: nat)
    requires IsHexDigit(c)
    ensures v < 16
  {
    if '0' <= c <= '9' then c as int - '0' as int
    else if 'a' <= c <= 'f' then c as int - 'a' as int + 10
    else c as int - 'A' as int + 10
  }

  /** What the gallery searches for after the header navigated to `path`. */
  function SearchedFor(path: string): string
    requires |path| >= |SearchPrefix|
  {
    DecodeParam(path[|SearchPrefix|..])
  }

  /** As written, a query holding `&` is cut short: searching "a&b" makes the gallery
      search "a". */
  lemma AmpersandCutsQuery(q: string)
    requires q == "a&b"
    ensures SearchPath(q) == Some(SearchPrefix + q)
    ensures |SearchPrefix + q| >= |SearchPrefix| && SearchedFor(SearchPrefix + q) == "a"
  {
    assert TrimStart(q) == q by { assert !IsSpace(q[0]); }
    assert TrimEnd(q) == q by { assert !IsSpace(q[|q| - 1]); }
    var path := SearchPrefix + q;
    assert path[|SearchPrefix|..] == q;
    assert DecodeParam(q[1..]) == [];
  }

  /** The escape a query character needs to survive the round trip through the URL. */
  function Escape(c: char): (e: string)
    ensures |e| >= 1
  {
    if c == '%' then "%25"
    else if c == '&' then "%26"
    else if c == '#' then "%23"
    else if c == '+' then "%2B"
    else [c]
  }

  /** The query as `encodeURIComponent` would need to have written it, reduced to the four
      characters the parameter reading treats specially. */
  function EncodeParam(t: string): string
    decreases |t|
  {
    if t == [] then [] else Escape(t[0]) + EncodeParam(t[1..])
  }

  lemma DecodeEscape(c: char, rest: string)
    ensures DecodeParam(Escape(c) + rest) == [c] + DecodeParam(rest)
  {
    var s := Escape(c) + rest;
    if c == '%' || c == '&' || c == '#' || c == '+' {
      assert s[0] == '%' && IsHexDigit(s[1]) && IsHexDigit(s[2]);
      assert s[3..] == rest;
    } else {
      assert s[1..] == rest;
    }
  }

  /** Every query is read back as it was written once it is encoded. */
  lemma {:induction false} DecodeEncode(t: string)
    ensures DecodeParam(EncodeParam(t)) == t
    decreases |t|
  {
    if t != [] {
      DecodeEncode(t[1..]);
      DecodeEscape(t[0], EncodeParam(t[1..]));
    }
  }

  /** `handleSearch` with the query encoded. */
  function EncodedSearchPath(query: string): Option<string> {
    var t := Trim(query);
    if t != [] then Some(SearchPrefix + EncodeParam(t)) else None
  }

  /** With the encoding, the gallery searches exactly the trimmed query, and the header
      navigates in the same cases as before. */
  lemma EncodedSearchRoundTrip(query: string)
    ensures EncodedSearchPath(query).None? <==> SearchPath(query).None?
    ensures EncodedSearchPath(query).Some? ==>
      |EncodedSearchPath(query).value| >= |SearchPrefix| &&
      SearchedFor(EncodedSearchPath(query).value) == Trim(query)
  {
    var t := Trim(query);
    if t != [] {
      var path := SearchPrefix + EncodeParam(t);
      assert path[|SearchPrefix|..] == EncodeParam(t);
      DecodeEncode(t);
    }
  }

  // ---------------------------------------------------------------------------------------
  // Navigation links

  datatype MenuItem = MenuItem(name: string, path: string)

  const MenuItems: seq<MenuItem> := [
    MenuItem("Homepage", "/"),
    MenuItem("Chi siamo", "/about"),
    MenuItem("Galleria Stampe", "/gallery"),
    MenuItem("Contatti", "/contact")
  ]

  /** A link is marked active when the location's path is its own. */
  predicate IsActive(pathname: string, item: MenuItem) {
    pathname == item.path
  }

  /** The links' paths are distinct, so at most one link is marked at a time; the search
      page marks none. */
  lemma AtMostOneActive(pathname: string)
    ensures forall i, j :: 0 <= i < j < |MenuItems| && IsActive(pathname, MenuItems[i]) ==>
              !IsActive(pathname, MenuItems[j])
    ensures pathname == "/search" ==> forall i :: 0 <= i < |MenuItems| ==> !IsActive(pathname, MenuItems[i])
  {
    assert MenuItems[0].path[0] == '/' && |MenuItems[0].path| == 1;
    assert MenuItems[1].path[1] == 'a';
    assert MenuItems[2].path[1] == 'g';
    assert MenuItems[3].path[1] == 'c';
    if pathname == "/search" {
      assert pathname[1] == 's';
    }
  }

  // ---------------------------------------------------------------------------------------
  // The component's own state

  class Header {
    var isMenuOpen: bool
    var searchQuery: string

    /** The menu starts closed and the search box empty. */
    constructor ()
      ensures !isMenuOpen && searchQuery == []
    {
      isMenuOpen := false;
      searchQuery := [];
    }

    /** The hamburger button flips the menu. */
    method ToggleMenu()
      modifies this
      ensures isMenuOpen == !old(isMenuOpen) && searchQuery == old(searchQuery)
    {
      isMenuOpen := !isMenuOpen;
    }

    /** Following any navigation link closes the menu. */
    method ClickNavLink()
      modifies this
      ensures !isMenuOpen && searchQuery == old(searchQuery)
    {
      isMenuOpen := false;
    }

    /** The search box's `onChange`. */
    method TypeQuery(value: string)
      modifies this
      ensures searchQuery == value && isMenuOpen == old(isMenuOpen)
    {
      searchQuery := value;
    }

    /** Submitting the search form: where the header navigates, if anywhere. */
    method Search() returns (target: Option<string>)
      ensures target.None? <==> Blank(searchQuery)
      ensures target.Some? ==> target.value == SearchPrefix + Trim(searchQuery)
    {
      var t := Trim(searchQuery);
      TrimmedEmptyIffBlank(searchQuery);
      if t != [] {
        target := Some(SearchPrefix + t);
      } else {
        target := None;
      }
    }
  }
}
