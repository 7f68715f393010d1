/** The product page: the product found by its slug, the quantity selector, the add-to-cart
    button, the stock line and the sale badge. */
module ProductDetail {
  import opened Wrappers
  import opened Seqs
  import opened Strings
  import opened Catalog
  import opened AppContext
  import opened Utils

  function SlugIs(slug: string): Product -> bool { (p: Product) => p.slug == slug }

  /** The lookup in the page's effect: the first product whose slug is the route's; `None`
      sends the page to its "Prodotto non trovato" branch. */
  function FindBySlug(catalog: seq<Product>, slug: string): (r: Option<Product>)
    ensures r.None? <==> forall i :: 0 <= i < |catalog| ==> catalog[i].slug != slug
    ensures r.Some? ==> exists i :: 0 <= i < |catalog| && catalog[i] == r.value && r.value.slug == slug &&
                                    forall j :: 0 <= j < i ==> catalog[j].slug != slug
  {
    var r := Find(catalog, SlugIs(slug));
    SlugLookup(catalog, slug);
    r
  }

  lemma SlugLookup(catalog: seq<Product>, slug: string)
    ensures var r := Find(catalog, SlugIs(slug));
      && (r.None? <==> forall i :: 0 <= i < |catalog| ==> catalog[i].slug != slug)
      && (r.Some? ==> exists i :: 0 <= i < |catalog| && catalog[i] == r.value && r.value.slug == slug &&
                                  forall j :: 0 <= j < i ==> catalog[j].slug != slug)
  {
    var p := SlugIs(slug);
    var r := Find(catalog, p);
    if r.None? {
      forall i | 0 <= i < |catalog| ensures catalog[i].slug != slug {
        assert !p(catalog[i]);
      }
    } else {
      var i :| 0 <= i < |catalog| && catalog[i] == r.value && p(catalog[i]) &&
               forall j :: 0 <= j < i ==> !p(catalog[j]);
      forall j | 0 <= j < i ensures catalog[j].slug != slug {
        assert !p(catalog[j]);
      }
    }
  }

  /** The page state that its handlers change: the product shown and the quantity selected. */
  class DetailView {
    const product: Product
    var quantity: int

    /** The selector starts at one unit and only ever takes values between 1 and the stock. */
    ghost predicate Valid()
      reads this
    {
      1 <= quantity && (quantity == 1 || quantity <= product.inStock)
    }

    constructor (p: Product)
      ensures product == p && quantity == 1
      ensures Valid()
    {
      product := p;
      quantity := 1;
    }

    /** `handleQuantityChange`: a value between 1 and the stock is taken, any other is
        ignored. */
    method HandleQuantityChange(n: int)
      requires Valid()
      modifies this
      ensures quantity == if 1 <= n <= product.inStock then n else old(quantity)
      ensures Valid()
    {
      if 1 <= n && n <= product.inStock {
        quantity := n;
      }
    }

    /** The '−' button: it lowers the quantity by one, and does nothing at 1, where it is
        disabled. */
    method PressMinus()
      requires Valid()
      modifies this
      ensures quantity == if old(quantity) > 1 then old(quantity) - 1 else old(quantity)
      ensures Valid()
    {
      HandleQuantityChange(quantity - 1);
    }

    /** The '+' button: it raises the quantity by one, and does nothing at the stock, where it
        is disabled. */
    method PressPlus()
      requires Valid()
      modifies this
      ensures quantity == if old(quantity) < product.inStock then old(quantity) + 1 else old(quantity)
      ensures Valid()
    {
      HandleQuantityChange(quantity + 1);
    }

    /** `handleAddToCart`: with no stock nothing is dispatched; otherwise the line carries the
        selected quantity and the stock seen now as its ceiling. */
    method HandleAddToCart() returns (a: Option<Action>)
      ensures a.None? <==> product.inStock == 0
      ensures a.Some? ==> (a.value.AddToCart? && a.value.item ==
        LineItem(product.id, product.name, product.price, product.image, quantity, product.inStock))
    {
      if product.inStock == 0 {
        return None;
      }
      a := Some(AddToCart(LineItem(product.id, product.name, product.price, product.image,
                                   quantity, product.inStock)));
    }
  }

  /** The selector's value is a stock-respecting quantity: adding it to a cart that does not
      hold the product yet makes a line within its own ceiling. */
  lemma SelectedQuantityFitsStock(st: State, p: Product, quantity: int)
    requires 1 <= quantity <= p.inStock
    requires forall i :: 0 <= i < |st.cart| ==> st.cart[i].id != p.id
    ensures var line := LineItem(p.id, p.name, p.price, p.image, quantity, p.inStock);
      var c := Reduce(st, AddToCart(line)).cart;
      c[|c| - 1] == line && 1 <= c[|c| - 1].quantity <= c[|c| - 1].maxStock
  {
    AddNewLine(st, LineItem(p.id, p.name, p.price, p.image, quantity, p.inStock));
  }

  /** The stock line next to the quantity selector. */
  function StockLabel(inStock: int): string {
    if inStock > 0 then
      (if inStock < 5 then "Solo " + NatToString(inStock) + " disponibili!" else "Disponibile")
    else "Non disponibile"
  }

  /** No stock reads "Non disponibile", one to four units name the count, five or more read
      "Disponibile". */
  lemma StockLabelThresholds(inStock: int)
    ensures StockLabel(inStock) == "Non disponibile" <==> inStock <= 0
    ensures StockLabel(inStock) == "Disponibile" <==> inStock >= 5
    ensures 1 <= inStock < 5 ==> StockLabel(inStock) == "Solo " + [DigitChar(inStock)] + " disponibili!"
  {
    if 1 <= inStock < 5 {
      var text := StockLabel(inStock);
      assert text[0] == 'S';
    }
  }

  /** The sale badge: hidden unless the product is on sale; otherwise the rounded percentage
      `(1 - price / originalPrice) * 100`, which is no number when the original price is
      missing or zero. */
  datatype Badge = Hidden | Shown(percent: Option<int>)

  function SaleBadge(p: Product): Badge {
    if !p.onSale then Hidden
    else match p.originalPrice
      case None => Shown(None)
      case Some(o) => if o == 0.0 then Shown(None) else Shown(Some(Round((1.0 - p.price / o) * 100.0)))
  }

  /** The badge shows what `calculateDiscount` computes for the two prices, so for a sale
      price between 0 and the original it lies between 0 and 100. */
  lemma SaleBadgeIsDiscount(p: Product)
    requires p.onSale && p.originalPrice.Some?
    ensures SaleBadge(p) == Shown(CalculateDiscount(p.originalPrice.value, p.price))
    ensures var o := p.originalPrice.value;
      o > 0.0 && 0.0 <= p.price <= o ==> 0 <= SaleBadge(p).percent.value <= 100
  {
    var o := p.originalPrice.value;
    if o != 0.0 {
      assert (o - p.price) / o == o / o - p.price / o;
      assert o / o == 1.0;
    }
    if o > 0.0 && 0.0 <= p.price <= o {
      DiscountBounds(o, p.price);
    }
  }
}
