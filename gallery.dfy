/** The gallery page: the catalogue narrowed by the `filter` and `q` URL parameters, sorted by
    the context's `sortBy`, and the page title. */
module Gallery {
  import opened Wrappers
  import opened Seqs
  import opened Strings
  import opened Catalog

  // ---------------------------------------------------------------------------------------
  // Filtering

  /** The `filter` parameter: 'new', 'sale' and 'featured' keep the products carrying that
      flag; any other value, and no value, keep every product. */
  predicate PassesFlag(p: Product, filter: Option<string>) {
    if filter == Some("new") then p.isNew
    else if filter == Some("sale") then p.onSale
    else if filter == Some("featured") then p.isFeatured
    else true
  }

  /** The `q` parameter: a non-empty query keeps the products whose lower-cased name or
      category contains the lower-cased query; no query, or an empty one, keeps every
      product. */
  predicate PassesQuery(p: Product, query: Option<string>) {
    match query
    case None => true
    case Some(q) =>
      q == [] || Contains(Lower(p.name), Lower(q)) || Contains(Lower(p.category), Lower(q))
  }

  function FlagTest(filter: Option<string>): Product -> bool {
    (p: Product) => PassesFlag(p, filter)
  }

  function QueryTest(query: Option<string>): Product -> bool {
    (p: Product) => PassesQuery(p, query)
  }

  // ---------------------------------------------------------------------------------------
  // Sorting

  /** The `sortBy` values the page knows; every other value sorts like 'newest'. */
  datatype SortKey = PriceAsc | PriceDesc | ByName | Newest

  function KeyOf(sortBy: string): (k: SortKey)
    ensures k == PriceAsc <==> sortBy == "price-asc"
    ensures k == PriceDesc <==> sortBy == "price-desc"
    ensures k == ByName <==> sortBy == "name"
    ensures k == Newest <==> sortBy !in {"price-asc", "price-desc", "name"}
  {
    if sortBy == "price-asc" then PriceAsc
    else if sortBy == "price-desc" then PriceDesc
    else if sortBy == "name" then ByName
    else Newest
  }

  /** `a` may come before `b`: the comparator of each `sort` call returns at most 0. */
  predicate Before(key: SortKey, a: Product, b: Product) {
    match key
    case PriceAsc => a.price <= b.price
    case PriceDesc => b.price <= a.price
    case ByName => LessEq(a.name, b.name)
    case Newest => b.id <= a.id
  }

  /** Every comparator is total ... */
  lemma BeforeTotal(key: SortKey, a: Product, b: Product)
    ensures Before(key, a, b) || Before(key, b, a)
  {
    if key == ByName {
      LessEqTotal(a.name, b.name);
    }
  }

  /** ... and transitive, so that a sorted sequence is ordered pairwise. */
  lemma BeforeTransitive(key: SortKey, a: Product, b: Product, c: Product)
    requires Before(key, a, b) && Before(key, b, c)
    ensures Before(key, a, c)
  {
    if key == ByName {
      LessEqTransitive(a.name, b.name, c.name);
    }
  }

  predicate Sorted(s: seq<Product>, key: SortKey) {
    forall i, j :: 0 <= i < j < |s| ==> Before(key, s[i], s[j])
  }

  /** `Array.prototype.sort` with the key's comparator, as an insertion sort by adjacent
      swaps: the array ends sorted and holds the same products as before. */
  method SortInPlace(a: array<Product>, key: SortKey)
    modifies a
    ensures Sorted(a[..], key)
    ensures multiset(a[..]) == multiset(old(a[..]))
  {
    for i := 0 to a.Length
      invariant forall p, q :: 0 <= p < q < i ==> Before(key, a[p], a[q])
      invariant multiset(a[..]) == multiset(old(a[..]))
    {
      Sink(a, i, key);
    }
  }

  /** Moves `a[i]` down past every element it must precede, so that `a[..i + 1]` is sorted
      when `a[..i]` was. */
  method Sink(a: array<Product>, i: int, key: SortKey)
    requires 0 <= i < a.Length
    requires forall p, q :: 0 <= p < q < i ==> Before(key, a[p], a[q])
    modifies a
    ensures forall p, q :: 0 <= p < q <= i ==> Before(key, a[p], a[q])
    ensures multiset(a[..]) == multiset(old(a[..]))
  {
    var j := i;
    while j > 0 && !Before(key, a[j - 1], a[j])
      invariant 0 <= j <= i
      invariant forall p, q :: 0 <= p < q <= i && p != j && q != j ==> Before(key, a[p], a[q])
      invariant forall q :: j < q <= i ==> Before(key, a[j], a[q])
      invariant multiset(a[..]) == multiset(old(a[..]))
    {
      BeforeTotal(key, a[j - 1], a[j]);
      a[j - 1], a[j] := a[j], a[j - 1];
      j := j - 1;
    }
    SinkDone(a[..], i, j, key);
  }

  /** Once the moved element is not before its left neighbour, the prefix up to `i` is
      sorted. */
  lemma SinkDone(s: seq<Product>, i: int, j: int, key: SortKey)
    requires 0 <= j <= i < |s|
    requires forall p, q :: 0 <= p < q <= i && p != j && q != j ==> Before(key, s[p], s[q])
    requires forall q :: j < q <= i ==> Before(key, s[j], s[q])
    requires j == 0 || Before(key, s[j - 1], s[j])
    ensures forall p, q :: 0 <= p < q <= i ==> Before(key, s[p], s[q])
  {
    forall p, q | 0 <= p < q <= i ensures Before(key, s[p], s[q]) {
      if q == j && p < j - 1 {
        BeforeTransitive(key, s[p], s[j - 1], s[j]);
      }
    }
  }

  // ---------------------------------------------------------------------------------------
  // The pipeline

  /** The gallery's `useEffect`: start from the catalogue, narrow it by the flag filter and
      then by the query, and sort the survivors in place. The result holds each product
      passing both tests exactly as often as the catalogue does, and nothing else, in the
      order the sort key asks for. */
  method FilteredProducts(catalog: seq<Product>, filter: Option<string>, query: Option<string>,
                          sortBy: string)
    returns (result: seq<Product>)
    ensures forall p :: multiset(result)[p] ==
                        (if PassesFlag(p, filter) && PassesQuery(p, query) then multiset(catalog)[p] else 0)
    ensures |result| <= |catalog|
    ensures Sorted(result, KeyOf(sortBy))
    ensures sortBy == "price-asc" ==> forall i, j :: 0 <= i < j < |result| ==> result[i].price <= result[j].price
    ensures sortBy == "price-desc" ==> forall i, j :: 0 <= i < j < |result| ==> result[i].price >= result[j].price
    ensures sortBy == "name" ==> forall i, j :: 0 <= i < j < |result| ==> LessEq(result[i].name, result[j].name)
    ensures sortBy !in {"price-asc", "price-desc", "name"} ==>
      forall i, j :: 0 <= i < j < |result| ==> result[i].id >= result[j].id
  {
    var products := catalog;
    if filter == Some("new") || filter == Some("sale") || filter == Some("featured") {
      products := Keep(products, FlagTest(filter));
    }
    if query.Some? && query.value != [] {
      products := Keep(products, QueryTest(query));
    }
    forall p ensures multiset(products)[p] ==
      if PassesFlag(p, filter) && PassesQuery(p, query) then multiset(catalog)[p] else 0
    {
      CountAfterFilters(catalog, filter, query, p);
    }
    assert |products| <= |catalog|;
    result := SortedCopy(products, KeyOf(sortBy));
    SortedOrders(result, sortBy);
  }

  /** The filtered list is sorted in place; as a value, a sorted permutation of it. */
  method SortedCopy(products: seq<Product>, key: SortKey) returns (result: seq<Product>)
    ensures multiset(result) == multiset(products)
    ensures |result| == |products|
    ensures Sorted(result, key)
  {
    var a := new Product[|products|](k requires 0 <= k < |products| => products[k]);
    assert a[..] == products;
    SortInPlace(a, key);
    result := a[..];
    assert |result| == |multiset(result)| == |multiset(products)| == |products|;
  }

  /** What a sequence sorted by the key of `sortBy` means for each `sortBy` value. */
  lemma SortedOrders(s: seq<Product>, sortBy: string)
    requires Sorted(s, KeyOf(sortBy))
    ensures sortBy == "price-asc" ==> forall i, j :: 0 <= i < j < |s| ==> s[i].price <= s[j].price
    ensures sortBy == "price-desc" ==> forall i, j :: 0 <= i < j < |s| ==> s[i].price >= s[j].price
    ensures sortBy == "name" ==> forall i, j :: 0 <= i < j < |s| ==> LessEq(s[i].name, s[j].name)
    ensures sortBy !in {"price-asc", "price-desc", "name"} ==>
      forall i, j :: 0 <= i < j < |s| ==> s[i].id >= s[j].id
  {
  }

  /** How often a product survives the two filter stages the pipeline applies. */
  lemma CountAfterFilters(catalog: seq<Product>, filter: Option<string>, query: Option<string>, p: Product)
    ensures var flagged := if filter == Some("new") || filter == Some("sale") || filter == Some("featured")
                           then Keep(catalog, FlagTest(filter)) else catalog;
      var searched := if query.Some? && query.value != [] then Keep(flagged, QueryTest(query)) else flagged;
      multiset(searched)[p] ==
        if PassesFlag(p, filter) && PassesQuery(p, query) then multiset(catalog)[p] else 0
  {
    KeepCount(catalog, FlagTest(filter), p);
    var flagged := if filter == Some("new") || filter == Some("sale") || filter == Some("featured")
                   then Keep(catalog, FlagTest(filter)) else catalog;
    KeepCount(flagged, QueryTest(query), p);
  }

  // ---------------------------------------------------------------------------------------
  // The title

  /** `getPageTitle`: a non-empty query wins, then the three known filters, then the
      default. */
  function PageTitle(filter: Option<string>, query: Option<string>): string {
    if query.Some? && query.value != [] then "Risultati per \"" + query.value + "\""
    else if filter == Some("new") then "Nuovi Arrivi"
    else if filter == Some("sale") then "In Offerta"
    else if filter == Some("featured") then "Scelti per Te"
    else "Galleria Stampe"
  }

  /** A non-empty query decides the title whatever the filter, and the title quotes it. */
  lemma QueryOverridesFilter(q: string, filter: Option<string>, other: Option<string>)
    requires q != []
    ensures PageTitle(filter, Some(q)) == PageTitle(other, Some(q))
    ensures var t := PageTitle(filter, Some(q)); t[|t| - |q| - 1..|t| - 1] == q
  {
  }

  /** Without a query and without a known filter the title is the default one. */
  lemma DefaultTitle(filter: Option<string>, query: Option<string>)
    requires query.None? || query == Some([])
    requires filter !in {Some("new"), Some("sale"), Some("featured")}
    ensures PageTitle(filter, query) == "Galleria Stampe"
  {
  }
}
