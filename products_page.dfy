/** The product listing: the category and price filters, the sort options, the heading lookups
    and the filter controls' state. */
module ProductsPage {
  import opened Wrappers
  import opened Catalog
  import opened Strings
  import opened Seqs

  // ---------------------------------------------------------------------------------------
  // Sort keys

  /** The sort orders the listing's `switch` recognises. */
  datatype SortKey = PriceAsc | PriceDesc | RatingDesc | NameAsc

  /** The option id that selects each order. */
  function SortId(k: SortKey): string {
    match k
    case PriceAsc => "price-asc"
    case PriceDesc => "price-desc"
    case RatingDesc => "rating-desc"
    case NameAsc => "name-asc"
  }

  /** The order an `activeSort` value selects; the empty value and unknown values select none. */
  function ParseSort(sort: string): (r: Option<SortKey>)
    ensures r.Some? ==> SortId(r.value) == sort
    ensures r.None? ==> forall k: SortKey :: SortId(k) != sort
  {
    if sort == "price-asc" then Some(PriceAsc)
    else if sort == "price-desc" then Some(PriceDesc)
    else if sort == "rating-desc" then Some(RatingDesc)
    else if sort == "name-asc" then Some(NameAsc)
    else None
  }

  /** `ParseSort` recognises exactly the four option ids, each as its own order. */
  lemma ParseSortIff(sort: string, k: SortKey)
    ensures ParseSort(sort) == Some(k) <==> sort == SortId(k)
  {
  }

  lemma ParseSortEmpty()
    ensures ParseSort("") == None
  {
  }

  // ---------------------------------------------------------------------------------------
  // Orders

  /** Code-point lexicographic order, standing in for `localeCompare`. */
  predicate LexLe(a: string, b: string)
    decreases |a|
  {
    a == [] || (b != [] && (a[0] < b[0] || (a[0] == b[0] && LexLe(a[1..], b[1..]))))
  }

  lemma {:induction false} LexTotal(a: string, b: string)
    ensures LexLe(a, b) || LexLe(b, a)
    decreases |a|
  {
    if a != [] && b != [] && a[0] == b[0] {
      LexTotal(a[1..], b[1..]);
    }
  }

  lemma {:induction false} LexTrans(a: string, b: string, c: string)
    requires LexLe(a, b) && LexLe(b, c)
    ensures LexLe(a, c)
    decreases |a|
  {
    if a != [] && b != [] && c != [] && a[0] == b[0] && b[0] == c[0] {
      LexTrans(a[1..], b[1..], c[1..]);
    }
  }

  /** `a` may stand before `b` in a list sorted by `k`. */
  predicate InOrder(k: SortKey, a: Product, b: Product) {
    match k
    case PriceAsc => a.price <= b.price
    case PriceDesc => a.price >= b.price
    case RatingDesc => a.rating >= b.rating
    case NameAsc => LexLe(a.name, b.name)
  }

  lemma InOrderTotal(k: SortKey, a: Product, b: Product)
    ensures InOrder(k, a, b) || InOrder(k, b, a)
  {
    if k == NameAsc { LexTotal(a.name, b.name); }
  }

  lemma InOrderTrans(k: SortKey, a: Product, b: Product, c: Product)
    requires InOrder(k, a, b) && InOrder(k, b, c)
    ensures InOrder(k, a, c)
  {
    if k == NameAsc { LexTrans(a.name, b.name, c.name); }
  }

  ghost predicate Sorted(k: SortKey, s: seq<Product>) {
    forall i, j :: 0 <= i < j < |s| ==> InOrder(k, s[i], s[j])
  }

  // ---------------------------------------------------------------------------------------
  // Filters

  /** The category step keeps a product whose category contains the lower-cased filter. */
  predicate InCategory(p: Product, filter: string) {
    Contains(p.category, Lower(filter))
  }

  /** The price step keeps a product priced within the range, both ends included. */
  predicate InPriceRange(p: Product, low: int, high: int) {
    low as real <= p.price <= high as real
  }

  /** The list after the category step; an empty filter skips the step. */
  function CategoryStep(products: seq<Product>, filter: string): (r: seq<Product>)
    ensures forall p :: p in r <==> p in products && (filter == "" || InCategory(p, filter))
  {
    if filter == "" then products else Filter(products, p => InCategory(p, filter))
  }

  /** The list after both filter steps, still in catalog order. */
  function Filtered(products: seq<Product>, filter: string, low: int, high: int): seq<Product> {
    Filter(CategoryStep(products, filter), p => InPriceRange(p, low, high))
  }

  /** Skipping the category step for an empty filter changes nothing: every category contains
      the empty string. */
  lemma EmptyFilterKeepsAll(products: seq<Product>)
    ensures Filter(products, p => InCategory(p, "")) == products
  {
    forall i | 0 <= i < |products| ensures InCategory(products[i], "") {
      ContainsEmpty(products[i].category);
    }
    FilterAllKept(products, p => InCategory(p, ""));
  }

  /** A product survives both filters exactly when it passes each of them. */
  lemma FilteredMembers(products: seq<Product>, filter: string, low: int, high: int, p: Product)
    ensures p in Filtered(products, filter, low, high) <==>
      p in products && (filter == "" || InCategory(p, filter)) && InPriceRange(p, low, high)
  {
  }

  /** The filters delete products but never reorder the catalog. */
  lemma FilteredIsSubsequence(products: seq<Product>, filter: string, low: int, high: int)
    ensures SubsequenceOf(Filtered(products, filter, low, high), products)
  {
    var inRange := (p: Product) => InPriceRange(p, low, high);
    if filter == "" {
      FilterIsSubsequence(products, inRange);
    } else {
      var inCat := (p: Product) => InCategory(p, filter);
      FilterFilter(products, inCat, inRange);
      FilterIsSubsequence(products, (p: Product) => inCat(p) && inRange(p));
    }
  }

  /** Two filters in a row are one filter by both conditions. */
  lemma {:induction false} FilterFilter(s: seq<Product>, f: Product -> bool, g: Product -> bool)
    ensures Filter(Filter(s, f), g) == Filter(s, (p: Product) => f(p) && g(p))
    decreases |s|
  {
    if s != [] {
      FilterFilter(s[1..], f, g);
    }
  }

  // ---------------------------------------------------------------------------------------
  // The filter-and-sort effect

  method Swap(a: array<Product>, i: int, j: int)
    requires 0 <= i < j < a.Length
    modifies a
    ensures a[i] == old(a[j]) && a[j] == old(a[i])
    ensures forall m :: 0 <= m < a.Length && m != i && m != j ==> a[m] == old(a[m])
    ensures multiset(a[..]) == old(multiset(a[..]))
  {
    a[i], a[j] := a[j], a[i];
  }

  /** `result.sort(compare)`: sorts `a` in place by `k`. Only the outcome is modelled: a sorted
      permutation of the input (the library's algorithm and its stability are not). */
  method SortInPlace(a: array<Product>, k: SortKey)
    modifies a
    ensures Sorted(k, a[..])
    ensures multiset(a[..]) == old(multiset(a[..]))
  {
    var i := 0;
    while i < a.Length
      invariant 0 <= i <= a.Length
      invariant forall p, q :: 0 <= p < q < i ==> InOrder(k, a[p], a[q])
      invariant multiset(a[..]) == old(multiset(a[..]))
    {
      var j := i;
      while 0 < j && !InOrder(k, a[j - 1], a[j])
        invariant 0 <= j <= i
        invariant forall p, q :: 0 <= p < q <= i && p != j && q != j ==> InOrder(k, a[p], a[q])
        invariant forall q :: j < q <= i ==> InOrder(k, a[j], a[q])
        invariant multiset(a[..]) == old(multiset(a[..]))
      {
        InOrderTotal(k, a[j - 1], a[j]);
        Swap(a, j - 1, j);
        j := j - 1;
      }
      if 0 < j {
        assert InOrder(k, a[j - 1], a[j]);
        forall p | 0 <= p < j ensures InOrder(k, a[p], a[j]) {
          if p < j - 1 {
            assert InOrder(k, a[p], a[j - 1]);
            InOrderTrans(k, a[p], a[j - 1], a[j]);
          }
        }
      }
      i := i + 1;
    }
  }

  /** The listing effect: filter a copy of `products` by category and price, then sort it by
      `sort` when that names a known order. */
  method ApplyFiltersAndSort(products: seq<Product>, filter: string, sort: string, low: int, high: int)
    returns (result: seq<Product>)
    ensures forall p :: p in result <==>
      p in products && (filter == "" || InCategory(p, filter)) && InPriceRange(p, low, high)
    ensures multiset(result) == multiset(Filtered(products, filter, low, high))
    ensures ParseSort(sort) == None ==> result == Filtered(products, filter, low, high)
    ensures ParseSort(sort).Some? ==> Sorted(ParseSort(sort).value, result)
  {
    result := products;
    if filter != "" {
      result := Filter(result, p => InCategory(p, filter));
    }
    result := Filter(result, p => InPriceRange(p, low, high));
    assert result == Filtered(products, filter, low, high);
    match ParseSort(sort) {
      case Some(k) =>
        var a := new Product[|result|](i requires 0 <= i < |result| => result[i]);
        assert a[..] == result;
        SortInPlace(a, k);
        result := a[..];
      case None =>
    }
    forall p ensures p in result <==> p in Filtered(products, filter, low, high) {
      assert p in result <==> p in multiset(result);
    }
    forall p ensures p in Filtered(products, filter, low, high) <==>
      p in products && (filter == "" || InCategory(p, filter)) && InPriceRange(p, low, high)
    {
      FilteredMembers(products, filter, low, high, p);
    }
  }

  // ---------------------------------------------------------------------------------------
  // Headings

  datatype NamedOption = NamedOption(id: string, name: string)

  const Categories: seq<NamedOption> := [
    NamedOption("", "All Products"),
    NamedOption("snacks-sweet", "Sweet Snacks"),
    NamedOption("snacks-savory", "Savory Snacks"),
    NamedOption("beverages-cold", "Cold Drinks"),
    NamedOption("beverages-hot", "Hot Drinks")
  ]

  const SortOptions: seq<NamedOption> := [
    NamedOption("", "Featured"),
    NamedOption("price-asc", "Price: Low to High"),
    NamedOption("price-desc", "Price: High to Low"),
    NamedOption("rating-desc", "Top Rated"),
    NamedOption("name-asc", "Name: A to Z")
  ]

  /** `options.find(o => o.id === id)`, giving that option's name. */
  function FindName(options: seq<NamedOption>, id: string): Option<string> {
    match Find(options, (o: NamedOption) => o.id == id)
    case Some(o) => Some(o.name)
    case None => None
  }

  /** `getCurrentCategoryName`. */
  function CategoryName(filter: string): string {
    FindName(Categories, filter).GetOr("All Products")
  }

  /** `getCurrentSortName`. */
  function SortName(sort: string): string {
    FindName(SortOptions, sort).GetOr("Featured")
  }

  /** The heading names the selected category, and falls back to "All Products" for a filter
      (from the URL) that no category has. */
  lemma CategoryNameSpec(filter: string)
    ensures (exists i :: 0 <= i < |Categories| && Categories[i].id == filter) ==>
      exists i :: 0 <= i < |Categories| && Categories[i].id == filter && CategoryName(filter) == Categories[i].name
    ensures (forall i :: 0 <= i < |Categories| ==> Categories[i].id != filter) ==>
      CategoryName(filter) == "All Products"
  {
  }

  /** The sort label names the selected option, and falls back to "Featured" for an unknown one. */
  lemma SortNameSpec(sort: string)
    ensures (exists i :: 0 <= i < |SortOptions| && SortOptions[i].id == sort) ==>
      exists i :: 0 <= i < |SortOptions| && SortOptions[i].id == sort && SortName(sort) == SortOptions[i].name
    ensures (forall i :: 0 <= i < |SortOptions| ==> SortOptions[i].id != sort) ==>
      SortName(sort) == "Featured"
  {
  }

  /** Every order the switch sorts by is offered as a sort option. */
  lemma SortKeysAreOptions(k: SortKey)
    ensures exists i :: 0 <= i < |SortOptions| && SortOptions[i].id == SortId(k)
  {
    match k
    case PriceAsc => assert SortOptions[1].id == SortId(k);
    case PriceDesc => assert SortOptions[2].id == SortId(k);
    case RatingDesc => assert SortOptions[3].id == SortId(k);
    case NameAsc => assert SortOptions[4].id == SortId(k);
  }

  // ---------------------------------------------------------------------------------------
  // Filter controls

  /** The listing's filter state: the category, the sort and the price range. */
  class FilterState {
    var activeCategoryFilter: string
    var activeSort: string
    var priceLow: int
    var priceHigh: int

    constructor ()
      ensures activeCategoryFilter == "" && activeSort == ""
      ensures priceLow == 0 && priceHigh == 50
    {
      activeCategoryFilter, activeSort := "", "";
      priceLow, priceHigh := 0, 50;
    }

    /** The URL effect: `category` and `sort` search parameters, absent ones read as "". */
    method LoadSearchParams(category: Option<string>, sort: Option<string>)
      modifies this
      ensures activeCategoryFilter == category.GetOr("") && activeSort == sort.GetOr("")
      ensures priceLow == old(priceLow) && priceHigh == old(priceHigh)
    {
      activeCategoryFilter := category.GetOr("");
      activeSort := sort.GetOr("");
    }

    method SelectCategory(id: string)
      modifies this`activeCategoryFilter
      ensures activeCategoryFilter == id
    {
      activeCategoryFilter := id;
    }

    method SelectSort(id: string)
      modifies this`activeSort
      ensures activeSort == id
    {
      activeSort := id;
    }

    /** The desktop sort button: clears an active sort, or sorts by ascending price when none
        is active. Its menu of options is shown exactly while a sort is active. */
    method ToggleSort()
      modifies this`activeSort
      ensures old(activeSort) != "" ==> activeSort == ""
      ensures old(activeSort) == "" ==> ParseSort(activeSort) == Some(PriceAsc)
    {
      activeSort := if activeSort != "" then "" else SortId(PriceAsc);
    }

    /** The price slider: sets the upper bound and keeps the lower one. */
    method SlidePrice(value: int)
      modifies this`priceHigh
      ensures priceHigh == value && priceLow == old(priceLow)
    {
      priceHigh := value;
    }

    /** The desktop "Reset Filters" button: the sort is kept. */
    method ResetFilters()
      modifies this
      ensures activeCategoryFilter == "" && priceLow == 0 && priceHigh == 50
      ensures activeSort == old(activeSort)
    {
      activeCategoryFilter := "";
      priceLow, priceHigh := 0, 50;
    }

    /** The mobile "Reset" button: the sort is cleared too. */
    method ResetAll()
      modifies this
      ensures activeCategoryFilter == "" && activeSort == ""
      ensures priceLow == 0 && priceHigh == 50
    {
      activeCategoryFilter, activeSort := "", "";
      priceLow, priceHigh := 0, 50;
    }

    /** The products the listing shows for the current state. */
    method Visible(products: seq<Product>) returns (result: seq<Product>)
      ensures forall p :: p in result <==> (p in products
        && (activeCategoryFilter == "" || InCategory(p, activeCategoryFilter))
        && InPriceRange(p, priceLow, priceHigh))
      ensures multiset(result) == multiset(Filtered(products, activeCategoryFilter, priceLow, priceHigh))
      ensures ParseSort(activeSort) == None ==> result == Filtered(products, activeCategoryFilter, priceLow, priceHigh)
      ensures ParseSort(activeSort).Some? ==> Sorted(ParseSort(activeSort).value, result)
    {
      result := ApplyFiltersAndSort(products, activeCategoryFilter, activeSort, priceLow, priceHigh);
    }
  }
}
