/** `ProductListComponent`: the catalog with a name search and a category
    filter, both mirrored in the URL's query parameters (`search`,
    `category`). Router navigations are the values the component emits;
    `ApplyNavigation` is the router's query-parameter update, so the URL
    round trip can be stated. */
module ProductList {
  import opened Common
  import Text
  import Seqs
  import Products

  /** Query parameters of the current URL. */
  type Params = map<String, String>

  const SearchKey: String := "search"
  const CategoryKey: String := "category"

  /** `router.navigate(commands, { queryParams, queryParamsHandling })`: a
      `None` parameter value is `null`, which removes the key; `merge`
      keeps the other keys of the current URL. */
  datatype Navigation = Navigation(commands: seq<String>, queryParams: map<String, Option<String>>, merge: bool)

  datatype ProductListComponent = ProductListComponent(
    products: seq<Products.Product>,
    filteredProducts: seq<Products.Product>,
    searchTerm: String,
    selectedCategory: String,
    categories: seq<String>)

  /** Field initialisers, before `ngOnInit`. */
  const Initial := ProductListComponent([], [], "", "", [])

  /** The filter of `filterProducts()` for one product: the name contains
      the search term ignoring case, and the category is either unselected
      or equal to the product's. */
  predicate Matches(p: Products.Product, searchTerm: String, category: String) {
    Text.IncludesIgnoreCase(p.name, searchTerm) && (category == "" || p.category == category)
  }

  /** `filterProducts()` applied to a list of products. */
  function FilterList(products: seq<Products.Product>, searchTerm: String, category: String): (r: seq<Products.Product>)
    ensures Seqs.IsSubsequence(r, products)
    ensures forall p :: p in r <==> p in products && Matches(p, searchTerm, category)
    ensures forall p :: multiset(r)[p] == if Matches(p, searchTerm, category) then multiset(products)[p] else 0
  {
    var r := Seqs.Filter(products, p => Matches(p, searchTerm, category));
    Seqs.FilterSpec(products, p => Matches(p, searchTerm, category));
    forall p | p in r
      ensures p in products && Matches(p, searchTerm, category)
    {
      var i :| 0 <= i < |r| && r[i] == p;
    }
    forall p | p in products && Matches(p, searchTerm, category)
      ensures p in r
    {
      var i :| 0 <= i < |products| && products[i] == p;
    }
    r
  }

  function FilterProducts(c: ProductListComponent): ProductListComponent {
    c.(filteredProducts := FilterList(c.products, c.searchTerm, c.selectedCategory))
  }

  /** `params[key] || ''`. */
  function ParamOrEmpty(params: Params, key: String): (r: String)
    ensures key in params ==> r == params[key]
    ensures key !in params ==> r == ""
  {
    if key in params then params[key] else ""
  }

  /** The query-parameter subscription of `ngOnInit`. */
  function OnQueryParams(c: ProductListComponent, params: Params): (r: ProductListComponent)
    ensures r.searchTerm == ParamOrEmpty(params, SearchKey)
    ensures r.selectedCategory == ParamOrEmpty(params, CategoryKey)
    ensures r.products == c.products && r.categories == c.categories
    ensures forall p :: p in r.filteredProducts <==> p in c.products && Matches(p, r.searchTerm, r.selectedCategory)
  {
    FilterProducts(c.(searchTerm := ParamOrEmpty(params, SearchKey), selectedCategory := ParamOrEmpty(params, CategoryKey)))
  }

  /** `ngOnInit()` followed by the first emission of the query parameters. */
  function NgOnInit(c: ProductListComponent, params: Params): (r: ProductListComponent)
    ensures r.products == Products.GetProducts() && r.categories == Products.GetCategories()
  {
    OnQueryParams(c.(products := Products.GetProducts(), categories := Products.GetCategories()), params)
  }

  /** `value || null` for a query parameter. */
  function OrNull(value: String): (r: Option<String>)
    ensures r.None? <==> value == ""
    ensures r.Some? ==> r.value == value
  {
    if value == "" then None else Some(value)
  }

  /** `updateQueryParams()` (also `onSearchChange` and `onCategoryChange`). */
  function UpdateQueryParams(c: ProductListComponent): (n: Navigation)
    ensures n.commands == [] && n.merge
    ensures n.queryParams.Keys == {SearchKey, CategoryKey}
  {
    Navigation([], map[SearchKey := OrNull(c.searchTerm), CategoryKey := OrNull(c.selectedCategory)], true)
  }

  /** `viewProduct(id)`: the detail route, with the id as its URL segment. */
  function ViewProduct(id: int): (n: Navigation)
    ensures n.commands == ["/products", Text.IntToString(id)] && n.queryParams == map[]
  {
    Navigation(["/products", Text.IntToString(id)], map[], false)
  }

  /** `clearFilters()`: clears both filters and navigates with no query
      parameters. The list itself is refreshed by the resulting query-parameter
      emission, not here. */
  function ClearFilters(c: ProductListComponent): (r: (ProductListComponent, Navigation))
    ensures r.0 == c.(searchTerm := "", selectedCategory := "")
    ensures r.1.commands == [] && r.1.queryParams == map[] && !r.1.merge
  {
    (c.(searchTerm := "", selectedCategory := ""), Navigation([], map[], false))
  }

  /** The router's new query parameters after a navigation relative to the
      current route. */
  function ApplyNavigation(current: Params, n: Navigation): (r: Params)
    ensures forall k :: k in n.queryParams ==> (k in r <==> n.queryParams[k].Some?)
    ensures forall k :: k in n.queryParams && n.queryParams[k].Some? ==> r[k] == n.queryParams[k].value
    ensures forall k :: k !in n.queryParams ==> (k in r <==> n.merge && k in current)
    ensures forall k :: k !in n.queryParams && k in r ==> r[k] == current[k]
  {
    var base := if n.merge then current else map[];
    var kept := map k | k in base && k !in n.queryParams :: base[k];
    var updates := map k | k in n.queryParams && n.queryParams[k].Some? :: n.queryParams[k].value;
    kept + updates
  }

  /** URL round trip: the navigation `updateQueryParams` emits, read back by
      the query-parameter subscription, restores both filters and the same
      filtered list, whatever other parameters the URL held. */
  lemma UpdateQueryParamsRoundTrip(c: ProductListComponent, current: Params)
    ensures var r := OnQueryParams(c, ApplyNavigation(current, UpdateQueryParams(c)));
      && r.searchTerm == c.searchTerm
      && r.selectedCategory == c.selectedCategory
      && r.filteredProducts == FilterList(c.products, c.searchTerm, c.selectedCategory)
  {
  }

  /** After `clearFilters` the URL holds no filter, so the list shows every
      product again. */
  lemma {:induction false} ClearFiltersShowsAll(c: ProductListComponent, current: Params)
    ensures var (c', n) := ClearFilters(c);
      var r := OnQueryParams(c', ApplyNavigation(current, n));
      && r.searchTerm == "" && r.selectedCategory == ""
      && r.filteredProducts == c.products
  {
    var (c', n) := ClearFilters(c);
    NoFilterKeepsAll(c.products);
  }

  /** With no search term and no category every product matches. */
  lemma {:induction false} NoFilterKeepsAll(products: seq<Products.Product>)
    ensures FilterList(products, "", "") == products
  {
    forall i | 0 <= i < |products|
      ensures Matches(products[i], "", "")
    {
      Text.IncludesEmpty(Text.Lower(products[i].name));
    }
    Seqs.FilterKeepsAll(products, p => Matches(p, "", ""));
  }

  /** Filtering an already filtered list with the same criteria changes
      nothing. */
  lemma {:induction false} FilterListIdempotent(products: seq<Products.Product>, searchTerm: String, category: String)
    ensures FilterList(FilterList(products, searchTerm, category), searchTerm, category)
         == FilterList(products, searchTerm, category)
  {
    Seqs.FilterIdempotent(products, p => Matches(p, searchTerm, category));
  }

  /** A selected category keeps only products of that category, and every
      product of that category whose name matches. */
  lemma CategoryFilterExact(products: seq<Products.Product>, searchTerm: String, category: String, p: Products.Product)
    requires category != ""
    ensures p in FilterList(products, searchTerm, category)
        <==> p in products && p.category == category && Text.IncludesIgnoreCase(p.name, searchTerm)
  {
  }
}
