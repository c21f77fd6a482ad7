/** `ProductService`: a fixed in-memory catalog with lookup by id and the
    list of categories. Prices are floating-point values and are left out of
    the product record. */
module Products {
  import opened Common
  import Seqs

  datatype Product = Product(id: int, name: String, description: String, category: String, stock: int)

  /** The catalog, in the source's order. */
  const Catalog: seq<Product> := [
    Product(1, "Laptop Pro 15", "High-performance laptop with 15-inch display, perfect for professionals.", "Electronics", 25),
    Product(2, "Wireless Mouse", "Ergonomic wireless mouse with precision tracking.", "Electronics", 150),
    Product(3, "Mechanical Keyboard", "RGB backlit mechanical keyboard with Cherry MX switches.", "Electronics", 75),
    Product(4, "Office Chair", "Ergonomic office chair with lumbar support and adjustable armrests.", "Furniture", 30),
    Product(5, "Standing Desk", "Electric height-adjustable standing desk with memory presets.", "Furniture", 20),
    Product(6, "Monitor 27\"", "4K Ultra HD monitor with HDR support and USB-C connectivity.", "Electronics", 40),
    Product(7, "Desk Lamp", "LED desk lamp with adjustable brightness and color temperature.", "Accessories", 100),
    Product(8, "Webcam HD", "1080p HD webcam with built-in microphone and auto-focus.", "Electronics", 60),
    Product(9, "Notebook Set", "Premium notebook set with 3 different sizes for all your needs.", "Accessories", 200)
  ]

  /** Ids are pairwise distinct. */
  predicate UniqueIds(products: seq<Product>) {
    forall i, j :: 0 <= i < j < |products| ==> products[i].id != products[j].id
  }

  /** Catalog data the tests rely on: unique ids, non-negative stock,
      non-empty names and descriptions. */
  lemma CatalogWellFormed()
    ensures UniqueIds(Catalog)
    ensures forall i :: 0 <= i < |Catalog| ==> Catalog[i].stock >= 0
    ensures forall i :: 0 <= i < |Catalog| ==> Catalog[i].name != "" && Catalog[i].description != ""
  {
    CatalogIds();
  }

  /** `products.find(p => p.id === id)`: the first product with that id. */
  function FindById(products: seq<Product>, id: int): (r: Option<Product>)
    ensures r.Some? ==> r.value in products && r.value.id == id
    ensures r.None? <==> forall i :: 0 <= i < |products| ==> products[i].id != id
    ensures r.Some? ==> exists k :: (0 <= k < |products| && products[k] == r.value
      && forall i :: 0 <= i < k ==> products[i].id != id)
  {
    if products == [] then None
    else if products[0].id == id then Some(products[0])
    else
      var r := FindById(products[1..], id);
      assert forall i :: 1 <= i < |products| ==> products[i] == products[1..][i - 1];
      r
  }

  /** With unique ids, the product found is the only one with that id. */
  lemma FindByIdUnique(products: seq<Product>, id: int, k: int)
    requires UniqueIds(products)
    requires 0 <= k < |products| && products[k].id == id
    ensures FindById(products, id) == Some(products[k])
  {
    var r := FindById(products, id);
    var m :| 0 <= m < |products| && products[m] == r.value && forall i :: 0 <= i < m ==> products[i].id != id;
    assert products[m].id == products[k].id;
  }

  function GetProducts(): seq<Product> {
    Catalog
  }

  /** The catalog's ids are 1 to 9, in order. */
  lemma CatalogIds()
    ensures |Catalog| == 9
    ensures forall i :: 0 <= i < |Catalog| ==> Catalog[i].id == i + 1
  {
  }

  /** `getProductById(id)` on the service's catalog. */
  function GetProductById(id: int): (r: Option<Product>)
    ensures r.Some? <==> 1 <= id <= 9
    ensures r.Some? ==> r.value == Catalog[id - 1]
  {
    CatalogIds();
    if 1 <= id <= 9 then
      FindByIdUnique(Catalog, id, id - 1);
      FindById(Catalog, id)
    else
      FindById(Catalog, id)
  }

  /** The category of each product, in catalog order. */
  function CategoryColumn(products: seq<Product>): (r: seq<String>)
    ensures |r| == |products|
    ensures forall i :: 0 <= i < |products| ==> r[i] == products[i].category
  {
    seq(|products|, i requires 0 <= i < |products| => products[i].category)
  }

  /** `[...new Set(products.map(p => p.category))]`. */
  function CategoriesOf(products: seq<Product>): seq<String> {
    Seqs.Dedup(CategoryColumn(products))
  }

  /** The categories of a product list: no duplicates, exactly the categories
      the products have, ordered by first appearance. */
  lemma CategoriesSpec(products: seq<Product>)
    ensures Seqs.NoDuplicates(CategoriesOf(products))
    ensures forall c :: c in CategoriesOf(products) <==> exists i :: 0 <= i < |products| && products[i].category == c
    ensures Seqs.OrderedByFirstOccurrence(CategoryColumn(products), CategoriesOf(products))
  {
    var cats := CategoryColumn(products);
    Seqs.DedupSpec(cats);
    Seqs.DedupFirstOccurrenceOrder(cats);
    forall c | c in CategoriesOf(products)
      ensures exists i :: 0 <= i < |products| && products[i].category == c
    {
      var k :| 0 <= k < |CategoriesOf(products)| && CategoriesOf(products)[k] == c;
      var i :| 0 <= i < |cats| && cats[i] == c;
    }
    forall i | 0 <= i < |products|
      ensures products[i].category in CategoriesOf(products)
    {
      assert cats[i] == products[i].category;
    }
  }

  function GetCategories(): seq<String> {
    CategoriesOf(Catalog)
  }

  /** `Dedup` on the first five categories of the catalog's pattern. */
  lemma DedupPatternStart<T>(e: T, f: T)
    requires e != f
    ensures Seqs.Dedup([e, e, e, f, f]) == [e, f]
  {
    assert Seqs.Dedup([e]) == [e] by { assert [e][..0] == []; }
    assert Seqs.Dedup([e, e]) == [e] by { assert [e, e][..1] == [e]; }
    assert Seqs.Dedup([e, e, e]) == [e] by { assert [e, e, e][..2] == [e, e]; }
    assert Seqs.Dedup([e, e, e, f]) == [e, f] by { assert [e, e, e, f][..3] == [e, e, e]; }
    assert [e, e, e, f, f][..4] == [e, e, e, f];
  }

  /** `Dedup` on the catalog's pattern of categories, for any three
      distinct values. */
  lemma DedupCategoryPattern<T>(e: T, f: T, a: T)
    requires e != f && f != a && e != a
    ensures Seqs.Dedup([e, e, e, f, f, e, a, e, a]) == [e, f, a]
  {
    DedupPatternStart(e, f);
    var xs := [e, e, e, f, f, e, a, e, a];
    assert Seqs.Dedup(xs[..6]) == [e, f] by { assert xs[..6][..5] == [e, e, e, f, f]; }
    assert Seqs.Dedup(xs[..7]) == [e, f, a] by { assert xs[..7][..6] == xs[..6]; }
    assert Seqs.Dedup(xs[..8]) == [e, f, a] by { assert xs[..8][..7] == xs[..7]; }
    assert xs[..9] == xs;
  }

  /** The catalog's categories, in first-occurrence order. */
  lemma CatalogCategories()
    ensures GetCategories() == ["Electronics", "Furniture", "Accessories"]
  {
    var e, f, a := "Electronics", "Furniture", "Accessories";
    var cats := CategoryColumn(Catalog);
    assert cats == [e, e, e, f, f, e, a, e, a];
    assert e[0] != f[0] && f[0] != a[0] && e[0] != a[0];
    DedupCategoryPattern(e, f, a);
  }
}
