/** `ProductResolver.resolve`: turns the route's `id` parameter into a
    product before the detail page is shown, or redirects to the product
    list. The route parameter goes through JavaScript's `Number(...)`; the
    model takes the resulting number, classified by what matters here. */
module ProductResolver {
  import opened Common
  import Products

  /** A JavaScript number as seen by the resolver: `NaN`, an integral value,
      or any other number (a fraction or an infinity), which no product id
      equals. `Number(null)` is `Integral(0)`. */
  datatype JsNumber = NaN | Integral(value: int) | NonIntegral

  const ProductsPath: String := "/products"

  /** What one resolution did: the product handed to the route (`None` for
      `null`), the navigations requested, and the number the product service
      was asked for, if it was asked. */
  datatype Resolution = Resolution(
    product: Option<Products.Product>,
    navigations: seq<seq<String>>,
    lookup: Option<JsNumber>)

  /** `productService.getProductById(id)` for any JavaScript number: `===`
      against an integer id holds only for that integral value. */
  function LookupNumber(id: JsNumber): (r: Option<Products.Product>)
    ensures r.Some? <==> id.Integral? && 1 <= id.value <= 9
    ensures r.Some? ==> r.value.id == id.value
  {
    match id
    case Integral(k) =>
      Products.CatalogIds();
      Products.GetProductById(k)
    case _ => None
  }

  /** `resolve(route, state)` with `id == Number(route.paramMap.get('id'))`. */
  function Resolve(id: JsNumber): (r: Resolution)
    ensures id.NaN? ==> r.lookup.None?
    ensures !id.NaN? ==> r.lookup == Some(id)
    ensures r.product.Some? <==> id.Integral? && 1 <= id.value <= 9
    ensures r.product.Some? ==> r.product.value.id == id.value && r.product.value in Products.Catalog
    ensures r.navigations == [] <==> r.product.Some?
    ensures r.product.None? ==> r.navigations == [[ProductsPath]]
  {
    if id.NaN? then Resolution(None, [[ProductsPath]], None)
    else
      var product := LookupNumber(id);
      if product.Some? then Resolution(product, [], Some(id))
      else Resolution(None, [[ProductsPath]], Some(id))
  }

  /** A missing `id` parameter (`Number(null)` is 0) resolves to `null`
      with one redirect to the product list. */
  lemma MissingIdRedirects()
    ensures Resolve(Integral(0)) == Resolution(None, [[ProductsPath]], Some(Integral(0)))
  {
  }

  /** A product is handed over exactly when the lookup finds one, and then
      it is the catalog entry with that id; otherwise the resolver returns
      `null` and redirects once. */
  lemma {:induction false} ResolveAgreesWithService(k: int)
    ensures var r := Resolve(Integral(k));
      && r.product == Products.GetProductById(k)
      && r.lookup == Some(Integral(k))
      && (r.product.None? <==> r.navigations == [[ProductsPath]])
  {
    Products.CatalogIds();
  }
}
