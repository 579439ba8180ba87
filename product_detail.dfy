/**
 * The product detail page: looks the route's `productId` up in a fixed
 * dictionary and shows the product, or an entity-level "Product Not Found"
 * page; both offer a button back to the product list.
 */
module ProductDetailPage {
  import opened Wrappers
  import opened Strings
  import opened Paths
  import opened Sitemap
  import App

  datatype Product = Product(id: nat, name: string, price: string, description: string, details: seq<string>)

  /** `PRODUCTS`. The object literal's numeric keys 1 to 4 are property names,
      that is the strings "1" to "4". */
  const Catalog: map<string, Product> := map[
    "1" := Product(1, "React Router Guide", "$29.99",
      "Complete guide to React Router v6 with practical examples.",
      ["Learn client-side routing", "Dynamic routes with parameters", "Nested routes and layouts",
       "Protected routes", "Advanced patterns"]),
    "2" := Product(2, "SPA Development", "$39.99",
      "Master Single Page Application development with React.",
      ["SPA architecture", "Component composition", "State management",
       "Routing techniques", "Performance optimization"]),
    "3" := Product(3, "Web Development Pro", "$49.99",
      "Complete web development course covering frontend and basics.",
      ["HTML/CSS fundamentals", "JavaScript advanced", "React framework",
       "Routing and navigation", "Best practices"]),
    "4" := Product(4, "Advanced React", "$59.99",
      "Advanced React patterns and best practices.",
      ["Hooks and custom hooks", "Performance tuning", "Code splitting",
       "Error boundaries", "Testing strategies"])
  ]

  /** The dictionary holds exactly the keys "1" to "4"; each entry's id is the
      number its key spells, and each has five details. */
  lemma CatalogKeys()
    ensures Catalog.Keys == {"1", "2", "3", "4"}
    ensures forall k :: k in Catalog ==> DecimalString(Catalog[k].id) == k && |Catalog[k].details| == 5
  {
  }

  /** `PRODUCTS[productId]`: found exactly for "1" to "4", and the product's id
      is the number the key spells. */
  function Lookup(productId: string): (found: Option<Product>)
    ensures found.Some? <==> productId in {"1", "2", "3", "4"}
    ensures found.Some? ==> DecimalString(found.value.id) == productId
    ensures found.Some? ==> |found.value.details| == 5
  {
    if productId in Catalog then Some(Catalog[productId]) else None
  }

  /** The page as rendered; `backTo` is where its "Back to Products" button navigates. */
  datatype Page =
    | Detail(name: string, price: string, description: string, details: seq<string>, backTo: string)
    | ProductNotFound(backTo: string)

  function Render(productId: string): (page: Page)
    ensures page.ProductNotFound? <==> Lookup(productId).None?
    ensures page.backTo == ProductsPath
    ensures page.Detail? ==> var p := Lookup(productId).value;
      page.name == p.name && page.price == p.price
      && page.description == p.description && page.details == p.details
  {
    match Lookup(productId)
    case None => ProductNotFound(ProductsPath)
    case Some(p) => Detail(p.name, p.price, p.description, p.details, ProductsPath)
  }

  /** Keys that only look like an id, such as "01" or " 1", are not found. */
  lemma NonCanonicalIdsNotFound()
    ensures Lookup("01").None? && Lookup(" 1").None? && Lookup("1.0").None? && Lookup("").None?
  {
  }

  /** An unknown id is not a routing failure: `/products/<x>` still reaches this
      page with `productId` bound to `x`, and the lookup fails here. */
  lemma UnknownIdReachesPage(x: string)
    requires IsSegment(x) && x !in Catalog
    ensures App.Resolve("/products/" + x) == Some(App.Hit(3, map["productId" := x]))
    ensures App.Table[3].view == App.ProductDetail
    ensures Render(x) == ProductNotFound(ProductsPath)
  {
    App.ProductPathResolves(x);
  }
}
