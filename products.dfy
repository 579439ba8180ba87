/** The product list: one card per product, each linking to `/products/<id>`. */
module ProductsPage {
  import opened Wrappers
  import opened Strings
  import opened Paths
  import App
  import ProductDetailPage

  datatype Summary = Summary(id: nat, name: string, price: string)

  /** `PRODUCTS`, in display order. */
  const Listing: seq<Summary> := [
    Summary(1, "React Router Guide", "$29.99"),
    Summary(2, "SPA Development", "$39.99"),
    Summary(3, "Web Development Pro", "$49.99"),
    Summary(4, "Advanced React", "$59.99")
  ]

  /** `/products/${id}`: the path has the two segments "products" and the id. */
  function LinkTo(id: nat): (path: string)
    ensures path == Rooted(["products", DecimalString(id)])
    ensures Segments(path) == ["products", DecimalString(id)]
  {
    var digits := DecimalString(id);
    assert IsSegment(digits) by {
      assert forall i :: 0 <= i < |digits| ==> digits[i] != '/';
    }
    SegmentsOfTwo("products", digits);
    assert "/" + "products" + "/" + digits == "/products/" + digits;
    assert Join(["products", digits], '/') == "products" + "/" + digits;
    "/products/" + digits
  }

  datatype Card = Card(name: string, price: string, link: string)

  /** The rendered cards, one per product in list order. */
  function Cards(): (cards: seq<Card>)
    ensures |cards| == |Listing|
    ensures forall i :: 0 <= i < |cards| ==>
      cards[i] == Card(Listing[i].name, Listing[i].price, LinkTo(Listing[i].id))
  {
    seq(|Listing|, i requires 0 <= i < |Listing| =>
      Card(Listing[i].name, Listing[i].price, LinkTo(Listing[i].id)))
  }

  /** The ids are 1 to 4, in ascending order. */
  lemma ListingIds()
    ensures |Listing| == 4
    ensures forall i :: 0 <= i < |Listing| ==> Listing[i].id == i + 1
  {
  }

  /** No two cards link to the same path. */
  lemma LinksDistinct(i: nat, j: nat)
    requires i < |Listing| && j < |Listing| && i != j
    ensures Cards()[i].link != Cards()[j].link
  {
    var a, b := Listing[i].id, Listing[j].id;
    ListingIds();
    DecimalInjective(a, b);
    var p := "/products/";
    assert LinkTo(a)[|p|..] == DecimalString(a) && LinkTo(b)[|p|..] == DecimalString(b);
  }

  /** Every card's link routes to the product detail page with the product's id
      as `productId`, and that id is found there. */
  lemma LinksReachProducts(i: nat)
    requires i < |Listing|
    ensures var id := DecimalString(Listing[i].id);
      && App.Resolve(Cards()[i].link) == Some(App.Hit(3, map["productId" := id]))
      && App.Table[3].view == App.ProductDetail
      && ProductDetailPage.Lookup(id).Some?
  {
    var id := DecimalString(Listing[i].id);
    ListingIds();
    App.ResolveByCases(Cards()[i].link);
  }

  /** The list and the detail dictionary agree on each product's id, name and price. */
  lemma ListingMatchesCatalog(i: nat)
    requires i < |Listing|
    ensures var p := ProductDetailPage.Lookup(DecimalString(Listing[i].id));
      p.Some? && p.value.id == Listing[i].id
      && p.value.name == Listing[i].name && p.value.price == Listing[i].price
  {
    ListingIds();
  }
}
