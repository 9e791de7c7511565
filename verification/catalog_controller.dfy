/** `CatalogController`: the shop's product list and product page. Only the
    decisions are modelled; the catalogue and review services are calls whose
    outcomes (a value, or an exception) are inputs. */
module Catalog {
  import opened Wrappers
  import opened Numerics
  import opened Guids

  /** The outcome of a call into a service that is not part of this model. */
  datatype Call<+T> = Threw | Gave(value: T)

  /** A catalogue product as the catalogue service returns it; the `Money`
      price is its amount. */
  datatype CatalogProduct = CatalogProduct(
    id: Guid,
    name: string,
    description: string,
    priceAmount: real,
    imageUrl: Option<string>,
    stockQuantity: int32)

  /** One card of the product list. */
  datatype ProductCard = ProductCard(
    id: Guid,
    name: string,
    truncatedDescription: string,
    priceAmount: real,
    imageUrl: Option<string>,
    stockQuantity: int32)

  /** What an action renders. */
  datatype ActionResult =
    | CatalogView(cards: seq<ProductCard>)
    | DetailsView(product: CatalogProduct, averageRating: real, reviewCount: int)
    | NotFound
    | ErrorView(message: string)

  const MaxDescriptionLength: nat := 100
  const Ellipsis: string := "..."
  const IndexError: string := "An error occurred while loading products. Please try again later."
  const DetailsError: string := "An error occurred while loading the product. Please try again later."

  /** The card text of a description: one of more than 100 characters is cut
      to its first 97 and ends in "...", so it is exactly 100 long. */
  function TruncateDescription(description: string): (r: string)
    ensures |r| <= MaxDescriptionLength
    ensures |description| <= MaxDescriptionLength ==> r == description
    ensures |description| > MaxDescriptionLength ==>
      && |r| == MaxDescriptionLength
      && r[..MaxDescriptionLength - |Ellipsis|] == description[..MaxDescriptionLength - |Ellipsis|]
      && r[MaxDescriptionLength - |Ellipsis|..] == Ellipsis
  {
    if |description| > 100 then description[..97] + "..." else description
  }

  /** Cutting a card text again changes nothing. */
  lemma TruncateIdempotent(description: string)
    ensures TruncateDescription(TruncateDescription(description)) == TruncateDescription(description)
  {
  }

  /** The text that is kept is a prefix of the description: the card shows
      the description's start and never invents text except the ellipsis. */
  lemma TruncatedIsPrefixPlusEllipsis(description: string)
    ensures var r := TruncateDescription(description);
      exists n :: 0 <= n <= |description| && n <= |r| &&
        r[..n] == description[..n] && (r == description[..n] || r == description[..n] + Ellipsis)
  {
    var r := TruncateDescription(description);
    if |description| > MaxDescriptionLength {
      assert r == description[..97] + Ellipsis;
    } else {
      assert r == description[..|description|];
    }
  }

  /** A 101-character description loses its last four characters to "...". */
  lemma TruncateExample()
    ensures var d := seq(101, i => 'a');
      TruncateDescription(d) == seq(97, i => 'a') + "..."
  {
  }

  /** The card for a product: its fields, with the description truncated. */
  function Card(p: CatalogProduct): (c: ProductCard)
    ensures c.id == p.id && c.name == p.name && c.priceAmount == p.priceAmount
    ensures c.imageUrl == p.imageUrl && c.stockQuantity == p.stockQuantity
    ensures c.truncatedDescription == TruncateDescription(p.description)
  {
    ProductCard(p.id, p.name, TruncateDescription(p.description), p.priceAmount, p.imageUrl, p.stockQuantity)
  }

  /** `Index`: one card per product, in the service's order; an exception
      from the catalogue service renders the error view. */
  function Index(products: Call<seq<CatalogProduct>>): (r: ActionResult)
    ensures products.Threw? ==> r == ErrorView(IndexError)
    ensures products.Gave? ==>
      && r.CatalogView?
      && |r.cards| == |products.value|
      && forall i :: 0 <= i < |r.cards| ==> r.cards[i] == Card(products.value[i])
  {
    match products
    case Threw => ErrorView(IndexError)
    case Gave(ps) => CatalogView(seq(|ps|, i requires 0 <= i < |ps| => Card(ps[i])))
  }

  /** No card text is longer than 100 characters. */
  lemma IndexCardsAreShort(products: seq<CatalogProduct>)
    ensures forall c :: c in Index(Gave(products)).cards ==> |c.truncatedDescription| <= MaxDescriptionLength
  {
  }

  /** `Details`: a missing product is NotFound; a failure of either review
      call shows the product with rating 0 and count 0; an exception from
      the product lookup renders the error view. */
  function Details(product: Call<Option<CatalogProduct>>, averageRating: Call<real>, reviewCount: Call<int32>): (r: ActionResult)
    ensures product.Threw? ==> r == ErrorView(DetailsError)
    ensures product == Gave(None) ==> r == NotFound
    ensures product.Gave? && product.value.Some? ==>
      && r.DetailsView? && r.product == product.value.value
      && (averageRating.Gave? && reviewCount.Gave? ==>
            r.averageRating == averageRating.value && r.reviewCount == reviewCount.value as int)
      && (averageRating.Threw? || reviewCount.Threw? ==> r.averageRating == 0.0 && r.reviewCount == 0)
  {
    match product
    case Threw => ErrorView(DetailsError)
    case Gave(None) => NotFound
    case Gave(Some(p)) =>
      match (averageRating, reviewCount)
      case (Gave(avg), Gave(count)) => DetailsView(p, avg, count as int)
      case _ => DetailsView(p, 0.0, 0)
  }

  /** Whatever the review service does, a product that exists is shown, and
      only a missing one is NotFound. */
  lemma ReviewFailureStillShowsProduct(product: Call<Option<CatalogProduct>>, averageRating: Call<real>, reviewCount: Call<int32>)
    requires product.Gave?
    ensures Details(product, averageRating, reviewCount).DetailsView? <==> product.value.Some?
    ensures Details(product, averageRating, reviewCount).NotFound? <==> product.value.None?
  {
  }
}
