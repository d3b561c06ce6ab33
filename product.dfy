/**
 * Products as the storefront instantiates them (src/components/models/product.ts):
 * the server's fields copied, the image turned into a CDN address, every
 * instance appended to a shared registry, and basket operations delegated to
 * the basket the product was created with.
 */
module ProductModel {
  import opened Wrappers
  import opened Types
  import opened BasketModel

  /**
   * The CDN prefix. Its value is built from the deployment's origin, which
   * is not known here; the model treats it as a fixed, opaque string.
   */
  const CdnUrl: string := "API_ORIGIN/content/weblarek"

  /** The address of a product image: the CDN prefix, a slash, the server's file name. */
  function ImageUrl(image: string): (url: string)
    ensures |url| == |CdnUrl| + 1 + |image|
    ensures url[..|CdnUrl|] == CdnUrl && url[|CdnUrl|] == '/'
    ensures url[|CdnUrl| + 1..] == image
  {
    CdnUrl + "/" + image
  }

  /** The fields an instance holds for the server's product: all copied, the image prefixed. */
  function Instantiate(d: ProductData): (r: ProductData)
    ensures r.id == d.id && r.title == d.title && r.description == d.description
    ensures r.category == d.category && r.price == d.price
    ensures r.image == ImageUrl(d.image)
  {
    d.(image := ImageUrl(d.image))
  }

  /** The instance fields for each item of a server response, in response order. */
  function InstantiateAll(items: seq<ProductData>): (r: seq<ProductData>)
    ensures |r| == |items|
    ensures forall i :: 0 <= i < |items| ==> r[i] == Instantiate(items[i])
  {
    seq(|items|, i requires 0 <= i < |items| => Instantiate(items[i]))
  }

  /** The shared list of every product instance created so far (the static `Product.products`). */
  class Registry {
    var products: seq<Product>

    constructor ()
      ensures products == []
    {
      products := [];
    }
  }

  /** The registry's products as values, in registry order. */
  function RegistryData(ps: seq<Product>): (ds: seq<ProductData>)
    ensures |ds| == |ps|
    ensures forall i :: 0 <= i < |ps| ==> ds[i] == ps[i].Data()
  {
    seq(|ps|, i requires 0 <= i < |ps| => ps[i].Data())
  }

  /** The first product with the given id, as the registry's `find` returns it. */
  function Find(ps: seq<Product>, id: string): (r: Option<nat>)
    ensures r.None? <==> forall i :: 0 <= i < |ps| ==> ps[i].id != id
    ensures r.Some? ==> r.value < |ps| && ps[r.value].id == id
    ensures r.Some? ==> forall j :: 0 <= j < r.value ==> ps[j].id != id
  {
    if ps == [] then None
    else if ps[0].id == id then Some(0)
    else match Find(ps[1..], id)
      case None => None
      case Some(k) => Some(k + 1)
  }

  class Product {
    const id: string
    const description: string
    const image: string
    const title: string
    const category: Category
    const price: Option<nat>
    const basket: Basket

    /** This product as the value the basket stores. */
    function Data(): ProductData
    {
      ProductData(id, description, image, title, category, price)
    }

    /** Copies the server's fields, prefixes the image and appends the instance to the registry. */
    constructor (productData: ProductData, basket: Basket, registry: Registry)
      modifies registry
      ensures Data() == Instantiate(productData)
      ensures this.basket == basket
      ensures registry.products == old(registry.products) + [this]
    {
      id := productData.id;
      description := productData.description;
      image := ImageUrl(productData.image);
      title := productData.title;
      category := productData.category;
      price := productData.price;
      this.basket := basket;
      new;
      registry.products := registry.products + [this];
    }

    /** Puts exactly this product into its basket. */
    method AddToBasket()
      modifies basket
      ensures basket.products == old(basket.products) + [Data()]
      ensures basket.Valid()
      ensures old(basket.Valid()) ==> basket.total == old(basket.total) + PriceOf(Data())
    {
      basket.AddProduct(Data());
    }

    /** Takes every entry with this product's id out of its basket. */
    method RemoveFromBasket()
      modifies basket
      ensures basket.products == Without(old(basket.products), id)
      ensures basket.Valid()
    {
      basket.RemoveProduct(id);
    }

    /** Whether the product is priced; a price of 0 counts as priced. */
    function HasPrice(): (r: bool)
      ensures r <==> price.Some?
      ensures r ==> PriceOf(Data()) == price.value
      ensures !r ==> PriceOf(Data()) == 0
    {
      price != None
    }
  }
}
