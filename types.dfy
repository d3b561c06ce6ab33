/**
 * The value shapes shared by the storefront's models and controller
 * (src/types/index.ts): products, their categories, the order draft and
 * the order body sent to the server.
 */
module Types {
  import opened Wrappers

  /** The five product categories; the source spells them as string tags. */
  datatype Category = SoftSkill | Other | Additional | Button | HardSkill

  /** The tag the server and the views use for a category. */
  function CategoryTag(c: Category): string
  {
    match c
    case SoftSkill => "софт-скил"
    case Other => "другое"
    case Additional => "дополнительное"
    case Button => "кнопка"
    case HardSkill => "хард-скил"
  }

  /** Reads a category tag back; any other string is not a category. */
  function ParseCategory(tag: string): (r: Option<Category>)
    ensures r.Some? ==> CategoryTag(r.value) == tag
  {
    if tag == "софт-скил" then Some(SoftSkill)
    else if tag == "другое" then Some(Other)
    else if tag == "дополнительное" then Some(Additional)
    else if tag == "кнопка" then Some(Button)
    else if tag == "хард-скил" then Some(HardSkill)
    else None
  }

  /** Every category survives the trip to its tag and back. */
  lemma CategoryTagRoundTrip(c: Category)
    ensures ParseCategory(CategoryTag(c)) == Some(c)
  {
  }

  /**
   * A product as the server sends it. Prices are whole amounts of the
   * store's currency; `None` is the source's `null` price ("priceless").
   */
  datatype ProductData = ProductData(
    id: string,
    description: string,
    image: string,
    title: string,
    category: Category,
    price: Option<nat>)

  /** The order draft: four optional fields, filled in by the two checkout steps. */
  datatype OrderData = OrderData(
    payment: Option<string>,
    email: Option<string>,
    phone: Option<string>,
    address: Option<string>)

  const EmptyOrder: OrderData := OrderData(None, None, None, None)

  /** The body of the order request: the draft's fields plus the basket total and item ids. */
  datatype OrderApi = OrderApi(
    payment: Option<string>,
    email: Option<string>,
    phone: Option<string>,
    address: Option<string>,
    total: nat,
    items: seq<string>)
}
