/**
 * The application controller (src/index.ts): the event handlers that tie
 * the product registry, the basket, the order form and the views together,
 * the product load and the order submission.
 *
 * Events are modelled as method calls, one per event name; an event that a
 * handler emits is a direct call to that event's handler. What the
 * controller asks the views to show is recorded in `renders`, the header's
 * basket counter in `header`, and every order body handed to the POST
 * request in `posted`.
 */
module App {
  import opened Wrappers
  import opened Types
  import opened BasketModel
  import opened OrderFormModel
  import opened ProductModel
  import opened PhoneFormat

  /** A render instruction for one of the views. */
  datatype Render =
    | ProductCard(product: ProductData, inBasket: bool)  // the product modal
    | BasketList(items: seq<ProductData>, total: nat)     // the basket modal, from the basket at that moment
    | OrderStep                                           // the payment and address form
    | ContactsStep                                        // the email and phone form
    | Gallery(products: seq<ProductData>)                 // the catalogue

  /** How the product request ended: the response's items, or an error. */
  datatype LoadOutcome = Loaded(items: seq<ProductData>) | LoadFailed

  function DigitChar(d: nat): (c: char)
    requires d < 10
    ensures IsDigit(c)
  {
    ('0' as int + d) as char
  }

  /** The decimal text of a count (`toString` of a non-negative integer). */
  function NatToString(n: nat): (s: string)
    ensures |s| >= 1 && AllDigits(s)
    ensures |s| > 1 ==> s[0] != '0'
  {
    if n < 10 then [DigitChar(n)] else NatToString(n / 10) + [DigitChar(n % 10)]
  }

  /** The number a string of decimal digits denotes. */
  function DecimalValue(s: string): nat
    requires AllDigits(s)
  {
    if s == [] then 0 else 10 * DecimalValue(s[..|s| - 1]) + (s[|s| - 1] as int - '0' as int)
  }

  /** The counter text reads back as the count. */
  lemma {:induction false} NatToStringRoundTrip(n: nat)
    ensures DecimalValue(NatToString(n)) == n
  {
    if n >= 10 {
      NatToStringRoundTrip(n / 10);
      var s := NatToString(n);
      assert s[..|s| - 1] == NatToString(n / 10);
    }
  }

  class AppController {
    const basket: Basket
    const orderForm: OrderForm
    const registry: Registry
    var header: Option<string>
    var renders: seq<Render>
    var posted: seq<OrderApi>

    /** The basket keeps its total, and every registered product delegates to this basket. */
    ghost predicate Valid()
      reads this, basket, registry
    {
      basket.Valid() && forall p :: p in registry.products ==> p.basket == basket
    }

    /** The first registered product with the id (`Product.products.find`). */
    function Lookup(id: string): (r: Option<Product>)
      reads registry
      ensures r.Some? ==> r.value in registry.products && r.value.id == id
      ensures r.None? <==> forall p :: p in registry.products ==> p.id != id
      ensures r.Some? ==> var k := Find(registry.products, id);
                k.Some? && r.value == registry.products[k.value]
                && forall j :: 0 <= j < k.value ==> registry.products[j].id != id
    {
      match Find(registry.products, id)
      case None => None
      case Some(k) => Some(registry.products[k])
    }

    /**
     * Creates the basket, the order form and an empty registry. The product
     * request it starts completes later, as a call of LoadProducts.
     */
    constructor ()
      ensures Valid()
      ensures fresh(basket) && fresh(orderForm) && fresh(registry)
      ensures basket.products == [] && orderForm.data == EmptyOrder && registry.products == []
      ensures header == None && renders == [] && posted == []
    {
      basket := new Basket();
      orderForm := new OrderForm();
      registry := new Registry();
      header := None;
      renders := [];
      posted := [];
    }

    /** `product:clicked`: shows the product, marked as in the basket when some entry has its id. */
    method ProductClicked(id: string)
      modifies this
      ensures header == old(header) && posted == old(posted)
      ensures Lookup(id).None? ==> renders == old(renders)
      ensures Lookup(id).Some? ==>
                renders == old(renders) + [ProductCard(Lookup(id).value.Data(), HasId(basket.products, id))]
    {
      var product := Lookup(id);
      if product.Some? {
        var inBasket := HasId(basket.products, id);
        renders := renders + [ProductCard(product.value.Data(), inBasket)];
      }
    }

    /** `product:addToBasket`: one more entry for the product, the card re-rendered, the counter set. */
    method ProductAddToBasket(id: string)
      requires Valid()
      modifies this, basket
      ensures Valid()
      ensures posted == old(posted)
      ensures Lookup(id).None? ==>
                unchanged(basket) && header == old(header) && renders == old(renders)
      ensures Lookup(id).Some? ==>
                && basket.products == old(basket.products) + [Lookup(id).value.Data()]
                && header == Some(NatToString(|basket.products|))
                && renders == old(renders) + [ProductCard(Lookup(id).value.Data(), true)]
    {
      var product := Lookup(id);
      if product.Some? {
        var p := product.value;
        p.AddToBasket();
        renders := renders + [ProductCard(p.Data(), true)];
        header := Some(NatToString(|basket.products|));
      }
    }

    /**
     * `product:removeFromBasket`: every entry with the id goes, the counter
     * is set, the basket list is re-rendered, and the card is re-rendered
     * as not in the basket unless the removal came from the basket list.
     */
    method ProductRemoveFromBasket(id: string, fromBasket: bool)
      requires Valid()
      modifies this, basket
      ensures Valid()
      ensures posted == old(posted)
      ensures Lookup(id).None? ==>
                unchanged(basket) && header == old(header) && renders == old(renders)
      ensures Lookup(id).Some? ==>
                && basket.products == Without(old(basket.products), id)
                && !HasId(basket.products, id)
                && header == Some(NatToString(|basket.products|))
                && renders == old(renders) + [BasketList(basket.products, basket.total)]
                              + (if fromBasket then [] else [ProductCard(Lookup(id).value.Data(), false)])
    {
      var product := Lookup(id);
      if product.Some? {
        var p := product.value;
        p.RemoveFromBasket();
        header := Some(NatToString(|basket.products|));
        BasketChanged();
        if fromBasket {
          return;
        }
        renders := renders + [ProductCard(p.Data(), false)];
      }
    }

    /** `basket:changed`: the basket list re-rendered from the basket as it is now. */
    method BasketChanged()
      modifies this
      ensures header == old(header) && posted == old(posted)
      ensures renders == old(renders) + [BasketList(basket.products, basket.total)]
    {
      renders := renders + [BasketList(basket.products, basket.total)];
    }

    /** `basket:open`: the basket list rendered from the basket as it is now. */
    method BasketOpen()
      modifies this
      ensures header == old(header) && posted == old(posted)
      ensures renders == old(renders) + [BasketList(basket.products, basket.total)]
    {
      renders := renders + [BasketList(basket.products, basket.total)];
    }

    /** `order:open`: the payment and address step is shown. */
    method OrderOpen()
      modifies this
      ensures header == old(header) && posted == old(posted)
      ensures renders == old(renders) + [OrderStep]
    {
      renders := renders + [OrderStep];
    }

    /** `contacts:open`: the email and phone step is shown. */
    method ContactsOpen()
      modifies this
      ensures header == old(header) && posted == old(posted)
      ensures renders == old(renders) + [ContactsStep]
    {
      renders := renders + [ContactsStep];
    }

    /** `order:payment`: stores the chosen payment method. */
    method OrderPayment(payment: string)
      modifies orderForm
      ensures orderForm.data == old(orderForm.data).(payment := Some(payment))
    {
      orderForm.SetPayment(payment);
    }

    /** `order:address`: stores the delivery address. */
    method OrderAddress(address: string)
      modifies orderForm
      ensures orderForm.data == old(orderForm.data).(address := Some(address))
    {
      orderForm.SetAddress(address);
    }

    /** `contacts:email`: stores the email. */
    method ContactsEmail(email: string)
      modifies orderForm
      ensures orderForm.data == old(orderForm.data).(email := Some(email))
    {
      orderForm.SetEmail(email);
    }

    /** `contacts:phone`: stores `+7` and the number's digits without a leading 7 and then a leading 8. */
    method ContactsPhone(phone: string)
      modifies orderForm
      ensures orderForm.data == old(orderForm.data).(phone := Some(NormalizePhone(phone)))
      ensures orderForm.data.phone.value[..2] == "+7"
    {
      orderForm.SetPhone(NormalizePhone(phone));
    }

    /** `submitOrder`: the order body is built from the form and the basket and handed to the POST request. */
    method SubmitOrder()
      modifies this
      ensures header == old(header) && renders == old(renders)
      ensures posted == old(posted) + [orderForm.PrepareForApi(basket)]
    {
      var orderData := orderForm.PrepareForApi(basket);
      posted := posted + [orderData];
    }

    /**
     * `contacts:submit`: the order body is taken first, then the basket is
     * emptied at once, whatever the request's outcome; the form keeps its
     * fields.
     */
    method ContactsSubmit()
      requires Valid()
      modifies this, basket
      ensures Valid()
      ensures posted == old(posted) + [old(orderForm.PrepareForApi(basket))]
      ensures posted[|posted| - 1].items == Ids(old(basket.products))
      ensures posted[|posted| - 1].total == old(basket.total)
      ensures basket.products == [] && basket.total == 0
      ensures header == Some("0") && renders == old(renders)
    {
      SubmitOrder();
      SuccessClose();
    }

    /** `success:close`: the basket is emptied and the counter shows 0. */
    method SuccessClose()
      requires Valid()
      modifies this, basket
      ensures Valid()
      ensures basket.products == [] && basket.total == 0
      ensures header == Some("0")
      ensures renders == old(renders) && posted == old(posted)
    {
      basket.Clear();
      header := Some(NatToString(|basket.products|));
    }

    /**
     * The end of the product request: on success one product per response
     * item, in response order, is appended to the registry and the
     * catalogue is rendered; on failure nothing changes.
     */
    method LoadProducts(outcome: LoadOutcome)
      requires Valid()
      modifies this, registry
      ensures Valid()
      ensures header == old(header) && posted == old(posted)
      ensures outcome.LoadFailed? ==>
                registry.products == old(registry.products) && renders == old(renders)
      ensures outcome.Loaded? ==>
                && RegistryData(registry.products) == RegistryData(old(registry.products)) + InstantiateAll(outcome.items)
                && registry.products[..|old(registry.products)|] == old(registry.products)
                && (forall p :: p in registry.products && p !in old(registry.products) ==> fresh(p))
                && renders == old(renders) + [Gallery(RegistryData(registry.products))]
    {
      if outcome.Loaded? {
        var items := outcome.items;
        var n := |registry.products|;
        for i := 0 to |items|
          invariant |registry.products| == n + i
          invariant registry.products[..n] == old(registry.products)
          invariant forall j :: 0 <= j < i ==> registry.products[n + j].Data() == Instantiate(items[j])
          invariant forall p :: p in registry.products && p !in old(registry.products) ==> fresh(p)
          invariant Valid()
          invariant header == old(header) && posted == old(posted) && renders == old(renders)
        {
          var p := new Product(items[i], basket, registry);
        }
        var all := RegistryData(registry.products);
        var expected := RegistryData(old(registry.products)) + InstantiateAll(items);
        assert |all| == |expected|;
        forall k | 0 <= k < |all| ensures all[k] == expected[k] {
          if k >= n {
            assert registry.products[n + (k - n)].Data() == Instantiate(items[k - n]);
          } else {
            assert registry.products[..n][k] == registry.products[k];
          }
        }
        renders := renders + [Gallery(all)];
      }
    }
  }
}
