/**
 * The shopping basket (src/components/models/basket.ts): an ordered list of
 * products, duplicates allowed, and a total that every mutating method
 * recomputes on the spot.
 */
module BasketModel {
  import opened Types

  /** What one entry adds to the total: the price, or 0 for a priceless product. */
  function PriceOf(p: ProductData): (r: nat)
    ensures p.price.None? ==> r == 0
    ensures p.price.Some? ==> r == p.price.value
  {
    if p.price.Some? then p.price.value else 0
  }

  /** The sum the basket's reduce computes over its entries. */
  function SumPrices(s: seq<ProductData>): (r: nat)
    ensures s == [] ==> r == 0
    ensures forall i :: 0 <= i < |s| ==> PriceOf(s[i]) <= r
  {
    if s == [] then 0 else PriceOf(s[0]) + SumPrices(s[1..])
  }

  /** Whether some entry carries the given id. */
  predicate HasId(s: seq<ProductData>, id: string)
  {
    exists i :: 0 <= i < |s| && s[i].id == id
  }

  /** The entries whose id differs from `id`, in their original order (the filter of removeProduct). */
  function Without(s: seq<ProductData>, id: string): (r: seq<ProductData>)
    ensures |r| <= |s|
    ensures !HasId(r, id)
    ensures forall i :: 0 <= i < |r| ==> r[i] in s
  {
    if s == [] then []
    else if s[0].id == id then Without(s[1..], id)
    else [s[0]] + Without(s[1..], id)
  }

  /** The total of a concatenation is the sum of the totals. */
  lemma {:induction false} SumPricesAppend(a: seq<ProductData>, b: seq<ProductData>)
    ensures SumPrices(a + b) == SumPrices(a) + SumPrices(b)
  {
    if a == [] {
      assert a + b == b;
    } else {
      assert (a + b)[1..] == a[1..] + b;
      SumPricesAppend(a[1..], b);
    }
  }

  /** Filtering a concatenation filters each part: removal keeps the survivors' order. */
  lemma {:induction false} WithoutAppend(a: seq<ProductData>, b: seq<ProductData>, id: string)
    ensures Without(a + b, id) == Without(a, id) + Without(b, id)
  {
    if a == [] {
      assert a + b == b;
    } else {
      assert (a + b)[1..] == a[1..] + b;
      WithoutAppend(a[1..], b, id);
    }
  }

  /** Removing an id that no entry carries changes nothing. */
  lemma {:induction false} WithoutAbsent(s: seq<ProductData>, id: string)
    requires !HasId(s, id)
    ensures Without(s, id) == s
  {
    if s != [] {
      assert s[0].id != id;
      assert !HasId(s[1..], id) by {
        forall i | 0 <= i < |s[1..]| ensures s[1..][i].id != id {
          assert s[1..][i] == s[i + 1];
        }
      }
      WithoutAbsent(s[1..], id);
    }
  }

  /** Every entry with another id keeps its number of occurrences; entries with the id all go. */
  lemma {:induction false} WithoutCount(s: seq<ProductData>, id: string, p: ProductData)
    ensures multiset(Without(s, id))[p] == if p.id == id then 0 else multiset(s)[p]
  {
    if s != [] {
      WithoutCount(s[1..], id, p);
      assert s == [s[0]] + s[1..];
    }
  }

  class Basket {
    var products: seq<ProductData>
    var total: nat

    /** The basket's invariant: the total is the sum of the entry prices. */
    ghost predicate Valid()
      reads this
    {
      total == SumPrices(products)
    }

    constructor ()
      ensures products == [] && total == 0
      ensures Valid()
    {
      products := [];
      total := 0;
    }

    /** Appends the product (a second copy of an id gives a second entry) and recomputes the total. */
    method AddProduct(product: ProductData)
      modifies this
      ensures products == old(products) + [product]
      ensures Valid()
      ensures old(Valid()) ==> total == old(total) + PriceOf(product)
    {
      products := products + [product];
      CalculateTotal();
      SumPricesAppend(old(products), [product]);
    }

    /** Drops every entry with the id, keeping the others in order, and recomputes the total. */
    method RemoveProduct(productId: string)
      modifies this
      ensures products == Without(old(products), productId)
      ensures !HasId(products, productId)
      ensures Valid()
      ensures !HasId(old(products), productId) ==> products == old(products)
      ensures old(Valid()) && !HasId(old(products), productId) ==> total == old(total)
    {
      products := Without(products, productId);
      CalculateTotal();
      if !HasId(old(products), productId) {
        WithoutAbsent(old(products), productId);
      }
    }

    /** Recomputes the total from the entries; the entries themselves are untouched. */
    method CalculateTotal()
      modifies this`total
      ensures Valid()
    {
      total := SumPrices(products);
    }

    /** Empties the basket. */
    method Clear()
      modifies this
      ensures products == [] && total == 0
      ensures Valid()
    {
      products := [];
      total := 0;
    }
  }
}
