/**
  The product page (src/pages/ProductDetailPage.tsx). It holds the product
  named by the `id` URL parameter, a few related products, and the
  selectors the visitor works: the quantity stepper, the image shown and
  the open tab. The page imports the shipped catalog; here it is the
  `catalog` the page is built over.

  The URL parameter arrives parsed: `None` stands for a missing or empty
  parameter, which the effect skips.
 */
module ProductDetail {
  import opened Wrappers
  import opened Seqs
  import opened Catalog
  import opened Cart

  /** The three tabs under the product. */
  datatype Tab = Description | Specifications | Reviews

  /** `decreaseQuantity`: one less, unless the quantity is already 1 or below. */
  function Decreased(quantity: int): (r: int)
    ensures quantity > 1 ==> r == quantity - 1
    ensures quantity <= 1 ==> r == quantity
  {
    if quantity > 1 then quantity - 1 else quantity
  }

  /** `increaseQuantity`: one more, unless the quantity already reaches the stock. */
  function Increased(quantity: int, stockCount: int): (r: int)
    ensures quantity < stockCount ==> r == quantity + 1
    ensures quantity >= stockCount ==> r == quantity
  {
    if quantity < stockCount then quantity + 1 else quantity
  }

  /** The largest quantity the stepper can show: the stock, but never less than the starting 1. */
  function Cap(stockCount: int): int
  {
    if stockCount < 1 then 1 else stockCount
  }

  /** A press of the minus (`false`) or plus (`true`) button, applied in turn to `quantity`. */
  function Steps(quantity: int, stockCount: int, presses: seq<bool>): int
    decreases presses
  {
    if presses == [] then quantity
    else
      var next := if presses[0] then Increased(quantity, stockCount) else Decreased(quantity);
      Steps(next, stockCount, presses[1..])
  }

  /** One press keeps the quantity between 1 and the cap. */
  lemma StepInBounds(quantity: int, stockCount: int, plus: bool)
    requires 1 <= quantity <= Cap(stockCount)
    ensures var next := if plus then Increased(quantity, stockCount) else Decreased(quantity);
      1 <= next <= Cap(stockCount)
  {
  }

  /** From any quantity between 1 and the cap, in particular the initial 1, every sequence of presses stays there. */
  lemma {:induction false} StepsInBounds(quantity: int, stockCount: int, presses: seq<bool>)
    requires 1 <= quantity <= Cap(stockCount)
    ensures 1 <= Steps(quantity, stockCount, presses) <= Cap(stockCount)
    decreases presses
  {
    if presses != [] {
      StepInBounds(quantity, stockCount, presses[0]);
      var next := if presses[0] then Increased(quantity, stockCount) else Decreased(quantity);
      StepsInBounds(next, stockCount, presses[1..]);
    }
  }

  /** `id` passes the related-products filter when it is not the shown product's id. */
  function OtherThan(id: int): Product -> bool
  {
    (p: Product) => p.id != id
  }

  /**
    The related products: the first four featured products without the one
    shown, in featured order. There are at most four, the shown product is
    never among them, and every other featured product is, as often as it
    is featured.
   */
  function RelatedProducts(catalog: seq<Product>, id: int): (r: seq<Product>)
    ensures |r| <= 4
    ensures forall p :: p in r <==> p in FeaturedProducts(catalog, 4) && p.id != id
    ensures forall p :: multiset(r)[p] == if p.id != id then multiset(FeaturedProducts(catalog, 4))[p] else 0
    ensures Subseq(r, FeaturedProducts(catalog, 4))
  {
    var featured := FeaturedProducts(catalog, 4);
    FilterIsSubseq(featured, OtherThan(id));
    FilterMembers(featured, OtherThan(id));
    FilterCounts(featured, OtherThan(id));
    Filter(featured, OtherThan(id))
  }

  /** Filtering out the id of the first featured product, when no other featured product has it, drops just that product. */
  lemma {:induction false} RelatedOfFirstFeatured(featured: seq<Product>)
    requires |featured| == 4
    requires featured[1].id != featured[0].id && featured[2].id != featured[0].id && featured[3].id != featured[0].id
    ensures Filter(featured, OtherThan(featured[0].id)) == featured[1..]
  {
    var tail := featured[1..];
    FilterPassingPrefix(tail, OtherThan(featured[0].id), 3);
    assert tail[..3] == tail;
    FilterStep(featured, OtherThan(featured[0].id));
  }

  /** Filtering product 2 out of any featured list whose ids are 2, 1, 5, 3 leaves the products with ids 1, 5, 3. */
  lemma RelatedForShippedFeatured(featured: seq<Product>)
    requires Ids(featured) == [2, 1, 5, 3]
    ensures Ids(Filter(featured, OtherThan(2))) == [1, 5, 3]
  {
    assert |featured| == 4 && featured[0].id == 2 && featured[1].id == 1 && featured[2].id == 5 && featured[3].id == 3 by {
      assert |featured| == |Ids(featured)|;
      assert forall i :: 0 <= i < |featured| ==> featured[i].id == Ids(featured)[i];
    }
    RelatedOfFirstFeatured(featured);
    var r := featured[1..];
    assert |Ids(r)| == 3 && Ids(r)[0] == 1 && Ids(r)[1] == 5 && Ids(r)[2] == 3;
  }

  /** With the shipped data, the page of product 2 relates products 1, 5 and 3. */
  lemma ShippedRelatedProducts()
    ensures Ids(RelatedProducts(Products, 2)) == [1, 5, 3]
  {
    ShippedFeaturedProducts();
    RelatedForShippedFeatured(FeaturedProducts(Products, 4));
  }

  /** What the page renders: the loading placeholder while no product is set, the product otherwise. */
  datatype DetailView =
    | Placeholder
    | Details(product: Product, quantity: int, image: string, tab: Tab, related: seq<Product>)

  class ProductDetailPage {
    var product: Option<Product>
    var relatedProducts: seq<Product>
    var quantity: int
    var activeImage: int
    var activeTab: Tab
    const catalog: seq<Product>

    /** The stepper's quantity stays between 1 and the shown product's stock (or 1 while there is none). */
    ghost predicate Valid()
      reads this
    {
      1 <= quantity <= (if product.Some? then Cap(product.value.stockCount) else 1)
    }

    /** The page before its effect has run: no product, no related products, quantity 1, first image, description tab. */
    constructor (catalog: seq<Product>)
      ensures product == None && relatedProducts == []
      ensures quantity == 1 && activeImage == 0 && activeTab == Description
      ensures this.catalog == catalog
      ensures Valid()
    {
      product := None;
      relatedProducts := [];
      quantity := 1;
      activeImage := 0;
      activeTab := Description;
      this.catalog := catalog;
    }

    /**
      The effect on a change of `id`: look the product up (it stays unset
      when no product has that id), reset the selectors and recompute the
      related products. A missing id changes nothing.
     */
    method OnIdChange(id: Option<int>)
      modifies this
      ensures id.None? ==> product == old(product) && relatedProducts == old(relatedProducts)
      ensures id.None? ==> quantity == old(quantity) && activeImage == old(activeImage) && activeTab == old(activeTab)
      ensures id.Some? ==> product == ProductById(catalog, id.value) && relatedProducts == RelatedProducts(catalog, id.value)
      ensures id.Some? ==> quantity == 1 && activeImage == 0 && activeTab == Description
      ensures old(Valid()) ==> Valid()
      ensures id.Some? ==> Valid()
    {
      if id.Some? {
        product := ProductById(catalog, id.value);
        quantity := 1;
        activeImage := 0;
        activeTab := Description;
        relatedProducts := RelatedProducts(catalog, id.value);
      }
    }

    /** The minus button, shown only with a product. */
    method DecreaseQuantity()
      requires product.Some? && Valid()
      modifies this
      ensures quantity == Decreased(old(quantity))
      ensures product == old(product) && relatedProducts == old(relatedProducts)
      ensures activeImage == old(activeImage) && activeTab == old(activeTab)
      ensures Valid()
    {
      if quantity > 1 {
        quantity := quantity - 1;
      }
    }

    /** The plus button, shown only with a product. */
    method IncreaseQuantity()
      requires product.Some? && Valid()
      modifies this
      ensures product == old(product) && relatedProducts == old(relatedProducts)
      ensures quantity == Increased(old(quantity), old(product).value.stockCount)
      ensures activeImage == old(activeImage) && activeTab == old(activeTab)
      ensures Valid()
    {
      if quantity < product.value.stockCount {
        quantity := quantity + 1;
      }
    }

    /** A thumbnail click shows that image. */
    method SelectImage(index: int)
      modifies this
      ensures activeImage == index
      ensures product == old(product) && relatedProducts == old(relatedProducts)
      ensures quantity == old(quantity) && activeTab == old(activeTab)
    {
      activeImage := index;
    }

    /** A tab click opens that tab. */
    method SelectTab(tab: Tab)
      modifies this
      ensures activeTab == tab
      ensures product == old(product) && relatedProducts == old(relatedProducts)
      ensures quantity == old(quantity) && activeImage == old(activeImage)
    {
      activeTab := tab;
    }

    /** The add-to-cart button asks the store for the shown product in the selected quantity, which is at least 1. */
    method AddToCartRequest() returns (r: CartRequest)
      requires product.Some? && Valid()
      ensures r == AddToCart(product.value, quantity)
      ensures r.quantity >= 1
    {
      r := AddToCart(product.value, quantity);
    }

    /** What the page renders: only the placeholder until a product is set. */
    function View(): (v: DetailView)
      reads this
      ensures v.Placeholder? <==> product.None?
      ensures v.Details? ==> v.product == product.value && v.quantity == quantity && v.tab == activeTab
      ensures v.Details? ==> v.related == relatedProducts
    {
      if product.None? then Placeholder
      else
        var images := product.value.images;
        Details(product.value, quantity,
          if 0 <= activeImage < |images| then images[activeImage] else "",
          activeTab, relatedProducts)
    }
  }
}
