/**
  The product listing page (src/pages/ProductsPage.tsx): the filter
  criteria the visitor sets, and the effect that recomputes the shown list
  whenever they change. The effect copies the catalog, narrows it with up
  to four filters in a fixed order and sorts the result in place by the
  chosen key.

  JavaScript truthiness decides whether a filter applies: an empty category
  or query and a rating of 0 (or `null`) switch their filter off.
  `toLowerCase` and `localeCompare` depend on Unicode tables and the locale,
  so they are parameters: `lower` stands for `toLowerCase`, and `collation`
  ranks names so that `a.localeCompare(b)` has the sign of
  `collation(a) - collation(b)`.
 */
module ProductsPage {
  import opened Wrappers
  import opened Seqs
  import opened Sorting
  import opened Catalog
  import opened Cart

  /**
    The state the effect depends on. `category` and `rating` are `null` when
    unset; `rating` is in whole stars (the buttons offer 4, 3, 2 and 1),
    while product ratings are in tenths.
   */
  datatype Criteria = Criteria(
    category: Option<string>,
    priceRange: (int, int),
    query: string,
    rating: Option<int>,
    sortBy: string)

  /** `if (selectedCategory)`. */
  predicate CategoryActive(c: Criteria)
  {
    c.category.Some? && c.category.value != ""
  }

  /** `if (searchQuery)`. */
  predicate QueryActive(c: Criteria)
  {
    c.query != ""
  }

  /** `if (selectedRating)`. */
  predicate RatingActive(c: Criteria)
  {
    c.rating.Some? && c.rating.value != 0
  }

  /** The case-insensitive search: the lower-cased query occurs in the lower-cased name or description. */
  predicate MatchesQuery(p: Product, query: string, lower: string -> string)
  {
    Includes(lower(p.name), lower(query)) || Includes(lower(p.description), lower(query))
  }

  /** The product passes the first `n` filters of the effect, in the order the effect applies them. */
  predicate PassesUpTo(p: Product, c: Criteria, lower: string -> string, n: nat)
  {
    && (1 <= n && CategoryActive(c) ==> p.category == c.category.value)
    && (2 <= n ==> c.priceRange.0 <= p.price <= c.priceRange.1)
    && (3 <= n && QueryActive(c) ==> MatchesQuery(p, c.query, lower))
    && (4 <= n && RatingActive(c) ==> p.rating >= 10 * c.rating.value)
  }

  /** The product passes every active filter. */
  predicate Passes(p: Product, c: Criteria, lower: string -> string)
  {
    PassesUpTo(p, c, lower, 4)
  }

  function Stage(c: Criteria, lower: string -> string, n: nat): Product -> bool
  {
    p => PassesUpTo(p, c, lower, n)
  }

  /** The catalog products that pass every active filter, in catalog order: the list before sorting. */
  function Matching(catalog: seq<Product>, c: Criteria, lower: string -> string): (r: seq<Product>)
    ensures forall p :: p in r <==> p in catalog && Passes(p, c, lower)
    ensures forall p :: multiset(r)[p] == if Passes(p, c, lower) then multiset(catalog)[p] else 0
    ensures Subseq(r, catalog)
  {
    FilterIsSubseq(catalog, Stage(c, lower, 4));
    FilterMembers(catalog, Stage(c, lower, 4));
    FilterCounts(catalog, Stage(c, lower, 4));
    Filter(catalog, Stage(c, lower, 4))
  }

  /** `a.localeCompare(b)` under the collation `collation`: negative, zero or positive. */
  function LocaleCompare(a: string, b: string, collation: string -> int): (r: int)
    ensures -1 <= r <= 1
    ensures r < 0 <==> collation(a) < collation(b)
    ensures r == 0 <==> collation(a) == collation(b)
  {
    var d := collation(a) - collation(b);
    if d < 0 then -1 else if d == 0 then 0 else 1
  }

  /** The comparator each `case` of the `switch (sortBy)` passes to `sort`. */
  function Comparator(sortBy: string, collation: string -> int, a: Product, b: Product): int
  {
    match sortBy
    case "price-asc" => a.price - b.price
    case "price-desc" => b.price - a.price
    case "name-asc" => LocaleCompare(a.name, b.name, collation)
    case "name-desc" => LocaleCompare(b.name, a.name, collation)
    case "rating" => b.rating - a.rating
    case _ => b.rating - a.rating
  }

  /**
    The sort key the `switch (sortBy)` chooses: the comparators subtract
    prices or ratings or compare names, so each orders by an integer key;
    `rating` and every other value (the default `featured`) sort by rating,
    highest first. For every pair of products the key puts them in the order
    the chosen comparator does: the key of `a` is below, equal to or above
    that of `b` exactly when the comparator is negative, zero or positive.
   */
  function SortKey(sortBy: string, collation: string -> int): (key: Product -> int)
    ensures forall a, b :: (key(a) < key(b) <==> Comparator(sortBy, collation, a, b) < 0)
    ensures forall a, b :: (key(a) == key(b) <==> Comparator(sortBy, collation, a, b) == 0)
  {
    if sortBy == "price-asc" then (p: Product) => p.price
    else if sortBy == "price-desc" then (p: Product) => -p.price
    else if sortBy == "name-asc" then (p: Product) => collation(p.name)
    else if sortBy == "name-desc" then (p: Product) => -collation(p.name)
    else RatingDesc
  }

  /** `product => product.category === selectedCategory`. */
  function InCategory(category: string): Product -> bool
  {
    (p: Product) => p.category == category
  }

  /** `product => product.price >= priceRange[0] && product.price <= priceRange[1]`. */
  function InPriceRange(range: (int, int)): Product -> bool
  {
    (p: Product) => p.price >= range.0 && p.price <= range.1
  }

  /** The search filter, given the query already lower-cased. */
  function Found(query: string, lower: string -> string): Product -> bool
  {
    (p: Product) => Includes(lower(p.name), query) || Includes(lower(p.description), query)
  }

  /** `product => product.rating >= selectedRating`, with the rating in tenths. */
  function RatedAtLeast(minimum: int): Product -> bool
  {
    (p: Product) => p.rating >= minimum
  }

  /** One filter step of the effect, `result = result.filter(keep)`, seen against the whole catalog. */
  lemma FilterStage(catalog: seq<Product>, c: Criteria, lower: string -> string, n: nat, keep: Product -> bool)
    requires 1 <= n
    requires forall p :: PassesUpTo(p, c, lower, n) == (PassesUpTo(p, c, lower, n - 1) && keep(p))
    ensures Filter(Filter(catalog, Stage(c, lower, n - 1)), keep) == Filter(catalog, Stage(c, lower, n))
  {
    FilterFuse(catalog, Stage(c, lower, n - 1), keep, Stage(c, lower, n));
  }

  /** A filter the effect skips because its criterion is falsy. */
  lemma SkippedStage(catalog: seq<Product>, c: Criteria, lower: string -> string, n: nat)
    requires 1 <= n
    requires forall p :: PassesUpTo(p, c, lower, n) == PassesUpTo(p, c, lower, n - 1)
    ensures Filter(catalog, Stage(c, lower, n - 1)) == Filter(catalog, Stage(c, lower, n))
  {
    FilterCongruent(catalog, Stage(c, lower, n - 1), Stage(c, lower, n));
  }

  /** The category step: it narrows to the selected category when one is selected. */
  lemma CategoryStage(catalog: seq<Product>, c: Criteria, lower: string -> string)
    ensures Filter(catalog, Stage(c, lower, 1)) ==
      if CategoryActive(c) then Filter(Filter(catalog, Stage(c, lower, 0)), InCategory(c.category.value))
      else Filter(catalog, Stage(c, lower, 0))
  {
    if CategoryActive(c) {
      FilterStage(catalog, c, lower, 1, InCategory(c.category.value));
    } else {
      SkippedStage(catalog, c, lower, 1);
    }
  }

  /** The price step always applies. */
  lemma PriceStage(catalog: seq<Product>, c: Criteria, lower: string -> string)
    ensures Filter(catalog, Stage(c, lower, 2)) == Filter(Filter(catalog, Stage(c, lower, 1)), InPriceRange(c.priceRange))
  {
    FilterStage(catalog, c, lower, 2, InPriceRange(c.priceRange));
  }

  /** The search step: it applies when the query is non-empty. */
  lemma QueryStage(catalog: seq<Product>, c: Criteria, lower: string -> string)
    ensures Filter(catalog, Stage(c, lower, 3)) ==
      if QueryActive(c) then Filter(Filter(catalog, Stage(c, lower, 2)), Found(lower(c.query), lower))
      else Filter(catalog, Stage(c, lower, 2))
  {
    if QueryActive(c) {
      FilterStage(catalog, c, lower, 3, Found(lower(c.query), lower));
    } else {
      SkippedStage(catalog, c, lower, 3);
    }
  }

  /** The rating step: it applies when a non-zero rating is selected. */
  lemma RatingStage(catalog: seq<Product>, c: Criteria, lower: string -> string)
    ensures Filter(catalog, Stage(c, lower, 4)) ==
      if RatingActive(c) then Filter(Filter(catalog, Stage(c, lower, 3)), RatedAtLeast(10 * c.rating.value))
      else Filter(catalog, Stage(c, lower, 3))
  {
    if RatingActive(c) {
      FilterStage(catalog, c, lower, 4, RatedAtLeast(10 * c.rating.value));
    } else {
      SkippedStage(catalog, c, lower, 4);
    }
  }

  /**
    The filter steps of the effect: start from a copy of the catalog and
    narrow it by each filter whose criterion is truthy. The outcome is the
    catalog products that pass every active filter, in catalog order.
   */
  method Narrow(catalog: seq<Product>, c: Criteria, lower: string -> string) returns (r: seq<Product>)
    ensures r == Matching(catalog, c, lower)
  {
    FilterKeepsAll(catalog, Stage(c, lower, 0));
    CategoryStage(catalog, c, lower);
    PriceStage(catalog, c, lower);
    QueryStage(catalog, c, lower);
    RatingStage(catalog, c, lower);
    r := catalog;
    if CategoryActive(c) {
      r := Filter(r, InCategory(c.category.value));
    }
    r := Filter(r, InPriceRange(c.priceRange));
    if QueryActive(c) {
      var query := lower(c.query);
      r := Filter(r, Found(query, lower));
    }
    if RatingActive(c) {
      r := Filter(r, RatedAtLeast(10 * c.rating.value));
    }
  }

  /**
    The filter effect. The result is a stable sort, by the chosen key, of the
    catalog products that pass every active filter: it holds exactly those
    products, each as often as in the catalog, ordered by the key, with ties
    in catalog order.
   */
  method ApplyFilters(catalog: seq<Product>, c: Criteria, lower: string -> string, collation: string -> int)
    returns (result: seq<Product>)
    ensures StableSortOf(result, Matching(catalog, c, lower), SortKey(c.sortBy, collation))
    ensures multiset(result) == multiset(Matching(catalog, c, lower))
    ensures forall p :: p in result <==> p in catalog && Passes(p, c, lower)
  {
    var r := Narrow(catalog, c, lower);
    var a := new Product[|r|](i requires 0 <= i < |r| => r[i]);
    assert a[..] == r;
    SortInPlace(a, SortKey(c.sortBy, collation));
    result := a[..];
    StableSortPermutes(result, r, SortKey(c.sortBy, collation));
    forall p ensures p in result <==> p in r {
      assert p in result <==> p in multiset(result);
    }
  }

  /**
    What each sort option guarantees about the shown list: prices ascending
    or descending, names in collation order either way, and ratings highest
    first for `rating` and for any other value.
   */
  lemma SortKeyOrder(r: seq<Product>, sortBy: string, collation: string -> int)
    requires SortedBy(r, SortKey(sortBy, collation))
    ensures sortBy == "price-asc" ==> forall i, j :: 0 <= i < j < |r| ==> r[i].price <= r[j].price
    ensures sortBy == "price-desc" ==> forall i, j :: 0 <= i < j < |r| ==> r[i].price >= r[j].price
    ensures sortBy == "name-asc" ==> forall i, j :: 0 <= i < j < |r| ==> collation(r[i].name) <= collation(r[j].name)
    ensures sortBy == "name-desc" ==> forall i, j :: 0 <= i < j < |r| ==> collation(r[i].name) >= collation(r[j].name)
    ensures sortBy !in ["price-asc", "price-desc", "name-asc", "name-desc"] ==>
      forall i, j :: 0 <= i < j < |r| ==> r[i].rating >= r[j].rating
  {
    var key := SortKey(sortBy, collation);
    assert forall i, j :: 0 <= i < j < |r| ==> key(r[i]) <= key(r[j]);
  }

  /**
    The filters in plain terms: the category is equal when one is selected,
    the price lies in the range with both ends included, the lower-cased
    query occurs at some position of the lower-cased name or description when
    a query is typed, and the rating is at least the selected number of
    stars when one is selected.
   */
  lemma PassesMeaning(p: Product, c: Criteria, lower: string -> string)
    ensures Passes(p, c, lower) <==>
      && (CategoryActive(c) ==> p.category == c.category.value)
      && c.priceRange.0 <= p.price <= c.priceRange.1
      && (QueryActive(c) ==>
            (exists i :: OccursAt(lower(p.name), lower(c.query), i))
            || (exists i :: OccursAt(lower(p.description), lower(c.query), i)))
      && (RatingActive(c) ==> 10 * c.rating.value <= p.rating)
  {
    IncludesIsOccurrence(lower(p.name), lower(c.query));
    IncludesIsOccurrence(lower(p.description), lower(c.query));
  }

  /**
    With no category, no query, no rating and a price range that holds every
    product (the reset criteria over the shipped catalog), nothing is
    filtered out.
   */
  lemma ResetCriteriaKeepAll(catalog: seq<Product>, c: Criteria, lower: string -> string)
    requires !CategoryActive(c) && !QueryActive(c) && !RatingActive(c)
    requires forall p :: p in catalog ==> c.priceRange.0 <= p.price <= c.priceRange.1
    ensures Matching(catalog, c, lower) == catalog
  {
    FilterKeepsAll(catalog, Stage(c, lower, 4));
  }

  /** Every product's price lies within the slider's range, 0 to 1000. */
  ghost predicate WithinSlider(catalog: seq<Product>)
  {
    forall p :: p in catalog ==> 0 <= p.price <= 1000
  }

  /** The shipped catalog fits the slider, so the page can be built over it. */
  lemma ShippedWithinSlider()
    ensures WithinSlider(Products)
  {
    ShippedPrices();
  }

  /** The label a category button shows for each known category. */
  const CategoryLabels: map<string, string> := map[
    "hoodies" := "هوديز",
    "tshirts" := "تيشيرتات",
    "pants" := "بناطيل",
    "jackets" := "جاكيتات",
    "accessories" := "اكسسوارات",
    "sets" := "أطقم"]

  /** `formatCategoryName`: the mapped label, or the category itself when it has none. */
  function FormatCategoryName(category: string): (shown: string)
    ensures category in CategoryLabels ==> shown == CategoryLabels[category] && shown != category
    ensures category !in CategoryLabels ==> shown == category
  {
    if category in CategoryLabels && CategoryLabels[category] != "" then CategoryLabels[category] else category
  }

  /** A rating button: clicking the selected rating clears it, any other selects it. */
  function ToggledRating(selected: Option<int>, clicked: int): (r: Option<int>)
    ensures selected == Some(clicked) <==> r == None
    ensures r != None ==> r == Some(clicked)
  {
    if selected == Some(clicked) then None else Some(clicked)
  }

  /** The add button on a product card asks the cart store for one of that product. */
  function QuickAdd(p: Product): (r: CartRequest)
    ensures r.AddToCart? && r.product == p && r.quantity == 1
  {
    AddToCart(p, 1)
  }

  /**
    The page's state: the criteria, the list on screen, and the catalog it
    filters. Every handler changes the criteria it is bound to and then runs
    the effect, as React does after a state change.
   */
  class ProductsPage {
    var selectedCategory: Option<string>
    var priceRange: (int, int)
    var searchQuery: string
    var selectedRating: Option<int>
    var sortBy: string
    var filteredProducts: seq<Product>
    const catalog: seq<Product>
    const lower: string -> string
    const collation: string -> int

    function CurrentCriteria(): Criteria
      reads this
    {
      Criteria(selectedCategory, priceRange, searchQuery, selectedRating, sortBy)
    }

    /**
      The list on screen is what the effect computes from the current
      criteria, and the slider never moves the lower price bound off 0. The
      catalog's prices all lie in the slider's range.
     */
    ghost predicate Valid()
      reads this
    {
      && priceRange.0 == 0
      && WithinSlider(catalog)
      && StableSortOf(filteredProducts, Matching(catalog, CurrentCriteria(), lower), SortKey(sortBy, collation))
    }

    /**
      The page as first rendered over `catalog` (the page imports the
      shipped `Products`, which `ShippedWithinSlider` shows qualifies): the
      category comes from the `category` URL parameter when it is non-empty,
      every other criterion has its initial value, and the effect has run.
     */
    constructor (catalog: seq<Product>, categoryParam: Option<string>, lower: string -> string, collation: string -> int)
      requires WithinSlider(catalog)
      ensures selectedCategory == if categoryParam.Some? && categoryParam.value != "" then categoryParam else None
      ensures priceRange == (0, 1000) && searchQuery == "" && selectedRating == None && sortBy == "featured"
      ensures this.catalog == catalog && this.lower == lower && this.collation == collation
      ensures Valid()
    {
      selectedCategory := if categoryParam.Some? && categoryParam.value != "" then categoryParam else None;
      priceRange := (0, 1000);
      searchQuery := "";
      selectedRating := None;
      sortBy := "featured";
      this.catalog := catalog;
      this.lower := lower;
      this.collation := collation;
      new;
      filteredProducts := ApplyFilters(catalog, CurrentCriteria(), lower, collation);
    }

    /** The filter effect: recompute the list from the current criteria. */
    method Refresh()
      requires priceRange.0 == 0 && WithinSlider(catalog)
      modifies this
      ensures CurrentCriteria() == old(CurrentCriteria())
      ensures Valid()
    {
      filteredProducts := ApplyFilters(catalog, CurrentCriteria(), lower, collation);
    }

    /** The URL effect: a non-empty `category` parameter selects that category; otherwise nothing changes. */
    method OnCategoryParam(param: Option<string>)
      requires Valid()
      modifies this
      ensures selectedCategory == if param.Some? && param.value != "" then param else old(selectedCategory)
      ensures priceRange == old(priceRange) && searchQuery == old(searchQuery)
      ensures selectedRating == old(selectedRating) && sortBy == old(sortBy)
      ensures Valid()
    {
      if param.Some? && param.value != "" {
        selectedCategory := param;
      }
      Refresh();
    }

    /** The category buttons: "all products" passes `None`, a category button passes its category. */
    method SelectCategory(category: Option<string>)
      requires Valid()
      modifies this
      ensures CurrentCriteria() == old(CurrentCriteria()).(category := category)
      ensures Valid()
    {
      selectedCategory := category;
      Refresh();
    }

    /** The search box. */
    method SetSearchQuery(query: string)
      requires Valid()
      modifies this
      ensures CurrentCriteria() == old(CurrentCriteria()).(query := query)
      ensures Valid()
    {
      searchQuery := query;
      Refresh();
    }

    /** The price slider: it sets the upper bound and keeps the lower one. */
    method SetMaxPrice(maximum: int)
      requires Valid()
      modifies this
      ensures CurrentCriteria() == old(CurrentCriteria()).(priceRange := (old(priceRange.0), maximum))
      ensures priceRange.0 == 0
      ensures Valid()
    {
      priceRange := (priceRange.0, maximum);
      Refresh();
    }

    /** A rating button. */
    method ToggleRating(rating: int)
      requires Valid()
      modifies this
      ensures CurrentCriteria() == old(CurrentCriteria()).(rating := ToggledRating(old(selectedRating), rating))
      ensures Valid()
    {
      selectedRating := ToggledRating(selectedRating, rating);
      Refresh();
    }

    /** The sort menu. */
    method SetSortBy(option: string)
      requires Valid()
      modifies this
      ensures CurrentCriteria() == old(CurrentCriteria()).(sortBy := option)
      ensures Valid()
    {
      sortBy := option;
      Refresh();
    }

    /**
      The reset button: clear category, price, query and rating; the sort
      order stays. Afterwards the whole catalog is on screen, sorted by the
      kept order.
     */
    method ResetFilters()
      requires Valid()
      modifies this
      ensures selectedCategory == None && priceRange == (0, 1000) && searchQuery == "" && selectedRating == None
      ensures sortBy == old(sortBy)
      ensures Valid()
      ensures StableSortOf(filteredProducts, catalog, SortKey(sortBy, collation))
    {
      selectedCategory := None;
      priceRange := (0, 1000);
      searchQuery := "";
      selectedRating := None;
      Refresh();
      ResetCriteriaKeepAll(catalog, CurrentCriteria(), lower);
    }
  }
}
