/**
  The product catalog of the storefront (src/data/products.ts): the product
  record, the ten shipped products and the read-only queries over them.

  Every query takes the catalog as a parameter; the site always passes
  `Products`. Nothing here changes the catalog: the one sort sorts a copy,
  so the queries are functions.

  Ratings are kept in tenths of a star (4.8 is 48); prices are whole numbers
  in the catalog, so both are integers.
 */
module Catalog {
  import opened Wrappers
  import opened Seqs
  import opened Sorting

  /** A product record; `oldPrice` is present exactly when the product is discounted. */
  datatype Product = Product(
    id: int,
    name: string,
    description: string,
    price: int,
    oldPrice: Option<int>,
    images: seq<string>,
    category: string,
    rating: int,
    stockCount: int)

  /** The shipped catalog, in source order. */
  const Products: seq<Product> := [Product1, Product2, Product3, Product4, Product5, Product6, Product7, Product8, Product9, Product10]

  const Product1: Product := Product(
    id := 1,
    name := "هودي أزرق فاتح - Skilz Store",
    description := "هودي عصري باللون الأزرق الفاتح مع تصميم أنيق وخامة عالية الجودة. مثالي للإطلالات الكاجوال اليومية.",
    price := 450,
    oldPrice := Some(550),
    images := ["/files_4725149-1750797314656-image.png"],
    category := "hoodies",
    rating := 48,
    stockCount := 15)

  const Product2: Product := Product(
    id := 2,
    name := "هودي أسود كلاسيكي - Skilz Store",
    description := "هودي أسود أنيق بتصميم كلاسيكي مع شعار العلامة التجارية. قطعة أساسية في خزانة كل شخص عصري.",
    price := 420,
    oldPrice := Some(500),
    images := ["/files_4725149-1750797344849-image.png"],
    category := "hoodies",
    rating := 49,
    stockCount := 20)

  const Product3: Product := Product(
    id := 3,
    name := "هودي أسود مع طباعة خلفية - Skilz Store",
    description := "هودي أسود مميز مع طباعة فنية على الظهر ونص إنجليزي. تصميم فريد يجمع بين الأناقة والتميز.",
    price := 480,
    oldPrice := Some(580),
    images := ["/files_4725149-1750797358216-image.png"],
    category := "hoodies",
    rating := 47,
    stockCount := 12)

  const Product4: Product := Product(
    id := 4,
    name := "هودي أسود مع تصميم النار - Skilz Store",
    description := "هودي أسود بتصميم النار الأبيض المميز. قطعة جريئة وعصرية تناسب محبي التصاميم المختلفة.",
    price := 500,
    oldPrice := Some(600),
    images := ["https://images.pexels.com/photos/8532616/pexels-photo-8532616.jpeg?auto=compress&cs=tinysrgb&w=1260&h=750&dpr=2"],
    category := "hoodies",
    rating := 46,
    stockCount := 8)

  const Product5: Product := Product(
    id := 5,
    name := "طقم رياضي أسود - Skilz Store",
    description := "طقم رياضي أنيق باللون الأسود يتكون من سويت شيرت وبنطلون رياضي. مثالي للرياضة والإطلالات الكاجوال.",
    price := 650,
    oldPrice := Some(750),
    images := ["https://images.pexels.com/photos/8532616/pexels-photo-8532616.jpeg?auto=compress&cs=tinysrgb&w=1260&h=750&dpr=2"],
    category := "sets",
    rating := 48,
    stockCount := 10)

  const Product6: Product := Product(
    id := 6,
    name := "تيشيرت أسود بسيط - Skilz Store",
    description := "تيشيرت أسود بسيط وأنيق، قطعة أساسية في خزانة الملابس. خامة قطنية مريحة ومناسبة لجميع المناسبات.",
    price := 180,
    oldPrice := None,
    images := ["https://images.pexels.com/photos/8532616/pexels-photo-8532616.jpeg?auto=compress&cs=tinysrgb&w=1260&h=750&dpr=2"],
    category := "tshirts",
    rating := 45,
    stockCount := 25)

  const Product7: Product := Product(
    id := 7,
    name := "جينز أسود سليم فيت - Skilz Store",
    description := "بنطلون جينز أسود بقصة سليم فيت عصرية. خامة دنيم عالية الجودة مع تصميم مريح وأنيق.",
    price := 320,
    oldPrice := Some(400),
    images := ["https://images.pexels.com/photos/1598507/pexels-photo-1598507.jpeg?auto=compress&cs=tinysrgb&w=1260&h=750&dpr=2"],
    category := "pants",
    rating := 47,
    stockCount := 18)

  const Product8: Product := Product(
    id := 8,
    name := "جاكيت جينز أزرق - Skilz Store",
    description := "جاكيت جينز كلاسيكي باللون الأزرق. قطعة خالدة تناسب جميع الفصول وتضيف لمسة عصرية لأي إطلالة.",
    price := 380,
    oldPrice := None,
    images := ["https://images.pexels.com/photos/1040945/pexels-photo-1040945.jpeg?auto=compress&cs=tinysrgb&w=1260&h=750&dpr=2"],
    category := "jackets",
    rating := 46,
    stockCount := 14)

  const Product9: Product := Product(
    id := 9,
    name := "كاب أسود - Skilz Store",
    description := "كاب أسود أنيق مع شعار العلامة التجارية. إكسسوار مثالي لإكمال الإطلالة العصرية.",
    price := 120,
    oldPrice := None,
    images := ["https://images.pexels.com/photos/1124465/pexels-photo-1124465.jpeg?auto=compress&cs=tinysrgb&w=1260&h=750&dpr=2"],
    category := "accessories",
    rating := 44,
    stockCount := 30)

  const Product10: Product := Product(
    id := 10,
    name := "حقيبة ظهر سوداء - Skilz Store",
    description := "حقيبة ظهر عملية وأنيقة باللون الأسود. مثالية للجامعة، العمل، أو الاستخدام اليومي.",
    price := 280,
    oldPrice := Some(350),
    images := ["https://images.pexels.com/photos/2905238/pexels-photo-2905238.jpeg?auto=compress&cs=tinysrgb&w=1260&h=750&dpr=2"],
    category := "accessories",
    rating := 47,
    stockCount := 12)

  /** The ids of a product list, in order. */
  function Ids(s: seq<Product>): seq<int>
  {
    seq(|s|, i requires 0 <= i < |s| => s[i].id)
  }

  /** No two products of `cat` share an id. */
  ghost predicate DistinctIds(cat: seq<Product>)
  {
    forall i, j :: 0 <= i < j < |cat| ==> cat[i].id != cat[j].id
  }

  /** `getProductsByCategory`: the products of exactly that category, in catalog order. */
  function ProductsByCategory(cat: seq<Product>, category: string): (r: seq<Product>)
    ensures forall p :: p in r <==> p in cat && p.category == category
    ensures forall p | p in cat :: multiset(r)[p] == if p.category == category then multiset(cat)[p] else 0
    ensures Subseq(r, cat)
  {
    var inCategory := (p: Product) => p.category == category;
    FilterIsSubseq(cat, inCategory);
    FilterCounts(cat, inCategory);
    Filter(cat, inCategory)
  }

  /** `getProductById`: the first product with that id, or `None` (`undefined`) when there is none. */
  function ProductById(cat: seq<Product>, id: int): (r: Option<Product>)
    ensures r.None? <==> forall p :: p in cat ==> p.id != id
    ensures r.Some? ==> r.value.id == id
    ensures r.Some? ==> exists i :: 0 <= i < |cat| && cat[i] == r.value && forall j :: 0 <= j < i ==> cat[j].id != id
  {
    if cat == [] then None
    else if cat[0].id == id then Some(cat[0])
    else
      var r := ProductById(cat[1..], id);
      assert forall p :: p in cat[1..] ==> p in cat;
      assert cat[0] !in cat[1..] || cat[0].id != id;
      if r.Some? then
        var i :| 0 <= i < |cat[1..]| && cat[1..][i] == r.value && forall j :: 0 <= j < i ==> cat[1..][j].id != id;
        assert cat[i + 1] == r.value && forall j :: 0 <= j < i + 1 ==> cat[j].id != id;
        r
      else r
  }

  /** With distinct ids, looking up the id of any catalog product returns that product. */
  lemma ProductByIdFindsEach(cat: seq<Product>, p: Product)
    requires DistinctIds(cat) && p in cat
    ensures ProductById(cat, p.id) == Some(p)
  {
    var r := ProductById(cat, p.id);
    var k :| 0 <= k < |cat| && cat[k] == p;
    var i :| 0 <= i < |cat| && cat[i] == r.value && forall j :: 0 <= j < i ==> cat[j].id != p.id;
    assert cat[i].id == p.id == cat[k].id;
  }

  /** The comparator `(a, b) => b.rating - a.rating` orders by this key: highest rating first. */
  function RatingDesc(p: Product): int
  {
    -p.rating
  }

  /** A prefix `r` of the catalog sorted by rating holds catalog products, and its ratings never increase. */
  lemma SortedPrefixByRating(cat: seq<Product>, r: seq<Product>)
    requires r <= InsertionSort(cat, RatingDesc)
    ensures |InsertionSort(cat, RatingDesc)| == |cat|
    ensures forall p :: p in r ==> p in cat
    ensures forall i, j :: 0 <= i < j < |r| ==> r[i].rating >= r[j].rating
  {
    var sorted := InsertionSort(cat, RatingDesc);
    InsertionSortIsStable(cat, RatingDesc);
    StableSortPermutes(sorted, cat, RatingDesc);
    assert |sorted| == |multiset(sorted)| == |multiset(cat)| == |cat|;
    forall p | p in r ensures p in cat {
      assert p in multiset(sorted);
    }
    forall i, j | 0 <= i < j < |r| ensures r[i].rating >= r[j].rating {
      assert RatingDesc(sorted[i]) <= RatingDesc(sorted[j]);
    }
  }

  /**
    `getFeaturedProducts`: sort a copy of the catalog by rating, highest
    first, and keep the first `limit`. For `limit >= 0` that is
    `min(limit, |cat|)` products; for any limit they are catalog products
    and ratings never increase along the list.
   */
  function FeaturedProducts(cat: seq<Product>, limit: int): (r: seq<Product>)
    ensures 0 <= limit ==> |r| == (if limit < |cat| then limit else |cat|)
    ensures forall p :: p in r ==> p in cat
    ensures forall i, j :: 0 <= i < j < |r| ==> r[i].rating >= r[j].rating
  {
    var r := Slice(InsertionSort(cat, RatingDesc), limit);
    SortedPrefixByRating(cat, r);
    r
  }

  /**
    The featured list is the top of the catalog: it takes no product more
    often than the catalog has it, a product it leaves out (or keeps fewer
    times than the catalog has it) is rated no higher than any product it
    keeps, and products of equal rating come in catalog order: each
    rating's products are a prefix of that rating's products in the catalog.
   */
  lemma FeaturedProductsSpec(cat: seq<Product>, limit: int)
    ensures var r := FeaturedProducts(cat, limit);
      && multiset(r) <= multiset(cat)
      && (forall x, y :: x in r && multiset(cat)[y] > multiset(r)[y] ==> y.rating <= x.rating)
      && (forall k :: Class(r, RatingDesc, k) <= Class(cat, RatingDesc, k))
  {
    var sorted := InsertionSort(cat, RatingDesc);
    InsertionSortIsStable(cat, RatingDesc);
    StableSortPermutes(sorted, cat, RatingDesc);
    var r := FeaturedProducts(cat, limit);
    var rest := sorted[|r|..];
    assert sorted == r + rest;
    forall x, y | x in r && multiset(cat)[y] > multiset(r)[y] ensures y.rating <= x.rating {
      TopOfSorted(sorted, r, rest, x, y);
    }
    forall k ensures Class(r, RatingDesc, k) <= Class(cat, RatingDesc, k) {
      ClassAppend(r, rest, RatingDesc, k);
    }
  }

  /** Splitting a list sorted by rating into a head and a rest, what the rest holds is rated no higher than the head. */
  lemma TopOfSorted(sorted: seq<Product>, r: seq<Product>, rest: seq<Product>, x: Product, y: Product)
    requires SortedBy(sorted, RatingDesc) && sorted == r + rest
    requires x in r && multiset(sorted)[y] > multiset(r)[y]
    ensures y.rating <= x.rating
  {
    assert multiset(sorted) == multiset(r) + multiset(rest);
    assert y in multiset(rest);
    var i :| 0 <= i < |r| && r[i] == x;
    var j :| 0 <= j < |rest| && rest[j] == y;
    assert RatingDesc(sorted[i]) <= RatingDesc(sorted[|r| + j]);
  }

  /**
    Which stable sort the JavaScript engine uses does not matter: any stable
    sort of the catalog by rating gives the same featured list.
   */
  lemma FeaturedProductsOfAnyStableSort(cat: seq<Product>, sorted: seq<Product>, limit: int)
    requires StableSortOf(sorted, cat, RatingDesc)
    ensures FeaturedProducts(cat, limit) == Slice(sorted, limit)
  {
    InsertionSortIsStable(cat, RatingDesc);
    StableSortUnique(InsertionSort(cat, RatingDesc), sorted, RatingDesc);
  }

  /** A product is on sale when it has an old price. */
  predicate Discounted(p: Product)
  {
    p.oldPrice.Some?
  }

  /** `getDiscountedProducts`: the first `limit` discounted products, in catalog order. */
  function DiscountedProducts(cat: seq<Product>, limit: int): (r: seq<Product>)
    ensures forall p :: p in r ==> p in cat && Discounted(p)
    ensures r <= Filter(cat, Discounted)
    ensures 0 <= limit ==> |r| == if limit < |Filter(cat, Discounted)| then limit else |Filter(cat, Discounted)|
  {
    Slice(Filter(cat, Discounted), limit)
  }

  /** Index of the first product of `cat` whose category is `c`; `|cat|` when there is none. */
  function FirstIndexOfCategory(cat: seq<Product>, c: string): (r: nat)
    ensures r <= |cat|
    ensures r < |cat| ==> cat[r].category == c
    ensures forall j :: 0 <= j < r ==> cat[j].category != c
  {
    if cat == [] then 0
    else if cat[0].category == c then 0
    else 1 + FirstIndexOfCategory(cat[1..], c)
  }

  /**
    The categories of `cat[..n]`, each once, in order of first appearance: the
    insertion order of `new Set(products.map(p => p.category))`, which
    `Array.from` reproduces.
   */
  function CategoriesOfPrefix(cat: seq<Product>, n: nat): seq<string>
    requires n <= |cat|
  {
    if n == 0 then []
    else
      var seen := CategoriesOfPrefix(cat, n - 1);
      if cat[n - 1].category in seen then seen else seen + [cat[n - 1].category]
  }

  /**
    `getCategories` lists every category of the catalog exactly once and
    nothing else, in order of first appearance in the catalog.
   */
  function Categories(cat: seq<Product>): (r: seq<string>)
    ensures forall i, j :: 0 <= i < j < |r| ==> r[i] != r[j]
    ensures forall c :: c in r <==> exists p :: p in cat && p.category == c
    ensures forall i, j :: 0 <= i < j < |r| ==> FirstIndexOfCategory(cat, r[i]) < FirstIndexOfCategory(cat, r[j])
  {
    var r := CategoriesOfPrefix(cat, |cat|);
    CategoriesOfPrefixSpec(cat, |cat|);
    assert FirstAppearanceList(cat, |cat|, r);
    CategoriesOfCatalog(cat);
    r
  }

  /** `r` lists categories of `cat[..n]`, each once, ordered by their first index in `cat`. */
  ghost predicate FirstAppearanceList(cat: seq<Product>, n: nat, r: seq<string>)
    requires n <= |cat|
  {
    && (forall i, j :: 0 <= i < j < |r| ==> r[i] != r[j])
    && (forall c :: c in r <==> exists i :: 0 <= i < n && cat[i].category == c)
    && (forall i :: 0 <= i < |r| ==> FirstIndexOfCategory(cat, r[i]) < n)
    && (forall i, j :: 0 <= i < j < |r| ==> FirstIndexOfCategory(cat, r[i]) < FirstIndexOfCategory(cat, r[j]))
  }

  /** Before the first product no category has appeared. */
  lemma NoCategoriesYet(cat: seq<Product>)
    ensures FirstAppearanceList(cat, 0, [])
  {
  }

  /** Appending a category that `cat[..n]` does not contain extends the list to `cat[..n + 1]`. */
  lemma AppendNewCategory(cat: seq<Product>, n: nat, seen: seq<string>)
    requires n < |cat| && FirstAppearanceList(cat, n, seen) && cat[n].category !in seen
    ensures FirstAppearanceList(cat, n + 1, seen + [cat[n].category])
  {
    var c := cat[n].category;
    var r := seen + [c];
    assert forall j :: 0 <= j < n ==> cat[j].category != c;
    assert FirstIndexOfCategory(cat, c) == n;
    forall c' ensures c' in r <==> exists i :: 0 <= i < n + 1 && cat[i].category == c' {
      if c' == c {
        assert cat[n].category == c';
      }
    }
    assert forall i :: 0 <= i < |seen| ==> r[i] == seen[i];
  }

  /** Meeting a category already seen leaves the list valid for one more product. */
  lemma SkipSeenCategory(cat: seq<Product>, n: nat, seen: seq<string>)
    requires n < |cat| && FirstAppearanceList(cat, n, seen) && cat[n].category in seen
    ensures FirstAppearanceList(cat, n + 1, seen)
  {
    forall c' ensures c' in seen <==> exists i :: 0 <= i < n + 1 && cat[i].category == c' {
      if c' == cat[n].category {
        assert cat[n].category == c';
      }
    }
  }

  /** `getCategories` one product further: the set either already has its category or appends it. */
  lemma CategoriesOfPrefixStep(cat: seq<Product>, n: nat)
    requires 0 < n <= |cat| && FirstAppearanceList(cat, n - 1, CategoriesOfPrefix(cat, n - 1))
    ensures FirstAppearanceList(cat, n, CategoriesOfPrefix(cat, n))
  {
    var seen := CategoriesOfPrefix(cat, n - 1);
    if cat[n - 1].category in seen {
      assert CategoriesOfPrefix(cat, n) == seen;
      SkipSeenCategory(cat, n - 1, seen);
    } else {
      assert CategoriesOfPrefix(cat, n) == seen + [cat[n - 1].category];
      AppendNewCategory(cat, n - 1, seen);
    }
  }

  lemma {:induction false} CategoriesOfPrefixSpec(cat: seq<Product>, n: nat)
    requires n <= |cat|
    ensures FirstAppearanceList(cat, n, CategoriesOfPrefix(cat, n))
  {
    if n == 0 {
      NoCategoriesYet(cat);
    } else {
      CategoriesOfPrefixSpec(cat, n - 1);
      CategoriesOfPrefixStep(cat, n);
    }
  }


  /** The categories of the whole catalog: each once, all of them, in order of first appearance. */
  lemma CategoriesOfCatalog(cat: seq<Product>)
    ensures var r := CategoriesOfPrefix(cat, |cat|);
      && (forall i, j :: 0 <= i < j < |r| ==> r[i] != r[j])
      && (forall c :: c in r <==> exists p :: p in cat && p.category == c)
      && (forall i, j :: 0 <= i < j < |r| ==> FirstIndexOfCategory(cat, r[i]) < FirstIndexOfCategory(cat, r[j]))
  {
    CategoriesOfPrefixSpec(cat, |cat|);
    var r := CategoriesOfPrefix(cat, |cat|);
    forall c ensures c in r <==> exists p :: p in cat && p.category == c {
      if exists p :: p in cat && p.category == c {
        var p :| p in cat && p.category == c;
        var i :| 0 <= i < |cat| && cat[i] == p;
        assert cat[i].category == c;
      }
      if c in r {
        var i :| 0 <= i < |cat| && cat[i].category == c;
        assert cat[i] in cat;
      }
    }
  }

  /** The shipped products are numbered 1 to 10 in catalog order, so their ids are distinct. */
  lemma ShippedIds()
    ensures |Products| == 10 && forall i :: 0 <= i < 10 ==> Products[i].id == i + 1
    ensures DistinctIds(Products)
  {
  }

  /**
    Every old price in the shipped catalog is above the current price, and
    every product is in stock with a positive price of at most 1000 and a
    rating between 0 and 5 stars.
   */
  lemma ShippedPrices()
    ensures forall i :: 0 <= i < |Products| && Products[i].oldPrice.Some? ==> Products[i].oldPrice.value > Products[i].price
    ensures forall i :: 0 <= i < |Products| ==> 0 < Products[i].price <= 1000 && 0 <= Products[i].rating <= 50
    ensures forall i :: 0 <= i < |Products| ==> 0 < Products[i].stockCount
  {
  }

  /** `cat` has ten products rated like the shipped catalog, in the same order. */
  ghost predicate RatedLikeShipped(cat: seq<Product>)
  {
    && |cat| == 10
    && cat[0].rating == 48
    && cat[1].rating == 49
    && cat[2].rating == 47
    && cat[3].rating == 46
    && cat[4].rating == 48
    && cat[5].rating == 45
    && cat[6].rating == 47
    && cat[7].rating == 46
    && cat[8].rating == 44
    && cat[9].rating == 47
  }


  /** One step of the reference sort: the head of `cat[k..]` goes in after the `m` higher-rated products. */
  lemma SortStep(cat: seq<Product>, k: nat, prev: seq<Product>, m: nat, next: seq<Product>)
    requires k < |cat| && InsertionSort(cat[k + 1..], RatingDesc) == prev
    requires m <= |prev| && forall i :: 0 <= i < m ==> prev[i].rating > cat[k].rating
    requires m == |prev| || cat[k].rating >= prev[m].rating
    requires |next| == |prev| + 1 && next[m] == cat[k]
    requires forall i :: 0 <= i < m ==> next[i] == prev[i]
    requires forall i :: m < i < |next| ==> next[i] == prev[i - 1]
    ensures InsertionSort(cat[k..], RatingDesc) == next
  {
    assert cat[k..][1..] == cat[k + 1..];
    InsertAt(cat[k], prev, RatingDesc, m);
    var inserted := prev[..m] + [cat[k]] + prev[m..];
    forall i | 0 <= i < |next| ensures next[i] == inserted[i] {
      if i < m {
        assert next[i] == prev[i] == prev[..m][i] == inserted[i];
      } else if i == m {
        assert next[i] == cat[k] == inserted[i];
      } else {
        assert next[i] == prev[i - 1] == prev[m..][i - m - 1] == inserted[i];
      }
    }
  }

  /** The reference sort of products 6 to 9 of a catalog rated like the shipped one. */
  lemma SortShippedFrom6(cat: seq<Product>)
    requires RatedLikeShipped(cat)
    ensures InsertionSort(cat[6..], RatingDesc) == [cat[6], cat[9], cat[7], cat[8]]
  {
    assert cat[9..][1..] == [];
    SortStep(cat, 8, [cat[9]], 1,
      [cat[9], cat[8]]);
    SortStep(cat, 7, [cat[9], cat[8]], 1,
      [cat[9], cat[7], cat[8]]);
    SortStep(cat, 6, [cat[9], cat[7], cat[8]], 0,
      [cat[6], cat[9], cat[7], cat[8]]);
  }

  /** Product 5 joins the sorted suffix. */
  lemma SortShippedFrom5(cat: seq<Product>)
    requires RatedLikeShipped(cat)
    requires InsertionSort(cat[6..], RatingDesc) == [cat[6], cat[9], cat[7], cat[8]]
    ensures InsertionSort(cat[5..], RatingDesc) == [cat[6], cat[9], cat[7], cat[5], cat[8]]
  {
    SortStep(cat, 5, [cat[6], cat[9], cat[7], cat[8]], 3,
      [cat[6], cat[9], cat[7], cat[5], cat[8]]);
  }

  /** Product 4 joins the sorted suffix. */
  lemma SortShippedFrom4(cat: seq<Product>)
    requires RatedLikeShipped(cat)
    requires InsertionSort(cat[5..], RatingDesc) == [cat[6], cat[9], cat[7], cat[5], cat[8]]
    ensures InsertionSort(cat[4..], RatingDesc) == [cat[4], cat[6], cat[9], cat[7], cat[5], cat[8]]
  {
    SortStep(cat, 4, [cat[6], cat[9], cat[7], cat[5], cat[8]], 0,
      [cat[4], cat[6], cat[9], cat[7], cat[5], cat[8]]);
  }

  /** Product 3 joins the sorted suffix. */
  lemma SortShippedFrom3(cat: seq<Product>)
    requires RatedLikeShipped(cat)
    requires InsertionSort(cat[4..], RatingDesc) == [cat[4], cat[6], cat[9], cat[7], cat[5], cat[8]]
    ensures InsertionSort(cat[3..], RatingDesc) == [cat[4], cat[6], cat[9], cat[3], cat[7], cat[5], cat[8]]
  {
    SortStep(cat, 3, [cat[4], cat[6], cat[9], cat[7], cat[5], cat[8]], 3,
      [cat[4], cat[6], cat[9], cat[3], cat[7], cat[5], cat[8]]);
  }

  /** Product 2 joins the sorted suffix. */
  lemma SortShippedFrom2(cat: seq<Product>)
    requires RatedLikeShipped(cat)
    requires InsertionSort(cat[3..], RatingDesc) == [cat[4], cat[6], cat[9], cat[3], cat[7], cat[5], cat[8]]
    ensures InsertionSort(cat[2..], RatingDesc) == [cat[4], cat[2], cat[6], cat[9], cat[3], cat[7], cat[5], cat[8]]
  {
    SortStep(cat, 2, [cat[4], cat[6], cat[9], cat[3], cat[7], cat[5], cat[8]], 1,
      [cat[4], cat[2], cat[6], cat[9], cat[3], cat[7], cat[5], cat[8]]);
  }

  /** Product 1 joins the sorted suffix. */
  lemma SortShippedFrom1(cat: seq<Product>)
    requires RatedLikeShipped(cat)
    requires InsertionSort(cat[2..], RatingDesc) == [cat[4], cat[2], cat[6], cat[9], cat[3], cat[7], cat[5], cat[8]]
    ensures InsertionSort(cat[1..], RatingDesc) == [cat[1], cat[4], cat[2], cat[6], cat[9], cat[3], cat[7], cat[5], cat[8]]
  {
    SortStep(cat, 1, [cat[4], cat[2], cat[6], cat[9], cat[3], cat[7], cat[5], cat[8]], 0,
      [cat[1], cat[4], cat[2], cat[6], cat[9], cat[3], cat[7], cat[5], cat[8]]);
  }

  /** Product 0 joins the sorted suffix. */
  lemma SortShippedFrom0(cat: seq<Product>)
    requires RatedLikeShipped(cat)
    requires InsertionSort(cat[1..], RatingDesc) == [cat[1], cat[4], cat[2], cat[6], cat[9], cat[3], cat[7], cat[5], cat[8]]
    ensures InsertionSort(cat[0..], RatingDesc) == [cat[1], cat[0], cat[4], cat[2], cat[6], cat[9], cat[3], cat[7], cat[5], cat[8]]
  {
    SortStep(cat, 0, [cat[1], cat[4], cat[2], cat[6], cat[9], cat[3], cat[7], cat[5], cat[8]], 1,
      [cat[1], cat[0], cat[4], cat[2], cat[6], cat[9], cat[3], cat[7], cat[5], cat[8]]);
  }

  /** Featured order of any ten-product catalog rated like the shipped one. */
  lemma FeaturedForShippedRatings(cat: seq<Product>)
    requires RatedLikeShipped(cat)
    ensures FeaturedProducts(cat, 4) == [cat[1], cat[0], cat[4], cat[2]]
  {
    SortShippedFrom6(cat);
    SortShippedFrom5(cat);
    SortShippedFrom4(cat);
    SortShippedFrom3(cat);
    SortShippedFrom2(cat);
    SortShippedFrom1(cat);
    SortShippedFrom0(cat);
    assert cat[0..] == cat;
  }

  /** The shipped catalog is rated as `RatedLikeShipped` says. */
  lemma ShippedRated()
    ensures RatedLikeShipped(Products)
  {
  }

  /** With the shipped data, `getFeaturedProducts(4)` yields ids 2, 1, 5, 3. */
  lemma ShippedFeaturedProducts()
    ensures Ids(FeaturedProducts(Products, 4)) == [2, 1, 5, 3]
  {
    ShippedIds();
    ShippedRated();
    FeaturedForShippedRatings(Products);
    var r := FeaturedProducts(Products, 4);
    assert |Ids(r)| == 4 && Ids(r)[0] == 2 && Ids(r)[1] == 1 && Ids(r)[2] == 5 && Ids(r)[3] == 3;
  }

  /** When the first `n` products are all on sale, the first `n` discounted products are exactly those. */
  lemma DiscountedPrefix(cat: seq<Product>, n: nat)
    requires n <= |cat| && forall i :: 0 <= i < n ==> Discounted(cat[i])
    ensures DiscountedProducts(cat, n) == cat[..n]
  {
    FilterPassingPrefix(cat, Discounted, n);
  }

  /** The discounted products of a catalog whose first four products are on sale, with ids 1 to 4. */
  lemma DiscountedForShippedPrefix(cat: seq<Product>)
    requires 4 <= |cat| && forall i :: 0 <= i < 4 ==> Discounted(cat[i]) && cat[i].id == i + 1
    ensures Ids(DiscountedProducts(cat, 4)) == [1, 2, 3, 4]
  {
    DiscountedPrefix(cat, 4);
    var r := cat[..4];
    assert |Ids(r)| == 4 && Ids(r)[0] == 1 && Ids(r)[1] == 2 && Ids(r)[2] == 3 && Ids(r)[3] == 4;
  }

  /** With the shipped data, `getDiscountedProducts(4)` yields ids 1, 2, 3, 4. */
  lemma ShippedDiscountedProducts()
    ensures Ids(DiscountedProducts(Products, 4)) == [1, 2, 3, 4]
  {
    assert forall i :: 0 <= i < 4 ==> Discounted(Products[i]) && Products[i].id == i + 1;
    DiscountedForShippedPrefix(Products);
  }

  /** The categories of the shipped products, in catalog order. */
  const ShippedCategoryNames: seq<string> :=
    ["hoodies", "hoodies", "hoodies", "hoodies", "sets", "tshirts", "pants", "jackets", "accessories", "accessories"]

  /** Categories of any ten-product catalog whose categories are those of the shipped one. */
  lemma CategoriesForShippedCategories(cat: seq<Product>)
    requires |cat| == 10 && forall i :: 0 <= i < 10 ==> cat[i].category == ShippedCategoryNames[i]
    ensures Categories(cat) == ["hoodies", "sets", "tshirts", "pants", "jackets", "accessories"]
  {
    assert CategoriesOfPrefix(cat, 1) == ["hoodies"];
    assert CategoriesOfPrefix(cat, 2) == ["hoodies"];
    assert CategoriesOfPrefix(cat, 3) == ["hoodies"];
    assert CategoriesOfPrefix(cat, 4) == ["hoodies"];
    assert CategoriesOfPrefix(cat, 5) == ["hoodies", "sets"];
    assert CategoriesOfPrefix(cat, 6) == ["hoodies", "sets", "tshirts"];
    assert CategoriesOfPrefix(cat, 7) == ["hoodies", "sets", "tshirts", "pants"];
    assert CategoriesOfPrefix(cat, 8) == ["hoodies", "sets", "tshirts", "pants", "jackets"];
    assert CategoriesOfPrefix(cat, 9) == ["hoodies", "sets", "tshirts", "pants", "jackets", "accessories"];
    assert CategoriesOfPrefix(cat, 10) == ["hoodies", "sets", "tshirts", "pants", "jackets", "accessories"];
  }

  /** With the shipped data, `getCategories()` yields the six categories in this order. */
  lemma ShippedCategories()
    ensures Categories(Products) == ["hoodies", "sets", "tshirts", "pants", "jackets", "accessories"]
  {
    assert forall i :: 0 <= i < 10 ==> Products[i].category == ShippedCategoryNames[i];
    CategoriesForShippedCategories(Products);
  }
}
