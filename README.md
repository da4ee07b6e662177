# Storefront model

A verified Dafny model of the logic inside a small React storefront: a
clothing shop with a fixed catalog of ten products, a product listing with
filters and sorting, a product page, a cart page, a header with a cart badge,
and a three-step checkout. Most of the application is markup. The model
covers the parts that compute something:

- **Catalog** (`catalog.dfy`). The `Product` record, the ten shipped
  products, and the read-only queries over them: by category, by id, the
  top-rated "featured" products, the first discounted products, and the
  distinct categories. The queries are functions; the catalog is never
  mutated.
- **Sorting** (`sorting.dfy`). What a stable sort is (`StableSortOf`: sorted
  by an integer key, and each key's products in input order), a pure
  insertion sort proved stable, a proof that a stable sort has only one
  result, and the in-place array sort behind `Array.prototype.sort`.
  ECMA-262 (2023 edition, section 23.1.3.30) requires that sort to be stable.
- **Listing page** (`products_page.dfy`). The filter effect: copy the
  catalog, apply the category, price, search and rating filters in order, then
  sort in place by the chosen key. Also the criteria state as a class whose
  handlers re-run the effect, the rating toggle, the reset button and the
  category labels.
- **Product page** (`product_detail.dfy`). The page state as a class: the
  product looked up from the URL id, the related products, and the quantity
  stepper bounded by the stock.
- **Cart page** (`cart_page.dfy`). The view computed from the cart: the
  empty state or the item table, each row's guarded ±1 requests, subtotal and
  delete request, and the summary.
- **Header** (`header.dfy`). The item count as a left fold over the cart, and
  the badge.
- **Checkout** (`checkout.dfy`). The step machine
  `shipping → payment → confirmation`, with the loading flag, the form record
  and the empty-cart guard. It appears twice: as pure transitions with trace
  lemmas, and as a class whose handlers are proved to follow those
  transitions.

Helper modules: `wrappers.dfy` (`Option`), `seqs.dfy` (JavaScript `filter`,
`slice(0, end)` and string `includes`, with their laws), and `cart.dfy` (cart
lines and the requests a page sends to the cart store).

Modelling conventions:

- Ratings are integers in tenths of a star (4.8 is 48). Prices are whole
  numbers in the catalog.
- `toLowerCase` is the parameter `lower`.
- `localeCompare` is the parameter `collation`, a ranking of names:
  `a.localeCompare(b)` has the sign of `collation(a) - collation(b)`.
- JavaScript truthiness is written out. An empty category or query, and a
  rating of 0 or `null`, switch their filter off.
- The cart store is another module of the application and is not part of this
  model. A page calling `addToCart`, `updateQuantity`, `removeFromCart` or
  `clearCart` is modelled as emitting the matching `CartRequest`. Nothing is
  assumed about what the store does with it.

## Model

Source paths below are relative to the repository root.

| member | source | states |
|---|---|---|
| Catalog.ShippedIds | project-bolt-sb1-d3grfz67/project/src/data/products.ts:15-273 | the shipped products are numbered 1 to 10 in catalog order, so no two share an id |
| Catalog.ShippedPrices | project-bolt-sb1-d3grfz67/project/src/data/products.ts:15-273 | every shipped old price is strictly above the price; prices are positive and at most 1000, ratings 0 to 5 stars, every product in stock (stock count positive) |
| Catalog.ProductsByCategory | project-bolt-sb1-d3grfz67/project/src/data/products.ts:276-278 | exactly the catalog products of that category, each as often as in the catalog, in catalog order (a subsequence) |
| Catalog.ProductById | project-bolt-sb1-d3grfz67/project/src/data/products.ts:281-283 | `None` exactly when no product has the id; otherwise a product with that id that no earlier product's id matches, i.e. the first match |
| Catalog.ProductByIdFindsEach | project-bolt-sb1-d3grfz67/project/src/data/products.ts:281-283 | with distinct ids, looking up the id of any catalog product returns that product |
| Catalog.FeaturedProducts | project-bolt-sb1-d3grfz67/project/src/data/products.ts:286-290 | for limit ≥ 0: min(limit, catalog size) products; for any limit: catalog products with ratings non-increasing along the list |
| Catalog.FeaturedProductsSpec | project-bolt-sb1-d3grfz67/project/src/data/products.ts:286-290 | the list is the top of the catalog: no product more often than the catalog has it, every product left out rated no higher than every product kept, and equal ratings in catalog order (each rating's products form a prefix of that rating's products in the catalog) |
| Catalog.FeaturedProductsOfAnyStableSort | project-bolt-sb1-d3grfz67/project/src/data/products.ts:287-289 | every stable sort of the copy by rating gives the same featured list, so the result does not depend on the engine's sort algorithm |
| Catalog.ShippedFeaturedProducts | project-bolt-sb1-d3grfz67/project/src/data/products.ts:286-290 | with the shipped data, the top four have ids 2, 1, 5, 3 |
| Catalog.DiscountedProducts | project-bolt-sb1-d3grfz67/project/src/data/products.ts:293-297 | only discounted catalog products, forming a prefix of all discounted products in catalog order, with min(limit, their number) of them |
| Catalog.DiscountedPrefix | project-bolt-sb1-d3grfz67/project/src/data/products.ts:293-297 | when the first n products are discounted, the first n discounted products are exactly those |
| Catalog.ShippedDiscountedProducts | project-bolt-sb1-d3grfz67/project/src/data/products.ts:293-297 | with the shipped data, the first four discounted products have ids 1, 2, 3, 4 |
| Catalog.CategoriesOfPrefixSpec | project-bolt-sb1-d3grfz67/project/src/data/products.ts:300-303 | the set, built product by product, holds the categories of the products seen so far, each once, in order of first appearance |
| Catalog.Categories | project-bolt-sb1-d3grfz67/project/src/data/products.ts:300-303 | every catalog category exactly once, nothing else, in order of first appearance (the set's insertion order) |
| Catalog.ShippedCategories | project-bolt-sb1-d3grfz67/project/src/data/products.ts:300-303 | with the shipped data: hoodies, sets, tshirts, pants, jackets, accessories |
| Sorting.InsertionSortIsStable | project-bolt-sb1-d3grfz67/project/src/data/products.ts:287-288 | the pure sort used for the catalog copy is a stable sort of its input |
| Sorting.StableSortUnique | project-bolt-sb1-d3grfz67/project/src/data/products.ts:288 | two lists sorted by the same key with the same per-key order of products are equal |
| Sorting.StableSortPermutes | project-bolt-sb1-d3grfz67/project/src/data/products.ts:288 | a stable sort is a permutation of its input |
| Sorting.SortInPlace | project-bolt-sb1-d3grfz67/project/src/pages/ProductsPage.tsx:63-81 | after the in-place sort the array is a stable sort of its old contents |
| Seqs.Slice | project-bolt-sb1-d3grfz67/project/src/data/products.ts:289 | `slice(0, end)` is a prefix of min(end, length) elements for end ≥ 0, and counts from the back for a negative end |
| Seqs.IncludesIsOccurrence | project-bolt-sb1-d3grfz67/project/src/pages/ProductsPage.tsx:52-53 | `includes` holds exactly when the query occurs in the string at some position |
| ProductsPage.Matching | project-bolt-sb1-d3grfz67/project/src/pages/ProductsPage.tsx:35-60 | a product is in the filtered list exactly when it is in the catalog and passes every active filter, as many times as the catalog holds it; the list keeps catalog order |
| ProductsPage.CategoryStage | project-bolt-sb1-d3grfz67/project/src/pages/ProductsPage.tsx:38-40 | the category filter applies only when a non-empty category is selected, and then keeps exact matches |
| ProductsPage.PriceStage | project-bolt-sb1-d3grfz67/project/src/pages/ProductsPage.tsx:43-45 | the price filter always applies, with both ends of the range included |
| ProductsPage.QueryStage | project-bolt-sb1-d3grfz67/project/src/pages/ProductsPage.tsx:48-55 | the search applies only to a non-empty query, and keeps products whose lower-cased name or description includes the lower-cased query |
| ProductsPage.RatingStage | project-bolt-sb1-d3grfz67/project/src/pages/ProductsPage.tsx:58-60 | the rating filter applies only to a selected non-zero rating, and keeps products rated at least that |
| ProductsPage.Narrow | project-bolt-sb1-d3grfz67/project/src/pages/ProductsPage.tsx:35-60 | the four guarded `result = result.filter(…)` steps compute exactly `Matching` |
| ProductsPage.ApplyFilters | project-bolt-sb1-d3grfz67/project/src/pages/ProductsPage.tsx:34-84 | the shown list is a stable sort, by the chosen key, of the matching products: a permutation of them, ordered by the key, ties in catalog order |
| ProductsPage.LocaleCompare | project-bolt-sb1-d3grfz67/project/src/pages/ProductsPage.tsx:71 | `localeCompare` answers -1, 0 or 1 as the first name collates before, with or after the second |
| ProductsPage.SortKey | project-bolt-sb1-d3grfz67/project/src/pages/ProductsPage.tsx:63-81 | for each `sortBy`, the key orders any two products as the comparator of that `case` does (below, equal, above exactly when the comparator is negative, zero, positive), `localeCompare` being the collation's order |
| ProductsPage.SortKeyOrder | project-bolt-sb1-d3grfz67/project/src/pages/ProductsPage.tsx:63-81 | price-asc gives non-decreasing prices, price-desc non-increasing ones, name-asc/name-desc collation order, and `rating` or any other value non-increasing ratings |
| ProductsPage.PassesMeaning | project-bolt-sb1-d3grfz67/project/src/pages/ProductsPage.tsx:38-60 | passing the filters means: category equal if one is set, price within the inclusive range, query occurring in the lower-cased name or description if one is typed, rating at least the selected stars if one is set |
| ProductsPage.ResetCriteriaKeepAll | project-bolt-sb1-d3grfz67/project/src/pages/ProductsPage.tsx:271-276 | with no category, query or rating and a range holding every price, no product is filtered out |
| ProductsPage.ShippedWithinSlider | project-bolt-sb1-d3grfz67/project/src/pages/ProductsPage.tsx:178-184 | every shipped price lies within the slider's range 0 to 1000 |
| ProductsPage.FormatCategoryName | project-bolt-sb1-d3grfz67/project/src/pages/ProductsPage.tsx:86-97 | a mapped category shows its label, which differs from the key; an unmapped one is returned unchanged |
| ProductsPage.ToggledRating | project-bolt-sb1-d3grfz67/project/src/pages/ProductsPage.tsx:195 | clicking the selected rating clears it, and clicking any other rating selects it |
| ProductsPage.QuickAdd | project-bolt-sb1-d3grfz67/project/src/pages/ProductsPage.tsx:99-103 | a product card's add button requests one of that product |
| ProductsPage.ProductsPage.constructor | project-bolt-sb1-d3grfz67/project/src/pages/ProductsPage.tsx:15-23 | initial criteria: the URL category if non-empty, else none; price range [0, 1000]; empty query; no rating; sort `featured`; the list is the effect's result |
| ProductsPage.ProductsPage.Refresh | project-bolt-sb1-d3grfz67/project/src/pages/ProductsPage.tsx:34-84 | re-running the effect leaves the criteria alone and makes the shown list what the effect computes from them |
| ProductsPage.ProductsPage.OnCategoryParam | project-bolt-sb1-d3grfz67/project/src/pages/ProductsPage.tsx:26-31 | a non-empty `category` URL parameter selects that category; otherwise nothing changes |
| ProductsPage.ProductsPage.SelectCategory | project-bolt-sb1-d3grfz67/project/src/pages/ProductsPage.tsx:149-160 | only the category changes, and the list follows |
| ProductsPage.ProductsPage.SetSearchQuery | project-bolt-sb1-d3grfz67/project/src/pages/ProductsPage.tsx:137 | only the query changes, and the list follows |
| ProductsPage.ProductsPage.SetMaxPrice | project-bolt-sb1-d3grfz67/project/src/pages/ProductsPage.tsx:184 | the slider changes only the upper bound; the lower bound stays 0 |
| ProductsPage.ProductsPage.ToggleRating | project-bolt-sb1-d3grfz67/project/src/pages/ProductsPage.tsx:195 | only the rating changes, as `ToggledRating` says |
| ProductsPage.ProductsPage.SetSortBy | project-bolt-sb1-d3grfz67/project/src/pages/ProductsPage.tsx:247 | only the sort option changes, and the list is re-sorted |
| ProductsPage.ProductsPage.ResetFilters | project-bolt-sb1-d3grfz67/project/src/pages/ProductsPage.tsx:271-276 | category, price range, query and rating go back to their initial values, the sort order stays, and the whole catalog is shown, stably sorted |
| ProductDetail.Decreased | project-bolt-sb1-d3grfz67/project/src/pages/ProductDetailPage.tsx:44-48 | one less when the quantity is above 1, otherwise unchanged |
| ProductDetail.Increased | project-bolt-sb1-d3grfz67/project/src/pages/ProductDetailPage.tsx:50-54 | one more when the quantity is below the stock, otherwise unchanged |
| ProductDetail.StepsInBounds | project-bolt-sb1-d3grfz67/project/src/pages/ProductDetailPage.tsx:44-54 | from any quantity between 1 and max(1, stock), including the initial 1, every sequence of presses stays there |
| ProductDetail.RelatedProducts | project-bolt-sb1-d3grfz67/project/src/pages/ProductDetailPage.tsx:28 | at most four; exactly the featured products whose id differs from the shown one, each as often as it is featured, in featured order |
| ProductDetail.RelatedOfFirstFeatured | project-bolt-sb1-d3grfz67/project/src/pages/ProductDetailPage.tsx:28 | on the page of the first featured product, when its id is not shared, the related products are the other three featured ones |
| ProductDetail.ShippedRelatedProducts | project-bolt-sb1-d3grfz67/project/src/pages/ProductDetailPage.tsx:28 | with the shipped data, product 2's page relates products 1, 5, 3 |
| ProductDetail.ProductDetailPage.constructor | project-bolt-sb1-d3grfz67/project/src/pages/ProductDetailPage.tsx:10-15 | no product, no related products, quantity 1, first image, description tab |
| ProductDetail.ProductDetailPage.OnIdChange | project-bolt-sb1-d3grfz67/project/src/pages/ProductDetailPage.tsx:17-30 | an id looks the product up (unset when nothing matches), resets quantity to 1, image to 0 and tab to description, and recomputes the related products; no id changes nothing |
| ProductDetail.ProductDetailPage.DecreaseQuantity | project-bolt-sb1-d3grfz67/project/src/pages/ProductDetailPage.tsx:44-48 | the quantity becomes `Decreased` of the old one, nothing else changes, and 1 ≤ quantity ≤ max(1, stock) is kept |
| ProductDetail.ProductDetailPage.IncreaseQuantity | project-bolt-sb1-d3grfz67/project/src/pages/ProductDetailPage.tsx:50-54 | the quantity becomes `Increased` of the old one, nothing else changes, and the bound is kept |
| ProductDetail.ProductDetailPage.SelectImage | project-bolt-sb1-d3grfz67/project/src/pages/ProductDetailPage.tsx:101 | a thumbnail click changes only the shown image |
| ProductDetail.ProductDetailPage.SelectTab | project-bolt-sb1-d3grfz67/project/src/pages/ProductDetailPage.tsx:235 | a tab click changes only the open tab |
| ProductDetail.ProductDetailPage.AddToCartRequest | project-bolt-sb1-d3grfz67/project/src/pages/ProductDetailPage.tsx:56-58 | the request carries the shown product and the selected quantity unchanged, and that quantity is at least 1 |
| ProductDetail.ProductDetailPage.View | project-bolt-sb1-d3grfz67/project/src/pages/ProductDetailPage.tsx:32-42 | the placeholder is rendered exactly while no product is set |
| CartPage.DecrementRequest | project-bolt-sb1-d3grfz67/project/src/pages/CartPage.tsx:82-86 | disabled exactly at quantity ≤ 1; otherwise requests quantity − 1 for the row's product, which is at least 1 |
| CartPage.IncrementRequest | project-bolt-sb1-d3grfz67/project/src/pages/CartPage.tsx:90-94 | disabled exactly at quantity ≥ stock; otherwise requests quantity + 1 for the row's product, which does not exceed the stock |
| CartPage.RowOf | project-bolt-sb1-d3grfz67/project/src/pages/CartPage.tsx:80-110 | a row's subtotal is price × quantity, its delete button removes that row's product id, and its ± buttons are the guarded requests |
| CartPage.Rows | project-bolt-sb1-d3grfz67/project/src/pages/CartPage.tsx:51-113 | one row per cart line, in cart order |
| CartPage.View | project-bolt-sb1-d3grfz67/project/src/pages/CartPage.tsx:9-147 | the empty state, with no table, exactly when the cart is empty; otherwise the rows, a count of cart lines, and both totals equal to the store's `totalPrice` |
| Header.Reduce | project-bolt-sb1-d3grfz67/project/src/components/Header.tsx:11 | the left fold from any seed adds the sum of the quantities to the seed |
| Header.TotalItems | project-bolt-sb1-d3grfz67/project/src/components/Header.tsx:11 | `totalItems` is the sum of the quantities of all cart lines |
| Header.TotalItemsAppend | project-bolt-sb1-d3grfz67/project/src/components/Header.tsx:11 | an empty cart counts 0, and the count of two carts joined is the sum of their counts |
| Header.TotalItemsAtLeastLines | project-bolt-sb1-d3grfz67/project/src/components/Header.tsx:11 | when every line holds at least one item, the count is at least the number of lines |
| Header.Badge | project-bolt-sb1-d3grfz67/project/src/components/Header.tsx:61-65 | the badge is shown exactly when the count is positive, and then shows the count |
| Header.BadgeShownIffNonEmpty | project-bolt-sb1-d3grfz67/project/src/components/Header.tsx:61-65 | when every line holds at least one item, the badge is shown exactly when the cart has a line |
| Checkout.Initial | project-bolt-sb1-d3grfz67/project/src/pages/CheckoutPage.tsx:22-35 | step shipping, not loading, the ten form fields with empty texts, country السعودية, payment credit-card, saveInfo checked |
| Checkout.ChangeField | project-bolt-sb1-d3grfz67/project/src/pages/CheckoutPage.tsx:37-44 | the named field takes the checkbox state for a checkbox and the value otherwise; every other field keeps its value |
| Checkout.Apply | project-bolt-sb1-d3grfz67/project/src/pages/CheckoutPage.tsx:37-67 | shipping submit goes to payment and back goes to shipping, each changing nothing else; payment submit only sets loading; completion stops loading and confirms; an input changes only the form |
| Checkout.Requests | project-bolt-sb1-d3grfz67/project/src/pages/CheckoutPage.tsx:57-62 | only the payment's completion calls into the cart store, and it clears the cart |
| Checkout.ApplyPreservesValid | project-bolt-sb1-d3grfz67/project/src/pages/CheckoutPage.tsx:24-44 | every action the page offers keeps the form at its ten fields, with text fields, a checkbox `saveInfo` and an offered payment method, and no payment pending once confirmed |
| Checkout.RunPreservesValid | project-bolt-sb1-d3grfz67/project/src/pages/CheckoutPage.tsx:22-62 | the same holds for every run of offered actions |
| Checkout.ConfirmationIsFinal | project-bolt-sb1-d3grfz67/project/src/pages/CheckoutPage.tsx:76-114 | once confirmed, no offered action changes the state (only the home button is offered) and the cart is not touched again |
| Checkout.ConfirmationClearsCart | project-bolt-sb1-d3grfz67/project/src/pages/CheckoutPage.tsx:57-62 | a run that reaches confirmation from another step has cleared the cart |
| Checkout.CompletionFollowsSubmit | project-bolt-sb1-d3grfz67/project/src/pages/CheckoutPage.tsx:52-62 | from a state with no payment pending, confirmation is reached only through a payment submit followed later by its completion |
| Checkout.CompletionAfterBack | project-bolt-sb1-d3grfz67/project/src/pages/CheckoutPage.tsx:364 | back stays enabled while the payment runs, so a pending payment still confirms and clears the cart after the visitor went back to shipping |
| Checkout.Redirects | project-bolt-sb1-d3grfz67/project/src/pages/CheckoutPage.tsx:69-72 | redirects exactly when the cart is empty on the shipping or payment step; never on confirmation, never with items in the cart |
| Checkout.Enabled | project-bolt-sb1-d3grfz67/project/src/pages/CheckoutPage.tsx:109-372 | inputs only change form fields on the form steps (the only checkbox is `saveInfo`, on payment); the payment submit is offered exactly on the payment step when not loading (`disabled={isLoading}`); the timer fires exactly while loading; the home button exactly on confirmation, where once settled it is the only control |
| Checkout.ConfirmedNeverRedirects | project-bolt-sb1-d3grfz67/project/src/pages/CheckoutPage.tsx:69-72 | a confirmed page is never redirected to the cart, even with the cart empty, whatever the visitor does next |
| Checkout.CheckoutPage.constructor | project-bolt-sb1-d3grfz67/project/src/pages/CheckoutPage.tsx:22-35 | the page starts in `Initial()` and has sent no requests |
| Checkout.CheckoutPage.HandleInputChange | project-bolt-sb1-d3grfz67/project/src/pages/CheckoutPage.tsx:37-44 | the new state is `Apply` of the input change |
| Checkout.CheckoutPage.HandleShippingSubmit | project-bolt-sb1-d3grfz67/project/src/pages/CheckoutPage.tsx:46-50 | the new state is `Apply` of the shipping submit: the payment step, unconditionally |
| Checkout.CheckoutPage.HandlePaymentSubmit | project-bolt-sb1-d3grfz67/project/src/pages/CheckoutPage.tsx:52-55 | the new state is `Apply` of the payment submit: loading, on the same step |
| Checkout.CheckoutPage.CompletePayment | project-bolt-sb1-d3grfz67/project/src/pages/CheckoutPage.tsx:57-62 | the new state is `Apply` of the completion, and a `clearCart` request is appended |
| Checkout.CheckoutPage.BackToShipping | project-bolt-sb1-d3grfz67/project/src/pages/CheckoutPage.tsx:364 | the new state is `Apply` of back: the shipping step, nothing else changed |
| Checkout.CheckoutPage.PaymentSubmitDisabled | project-bolt-sb1-d3grfz67/project/src/pages/CheckoutPage.tsx:372 | on the payment step the submit button is disabled exactly when submitting is not offered, i.e. while loading |

## Left out

- The cart store (`src/contexts/CartContext.tsx`) is not part of this model. So `addToCart`, `updateQuantity`, `removeFromCart`, `clearCart` and `totalPrice` have no semantics here: pages emit requests, and the checkout's empty-cart guard takes "cart is empty" as an input.
- The product record's optional `features` and `specifications` are not modelled. No modelled operation reads them; they are display-only.
- Timing: the 1.5-second `setTimeout` of the payment is the separate action `CompletePayment`, with no clock.
- Randomness: the `Math.random` order number is not modelled.
- Navigation: `window.scrollTo`, `navigate` (home, and the redirect to the cart) and routing are not modelled. The redirect appears only as the guard `Redirects`.
- Floating-point display arithmetic is not modelled: discount percentages with `Math.round`, VAT at 15%, and `toFixed(2)`. The cart page labels its total as tax-inclusive, while checkout adds 15% on top; this is a display inconsistency and is not modelled.
- `toLowerCase` and `localeCompare` depend on Unicode tables and the locale. They are the parameters `lower` and `collation`. A collation is taken to be a ranking by integers, which is a total preorder.
- `parseInt` of the URL id is not modelled. The id arrives already parsed as `Option<int>`, and its NaN case is out of scope.
- The slider's `parseInt` of its value is not modelled either. `SetMaxPrice` takes the integer.
- Browser form validation through `required` attributes is not modelled. `HandleShippingSubmit` moves on unconditionally, as the handler does.
- ProductsPage.FormatCategoryName: the label map is a plain JavaScript object, so keys inherited from `Object.prototype` (such as `"constructor"`) would look up an inherited value instead of falling back to the category. The model treats the map as holding only its six keys.
- ProductsPage.ProductsPage: each handler re-runs the filter effect immediately. React runs it after the re-render; the state reached is the same.
- ProductsPage.ProductsPage.constructor: the page imports the shipped `Products`. Here the catalog is a parameter required to fit the slider's range, and `ShippedWithinSlider` shows that the shipped catalog does.
- ProductDetail.ProductDetailPage: `isDescriptionExpanded` toggles display only and is not modelled. The related-product cards and the discount badge are not modelled either.
- Checkout.CheckoutPage: the handlers are not restricted to the actions the rendered page offers. The invariant `Valid` is proved for offered actions, on the pure transitions (`ApplyPreservesValid`, `RunPreservesValid`).
- Presentation-only files are not modelled: the authentication page, the footer, the home page (which only calls the catalog queries), and all markup, styling and icons.
