/**
  The site header (src/components/Header.tsx): the cart icon carries a badge
  with the number of items in the cart. The count is a left fold over the
  cart lines, `cart.reduce((sum, item) => sum + item.quantity, 0)`.
 */
module Header {
  import opened Wrappers
  import opened Cart

  /**
    `Array.prototype.reduce` with the header's reducer, from the accumulator
    `acc`, left to right: it adds the sum of the quantities to its seed.
   */
  function Reduce(cart: seq<CartItem>, acc: int): (r: int)
    ensures r == acc + SumQuantities(cart)
  {
    if cart == [] then acc
    else
      SumQuantitiesFirst(cart);
      Reduce(cart[1..], acc + cart[0].quantity)
  }

  /** The sum of the quantities, defined independently of the fold, from the right. */
  function SumQuantities(cart: seq<CartItem>): int
  {
    if cart == [] then 0 else SumQuantities(cart[..|cart| - 1]) + cart[|cart| - 1].quantity
  }

  /** Summing from the right splits over a concatenation. */
  lemma {:induction false} SumQuantitiesAppend(a: seq<CartItem>, b: seq<CartItem>)
    ensures SumQuantities(a + b) == SumQuantities(a) + SumQuantities(b)
  {
    if b == [] {
      assert a + b == a;
    } else {
      assert (a + b)[..|a + b| - 1] == a + b[..|b| - 1];
      SumQuantitiesAppend(a, b[..|b| - 1]);
    }
  }

  /** Summing from the right also peels off the first line. */
  lemma SumQuantitiesFirst(cart: seq<CartItem>)
    requires cart != []
    ensures SumQuantities(cart) == cart[0].quantity + SumQuantities(cart[1..])
  {
    SumQuantitiesAppend([cart[0]], cart[1..]);
    assert [cart[0]] + cart[1..] == cart;
    assert SumQuantities([cart[0]]) == cart[0].quantity by {
      assert [cart[0]][..0] == [];
    }
  }

  /** `totalItems`: the fold from the seed 0, which is the sum of all quantities. */
  function TotalItems(cart: seq<CartItem>): (total: int)
    ensures total == SumQuantities(cart)
  {
    Reduce(cart, 0)
  }

  /** The count of an empty cart is the seed, and the count of two carts joined is the sum of their counts. */
  lemma TotalItemsAppend(a: seq<CartItem>, b: seq<CartItem>)
    ensures TotalItems([]) == 0
    ensures TotalItems(a + b) == TotalItems(a) + TotalItems(b)
  {
    SumQuantitiesAppend(a, b);
  }

  /** When every line holds at least one item, the count is at least the number of lines. */
  lemma {:induction false} TotalItemsAtLeastLines(cart: seq<CartItem>)
    requires forall i :: 0 <= i < |cart| ==> cart[i].quantity >= 1
    ensures TotalItems(cart) >= |cart|
  {
    if cart != [] {
      TotalItemsAtLeastLines(cart[..|cart| - 1]);
    }
  }

  /** The badge on the cart icon: shown, with the count, exactly when the count is positive. */
  function Badge(cart: seq<CartItem>): (shown: Option<int>)
    ensures shown.Some? <==> SumQuantities(cart) > 0
    ensures shown.Some? ==> shown.value == SumQuantities(cart)
  {
    var totalItems := TotalItems(cart);
    if totalItems > 0 then Some(totalItems) else None
  }

  /** When every line holds at least one item, the badge is shown exactly when the cart has a line. */
  lemma BadgeShownIffNonEmpty(cart: seq<CartItem>)
    requires forall i :: 0 <= i < |cart| ==> cart[i].quantity >= 1
    ensures Badge(cart).Some? <==> cart != []
  {
    TotalItemsAtLeastLines(cart);
  }
}
