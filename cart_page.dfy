/**
  The cart page (src/pages/CartPage.tsx). Everything it shows is computed
  from the cart and the store's `totalPrice`; its buttons call into the cart
  store. A disabled button fires nothing, so a quantity button is modelled
  as the request it would send, or `None` when it is disabled.
 */
module CartPage {
  import opened Wrappers
  import opened Cart

  /** One table row: the line, its subtotal, and the requests behind its three buttons. */
  datatype Row = Row(
    item: CartItem,
    subtotal: int,
    decrement: Option<CartRequest>,
    increment: Option<CartRequest>,
    remove: CartRequest)

  /** Either the empty-cart panel alone, or the item table with the order summary. */
  datatype CartView =
    | EmptyCart
    | ItemTable(rows: seq<Row>, lineCount: int, itemsTotal: int, grandTotal: int)

  /** The minus button: one less, and disabled at a quantity of 1 or below. */
  function DecrementRequest(item: CartItem): (r: Option<CartRequest>)
    ensures r.None? <==> item.quantity <= 1
    ensures r.Some? ==> r.value == UpdateQuantity(item.product.id, item.quantity - 1) && r.value.quantity >= 1
  {
    if item.quantity <= 1 then None else Some(UpdateQuantity(item.product.id, item.quantity - 1))
  }

  /** The plus button: one more, and disabled once the quantity reaches the stock. */
  function IncrementRequest(item: CartItem): (r: Option<CartRequest>)
    ensures r.None? <==> item.quantity >= item.product.stockCount
    ensures r.Some? ==> r.value == UpdateQuantity(item.product.id, item.quantity + 1)
    ensures r.Some? ==> r.value.quantity <= item.product.stockCount
  {
    if item.quantity >= item.product.stockCount then None else Some(UpdateQuantity(item.product.id, item.quantity + 1))
  }

  /** The row for one cart line. */
  function RowOf(item: CartItem): (row: Row)
    ensures row.item == item
    ensures row.subtotal == item.product.price * item.quantity
    ensures row.remove == RemoveFromCart(item.product.id)
    ensures row.decrement == DecrementRequest(item) && row.increment == IncrementRequest(item)
  {
    Row(item, item.product.price * item.quantity, DecrementRequest(item), IncrementRequest(item), RemoveFromCart(item.product.id))
  }

  /** The rows of the table, one per cart line, in cart order. */
  function Rows(cart: seq<CartItem>): (rows: seq<Row>)
    ensures |rows| == |cart|
    ensures forall i :: 0 <= i < |cart| ==> rows[i] == RowOf(cart[i])
  {
    if cart == [] then [] else [RowOf(cart[0])] + Rows(cart[1..])
  }

  /**
    The page: the empty-cart panel when the cart has no line; otherwise one
    row per line and a summary whose count is the number of lines and whose
    grand total is the store's `totalPrice`, shipping being free.
   */
  function View(cart: seq<CartItem>, totalPrice: int): (v: CartView)
    ensures v.EmptyCart? <==> |cart| == 0
    ensures v.ItemTable? ==> |v.rows| == |cart| && forall i :: 0 <= i < |cart| ==> v.rows[i] == RowOf(cart[i])
    ensures v.ItemTable? ==> v.lineCount == |cart| && v.itemsTotal == totalPrice && v.grandTotal == totalPrice
  {
    if |cart| == 0 then EmptyCart else ItemTable(Rows(cart), |cart|, totalPrice, totalPrice)
  }
}
