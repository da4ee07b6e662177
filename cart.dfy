/**
  What the pages see of the shopping cart. The cart store itself lives in a
  context module that is not part of this model, so its operations are not
  given a meaning here: a page that calls `addToCart`, `updateQuantity`,
  `removeFromCart` or `clearCart` is modelled as emitting the matching
  `CartRequest`, and the properties are about which request, with which
  arguments, it emits.
 */
module Cart {
  import opened Catalog

  /** One cart line: a product and how many of it. */
  datatype CartItem = CartItem(product: Product, quantity: int)

  /** A call into the cart store, with its arguments. */
  datatype CartRequest =
    | AddToCart(product: Product, quantity: int)
    | UpdateQuantity(productId: int, quantity: int)
    | RemoveFromCart(productId: int)
    | ClearCart
}
