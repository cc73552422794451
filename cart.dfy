/**
 * Carts and their lines. A member has at most one cart, created the first
 * time something is added; a line holds one item and a desired count.
 * `Cart.createCart` is `entity/Cart.java:25-29`; the `CartItem` entity is not part
 * of this model beyond the fields and the two count updates the services use.
 */
module Carts {
  import opened Common

  /** A row of the cart table. */
  datatype Cart = Cart(id: int, memberId: int)

  /**
   * A row of the cart line table. `regTime` is the audit creation time,
   * used only as the ordering key of the cart page.
   */
  datatype CartItem = CartItem(id: int, cartId: int, itemId: int, count: Int32, regTime: int)

  /** `CartItem.addCount`: `count += n` on a Java `int`. */
  function AddCount(line: CartItem, n: Int32): (r: CartItem)
    ensures r.count == Add32(line.count, n)
    ensures r.(count := line.count) == line
  {
    line.(count := Add32(line.count, n))
  }

  /** `CartItem.updateCount`: the count is replaced. */
  function UpdateCount(line: CartItem, n: Int32): (r: CartItem)
    ensures r.count == n
    ensures r.(count := line.count) == line
  {
    line.(count := n)
  }

  /** One row of the cart page: line id, item name, current price, count, image. */
  datatype CartDetail = CartDetail(cartItemId: int, itemNm: string, price: Int32, count: Int32, imgUrl: string)
}
