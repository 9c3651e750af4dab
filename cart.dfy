/**
 * The cart line as the drawer and the receipt read it. The cart store that
 * produces these lines, and its aggregates, are inputs here: they are not
 * part of this model.
 */
module Cart {
  import opened Wrappers

  /**
   * `price` is the unit price charged and `originalPrice` the list price, both
   * in cents; `discount` is the percentage applied when the item was added.
   */
  datatype CartItem = CartItem(
    id: string,
    name: string,
    price: int,
    originalPrice: int,
    discount: int,
    quantity: int,
    imageUrl: Option<string>)
}
