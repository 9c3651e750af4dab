/**
 * What the cart drawer shows for the cart lines and aggregates: the empty-cart
 * message, or one panel per line with its price and quantity buttons, then
 * the subtotal, the total discount when there is one, and the total.
 */
module CartDrawer {
  import opened Wrappers
  import opened Decimal
  import opened Cart
  import Receipt

  /** What a button of a line asks the cart store to do. */
  datatype CartRequest = UpdateQuantity(id: string, quantity: int) | RemoveItem(id: string)

  /** The price area of a line: the charged price alone, or struck-through list price, charged price and tag. */
  datatype PriceView = Plain(price: string) | Discounted(original: string, price: string, tag: string)

  datatype LineView = LineView(
    name: string,
    image: Option<string>,
    price: PriceView,
    quantity: int,
    minus: CartRequest,
    plus: CartRequest,
    remove: CartRequest)

  datatype DrawerView =
    | EmptyCart(message: string)
    | Filled(lines: seq<LineView>, subtotal: string, discount: Option<string>, total: string)

  function PriceViewOf(item: CartItem): PriceView {
    if item.discount > 0 then
      Discounted("$" + FormatCents(item.originalPrice), "$" + FormatCents(item.price), "-" + IntToString(item.discount) + "%")
    else
      Plain("$" + FormatCents(item.price))
  }

  function LineViewOf(item: CartItem): LineView {
    LineView(
      item.name,
      if item.imageUrl.Some? && item.imageUrl.value != "" then item.imageUrl else None,
      PriceViewOf(item),
      item.quantity,
      UpdateQuantity(item.id, item.quantity - 1),
      UpdateQuantity(item.id, item.quantity + 1),
      RemoveItem(item.id))
  }

  function Drawer(items: seq<CartItem>, subtotal: int, totalDiscount: int, total: int): DrawerView {
    if |items| == 0 then EmptyCart("Tu carrito está vacío")
    else
      Filled(
        seq(|items|, k requires 0 <= k < |items| => LineViewOf(items[k])),
        "$" + FormatCents(subtotal),
        if totalDiscount > 0 then Some("-$" + FormatCents(totalDiscount)) else None,
        "$" + FormatCents(total))
  }

  /** The empty-cart message shows exactly when there are no lines. */
  lemma EmptyIffNoItems(items: seq<CartItem>, subtotal: int, totalDiscount: int, total: int)
    ensures Drawer(items, subtotal, totalDiscount, total).EmptyCart? <==> |items| == 0
    ensures !Drawer(items, subtotal, totalDiscount, total).EmptyCart? ==>
      (Drawer(items, subtotal, totalDiscount, total).discount.Some? <==> totalDiscount > 0)
  {
  }

  /**
   * The `k`-th panel belongs to the `k`-th line: minus and plus ask for one
   * less and one more of that line, the bin removes it, and the struck-through
   * list price with the `-d%` tag appears exactly when the line is discounted.
   */
  lemma LinePanel(items: seq<CartItem>, subtotal: int, totalDiscount: int, total: int, k: nat)
    requires k < |items|
    ensures var d := Drawer(items, subtotal, totalDiscount, total);
      && d.Filled? && |d.lines| == |items|
      && d.lines[k].minus == UpdateQuantity(items[k].id, items[k].quantity - 1)
      && d.lines[k].plus == UpdateQuantity(items[k].id, items[k].quantity + 1)
      && d.lines[k].remove == RemoveItem(items[k].id)
      && (d.lines[k].price.Discounted? <==> items[k].discount > 0)
      && (d.lines[k].price.Discounted? ==>
            && ParseCents(d.lines[k].price.original[1..]) == Some(items[k].originalPrice)
            && ParseCents(d.lines[k].price.price[1..]) == Some(items[k].price))
      && (d.lines[k].price.Plain? ==> ParseCents(d.lines[k].price.price[1..]) == Some(items[k].price))
  {
    var p := PriceViewOf(items[k]);
    FormatCentsRoundTrip(items[k].originalPrice);
    FormatCentsRoundTrip(items[k].price);
    if items[k].discount > 0 {
      assert p.original[1..] == FormatCents(items[k].originalPrice);
      assert p.price[1..] == FormatCents(items[k].price);
    } else {
      assert p.price[1..] == FormatCents(items[k].price);
    }
  }

  /** The drawer and the receipt show the same subtotal and total amounts. */
  lemma DrawerAgreesWithReceipt(items: seq<CartItem>, date: string, subtotal: int, totalDiscount: int, total: int)
    requires |items| > 0
    ensures var d := Drawer(items, subtotal, totalDiscount, total);
      var L := Receipt.ReceiptLayout(items, date, subtotal, totalDiscount, total);
      var t := Receipt.RowIndex(items, |items|);
      && d.Filled? && t + 4 < |L| && L[t + 2].Text? && L[|L| - 1].Text?
      && L[t + 2].text == d.subtotal
      && L[|L| - 1].text == d.total
      && (d.discount.Some? ==> L[t + 4].Text? && L[t + 4].text == d.discount.value)
  {
    Receipt.TotalsAmounts(items, date, subtotal, totalDiscount, total);
  }
}

