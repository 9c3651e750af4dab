/**
 * The purchase receipt of the cart drawer (`generatePDF`): a title block, one
 * row per cart line with an optional discount annotation beneath it, a page
 * break whenever the cursor passes the bottom threshold, then the totals.
 *
 * The jsPDF document is modelled by the text and line commands it is given,
 * each tagged with the page it lands on; fonts and colours are left out.
 */
module Receipt {
  import opened Wrappers
  import opened Decimal
  import opened Strings
  import opened JsParseInt
  import opened Cart

  datatype Align = Left | Center | Right

  /** One drawing call on the document: `doc.text(...)` or `doc.line(...)`. */
  datatype Command =
    | Text(page: nat, x: int, y: int, text: string, align: Align)
    | Rule(page: nat, x1: int, y1: int, x2: int, y2: int)

  /** The cursor past which a new page is started, and where the cursor restarts on it. */
  const BreakY := 270
  const TopY := 20
  /** Left column of labels and right margin of amounts. */
  const LabelX := 20
  const AmountX := 190

  /** A jsPDF document: the drawing calls so far; drawing goes to the last page. */
  class PdfDoc {
    var commands: seq<Command>
    var pages: nat

    constructor ()
      ensures commands == [] && pages == 1
    {
      commands := [];
      pages := 1;
    }

    method AddText(x: int, y: int, text: string, align: Align)
      modifies this
      ensures commands == old(commands) + [Text(old(pages), x, y, text, align)]
      ensures pages == old(pages)
    {
      commands := commands + [Text(pages, x, y, text, align)];
    }

    method AddLine(x1: int, y1: int, x2: int, y2: int)
      modifies this
      ensures commands == old(commands) + [Rule(old(pages), x1, y1, x2, y2)]
      ensures pages == old(pages)
    {
      commands := commands + [Rule(pages, x1, y1, x2, y2)];
    }

    method AddPage()
      modifies this
      ensures commands == old(commands) && pages == old(pages) + 1
    {
      pages := pages + 1;
    }
  }

  // ---------------------------------------------------------------------------
  // The texts of one cart line

  function ItemText(item: CartItem): string {
    item.name + " x" + IntToString(item.quantity)
  }

  function LineAmountText(item: CartItem): string {
    "$" + FormatCents(item.price * item.quantity)
  }

  function DiscountText(item: CartItem): string {
    "  Descuento: " + IntToString(item.discount) + "%"
  }

  // ---------------------------------------------------------------------------
  // The layout, as functions of the cart lines

  /** How far the cursor moves down for one line: a row, plus the annotation if discounted. */
  function Advance(item: CartItem): int {
    if item.discount > 0 then 12 else 7
  }

  predicate BreaksAfter(y: int, item: CartItem) {
    y + Advance(item) > BreakY
  }

  function NextCursor(y: int, item: CartItem): int {
    if BreaksAfter(y, item) then TopY else y + Advance(item)
  }

  /** The cursor once `items` are laid out: where the next row goes. */
  function Cursor(items: seq<CartItem>): int {
    if items == [] then 60 else NextCursor(Cursor(items[..|items| - 1]), items[|items| - 1])
  }

  /** The number of pages added while laying out `items`. */
  function BreakCount(items: seq<CartItem>): nat {
    if items == [] then 0
    else
      var init := items[..|items| - 1];
      BreakCount(init) + (if BreaksAfter(Cursor(init), items[|items| - 1]) then 1 else 0)
  }

  /** The page in use once `items` are laid out (pages are numbered from 1). */
  function Page(items: seq<CartItem>): nat {
    1 + BreakCount(items)
  }

  function DiscountedCount(items: seq<CartItem>): nat {
    if items == [] then 0
    else DiscountedCount(items[..|items| - 1]) + (if items[|items| - 1].discount > 0 then 1 else 0)
  }

  function Header(date: string): seq<Command> {
    [ Text(1, 105, 20, "NEON PET STORE", Center),
      Text(1, 105, 30, "Resumen de Compra", Center),
      Text(1, 105, 37, "Fecha: " + date, Center),
      Text(1, LabelX, 50, "Productos:", Left) ]
  }

  function ItemBlock(item: CartItem, page: nat, y: int): seq<Command> {
    [ Text(page, LabelX, y, ItemText(item), Left),
      Text(page, AmountX, y, LineAmountText(item), Right) ]
    + (if item.discount > 0 then [Text(page, LabelX, y + 5, DiscountText(item), Left)] else [])
  }

  function ItemsLayout(items: seq<CartItem>): seq<Command> {
    if items == [] then []
    else
      var init := items[..|items| - 1];
      ItemsLayout(init) + ItemBlock(items[|items| - 1], Page(init), Cursor(init))
  }

  /** The row of the grand total, for a cursor `y` left by the items. */
  function TotalRowY(y: int, totalDiscount: int): int {
    y + 22 + (if totalDiscount > 0 then 7 else 0)
  }

  function TotalsBlock(page: nat, y: int, subtotal: int, totalDiscount: int, total: int): seq<Command> {
    [ Rule(page, LabelX, y + 5, AmountX, y + 5),
      Text(page, LabelX, y + 15, "Subtotal:", Left),
      Text(page, AmountX, y + 15, "$" + FormatCents(subtotal), Right) ]
    + (if totalDiscount > 0 then
        [ Text(page, LabelX, y + 22, "Descuento Total:", Left),
          Text(page, AmountX, y + 22, "-$" + FormatCents(totalDiscount), Right) ]
      else [])
    + [ Text(page, LabelX, TotalRowY(y, totalDiscount), "TOTAL:", Left),
        Text(page, AmountX, TotalRowY(y, totalDiscount), "$" + FormatCents(total), Right) ]
  }

  /** Every drawing call of the receipt, in order. */
  function ReceiptLayout(items: seq<CartItem>, date: string, subtotal: int, totalDiscount: int, total: int): seq<Command> {
    Header(date) + ItemsLayout(items) + TotalsBlock(Page(items), Cursor(items), subtotal, totalDiscount, total)
  }

  /** The saved file's name, for the millisecond clock reading `now`. */
  function ReceiptFileName(now: nat): string {
    "neon-pet-compra-" + NatToString(now) + ".pdf"
  }

  /** Laying out one more line extends the layout, the cursor and the page count of the shorter cart. */
  lemma LayoutStep(items: seq<CartItem>, i: nat)
    requires i < |items|
    ensures var pre := items[..i]; var next := items[..i + 1];
      && ItemsLayout(next) == ItemsLayout(pre) + ItemBlock(items[i], Page(pre), Cursor(pre))
      && Cursor(next) == NextCursor(Cursor(pre), items[i])
      && Page(next) == Page(pre) + (if BreaksAfter(Cursor(pre), items[i]) then 1 else 0)
      && DiscountedCount(next) == DiscountedCount(pre) + (if items[i].discount > 0 then 1 else 0)
  {
    assert items[..i + 1][..i] == items[..i];
  }

  // ---------------------------------------------------------------------------
  // Properties of the layout

  /** Index in the receipt of the row of the `k`-th cart line. */
  function RowIndex(items: seq<CartItem>, k: nat): nat
    requires k <= |items|
  {
    4 + 2 * k + DiscountedCount(items[..k])
  }

  /** Predicate for a text drawn in the label column 5 below the row at `y` on page `page`. */
  predicate DrawnBeneath(c: Command, page: nat, y: int) {
    c.Text? && c.page == page && c.x == LabelX && c.y == y + 5
  }

  /** Invariant of the cursor: it never leaves the band between the top margin and the threshold. */
  lemma {:induction false} CursorWithinPage(items: seq<CartItem>)
    ensures TopY <= Cursor(items) <= BreakY
  {
    if items != [] {
      CursorWithinPage(items[..|items| - 1]);
    }
  }

  lemma {:induction false} LayoutLength(items: seq<CartItem>)
    ensures |ItemsLayout(items)| == 2 * |items| + DiscountedCount(items)
  {
    if items != [] {
      LayoutLength(items[..|items| - 1]);
    }
  }

  /** The layout of a shorter cart is a prefix of the layout of the whole cart. */
  lemma {:induction false} LayoutPrefix(items: seq<CartItem>, j: nat)
    requires j <= |items|
    ensures |ItemsLayout(items[..j])| <= |ItemsLayout(items)|
    ensures ItemsLayout(items)[..|ItemsLayout(items[..j])|] == ItemsLayout(items[..j])
    decreases |items|
  {
    if j == |items| {
      assert items[..j] == items;
    } else {
      var init := items[..|items| - 1];
      assert init[..j] == items[..j];
      LayoutPrefix(init, j);
    }
  }

  /**
   * The page-break rule: a page is added after a line exactly when the
   * cursor past it would exceed the threshold, and exactly when the cursor
   * is reset to the top; otherwise the cursor moves down by 12 for a
   * discounted line and by 7 for any other.
   */
  lemma PageBreakRule(items: seq<CartItem>, k: nat)
    requires k < |items|
    ensures var pre := items[..k]; var next := items[..k + 1];
      && (Page(next) == Page(pre) + 1 <==> Cursor(pre) + Advance(items[k]) > BreakY)
      && (Page(next) == Page(pre) + 1 <==> Cursor(next) == TopY)
      && (Page(next) != Page(pre) + 1 ==> Page(next) == Page(pre))
      && (Page(next) == Page(pre) && items[k].discount > 0 ==> Cursor(next) == Cursor(pre) + 12)
      && (Page(next) == Page(pre) && items[k].discount <= 0 ==> Cursor(next) == Cursor(pre) + 7)
  {
    LayoutStep(items, k);
    CursorWithinPage(items[..k]);
  }

  lemma IndexInMiddle<T>(a: seq<T>, b: seq<T>, c: seq<T>, j: nat)
    requires j < |b|
    ensures |a + b + c| == |a| + |b| + |c| && (a + b + c)[|a| + j] == b[j]
  {
  }

  /** The commands of the `k`-th line's block follow the layout of the lines before it. */
  lemma BlockInLayout(items: seq<CartItem>, k: nat, m: nat)
    requires k < |items|
    requires m < |ItemBlock(items[k], Page(items[..k]), Cursor(items[..k]))|
    ensures |ItemsLayout(items[..k])| == 2 * k + DiscountedCount(items[..k])
    ensures |ItemsLayout(items[..k])| + m < |ItemsLayout(items)|
    ensures ItemsLayout(items)[|ItemsLayout(items[..k])| + m] == ItemBlock(items[k], Page(items[..k]), Cursor(items[..k]))[m]
  {
    LayoutStep(items, k);
    LayoutLength(items[..k]);
    BlockAfterPrefix(items, k, m);
  }

  /** The layout of all lines extends the layout of the first `k + 1`, so the `k`-th block reads the same in both. */
  lemma BlockAfterPrefix(items: seq<CartItem>, k: nat, m: nat)
    requires k < |items|
    requires m < |ItemBlock(items[k], Page(items[..k]), Cursor(items[..k]))|
    requires ItemsLayout(items[..k + 1]) == ItemsLayout(items[..k]) + ItemBlock(items[k], Page(items[..k]), Cursor(items[..k]))
    ensures |ItemsLayout(items[..k])| + m < |ItemsLayout(items)|
    ensures ItemsLayout(items)[|ItemsLayout(items[..k])| + m] == ItemBlock(items[k], Page(items[..k]), Cursor(items[..k]))[m]
  {
    LayoutPrefix(items, k + 1);
    IndexInPrefix(ItemsLayout(items), ItemsLayout(items[..k]), ItemBlock(items[k], Page(items[..k]), Cursor(items[..k])), m);
  }

  lemma IndexInPrefix<T>(whole: seq<T>, a: seq<T>, b: seq<T>, m: nat)
    requires |a + b| <= |whole| && whole[..|a + b|] == a + b && m < |b|
    ensures |a| + m < |whole| && whole[|a| + m] == b[m]
  {
    assert whole[|a| + m] == whole[..|a + b|][|a| + m];
  }

  /** The commands of the `k`-th line's block sit in the receipt right from its row index. */
  lemma BlockInReceipt(items: seq<CartItem>, date: string, subtotal: int, totalDiscount: int, total: int, k: nat, m: nat)
    requires k < |items|
    requires m < |ItemBlock(items[k], Page(items[..k]), Cursor(items[..k]))|
    ensures var L := ReceiptLayout(items, date, subtotal, totalDiscount, total);
      RowIndex(items, k) + m < |L| && L[RowIndex(items, k) + m] == ItemBlock(items[k], Page(items[..k]), Cursor(items[..k]))[m]
  {
    BlockInLayout(items, k, m);
    var head := Header(date);
    var totals := TotalsBlock(Page(items), Cursor(items), subtotal, totalDiscount, total);
    assert |head| == 4;
    IndexInMiddle(head, ItemsLayout(items), totals, |ItemsLayout(items[..k])| + m);
  }

  /**
   * Lines are drawn in cart order: the `k`-th line's name and quantity at the
   * label column and its amount right-aligned at the margin, both at the
   * cursor, which is 60 for the first line and always within the page band;
   * its discount annotation, when it has one, follows 5 below; the next
   * line's row comes right after.
   */
  lemma ItemRowAt(items: seq<CartItem>, date: string, subtotal: int, totalDiscount: int, total: int, k: nat)
    requires k < |items|
    ensures var L := ReceiptLayout(items, date, subtotal, totalDiscount, total);
      var i := RowIndex(items, k); var p := Page(items[..k]); var y := Cursor(items[..k]);
      && i + 1 < |L|
      && L[i] == Text(p, LabelX, y, ItemText(items[k]), Left)
      && L[i + 1] == Text(p, AmountX, y, LineAmountText(items[k]), Right)
      && (items[k].discount > 0 ==> i + 2 < |L| && L[i + 2] == Text(p, LabelX, y + 5, DiscountText(items[k]), Left))
      && RowIndex(items, k + 1) == i + (if items[k].discount > 0 then 3 else 2)
      && TopY <= y <= BreakY
      && (k == 0 ==> i == |Header(date)| && y == 60 && p == 1)
  {
    RowOfLine(items, date, subtotal, totalDiscount, total, k);
    AmountOfLine(items, date, subtotal, totalDiscount, total, k);
    if items[k].discount > 0 {
      AnnotationOfLine(items, date, subtotal, totalDiscount, total, k);
    }
    RowIndexStep(items, k);
    CursorWithinPage(items[..k]);
    if k == 0 {
      assert items[..k] == [];
    }
  }

  /**
   * The totals block closes the receipt, right after the last line's block,
   * on the page of the last line and from the cursor it left.
   */
  lemma TotalsInReceipt(items: seq<CartItem>, date: string, subtotal: int, totalDiscount: int, total: int)
    ensures var L := ReceiptLayout(items, date, subtotal, totalDiscount, total);
      var T := TotalsBlock(Page(items), Cursor(items), subtotal, totalDiscount, total);
      var t := RowIndex(items, |items|);
      |L| == t + |T| && L[t..] == T && forall j :: 0 <= j < |T| ==> L[t + j] == T[j]
  {
    LayoutLength(items);
    assert items[..|items|] == items;
    var head := Header(date);
    assert |head| == 4;
    var L := ReceiptLayout(items, date, subtotal, totalDiscount, total);
    var T := TotalsBlock(Page(items), Cursor(items), subtotal, totalDiscount, total);
    var P := head + ItemsLayout(items);
    assert L == P + T;
    assert |P| == RowIndex(items, |items|);
  }

  /**
   * The totals block, all on one page with no page-break check: the
   * separator 5 below the cursor, the subtotal 10 below the separator, the
   * total discount 7 lower only when it is positive, and the grand total 7
   * below whichever row precedes it.
   */
  lemma TotalsBlockShape(p: nat, y: int, subtotal: int, totalDiscount: int, total: int)
    ensures var T := TotalsBlock(p, y, subtotal, totalDiscount, total); var n := |T|;
      && n == (if totalDiscount > 0 then 7 else 5)
      && T[0] == Rule(p, LabelX, y + 5, AmountX, y + 5)
      && T[1] == Text(p, LabelX, T[0].y1 + 10, "Subtotal:", Left)
      && T[2] == Text(p, AmountX, T[0].y1 + 10, "$" + FormatCents(subtotal), Right)
      && (totalDiscount > 0 ==>
            && T[3] == Text(p, LabelX, T[2].y + 7, "Descuento Total:", Left)
            && T[4] == Text(p, AmountX, T[2].y + 7, "-$" + FormatCents(totalDiscount), Right))
      && T[n - 3].Text?
      && T[n - 2] == Text(p, LabelX, T[n - 3].y + 7, "TOTAL:", Left)
      && T[n - 1] == Text(p, AmountX, T[n - 3].y + 7, "$" + FormatCents(total), Right)
  {
  }

  /** The amounts printed in the totals block: subtotal, optional total discount, and grand total last. */
  lemma TotalsAmounts(items: seq<CartItem>, date: string, subtotal: int, totalDiscount: int, total: int)
    ensures var L := ReceiptLayout(items, date, subtotal, totalDiscount, total);
      var t := RowIndex(items, |items|);
      && t + 4 < |L| && L[t + 2].Text? && L[|L| - 1].Text?
      && L[t + 2].text == "$" + FormatCents(subtotal)
      && L[|L| - 1].text == "$" + FormatCents(total)
      && (totalDiscount > 0 ==> L[t + 4].Text? && L[t + 4].text == "-$" + FormatCents(totalDiscount))
  {
    var L := ReceiptLayout(items, date, subtotal, totalDiscount, total);
    var T := TotalsBlock(Page(items), Cursor(items), subtotal, totalDiscount, total);
    var t := RowIndex(items, |items|);
    TotalsInReceipt(items, date, subtotal, totalDiscount, total);
    TotalsBlockShape(Page(items), Cursor(items), subtotal, totalDiscount, total);
    assert L[t + 2] == T[2];
    assert L[|L| - 1] == T[|T| - 1];
    if totalDiscount > 0 {
      assert L[t + 4] == T[4];
    }
  }

  /** The row of the `k`-th line: its name and quantity, at the cursor on the page in use. */
  lemma RowOfLine(items: seq<CartItem>, date: string, subtotal: int, totalDiscount: int, total: int, k: nat)
    requires k < |items|
    ensures var L := ReceiptLayout(items, date, subtotal, totalDiscount, total);
      RowIndex(items, k) < |L| && L[RowIndex(items, k)] == Text(Page(items[..k]), LabelX, Cursor(items[..k]), ItemText(items[k]), Left)
  {
    BlockInReceipt(items, date, subtotal, totalDiscount, total, k, 0);
  }

  /** The amount of the `k`-th line, right-aligned beside its row. */
  lemma AmountOfLine(items: seq<CartItem>, date: string, subtotal: int, totalDiscount: int, total: int, k: nat)
    requires k < |items|
    ensures var L := ReceiptLayout(items, date, subtotal, totalDiscount, total);
      RowIndex(items, k) + 1 < |L| && L[RowIndex(items, k) + 1] == Text(Page(items[..k]), AmountX, Cursor(items[..k]), LineAmountText(items[k]), Right)
  {
    BlockInReceipt(items, date, subtotal, totalDiscount, total, k, 1);
  }

  /** The discount annotation of a discounted `k`-th line, 5 below its row. */
  lemma AnnotationOfLine(items: seq<CartItem>, date: string, subtotal: int, totalDiscount: int, total: int, k: nat)
    requires k < |items| && items[k].discount > 0
    ensures var L := ReceiptLayout(items, date, subtotal, totalDiscount, total);
      RowIndex(items, k) + 2 < |L| && L[RowIndex(items, k) + 2] == Text(Page(items[..k]), LabelX, Cursor(items[..k]) + 5, DiscountText(items[k]), Left)
  {
    BlockInReceipt(items, date, subtotal, totalDiscount, total, k, 2);
  }

  /** A line's block takes three commands when it is discounted and two otherwise. */
  lemma RowIndexStep(items: seq<CartItem>, k: nat)
    requires k < |items|
    ensures RowIndex(items, k + 1) == RowIndex(items, k) + (if items[k].discount > 0 then 3 else 2)
  {
    LayoutStep(items, k);
  }

  /** An undiscounted line is followed by the next line's row, which is not 5 below it. */
  lemma NextRowNotBeneath(items: seq<CartItem>, date: string, subtotal: int, totalDiscount: int, total: int, k: nat)
    requires k + 1 < |items| && items[k].discount <= 0
    ensures var L := ReceiptLayout(items, date, subtotal, totalDiscount, total);
      var i := RowIndex(items, k);
      i + 2 < |L| && !DrawnBeneath(L[i + 2], Page(items[..k]), Cursor(items[..k]))
  {
    RowIndexStep(items, k);
    RowOfLine(items, date, subtotal, totalDiscount, total, k + 1);
    PageBreakRule(items, k);
    CursorWithinPage(items[..k]);
  }

  /** The last line, when undiscounted, is followed by the separator rule. */
  lemma SeparatorAfterLastRow(items: seq<CartItem>, date: string, subtotal: int, totalDiscount: int, total: int)
    requires |items| > 0 && items[|items| - 1].discount <= 0
    ensures var L := ReceiptLayout(items, date, subtotal, totalDiscount, total);
      var i := RowIndex(items, |items| - 1);
      i + 2 < |L| && L[i + 2].Rule?
  {
    var k := |items| - 1;
    RowIndexStep(items, k);
    assert items[..k + 1] == items;
    TotalsInReceipt(items, date, subtotal, totalDiscount, total);
  }

  /**
   * The command after a line's amount is drawn 5 below its row exactly when
   * the line is discounted: otherwise it is the next line's row, at a
   * different height, or the separator.
   */
  lemma AnnotationIffDiscount(items: seq<CartItem>, date: string, subtotal: int, totalDiscount: int, total: int, k: nat)
    requires k < |items|
    ensures var L := ReceiptLayout(items, date, subtotal, totalDiscount, total);
      var i := RowIndex(items, k);
      i + 2 < |L| && (DrawnBeneath(L[i + 2], Page(items[..k]), Cursor(items[..k])) <==> items[k].discount > 0)
  {
    ItemRowAt(items, date, subtotal, totalDiscount, total, k);
    if items[k].discount <= 0 {
      if k + 1 < |items| {
        NextRowNotBeneath(items, date, subtotal, totalDiscount, total, k);
      } else {
        SeparatorAfterLastRow(items, date, subtotal, totalDiscount, total);
      }
    }
  }

  /** The grand total lands between 42 and 299: the totals are never moved to a new page. */
  lemma TotalRowBounds(items: seq<CartItem>, totalDiscount: int)
    ensures 42 <= TotalRowY(Cursor(items), totalDiscount) <= 299
  {
    CursorWithinPage(items);
  }

  /** Up to 30 lines without discount fit on the first page, 7 apart from 60. */
  lemma {:induction false} UndiscountedCursor(items: seq<CartItem>)
    requires |items| <= 30
    requires forall j :: 0 <= j < |items| ==> items[j].discount <= 0
    ensures Cursor(items) == 60 + 7 * |items| && Page(items) == 1
  {
    if items != [] {
      UndiscountedCursor(items[..|items| - 1]);
    }
  }

  /**
   * With 30 undiscounted lines and a positive total discount the grand total
   * is drawn at 299, past the 297 mm height of the A4 page jsPDF uses by
   * default, because the totals get no page-break check.
   */
  lemma TotalRowPastPageBottom(items: seq<CartItem>, totalDiscount: int)
    requires |items| == 30 && totalDiscount > 0
    requires forall j :: 0 <= j < |items| ==> items[j].discount <= 0
    ensures TotalRowY(Cursor(items), totalDiscount) == 299 > 297
  {
    UndiscountedCursor(items);
  }

  /** The file name is `neon-pet-compra-<clock>.pdf`, and its middle reads back as the clock value. */
  lemma ReceiptFileNameShape(now: nat)
    ensures var f := ReceiptFileName(now);
      && StartsWith(f, "neon-pet-compra-") && EndsWith(f, ".pdf")
      && |f| >= 21 && ParseInt(f[16..|f| - 4]) == Some(now)
  {
    var prefix, digits, suffix := "neon-pet-compra-", NatToString(now), ".pdf";
    var f := prefix + digits + suffix;
    assert f == ReceiptFileName(now);
    assert |prefix| == 16 && |suffix| == 4;
    assert f[..16] == prefix;
    assert f[|f| - 4..] == suffix;
    assert f[16..|f| - 4] == digits;
    ParseIntReadsInteger(now, []);
    assert IntToString(now) + [] == digits;
  }

  // ---------------------------------------------------------------------------
  // The generator

  /**
   * The `items.forEach` callback: draws one line at the cursor `y` and returns
   * the cursor for the next one, starting a page when it passes the threshold.
   */
  method LayOutItem(doc: PdfDoc, item: CartItem, y: int) returns (yNext: int)
    modifies doc
    ensures doc.commands == old(doc.commands) + ItemBlock(item, old(doc.pages), y)
    ensures doc.pages == old(doc.pages) + (if BreaksAfter(y, item) then 1 else 0)
    ensures yNext == NextCursor(y, item)
  {
    var yPos := y;
    doc.AddText(LabelX, yPos, ItemText(item), Left);
    doc.AddText(AmountX, yPos, LineAmountText(item), Right);
    if item.discount > 0 {
      doc.AddText(LabelX, yPos + 5, DiscountText(item), Left);
      yPos := yPos + 5;
    }
    yPos := yPos + 7;
    if yPos > BreakY {
      doc.AddPage();
      yPos := TopY;
    }
    yNext := yPos;
  }

  /** The title block; returns the cursor of the first item row. */
  method LayOutHeader(doc: PdfDoc, date: string) returns (y: int)
    requires doc.pages == 1
    modifies doc
    ensures doc.commands == old(doc.commands) + Header(date)
    ensures doc.pages == 1 && y == 60
  {
    doc.AddText(105, 20, "NEON PET STORE", Center);
    doc.AddText(105, 30, "Resumen de Compra", Center);
    doc.AddText(105, 37, "Fecha: " + date, Center);

    var yPos := 50;
    doc.AddText(LabelX, yPos, "Productos:", Left);
    yPos := yPos + 10;
    y := yPos;
  }

  /** The totals block, drawn from the cursor `y` with no page-break check. */
  method LayOutTotals(doc: PdfDoc, y: int, subtotal: int, totalDiscount: int, total: int)
    modifies doc
    ensures doc.commands == old(doc.commands) + TotalsBlock(old(doc.pages), y, subtotal, totalDiscount, total)
    ensures doc.pages == old(doc.pages)
  {
    var yPos := y + 5;
    doc.AddLine(LabelX, yPos, AmountX, yPos);
    yPos := yPos + 10;

    doc.AddText(LabelX, yPos, "Subtotal:", Left);
    doc.AddText(AmountX, yPos, "$" + FormatCents(subtotal), Right);
    yPos := yPos + 7;

    if totalDiscount > 0 {
      doc.AddText(LabelX, yPos, "Descuento Total:", Left);
      doc.AddText(AmountX, yPos, "-$" + FormatCents(totalDiscount), Right);
      yPos := yPos + 7;
    }

    doc.AddText(LabelX, yPos, "TOTAL:", Left);
    doc.AddText(AmountX, yPos, "$" + FormatCents(total), Right);
  }

  /**
   * `generatePDF` with the cart lines, the three aggregates of the cart, the
   * locale date text and the clock reading as inputs. Returns the drawing
   * calls, the number of pages and the file name handed to `doc.save`.
   */
  method GenerateReceipt(items: seq<CartItem>, date: string, subtotal: int, totalDiscount: int, total: int, now: nat)
    returns (commands: seq<Command>, pages: nat, fileName: string)
    ensures commands == ReceiptLayout(items, date, subtotal, totalDiscount, total)
    ensures pages == Page(items)
    ensures fileName == ReceiptFileName(now)
  {
    var doc := new PdfDoc();
    var yPos := LayOutHeader(doc, date);
    assert items[..0] == [];

    var i := 0;
    while i < |items|
      invariant 0 <= i <= |items|
      invariant doc.commands == Header(date) + ItemsLayout(items[..i])
      invariant yPos == Cursor(items[..i])
      invariant doc.pages == Page(items[..i])
    {
      ghost var pre := items[..i];
      LayoutStep(items, i);
      yPos := LayOutItem(doc, items[i], yPos);
      ConcatAssoc(Header(date), ItemsLayout(pre), ItemBlock(items[i], Page(pre), Cursor(pre)));
      i := i + 1;
    }
    assert items[..i] == items;

    LayOutTotals(doc, yPos, subtotal, totalDiscount, total);
    commands, pages := doc.commands, doc.pages;
    fileName := ReceiptFileName(now);
  }
}
