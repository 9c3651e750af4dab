# Neon Pet Store: receipt, admin form and image paths, in Dafny

This project models three pieces of logic from the storefront's front end, and proves properties about them.

- **The purchase receipt** (`generatePDF` of the cart drawer). A title block comes first. Then there is one row per cart line, with the line's name and quantity on the left and its amount on the right. A discounted line gets an annotation 5 below its row. The vertical cursor moves down 12 for a discounted line and 7 for any other. A new page starts when the cursor passes 270, and the cursor then restarts at 20. The totals block follows: a separator, the subtotal, the total discount when it is positive, and the grand total. The file is named `neon-pet-compra-<clock>.pdf`.
  - The document is a class, `Receipt.PdfDoc`. Its fields are the drawing calls made so far and the page count, and its methods append to them.
  - `Receipt.GenerateReceipt` runs the cursor loop on that document. It is proved equal to the specification function `Receipt.ReceiptLayout`, and the layout properties are lemmas about that function.
- **The cart drawer's display rules.** The empty-cart message, the price area of each line with the struck-through list price and the `-d%` tag, the requests sent by the minus, plus and bin buttons, and the totals.
- **The administration page.** This covers:
  - the new-product form's validation and the record it inserts (`handleSubmit`), including `parseInt(...) || 0` and `value || null`;
  - `is_active` forced to true;
  - the reset after a successful insert, as the class `Admin.AdminPanel`;
  - the product list's badge, offer tag and offer-date line.
- **The image uploader's string rules.** These are:
  - the file extension (`split('.').pop()`);
  - the storage path `productId/token.ext`;
  - the display order of a new image;
  - the `image/` type check that guards an upload;
  - recovering the storage path from a public URL when an image is deleted (`split('/product-images/')[1]`).

How the source's values are represented:
- **Money** is an integer number of cents. `amount.toFixed(2)` is `Decimal.FormatCents`, which is exact. Its partner `Decimal.ParseCents` reads the text back.
- **`parseInt`** is ECMAScript `parseInt` with no radix (section 19.2.5 of ECMA-262), in `JsParseInt.ParseInt`. It returns None for NaN. It skips leading WhiteSpace and LineTerminator characters, reads an optional sign, picks radix 16 after a `0x`/`0X` prefix and radix 10 otherwise, and reads the longest run of digits of that radix.
- **JavaScript `split`** with a non-empty separator is `Strings.Split`.

The clock, the locale and the random number generator become inputs:
- `Date.now()` is the `now` parameter of `Receipt.GenerateReceipt`.
- `new Date().toLocaleDateString()` is its `date` parameter. In the product list it is the function parameter `localDate`.
- The printed `Math.random()` is the `token` parameter of `ImageUploader.StoragePath`.
- Whether the Supabase insert succeeds is the `insertSucceeds` parameter of `Admin.AdminPanel.Submit`.
- The `display_order` rows returned by the query are the `rows` parameter of `ImageUploader.NextOrderAfterAll`.
- The cart's aggregates (`getSubtotal`, `getTotalDiscount`, `getTotal`) are parameters too, because the cart store is not part of this model.

Two details of the code are kept as written:
- A line is annotated only when `discount > 0`, so a negative discount draws no annotation (src/components/CartDrawer.tsx:45).
- The minus button on a line of quantity 1 requests quantity 0 (src/components/CartDrawer.tsx:140). Removing the line is the cart store's job.

## Model

| member | source | states |
|---|---|---|
| Receipt.PdfDoc.constructor | src/components/CartDrawer.tsx:18 | a new document has no drawing calls and one page |
| Receipt.PdfDoc.AddText | src/components/CartDrawer.tsx:23 | one text call is appended, tagged with the current page; the page count is unchanged |
| Receipt.PdfDoc.AddLine | src/components/CartDrawer.tsx:61 | one line call is appended on the current page; the page count is unchanged |
| Receipt.PdfDoc.AddPage | src/components/CartDrawer.tsx:55 | the page count grows by one and no call is drawn |
| Receipt.ItemText | src/components/CartDrawer.tsx:39 | the row text `name x<quantity>`; where it is drawn is `RowOfLine` |
| Receipt.LineAmountText | src/components/CartDrawer.tsx:40 | `$` and the two-decimal price times quantity; where it is drawn is `AmountOfLine` |
| Receipt.DiscountText | src/components/CartDrawer.tsx:47 | the annotation `  Descuento: d%`; where it is drawn is `AnnotationOfLine` |
| Receipt.LayOutHeader | src/components/CartDrawer.tsx:20-35 | appends the title, subtitle, date line and "Productos:" of page 1, and leaves the cursor at 60 |
| Receipt.LayOutItem | src/components/CartDrawer.tsx:38-57 | appends the line's block; adds a page exactly when the cursor passes 270; returns the next cursor |
| Receipt.LayOutTotals | src/components/CartDrawer.tsx:60-81 | appends the totals block from the cursor on the current page, with no page-break check |
| Receipt.ReceiptLayout | src/components/CartDrawer.tsx:17-81 | the drawing calls of `generatePDF`: header, one block per line, totals; its properties are `LayoutStep`, `ItemRowAt`, `AnnotationIffDiscount` and `TotalsInReceipt` |
| Receipt.ReceiptFileName | src/components/CartDrawer.tsx:83 | the name passed to `doc.save`; its shape is `ReceiptFileNameShape` |
| Receipt.GenerateReceipt | src/components/CartDrawer.tsx:17-89 | draws exactly the layout `ReceiptLayout` of the lines and aggregates, ends on page `Page(items)`, and names the file `ReceiptFileName(now)` |
| Receipt.LayoutStep | src/components/CartDrawer.tsx:38-57 | one more line extends the layout by its block, moves the cursor by the page-break rule, and adds a page exactly on a break |
| Receipt.CursorWithinPage | src/components/CartDrawer.tsx:30-57 | the cursor always stays between 20 and 270 |
| Receipt.LayoutLength | src/components/CartDrawer.tsx:38-58 | the lines take two calls each, plus one per discounted line |
| Receipt.LayoutPrefix | src/components/CartDrawer.tsx:38-58 | the layout of the first j lines is a prefix of the whole layout, so lines are drawn in cart order |
| Receipt.PageBreakRule | src/components/CartDrawer.tsx:45-57 | a page is added after a line iff the cursor plus its advance exceeds 270, iff the cursor resets to 20; otherwise the cursor moves 12 for a discounted line and 7 for any other |
| Receipt.BlockInReceipt | src/components/CartDrawer.tsx:38-50 | the k-th line's block sits in the receipt starting at its row index |
| Receipt.RowOfLine | src/components/CartDrawer.tsx:39-42 | the k-th row draws `name x<quantity>` at x=20 at the line's cursor, on the page in use |
| Receipt.AmountOfLine | src/components/CartDrawer.tsx:40-43 | beside it, `$` and the price times the quantity are right-aligned at x=190 at the same cursor |
| Receipt.AnnotationOfLine | src/components/CartDrawer.tsx:45-50 | a discounted line gets `  Descuento: d%` at x=20, 5 below its row |
| Receipt.RowIndexStep | src/components/CartDrawer.tsx:38-50 | a line's block holds three calls when discounted and two otherwise |
| Receipt.ItemRowAt | src/components/CartDrawer.tsx:30-50 | the row, amount and optional annotation of the k-th line as above; the first row is at y=60 on page 1, and every row is within 20..270 |
| Receipt.NextRowNotBeneath | src/components/CartDrawer.tsx:45-57 | after an undiscounted line comes the next line's row, which is not 5 below it |
| Receipt.SeparatorAfterLastRow | src/components/CartDrawer.tsx:58-61 | after the last line, when undiscounted, comes the separator rule |
| Receipt.AnnotationIffDiscount | src/components/CartDrawer.tsx:45-50 | the call after a line's amount is drawn 5 below its row iff the line's discount is positive |
| Receipt.TotalsInReceipt | src/components/CartDrawer.tsx:58-81 | the totals block ends the receipt, right after the last line's block, on the last line's page and from its cursor |
| Receipt.TotalsBlockShape | src/components/CartDrawer.tsx:60-81 | separator at cursor+5; subtotal 10 below it; the `-$` discount row 7 lower only when the total discount is positive; TOTAL 7 below the preceding row |
| Receipt.TotalsAmounts | src/components/CartDrawer.tsx:66-81 | the receipt prints `$`+subtotal, `-$`+total discount when positive, and `$`+total as its last call |
| Receipt.TotalRowBounds | src/components/CartDrawer.tsx:54-81 | the grand-total row lies between 42 and 299 |
| Receipt.UndiscountedCursor | src/components/CartDrawer.tsx:38-57 | up to 30 undiscounted lines stay on page 1, 7 apart from y=60 |
| Receipt.TotalRowPastPageBottom | src/components/CartDrawer.tsx:60-81 | 30 undiscounted lines and a positive total discount put TOTAL at y=299, below the 297 mm A4 page |
| Receipt.ReceiptFileNameShape | src/components/CartDrawer.tsx:83 | the file name starts with `neon-pet-compra-`, ends with `.pdf`, and its middle reads back as the clock value |
| CartDrawer.PriceViewOf | src/components/CartDrawer.tsx:117-133 | a line's price area; what it shows is `LinePanel` |
| CartDrawer.LineViewOf | src/components/CartDrawer.tsx:106-160 | a line's panel and the requests of its buttons; stated by `LinePanel` |
| CartDrawer.Drawer | src/components/CartDrawer.tsx:99-180 | the drawer's content; stated by `EmptyIffNoItems` and `DrawerAgreesWithReceipt` |
| CartDrawer.EmptyIffNoItems | src/components/CartDrawer.tsx:99-103 | the empty-cart message shows iff there are no lines; otherwise the total-discount row shows iff the total discount is positive |
| CartDrawer.LinePanel | src/components/CartDrawer.tsx:117-160 | minus and plus request quantity-1 and quantity+1 for the line's id, the bin removes it; the list price and `-d%` tag show iff the discount is positive; the shown prices read back as the line's prices |
| CartDrawer.DrawerAgreesWithReceipt | src/components/CartDrawer.tsx:166-180 | the drawer's subtotal, discount and total texts are the ones the receipt prints |
| Decimal.NatToString | src/components/CartDrawer.tsx:39 | `String(n)` of a natural number: a non-empty run of decimal digits; read back by `DigitsValue` in `NatToStringValue`, with no leading zero by `NatToStringLeadingDigit` |
| Decimal.IntToString | src/components/CartDrawer.tsx:39-47 | `String(n)` of an integer, as for the quantity, the discount, the clock and the stock: it starts with `-` iff the integer is negative, and is all digits otherwise; read back by `ParseInt` in `ParseIntReadsInteger` |
| Decimal.NatToStringValue | src/components/CartDrawer.tsx:39 | the decimal text of a natural number reads back as that number |
| Decimal.NatToStringLeadingDigit | src/components/CartDrawer.tsx:39 | the text starts with `0` only for zero, which is "0" |
| Decimal.FormatCents | src/components/CartDrawer.tsx:40 | `toFixed(2)` of an amount in cents; read back by `ParseCents` in `FormatCentsRoundTrip` |
| Decimal.FormatCentsRoundTrip | src/components/CartDrawer.tsx:40 | the two-decimal money text of an amount reads back as that amount |
| JsParseInt.ParseInt | src/pages/Admin.tsx:158 | `parseInt` with no radix; its properties are `ParseIntReadsInteger`, `ParseIntSkipsSpace` and `ParseIntNoNumber` |
| JsParseInt.TrimStart | src/pages/Admin.tsx:158 | returns a suffix of the input; every dropped character is white space; the result does not start with white space |
| JsParseInt.DigitRunLength | src/pages/Admin.tsx:158 | the length of the longest prefix of digits of the radix: all digits, and the next character is not one |
| JsParseInt.ParseIntReadsInteger | src/pages/Admin.tsx:158 | `parseInt` reads back the decimal text of any integer, negative ones included, and ignores what follows unless it continues the number |
| JsParseInt.ParseIntSkipsSpace | src/pages/Admin.tsx:158 | leading white space does not change what `parseInt` reads |
| JsParseInt.ParseIntNoNumber | src/pages/Admin.tsx:158 | text that starts, after white space, with neither a digit nor a sign (a letter, say), or with a sign not followed by a digit, is NaN |
| Admin.MissingRequired | src/pages/Admin.tsx:144 | the required-field test; stated by `PrepareRejectsIff` |
| Admin.BuildInsert | src/pages/Admin.tsx:154-165 | the inserted record; stated by `PrepareRejectsIff` and `OfferDatesSentWhileHidden` |
| Admin.Prepare | src/pages/Admin.tsx:144-165 | the check, then the record; stated by `PrepareRejectsIff` |
| Admin.PrepareRejectsIff | src/pages/Admin.tsx:144-165 | the form is refused iff name, price or category is empty; otherwise the record is active and carries the typed name, price text and category, and the offer switch |
| Admin.EmptyForm | src/pages/Admin.tsx:174-184 | the reset form, all texts empty and the offer off; stated by `EmptyFormRejected` |
| Admin.EmptyFormRejected | src/pages/Admin.tsx:174-184 | the reset form has the offer switched off and cannot be submitted |
| Admin.NullIfEmpty | src/pages/Admin.tsx:156 | an empty text becomes null; stated by `NullIfEmptyRoundTrip` |
| Admin.NullIfEmptyRoundTrip | src/pages/Admin.tsx:156 | an optional text is null iff it is empty, and otherwise passes through unchanged |
| Admin.OfferDatesSentWhileHidden | src/pages/Admin.tsx:154-165 | description and offer dates are sent as typed whatever the offer switch says |
| Admin.IntField | src/pages/Admin.tsx:158-161 | `parseInt` of the text, with NaN and 0 both becoming 0; stated by `IntFieldReadsInteger`, `IntFieldPrefix` and `IntFieldNoNumber` |
| Admin.IntFieldReadsInteger | src/pages/Admin.tsx:158 | the decimal text of any integer, negative included, is stored as that integer |
| Admin.IntFieldPrefix | src/pages/Admin.tsx:158 | leading white space is skipped, and text after the digits is ignored unless it continues the number (another digit, or `x`/`X` after a lone `0`) |
| Admin.IntFieldNoNumber | src/pages/Admin.tsx:161 | an input becomes 0 when it is blank, when its first non-space character is neither a digit nor a sign, or when its sign is not followed by a digit |
| Admin.IntFieldNaNCases | src/pages/Admin.tsx:158-161 | "abc", "NaN" and "-abc" are stored as 0 |
| Admin.IntFieldLoneSign | src/pages/Admin.tsx:158-161 | a lone `+` or `-` is stored as 0 |
| Admin.StockRoundTrip | src/pages/Admin.tsx:158-161 | a typed stock or discount is inserted as that number, and a blank stock as 0 |
| Admin.AdminPanel.constructor | src/pages/Admin.tsx:41-51 | the page starts with the empty form and nothing sent |
| Admin.AdminPanel.Edit | src/pages/Admin.tsx:259 | an input handler replaces the form and sends nothing |
| Admin.AdminPanel.Submit | src/pages/Admin.tsx:141-184 | refused with nothing sent iff a required field is empty; otherwise the built record is sent, and the form is reset exactly when the insert succeeds; every sent record stays well-formed |
| Admin.BadgeOf | src/pages/Admin.tsx:400-411 | a product's discount badge; stated by `BadgeIff` |
| Admin.DateLineOf | src/pages/Admin.tsx:412-418 | a product's offer-date line; stated by `DateLineIff` |
| Admin.RowOf | src/pages/Admin.tsx:390-418 | one product's row: its name, the price-and-stock text (`$price`, a bar, `Stock: n`), the badge and the date line; stated by `ListViewIff`, `BadgeIff` and `DateLineIff` |
| Admin.ListViewOf | src/pages/Admin.tsx:380-418 | the product list; stated by `ListViewIff` |
| Admin.BadgeIff | src/pages/Admin.tsx:400-411 | the discount badge shows iff the discount is positive; "Oferta Activa" shows only inside it, iff the offer is on |
| Admin.DateLineIff | src/pages/Admin.tsx:412-418 | the date line shows iff the offer is on and a date is set; each part shows iff its date is set; the separator between the parts shows iff both are |
| Admin.ListViewIff | src/pages/Admin.tsx:380-398 | spinner iff loading; the empty message iff loaded with no product; otherwise one row per product in order, whose price text reads back as the price |
| Strings.Find | src/components/ProductImageUploader.tsx:171 | the index of the first occurrence of the separator, or None iff there is none |
| Strings.Split | src/components/ProductImageUploader.tsx:23 | JavaScript `split` with a non-empty separator: at least one piece; its properties are `SplitJoin`, `SplitPiecesFree` and `SplitLast` |
| Strings.SplitJoin | src/components/ProductImageUploader.tsx:23 | joining the pieces of a split with the separator gives back the string |
| Strings.SplitPiecesFree | src/components/ProductImageUploader.tsx:171 | no piece of a split holds the separator |
| Strings.SplitLast | src/components/ProductImageUploader.tsx:23 | the last piece holds no separator; it is the whole string iff there is no separator, and otherwise what follows the last one |
| ImageUploader.FileExtension | src/components/ProductImageUploader.tsx:23 | the extension holds no dot; it is the whole name when the name has no dot, and otherwise the name ends with `.` + extension |
| ImageUploader.ExtensionOfDotted | src/components/ProductImageUploader.tsx:23 | the extension of `stem.ext` is `ext` for any stem, so a trailing dot gives "" |
| ImageUploader.StoragePath | src/components/ProductImageUploader.tsx:24 | `productId/token.ext`; stated by `StoragePathShape` |
| ImageUploader.StoragePathShape | src/components/ProductImageUploader.tsx:24 | the path starts with `productId/`, ends with `.ext`, has extension `ext`, and its first `/` segment is the id when the id has no slash |
| ImageUploader.NextOrder | src/components/ProductImageUploader.tsx:46 | one more than the first row's order, or 0; stated by `NextOrderAfterAll` and `NextOrderAboveSorted` |
| ImageUploader.NextOrderAfterAll | src/components/ProductImageUploader.tsx:38-46 | the new order exceeds every existing order and is one more than the highest; it is 0 when there is none or no data |
| ImageUploader.NextOrderAboveSorted | src/components/ProductImageUploader.tsx:43-46 | for any descending response the new order exceeds every row |
| ImageUploader.HandleFileChange | src/components/ProductImageUploader.tsx:76-89 | the outcome of picking a file; stated by `UploadOnlyImages` |
| ImageUploader.IsImageType | src/components/ProductImageUploader.tsx:80 | `type.startsWith('image/')`; stated by `ImageTypeCases` and `UploadOnlyImages` |
| ImageUploader.UploadOnlyImages | src/components/ProductImageUploader.tsx:76-89 | an upload happens iff a file was chosen whose type starts with `image/`; it goes into the product's folder and keeps the file's extension |
| ImageUploader.ImageTypeCases | src/components/ProductImageUploader.tsx:80 | `image/png`, `image/jpeg` and `image/` pass; "", `image`, `application/pdf` and `Image/png` do not |
| ImageUploader.ExtractPath | src/components/ProductImageUploader.tsx:171-172 | `split('/product-images/')[1]`; stated by `ExtractPathNoneIff`, `ExtractPathSegment` and `ExtractPathRoundTrip` |
| ImageUploader.ExtractPathNoneIff | src/components/ProductImageUploader.tsx:171-172 | no path (`undefined`) iff the URL has no `/product-images/` |
| ImageUploader.ExtractPathSegment | src/components/ProductImageUploader.tsx:171-172 | the path is the text after the first delimiter, up to the next delimiter or the end, and holds none |
| ImageUploader.ExtractPathRoundTrip | src/components/ProductImageUploader.tsx:171-172 | `base + "/product-images/" + path` gives back `path` when neither part holds the delimiter and `base` does not end with `/product-images` |
| ImageUploader.ExtractPathOverlap | src/components/ProductImageUploader.tsx:171-172 | without the last condition the round trip fails: base `/product-images` and path `a.png` give `product-images/a.png` |

## Left out

- All Supabase calls: auth, table select, insert and delete, storage upload, remove and `getPublicUrl`. These are network calls into a library. Their results become parameters (`insertSucceeds`, `rows`). The format of the public URL is not modelled, so the round trip of the storage path is stated for any base text that holds no `/product-images/` and does not end with `/product-images`.
- jsPDF rendering: fonts, font sizes, colours and `doc.save`. Only the text and line calls, with their page, coordinates and alignment, are modelled. The file name is computed but not written out.
- The drawer's "Generar PDF" and "Vaciar Carrito" buttons (src/components/CartDrawer.tsx:183-199) are not part of `CartDrawer.Drawer`'s view. The first runs `generatePDF`, which is `Receipt.GenerateReceipt`; the second calls the cart store's `clearCart`, which is not part of this model.
- The toast notifications, `e.preventDefault()`, `setUploading`, React state and hooks, navigation, and `Promise.all` are left out. So is the `fetchProducts()` reload after an insert or delete.
- Floating-point money. Prices are integer cents, so this model does not capture rounding in `price * quantity` or in `toFixed`. The form's price is kept as the text handed to `parseFloat`, and `parseFloat` is not modelled.
- Decimal.FormatCents: does not model the exponent notation that `toFixed` uses for amounts of 1e21 and above.
- Decimal.IntToString: does not model the exponent notation `String(n)` uses from 1e21 on.
- JsParseInt.ParseInt: returns an exact integer. It does not model the rounding of a JavaScript number for results beyond 2^53. It also does not model the `-0` result, which `|| 0` turns into 0 anyway.
- The cart store and the discount resolver are not part of this model. The cart lines and the three aggregates are inputs. So `quantity - 1 == 0` is only the request the drawer sends; removing the line is the store's job.
- `Date.now()`, `toLocaleDateString()` and `Math.random()` are inputs. They have no semantics here.
- The gallery's `fetchImages` query, the `handleDelete` of products and the storage `remove` itself.
- A row whose `display_order` is null is not modelled. The rows are integers.
- The `isAdmin` gate of the page and the role query behind it.
