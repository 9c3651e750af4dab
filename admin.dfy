/**
 * The administration page: the new-product form, the record it inserts (or
 * its refusal when a required field is empty), the reset after a successful
 * insert, and what the product list shows for each stored product.
 */
module Admin {
  import opened Wrappers
  import opened Decimal
  import opened JsParseInt
  import opened Strings

  // ---------------------------------------------------------------------------
  // The new-product form and the record it inserts
  // ---------------------------------------------------------------------------

  /** The form's fields, as typed: every input is text except the offer switch. */
  datatype FormData = FormData(
    name: string,
    description: string,
    price: string,
    stock: string,
    categoryId: string,
    discountPercentage: string,
    offerActive: bool,
    offerStartDate: string,
    offerEndDate: string)

  /** The row sent to the products table; the price keeps the text handed to `parseFloat`. */
  datatype ProductInsert = ProductInsert(
    name: string,
    description: Option<string>,
    priceText: string,
    stock: int,
    categoryId: string,
    isActive: bool,
    discountPercentage: int,
    offerActive: bool,
    offerStartDate: Option<string>,
    offerEndDate: Option<string>)

  datatype SubmitOutcome = Rejected | InsertFailed | Inserted

  /** The form as it first appears and as it is reset after an insert. */
  function EmptyForm(): FormData {
    FormData("", "", "", "", "", "", false, "", "")
  }

  /** `value || null` on a text field: the empty text is falsy. */
  function NullIfEmpty(s: string): Option<string> {
    if s == "" then None else Some(s)
  }

  /** `parseInt(value) || 0`: NaN and 0 are falsy and both become 0. */
  function IntField(s: string): int {
    match ParseInt(s)
    case None => 0
    case Some(n) => if n == 0 then 0 else n
  }

  /** `!name || !price || !category_id`. */
  predicate MissingRequired(f: FormData) {
    f.name == "" || f.price == "" || f.categoryId == ""
  }

  function BuildInsert(f: FormData): ProductInsert {
    ProductInsert(
      f.name,
      NullIfEmpty(f.description),
      f.price,
      IntField(f.stock),
      f.categoryId,
      true,
      IntField(f.discountPercentage),
      f.offerActive,
      NullIfEmpty(f.offerStartDate),
      NullIfEmpty(f.offerEndDate))
  }

  /** What submitting the form would insert, or None when it is refused before any insert. */
  function Prepare(f: FormData): Option<ProductInsert> {
    if MissingRequired(f) then None else Some(BuildInsert(f))
  }

  /** A record the form can send: active, with its required fields filled. */
  predicate WellFormed(r: ProductInsert) {
    r.isActive && r.name != "" && r.priceText != "" && r.categoryId != ""
  }

  /**
   * The form is refused exactly when one of name, price and category is
   * empty; otherwise the record carries the typed name, price text and
   * category, is active, and copies the offer switch.
   */
  lemma PrepareRejectsIff(f: FormData)
    ensures Prepare(f).None? <==> f.name == "" || f.price == "" || f.categoryId == ""
    ensures Prepare(f).Some? ==>
      && WellFormed(Prepare(f).value)
      && Prepare(f).value.name == f.name
      && Prepare(f).value.priceText == f.price
      && Prepare(f).value.categoryId == f.categoryId
      && Prepare(f).value.offerActive == f.offerActive
  {
  }

  /** The freshly reset form cannot be submitted. */
  lemma EmptyFormRejected()
    ensures Prepare(EmptyForm()).None?
    ensures !EmptyForm().offerActive
  {
  }

  /** Optional text fields are null when empty and read back as typed. */
  lemma NullIfEmptyRoundTrip(s: string)
    ensures NullIfEmpty(s).None? <==> s == ""
    ensures NullIfEmpty(s).GetOr("") == s
  {
  }

  /**
   * The offer dates go out whenever they were typed, even with the offer
   * switched off, when the date inputs are hidden but keep their values.
   */
  lemma OfferDatesSentWhileHidden(f: FormData)
    requires !MissingRequired(f)
    ensures var r := Prepare(f).value;
      && r.offerStartDate.GetOr("") == f.offerStartDate
      && r.offerEndDate.GetOr("") == f.offerEndDate
      && r.description.GetOr("") == f.description
      && (f.offerStartDate != "" ==> r.offerStartDate == Some(f.offerStartDate))
      && (f.offerEndDate != "" ==> r.offerEndDate == Some(f.offerEndDate))
  {
  }

  /** A typed integer is stored as that integer, negative ones included. */
  lemma IntFieldReadsInteger(n: int)
    ensures IntField(IntToString(n)) == n
  {
    ParseIntReadsInteger(n, []);
    assert IntToString(n) + [] == IntToString(n);
  }

  /**
   * Leading white space is skipped, and text after the digits is ignored
   * unless it continues the number (another digit, or `x`/`X` after a lone `0`).
   */
  lemma IntFieldPrefix(w: string, n: int, rest: string)
    requires forall i :: 0 <= i < |w| ==> IsJsSpace(w[i])
    requires rest == [] || !IsDigit(rest[0])
    requires n == 0 && rest != [] ==> rest[0] != 'x' && rest[0] != 'X'
    ensures IntField(w + IntToString(n) + rest) == n
  {
    var t := IntToString(n);
    ParseIntReadsInteger(n, rest);
    IntFieldAfterSpace(w, t + rest, n);
    ConcatAssoc(w, t, rest);
  }

  lemma IntFieldAfterSpace(w: string, t: string, n: int)
    requires forall i :: 0 <= i < |w| ==> IsJsSpace(w[i])
    requires ParseInt(t) == Some(n)
    ensures IntField(w + t) == n
  {
    ParseIntSkipsSpace(w, t);
  }

  /**
   * An input with no number at its start becomes 0: the blank one, one whose
   * first non-space character is neither a digit nor a sign, and one whose
   * sign is not followed by a digit.
   */
  lemma IntFieldNoNumber(w: string, rest: string)
    requires forall i :: 0 <= i < |w| ==> IsJsSpace(w[i])
    requires rest == [] || (!IsDigit(rest[0]) && !IsJsSpace(rest[0]))
    requires rest != [] && (rest[0] == '+' || rest[0] == '-') ==> |rest| == 1 || !IsDigit(rest[1])
    ensures IntField(w + rest) == 0
  {
    ParseIntNoNumber(w, rest);
  }

  /** Inputs on which `parseInt` gives NaN, a letter after the sign included, are stored as 0. */
  lemma IntFieldNaNCases()
    ensures IntField("abc") == 0 && IntField("NaN") == 0 && IntField("-abc") == 0
  {
    NoNumberText("abc");
    NoNumberText("NaN");
    NoNumberText("-abc");
  }

  /** A lone sign is NaN for `parseInt`, so it is stored as 0. */
  lemma IntFieldLoneSign(c: char)
    requires c == '+' || c == '-'
    ensures IntField([c]) == 0
  {
    NoNumberText([c]);
  }

  /** The case of `IntFieldNoNumber` without leading white space. */
  lemma NoNumberText(t: string)
    requires t == [] || (!IsDigit(t[0]) && !IsJsSpace(t[0]))
    requires t != [] && (t[0] == '+' || t[0] == '-') ==> |t| == 1 || !IsDigit(t[1])
    ensures IntField(t) == 0
  {
    IntFieldNoNumber([], t);
    assert [] + t == t;
  }

  /** A stock typed as a number is inserted as that number, and a blank one as 0. */
  lemma StockRoundTrip(f: FormData, n: int)
    requires !MissingRequired(f)
    ensures f.stock == IntToString(n) ==> Prepare(f).value.stock == n
    ensures f.stock == "" ==> Prepare(f).value.stock == 0
    ensures f.discountPercentage == IntToString(n) ==> Prepare(f).value.discountPercentage == n
  {
    IntFieldReadsInteger(n);
    IntFieldNoNumber("", "");
    assert "" + "" == "";
  }

  // ---------------------------------------------------------------------------
  // The page's form state
  // ---------------------------------------------------------------------------

  /** The form being edited and every record the page has sent for insertion. */
  class AdminPanel {
    var form: FormData
    var sent: seq<ProductInsert>

    /** Every record sent is an active product with its required fields filled. */
    predicate Valid()
      reads this
    {
      forall i :: 0 <= i < |sent| ==> WellFormed(sent[i])
    }

    constructor()
      ensures form == EmptyForm() && sent == [] && Valid()
    {
      form := EmptyForm();
      sent := [];
    }

    /** An edit of one or more inputs (the `setFormData({ ...formData, … })` handlers). */
    method Edit(f: FormData)
      modifies this
      ensures form == f && sent == old(sent)
      ensures old(Valid()) ==> Valid()
    {
      form := f;
    }

    /**
     * `handleSubmit`: a form missing a required field is refused with nothing
     * sent; otherwise its record is sent, and only when the insert succeeds is
     * the form reset to empty.
     */
    method Submit(insertSucceeds: bool) returns (outcome: SubmitOutcome)
      modifies this
      ensures outcome == Rejected <==> MissingRequired(old(form))
      ensures outcome == Inserted <==> !MissingRequired(old(form)) && insertSucceeds
      ensures outcome == Rejected ==> sent == old(sent)
      ensures outcome != Rejected ==> sent == old(sent) + [BuildInsert(old(form))]
      ensures form == if outcome == Inserted then EmptyForm() else old(form)
      ensures old(Valid()) ==> Valid()
    {
      var record := Prepare(form);
      if record.None? {
        return Rejected;
      }
      sent := sent + [record.value];
      if !insertSucceeds {
        return InsertFailed;
      }
      form := EmptyForm();
      return Inserted;
    }
  }

  // ---------------------------------------------------------------------------
  // The product list
  // ---------------------------------------------------------------------------

  /** A stored product as the list reads it; the price is in cents. */
  datatype Product = Product(
    id: string,
    name: string,
    price: int,
    stock: int,
    discountPercentage: int,
    offerActive: bool,
    offerStartDate: Option<string>,
    offerEndDate: Option<string>)

  /** The badge beside a discounted product, with the offer tag inside it. */
  datatype Badge = Badge(text: string, offerTag: bool)

  /** The offer-dates line: its "from" part, whether the separator shows, its "until" part. */
  datatype DateLine = DateLine(from: Option<string>, separator: bool, until: Option<string>)

  datatype ProductRow = ProductRow(name: string, priceLine: string, badge: Option<Badge>, dates: Option<DateLine>)

  datatype ListView = Spinner | NoProducts | Rows(rows: seq<ProductRow>)

  /** A nullable text in a JSX condition: null and the empty text are falsy. */
  predicate IsSet(o: Option<string>) {
    o.Some? && o.value != ""
  }

  function BadgeOf(p: Product): Option<Badge> {
    if p.discountPercentage > 0 then
      Some(Badge("Descuento: " + IntToString(p.discountPercentage) + "%", p.offerActive))
    else None
  }

  /** `localDate` stands for `new Date(text).toLocaleDateString()`. */
  function DateLineOf(p: Product, localDate: string -> string): Option<DateLine> {
    if p.offerActive && (IsSet(p.offerStartDate) || IsSet(p.offerEndDate)) then
      Some(DateLine(
        if IsSet(p.offerStartDate) then Some("Desde: " + localDate(p.offerStartDate.value)) else None,
        IsSet(p.offerStartDate) && IsSet(p.offerEndDate),
        if IsSet(p.offerEndDate) then Some("Hasta: " + localDate(p.offerEndDate.value)) else None))
    else None
  }

  /** The text of a date line as it appears on the page. */
  function DateLineText(d: DateLine): string {
    d.from.GetOr("") + (if d.separator then " | " else "") + d.until.GetOr("")
  }

  function RowOf(p: Product, localDate: string -> string): ProductRow {
    ProductRow(p.name, "$" + FormatCents(p.price) + " | Stock: " + IntToString(p.stock), BadgeOf(p), DateLineOf(p, localDate))
  }

  function ListViewOf(loading: bool, products: seq<Product>, localDate: string -> string): ListView {
    if loading then Spinner
    else if |products| == 0 then NoProducts
    else Rows(seq(|products|, k requires 0 <= k < |products| => RowOf(products[k], localDate)))
  }

  /**
   * The discount badge shows exactly for a positive discount, and the
   * "Oferta Activa" tag shows only inside it, exactly when the offer is on.
   */
  lemma BadgeIff(p: Product)
    ensures BadgeOf(p).Some? <==> p.discountPercentage > 0
    ensures (BadgeOf(p).Some? && BadgeOf(p).value.offerTag) <==> p.discountPercentage > 0 && p.offerActive
  {
  }

  /**
   * The date line shows exactly when the offer is on and a date is set; each
   * part shows exactly when its date is set, and the separator exactly when
   * both are.
   */
  lemma DateLineIff(p: Product, localDate: string -> string)
    ensures DateLineOf(p, localDate).Some? <==> p.offerActive && (IsSet(p.offerStartDate) || IsSet(p.offerEndDate))
    ensures DateLineOf(p, localDate).Some? ==>
      var d := DateLineOf(p, localDate).value;
      && (d.from.Some? <==> IsSet(p.offerStartDate))
      && (d.until.Some? <==> IsSet(p.offerEndDate))
      && (d.separator <==> d.from.Some? && d.until.Some?)
      && (d.from.Some? ==> StartsWith(DateLineText(d), "Desde: " + localDate(p.offerStartDate.value)))
  {
  }

  /**
   * While loading the spinner shows; then the empty message shows exactly
   * when there is no product, and otherwise one row per product, in order,
   * whose price line reads back as the product's price.
   */
  lemma ListViewIff(loading: bool, products: seq<Product>, localDate: string -> string, k: nat)
    ensures ListViewOf(loading, products, localDate).Spinner? <==> loading
    ensures ListViewOf(loading, products, localDate).NoProducts? <==> !loading && |products| == 0
    ensures ListViewOf(loading, products, localDate).Rows? ==>
      |ListViewOf(loading, products, localDate).rows| == |products|
    ensures !loading && k < |products| ==>
      var row := ListViewOf(loading, products, localDate).rows[k];
      && row == RowOf(products[k], localDate)
      && ParseCents(row.priceLine[1..1 + |FormatCents(products[k].price)|]) == Some(products[k].price)
  {
    if !loading && k < |products| {
      var c := FormatCents(products[k].price);
      var row := RowOf(products[k], localDate);
      assert row.priceLine[1..1 + |c|] == c;
      FormatCentsRoundTrip(products[k].price);
    }
  }
}
