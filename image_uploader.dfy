/**
 * The string rules of the product image uploader and gallery: the file
 * extension taken from the picked file's name, the storage path the file is
 * uploaded to, the display order given to a new image, the MIME check that
 * guards an upload, and the recovery of the storage path from a public URL
 * when an image is deleted.
 */
module ImageUploader {
  import opened Wrappers
  import opened Strings

  /** The picked file, as far as the uploader looks at it. */
  datatype PickedFile = PickedFile(name: string, mimeType: string)

  /** What choosing a file leads to. */
  datatype FileChange =
    | NoFile                                   // nothing was chosen: nothing happens
    | NotAnImage                               // refused with an error, nothing is uploaded
    | Upload(path: string)                     // uploaded to this storage path

  /** The segment of a public URL that precedes the storage path. */
  const Delimiter: string := "/product-images/"

  /** `name.split('.').pop()`: the text after the last dot, or the whole name when there is none. */
  function FileExtension(name: string): (ext: string)
    ensures '.' !in ext
    ensures '.' !in name ==> ext == name
    ensures '.' in name ==> EndsWith(name, "." + ext)
  {
    var parts := Split(name, ".");
    SplitLast(name, ".");
    NoOccurrenceOfChar(name, '.');
    NoOccurrenceOfChar(parts[|parts| - 1], '.');
    parts[|parts| - 1]
  }

  /** Of two dotted suffixes of a name, the longer one holds the shorter one's dot. */
  lemma DotInLongerSuffix(name: string, a: string, b: string)
    requires EndsWith(name, "." + a) && EndsWith(name, "." + b) && |a| > |b|
    ensures '.' in a
  {
    assert a[|a| - |b| - 1] == name[|name| - |b| - 1];
  }

  /** At most one dot-free text follows a dot at the end of a name. */
  lemma LastDotUnique(name: string, a: string, b: string)
    requires EndsWith(name, "." + a) && EndsWith(name, "." + b)
    requires '.' !in a && '.' !in b
    ensures a == b
  {
    if |a| > |b| {
      DotInLongerSuffix(name, a, b);
      assert false;
    } else if |b| > |a| {
      DotInLongerSuffix(name, b, a);
      assert false;
    }
    assert a == name[|name| - |a|..] == b;
  }

  /**
   * Whatever precedes the last dot, the extension is what follows it; in
   * particular a name ending in a dot has the empty extension.
   */
  lemma ExtensionOfDotted(stem: string, ext: string)
    requires '.' !in ext
    ensures FileExtension(stem + "." + ext) == ext
  {
    var name := stem + "." + ext;
    var e := FileExtension(name);
    assert name[|stem|] == '.';
    assert '.' in name;
    assert name[|name| - |e| - 1..] == "." + e;
    LastDotUnique(name, e, ext);
  }

  /** `${productId}/${token}.${ext}`, where `token` is how the random number was printed. */
  function StoragePath(productId: string, token: string, ext: string): string {
    productId + "/" + token + "." + ext
  }

  /**
   * The path lies in the product's folder and keeps the extension: it starts
   * with `productId/`, ends with `.ext`, its own extension is `ext`, and when
   * the id holds no slash the first path segment is the id.
   */
  lemma StoragePathShape(productId: string, token: string, ext: string)
    requires '.' !in ext
    ensures var path := StoragePath(productId, token, ext);
      && StartsWith(path, productId + "/")
      && EndsWith(path, "." + ext)
      && FileExtension(path) == ext
      && ('/' !in productId ==> Split(path, "/")[0] == productId)
  {
    var path := StoragePath(productId, token, ext);
    assert path == (productId + "/" + token) + "." + ext;
    ExtensionOfDotted(productId + "/" + token, ext);
    assert path[..|productId + "/"|] == productId + "/";
    assert path[|path| - |"." + ext|..] == "." + ext;
    if '/' !in productId {
      var n := |productId|;
      assert path[n..n + 1] == "/";
      forall j | 0 <= j < n ensures !OccursAt(path, "/", j) {
        assert path[j..j + 1][0] == productId[j];
      }
      FindIs(path, "/", n);
      assert path[..n] == productId;
    }
  }

  /**
   * `images && images.length > 0 ? images[0].display_order + 1 : 0`, where
   * `images` is the response of the highest-order query (None when no data).
   */
  function NextOrder(images: Option<seq<int>>): int {
    if images.Some? && |images.value| > 0 then images.value[0] + 1 else 0
  }

  /**
   * The response of the query ordered by `display_order` descending and
   * limited to one row, over the orders the product already has.
   */
  predicate HighestOrderResponse(rows: seq<int>, orders: seq<int>) {
    if |orders| == 0 then rows == []
    else |rows| == 1 && rows[0] in orders && forall o :: o in orders ==> o <= rows[0]
  }

  /**
   * A new image is placed after all the existing ones: its order exceeds
   * every existing order, is one more than the highest, and is 0 for a
   * product with no image yet (or when the query yields no data).
   */
  lemma NextOrderAfterAll(rows: seq<int>, orders: seq<int>)
    requires HighestOrderResponse(rows, orders)
    ensures forall o :: o in orders ==> o < NextOrder(Some(rows))
    ensures |orders| == 0 ==> NextOrder(Some(rows)) == 0 == NextOrder(None)
    ensures |orders| > 0 ==> NextOrder(Some(rows)) - 1 in orders
  {
  }

  /** Any descending response, not only a one-row one, puts the new image above every row. */
  lemma NextOrderAboveSorted(rows: seq<int>)
    requires forall i, j :: 0 <= i <= j < |rows| ==> rows[j] <= rows[i]
    ensures forall i :: 0 <= i < |rows| ==> rows[i] < NextOrder(Some(rows))
    ensures NextOrder(Some(rows)) == 0 <==> |rows| == 0 || rows[0] == -1
  {
  }

  /** `file.type.startsWith('image/')`. */
  predicate IsImageType(mimeType: string) {
    StartsWith(mimeType, "image/")
  }

  /** What `handleFileChange` does with the first chosen file. */
  function HandleFileChange(file: Option<PickedFile>, productId: string, token: string): FileChange {
    if file.None? then NoFile
    else if !IsImageType(file.value.mimeType) then NotAnImage
    else Upload(StoragePath(productId, token, FileExtension(file.value.name)))
  }

  /**
   * An upload is attempted exactly for a chosen file whose type starts with
   * `image/`; it goes into the product's folder and keeps the file's
   * extension.
   */
  lemma UploadOnlyImages(file: Option<PickedFile>, productId: string, token: string)
    ensures var r := HandleFileChange(file, productId, token);
      && (r.NoFile? <==> file.None?)
      && (r.NotAnImage? <==> file.Some? && !IsImageType(file.value.mimeType))
      && (r.Upload? <==> file.Some? && IsImageType(file.value.mimeType))
      && (r.Upload? ==>
            && StartsWith(r.path, productId + "/")
            && FileExtension(r.path) == FileExtension(file.value.name))
  {
    if file.Some? && IsImageType(file.value.mimeType) {
      StoragePathShape(productId, token, FileExtension(file.value.name));
    }
  }

  /** Types the browser reports for common files. */
  lemma ImageTypeCases()
    ensures IsImageType("image/png") && IsImageType("image/jpeg") && IsImageType("image/")
    ensures !IsImageType("") && !IsImageType("image") && !IsImageType("application/pdf")
    ensures !IsImageType("Image/png")
  {
    assert "application/pdf"[..6][0] == 'a';
    assert "Image/png"[..6][0] == 'I';
  }

  /** `imageUrl.split('/product-images/')[1]`, None where that element is `undefined`. */
  function ExtractPath(url: string): Option<string> {
    var parts := Split(url, Delimiter);
    if |parts| > 1 then Some(parts[1]) else None
  }

  /** The path is missing exactly when the URL has no delimiter. */
  lemma ExtractPathNoneIff(url: string)
    ensures ExtractPath(url).None? <==> NoOccurrence(url, Delimiter)
  {
    SplitLast(url, Delimiter);
  }

  /**
   * The extracted path is the text after the first delimiter, up to the next
   * delimiter or the end of the URL, and it holds no delimiter.
   */
  lemma ExtractPathSegment(url: string)
    requires ExtractPath(url).Some?
    ensures var p := ExtractPath(url).value;
      && Find(url, Delimiter).Some?
      && var i := Find(url, Delimiter).value + |Delimiter|;
      && i + |p| <= |url| && url[i..i + |p|] == p
      && NoOccurrence(p, Delimiter)
      && (i + |p| == |url| || OccursAt(url, Delimiter, i + |p|))
  {
    var parts := Split(url, Delimiter);
    SplitPiecesFree(url, Delimiter, 1);
    var start := Find(url, Delimiter).value;
    var i := start + |Delimiter|;
    var rest := url[i..];
    assert parts[1] == Split(rest, Delimiter)[0];
    match Find(rest, Delimiter)
    case None =>
    case Some(j) =>
      assert url[i + j..i + j + |Delimiter|] == rest[j..j + |Delimiter|];
  }

  /** Only the leading slash of the delimiter is also a suffix of it. */
  lemma DelimiterSlashes(m: nat)
    requires 0 < m < |Delimiter| && Delimiter[m] == '/'
    ensures m == |Delimiter| - 1
  {
  }

  /** A delimiter that starts inside `base` and ends past it leaves `/product-images` at the end of `base`. */
  lemma OverlapEndsBase(base: string, p: string, j: nat)
    requires j < |base| < j + |Delimiter|
    requires OccursAt(base + Delimiter + p, Delimiter, j)
    ensures EndsWith(base, "/product-images")
  {
    var url := base + Delimiter + p;
    var m := |base| - j;
    assert url[j + m] == Delimiter[m];
    assert url[|base|] == '/';
    DelimiterSlashes(m);
    assert base[j..] == url[j..j + m] == Delimiter[..m];
  }

  /**
   * A delimiter starting inside `base` and reaching past it would need `base`
   * to end with the delimiter without its last slash.
   */
  lemma NoEarlierDelimiter(base: string, p: string, j: nat)
    requires NoOccurrence(base, Delimiter) && !EndsWith(base, "/product-images")
    requires j < |base|
    ensures !OccursAt(base + Delimiter + p, Delimiter, j)
  {
    var url := base + Delimiter + p;
    if OccursAt(url, Delimiter, j) {
      if j + |Delimiter| <= |base| {
        assert base[j..j + |Delimiter|] == url[j..j + |Delimiter|];
        assert OccursAt(base, Delimiter, j);
      } else {
        OverlapEndsBase(base, p, j);
        assert false;
      }
    }
  }

  /**
   * Deleting recovers the stored path from the public URL `base` +
   * `/product-images/` + `path`, provided neither part holds the delimiter
   * and `base` does not end with the delimiter less its final slash.
   */
  lemma ExtractPathRoundTrip(base: string, path: string)
    requires NoOccurrence(base, Delimiter) && NoOccurrence(path, Delimiter)
    requires !EndsWith(base, "/product-images")
    ensures ExtractPath(base + Delimiter + path) == Some(path)
  {
    var url := base + Delimiter + path;
    var n := |base|;
    assert url[n..n + |Delimiter|] == Delimiter;
    forall j | 0 <= j < n ensures !OccursAt(url, Delimiter, j) {
      NoEarlierDelimiter(base, path, j);
    }
    FindIs(url, Delimiter, n);
    assert url[n + |Delimiter|..] == path;
    assert url[..n] == base;
    assert Find(path, Delimiter).None?;
    assert Split(path, Delimiter) == [path];
    assert Split(url, Delimiter) == [base] + Split(path, Delimiter);
  }

  /** A string whose slashes all sit too close to its end to start a delimiter holds none. */
  lemma NoDelimiterWithoutSlash(s: string)
    requires forall i :: 0 <= i < |s| && i + |Delimiter| <= |s| ==> s[i] != '/'
    ensures NoOccurrence(s, Delimiter)
  {
    forall i | 0 <= i <= |s| ensures !OccursAt(s, Delimiter, i) {
      if i + |Delimiter| <= |s| {
        assert s[i..i + |Delimiter|][0] == s[i];
      }
    }
  }

  /** The base of the counterexample followed by a slash spells the delimiter. */
  lemma OverlapLiterals()
    ensures "/product-images" + "/" == Delimiter
    ensures Delimiter[1..] + "a.png" == "product-images/a.png"
    ensures NoOccurrence("product-images/a.png", Delimiter)
  {
    NoDelimiterWithoutSlash("product-images/a.png");
  }

  /**
   * The last condition of the round trip is needed: a base ending in
   * `/product-images` swallows the start of the delimiter, and the recovered
   * path then begins with `product-images/`.
   */
  lemma ExtractPathOverlap()
    ensures var base := "/product-images"; var path := "a.png";
      && NoOccurrence(base, Delimiter) && NoOccurrence(path, Delimiter)
      && ExtractPath(base + Delimiter + path) == Some("product-images/a.png")
  {
    var base := "/product-images";
    var path := "a.png";
    var rest := "product-images/a.png";
    OverlapLiterals();
    var url := base + Delimiter + path;
    assert url == Delimiter + rest by {
      assert Delimiter == "/" + Delimiter[1..];
      assert url == (base + "/") + (Delimiter[1..] + path);
    }
    assert url[..|Delimiter|] == Delimiter;
    FindIs(url, Delimiter, 0);
    assert url[|Delimiter|..] == rest;
    assert Split(rest, Delimiter) == [rest];
    assert Split(url, Delimiter) == [url[..0]] + Split(rest, Delimiter);
  }
}
