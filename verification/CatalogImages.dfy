/**
 * Catalog images (pipeline/build_catalog.py): two input shapes normalized to one list,
 * URLs resolved once per product, and storage keys allocated without collisions.
 */
module CatalogImages {
  import opened Outcomes
  import Text
  import Decimal

  // ----- Parsed JSON --------------------------------------------------------

  /** A JSON value; a number or a boolean is kept as its printed form and its truth. */
  datatype Value =
    | Null
    | Str(text: string)
    | Scalar(shown: string, truthy: bool)
    | List(items: seq<Value>)
    | Object(fields: map<string, Value>)

  function Get(fields: map<string, Value>, key: string): Value {
    if key in fields then fields[key] else Null
  }

  /** str(value) for anything but text; how lists and objects print is left open. */
  type Printer = Value -> string

  /** Stripped text, or nothing when that leaves none. */
  function OptionalText(v: Value, show: Printer): Option<string> {
    if v.Null? then None
    else
      var text := Text.Strip(match v case Str(s) => s case Scalar(s, _) => s case _ => show(v));
      if text == "" then None else Some(text)
  }

  predicate UsableText(s: string) {
    var t := Text.Lower(Text.Strip(s));
    "http://" <= t || "https://" <= t
  }

  predicate UsableUrl(v: Value) {
    v.Str? && UsableText(v.text)
  }

  // ----- Normalization ------------------------------------------------------

  datatype Key = HiRes | Large | Thumb | Variant

  function KeyText(k: Key): string {
    match k
    case HiRes => "hi_res"
    case Large => "large"
    case Thumb => "thumb"
    case Variant => "variant"
  }

  datatype Image = Image(hiRes: Option<string>, large: Option<string>, thumb: Option<string>,
                         variant: Option<string>)

  function EntryOf(at: Key -> Value, show: Printer): Image {
    Image(OptionalText(at(HiRes), show), OptionalText(at(Large), show),
          OptionalText(at(Thumb), show), OptionalText(at(Variant), show))
  }

  function ImageEntry(item: Value, show: Printer): Image {
    match item
    case Object(fields) => EntryOf(k => Get(fields, KeyText(k)), show)
    case Str(_) => Image(None, OptionalText(item, show), None, None)
    case _ => Image(None, None, None, None)
  }

  /** A parallel column: a list, nothing, or one value standing for a single image. */
  function Column(v: Value): seq<Value> {
    match v
    case List(items) => items
    case Null => []
    case _ => [v]
  }

  function At(column: seq<Value>, i: nat): Value {
    if i < |column| then column[i] else Null
  }

  function Max(a: nat, b: nat): nat {
    if a < b then b else a
  }

  function Height(fields: map<string, Value>): nat {
    Max(Max(|Column(Get(fields, "hi_res"))|, |Column(Get(fields, "large"))|),
        Max(|Column(Get(fields, "thumb"))|, |Column(Get(fields, "variant"))|))
  }

  function ColumnarEntry(fields: map<string, Value>, i: nat, show: Printer): Image {
    EntryOf(k => At(Column(Get(fields, KeyText(k))), i), show)
  }

  predicate UsableImage(image: Image) {
    || (image.hiRes.Some? && UsableText(image.hiRes.value))
    || (image.large.Some? && UsableText(image.large.value))
    || (image.thumb.Some? && UsableText(image.thumb.value))
  }

  /** The entries with a usable URL in some resolution. */
  function Usable(entries: seq<Image>): seq<Image> {
    if entries == [] then []
    else
      Usable(entries[..|entries| - 1])
        + (if UsableImage(entries[|entries| - 1]) then [entries[|entries| - 1]] else [])
  }

  function ImageEntries(raw: Value, show: Printer): seq<Image> {
    match raw
    case Object(fields) => seq(Height(fields), i requires i >= 0 => ColumnarEntry(fields, i, show))
    case List(items) => seq(|items|, i requires 0 <= i < |items| => ImageEntry(items[i], show))
    case _ => []
  }

  function NormalizeImages(raw: Value, show: Printer): seq<Image> {
    Usable(ImageEntries(raw, show))
  }

  /** One column of the transpose, with any number of nulls at its end left out. */
  predicate ColumnOf(column: seq<Value>, images: seq<map<string, Value>>, key: string) {
    && |column| <= |images|
    && (forall i :: 0 <= i < |column| ==> column[i] == Get(images[i], key))
    && (forall i :: |column| <= i < |images| ==> Get(images[i], key) == Null)
  }

  /** The columnar shape of a list of image objects. */
  predicate Columnar(fields: map<string, Value>, images: seq<map<string, Value>>) {
    forall k: Key :: ColumnOf(Column(Get(fields, KeyText(k))), images, KeyText(k))
  }

  function Objects(images: seq<map<string, Value>>): Value {
    List(seq(|images|, i requires 0 <= i < |images| => Object(images[i])))
  }

  lemma SameEntry(fields: map<string, Value>, images: seq<map<string, Value>>, i: nat, show: Printer)
    requires Columnar(fields, images) && i < |images|
    ensures ColumnarEntry(fields, i, show) == ImageEntry(Object(images[i]), show)
  {}

  lemma BelowEveryColumn(fields: map<string, Value>, images: seq<map<string, Value>>, i: nat, show: Printer)
    requires Columnar(fields, images) && Height(fields) <= i < |images|
    ensures !UsableImage(ImageEntry(Object(images[i]), show))
  {}

  lemma {:induction false} UnusableTail(entries: seq<Image>, n: nat)
    requires n <= |entries| && forall i :: n <= i < |entries| ==> !UsableImage(entries[i])
    ensures Usable(entries) == Usable(entries[..n])
    decreases |entries|
  {
    if n == |entries| {
      assert entries[..n] == entries;
    } else {
      UnusableTail(entries[..|entries| - 1], n);
      assert entries[..|entries| - 1][..n] == entries[..n];
    }
  }

  /** Both shapes normalize alike, whatever trailing nulls either of them leaves out. */
  lemma ShapesAgree(fields: map<string, Value>, images: seq<map<string, Value>>, show: Printer)
    requires Columnar(fields, images)
    ensures NormalizeImages(Object(fields), show) == NormalizeImages(Objects(images), show)
  {
    var byColumn, byRow := ImageEntries(Object(fields), show), ImageEntries(Objects(images), show);
    var height := Height(fields);
    forall k: Key ensures |Column(Get(fields, KeyText(k)))| <= |images| {
      assert ColumnOf(Column(Get(fields, KeyText(k))), images, KeyText(k));
    }
    HeightIsMost(fields, |images|);
    hide Height, Columnar, UsableImage, ColumnarEntry, ImageEntry;
    forall i | 0 <= i < height ensures byColumn[i] == byRow[i] {
      SameEntry(fields, images, i, show);
    }
    assert byRow[..height] == byColumn;
    forall i | height <= i < |byRow| ensures !UsableImage(byRow[i]) {
      BelowEveryColumn(fields, images, i, show);
    }
    UnusableTail(byRow, height);
  }

  lemma HeightIsMost(fields: map<string, Value>, n: nat)
    requires forall k: Key :: |Column(Get(fields, KeyText(k)))| <= n
    ensures Height(fields) <= n
  {
    assert |Column(Get(fields, KeyText(HiRes)))| <= n && |Column(Get(fields, KeyText(Large)))| <= n;
    assert |Column(Get(fields, KeyText(Thumb)))| <= n && |Column(Get(fields, KeyText(Variant)))| <= n;
  }

  // ----- Resolution ---------------------------------------------------------

  /** The keys tried for a URL, best first. */
  const RESOLUTION_ORDER: seq<Key> := [HiRes, Large, Thumb]

  /** The first usable URL of an image, stripped. */
  function BestUrl(fields: map<string, Value>): Option<string> {
    var hiRes, large, thumb := Get(fields, "hi_res"), Get(fields, "large"), Get(fields, "thumb");
    if UsableUrl(hiRes) then Some(Text.Strip(hiRes.text))
    else if UsableUrl(large) then Some(Text.Strip(large.text))
    else if UsableUrl(thumb) then Some(Text.Strip(thumb.text))
    else None
  }

  function ResolutionOf(fields: map<string, Value>, url: string): Key {
    var hiRes, large := Get(fields, "hi_res"), Get(fields, "large");
    if UsableUrl(hiRes) && Text.Strip(hiRes.text) == url then HiRes
    else if UsableUrl(large) && Text.Strip(large.text) == url then Large
    else Thumb
  }

  /** The recorded resolution is the one whose URL was taken, and no better one was usable. */
  lemma ResolutionWon(fields: map<string, Value>)
    requires BestUrl(fields).Some?
    ensures var won := ResolutionOf(fields, BestUrl(fields).value);
            && UsableUrl(Get(fields, KeyText(won)))
            && Text.Strip(Get(fields, KeyText(won)).text) == BestUrl(fields).value
            && forall k :: k in RESOLUTION_ORDER[..if won == HiRes then 0 else if won == Large then 1 else 2]
                 ==> !UsableUrl(Get(fields, KeyText(k)))
  {}

  datatype Resolved = Resolved(position: nat, variant: Option<string>, resolution: Key, url: string)

  /** The URL an entry of the source list offers; entries that are not objects offer none. */
  function Offer(image: Value): Option<string> {
    if image.Object? then BestUrl(image.fields) else None
  }

  function Urls(rows: seq<Resolved>): set<string> {
    set row | row in rows :: row.url
  }

  /** One row for each URL not offered earlier. */
  function Resolution(images: seq<Value>, show: Printer): seq<Resolved> {
    if images == [] then []
    else
      var rows, image := Resolution(images[..|images| - 1], show), images[|images| - 1];
      var url := Offer(image);
      if url.None? || url.value in Urls(rows) then rows
      else rows + [Resolved(|rows|, OptionalText(Get(image.fields, "variant"), show),
                            ResolutionOf(image.fields, url.value), url.value)]
  }

  method ResolveProductImages(images: seq<Value>, show: Printer) returns (resolved: seq<Resolved>)
    ensures resolved == Resolution(images, show)
  {
    resolved := [];
    var seen: set<string> := {};
    for i := 0 to |images|
      invariant resolved == Resolution(images[..i], show) && seen == Urls(resolved)
    {
      assert images[..i + 1][..i] == images[..i];
      var image := images[i];
      if image.Object? {
        var url := BestUrl(image.fields);
        if url.Some? && url.value !in seen {
          seen := seen + {url.value};
          ghost var before := resolved;
          resolved := resolved + [Resolved(|resolved|, OptionalText(Get(image.fields, "variant"), show),
                                           ResolutionOf(image.fields, url.value), url.value)];
          UrlsGrow(before, resolved[|before|]);
        }
      }
    }
    assert images[..|images|] == images;
  }

  lemma UrlsGrow(rows: seq<Resolved>, row: Resolved)
    ensures Urls(rows + [row]) == Urls(rows) + {row.url}
  {}

  /** Entry j was the first to offer the URL of row i. */
  ghost predicate FirstToOffer(images: seq<Value>, j: nat, row: Resolved, show: Printer)
    requires j < |images|
  {
    && Offer(images[j]) == Some(row.url)
    && row.resolution == ResolutionOf(images[j].fields, row.url)
    && row.variant == OptionalText(Get(images[j].fields, "variant"), show)
    && row.position == |Resolution(images[..j], show)|
    && forall h :: 0 <= h < j ==> Offer(images[h]) != Some(row.url)
  }

  /** One more entry keeps the rows so far and adds at most its own. */
  lemma ResolutionStep(images: seq<Value>, show: Printer)
    requires images != []
    ensures var n := |images| - 1;
            var before, rows := Resolution(images[..n], show), Resolution(images, show);
            && (forall i :: 0 <= i < |before| ==> before[i] == rows[i])
            && (|rows| == |before| || |rows| == |before| + 1)
            && (|rows| == |before| <==>
                  Offer(images[n]).None? || Offer(images[n]).value in Urls(before))
            && (|rows| > |before| ==>
                  && rows[|before|].position == |before| && Offer(images[n]) == Some(rows[|before|].url)
                  && rows[|before|].resolution == ResolutionOf(images[n].fields, rows[|before|].url)
                  && rows[|before|].variant == OptionalText(Get(images[n].fields, "variant"), show))
  {}

  lemma {:induction false} EveryOfferIsKept(images: seq<Value>, show: Printer, j: nat)
    requires j < |images| && Offer(images[j]).Some?
    ensures Offer(images[j]).value in Urls(Resolution(images, show))
    decreases |images|
  {
    hide Offer, ResolutionOf, OptionalText, Resolution;
    ResolutionStep(images, show);
    var n := |images| - 1;
    if j < n {
      EveryOfferIsKept(images[..n], show, j);
      var before, rows := Resolution(images[..n], show), Resolution(images, show);
      assert forall row :: row in before ==> row in rows;
    }
  }

  /** Positions count up from zero, and no URL appears twice. */
  ghost predicate Distinct(rows: seq<Resolved>) {
    && (forall i :: 0 <= i < |rows| ==> rows[i].position == i)
    && (forall i, k :: 0 <= i < k < |rows| ==> rows[i].url != rows[k].url)
  }

  lemma {:induction false} ResolutionIsDistinct(images: seq<Value>, show: Printer)
    ensures Distinct(Resolution(images, show))
    decreases |images|
  {
    if images != [] {
      ResolutionIsDistinct(images[..|images| - 1], show);
      hide Offer, ResolutionOf, OptionalText, Resolution;
      ResolutionStep(images, show);
    }
  }

  lemma FirstInPrefix(images: seq<Value>, n: nat, j: nat, row: Resolved, show: Printer)
    requires j < n <= |images| && FirstToOffer(images[..n], j, row, show)
    ensures FirstToOffer(images, j, row, show)
  {
    hide Offer, ResolutionOf, OptionalText, Resolution;
    assert images[..n][..j] == images[..j];
    forall h | 0 <= h < j ensures Offer(images[h]) != Some(row.url) {
      assert images[..n][h] == images[h];
    }
  }

  lemma NewUrlIsFirst(images: seq<Value>, show: Printer)
    requires images != [] && Offer(images[|images| - 1]).Some?
    requires Offer(images[|images| - 1]).value !in Urls(Resolution(images[..|images| - 1], show))
    ensures forall h :: 0 <= h < |images| - 1 ==> Offer(images[h]) != Offer(images[|images| - 1])
  {
    hide Offer, Resolution;
    var n := |images| - 1;
    forall h | 0 <= h < n && Offer(images[h]).Some?
      ensures Offer(images[h]).value in Urls(Resolution(images[..n], show))
    {
      EveryOfferIsKept(images[..n], show, h);
    }
  }

  /** Each row comes from the first entry to offer its URL, and keeps that entry's order. */
  lemma {:induction false} ResolutionKeepsOrder(images: seq<Value>, show: Printer, i: nat)
    returns (j: nat)
    requires i < |Resolution(images, show)|
    ensures j < |images| && FirstToOffer(images, j, Resolution(images, show)[i], show)
    decreases |images|
  {
    assert images != [];
    hide Offer, ResolutionOf, OptionalText, Resolution;
    var n := |images| - 1;
    ResolutionStep(images, show);
    if i < |Resolution(images[..n], show)| {
      hide FirstToOffer;
      j := ResolutionKeepsOrder(images[..n], show, i);
      FirstInPrefix(images, n, j, Resolution(images, show)[i], show);
    } else {
      j := n;
      hide Urls;
      NewUrlIsFirst(images, show);
    }
  }

  // ----- Storage keys -------------------------------------------------------

  /** The lower-case letters and digits of a text, other runs as one underscore between them. */
  function Slug(s: string): string {
    if s == [] then ""
    else
      var rest, c := SlugStart(s[..|s| - 1]), Text.LowerChar(s[|s| - 1]);
      if IsWordChar(c) then rest + [c] else Unscored(rest)
  }

  /** A slug in progress: like Slug, but keeping an underscore at the end. */
  function SlugStart(s: string): string {
    if s == [] then ""
    else
      var rest, c := SlugStart(s[..|s| - 1]), Text.LowerChar(s[|s| - 1]);
      if IsWordChar(c) then rest + [c]
      else if rest == "" || rest[|rest| - 1] == '_' then rest
      else rest + "_"
  }

  function Unscored(s: string): string {
    if s != "" && s[|s| - 1] == '_' then s[..|s| - 1] else s
  }

  predicate IsWordChar(c: char) {
    'a' <= c <= 'z' || '0' <= c <= '9'
  }

  predicate SlashFree(s: string) {
    forall i :: 0 <= i < |s| ==> s[i] != '/'
  }

  lemma {:induction false} SlugStartIsSlashFree(s: string)
    ensures SlashFree(SlugStart(s))
  {
    if s != [] {
      SlugStartIsSlashFree(s[..|s| - 1]);
    }
  }

  lemma SlugIsSlashFree(s: string)
    ensures SlashFree(Slug(s))
  {
    if s != [] {
      SlugStartIsSlashFree(s[..|s| - 1]);
    }
  }

  /** str(value or "") */
  function VariantText(v: Value, show: Printer): string {
    match v
    case Null => ""
    case Str(s) => s
    case Scalar(s, truthy) => if truthy then s else ""
    case List(items) => if items == [] then "" else show(v)
    case Object(fields) => if fields == map[] then "" else show(v)
  }

  /** f"{n:02d}" */
  function TwoDigits(n: nat): string {
    Decimal.ZeroPad(Decimal.NatText(n), 2)
  }

  function Stem(variant: Value, position: nat, show: Printer): string {
    var slug := Slug(VariantText(variant, show));
    if slug == "" then "image_" + TwoDigits(position) else slug
  }

  /** The part of a key after the product id, as first proposed. */
  function PlainTail(stem: string): string { stem + ".jpg" }

  /** The fallbacks: the position appended, and then a count after it. */
  function NumberedTail(stem: string, position: nat, n: nat): string {
    stem + "_" + TwoDigits(position) + (if n == 0 then "" else "_" + Decimal.NatText(n)) + ".jpg"
  }

  function KeyFor(productId: string, tail: string): string {
    productId + "/" + tail
  }

  lemma {:induction false} DigitsAreSlashFree(n: nat)
    ensures SlashFree(Decimal.NatText(n)) && SlashFree(TwoDigits(n))
  {
    Decimal.NatTextReads(n);
  }

  lemma TailsAreSlashFree(variant: Value, position: nat, show: Printer, n: nat)
    ensures SlashFree(PlainTail(Stem(variant, position, show)))
    ensures SlashFree(NumberedTail(Stem(variant, position, show), position, n))
  {
    SlugIsSlashFree(VariantText(variant, show));
    DigitsAreSlashFree(position);
    DigitsAreSlashFree(n);
    hide Slug, TwoDigits, VariantText;
  }

  lemma FallbacksDiffer(productId: string, stem: string, position: nat, a: nat, b: nat)
    requires KeyFor(productId, NumberedTail(stem, position, a))
          == KeyFor(productId, NumberedTail(stem, position, b))
    ensures a == b
  {
    var front := productId + "/" + stem + "_" + TwoDigits(position);
    var x, y := Decimal.NatText(a), Decimal.NatText(b);
    Decimal.NatTextReads(a);
    Decimal.NatTextReads(b);
    var s, t := KeyFor(productId, NumberedTail(stem, position, a)),
                KeyFor(productId, NumberedTail(stem, position, b));
    var u, v := if a == 0 then "" else "_" + x, if b == 0 then "" else "_" + y;
    assert s == front + u + ".jpg" && t == front + v + ".jpg";
    assert u == s[|front|..|s| - 4] && v == t[|front|..|t| - 4];
    if a != 0 && b != 0 {
      assert x == u[1..] && y == v[1..];
      Decimal.NatTextInjective(a, b);
    }
  }

  /** The n-th fallback is free, and every earlier one is taken. */
  ghost predicate FirstFallback(productId: string, stem: string, position: nat, used: set<string>, n: nat) {
    && KeyFor(productId, NumberedTail(stem, position, n)) !in used
    && forall m: nat :: m < n ==> KeyFor(productId, NumberedTail(stem, position, m)) in used
  }

  /** The first key that is not taken, in the order plain, numbered, numbered and counted. */
  ghost predicate FirstFree(key: string, productId: string, stem: string, position: nat, used: set<string>) {
    if KeyFor(productId, PlainTail(stem)) !in used then key == KeyFor(productId, PlainTail(stem))
    else
      exists n: nat :: key == KeyFor(productId, NumberedTail(stem, position, n))
                       && FirstFallback(productId, stem, position, used, n)
  }

  predicate UnderProduct(key: string, productId: string) {
    && |productId| < |key| && key[..|productId|] == productId && key[|productId|] == '/'
    && SlashFree(key[|productId| + 1..])
  }

  lemma SlashFreeTail(productId: string, tail: string)
    requires SlashFree(tail)
    ensures UnderProduct(KeyFor(productId, tail), productId)
  {}

  /** Terminates because every failed try uses up one taken key, and no key is tried twice. */
  method ImageStorageKey(productId: string, variant: Value, position: nat, used: set<string>, show: Printer)
    returns (key: string, after: set<string>)
    ensures key !in used && after == used + {key}
    ensures FirstFree(key, productId, Stem(variant, position, show), position, used)
    ensures UnderProduct(key, productId)
  {
    hide Stem, KeyFor, PlainTail, NumberedTail, SlashFree;
    var stem := Stem(variant, position, show);
    TailsAreSlashFree(variant, position, show, 0);
    SlashFreeTail(productId, PlainTail(stem));
    key := KeyFor(productId, PlainTail(stem));
    if key in used {
      key := KeyFor(productId, NumberedTail(stem, position, 0));
      SlashFreeTail(productId, NumberedTail(stem, position, 0));
      var suffix: nat := 1;
      ghost var untried := used;
      while key in used
        invariant suffix >= 1 && key == KeyFor(productId, NumberedTail(stem, position, suffix - 1))
        invariant UnderProduct(key, productId)
        invariant forall m: nat :: m < suffix - 1 ==>
                    KeyFor(productId, NumberedTail(stem, position, m)) in used
        invariant forall m: nat :: suffix <= m + 1 && KeyFor(productId, NumberedTail(stem, position, m)) in used
                    ==> KeyFor(productId, NumberedTail(stem, position, m)) in untried
        decreases untried
      {
        forall m: nat | suffix <= m
          ensures KeyFor(productId, NumberedTail(stem, position, m)) != key
        {
          if KeyFor(productId, NumberedTail(stem, position, m)) == key {
            FallbacksDiffer(productId, stem, position, m, suffix - 1);
          }
        }
        untried := untried - {key};
        TailsAreSlashFree(variant, position, show, suffix);
        SlashFreeTail(productId, NumberedTail(stem, position, suffix));
        key := KeyFor(productId, NumberedTail(stem, position, suffix));
        suffix := suffix + 1;
      }
      assert FirstFallback(productId, stem, position, used, suffix - 1);
    }
    after := used + {key};
  }

  // ----- The manifest -------------------------------------------------------

  datatype ManifestRow = ManifestRow(productId: string, position: nat, variant: Option<string>,
                                     resolution: Option<string>, sourceUrl: string,
                                     storageKey: string, downloaded: bool)

  /** The usable URLs of a product, as written, without repeats and in order. */
  function RawUrls(images: seq<Value>): seq<string> {
    if images == [] then []
    else
      var urls, image := RawUrls(images[..|images| - 1]), images[|images| - 1];
      if image.Object? && UsableUrl(Get(image.fields, "url")) && Get(image.fields, "url").text !in urls
      then urls + [Get(image.fields, "url").text] else urls
  }

  /** What one product's rows promise: numbered, one a URL, each under a key of its own. */
  ghost predicate Manifest(rows: seq<ManifestRow>, productId: string, urls: seq<string>) {
    && |rows| == |urls|
    && (forall i :: 0 <= i < |rows| ==>
          && rows[i].productId == productId && rows[i].position == i && !rows[i].downloaded
          && rows[i].sourceUrl == Text.Strip(urls[i])
          && UnderProduct(rows[i].storageKey, productId))
    && (forall i, k :: 0 <= i < k < |rows| ==> rows[i].storageKey != rows[k].storageKey)
  }

  function KeysOf(rows: seq<ManifestRow>): set<string> {
    set row | row in rows :: row.storageKey
  }

  lemma ManifestGrows(rows: seq<ManifestRow>, productId: string, urls: seq<string>, row: ManifestRow,
                      url: string)
    requires Manifest(rows, productId, urls)
    requires row.productId == productId && row.position == |rows| && !row.downloaded
    requires row.sourceUrl == Text.Strip(url) && UnderProduct(row.storageKey, productId)
    requires row.storageKey !in KeysOf(rows)
    ensures Manifest(rows + [row], productId, urls + [url])
    ensures KeysOf(rows + [row]) == KeysOf(rows) + {row.storageKey}
  {}

  lemma RawUrlsStep(images: seq<Value>, n: nat)
    requires n < |images|
    ensures RawUrls(images[..n + 1])
         == if images[n].Object? && UsableUrl(Get(images[n].fields, "url"))
               && Get(images[n].fields, "url").text !in RawUrls(images[..n])
            then RawUrls(images[..n]) + [Get(images[n].fields, "url").text] else RawUrls(images[..n])
  {
    hide UsableUrl;
    assert images[..n + 1][..n] == images[..n];
  }

  /** Row i comes from entry j, the first to give its URL: its variant, its resolution, the first free key. */
  ghost predicate DrawnFrom(rows: seq<ManifestRow>, i: nat, images: seq<Value>, j: nat, productId: string,
                            show: Printer)
    requires i < |rows| && j < |images|
  {
    var row := rows[i];
    && images[j].Object?
    && var fields := images[j].fields;
    && UsableUrl(Get(fields, "url")) && Get(fields, "url").text !in RawUrls(images[..j])
    && row.sourceUrl == Text.Strip(Get(fields, "url").text)
    && row.variant == OptionalText(Get(fields, "variant"), show)
    && row.resolution == OptionalText(Get(fields, "resolution"), show)
    && FirstFree(row.storageKey, productId, Stem(Get(fields, "variant"), i, show), i, KeysOf(rows[..i]))
  }

  ghost predicate HasEntry(rows: seq<ManifestRow>, i: nat, images: seq<Value>, productId: string, show: Printer)
    requires i < |rows|
  {
    exists j :: 0 <= j < |images| && DrawnFrom(rows, i, images, j, productId, show)
  }

  ghost predicate Drawn(rows: seq<ManifestRow>, images: seq<Value>, productId: string, show: Printer) {
    forall i :: 0 <= i < |rows| ==> HasEntry(rows, i, images, productId, show)
  }

  lemma DrawnFromMore(rows: seq<ManifestRow>, i: nat, images: seq<Value>, j: nat, productId: string, show: Printer,
                      moreRows: seq<ManifestRow>, moreImages: seq<Value>)
    requires i < |rows| && j < |images| && DrawnFrom(rows, i, images, j, productId, show)
    requires rows <= moreRows && images <= moreImages
    ensures DrawnFrom(moreRows, i, moreImages, j, productId, show)
  {
    assert moreRows[..i] == rows[..i] && moreImages[..j] == images[..j];
  }

  lemma DrawnStays(rows: seq<ManifestRow>, images: seq<Value>, productId: string, show: Printer,
                   moreRows: seq<ManifestRow>, moreImages: seq<Value>)
    requires Drawn(rows, images, productId, show) && rows <= moreRows && images <= moreImages
    ensures forall i :: 0 <= i < |rows| ==> HasEntry(moreRows, i, moreImages, productId, show)
  {
    hide DrawnFrom;
    forall i | 0 <= i < |rows| ensures HasEntry(moreRows, i, moreImages, productId, show) {
      assert HasEntry(rows, i, images, productId, show);
      var j :| 0 <= j < |images| && DrawnFrom(rows, i, images, j, productId, show);
      DrawnFromMore(rows, i, images, j, productId, show, moreRows, moreImages);
    }
  }

  lemma DrawnGrows(rows: seq<ManifestRow>, row: ManifestRow, images: seq<Value>, n: nat, productId: string,
                   show: Printer)
    requires n < |images| && Drawn(rows, images[..n], productId, show)
    requires DrawnFrom(rows + [row], |rows|, images[..n + 1], n, productId, show)
    ensures Drawn(rows + [row], images[..n + 1], productId, show)
  {
    hide DrawnFrom;
    DrawnStays(rows, images[..n], productId, show, rows + [row], images[..n + 1]);
    assert HasEntry(rows + [row], |rows|, images[..n + 1], productId, show);
  }

  lemma NewRowIsDrawn(rows: seq<ManifestRow>, row: ManifestRow, images: seq<Value>, n: nat, productId: string,
                      show: Printer)
    requires n < |images| && images[n].Object?
    requires var fields := images[n].fields;
             && UsableUrl(Get(fields, "url")) && Get(fields, "url").text !in RawUrls(images[..n])
             && row.sourceUrl == Text.Strip(Get(fields, "url").text)
             && row.variant == OptionalText(Get(fields, "variant"), show)
             && row.resolution == OptionalText(Get(fields, "resolution"), show)
             && FirstFree(row.storageKey, productId, Stem(Get(fields, "variant"), |rows|, show), |rows|, KeysOf(rows))
    ensures DrawnFrom(rows + [row], |rows|, images[..n + 1], n, productId, show)
  {
    hide UsableUrl, RawUrls, Text.Strip, OptionalText, FirstFree, Stem, KeysOf, Get;
    assert (rows + [row])[..|rows|] == rows && images[..n + 1][..n] == images[..n];
  }

  method ImageManifestRows(productId: string, images: seq<Value>, show: Printer)
    returns (rows: seq<ManifestRow>)
    ensures Manifest(rows, productId, RawUrls(images))
    ensures Drawn(rows, images, productId, show)
    ensures DistinctSources(rows) <==> !DifferInSpace(RawUrls(images))
  {
    hide DistinctSources, DifferInSpace;
    hide UnderProduct, UsableText, Manifest, RawUrls, FirstFree, KeysOf, OptionalText, Text.Strip, Stem, Drawn,
         DrawnFrom;
    rows := [];
    var seenUrls: set<string>, usedKeys: set<string> := {}, {};
    ghost var urls := RawUrls(images[..0]);
    NothingYet(productId, images, show);
    for n := 0 to |images|
      invariant urls == RawUrls(images[..n])
      invariant Manifest(rows, productId, urls) && |rows| == |urls|
      invariant forall u :: u in seenUrls <==> u in urls
      invariant usedKeys == KeysOf(rows)
      invariant Drawn(rows, images[..n], productId, show)
    {
      ghost var before := rows;
      RawUrlsStep(images, n);
      var image := images[n];
      if image.Object? {
        var url := Get(image.fields, "url");
        if UsableUrl(url) {
          if url.text !in seenUrls {
            seenUrls := seenUrls + {url.text};
            var position := |rows|;
            var key, used := ImageStorageKey(productId, Get(image.fields, "variant"), position, usedKeys, show);
            usedKeys := used;
            var row := ManifestRow(productId, position, OptionalText(Get(image.fields, "variant"), show),
                                   OptionalText(Get(image.fields, "resolution"), show),
                                   Text.Strip(url.text), key, false);
            ManifestGrows(rows, productId, urls, row, url.text);
            NewRowIsDrawn(rows, row, images, n, productId, show);
            DrawnGrows(rows, row, images, n, productId, show);
            rows := rows + [row];
            urls := urls + [url.text];
          }
        }
      }
      if rows == before {
        NothingDrawn(rows, images, n, productId, show);
      }
    }
    assert images[..|images|] == images;
    SourcesDistinctIff(rows, productId, images);
  }

  lemma NothingYet(productId: string, images: seq<Value>, show: Printer)
    ensures RawUrls(images[..0]) == [] && Manifest([], productId, []) && KeysOf([]) == {}
    ensures Drawn([], images[..0], productId, show)
  {}

  lemma NothingDrawn(rows: seq<ManifestRow>, images: seq<Value>, n: nat, productId: string, show: Printer)
    requires n < |images| && Drawn(rows, images[..n], productId, show)
    ensures Drawn(rows, images[..n + 1], productId, show)
  {
    hide HasEntry;
    DrawnStays(rows, images[..n], productId, show, rows, images[..n + 1]);
  }

  /** How stage 2 writes a resolved image for stage 3 to read. */
  function Stored(row: Resolved): Value {
    Object(map["url" := Str(row.url), "variant" := TextOrNull(row.variant),
               "resolution" := Str(KeyText(row.resolution))])
  }

  function TextOrNull(t: Option<string>): Value {
    match t
    case None => Null
    case Some(s) => Str(s)
  }

  function StoredAll(rows: seq<Resolved>): seq<Value> {
    seq(|rows|, i requires 0 <= i < |rows| => Stored(rows[i]))
  }

  function UrlList(rows: seq<Resolved>): seq<string> {
    seq(|rows|, i requires 0 <= i < |rows| => rows[i].url)
  }

  lemma StoredUrl(row: Resolved)
    ensures Stored(row).Object? && Get(Stored(row).fields, "url") == Str(row.url)
  {}

  lemma BestUrlIsClean(fields: map<string, Value>)
    requires BestUrl(fields).Some?
    ensures UsableText(BestUrl(fields).value)
    ensures Text.Strip(BestUrl(fields).value) == BestUrl(fields).value
  {
    Text.StripTrims(Get(fields, KeyText(ResolutionOf(fields, BestUrl(fields).value))).text);
    ResolutionWon(fields);
    hide Text.Strip;
  }

  lemma {:induction false} StoredUrlsSurvive(rows: seq<Resolved>)
    requires forall i :: 0 <= i < |rows| ==> UsableText(rows[i].url)
    requires Distinct(rows)
    ensures RawUrls(StoredAll(rows)) == UrlList(rows)
    decreases |rows|
  {
    hide UsableText, Stored;
    if rows != [] {
      var n := |rows| - 1;
      StoredUrlsSurvive(rows[..n]);
      assert StoredAll(rows)[..n] == StoredAll(rows[..n]);
      assert UrlList(rows) == UrlList(rows[..n]) + [rows[n].url];
      StoredUrl(rows[n]);
      assert StoredAll(rows)[n] == Stored(rows[n]);
    } else {
      assert StoredAll(rows) == [] && UrlList(rows) == [];
    }
  }

  /** What stage 2 resolved reaches the manifest whole: one row for each URL, in the same order. */
  lemma ResolvedImagesReachManifest(images: seq<Value>, show: Printer)
    ensures RawUrls(StoredAll(Resolution(images, show))) == UrlList(Resolution(images, show))
    ensures forall i :: 0 <= i < |Resolution(images, show)| ==>
              Text.Strip(Resolution(images, show)[i].url) == Resolution(images, show)[i].url
  {
    hide UsableText, BestUrl, ResolutionOf, Text.Strip, StoredAll, UrlList;
    var rows := Resolution(images, show);
    ResolutionIsDistinct(images, show);
    forall i | 0 <= i < |rows|
      ensures UsableText(rows[i].url) && Text.Strip(rows[i].url) == rows[i].url
    {
      var j := ResolutionKeepsOrder(images, show, i);
      assert Offer(images[j]) == Some(rows[i].url);
      BestUrlIsClean(images[j].fields);
    }
    StoredUrlsSurvive(rows);
  }

  /** Two texts that differ, but only in the whitespace around them. */
  ghost predicate DifferInSpace(urls: seq<string>) {
    exists i, k :: 0 <= i < k < |urls| && urls[i] != urls[k] && Text.Strip(urls[i]) == Text.Strip(urls[k])
  }

  ghost predicate DistinctSources(rows: seq<ManifestRow>) {
    forall i, k :: 0 <= i < k < |rows| ==> rows[i].sourceUrl != rows[k].sourceUrl
  }

  lemma {:induction false} RawUrlsDiffer(images: seq<Value>)
    ensures forall i, k :: 0 <= i < k < |RawUrls(images)| ==> RawUrls(images)[i] != RawUrls(images)[k]
    decreases |images|
  {
    hide UsableUrl;
    if images != [] {
      RawUrlsDiffer(images[..|images| - 1]);
    }
  }

  /**
   * Stage 3 compares URLs as written but stores them stripped: the source URLs of a manifest are
   * distinct exactly when no two URLs of the product differ only in the whitespace around them.
   */
  lemma SourcesDistinctIff(rows: seq<ManifestRow>, productId: string, images: seq<Value>)
    requires Manifest(rows, productId, RawUrls(images))
    ensures DistinctSources(rows) <==> !DifferInSpace(RawUrls(images))
  {
    RawUrlsDiffer(images);
    hide RawUrls, Text.Strip, UnderProduct;
    var urls := RawUrls(images);
    if DistinctSources(rows) {
      forall i, k | 0 <= i < k < |urls| && urls[i] != urls[k]
        ensures Text.Strip(urls[i]) != Text.Strip(urls[k])
      {
        assert rows[i].sourceUrl != rows[k].sourceUrl;
      }
    } else {
      var i, k :| 0 <= i < k < |rows| && rows[i].sourceUrl == rows[k].sourceUrl;
      assert urls[i] != urls[k] && Text.Strip(urls[i]) == Text.Strip(urls[k]);
    }
  }

  /** It happens: a URL given twice, once after a space, has two rows with one source URL. */
  lemma UnstrippedUrlsRepeat(url: string, rows: seq<ManifestRow>, productId: string)
    requires UsableText(url) && Text.Strip(url) == url
    requires var images := [Object(map["url" := Str(url)]), Object(map["url" := Str(" " + url)])];
             Manifest(rows, productId, RawUrls(images))
    ensures |rows| == 2 && rows[0].sourceUrl == url == rows[1].sourceUrl
  {
    var spaced := " " + url;
    assert spaced[1..] == url && Text.StripLeft(spaced) == Text.StripLeft(url);
    assert Text.Strip(spaced) == url;
    var first, second := Object(map["url" := Str(url)]), Object(map["url" := Str(spaced)]);
    hide UsableText;
    assert UsableText(spaced) by {
      UsableWhenStripped(spaced, url);
    }
    assert [first, second][..1] == [first];
    assert RawUrls([first]) == [url] by {
      assert [first][..0] == [];
    }
    assert spaced != url by {
      assert |spaced| == |url| + 1;
    }
    assert RawUrls([first, second]) == [url, spaced];
  }

  lemma UsableWhenStripped(a: string, b: string)
    requires Text.Strip(a) == Text.Strip(b) && UsableText(b)
    ensures UsableText(a)
  {}

  // ----- Stage 3 ------------------------------------------------------------

  datatype Product = Product(productId: string, images: seq<Value>)

  datatype StageError = DuplicateStorageKey(key: string)

  /** A key tells its product id: everything before its last slash. */
  lemma KeysTellProducts(key: string, p: string, q: string)
    requires UnderProduct(key, p) && UnderProduct(key, q)
    ensures p == q
  {}

  /** The total number of images a list of products has, once repeats are dropped. */
  function ImageCount(products: seq<Product>): nat {
    if products == [] then 0
    else ImageCount(products[..|products| - 1]) + |RawUrls(products[|products| - 1].images)|
  }

  /** With distinct product ids, whatever the ids contain, no key is ever allocated twice. */
  method StageImages(products: seq<Product>, show: Printer) returns (result: Result<seq<ManifestRow>, StageError>)
    ensures (forall i, k :: 0 <= i < k < |products| ==> products[i].productId != products[k].productId)
            ==> result.Ok?
    ensures result.Ok? ==>
              && |result.value| == ImageCount(products)
              && forall i, k :: 0 <= i < k < |result.value| ==>
                   result.value[i].storageKey != result.value[k].storageKey
  {
    hide UnderProduct, RawUrls, DistinctSources, DifferInSpace;
    var written: seq<ManifestRow>, seenKeys: set<string> := [], {};
    for p := 0 to |products|
      invariant |written| == ImageCount(products[..p])
      invariant forall row :: row in written ==> row.storageKey in seenKeys
      invariant forall key :: key in seenKeys ==> exists q :: 0 <= q < p && UnderProduct(key, products[q].productId)
      invariant forall i, k :: 0 <= i < k < |written| ==> written[i].storageKey != written[k].storageKey
    {
      assert products[..p + 1][..p] == products[..p];
      var rows := ImageManifestRows(products[p].productId, products[p].images, show);
      ghost var earlier := seenKeys;
      for r := 0 to |rows|
        invariant |written| == ImageCount(products[..p]) + r
        invariant forall row :: row in written ==> row.storageKey in seenKeys
        invariant forall key :: key in seenKeys ==>
                    key in earlier || exists j :: 0 <= j < r && rows[j].storageKey == key
        invariant forall i, k :: 0 <= i < k < |written| ==> written[i].storageKey != written[k].storageKey
      {
        var key := rows[r].storageKey;
        if key in seenKeys {
          assert key in earlier;
          ghost var q :| 0 <= q < p && UnderProduct(key, products[q].productId);
          KeysTellProducts(key, products[q].productId, products[p].productId);
          return Err(DuplicateStorageKey(key));
        }
        seenKeys := seenKeys + {key};
        written := written + [rows[r]];
      }
      forall key | key in seenKeys
        ensures exists q :: 0 <= q < p + 1 && UnderProduct(key, products[q].productId)
      {
        if key !in earlier {
          assert UnderProduct(key, products[p].productId);
        }
      }
    }
    assert products[..|products|] == products;
    return Ok(written);
  }
}
