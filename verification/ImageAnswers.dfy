/**
 * Which URL an image offers, which URLs a manifest holds and under which keys, said of the texts
 * themselves.
 */
module ImageAnswers {
  import opened Outcomes
  import opened CatalogImages
  import Text
  import opened Decimal

  // ----- URLs -------------------------------------------------------------------

  /** A text that reads as an http or https URL, in any casing and padding. */
  predicate WebUrl(v: Value) {
    match v
    case Str(s) => "http://" <= Text.Lower(Text.Strip(s)) || "https://" <= Text.Lower(Text.Strip(s))
    case _ => false
  }

  /** The best URL is the first in the order hi_res, large, thumb; an image offers none only when all three fail. */
  lemma BestUrlIs(fields: map<string, Value>)
    ensures var (hiRes, large, thumb) := (Get(fields, "hi_res"), Get(fields, "large"), Get(fields, "thumb"));
            var best := BestUrl(fields);
            if WebUrl(hiRes) then best == Some(Text.Strip(hiRes.text)) && ResolutionOf(fields, best.value) == HiRes
            else if WebUrl(large) then best == Some(Text.Strip(large.text)) && ResolutionOf(fields, best.value) == Large
            else if WebUrl(thumb) then best == Some(Text.Strip(thumb.text)) && ResolutionOf(fields, best.value) == Thumb
            else best == None
  {
    forall v ensures UsableUrl(v) <==> WebUrl(v) {}
    hide UsableUrl, WebUrl, Text.Strip;
  }

  predicate GivesUrl(image: Value, url: string) {
    image.Object? && Get(image.fields, "url") == Str(url) && WebUrl(Str(url))
  }

  /** A manifest holds a URL exactly when some entry gives it. */
  lemma {:induction false} RawUrlsIff(images: seq<Value>, url: string)
    ensures url in RawUrls(images) <==> exists j :: 0 <= j < |images| && GivesUrl(images[j], url)
    decreases |images|
  {
    if images != [] {
      var n := |images| - 1;
      RawUrlsIff(images[..n], url);
      assert UsableUrl(Str(url)) <==> WebUrl(Str(url));
      hide UsableUrl, WebUrl;
      assert images == images[..n] + [images[n]];
    }
  }

  /** URL i is given first by entry j, after i others. */
  ghost predicate GivenFirst(images: seq<Value>, j: nat, url: string, i: nat)
    requires j < |images|
  {
    && GivesUrl(images[j], url) && |RawUrls(images[..j])| == i
    && forall h :: 0 <= h < j ==> !GivesUrl(images[h], url)
  }

  /** They stand in the order in which they are first given. */
  lemma {:induction false} RawUrlsInOrder(images: seq<Value>, i: nat) returns (j: nat)
    requires i < |RawUrls(images)|
    ensures j < |images| && GivenFirst(images, j, RawUrls(images)[i], i)
    decreases |images|
  {
    var n := |images| - 1;
    assert images != [];
    var before := RawUrls(images[..n]);
    if i < |before| {
      assert RawUrls(images)[i] == before[i];
      hide RawUrls, WebUrl;
      j := RawUrlsInOrder(images[..n], i);
      assert images[..n][..j] == images[..j];
      forall h | 0 <= h < j ensures !GivesUrl(images[h], RawUrls(images)[i]) {
        assert images[..n][h] == images[h];
      }
    } else {
      j := n;
      var url := RawUrls(images)[i];
      assert Get(images[n].fields, "url") == Str(url) && url !in before && |before| == i;
      assert WebUrl(Str(url));
      hide RawUrls, WebUrl;
      forall h | 0 <= h < n ensures !GivesUrl(images[h], url) {
        RawUrlsIff(images[..n], url);
        assert images[..n][h] == images[h];
      }
    }
  }

  // ----- Keys -------------------------------------------------------------------

  /** Two slugs with something else between them. */
  function Joined(a: string, b: string): string {
    if a == "" then b else if b == "" then a else a + "_" + b
  }

  predicate OnlyWords(s: string) {
    forall i :: 0 <= i < |s| ==> IsWordChar(Text.LowerChar(s[i]))
  }

  /** The slug of letters and digits is their lower case. */
  lemma {:induction false} SlugOfWord(s: string)
    requires OnlyWords(s)
    ensures SlugStart(s) == Slug(s) == Text.Lower(s)
    decreases |s|
  {
    if s != "" {
      var n := |s| - 1;
      SlugOfWord(s[..n]);
      assert Text.Lower(s) == Text.Lower(s[..n]) + [Text.LowerChar(s[n])];
    }
  }

  function Open(slug: string): string {
    if slug == "" then "" else slug + "_"
  }

  predicate Closed(s: string) {
    s == "" || s[|s| - 1] != '_'
  }

  /** A slug in progress is the slug, perhaps with an underscore after it. */
  lemma {:induction false} SlugInProgress(s: string)
    ensures Closed(Slug(s)) && Slug(s) == Unscored(SlugStart(s))
    ensures SlugStart(s) == Slug(s) || (Slug(s) != "" && SlugStart(s) == Slug(s) + "_")
    decreases |s|
  {
    if s != "" {
      var n := |s| - 1;
      SlugInProgress(s[..n]);
      assert !IsWordChar('_');
    }
  }

  /** One more character on a slug in progress. */
  function Grown(rest: string, c: char): string {
    if IsWordChar(Text.LowerChar(c)) then rest + [Text.LowerChar(c)]
    else if rest == "" || rest[|rest| - 1] == '_' then rest
    else rest + "_"
  }

  lemma StartGrows(s: string, c: char)
    ensures SlugStart(s + [c]) == Grown(SlugStart(s), c)
  {
    hide IsWordChar, Text.LowerChar;
    assert (s + [c])[..|s|] == s;
  }

  lemma GrownAfter(slug: string, rest: string, c: char)
    ensures Grown(Open(slug) + rest, c) == Open(slug) + Grown(rest, c)
  {}

  lemma OpensAfter(a: string, c: char)
    requires !IsWordChar(Text.LowerChar(c))
    ensures SlugStart(a + [c]) == Open(Slug(a))
  {
    SlugInProgress(a);
    StartGrows(a, c);
    hide Slug, SlugStart;
  }

  /** Whatever is no letter or digit separates, as one underscore between what is not empty. */
  lemma {:induction false} SeparatorStarts(a: string, c: char, b: string)
    requires !IsWordChar(Text.LowerChar(c))
    ensures SlugStart(a + [c] + b) == Open(Slug(a)) + SlugStart(b)
    decreases |b|
  {
    hide Slug, IsWordChar, Text.LowerChar, Grown, Open;
    if b == "" {
      assert a + [c] + b == a + [c];
      OpensAfter(a, c);
    } else {
      hide SlugStart;
      var n := |b| - 1;
      SeparatorStarts(a, c, b[..n]);
      assert a + [c] + b == (a + [c] + b[..n]) + [b[n]] && b == b[..n] + [b[n]];
      StartGrows(a + [c] + b[..n], b[n]);
      StartGrows(b[..n], b[n]);
      GrownAfter(Slug(a), SlugStart(b[..n]), b[n]);
    }
  }

  lemma OpenJoins(slug: string, rest: string, last: string)
    requires Closed(slug) && last == Unscored(rest) && (rest == last || (last != "" && rest == last + "_"))
    ensures Unscored(Open(slug) + rest) == Joined(slug, last)
  {
    if rest == "" {
      assert Open(slug) + rest == Open(slug);
    } else if rest == last {
      assert last[|last| - 1] != '_';
      assert Open(slug) + rest == Joined(slug, last);
    } else {
      assert Open(slug) + rest == Joined(slug, last) + "_";
    }
  }

  /** The slug of two texts with a separator between them joins their slugs. */
  lemma SlugJoins(a: string, c: char, b: string)
    requires !IsWordChar(Text.LowerChar(c))
    ensures Slug(a + [c] + b) == Joined(Slug(a), Slug(b))
  {
    hide Slug, SlugStart, Unscored, Joined, Open, IsWordChar, Text.LowerChar;
    SeparatorStarts(a, c, b);
    SlugInProgress(a);
    SlugInProgress(b);
    SlugInProgress(a + [c] + b);
    OpenJoins(Slug(a), SlugStart(b), Slug(b));
  }

  /** The keys tried for an image, in order: its slug or its position, then both, then a count as well. */
  lemma FirstKeyTried(productId: string, variant: Value, position: nat, show: Printer)
    ensures var slug := Slug(VariantText(variant, show));
            KeyFor(productId, PlainTail(Stem(variant, position, show)))
            == productId + "/" + ((if slug == "" then "image_" + TwoDigits(position) else slug) + ".jpg")
  {
    hide Slug, TwoDigits, VariantText;
  }

  lemma LaterKeysTried(productId: string, stem: string, position: nat, n: nat)
    ensures KeyFor(productId, NumberedTail(stem, position, n))
         == productId + "/" + (stem + "_" + TwoDigits(position)
                               + (if n == 0 then "" else "_" + NatText(n)) + ".jpg")
  {
    hide NatText, TwoDigits;
  }

  /** Positions are written with two digits, or as many as they need. */
  lemma TwoDigitsAre(n: nat)
    ensures AllDigits(TwoDigits(n)) && TextNat(TwoDigits(n)) == n
    ensures n < 100 ==> |TwoDigits(n)| == 2
    ensures n >= 100 ==> TwoDigits(n) == NatText(n)
  {
    ZeroPadReads(n, 2);
    if n < 100 {
      TwoPlaces(n);
    } else {
      assert |NatText(n / 10)| >= 1;
    }
  }
}
