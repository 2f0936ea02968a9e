/**
 * What a record must say to be kept, and what the table of a completed run therefore holds,
 * said of the texts of the record and the lines of the files.
 */
module CatalogVerdicts {
  import opened Outcomes
  import opened CatalogImages
  import opened CatalogStream
  import Text

  /** The stripped text of a value, empty for null. */
  function Said(v: Value, show: Printer): string {
    Text.Strip(match v case Null => "" case Str(s) => s case Scalar(s, _) => s case _ => show(v))
  }

  /** It reads as an http or https URL, in any casing. */
  predicate SaysUrl(v: Value, show: Printer) {
    "http://" <= Text.Lower(Said(v, show)) || "https://" <= Text.Lower(Said(v, show))
  }

  predicate OffersUrl(at: string -> Value, show: Printer) {
    SaysUrl(at("hi_res"), show) || SaysUrl(at("large"), show) || SaysUrl(at("thumb"), show)
  }

  predicate ItemOffersUrl(item: Value, show: Printer) {
    match item
    case Object(fields) => OffersUrl(key => Get(fields, key), show)
    case Str(_) => SaysUrl(item, show)
    case _ => false
  }

  predicate RowOffersUrl(fields: map<string, Value>, i: nat, show: Printer) {
    OffersUrl(key => At(Column(Get(fields, key)), i), show)
  }

  /** Some image of either shape offers one: an item of the list, or one row of the columns. */
  ghost predicate ImagesOfferUrl(raw: Value, show: Printer) {
    match raw
    case List(items) => exists i :: 0 <= i < |items| && ItemOffersUrl(items[i], show)
    case Object(fields) => exists i: nat :: RowOffersUrl(fields, i, show)
    case _ => false
  }

  lemma SaidIsText(v: Value, show: Printer)
    ensures OptionalText(v, show) == if Said(v, show) == "" then None else Some(Said(v, show))
  {
    assert Text.Strip("") == "";
  }

  lemma SaidIsUrl(v: Value, show: Printer)
    ensures OptionalText(v, show).Some? && UsableText(OptionalText(v, show).value) <==> SaysUrl(v, show)
  {
    SaidIsText(v, show);
    var s := match v case Null => "" case Str(s) => s case Scalar(s, _) => s case _ => show(v);
    Text.StripTrims(s);
    hide OptionalText;
    assert Text.Lower("") == "";
  }

  lemma EntryIsUsable(at: Key -> Value, named: string -> Value, show: Printer)
    requires at(HiRes) == named("hi_res") && at(Large) == named("large") && at(Thumb) == named("thumb")
    ensures UsableImage(EntryOf(at, show)) <==> OffersUrl(named, show)
  {
    hide OptionalText, UsableText, SaysUrl;
    SaidIsUrl(at(HiRes), show);
    SaidIsUrl(at(Large), show);
    SaidIsUrl(at(Thumb), show);
  }

  lemma ItemIsUsable(item: Value, show: Printer)
    ensures UsableImage(ImageEntry(item, show)) <==> ItemOffersUrl(item, show)
  {
    match item
    case Object(fields) => EntryIsUsable(k => Get(fields, KeyText(k)), key => Get(fields, key), show);
    case Str(_) => SaidIsUrl(item, show);
    case _ =>
  }

  lemma RowIsUsable(fields: map<string, Value>, i: nat, show: Printer)
    ensures UsableImage(ColumnarEntry(fields, i, show)) <==> RowOffersUrl(fields, i, show)
  {
    EntryIsUsable(k => At(Column(Get(fields, KeyText(k))), i), key => At(Column(Get(fields, key)), i), show);
  }

  /** Nothing is left exactly when no entry is usable. */
  lemma {:induction false} SomeUsable(entries: seq<Image>)
    ensures Usable(entries) != [] <==> exists i :: 0 <= i < |entries| && UsableImage(entries[i])
    decreases |entries|
  {
    hide UsableImage;
    if entries != [] {
      SomeUsable(entries[..|entries| - 1]);
      assert entries == entries[..|entries| - 1] + [entries[|entries| - 1]];
    }
  }

  lemma BelowColumns(fields: map<string, Value>, i: nat, show: Printer)
    requires Height(fields) <= i
    ensures !RowOffersUrl(fields, i, show)
  {
    assert Said(Null, show) == "" && Text.Lower("") == "";
  }

  /** The list of normalized images is empty exactly when no image offers a URL. */
  lemma ImagesRemainIff(raw: Value, show: Printer)
    ensures NormalizeImages(raw, show) != [] <==> ImagesOfferUrl(raw, show)
  {
    hide UsableImage, ImageEntry, ColumnarEntry, ItemOffersUrl, RowOffersUrl, Height, Usable;
    var entries := ImageEntries(raw, show);
    SomeUsable(entries);
    match raw
    case List(items) =>
      forall i | 0 <= i < |items|
        ensures UsableImage(entries[i]) <==> ItemOffersUrl(items[i], show)
      {
        ItemIsUsable(items[i], show);
      }
    case Object(fields) =>
      forall i: nat
        ensures RowOffersUrl(fields, i, show) <==> i < |entries| && UsableImage(entries[i])
      {
        if i < |entries| { RowIsUsable(fields, i, show); } else { BelowColumns(fields, i, show); }
      }
    case _ =>
  }

  /** The stripped text of a value, where there is any. */
  function Maybe(v: Value, show: Printer): Option<string> {
    if Said(v, show) == "" then None else Some(Said(v, show))
  }

  predicate Repeats(image: Image, at: string -> Value, show: Printer) {
    && image.hiRes == Maybe(at("hi_res"), show) && image.large == Maybe(at("large"), show)
    && image.thumb == Maybe(at("thumb"), show) && image.variant == Maybe(at("variant"), show)
  }

  lemma EntryRepeats(at: Key -> Value, named: string -> Value, show: Printer)
    requires forall k: Key :: at(k) == named(KeyText(k))
    ensures Repeats(EntryOf(at, show), named, show)
  {
    hide OptionalText, Said;
    assert at(HiRes) == named("hi_res") && at(Large) == named("large");
    assert at(Thumb) == named("thumb") && at(Variant) == named("variant");
    SaidIsText(at(HiRes), show);
    SaidIsText(at(Large), show);
    SaidIsText(at(Thumb), show);
    SaidIsText(at(Variant), show);
  }

  lemma ItemSays(item: Value, show: Printer)
    ensures match item
            case Object(fields) => Repeats(ImageEntry(item, show), key => Get(fields, key), show)
            case Str(_) => ImageEntry(item, show) == Image(None, Maybe(item, show), None, None)
            case _ => ImageEntry(item, show) == Image(None, None, None, None)
  {
    hide Repeats, EntryOf, Get, KeyText, OptionalText, Said;
    match item
    case Object(fields) => EntryRepeats(k => Get(fields, KeyText(k)), key => Get(fields, key), show);
    case Str(_) => SaidIsText(item, show);
    case _ =>
  }

  lemma RowSays(fields: map<string, Value>, i: nat, show: Printer)
    ensures Repeats(ColumnarEntry(fields, i, show), key => At(Column(Get(fields, key)), i), show)
  {
    hide Repeats, EntryOf, Get, KeyText, Column, At;
    EntryRepeats(k => At(Column(Get(fields, KeyText(k))), i), key => At(Column(Get(fields, key)), i), show);
  }

  /** What entry i of either shape says: its four texts, or the one text that is a bare URL. */
  lemma EntriesSay(raw: Value, i: nat, show: Printer)
    requires i < |ImageEntries(raw, show)|
    ensures var image := ImageEntries(raw, show)[i];
            match raw
            case List(items) =>
              i < |items|
              && (match items[i]
                  case Object(fields) => Repeats(image, key => Get(fields, key), show)
                  case Str(_) => image == Image(None, Maybe(items[i], show), None, None)
                  case _ => image == Image(None, None, None, None))
            case Object(fields) => Repeats(image, key => At(Column(Get(fields, key)), i), show)
            case _ => false
  {
    hide Repeats, ImageEntry, ColumnarEntry, Maybe, Height;
    match raw
    case List(items) => ItemSays(items[i], show);
    case Object(fields) => RowSays(fields, i, show);
    case _ =>
  }

  /** Where the usable entries stand, in order. */
  ghost predicate Stand(entries: seq<Image>, at: seq<nat>) {
    && (forall i :: 0 <= i < |at| ==> at[i] < |entries| && UsableImage(entries[at[i]]))
    && (forall i, k :: 0 <= i < k < |at| ==> at[i] < at[k])
    && (forall j :: 0 <= j < |entries| && UsableImage(entries[j]) ==> j in at)
  }

  function Picked(entries: seq<Image>, at: seq<nat>): seq<Image>
    requires forall i :: 0 <= i < |at| ==> at[i] < |entries|
  {
    seq(|at|, i requires 0 <= i < |at| => entries[at[i]])
  }

  lemma PickedOfPrefix(entries: seq<Image>, at: seq<nat>)
    requires entries != [] && forall i :: 0 <= i < |at| ==> at[i] < |entries| - 1
    ensures Picked(entries[..|entries| - 1], at) == Picked(entries, at)
    ensures Picked(entries, at + [|entries| - 1]) == Picked(entries, at) + [entries[|entries| - 1]]
  {}

  lemma UsableStandsAfter(entries: seq<Image>, at: seq<nat>)
    requires entries != [] && Stand(entries[..|entries| - 1], at) && UsableImage(entries[|entries| - 1])
    ensures Stand(entries, at + [|entries| - 1])
  {
    hide UsableImage;
    var n: nat := |entries| - 1;
    forall j | 0 <= j < n && UsableImage(entries[j]) ensures j in at {
      assert entries[..n][j] == entries[j];
    }
    forall i | 0 <= i < |at| ensures at[i] < n && UsableImage(entries[at[i]]) {
      assert entries[..n][at[i]] == entries[at[i]];
    }
  }

  lemma UnusableStandsAfter(entries: seq<Image>, at: seq<nat>)
    requires entries != [] && Stand(entries[..|entries| - 1], at) && !UsableImage(entries[|entries| - 1])
    ensures Stand(entries, at)
  {
    hide UsableImage;
    var n: nat := |entries| - 1;
    forall j | 0 <= j < n && UsableImage(entries[j]) ensures j in at {
      assert entries[..n][j] == entries[j];
    }
    forall i | 0 <= i < |at| ensures at[i] < n && UsableImage(entries[at[i]]) {
      assert entries[..n][at[i]] == entries[at[i]];
    }
  }

  lemma UsableStep(entries: seq<Image>)
    requires entries != []
    ensures Usable(entries)
         == Usable(entries[..|entries| - 1])
            + (if UsableImage(entries[|entries| - 1]) then [entries[|entries| - 1]] else [])
  {
    hide UsableImage;
  }

  lemma NoneStand()
    ensures Stand([], []) && Usable([]) == Picked([], [])
  {}

  /** The entries that remain are exactly the usable ones, in their order. */
  lemma {:induction false} UsableInOrder(entries: seq<Image>) returns (at: seq<nat>)
    ensures Stand(entries, at) && Usable(entries) == Picked(entries, at)
    decreases |entries|
  {
    hide UsableImage, Usable, Picked;
    NoneStand();
    at := [];
    if entries != [] {
      at := UsableInOrder(entries[..|entries| - 1]);
      PickedOfPrefix(entries, at);
      UsableStep(entries);
      if UsableImage(entries[|entries| - 1]) {
        UsableStandsAfter(entries, at);
        at := at + [|entries| - 1];
      } else {
        UnusableStandsAfter(entries, at);
      }
      hide Stand;
    }
  }

  // ----- The verdict on a record ---------------------------------------------

  /** What a record needs, whatever was seen before it. */
  ghost predicate Keepable(cfg: Config, record: map<string, Value>) {
    && Said(Get(record, "parent_asin"), cfg.show) != ""
    && 8 <= |Said(Get(record, "title"), cfg.show)| <= 300
    && ImagesOfferUrl(Get(record, "images"), cfg.show)
  }

  /** Each verdict is given in exactly one case; the rejects come in this order. */
  lemma VerdictIff(cfg: Config, record: map<string, Value>, source: string, seen: set<string>)
    ensures var verdict := EvaluateRecord(cfg, record, source, seen);
            var parent, title := Said(Get(record, "parent_asin"), cfg.show), Said(Get(record, "title"), cfg.show);
            var offers := ImagesOfferUrl(Get(record, "images"), cfg.show);
            && (verdict == Err(NoParent) <==> parent == "")
            && (verdict == Err(TitleLength) <==> parent != "" && !(8 <= |title| <= 300))
            && (verdict == Err(NoUsableImage) <==> parent != "" && 8 <= |title| <= 300 && !offers)
            && (verdict == Err(DuplicateParent) <==> Keepable(cfg, record) && parent in seen)
            && (verdict.Ok? <==> Keepable(cfg, record) && parent !in seen)
  {
    SaidIsText(Get(record, "parent_asin"), cfg.show);
    SaidIsText(Get(record, "title"), cfg.show);
    ImagesRemainIff(Get(record, "images"), cfg.show);
    hide OptionalText, Said, NormalizeImages, ImagesOfferUrl, Get;
  }

  /** A kept candidate says what its record says. */
  predicate Tells(cfg: Config, c: Candidate, record: map<string, Value>, source: string) {
    && c.parentAsin == Said(Get(record, "parent_asin"), cfg.show)
    && c.title == Said(Get(record, "title"), cfg.show)
    && c.images == NormalizeImages(Get(record, "images"), cfg.show)
    && c.sourceFile == source && c.raw == record && c.columns == cfg.columns(record)
  }

  lemma KeptTells(cfg: Config, record: map<string, Value>, source: string, seen: set<string>)
    requires EvaluateRecord(cfg, record, source, seen).Ok?
    ensures Tells(cfg, EvaluateRecord(cfg, record, source, seen).value, record, source)
  {
    SaidIsText(Get(record, "parent_asin"), cfg.show);
    SaidIsText(Get(record, "title"), cfg.show);
    hide OptionalText, Said, NormalizeImages, Get;
  }

  // ----- Lines --------------------------------------------------------------

  /** A line holds this JSON object. */
  predicate Holds(cfg: Config, line: string, record: map<string, Value>) {
    Text.Strip(line) != "" && cfg.decode(Text.Strip(line)) == Some(Object(record))
  }

  lemma ParsesIff(cfg: Config, line: string, record: map<string, Value>)
    ensures ParseLine(cfg, line) == Record(record) <==> Holds(cfg, line, record)
  {
    hide Text.Strip;
  }

  /** A line is eligible exactly when it holds an object that can be kept, and gives what that says. */
  lemma EligibleIff(cfg: Config, e: Entry, c: Candidate)
    ensures Eligible(cfg, e) == Some(c) <==>
            Holds(cfg, e.line, c.raw) && Keepable(cfg, c.raw) && Tells(cfg, c, c.raw, e.source)
  {
    hide EvaluateRecord, Keepable, Tells, Holds, ParseLine;
    ParsesIff(cfg, e.line, c.raw);
    match ParseLine(cfg, e.line)
    case Record(fields) =>
      VerdictIff(cfg, fields, e.source, {});
      if EvaluateRecord(cfg, fields, e.source, {}).Ok? {
        var kept := EvaluateRecord(cfg, fields, e.source, {}).value;
        KeptTells(cfg, fields, e.source, {});
        if Tells(cfg, c, c.raw, e.source) && c.raw == fields {
          TellingIsUnique(cfg, kept, c, fields, e.source);
        }
        RawOfTelling(cfg, kept, fields, e.source);
      }
    case _ =>
  }

  lemma RawOfTelling(cfg: Config, c: Candidate, record: map<string, Value>, source: string)
    requires Tells(cfg, c, record, source)
    ensures c.raw == record
  {}

  lemma TellingIsUnique(cfg: Config, a: Candidate, b: Candidate, record: map<string, Value>, source: string)
    requires Tells(cfg, a, record, source) && Tells(cfg, b, record, source)
    ensures a == b
  {}

  // ----- Streams and tables ---------------------------------------------------

  /** This is line i of a source on disk, where a capped run still reads it. */
  predicate Reads(cfg: Config, cap: Option<nat>, source: string, i: nat, line: string) {
    && source in cfg.files && i < |cfg.files[source]| && cfg.files[source][i] == line
    && (cap.None? || i < cap.value)
  }

  lemma SourceReads(cfg: Config, source: string, cap: Option<nat>, e: Entry)
    ensures e in SourceEntries(cfg, source, cap) <==>
            e.source == source && exists i: nat :: Reads(cfg, cap, source, i, e.line)
  {
    if source in cfg.files {
      var lines, entries := cfg.files[source], SourceEntries(cfg, source, cap);
      assert forall i: nat :: i < |entries| ==>
               entries[i] == Entry(source, lines[i]) && Reads(cfg, cap, source, i, lines[i]);
      if e.source == source {
        forall i: nat | Reads(cfg, cap, source, i, e.line) ensures i < |entries| && entries[i] == e {}
      }
    }
  }

  /** The stream is what a capped run reads of the sources on disk, no more and no less. */
  lemma {:induction false} StreamReads(cfg: Config, sources: seq<string>, cap: Option<nat>, e: Entry)
    ensures e in Stream(cfg, sources, cap) <==>
            e.source in sources && exists i: nat :: Reads(cfg, cap, e.source, i, e.line)
    decreases |sources|
  {
    hide SourceEntries, Reads;
    if sources != [] {
      var n := |sources| - 1;
      StreamReads(cfg, sources[..n], cap, e);
      SourceReads(cfg, sources[n], cap, e);
      assert sources == sources[..n] + [sources[n]];
    }
  }

  /** Some line the run reads holds a record that can be kept, under this identifier. */
  ghost predicate Offered(cfg: Config, sources: seq<string>, cap: Option<nat>, k: string) {
    exists source, i: nat, line, record ::
      && source in sources && Reads(cfg, cap, source, i, line) && Holds(cfg, line, record)
      && Keepable(cfg, record) && Said(Get(record, "parent_asin"), cfg.show) == k
  }

  /** A row says what some line the run read says, and that can be kept. */
  ghost predicate Sourced(cfg: Config, sources: seq<string>, cap: Option<nat>, c: Candidate) {
    && c.sourceFile in sources && Keepable(cfg, c.raw) && Tells(cfg, c, c.raw, c.sourceFile)
    && exists i: nat, line :: Reads(cfg, cap, c.sourceFile, i, line) && Holds(cfg, line, c.raw)
  }

  /**
   * The table of a completed run: every new row comes from a line that was read, with a title of 8 to 300
   * characters and a usable image, and every such line has a row.
   */
  ghost predicate Staged(cfg: Config, sources: seq<string>, cap: Option<nat>, before: Table, after: Table) {
    && (forall k :: k in after <==> k in before || Offered(cfg, sources, cap, k))
    && (forall k :: k in before ==> k in after && after[k] == before[k])
    && (forall k :: k in after && k !in before ==> after[k].parentAsin == k && Sourced(cfg, sources, cap, after[k]))
  }

  lemma NewRowIsSourced(cfg: Config, t: Table, sources: seq<string>, cap: Option<nat>, k: string)
    requires k in FirstWins(cfg, t, Stream(cfg, sources, cap)) && k !in t
    ensures var c := FirstWins(cfg, t, Stream(cfg, sources, cap))[k];
            c.parentAsin == k && Sourced(cfg, sources, cap, c) && Offered(cfg, sources, cap, k)
  {
    hide FirstWins, Stream, Eligible, Keepable, Holds, Reads;
    var stream := Stream(cfg, sources, cap);
    var h := NewRowsAreFirst(cfg, t, stream, k);
    var c := FirstWins(cfg, t, stream)[k];
    EligibleIff(cfg, stream[h], c);
    StreamReads(cfg, sources, cap, stream[h]);
  }

  lemma OfferedHasRow(cfg: Config, t: Table, sources: seq<string>, cap: Option<nat>, k: string)
    requires Offered(cfg, sources, cap, k)
    ensures k in FirstWins(cfg, t, Stream(cfg, sources, cap))
  {
    hide FirstWins, Stream, Eligible, Keepable, Holds, Reads, NormalizeImages, Said;
    var stream := Stream(cfg, sources, cap);
    var source, i: nat, line, record :|
      && source in sources && Reads(cfg, cap, source, i, line) && Holds(cfg, line, record)
      && Keepable(cfg, record) && Said(Get(record, "parent_asin"), cfg.show) == k;
    var e := Entry(source, line);
    StreamReads(cfg, sources, cap, e);
    var c := Candidate(k, source, Said(Get(record, "title"), cfg.show),
                       NormalizeImages(Get(record, "images"), cfg.show), cfg.columns(record), record);
    EligibleIff(cfg, e, c);
    FirstWinsCovers(cfg, t, stream);
  }

  /** Completed runs are staged so. */
  lemma ResultIsStaged(cfg: Config, t: Table, sources: seq<string>, cap: Option<nat>)
    ensures Staged(cfg, sources, cap, t, FirstWins(cfg, t, Stream(cfg, sources, cap)))
  {
    hide FirstWins, Stream, Eligible, Offered, Sourced;
    var result := FirstWins(cfg, t, Stream(cfg, sources, cap));
    FirstWinsCovers(cfg, t, Stream(cfg, sources, cap));
    forall k ensures k in result <==> k in t || Offered(cfg, sources, cap, k) {
      if k in result && k !in t { NewRowIsSourced(cfg, t, sources, cap, k); }
      if Offered(cfg, sources, cap, k) { OfferedHasRow(cfg, t, sources, cap, k); }
    }
    forall k | k in result && k !in t ensures result[k].parentAsin == k && Sourced(cfg, sources, cap, result[k]) {
      NewRowIsSourced(cfg, t, sources, cap, k);
    }
  }
}
