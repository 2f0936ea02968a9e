/**
 * Which record of the metadata streams becomes the candidate of each parent identifier:
 * the first eligible one, whatever is already stored and wherever a run is cut off.
 */
module CatalogStream {
  import opened Outcomes
  import opened CatalogImages
  import Text

  const TITLE_MIN_LENGTH: nat := 8
  const TITLE_MAX_LENGTH: nat := 300

  /** What is on disk, and the two parsers this model leaves open. */
  datatype Config = Config(files: map<string, seq<string>>, decode: string -> Option<Value>,
                           show: Printer, columns: map<string, Value> -> seq<string>)

  /** An accepted record; `columns` stands for everything else that is derived from it. */
  datatype Candidate = Candidate(parentAsin: string, sourceFile: string, title: string,
                                 images: seq<Image>, columns: seq<string>, raw: map<string, Value>)

  datatype Reject = NoParent | TitleLength | NoUsableImage | DuplicateParent

  /** The four hard rejects, in order. */
  function EvaluateRecord(cfg: Config, record: map<string, Value>, source: string, seen: set<string>)
    : Result<Candidate, Reject>
  {
    var parent := OptionalText(Get(record, "parent_asin"), cfg.show);
    var title := OptionalText(Get(record, "title"), cfg.show);
    var images := NormalizeImages(Get(record, "images"), cfg.show);
    if parent.None? then Err(NoParent)
    else if title.None? || !(TITLE_MIN_LENGTH <= |title.value| <= TITLE_MAX_LENGTH) then Err(TitleLength)
    else if images == [] then Err(NoUsableImage)
    else if parent.value in seen then Err(DuplicateParent)
    else Ok(Candidate(parent.value, source, title.value, images, cfg.columns(record), record))
  }

  datatype Parsed = Blank | Malformed | Record(fields: map<string, Value>)

  function ParseLine(cfg: Config, raw: string): Parsed {
    var line := Text.Strip(raw);
    if line == "" then Blank
    else
      match cfg.decode(line)
      case Some(Object(fields)) => Record(fields)
      case _ => Malformed
  }

  // ----- The streams --------------------------------------------------------

  datatype Entry = Entry(source: string, line: string)

  /** The lines of a source a capped run reads. */
  function LinesRead(cfg: Config, source: string, cap: Option<nat>): seq<string>
    requires source in cfg.files
  {
    var lines := cfg.files[source];
    if cap.Some? && cap.value < |lines| then lines[..cap.value] else lines
  }

  function Entries(source: string, lines: seq<string>): seq<Entry> {
    seq(|lines|, i requires 0 <= i < |lines| => Entry(source, lines[i]))
  }

  /** What a source adds to the stream: nothing when it is not on disk. */
  function SourceEntries(cfg: Config, source: string, cap: Option<nat>): seq<Entry> {
    if source in cfg.files then Entries(source, LinesRead(cfg, source, cap)) else []
  }

  /** All lines of the sources on disk, in order. */
  function Stream(cfg: Config, sources: seq<string>, cap: Option<nat>): seq<Entry> {
    if sources == [] then []
    else
      Stream(cfg, sources[..|sources| - 1], cap) + SourceEntries(cfg, sources[|sources| - 1], cap)
  }

  /** The candidate an entry would become in an empty table. */
  function Eligible(cfg: Config, e: Entry): Option<Candidate> {
    match ParseLine(cfg, e.line)
    case Record(fields) =>
      (match EvaluateRecord(cfg, fields, e.source, {})
       case Ok(c) => Some(c)
       case Err(_) => None)
    case _ => None
  }

  /** Seen identifiers only ever add the duplicate reject. */
  lemma SeenOnlyRejectsDuplicates(cfg: Config, e: Entry, fields: map<string, Value>, seen: set<string>)
    requires ParseLine(cfg, e.line) == Record(fields)
    ensures var found := Eligible(cfg, e);
            EvaluateRecord(cfg, fields, e.source, seen)
            == if found.Some? then
                 if found.value.parentAsin in seen then Err(DuplicateParent) else Ok(found.value)
               else EvaluateRecord(cfg, fields, e.source, {})
    ensures Eligible(cfg, e).None? ==> EvaluateRecord(cfg, fields, e.source, seen).Err?
  {}

  type Table = map<string, Candidate>

  /** The reference: the stored row of an identifier, or else its first eligible entry. */
  function FirstWins(cfg: Config, t: Table, stream: seq<Entry>): Table {
    if stream == [] then t
    else
      var before := FirstWins(cfg, t, stream[..|stream| - 1]);
      var found := Eligible(cfg, stream[|stream| - 1]);
      if found.Some? && found.value.parentAsin !in before
      then before[found.value.parentAsin := found.value] else before
  }

  ghost predicate Within(small: Table, big: Table) {
    forall k :: k in small ==> k in big && big[k] == small[k]
  }

  /** Every eligible entry has a row, its own or another. */
  ghost predicate Covered(cfg: Config, t: Table, stream: seq<Entry>) {
    forall i :: 0 <= i < |stream| && Eligible(cfg, stream[i]).Some? ==>
      Eligible(cfg, stream[i]).value.parentAsin in t
  }

  /** Entry i is the first eligible one with this identifier. */
  ghost predicate IsFirst(cfg: Config, stream: seq<Entry>, i: nat, k: string)
    requires i < |stream|
  {
    && Eligible(cfg, stream[i]).Some? && Eligible(cfg, stream[i]).value.parentAsin == k
    && forall h :: 0 <= h < i && Eligible(cfg, stream[h]).Some? ==>
         Eligible(cfg, stream[h]).value.parentAsin != k
  }

  /** Stored rows stay, and no eligible identifier is missed. */
  lemma {:induction false} FirstWinsCovers(cfg: Config, t: Table, stream: seq<Entry>)
    ensures Within(t, FirstWins(cfg, t, stream))
    ensures Covered(cfg, FirstWins(cfg, t, stream), stream)
    decreases |stream|
  {
    hide Eligible;
    if stream != [] {
      FirstWinsCovers(cfg, t, stream[..|stream| - 1]);
    }
  }

  /** Every row that was not stored is the first eligible entry of its identifier. */
  lemma {:induction false} NewRowsAreFirst(cfg: Config, t: Table, stream: seq<Entry>, k: string)
    returns (i: nat)
    requires k in FirstWins(cfg, t, stream) && k !in t
    ensures i < |stream| && IsFirst(cfg, stream, i, k)
    ensures FirstWins(cfg, t, stream)[k] == Eligible(cfg, stream[i]).value
    decreases |stream|
  {
    hide Eligible;
    var n := |stream| - 1;
    var before := FirstWins(cfg, t, stream[..n]);
    if k in before {
      i := NewRowsAreFirst(cfg, t, stream[..n], k);
      hide FirstWins;
      assert forall h :: 0 <= h < n ==> stream[..n][h] == stream[h];
    } else {
      i := n;
      FirstWinsCovers(cfg, t, stream[..n]);
      hide FirstWins;
      assert forall h :: 0 <= h < n ==> stream[..n][h] == stream[h];
    }
  }

  lemma {:induction false} FirstWinsGrows(cfg: Config, t: Table, a: seq<Entry>, b: seq<Entry>)
    ensures Within(FirstWins(cfg, t, a), FirstWins(cfg, t, a + b))
    decreases |b|
  {
    hide Eligible;
    if b == [] {
      assert a + b == a;
    } else {
      FirstWinsGrows(cfg, t, a, b[..|b| - 1]);
      assert (a + b)[..|a + b| - 1] == a + b[..|b| - 1];
    }
  }

  /** A table that holds the stored rows and covers the stream has every key of the result. */
  lemma {:induction false} CoverHasEveryKey(cfg: Config, t: Table, stream: seq<Entry>, table: Table)
    requires Within(t, table) && Covered(cfg, table, stream)
    ensures FirstWins(cfg, t, stream).Keys <= table.Keys
    decreases |stream|
  {
    hide Eligible;
    if stream != [] {
      CoverHasEveryKey(cfg, t, stream[..|stream| - 1], table);
      assert stream[|stream| - 1] == stream[|stream| - 1];
    }
  }

  /** Between the stored rows and the result, covering the whole stream leaves only the result. */
  lemma CoveredIsFinal(cfg: Config, t: Table, stream: seq<Entry>, table: Table)
    requires Within(t, table) && Within(table, FirstWins(cfg, t, stream)) && Covered(cfg, table, stream)
    ensures table == FirstWins(cfg, t, stream)
  {
    CoverHasEveryKey(cfg, t, stream, table);
    hide FirstWins, Covered;
  }

  lemma FirstIsUnique(cfg: Config, stream: seq<Entry>, i: nat, j: nat, k: string)
    requires i < |stream| && j < |stream| && IsFirst(cfg, stream, i, k) && IsFirst(cfg, stream, j, k)
    ensures i == j
  {
    hide Eligible;
  }

  /** Over a table between the stored rows and the result, the stream still gives the result. */
  lemma BetweenGivesResult(cfg: Config, t: Table, table: Table, stream: seq<Entry>)
    requires Within(t, table) && Within(table, FirstWins(cfg, t, stream))
    ensures FirstWins(cfg, table, stream) == FirstWins(cfg, t, stream)
  {
    hide FirstWins, Eligible, IsFirst;
    var after, result := FirstWins(cfg, table, stream), FirstWins(cfg, t, stream);
    FirstWinsCovers(cfg, table, stream);
    FirstWinsCovers(cfg, t, stream);
    CoverHasEveryKey(cfg, table, stream, result);
    forall k | k in after ensures k in result && result[k] == after[k] {
      if k !in table {
        var i := NewRowsAreFirst(cfg, table, stream, k);
        var j := NewRowsAreFirst(cfg, t, stream, k);
        FirstIsUnique(cfg, stream, i, j, k);
      }
    }
    hide Covered;
    WithinIsTransitive(t, table, after);
    CoveredIsFinal(cfg, t, stream, after);
  }

  /** Each identifier that is not stored has the same first eligible record in both streams. */
  ghost predicate SameFirsts(cfg: Config, t: Table, earlier: seq<Entry>, stream: seq<Entry>) {
    forall i, k :: 0 <= i < |earlier| && k !in t && IsFirst(cfg, earlier, i, k) ==>
      exists j :: 0 <= j < |stream| && IsFirst(cfg, stream, j, k)
                  && Eligible(cfg, stream[j]) == Eligible(cfg, earlier[i])
  }

  lemma FirstIsRow(cfg: Config, t: Table, stream: seq<Entry>, i: nat, k: string)
    requires i < |stream| && k !in t && IsFirst(cfg, stream, i, k)
    ensures k in FirstWins(cfg, t, stream) && FirstWins(cfg, t, stream)[k] == Eligible(cfg, stream[i]).value
  {
    hide FirstWins, Eligible;
    FirstWinsCovers(cfg, t, stream);
    var j := NewRowsAreFirst(cfg, t, stream, k);
    FirstIsUnique(cfg, stream, i, j, k);
  }

  lemma SameFirstsKeepRows(cfg: Config, t: Table, earlier: seq<Entry>, stream: seq<Entry>)
    requires SameFirsts(cfg, t, earlier, stream)
    ensures Within(FirstWins(cfg, t, earlier), FirstWins(cfg, t, stream))
  {
    hide FirstWins, Eligible, IsFirst;
    var rows, result := FirstWins(cfg, t, earlier), FirstWins(cfg, t, stream);
    FirstWinsCovers(cfg, t, earlier);
    FirstWinsCovers(cfg, t, stream);
    forall k | k in rows ensures k in result && result[k] == rows[k] {
      if k !in t {
        var i := NewRowsAreFirst(cfg, t, earlier, k);
        var j :| 0 <= j < |stream| && IsFirst(cfg, stream, j, k)
                 && Eligible(cfg, stream[j]) == Eligible(cfg, earlier[i]);
        FirstIsRow(cfg, t, stream, j, k);
      }
    }
  }

  lemma KeptRowsAreSameFirsts(cfg: Config, t: Table, earlier: seq<Entry>, stream: seq<Entry>)
    requires Within(FirstWins(cfg, t, earlier), FirstWins(cfg, t, stream))
    ensures SameFirsts(cfg, t, earlier, stream)
  {
    forall i, k | 0 <= i < |earlier| && k !in t && IsFirst(cfg, earlier, i, k)
      ensures exists j :: 0 <= j < |stream| && IsFirst(cfg, stream, j, k)
                          && Eligible(cfg, stream[j]) == Eligible(cfg, earlier[i])
    {
      hide FirstWins, Eligible;
      FirstIsRow(cfg, t, earlier, i, k);
      var j := NewRowsAreFirst(cfg, t, stream, k);
      assert Eligible(cfg, stream[j]) == Eligible(cfg, earlier[i]);
    }
  }

  /**
   * Running at another cap first changes nothing exactly when each identifier has the same first
   * eligible record in the lines read under both caps.
   */
  lemma CapChangeIsHarmlessIff(cfg: Config, t: Table, sources: seq<string>, small: Option<nat>, large: Option<nat>)
    ensures var earlier, stream := Stream(cfg, sources, small), Stream(cfg, sources, large);
            FirstWins(cfg, FirstWins(cfg, t, earlier), stream) == FirstWins(cfg, t, stream) <==>
            SameFirsts(cfg, t, earlier, stream)
  {
    hide FirstWins, Eligible, SameFirsts, Stream;
    var earlier, stream := Stream(cfg, sources, small), Stream(cfg, sources, large);
    var table := FirstWins(cfg, t, earlier);
    FirstWinsCovers(cfg, t, earlier);
    FirstWinsCovers(cfg, table, stream);
    if SameFirsts(cfg, t, earlier, stream) {
      SameFirstsKeepRows(cfg, t, earlier, stream);
      BetweenGivesResult(cfg, t, table, stream);
    }
    if FirstWins(cfg, table, stream) == FirstWins(cfg, t, stream) {
      KeptRowsAreSameFirsts(cfg, t, earlier, stream);
    }
  }

  // Two sources that both hold one product: in the first it is on the second line.

  const SAMPLE_RECORD: map<string, Value> :=
    map["parent_asin" := Str("B0"), "title" := Str("Headphones"),
        "images" := List([Object(map["hi_res" := Str("http://a")])])]

  const SAMPLE: Config :=
    Config(map["a" := ["", "x"], "b" := ["x"]], (line: string) => Some(Object(SAMPLE_RECORD)),
           (v: Value) => "", (record: map<string, Value>) => [])

  lemma SampleText(text: string)
    requires text != "" && Text.Trimmed(text)
    ensures OptionalText(Str(text), SAMPLE.show) == Some(text)
  {
    Text.StripTrims(text);
  }

  lemma SampleImageIsUsable()
    ensures NormalizeImages(List([Object(map["hi_res" := Str("http://a")])]), SAMPLE.show) != []
  {
    var raw := List([Object(map["hi_res" := Str("http://a")])]);
    SampleText("http://a");
    Text.StripTrims("http://a");
    hide Text.Strip;
    assert Text.Lower("http://a")[..7] == "http://";
    var entries := ImageEntries(raw, SAMPLE.show);
    assert |entries| == 1 && entries[0].hiRes == Some("http://a");
    assert UsableImage(entries[0]);
    assert Usable(entries) == Usable(entries[..0]) + [entries[0]];
  }

  lemma SampleLines()
    ensures ParseLine(SAMPLE, "x") == Record(SAMPLE_RECORD) && ParseLine(SAMPLE, "") == Blank
  {
    Text.StripTrims("x");
    Text.StripTrims("");
    hide Text.Strip;
  }

  lemma SampleFields()
    ensures Get(SAMPLE_RECORD, "parent_asin") == Str("B0")
    ensures Get(SAMPLE_RECORD, "title") == Str("Headphones")
    ensures Get(SAMPLE_RECORD, "images") == List([Object(map["hi_res" := Str("http://a")])])
  {}

  lemma SampleIsAccepted(source: string)
    ensures var r := EvaluateRecord(SAMPLE, SAMPLE_RECORD, source, {});
            r.Ok? && r.value.parentAsin == "B0" && r.value.sourceFile == source
  {
    SampleFields();
    SampleText("B0");
    SampleText("Headphones");
    SampleImageIsUsable();
    hide OptionalText, NormalizeImages, Get;
  }

  lemma SampleIsEligible(source: string)
    ensures Eligible(SAMPLE, Entry(source, "x")).Some?
    ensures Eligible(SAMPLE, Entry(source, "x")).value.parentAsin == "B0"
    ensures Eligible(SAMPLE, Entry(source, "x")).value.sourceFile == source
    ensures Eligible(SAMPLE, Entry(source, "")).None?
  {
    hide ParseLine, EvaluateRecord;
    SampleLines();
    SampleIsAccepted(source);
  }

  lemma SampleStreams()
    ensures Stream(SAMPLE, ["a", "b"], Some(1)) == [Entry("a", ""), Entry("b", "x")]
    ensures Stream(SAMPLE, ["a", "b"], Some(2)) == [Entry("a", ""), Entry("a", "x"), Entry("b", "x")]
  {
    assert ["a", "b"][..1] == ["a"] && ["a"][..0] == [];
    assert SourceEntries(SAMPLE, "a", Some(1)) == [Entry("a", "")];
    assert SourceEntries(SAMPLE, "a", Some(2)) == [Entry("a", ""), Entry("a", "x")];
    assert SourceEntries(SAMPLE, "b", Some(1)) == SourceEntries(SAMPLE, "b", Some(2)) == [Entry("b", "x")];
  }

  /** Raising the cap can do harm: here one run at two lines keeps "a", and a run at one line first keeps "b". */
  lemma RaisingTheCapCanKeepAnotherRecord()
    ensures var sources := ["a", "b"];
            var at1, at2 := Stream(SAMPLE, sources, Some(1)), Stream(SAMPLE, sources, Some(2));
            var once, twice := FirstWins(SAMPLE, map[], at2),
                               FirstWins(SAMPLE, FirstWins(SAMPLE, map[], at1), at2);
            && "B0" in once && once["B0"].sourceFile == "a"
            && "B0" in twice && twice["B0"].sourceFile == "b"
  {
    hide Eligible, FirstWins, Stream;
    SampleStreams();
    SampleIsEligible("a");
    SampleIsEligible("b");
    var at1, at2 := Stream(SAMPLE, ["a", "b"], Some(1)), Stream(SAMPLE, ["a", "b"], Some(2));
    assert IsFirst(SAMPLE, at1, 1, "B0");
    assert IsFirst(SAMPLE, at2, 1, "B0");
    FirstIsRow(SAMPLE, map[], at1, 1, "B0");
    FirstIsRow(SAMPLE, map[], at2, 1, "B0");
    FirstWinsCovers(SAMPLE, FirstWins(SAMPLE, map[], at1), at2);
  }

  /** An identifier met for the first time, with everything before it covered, is in the result. */
  lemma NextIsFinal(cfg: Config, t: Table, done: seq<Entry>, e: Entry, stream: seq<Entry>, table: Table)
    requires Within(t, table) && Covered(cfg, table, done) && done + [e] <= stream
    requires Eligible(cfg, e).Some? && Eligible(cfg, e).value.parentAsin !in table
    ensures Eligible(cfg, e).value.parentAsin in FirstWins(cfg, t, stream)
    ensures FirstWins(cfg, t, stream)[Eligible(cfg, e).value.parentAsin] == Eligible(cfg, e).value
  {
    hide Eligible;
    CoverHasEveryKey(cfg, t, done, table);
    assert (done + [e])[..|done|] == done;
    FirstWinsGrows(cfg, t, done + [e], stream[|done| + 1..]);
    assert stream == (done + [e]) + stream[|done| + 1..];
  }

  // ----- A run in progress --------------------------------------------------

  /** The rows a batch would add. */
  function Rows(batch: seq<Candidate>): Table {
    if batch == [] then map[]
    else Rows(batch[..|batch| - 1])[batch[|batch| - 1].parentAsin := batch[|batch| - 1]]
  }

  /** INSERT OR IGNORE, row by row. */
  function InsertOrIgnore(t: Table, batch: seq<Candidate>): Table {
    if batch == [] then t
    else
      var before, c := InsertOrIgnore(t, batch[..|batch| - 1]), batch[|batch| - 1];
      if c.parentAsin in before then before else before[c.parentAsin := c]
  }

  /** Nothing in the batch is stored already, and nothing is in it twice. */
  ghost predicate Fresh(batch: seq<Candidate>, t: Table) {
    && (forall i :: 0 <= i < |batch| ==> batch[i].parentAsin !in t)
    && (forall i, k :: 0 <= i < k < |batch| ==> batch[i].parentAsin != batch[k].parentAsin)
  }

  lemma {:induction false} RowsKeys(batch: seq<Candidate>)
    ensures forall k :: k in Rows(batch) <==> exists i :: 0 <= i < |batch| && batch[i].parentAsin == k
    decreases |batch|
  {
    if batch != [] {
      var n := |batch| - 1;
      RowsKeys(batch[..n]);
      forall k | exists i :: 0 <= i < |batch| && batch[i].parentAsin == k
        ensures k in Rows(batch)
      {
        var i :| 0 <= i < |batch| && batch[i].parentAsin == k;
        if i < n {
          assert batch[..n][i].parentAsin == k;
        }
      }
    }
  }

  lemma FreshPrefix(batch: seq<Candidate>, t: Table)
    requires Fresh(batch, t) && batch != []
    ensures Fresh(batch[..|batch| - 1], t)
    ensures batch[|batch| - 1].parentAsin !in t + Rows(batch[..|batch| - 1])
  {
    RowsKeys(batch[..|batch| - 1]);
    hide Rows;
  }

  /** A fresh batch is inserted whole: nothing is ignored. */
  lemma {:induction false} InsertKeepsFresh(t: Table, batch: seq<Candidate>)
    requires Fresh(batch, t)
    ensures InsertOrIgnore(t, batch) == t + Rows(batch)
    ensures |InsertOrIgnore(t, batch)| == |t| + |batch|
    decreases |batch|
  {
    if batch == [] {
      assert t + Rows([]) == t;
    } else {
      FreshPrefix(batch, t);
      InsertKeepsFresh(t, batch[..|batch| - 1]);
      hide Fresh;
      AddsLast(t, Rows(batch[..|batch| - 1]), batch[|batch| - 1]);
    }
  }

  lemma AddsLast(t: Table, rows: Table, c: Candidate)
    ensures (t + rows)[c.parentAsin := c] == t + rows[c.parentAsin := c]
  {}

  /** A new identifier keeps the batch fresh. */
  lemma FreshGrows(t: Table, batch: seq<Candidate>, c: Candidate)
    requires Fresh(batch, t) && c.parentAsin !in t + Rows(batch)
    ensures Fresh(batch + [c], t)
  {
    RowsKeys(batch);
    hide Rows;
    forall i | 0 <= i < |batch| ensures batch[i].parentAsin in Rows(batch) {}
  }

  lemma RowsGrow(t: Table, batch: seq<Candidate>, c: Candidate)
    ensures t + Rows(batch + [c]) == (t + Rows(batch))[c.parentAsin := c]
  {}

  lemma StoredSurvives(t: Table, batch: seq<Candidate>)
    requires Fresh(batch, t)
    ensures Within(t, t + Rows(batch))
  {}

  lemma WithinIsTransitive(a: Table, b: Table, c: Table)
    requires Within(a, b) && Within(b, c)
    ensures Within(a, c)
  {}

  /**
   * Stored rows and pending batch together are part of the result, and cover what has been
   * read; `seen` is exactly their identifiers.
   */
  ghost predicate Ready(cfg: Config, t: Table, stream: seq<Entry>, done: seq<Entry>, seen: set<string>,
                        stored: Table, pending: seq<Candidate>)
  {
    && Within(t, stored) && Fresh(pending, stored) && done <= stream
    && Within(stored + Rows(pending), FirstWins(cfg, t, stream))
    && Covered(cfg, stored + Rows(pending), done)
    && seen == (stored + Rows(pending)).Keys
  }

  lemma StartsReady(cfg: Config, t: Table, stream: seq<Entry>, stored: Table)
    requires Within(t, stored) && Within(stored, FirstWins(cfg, t, stream))
    ensures Ready(cfg, t, stream, [], stored.Keys, stored, [])
  {}

  lemma CoverGrows(cfg: Config, table: Table, done: seq<Entry>, e: Entry, c: Candidate)
    requires Covered(cfg, table, done) && Eligible(cfg, e) == Some(c)
    ensures Covered(cfg, table[c.parentAsin := c], done + [e])
  {
    hide Eligible;
  }

  lemma KeepsReady(cfg: Config, t: Table, stream: seq<Entry>, done: seq<Entry>, seen: set<string>,
                   stored: Table, pending: seq<Candidate>, e: Entry)
    requires Ready(cfg, t, stream, done, seen, stored, pending) && done + [e] <= stream
    requires Eligible(cfg, e).Some? && Eligible(cfg, e).value.parentAsin !in seen
    ensures var c := Eligible(cfg, e).value;
            Ready(cfg, t, stream, done + [e], seen + {c.parentAsin}, stored, pending + [c])
  {
    hide Eligible, FirstWins, Covered, Fresh, Rows;
    var c := Eligible(cfg, e).value;
    var table := stored + Rows(pending);
    StoredSurvives(stored, pending);
    WithinIsTransitive(t, stored, table);
    RowsGrow(stored, pending, c);
    NextIsFinal(cfg, t, done, e, stream, table);
    CoverGrows(cfg, table, done, e, c);
    FreshGrows(stored, pending, c);
  }

  lemma FlushesReady(cfg: Config, t: Table, stream: seq<Entry>, done: seq<Entry>, seen: set<string>,
                     stored: Table, pending: seq<Candidate>)
    requires Ready(cfg, t, stream, done, seen, stored, pending)
    ensures Ready(cfg, t, stream, done, seen, InsertOrIgnore(stored, pending), [])
    ensures Within(stored, InsertOrIgnore(stored, pending))
    ensures |InsertOrIgnore(stored, pending)| == |stored| + |pending|
  {
    hide FirstWins, Eligible, InsertOrIgnore, Covered, Within;
    InsertKeepsFresh(stored, pending);
    StoredSurvives(stored, pending);
    WithinIsTransitive(t, stored, stored + Rows(pending));
    NoRows(stored + Rows(pending));
    hide Rows;
  }

  lemma NoRows(t: Table)
    ensures t + Rows([]) == t && Fresh([], t)
  {}

  lemma {:induction false} StreamSplits(cfg: Config, sources: seq<string>, cap: Option<nat>, i: nat)
    requires i < |sources|
    ensures Stream(cfg, sources[..i + 1], cap)
         == Stream(cfg, sources[..i], cap) + SourceEntries(cfg, sources[i], cap)
    ensures Stream(cfg, sources[..i + 1], cap) <= Stream(cfg, sources, cap)
    decreases |sources| - i
  {
    assert sources[..i + 1][..i] == sources[..i];
    if i + 1 == |sources| {
      assert sources[..i + 1] == sources;
    } else {
      StreamSplits(cfg, sources, cap, i + 1);
      assert sources[..i + 2][..i + 1] == sources[..i + 1];
    }
  }
}
