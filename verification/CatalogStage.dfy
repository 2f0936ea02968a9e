/**
 * Stage 1 of the catalog pipeline: stream, deduplicate, batch and commit, with a crash
 * possible between any two steps. What is on disk survives a crash; the pending batch, the
 * set of seen identifiers and the counters do not.
 */
module CatalogStage {
  import opened Outcomes
  import opened CatalogImages
  import opened CatalogStream
  import opened CatalogVerdicts

  datatype Status = Running | Complete | Failed

  datatype StageState = StageState(status: Status, cap: Option<nat>, records: nat)

  datatype Progress = Progress(linesRead: nat, malformed: nat, kept: nat, cap: Option<nat>)

  /** What one invocation did. */
  datatype StageResult = StageResult(linesRead: nat, malformed: nat, blank: nat, rejected: nat, kept: nat,
                                     processed: seq<string>, skipped: seq<string>, missing: seq<string>,
                                     peakPending: nat, alreadyComplete: bool)

  datatype Outcome = Crashed | BadBatchSize | NoSourceFound | Completed(result: StageResult)

  /** Every source recorded as read at this cap has left nothing eligible out of the table. */
  ghost predicate Honest(cfg: Config, cap: Option<nat>, progress: map<string, Progress>, t: Table) {
    forall name :: name in progress && progress[name].cap == cap && name in cfg.files ==>
      Covered(cfg, t, Entries(name, LinesRead(cfg, name, cap)))
  }

  /** The database file: every method commits, so each is one durable step. */
  class CandidatesDb {
    var candidates: Table
    var progress: map<string, Progress>
    var state: Option<StageState>

    constructor ()
      ensures candidates == map[] && progress == map[] && state == None
    {
      candidates, progress, state := map[], map[], None;
    }

    method InsertBatch(rows: seq<Candidate>)
      modifies this`candidates
      ensures candidates == InsertOrIgnore(old(candidates), rows)
    {
      var i := 0;
      while i < |rows|
        invariant 0 <= i <= |rows|
        invariant candidates == InsertOrIgnore(old(candidates), rows[..i])
      {
        assert rows[..i + 1][..i] == rows[..i];
        if rows[i].parentAsin !in candidates {
          candidates := candidates[rows[i].parentAsin := rows[i]];
        }
        i := i + 1;
      }
      assert rows[..|rows|] == rows;
    }

    method RecordProgress(source: string, p: Progress)
      modifies this`progress
      ensures progress == old(progress)[source := p]
    {
      progress := progress[source := p];
    }

    method WriteState(s: StageState)
      modifies this`state
      ensures state == Some(s)
    {
      state := Some(s);
    }

    /** Durable state of a stage that may be run again: nothing lost, nothing foreign, no false claim. */
    ghost predicate Resumable(cfg: Config, t: Table, stream: seq<Entry>, cap: Option<nat>)
      reads this
    {
      && Within(t, candidates) && Within(candidates, FirstWins(cfg, t, stream))
      && Honest(cfg, cap, progress, candidates)
    }
  }

  /** The insert buffer: never more than one batch in memory. */
  class CandidateWriter {
    const db: CandidatesDb
    const batchSize: nat
    var pending: seq<Candidate>
    var peakPending: nat
    var written: nat
    var flushes: nat

    constructor (db: CandidatesDb, batchSize: nat)
      requires batchSize >= 1
      ensures this.db == db && this.batchSize == batchSize && Valid()
      ensures pending == [] && written == 0
    {
      this.db, this.batchSize := db, batchSize;
      pending, peakPending, written, flushes := [], 0, 0, 0;
    }

    predicate Valid()
      reads this
    {
      batchSize >= 1 && |pending| < batchSize && peakPending <= batchSize
    }

    /** A row is buffered; a full buffer is written out at once, unless the process dies first. */
    method Add(c: Candidate, faulty: bool) returns (crashed: bool)
      requires Valid()
      modifies this, db`candidates
      ensures crashed ==> faulty
      ensures crashed ==> db.candidates == old(db.candidates)
                          || db.candidates == InsertOrIgnore(old(db.candidates), old(pending) + [c])
      ensures !crashed ==> Valid()
      ensures !crashed && old(|pending|) + 1 < batchSize ==>
                pending == old(pending) + [c] && db.candidates == old(db.candidates) && written == old(written)
      ensures !crashed && old(|pending|) + 1 >= batchSize ==>
                && pending == [] && written == old(written) + old(|pending|) + 1
                && db.candidates == InsertOrIgnore(old(db.candidates), old(pending) + [c])
    {
      pending := pending + [c];
      peakPending := Max(peakPending, |pending|);
      crashed := false;
      if |pending| >= batchSize {
        crashed := Flush(faulty);
      }
    }

    method Flush(faulty: bool) returns (crashed: bool)
      modifies this`pending, this`written, this`flushes, db`candidates
      ensures crashed ==> faulty
      ensures crashed ==> db.candidates == old(db.candidates)
                          || db.candidates == InsertOrIgnore(old(db.candidates), old(pending))
      ensures !crashed ==> && pending == [] && written == old(written) + old(|pending|)
                           && db.candidates == InsertOrIgnore(old(db.candidates), old(pending))
    {
      crashed := Dies(faulty);
      if crashed { return; }
      if pending == [] { return; }
      db.InsertBatch(pending);
      crashed := Dies(faulty);
      if crashed { return; }
      written := written + |pending|;
      flushes := flushes + 1;
      pending := [];
    }
  }

  /** Whether a fault strikes here. */
  method Dies(faulty: bool) returns (dies: bool)
    ensures dies ==> faulty
  {
    dies := *;
    dies := dies && faulty;
  }

  lemma HonestGrows(cfg: Config, cap: Option<nat>, progress: map<string, Progress>, a: Table, b: Table)
    requires Honest(cfg, cap, progress, a) && Within(a, b)
    ensures Honest(cfg, cap, progress, b)
  {}

  lemma NextEntry(done: seq<Entry>, source: string, lines: seq<string>, n: nat, stream: seq<Entry>)
    requires n < |lines| && done + Entries(source, lines) <= stream
    ensures (done + Entries(source, lines[..n])) + [Entry(source, lines[n])]
         == done + Entries(source, lines[..n + 1])
    ensures (done + Entries(source, lines[..n])) + [Entry(source, lines[n])] <= stream
  {}

  lemma NoEntries(done: seq<Entry>, source: string, lines: seq<string>)
    ensures done == done + Entries(source, lines[..0])
  {}

  /** A batch may be written out at any time. */
  lemma FlushKeepsResumable(cfg: Config, t: Table, stream: seq<Entry>, done: seq<Entry>, cap: Option<nat>,
                            seen: set<string>, stored: Table, pending: seq<Candidate>,
                            progress: map<string, Progress>)
    requires Ready(cfg, t, stream, done, seen, stored, pending) && Honest(cfg, cap, progress, stored)
    ensures Within(t, stored) && Within(stored, FirstWins(cfg, t, stream))
    ensures var after := InsertOrIgnore(stored, pending);
            && Ready(cfg, t, stream, done, seen, after, [])
            && Within(t, after) && Within(after, FirstWins(cfg, t, stream))
            && Honest(cfg, cap, progress, after)
            && |after| == |stored| + |pending|
  {
    var after := InsertOrIgnore(stored, pending);
    hide FirstWins, InsertOrIgnore, Honest, Within, Covered, Rows;
    FlushesReady(cfg, t, stream, done, seen, stored, pending);
    NoRows(after);
    WithinIsTransitive(stored, after, FirstWins(cfg, t, stream));
    HonestGrows(cfg, cap, progress, stored, after);
  }

  /** Blank, malformed and rejected lines are already accounted for. */
  lemma NothingNew(cfg: Config, e: Entry, seen: set<string>)
    requires match ParseLine(cfg, e.line)
             case Record(fields) => EvaluateRecord(cfg, fields, e.source, seen).Err?
             case _ => true
    ensures Eligible(cfg, e).Some? ==> Eligible(cfg, e).value.parentAsin in seen
  {}

  /** An accepted candidate may be buffered, or written out with its batch at once. */
  lemma AcceptKeepsResumable(cfg: Config, t: Table, stream: seq<Entry>, done: seq<Entry>, cap: Option<nat>,
                             seen: set<string>, stored: Table, pending: seq<Candidate>,
                             progress: map<string, Progress>, e: Entry, c: Candidate)
    requires Ready(cfg, t, stream, done, seen, stored, pending) && Honest(cfg, cap, progress, stored)
    requires done + [e] <= stream && ParseLine(cfg, e.line).Record?
    requires EvaluateRecord(cfg, ParseLine(cfg, e.line).fields, e.source, seen) == Ok(c)
    ensures Ready(cfg, t, stream, done + [e], seen + {c.parentAsin}, stored, pending + [c])
    ensures var after := InsertOrIgnore(stored, pending + [c]);
            && Ready(cfg, t, stream, done + [e], seen + {c.parentAsin}, after, [])
            && Within(t, after) && Within(after, FirstWins(cfg, t, stream))
            && Honest(cfg, cap, progress, after)
            && |after| == |stored| + |pending| + 1
  {
    hide EvaluateRecord, ParseLine, Eligible, FirstWins, Ready, Honest, Within, InsertOrIgnore;
    SeenOnlyRejectsDuplicates(cfg, e, ParseLine(cfg, e.line).fields, seen);
    KeepsReady(cfg, t, stream, done, seen, stored, pending, e);
    FlushKeepsResumable(cfg, t, stream, done + [e], cap, seen + {c.parentAsin}, stored, pending + [c], progress);
  }

  lemma PassesReady(cfg: Config, t: Table, stream: seq<Entry>, done: seq<Entry>, seen: set<string>,
                    stored: Table, pending: seq<Candidate>, e: Entry)
    requires Ready(cfg, t, stream, done, seen, stored, pending) && done + [e] <= stream
    requires Eligible(cfg, e).Some? ==> Eligible(cfg, e).value.parentAsin in seen
    ensures Ready(cfg, t, stream, done + [e], seen, stored, pending)
  {}

  /** Once a source is read and flushed, recording that is honest. */
  lemma ProgressIsHonest(cfg: Config, t: Table, stream: seq<Entry>, done: seq<Entry>, cap: Option<nat>,
                         seen: set<string>, stored: Table, progress: map<string, Progress>,
                         source: string, p: Progress)
    requires source in cfg.files && Honest(cfg, cap, progress, stored)
    requires Ready(cfg, t, stream, done + Entries(source, LinesRead(cfg, source, cap)), seen, stored, [])
    ensures Honest(cfg, cap, progress[source := p], stored)
  {
    var entries := Entries(source, LinesRead(cfg, source, cap));
    NoRows(stored);
    hide Eligible, FirstWins, Rows, LinesRead;
    forall i | 0 <= i < |entries| ensures (done + entries)[|done| + i] == entries[i] {}
    assert Covered(cfg, stored, entries);
  }

  /** One line of the stream: counted once, and buffered when it becomes a candidate. */
  method TakeLine(cfg: Config, source: string, line: string, cap: Option<nat>, seen0: set<string>,
                  writer: CandidateWriter, result0: StageResult, malformed0: nat, faulty: bool,
                  ghost t: Table, ghost stream: seq<Entry>, ghost read: seq<Entry>)
    returns (seen: set<string>, result: StageResult, malformed: nat, crashed: bool)
    requires writer.Valid() && writer.db.Resumable(cfg, t, stream, cap)
    requires Ready(cfg, t, stream, read, seen0, writer.db.candidates, writer.pending)
    requires read + [Entry(source, line)] <= stream
    modifies writer, writer.db`candidates
    ensures crashed ==> faulty
    ensures writer.db.Resumable(cfg, t, stream, cap)
    ensures !crashed ==>
              && writer.Valid()
              && Ready(cfg, t, stream, read + [Entry(source, line)], seen, writer.db.candidates, writer.pending)
              && 0 <= result.kept - result0.kept
              && result.kept - result0.kept
                 == |writer.db.candidates| + |writer.pending| - old(|writer.db.candidates| + |writer.pending|)
              && result.kept - result0.kept
                 == writer.written + |writer.pending| - old(writer.written + |writer.pending|)
              && result == result0.(blank := result.blank, rejected := result.rejected, kept := result.kept)
              && result.blank + malformed + result.rejected + result.kept
                 == result0.blank + malformed0 + result0.rejected + result0.kept + 1
  {
    hide Ready, Eligible, FirstWins, Covered, Within, Honest, EvaluateRecord, ParseLine, InsertOrIgnore;
    var db := writer.db;
    seen, result, malformed, crashed := seen0, result0, malformed0, false;
    ghost var e := Entry(source, line);
    var parsed := ParseLine(cfg, line);
    if parsed.Record? {
      var verdict := EvaluateRecord(cfg, parsed.fields, source, seen);
      if verdict.Ok? {
        AcceptKeepsResumable(cfg, t, stream, read, cap, seen, db.candidates, writer.pending,
                             db.progress, e, verdict.value);
        seen := seen + {verdict.value.parentAsin};
        crashed := writer.Add(verdict.value, faulty);
        result := result.(kept := result.kept + 1);
        return;
      }
      result := result.(rejected := result.rejected + 1);
    } else if parsed.Malformed? {
      malformed := malformed + 1;
    } else {
      result := result.(blank := result.blank + 1);
    }
    NothingNew(cfg, e, seen);
    PassesReady(cfg, t, stream, read, seen, db.candidates, writer.pending, e);
  }

  /** Stream one source to its end, flush, and record that it is done. */
  method ScanSource(cfg: Config, source: string, cap: Option<nat>, seen0: set<string>,
                    writer: CandidateWriter, result0: StageResult, faulty: bool,
                    ghost t: Table, ghost stream: seq<Entry>, ghost done: seq<Entry>)
    returns (seen: set<string>, result: StageResult, crashed: bool)
    requires source in cfg.files && writer.Valid()
    requires writer.db.Resumable(cfg, t, stream, cap)
    requires Ready(cfg, t, stream, done, seen0, writer.db.candidates, writer.pending)
    requires done + Entries(source, LinesRead(cfg, source, cap)) <= stream
    modifies writer, writer.db`candidates, writer.db`progress
    ensures crashed ==> faulty
    ensures writer.db.Resumable(cfg, t, stream, cap)
    ensures !crashed ==>
              && writer.Valid() && writer.pending == []
              && Ready(cfg, t, stream, done + Entries(source, LinesRead(cfg, source, cap)), seen,
                       writer.db.candidates, writer.pending)
              && result.kept - result0.kept
                 == |writer.db.candidates| - old(|writer.db.candidates| + |writer.pending|)
              && result.kept - result0.kept == writer.written - old(writer.written + |writer.pending|)
              && result.linesRead == result0.linesRead + |LinesRead(cfg, source, cap)|
              && result.linesRead - result0.linesRead
                 == (result.blank - result0.blank) + (result.malformed - result0.malformed)
                    + (result.rejected - result0.rejected) + (result.kept - result0.kept)
              && result.missing == result0.missing && result.alreadyComplete == result0.alreadyComplete
              && source in writer.db.progress
              && writer.db.progress == old(writer.db.progress)[source := writer.db.progress[source]]
              && writer.db.progress[source].cap == cap
  {
    hide Ready, Eligible, FirstWins, Covered, Within, Honest, EvaluateRecord, ParseLine, InsertOrIgnore,
         Entries, LinesRead;
    var db := writer.db;
    var lines := LinesRead(cfg, source, cap);
    seen, result := seen0, result0;
    ghost var read := done;
    NoEntries(done, source, lines);
    var malformed, n := 0, 0;
    while n < |lines|
      invariant 0 <= n <= |lines| && writer.Valid() && result.missing == result0.missing
      invariant result.alreadyComplete == result0.alreadyComplete && db.progress == old(writer.db.progress)
      invariant read == done + Entries(source, lines[..n])
      invariant db.Resumable(cfg, t, stream, cap)
      invariant Ready(cfg, t, stream, read, seen, db.candidates, writer.pending)
      invariant result.kept - result0.kept
             == |db.candidates| + |writer.pending| - old(|writer.db.candidates| + |writer.pending|)
      invariant result.kept - result0.kept == writer.written + |writer.pending| - old(writer.written + |writer.pending|)
      invariant result.linesRead == result0.linesRead && result.malformed == result0.malformed
      invariant result.kept >= result0.kept
      invariant result.blank + malformed + result.rejected + result.kept
             == result0.blank + result0.rejected + result0.kept + n
    {
      ghost var e := Entry(source, lines[n]);
      NextEntry(done, source, lines, n, stream);
      crashed := Dies(faulty);
      if crashed { return; }
      seen, result, malformed, crashed := TakeLine(cfg, source, lines[n], cap, seen, writer, result, malformed,
                                                   faulty, t, stream, read);
      if crashed { return; }
      read := read + [e];
      n := n + 1;
    }
    assert lines[..|lines|] == lines;
    FlushKeepsResumable(cfg, t, stream, read, cap, seen, db.candidates, writer.pending, db.progress);
    crashed := writer.Flush(faulty);
    if crashed { return; }
    result := result.(linesRead := result.linesRead + |lines|, malformed := result.malformed + malformed,
                      processed := result.processed + [source]);
    crashed := Dies(faulty);
    if crashed { return; }
    ProgressIsHonest(cfg, t, stream, done, cap, seen, db.candidates, db.progress, source,
                     Progress(|lines|, malformed, result.kept - result0.kept, cap));
    db.RecordProgress(source, Progress(|lines|, malformed, result.kept - result0.kept, cap));
    crashed := Dies(faulty);
  }

  // ----- The stage ----------------------------------------------------------

  function CompletedSources(progress: map<string, Progress>, cap: Option<nat>): set<string> {
    set name | name in progress && progress[name].cap == cap
  }

  predicate AllSourcesDone(cfg: Config, sources: seq<string>, completed: set<string>) {
    forall i :: 0 <= i < |sources| && sources[i] in cfg.files ==> sources[i] in completed
  }

  predicate AnyOnDisk(cfg: Config, sources: seq<string>) {
    exists i :: 0 <= i < |sources| && sources[i] in cfg.files
  }

  const FRESH_RESULT := StageResult(0, 0, 0, 0, 0, [], [], [], 0, false)

  /** Sources that are all done leave nothing of the stream to read. */
  lemma {:induction false} DoneCoversStream(cfg: Config, sources: seq<string>, cap: Option<nat>, t: Table,
                                            progress: map<string, Progress>)
    requires Honest(cfg, cap, progress, t)
    requires AllSourcesDone(cfg, sources, CompletedSources(progress, cap))
    ensures Covered(cfg, t, Stream(cfg, sources, cap))
    decreases |sources|
  {
    hide Eligible, LinesRead, Entries;
    if sources != [] {
      var n := |sources| - 1;
      DoneCoversStream(cfg, sources[..n], cap, t, progress);
      if sources[n] in cfg.files {
        CoveredConcat(cfg, t, Stream(cfg, sources[..n], cap),
                      Entries(sources[n], LinesRead(cfg, sources[n], cap)));
      }
    }
  }

  lemma DoneIsFinal(cfg: Config, sources: seq<string>, cap: Option<nat>, t: Table, stored: Table,
                    progress: map<string, Progress>)
    requires Within(t, stored) && Within(stored, FirstWins(cfg, t, Stream(cfg, sources, cap)))
    requires Honest(cfg, cap, progress, stored)
    requires AllSourcesDone(cfg, sources, CompletedSources(progress, cap))
    ensures stored == FirstWins(cfg, t, Stream(cfg, sources, cap))
  {
    hide Eligible, FirstWins, Within, Honest, Stream, Covered;
    DoneCoversStream(cfg, sources, cap, stored, progress);
    CoveredIsFinal(cfg, t, Stream(cfg, sources, cap), stored);
  }

  lemma CoveredConcat(cfg: Config, t: Table, a: seq<Entry>, b: seq<Entry>)
    requires Covered(cfg, t, a) && Covered(cfg, t, b)
    ensures Covered(cfg, t, a + b)
  {}

  /** A source already recorded as done can be passed over. */
  lemma SkipSource(cfg: Config, t: Table, stream: seq<Entry>, done: seq<Entry>, cap: Option<nat>,
                   seen: set<string>, stored: Table, source: string, progress: map<string, Progress>)
    requires Ready(cfg, t, stream, done, seen, stored, []) && Honest(cfg, cap, progress, stored)
    requires source in cfg.files && source in CompletedSources(progress, cap)
    requires done + Entries(source, LinesRead(cfg, source, cap)) <= stream
    ensures Ready(cfg, t, stream, done + Entries(source, LinesRead(cfg, source, cap)), seen, stored, [])
  {}

  lemma NothingPendingIsFinal(cfg: Config, t: Table, stream: seq<Entry>, seen: set<string>, stored: Table)
    requires Ready(cfg, t, stream, stream, seen, stored, [])
    ensures stored == FirstWins(cfg, t, stream)
  {
    hide Eligible, FirstWins;
    NoRows(stored);
    CoveredIsFinal(cfg, t, stream, stored);
  }

  /** One step of the walk over the sources: missing, already done, or streamed now. */
  method VisitSource(cfg: Config, source: string, cap: Option<nat>, completed: set<string>,
                     seen0: set<string>, writer: CandidateWriter, result0: StageResult, faulty: bool,
                     ghost t: Table, ghost stream: seq<Entry>, ghost done: seq<Entry>)
    returns (seen: set<string>, result: StageResult, crashed: bool)
    requires writer.Valid() && writer.pending == [] && writer.db.Resumable(cfg, t, stream, cap)
    requires completed <= CompletedSources(writer.db.progress, cap)
    requires Ready(cfg, t, stream, done, seen0, writer.db.candidates, [])
    requires done + SourceEntries(cfg, source, cap) <= stream
    modifies writer, writer.db`candidates, writer.db`progress
    ensures crashed ==> faulty
    ensures writer.db.Resumable(cfg, t, stream, cap)
    ensures !crashed ==>
              && writer.Valid() && writer.pending == []
              && completed <= CompletedSources(writer.db.progress, cap)
              && Ready(cfg, t, stream, done + SourceEntries(cfg, source, cap), seen, writer.db.candidates, [])
              && result.kept - result0.kept == |writer.db.candidates| - |old(writer.db.candidates)|
              && result.linesRead - result0.linesRead
                 == (result.blank - result0.blank) + (result.malformed - result0.malformed)
                    + (result.rejected - result0.rejected) + (result.kept - result0.kept)
              && result.missing == result0.missing + (if source in cfg.files then [] else [source])
              && result.alreadyComplete == result0.alreadyComplete
  {
    hide Ready, Eligible, FirstWins, Covered, Within, Honest, LinesRead, Entries, InsertOrIgnore;
    seen, result, crashed := seen0, result0, false;
    if source !in cfg.files {
      result := result.(missing := result.missing + [source]);
      assert done + SourceEntries(cfg, source, cap) == done;
    } else if source in completed {
      result := result.(skipped := result.skipped + [source]);
      SkipSource(cfg, t, stream, done, cap, seen, writer.db.candidates, source, writer.db.progress);
    } else {
      seen, result, crashed := ScanSource(cfg, source, cap, seen, writer, result, faulty, t, stream, done);
    }
  }

  method ScanSources(cfg: Config, sources: seq<string>, cap: Option<nat>, completed: set<string>,
                     seen0: set<string>, writer: CandidateWriter, faulty: bool, ghost t: Table)
    returns (result: StageResult, crashed: bool)
    requires writer.Valid() && writer.pending == []
    requires writer.db.Resumable(cfg, t, Stream(cfg, sources, cap), cap)
    requires completed <= CompletedSources(writer.db.progress, cap)
    requires Ready(cfg, t, Stream(cfg, sources, cap), [], seen0, writer.db.candidates, [])
    modifies writer, writer.db`candidates, writer.db`progress
    ensures crashed ==> faulty
    ensures writer.db.Resumable(cfg, t, Stream(cfg, sources, cap), cap)
    ensures !crashed ==>
              && writer.Valid() && writer.pending == []
              && writer.db.candidates == FirstWins(cfg, t, Stream(cfg, sources, cap))
              && result.kept == |writer.db.candidates| - |old(writer.db.candidates)|
              && result.linesRead == result.blank + result.malformed + result.rejected + result.kept
              && (|result.missing| == |sources| ==> !AnyOnDisk(cfg, sources))
              && !result.alreadyComplete
  {
    hide Ready, Eligible, FirstWins, Covered, Within, Honest, Stream, SourceEntries, CompletedSources;
    ghost var stream := Stream(cfg, sources, cap);
    var seen := seen0;
    result, crashed := FRESH_RESULT, false;
    var i := 0;
    StreamStarts(cfg, sources, cap);
    while i < |sources|
      invariant 0 <= i <= |sources| && writer.Valid() && writer.pending == []
      invariant writer.db.Resumable(cfg, t, stream, cap)
      invariant completed <= CompletedSources(writer.db.progress, cap)
      invariant Ready(cfg, t, stream, Stream(cfg, sources[..i], cap), seen, writer.db.candidates, [])
      invariant result.kept == |writer.db.candidates| - |old(writer.db.candidates)|
      invariant result.linesRead == result.blank + result.malformed + result.rejected + result.kept
      invariant |result.missing| <= i && !result.alreadyComplete
      invariant |result.missing| == i ==> forall j :: 0 <= j < i ==> sources[j] !in cfg.files
    {
      StreamSplits(cfg, sources, cap, i);
      seen, result, crashed := VisitSource(cfg, sources[i], cap, completed, seen, writer, result, faulty,
                                           t, stream, Stream(cfg, sources[..i], cap));
      if crashed { return; }
      i := i + 1;
    }
    StreamEnds(cfg, sources, cap);
    NothingPendingIsFinal(cfg, t, stream, seen, writer.db.candidates);
  }

  /** What a completed run that did read reports: nothing dropped, nothing counted twice. */
  ghost predicate Reported(result: StageResult, before: Table, after: Table, batchSize: int) {
    && result.kept == |after| - |before|
    && result.linesRead == result.blank + result.malformed + result.rejected + result.kept
    && result.peakPending <= batchSize
  }

  /** The stage once it is known not to be complete already. */
  method RunStage(cfg: Config, db: CandidatesDb, sources: seq<string>, cap: Option<nat>,
                  completed: set<string>, batchSize: int, faulty: bool, ghost t: Table)
    returns (outcome: Outcome)
    requires db.Resumable(cfg, t, Stream(cfg, sources, cap), cap)
    requires completed <= CompletedSources(db.progress, cap)
    modifies db
    ensures db.Resumable(cfg, t, Stream(cfg, sources, cap), cap)
    ensures outcome.Crashed? ==> faulty
    ensures outcome.BadBatchSize? ==> batchSize < 1
    ensures outcome.NoSourceFound? ==> !AnyOnDisk(cfg, sources)
    ensures outcome.Completed? ==> db.candidates == FirstWins(cfg, t, Stream(cfg, sources, cap))
    ensures outcome.Completed? ==>
              && !outcome.result.alreadyComplete
              && Reported(outcome.result, old(db.candidates), db.candidates, batchSize)
              && db.state == Some(StageState(Complete, cap, |db.candidates|))
  {
    hide Ready, Eligible, FirstWins, Covered, Within, Honest, Stream, InsertOrIgnore, AnyOnDisk,
         CompletedSources;
    var dies := Dies(faulty);
    if dies { return Crashed; }
    db.WriteState(StageState(Running, cap, 0));
    dies := Dies(faulty);
    if dies { return Crashed; }
    StartsReady(cfg, t, Stream(cfg, sources, cap), db.candidates);
    if batchSize < 1 { return BadBatchSize; }
    var writer := new CandidateWriter(db, batchSize);
    var result: StageResult;
    result, dies := ScanSources(cfg, sources, cap, completed, db.candidates.Keys, writer, faulty, t);
    if dies { return Crashed; }
    NothingToInsert(db.candidates);
    dies := writer.Flush(faulty);
    if dies { return Crashed; }
    result := result.(peakPending := writer.peakPending);
    if |result.missing| == |sources| {
      db.WriteState(StageState(Failed, cap, 0));
      return NoSourceFound;
    }
    db.WriteState(StageState(Complete, cap, |db.candidates|));
    dies := Dies(faulty);
    if dies { return Crashed; }
    return Completed(result);
  }

  /**
   * Stage 1. However it ends, the database can be resumed from; when it completes, the table
   * is the first-wins table of the whole stream over the rows it started from.
   */
  method StageProducts(cfg: Config, db: CandidatesDb, sources: seq<string>, cap: Option<nat>,
                       batchSize: int, force: bool, faulty: bool, ghost t: Table)
    returns (outcome: Outcome)
    requires db.Resumable(cfg, t, Stream(cfg, sources, cap), cap)
    modifies db
    ensures db.Resumable(cfg, t, Stream(cfg, sources, cap), cap)
    ensures outcome.Crashed? ==> faulty
    ensures outcome.BadBatchSize? ==> batchSize < 1
    ensures outcome.NoSourceFound? ==> !AnyOnDisk(cfg, sources)
    ensures outcome.Completed? ==> db.candidates == FirstWins(cfg, t, Stream(cfg, sources, cap))
    ensures outcome.Completed? ==> Staged(cfg, sources, cap, t, db.candidates)
    ensures outcome.Completed? && !outcome.result.alreadyComplete ==>
              && Reported(outcome.result, old(db.candidates), db.candidates, batchSize)
              && db.state == Some(StageState(Complete, cap, |db.candidates|))
  {
    hide Eligible, FirstWins, Covered, Within, Honest, Stream, AnyOnDisk, CompletedSources, AllSourcesDone,
         Reported, Staged;
    ResultIsStaged(cfg, t, sources, cap);
    var completed := if force then {} else CompletedSources(db.progress, cap);
    if db.state.Some? && db.state.value.status == Complete && !force && db.state.value.cap == cap
       && AllSourcesDone(cfg, sources, completed)
    {
      DoneIsFinal(cfg, sources, cap, t, db.candidates, db.progress);
      outcome := Completed(FRESH_RESULT.(kept := db.state.value.records, alreadyComplete := true));
    } else {
      outcome := RunStage(cfg, db, sources, cap, completed, batchSize, faulty, t);
    }
  }

  lemma NothingToInsert(t: Table)
    ensures InsertOrIgnore(t, []) == t
  {}

  lemma StreamStarts(cfg: Config, sources: seq<string>, cap: Option<nat>)
    ensures Stream(cfg, sources[..0], cap) == []
  {}

  lemma StreamEnds(cfg: Config, sources: seq<string>, cap: Option<nat>)
    ensures Stream(cfg, sources[..|sources|], cap) == Stream(cfg, sources, cap)
  {
    assert sources[..|sources|] == sources;
  }

  /**
   * Rerun until it completes: any number of crashed attempts with any batch sizes leave
   * exactly the table of one uninterrupted run on an equal database.
   */
  method CrashedRunsEqualOneRun(cfg: Config, crashing: CandidatesDb, smooth: CandidatesDb,
                                sources: seq<string>, cap: Option<nat>, batchSizes: seq<int>, batchSize: int)
    requires crashing != smooth && crashing.candidates == smooth.candidates
    requires crashing.Resumable(cfg, crashing.candidates, Stream(cfg, sources, cap), cap)
    requires smooth.Resumable(cfg, smooth.candidates, Stream(cfg, sources, cap), cap)
    requires AnyOnDisk(cfg, sources) && batchSize >= 1
    modifies crashing, smooth
    ensures crashing.candidates == smooth.candidates
    ensures crashing.candidates == FirstWins(cfg, old(crashing.candidates), Stream(cfg, sources, cap))
  {
    hide Eligible, FirstWins, Within, Honest, Stream;
    ghost var t := crashing.candidates;
    var i := 0;
    while i < |batchSizes|
      invariant crashing.Resumable(cfg, t, Stream(cfg, sources, cap), cap)
      invariant smooth.candidates == t && smooth.Resumable(cfg, t, Stream(cfg, sources, cap), cap)
    {
      var attempt := StageProducts(cfg, crashing, sources, cap, batchSizes[i], false, true, t);
      i := i + 1;
    }
    var last := StageProducts(cfg, crashing, sources, cap, batchSize, false, false, t);
    var only := StageProducts(cfg, smooth, sources, cap, batchSize, false, false, t);
  }

  /** Before the first run at a cap, there is nothing to be dishonest about. */
  lemma NewDatabaseIsResumable(cfg: Config, db: CandidatesDb, stream: seq<Entry>, cap: Option<nat>)
    requires forall name :: name in db.progress ==> db.progress[name].cap != cap
    ensures db.Resumable(cfg, db.candidates, stream, cap)
  {
    FirstWinsCovers(cfg, db.candidates, stream);
    hide FirstWins, Covered, Eligible;
  }
}
