/**
  From the rows of a file to its answer: what every single row is told, and when the
  whole file is answered as a duplicate.
 */
module BulkOutcomes {
  import opened Wrappers
  import opened RowPayload
  import opened BulkPipeline
  import opened ParsedRows
  import opened BulkRows
  import opened BulkAnswers
  import opened BulkResponse
  import Text

  // ---- Each row ------------------------------------------------------------------------

  predicate AllBlank(row: Row) {
    forall v <- row :: Text.Trim(v) == ""
  }

  predicate SomeFormula(u: Upload, row: Row) {
    exists v <- row :: u.isFormula(v)
  }

  // A row that reaches the workers.
  predicate Reaches(u: Upload, r: FileRow) {
    r.Cells? && !AllBlank(r.values) && !SomeFormula(u, r.values)
  }

  lemma ReachesIff(u: Upload, r: FileRow)
    ensures Reaches(u, r) <==> Keeps(u, r)
    ensures r.Malformed? || (!AllBlank(r.values) && SomeFormula(u, r.values)) <==> Settles(u, r)
    ensures Counts(r) <==> r.Malformed? || !AllBlank(r.values)
  {
  }

  // The job a row gives the workers.
  function JobOf(u: Upload, headers: Row, values: Row, row: nat): Option<BulkJob<Payload>> {
    var payload := Build(Writes(headers, values, row));
    if payload.None? then None else Some(BulkJob(row, payload.value, RowKey(u, OwnKey(payload.value), row)))
  }

  // In a done upload each row of the file is told this: a malformed row that it failed, a
  // row with a formula that it is rejected, a blank row nothing, and any other row how its
  // one ingest ended.
  lemma ProfileRowIsTold(u: Upload, headers: Row, rows: seq<FileRow>, workers: nat, acts: seq<Action>, row: int)
    requires var program := ProfileProgram(u, headers, rows); Done(program, Run(program, workers, acts))
    requires 1 <= row <= |rows|
    ensures var r, s := rows[row - 1], Run(ProfileProgram(u, headers, rows), workers, acts);
            && (r.Malformed? ==> row in s.results && s.results[row] == BulkResult(row, Failed, ""))
            && (r.Cells? && AllBlank(r.values) ==> row !in s.results)
            && (r.Cells? && !AllBlank(r.values) && SomeFormula(u, r.values) ==>
                  row in s.results && s.results[row] == BulkResult(row, Rejected, ""))
            && (Reaches(u, r) ==>
                  JobOf(u, headers, r.values, row).Some? && ProcessedOnce(s, JobOf(u, headers, r.values, row).value))
  {
    hide Blank, HasFormula, AllBlank, SomeFormula, ProcessedOnce, RowKey, OwnKey, Build, Writes, Run, Done, ProfileProgram;
    ReachesIff(u, rows[row - 1]);
    ProfileUploadIsAccounted(u, headers, rows, workers, acts);
    if CountedRow(rows, row) {
      ProfileRowsGetTheirResult(u, headers, rows, workers, acts, row);
    }
  }

  // A row the parser took but whose shape cannot be written down has failed.
  lemma UnwrittenRowsFail<F>(u: Upload, judge: Judge<F>, rows: seq<FileRow>, keyOf: F -> string, encodes: F -> bool,
                             shapes: seq<Shape<F>>, errs: seq<RowError>, workers: nat, acts: seq<Action>, row: int)
    requires Parsed(judge, ValuesOf(KeptRows(u, rows)), shapes, errs) && HasFate(u, judge, rows, row, Dispatched)
    requires !encodes(judge(rows[row - 1].values).value)
    requires var program := ParserProgram(u, rows, keyOf, encodes, shapes, errs); Done(program, Run(program, workers, acts))
    ensures var s := Run(ParserProgram(u, rows, keyOf, encodes, shapes, errs), workers, acts);
            row in s.results && s.results[row] == BulkResult(row, Failed, "")
  {
    hide KeptRows, FileRowsOf, ShapeEmission, RefNumber, SettledRows, ErrorEmissions, Shapes, ShapeRows, FateOf, Done, Run;
    var program := ParserProgram(u, rows, keyOf, encodes, shapes, errs);
    ParserProgramIsRight(u, judge, rows, keyOf, encodes, shapes, errs);
    DoneIsComplete(program, workers, acts);
    var i := UnwrittenIsRecorded(u, judge, rows, keyOf, encodes, shapes, errs, row);
    OnlyRecorded(program, i, row);
    assert RecordedRight(program, Run(program, workers, acts), row);
  }

  lemma UnwrittenIsRecorded<F>(u: Upload, judge: Judge<F>, rows: seq<FileRow>, keyOf: F -> string, encodes: F -> bool,
                               shapes: seq<Shape<F>>, errs: seq<RowError>, row: int) returns (i: nat)
    requires Parsed(judge, ValuesOf(KeptRows(u, rows)), shapes, errs) && HasFate(u, judge, rows, row, Dispatched)
    requires !encodes(judge(rows[row - 1].values).value)
    ensures var program := ParserProgram(u, rows, keyOf, encodes, shapes, errs);
            && i < |program| && program[i] == Record(BulkResult(row, Failed, ""))
            && forall k :: 0 <= k < |program| && k != i ==> !On(program[k], row)
  {
    hide KeptRows, FileRowsOf, ShapeEmission, RefNumber, SettledRows, ErrorEmissions, Shapes, ShapeRows, FateOf;
    var kept := KeptRows(u, rows);
    var values, fileRows := ValuesOf(kept), FileRowsOf(kept);
    var k := ParsedHasShape(u, judge, rows, row);
    var at := ShapeRows(judge, values);
    ShapesFacts(judge, values);
    KeptAt(u, rows, at[k] - 1);
    RefRoundTrip(at[k]);
    ShapeEmissionAt(u, fileRows, keyOf, encodes, shapes);
    UnwrittenEmission(u, fileRows, keyOf, encodes, shapes[k]);
    var a, b := SettledRows<Shape<F>>(u, rows), ErrorEmissions<Shape<F>>(fileRows, errs);
    var c := ShapePart(u, judge, rows, keyOf, encodes);
    SettledCovers<F, Shape<F>>(u, judge, rows);
    ErrorsCover<F, Shape<F>>(u, judge, rows, errs);
    ShapesCover(u, judge, rows, keyOf, encodes);
    ShapesIncrease(u, judge, rows, keyOf, encodes);
    i := |a| + |b| + k;
    OnlyOne(u, judge, rows, a, b, c, row, k);
  }

  lemma UnwrittenEmission<F>(u: Upload, fileRows: map<int, int>, keyOf: F -> string, encodes: F -> bool, shape: Shape<F>)
    requires !encodes(shape.figures)
    ensures var row := SourceFileRowNumber(fileRows, RefNumber(shape.sourceRowRef));
            ShapeEmission(u, fileRows, keyOf, encodes, shape) == Record(BulkResult(row, Failed, ""))
  {
  }

  lemma OnlyOne<F, P>(u: Upload, judge: Judge<F>, rows: seq<FileRow>, a: Program<P>, b: Program<P>, c: Program<P>,
                      row: int, k: nat)
    requires Covers(u, judge, rows, a, Settled) && Covers(u, judge, rows, b, Refused) && Covers(u, judge, rows, c, Dispatched)
    requires Increasing(c) && HasFate(u, judge, rows, row, Dispatched) && k < |c| && On(c[k], row)
    ensures forall i :: 0 <= i < |a + b + c| && i != |a| + |b| + k ==> !On((a + b + c)[i], row)
  {
    var all := a + b + c;
    forall i | 0 <= i < |all| && i != |a| + |b| + k ensures !On(all[i], row) {
      assert EmissionFits(u, judge, rows, all[i], PartOf(|a|, |b|, i));
      if i >= |a| + |b| {
        assert all[i] == c[i - |a| - |b|];
        assert EmissionFits(u, judge, rows, c[k], Dispatched);
      }
    }
  }

  lemma {:induction false} OnlyRecorded<P>(program: Program<P>, i: nat, row: int)
    requires i < |program| && program[i].Record? && program[i].result.row == row
    requires forall k :: 0 <= k < |program| && k != i ==> !On(program[k], row)
    ensures Recorded(program, row) == Some(program[i].result)
  {
    if i < |program| - 1 {
      var init := program[..|program| - 1];
      assert !On(program[|program| - 1], row);
      OnlyRecorded(init, i, row);
    }
  }

  // ---- The whole file -------------------------------------------------------------------

  ghost predicate AllDuplicates(results: map<int, BulkResult>) {
    forall row <- results :: results[row].status == Duplicate
  }

  ghost predicate AllStoredBefore<P>(s: State<P>) {
    forall k :: 0 <= k < |s.finished| ==> s.finished[k].1 == AlreadyStored
  }

  ghost predicate AllSent<P>(program: Program<P>) {
    forall i :: 0 <= i < |program| ==> program[i].Send?
  }

  lemma {:induction false} RecordedFrom<P>(program: Program<P>, row: int)
    requires Recorded(program, row).Some?
    ensures exists k :: 0 <= k < |program| && program[k] == Record(Recorded(program, row).value)
  {
    var init, last := program[..|program| - 1], program[|program| - 1];
    if !(last.Record? && last.result.row == row) {
      RecordedFrom(init, row);
      var k :| 0 <= k < |init| && init[k] == Record(Recorded(init, row).value);
      assert program[k] == init[k];
    }
  }

  // A producer that never records a duplicate itself: all results are duplicates exactly
  // when every row was sent and had been stored before.
  lemma DuplicatesIff<P>(program: Program<P>, workers: nat, acts: seq<Action>)
    requires Unmixed(program) && Done(program, Run(program, workers, acts))
    requires forall i :: 0 <= i < |program| && program[i].Record? ==> program[i].result.status != Duplicate
    ensures var s := Run(program, workers, acts);
            AllDuplicates(s.results) <==> AllSent(program) && AllStoredBefore(s)
  {
    hide Run, Done, Sent, ResultsRight, AllStoredBefore, AllSent, AllDuplicates, Unmixed;
    var s := Run(program, workers, acts);
    if AllDuplicates(s.results) {
      DuplicatesWereStored(program, workers, acts);
      DuplicatesWereSent(program, workers, acts);
    }
    if AllSent(program) && AllStoredBefore(s) {
      StoredAreDuplicates(program, workers, acts);
    }
  }

  lemma DuplicatesWereStored<P>(program: Program<P>, workers: nat, acts: seq<Action>)
    requires Unmixed(program) && AllDuplicates(Run(program, workers, acts).results)
    ensures AllStoredBefore(Run(program, workers, acts))
  {
    hide Run, Unmixed;
    var s := Run(program, workers, acts);
    EveryRunIsRight(program, workers, acts);
    forall k | 0 <= k < |s.finished| ensures s.finished[k].1 == AlreadyStored {
      assert FinishedRight(s, k);
    }
  }

  lemma DuplicatesWereSent<P>(program: Program<P>, workers: nat, acts: seq<Action>)
    requires Unmixed(program) && Done(program, Run(program, workers, acts))
    requires forall i :: 0 <= i < |program| && program[i].Record? ==> program[i].result.status != Duplicate
    requires AllDuplicates(Run(program, workers, acts).results)
    ensures AllSent(program)
  {
    hide Run, Unmixed, Done, Recorded, RecordedRight, ProcessedOnce;
    var s := Run(program, workers, acts);
    DoneIsComplete(program, workers, acts);
    forall i | 0 <= i < |program| ensures program[i].Send? {
      if program[i].Record? {
        RecordStays(program, s, i);
      } else if program[i].Panic? {
        NoPanicWhenDone(program, workers, acts, i);
      }
    }
  }

  lemma RecordStays<P>(program: Program<P>, s: State<P>, i: nat)
    requires i < |program| && program[i].Record?
    requires forall k :: 0 <= k < |program| && program[k].Record? ==> program[k].result.status != Duplicate
    requires forall row :: RecordedRight(program, s, row)
    ensures program[i].result.row in s.results && s.results[program[i].result.row].status != Duplicate
  {
    hide Recorded;
    var row := program[i].result.row;
    RecordedFacts(program, row);
    RecordedFrom(program, row);
    assert RecordedRight(program, s, row);
  }

  lemma StoredAnswers<P>(s: State<P>, job: BulkJob<P>)
    requires ProcessedOnce(s, job) && AllStoredBefore(s)
    ensures job.row in s.results && s.results[job.row].status == Duplicate
  {
  }

  lemma StoredAreDuplicates<P>(program: Program<P>, workers: nat, acts: seq<Action>)
    requires Unmixed(program) && Done(program, Run(program, workers, acts))
    requires AllSent(program) && AllStoredBefore(Run(program, workers, acts))
    ensures AllDuplicates(Run(program, workers, acts).results)
  {
    hide Run, Unmixed, Done, Recorded, ProcessedOnce, RecordedRight, AllStoredBefore;
    var s := Run(program, workers, acts);
    DoneIsComplete(program, workers, acts);
    forall row <- s.results ensures s.results[row].status == Duplicate {
      var i :| 0 <= i < |program| && On(program[i], row);
      StoredAnswers(s, program[i].job);
    }
  }

  // The producer gets past no panic.
  lemma {:induction false} NoPanicWhenDone<P>(program: Program<P>, workers: nat, acts: seq<Action>, i: nat)
    requires i < |program| && program[i].Panic?
    ensures var s := Run(program, workers, acts); s.pos <= i && !Done(program, s)
  {
    if acts != [] {
      NoPanicWhenDone(program, workers, acts[..|acts| - 1], i);
    }
  }

  // Assemble the results and answer.
  method AnswerUpload(results: map<int, BulkResult>) returns (r: Response, ghost last: nat)
    requires forall row <- results :: row >= 1 && results[row].row == row
    ensures forall row <- results :: row <= last
    ensures r.NoProcessableRows? <==> results == map[]
    ensures r.DuplicateBatch? <==> results != map[] && AllDuplicates(results)
    ensures r.DuplicateBatch? ==> r.totalRows == |InOrder(results, last)|
    ensures r.Summary? ==> r.results == InOrder(results, last)
  {
    var list, maxRow := AssembleResults(results);
    last := maxRow;
    InOrderFacts(results, maxRow);
    r := RespondBulkResults(list);
    forall row <- results ensures results[row] in list {
    }
    forall x <- list ensures x.row in results && results[x.row] == x {
    }
    if list != [] {
      assert list[0] in list;
    }
  }

  // A profile upload, once done, is answered as a duplicate batch exactly when some row
  // is not blank, every such row reached the workers, and each had been stored before.
  // There is nothing to process exactly when all rows are blank; and a summary lists the
  // rows that are not blank, in file order.
  method AnswerProfileUpload(results: map<int, BulkResult>, ghost u: Upload, ghost headers: Row, ghost rows: seq<FileRow>,
                             ghost workers: nat, ghost acts: seq<Action>) returns (r: Response)
    requires Done(ProfileProgram(u, headers, rows), Run(ProfileProgram(u, headers, rows), workers, acts))
    requires results == Run(ProfileProgram(u, headers, rows), workers, acts).results
    ensures r.NoProcessableRows? <==> forall x <- rows :: x.Cells? && AllBlank(x.values)
    ensures r.DuplicateBatch? <==>
            && (exists x <- rows :: Reaches(u, x))
            && (forall x <- rows :: Reaches(u, x) || (x.Cells? && AllBlank(x.values)))
            && AllStoredBefore(Run(ProfileProgram(u, headers, rows), workers, acts))
    ensures r.DuplicateBatch? ==> r.totalRows == |CountedRows(rows)|
    ensures r.Summary? ==> RowsOf(r.results) == CountedRows(rows)
  {
    hide AllBlank, SomeFormula, ProfileProgram, Run, Done, AllStoredBefore, AllDuplicates, InOrder, CountedRows;
    ghost var s := Run(ProfileProgram(u, headers, rows), workers, acts);
    ProfileUploadIsAccounted(u, headers, rows, workers, acts);
    ghost var last;
    r, last := AnswerUpload(results);
    AnswersInFileOrder(rows, s, last);
    ProfileDuplicatesIff(u, headers, rows, workers, acts);
    NothingCounted(rows, s);
    CountedAre(u, rows);
  }

  lemma CountedAre(u: Upload, rows: seq<FileRow>)
    ensures (forall x <- rows :: !Counts(x)) <==> forall x <- rows :: x.Cells? && AllBlank(x.values)
    ensures (exists x <- rows :: Counts(x)) && (forall x <- rows :: !Settles(u, x)) <==>
            (exists x <- rows :: Reaches(u, x)) && forall x <- rows :: Reaches(u, x) || (x.Cells? && AllBlank(x.values))
  {
    hide AllBlank, SomeFormula, Counts, Settles, Keeps;
    forall x <- rows
      ensures Counts(x) <==> !(x.Cells? && AllBlank(x.values))
      ensures Settles(u, x) <==> !Reaches(u, x) && !(x.Cells? && AllBlank(x.values))
    {
      ReachesIff(u, x);
    }
    assert forall x <- rows | Reaches(u, x) :: Counts(x);
    assert forall x <- rows | Counts(x) && !Settles(u, x) :: Reaches(u, x);
  }

  lemma NothingCounted<P>(rows: seq<FileRow>, s: State<P>)
    requires Accounted(rows, s)
    ensures s.results == map[] <==> forall x <- rows :: !Counts(x)
  {
    forall i | 0 <= i < |rows| ensures i + 1 in s.results <==> Counts(rows[i]) {
      assert CountedRow(rows, i + 1) <==> Counts(rows[i]);
    }
    if s.results != map[] {
      assert exists row :: row in s.results by {
        if forall row :: row !in s.results {
          assert false;
        }
      }
      var row :| row in s.results;
      assert CountedRow(rows, row) && rows[row - 1] in rows;
    }
  }

  lemma ProfileDuplicatesIff(u: Upload, headers: Row, rows: seq<FileRow>, workers: nat, acts: seq<Action>)
    requires Done(ProfileProgram(u, headers, rows), Run(ProfileProgram(u, headers, rows), workers, acts))
    ensures var s := Run(ProfileProgram(u, headers, rows), workers, acts);
            AllDuplicates(s.results) <==> (forall x <- rows :: !Settles(u, x)) && AllStoredBefore(s)
  {
    hide AllStoredBefore, AllDuplicates, Run, Done, RowEmissions, AllSent;
    var program, emit := ProfileProgram(u, headers, rows), ProfileEmitter(u, headers);
    if Stopped(program) {
      StoppedIsNeverDone(program, workers, acts);
    } else {
      ProfileProgramIsRight(u, headers, rows);
      ProfileEmitsRight(u, headers);
      WalkFacts(emit, rows);
      forall i | 0 <= i < |program| && program[i].Record? ensures program[i].result.status != Duplicate {
        assert program[i] in program && FromRow(emit, rows, program[i]);
        RecordsNoDuplicate(u, headers, rows[RowOf(program[i]) - 1], RowOf(program[i]));
      }
      DuplicatesIff(program, workers, acts);
      AllSentIff(u, headers, rows);
    }
  }

  lemma RecordsNoDuplicate(u: Upload, headers: Row, r: FileRow, n: nat)
    ensures var e := RowEmissions(u, headers, r, n);
            && (e != [] && e[0].Record? <==> Settles(u, r))
            && (e != [] && e[0].Record? ==> e[0].result.status != Duplicate)
  {
  }

  lemma AllSentIff(u: Upload, headers: Row, rows: seq<FileRow>)
    requires !Stopped(ProfileProgram(u, headers, rows))
    ensures AllSent(ProfileProgram(u, headers, rows)) <==> forall x <- rows :: !Settles(u, x)
  {
    hide RowEmissions;
    var program, emit := ProfileProgram(u, headers, rows), ProfileEmitter(u, headers);
    ProfileEmitsRight(u, headers);
    WalkFacts(emit, rows);
    forall i | 0 <= i < |rows| && Settles(u, rows[i]) ensures !AllSent(program) {
      RecordsNoDuplicate(u, headers, rows[i], i + 1);
      assert At(emit, rows, i + 1) != [];
      assert Mentions(program, i + 1);
      var k :| 0 <= k < |program| && On(program[k], i + 1);
      assert program[k] in program && FromRow(emit, rows, program[k]);
    }
    forall k | 0 <= k < |program| && !program[k].Send? ensures exists x <- rows :: Settles(u, x) {
      assert !program[k].Panic?;
      assert program[k] in program && FromRow(emit, rows, program[k]);
      var n := RowOf(program[k]);
      RecordsNoDuplicate(u, headers, rows[n - 1], n);
      assert rows[n - 1] in rows;
    }
  }

  // ---- The same on the parser path -------------------------------------------------------

  // A row that the parser accepts and whose shape can be written down.
  predicate Takes<F>(u: Upload, judge: Judge<F>, rows: seq<FileRow>, encodes: F -> bool, n: int) {
    HasFate(u, judge, rows, n, Dispatched) && judge(rows[n - 1].values).Some? && encodes(judge(rows[n - 1].values).value)
  }

  lemma SettledAreRecorded<P>(u: Upload, rows: seq<FileRow>)
    ensures forall e <- SettledRows<P>(u, rows) :: e.Record? && e.result.status != Duplicate
  {
    var emit := SettledEmitter<P>(u);
    assert EmitsRight(emit);
    WalkFacts(emit, rows);
    forall n ensures At(emit, rows, n) != [Panic] {
    }
    forall e <- SettledRows<P>(u, rows) ensures e.Record? && e.result.status != Duplicate {
      assert FromRow(emit, rows, e);
    }
  }

  // A shape is sent exactly when it can be written down; otherwise its row has failed.
  lemma ShapeIsSentIff<F>(u: Upload, judge: Judge<F>, rows: seq<FileRow>, keyOf: F -> string, encodes: F -> bool, k: nat)
    requires k < |ShapePart(u, judge, rows, keyOf, encodes)|
    ensures var e := ShapePart(u, judge, rows, keyOf, encodes)[k];
            && EmissionFits(u, judge, rows, e, Dispatched)
            && (e.Send? <==> Takes(u, judge, rows, encodes, RowOf(e)))
            && (e.Record? ==> e.result.status == Failed)
  {
    hide KeptRows, FileRowsOf, RefNumber, Shapes, ShapeRows, ShapeEmissions, Covers;
    var kept := KeptRows(u, rows);
    var values := ValuesOf(kept);
    ShapePartAt(u, judge, rows, keyOf, encodes, k);
    ShapesFacts(judge, values);
    ShapeEmissionAt(u, FileRowsOf(kept), keyOf, encodes, Shapes(judge, values));
    KeptAt(u, rows, ShapeRows(judge, values)[k] - 1);
  }

  lemma ParserRecordsNoDuplicate<F>(u: Upload, judge: Judge<F>, rows: seq<FileRow>, keyOf: F -> string, encodes: F -> bool,
                                    shapes: seq<Shape<F>>, errs: seq<RowError>)
    requires Parsed(judge, ValuesOf(KeptRows(u, rows)), shapes, errs)
    ensures var program := ParserProgram(u, rows, keyOf, encodes, shapes, errs);
            forall i :: 0 <= i < |program| && program[i].Record? ==> program[i].result.status != Duplicate
  {
    hide KeptRows, FileRowsOf, ShapeEmission, Takes, EmissionFits, SettledRows, ErrorEmissions, ShapeEmissions;
    var fileRows := FileRowsOf(KeptRows(u, rows));
    var a, b := SettledRows<Shape<F>>(u, rows), ErrorEmissions<Shape<F>>(fileRows, errs);
    var c := ShapePart(u, judge, rows, keyOf, encodes);
    SettledAreRecorded<Shape<F>>(u, rows);
    ErrorEmissionAt<Shape<F>>(fileRows, errs);
    var program := a + b + c;
    forall i | 0 <= i < |program| && program[i].Record? ensures program[i].result.status != Duplicate {
      if i < |a| {
        assert program[i] == a[i] && a[i] in a;
      } else if i >= |a| + |b| {
        ShapeIsSentIff(u, judge, rows, keyOf, encodes, i - |a| - |b|);
      }
    }
  }

  // Everything the producer emits is a job exactly when every row that counts is accepted.
  lemma ParserAllSentIff<F>(u: Upload, judge: Judge<F>, rows: seq<FileRow>, keyOf: F -> string, encodes: F -> bool,
                            shapes: seq<Shape<F>>, errs: seq<RowError>)
    requires Parsed(judge, ValuesOf(KeptRows(u, rows)), shapes, errs)
    ensures AllSent(ParserProgram(u, rows, keyOf, encodes, shapes, errs))
       <==> forall n :: CountedRow(rows, n) ==> Takes(u, judge, rows, encodes, n)
  {
    hide KeptRows, FileRowsOf, ShapeEmission, SettledRows, ErrorEmissions, ShapeEmissions, Shapes, ErrorsRight;
    var fileRows := FileRowsOf(KeptRows(u, rows));
    var a, b := SettledRows<Shape<F>>(u, rows), ErrorEmissions<Shape<F>>(fileRows, errs);
    var c := ShapePart(u, judge, rows, keyOf, encodes);
    var program := ParserProgram(u, rows, keyOf, encodes, shapes, errs);
    assert program == a + b + c;
    ParserProgramIsRight(u, judge, rows, keyOf, encodes, shapes, errs);
    PartsOfParser(u, judge, rows, keyOf, encodes, errs);
    forall n | CountedRow(rows, n) && AllSent(program) ensures Takes(u, judge, rows, encodes, n) {
      assert Mentions(program, n);
      var k :| 0 <= k < |program| && On(program[k], n);
      assert program[k].Send?;
      assert k >= |a| + |b|;
      ShapeIsSentIff(u, judge, rows, keyOf, encodes, k - |a| - |b|);
    }
    if forall n :: CountedRow(rows, n) ==> Takes(u, judge, rows, encodes, n) {
      forall k | 0 <= k < |program| ensures program[k].Send? {
        AcceptedIsSent(u, judge, rows, keyOf, encodes, a, b, c, k);
      }
    }
  }

  lemma PartsOfParser<F>(u: Upload, judge: Judge<F>, rows: seq<FileRow>, keyOf: F -> string, encodes: F -> bool,
                         errs: seq<RowError>)
    requires ErrorsRight(judge, ValuesOf(KeptRows(u, rows)), errs)
    ensures var a, b := SettledRows<Shape<F>>(u, rows), ErrorEmissions<Shape<F>>(FileRowsOf(KeptRows(u, rows)), errs);
            && Covers(u, judge, rows, a, Settled) && Covers(u, judge, rows, b, Refused)
            && Covers(u, judge, rows, ShapePart(u, judge, rows, keyOf, encodes), Dispatched)
            && (forall k :: 0 <= k < |a| ==> a[k].Record?) && (forall k :: 0 <= k < |b| ==> b[k].Record?)
  {
    hide KeptRows, FileRowsOf, SettledRows, ErrorEmissions, ShapeEmissions, Covers, ErrorsRight;
    SettledCovers<F, Shape<F>>(u, judge, rows);
    ErrorsCover<F, Shape<F>>(u, judge, rows, errs);
    ShapesCover(u, judge, rows, keyOf, encodes);
    SettledAreRecorded<Shape<F>>(u, rows);
  }

  lemma AcceptedIsSent<F>(u: Upload, judge: Judge<F>, rows: seq<FileRow>, keyOf: F -> string, encodes: F -> bool,
                          a: Program<Shape<F>>, b: Program<Shape<F>>, c: Program<Shape<F>>, k: nat)
    requires c == ShapePart(u, judge, rows, keyOf, encodes)
    requires Covers(u, judge, rows, a, Settled) && Covers(u, judge, rows, b, Refused) && Covers(u, judge, rows, c, Dispatched)
    requires forall n :: CountedRow(rows, n) ==> Takes(u, judge, rows, encodes, n)
    requires k < |a + b + c|
    ensures (a + b + c)[k].Send?
  {
    hide ShapePart;
    var e := (a + b + c)[k];
    assert EmissionFits(u, judge, rows, e, PartOf(|a|, |b|, k));
    assert CountedRow(rows, RowOf(e));
    if k >= |a| + |b| {
      ShapeIsSentIff(u, judge, rows, keyOf, encodes, k - |a| - |b|);
    }
  }

  // A parsed upload, once done, is answered as a duplicate batch exactly when some row is
  // not blank, every such row was accepted, and each had been stored before.
  method AnswerParserUpload<F>(results: map<int, BulkResult>, ghost u: Upload, ghost judge: Judge<F>,
                               ghost rows: seq<FileRow>, ghost keyOf: F -> string, ghost encodes: F -> bool,
                               ghost shapes: seq<Shape<F>>, ghost errs: seq<RowError>,
                               ghost workers: nat, ghost acts: seq<Action>) returns (r: Response)
    requires Parsed(judge, ValuesOf(KeptRows(u, rows)), shapes, errs)
    requires var program := ParserProgram(u, rows, keyOf, encodes, shapes, errs);
             Done(program, Run(program, workers, acts)) && results == Run(program, workers, acts).results
    ensures r.NoProcessableRows? <==> forall x <- rows :: x.Cells? && AllBlank(x.values)
    ensures r.DuplicateBatch? <==>
            && (exists x <- rows :: !(x.Cells? && AllBlank(x.values)))
            && (forall n :: CountedRow(rows, n) ==> Takes(u, judge, rows, encodes, n))
            && AllStoredBefore(Run(ParserProgram(u, rows, keyOf, encodes, shapes, errs), workers, acts))
    ensures r.DuplicateBatch? ==> r.totalRows == |CountedRows(rows)|
    ensures r.Summary? ==> RowsOf(r.results) == CountedRows(rows)
  {
    hide AllBlank, Takes, ParserProgram, Run, Done, AllStoredBefore, AllDuplicates, AllSent, InOrder, CountedRows, KeptRows;
    ghost var program := ParserProgram(u, rows, keyOf, encodes, shapes, errs);
    ghost var s := Run(program, workers, acts);
    ParserUploadIsAccounted(u, judge, rows, keyOf, encodes, shapes, errs, workers, acts);
    ghost var last;
    r, last := AnswerUpload(results);
    AnswersInFileOrder(rows, s, last);
    ParserProgramIsRight(u, judge, rows, keyOf, encodes, shapes, errs);
    ParserRecordsNoDuplicate(u, judge, rows, keyOf, encodes, shapes, errs);
    DuplicatesIff(program, workers, acts);
    ParserAllSentIff(u, judge, rows, keyOf, encodes, shapes, errs);
    NothingCounted(rows, s);
    CountedAre(u, rows);
  }
}
