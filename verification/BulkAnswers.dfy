/**
  What a bulk upload answers: each row of the file is accounted for exactly once,
  however the workers are scheduled.
 */
module BulkAnswers {
  import opened Wrappers
  import opened RowPayload
  import opened BulkPipeline
  import opened ParsedRows
  import opened BulkRows
  import Text

  // ---- Walking the file --------------------------------------------------------------

  // An emitter leads to at most one emission per row, for that row.
  ghost predicate EmitsRight<P>(emit: Emitter<P>) {
    forall r, n :: |emit(r, n)| <= 1 && (emit(r, n) != [] && !emit(r, n)[0].Panic? ==> RowOf(emit(r, n)[0]) == n)
  }

  // What row n leads to.
  function At<P>(emit: Emitter<P>, rows: seq<FileRow>, n: int): Program<P> {
    if 1 <= n <= |rows| then emit(rows[n - 1], n) else []
  }

  // Emission k of the walk is what its row leads to.
  predicate FromRow<P(==)>(emit: Emitter<P>, rows: seq<FileRow>, e: Emission<P>) {
    !e.Panic? ==> At(emit, rows, RowOf(e)) == [e]
  }

  ghost predicate Increasing<P>(program: Program<P>) {
    forall i, j :: 0 <= i < j < |program| && !program[i].Panic? && !program[j].Panic? ==> RowOf(program[i]) < RowOf(program[j])
  }

  ghost predicate Mentions<P>(program: Program<P>, row: int) {
    exists k :: 0 <= k < |program| && On(program[k], row)
  }

  predicate PanicLast<P>(program: Program<P>) {
    forall k :: 0 <= k < |program| - 1 ==> !program[k].Panic?
  }

  ghost predicate WalkRight<P>(emit: Emitter<P>, rows: seq<FileRow>, program: Program<P>) {
    && PanicLast(program) && Increasing(program)
    && (forall e <- program :: FromRow(emit, rows, e))
    && (!Stopped(program) ==> forall n :: At(emit, rows, n) != [] ==> Mentions(program, n))
    && (Stopped(program) <==> exists n :: At(emit, rows, n) == [Panic])
  }

  lemma {:induction false} WalkFacts<P>(emit: Emitter<P>, rows: seq<FileRow>)
    requires EmitsRight(emit)
    ensures WalkRight(emit, rows, Walk(emit, rows))
  {
    if rows != [] {
      WalkFacts(emit, rows[..|rows| - 1]);
      WalkSnoc(emit, rows, Walk(emit, rows[..|rows| - 1]));
    }
  }

  lemma WalkSnocOrder<P>(emit: Emitter<P>, rows: seq<FileRow>, before: Program<P>)
    requires EmitsRight(emit) && rows != [] && WalkRight(emit, rows[..|rows| - 1], before) && !Stopped(before)
    ensures var program := before + emit(rows[|rows| - 1], |rows|);
            PanicLast(program) && Increasing(program) && forall e <- program :: FromRow(emit, rows, e)
  {
    var init, last := rows[..|rows| - 1], emit(rows[|rows| - 1], |rows|);
    var program := before + last;
    forall e <- program ensures FromRow(emit, rows, e) {
      if e in before {
        assert FromRow(emit, init, e);
      }
    }
    forall i, j | 0 <= i < j < |program| && !program[i].Panic? && !program[j].Panic?
      ensures RowOf(program[i]) < RowOf(program[j])
    {
      assert program[i] == before[i] && before[i] in before && FromRow(emit, init, before[i]);
    }
  }

  lemma WalkSnocComplete<P>(emit: Emitter<P>, rows: seq<FileRow>, before: Program<P>)
    requires EmitsRight(emit) && rows != [] && WalkRight(emit, rows[..|rows| - 1], before) && !Stopped(before)
    ensures var program := before + emit(rows[|rows| - 1], |rows|);
            !Stopped(program) ==> forall n :: At(emit, rows, n) != [] ==> Mentions(program, n)
  {
    var init, last := rows[..|rows| - 1], emit(rows[|rows| - 1], |rows|);
    var program := before + last;
    forall n | At(emit, rows, n) != [] && !Stopped(program) ensures Mentions(program, n) {
      assert n < |rows| ==> At(emit, rows, n) == At(emit, init, n);
      if n < |rows| {
        assert Mentions(before, n);
        var k :| 0 <= k < |before| && On(before[k], n);
        assert On(program[k], n);
      } else {
        assert On(program[|before|], n);
      }
    }
  }

  lemma WalkSnocStops<P>(emit: Emitter<P>, rows: seq<FileRow>, before: Program<P>)
    requires EmitsRight(emit) && rows != [] && WalkRight(emit, rows[..|rows| - 1], before) && !Stopped(before)
    ensures Stopped(before + emit(rows[|rows| - 1], |rows|)) <==> exists n :: At(emit, rows, n) == [Panic]
  {
    var init, last := rows[..|rows| - 1], emit(rows[|rows| - 1], |rows|);
    assert At(emit, rows, |rows|) == last;
    assert Stopped(before + last) <==> last == [Panic];
    forall n | n != |rows| ensures At(emit, rows, n) != [Panic] {
      assert At(emit, rows, n) == At(emit, init, n);
    }
  }

  lemma WalkSnoc<P>(emit: Emitter<P>, rows: seq<FileRow>, before: Program<P>)
    requires EmitsRight(emit) && rows != [] && WalkRight(emit, rows[..|rows| - 1], before)
    ensures WalkRight(emit, rows, if Stopped(before) then before else before + emit(rows[|rows| - 1], |rows|))
  {
    if Stopped(before) {
      var init := rows[..|rows| - 1];
      forall e <- before ensures FromRow(emit, rows, e) {
        assert FromRow(emit, init, e);
      }
      var n :| At(emit, init, n) == [Panic];
      assert At(emit, rows, n) == [Panic];
    } else {
      WalkSnocOrder(emit, rows, before);
      WalkSnocComplete(emit, rows, before);
      WalkSnocStops(emit, rows, before);
    }
  }

  lemma IncreasingIsUnmixed<P>(program: Program<P>)
    requires Increasing(program)
    ensures Unmixed(program)
  {
  }

  // A row of the file that has to be accounted for.
  predicate CountedRow(rows: seq<FileRow>, row: int) {
    1 <= row <= |rows| && Counts(rows[row - 1])
  }

  // ---- The profile path -----------------------------------------------------------------

  predicate HeadersClash(headers: Row) {
    Build(Writes(headers, [], 0)).None?
  }

  lemma ProfileEmitsRight(u: Upload, headers: Row)
    ensures EmitsRight(ProfileEmitter(u, headers))
  {
  }

  lemma ProfilePanicsIff(u: Upload, headers: Row, r: FileRow, n: nat)
    ensures RowEmissions(u, headers, r, n) == [Panic] <==> Keeps(u, r) && HeadersClash(headers)
    ensures RowEmissions(u, headers, r, n) != [] <==> Counts(r)
  {
    if Keeps(u, r) {
      PanicDependsOnHeaders(headers, r.values, n, [], 0);
    }
  }

  // Reading the file stops with a panic exactly when the headers clash and some
  // row gets as far as having its payload built.
  lemma ProfileStopsIff(u: Upload, headers: Row, rows: seq<FileRow>)
    ensures Stopped(ProfileProgram(u, headers, rows)) <==> HeadersClash(headers) && exists r <- rows :: Keeps(u, r)
  {
    var emit := ProfileEmitter(u, headers);
    ProfileEmitsRight(u, headers);
    WalkFacts(emit, rows);
    if n :| At(emit, rows, n) == [Panic] {
      ProfilePanicsIff(u, headers, rows[n - 1], n);
      assert rows[n - 1] in rows;
    }
    if r :| r in rows && Keeps(u, r) && HeadersClash(headers) {
      var i :| 0 <= i < |rows| && rows[i] == r;
      ProfilePanicsIff(u, headers, r, i + 1);
      assert At(emit, rows, i + 1) == [Panic];
    }
  }

  lemma ProfileProgramIsRight(u: Upload, headers: Row, rows: seq<FileRow>)
    requires !Stopped(ProfileProgram(u, headers, rows))
    ensures var program := ProfileProgram(u, headers, rows);
            Unmixed(program) && forall row :: Mentions(program, row) <==> CountedRow(rows, row)
  {
    var emit, program := ProfileEmitter(u, headers), ProfileProgram(u, headers, rows);
    ProfileEmitsRight(u, headers);
    WalkFacts(emit, rows);
    IncreasingIsUnmixed(program);
    forall row ensures Mentions(program, row) <==> CountedRow(rows, row) {
      if 1 <= row <= |rows| {
        ProfilePanicsIff(u, headers, rows[row - 1], row);
        assert At(emit, rows, row) == RowEmissions(u, headers, rows[row - 1], row);
      }
      if Mentions(program, row) {
        var k :| 0 <= k < |program| && On(program[k], row);
        assert program[k] in program && FromRow(emit, rows, program[k]);
      }
    }
  }

  // A program that ends in a panic is never done, so the upload gets no answer.
  lemma {:induction false} StoppedIsNeverDone<P>(program: Program<P>, workers: nat, acts: seq<Action>)
    requires Stopped(program)
    ensures var s := Run(program, workers, acts); s.pos < |program| && !Done(program, s)
  {
    if acts != [] {
      StoppedIsNeverDone(program, workers, acts[..|acts| - 1]);
    }
  }

  // ---- The parser path ---------------------------------------------------------------------

  datatype Fate = Skipped | Settled | Refused | Dispatched

  function FateOf<F>(u: Upload, judge: Judge<F>, r: FileRow): Fate {
    if Settles(u, r) then Settled
    else if !Keeps(u, r) then Skipped
    else if judge(r.values).None? then Refused
    else Dispatched
  }

  predicate HasFate<F>(u: Upload, judge: Judge<F>, rows: seq<FileRow>, n: int, fate: Fate) {
    1 <= n <= |rows| && FateOf(u, judge, rows[n - 1]) == fate
  }

  // This part of a program is about the rows with this fate, and about all of them.
  ghost predicate Covers<F, P>(u: Upload, judge: Judge<F>, rows: seq<FileRow>, part: Program<P>, fate: Fate) {
    && (forall k :: 0 <= k < |part| ==> EmissionFits(u, judge, rows, part[k], fate))
    && (forall n :: HasFate(u, judge, rows, n, fate) ==> Mentions(part, n))
  }

  predicate EmissionFits<F, P>(u: Upload, judge: Judge<F>, rows: seq<FileRow>, e: Emission<P>, fate: Fate) {
    !e.Panic? && HasFate(u, judge, rows, RowOf(e), fate)
  }

  lemma SettledCovers<F, P>(u: Upload, judge: Judge<F>, rows: seq<FileRow>)
    ensures var part := SettledRows<P>(u, rows); Increasing(part) && Covers(u, judge, rows, part, Settled)
  {
    var emit, part := SettledEmitter<P>(u), SettledRows<P>(u, rows);
    assert EmitsRight(emit);
    WalkFacts(emit, rows);
    forall n ensures At(emit, rows, n) != [Panic] {
    }
    forall k | 0 <= k < |part| ensures EmissionFits(u, judge, rows, part[k], Settled) {
      assert part[k] in part && FromRow(emit, rows, part[k]);
    }
    forall n | HasFate(u, judge, rows, n, Settled) ensures Mentions(part, n) {
      assert At(emit, rows, n) != [];
    }
  }

  // ---- Rows kept for the parser ----

  predicate KeepsAt(u: Upload, rows: seq<FileRow>, n: int) {
    1 <= n <= |rows| && Keeps(u, rows[n - 1])
  }

  ghost predicate KeptRight(u: Upload, rows: seq<FileRow>, kept: seq<SourceRow>) {
    && (forall k :: 0 <= k < |kept| ==> IsKept(u, rows, kept[k]))
    && (forall i, j :: 0 <= i < j < |kept| ==> kept[i].fileRowNumber < kept[j].fileRowNumber)
    && (forall n :: KeepsAt(u, rows, n) ==> HasFileRow(kept, n))
  }

  predicate IsKept(u: Upload, rows: seq<FileRow>, k: SourceRow) {
    1 <= k.fileRowNumber <= |rows| && Keeps(u, rows[k.fileRowNumber - 1]) && rows[k.fileRowNumber - 1].values == k.values
  }

  ghost predicate HasFileRow(kept: seq<SourceRow>, n: int) {
    exists k :: 0 <= k < |kept| && kept[k].fileRowNumber == n
  }

  lemma {:induction false} KeptFacts(u: Upload, rows: seq<FileRow>)
    ensures KeptRight(u, rows, KeptRows(u, rows))
  {
    if rows != [] {
      var init, last := rows[..|rows| - 1], rows[|rows| - 1];
      var before, kept := KeptRows(u, init), KeptRows(u, rows);
      KeptFacts(u, init);
      forall k | 0 <= k < |kept| ensures IsKept(u, rows, kept[k]) {
        assert k < |before| ==> IsKept(u, init, before[k]);
      }
      forall i, j | 0 <= i < j < |kept| ensures kept[i].fileRowNumber < kept[j].fileRowNumber {
        assert IsKept(u, init, before[i]);
      }
      forall n | KeepsAt(u, rows, n) ensures HasFileRow(kept, n) {
        if n < |rows| {
          assert KeepsAt(u, init, n) && HasFileRow(before, n);
          var k :| 0 <= k < |before| && before[k].fileRowNumber == n;
          assert kept[k].fileRowNumber == n;
        } else {
          assert kept[|before|].fileRowNumber == n;
        }
      }
    }
  }

  lemma {:induction false} FileRowAt(kept: seq<SourceRow>, i: nat)
    requires i < |kept|
    ensures SourceFileRowNumber(FileRowsOf(kept), i + 1) == kept[i].fileRowNumber
  {
    if i < |kept| - 1 {
      FileRowAt(kept[..|kept| - 1], i);
    }
  }

  // The kept row an entry of the parser's input came from.
  lemma KeptAt(u: Upload, rows: seq<FileRow>, i: nat)
    requires i < |KeptRows(u, rows)|
    ensures var kept := KeptRows(u, rows);
            && IsKept(u, rows, kept[i]) && ValuesOf(kept)[i] == kept[i].values
            && SourceFileRowNumber(FileRowsOf(kept), i + 1) == kept[i].fileRowNumber
  {
    KeptFacts(u, rows);
    FileRowAt(KeptRows(u, rows), i);
  }

  // Where a row that goes to the parser is in its input.
  lemma KeptIndex(u: Upload, rows: seq<FileRow>, n: int) returns (i: nat)
    requires KeepsAt(u, rows, n)
    ensures i < |KeptRows(u, rows)| && KeptRows(u, rows)[i].fileRowNumber == n
    ensures ValuesOf(KeptRows(u, rows))[i] == rows[n - 1].values
  {
    KeptFacts(u, rows);
    assert HasFileRow(KeptRows(u, rows), n);
    i :| i < |KeptRows(u, rows)| && KeptRows(u, rows)[i].fileRowNumber == n;
    KeptAt(u, rows, i);
  }

  lemma ErrorFits<F, P>(u: Upload, judge: Judge<F>, rows: seq<FileRow>, errs: seq<RowError>, e: RowError)
    requires ErrorsRight(judge, ValuesOf(KeptRows(u, rows)), errs) && e in errs
    ensures EmissionFits(u, judge, rows, ErrorEmission<P>(FileRowsOf(KeptRows(u, rows)), e), Refused)
  {
    KeptAt(u, rows, e.rowIndex - 1);
  }

  lemma RefusedHasError<F>(u: Upload, judge: Judge<F>, rows: seq<FileRow>, errs: seq<RowError>, n: int) returns (k: nat)
    requires ErrorsRight(judge, ValuesOf(KeptRows(u, rows)), errs) && HasFate(u, judge, rows, n, Refused)
    ensures k < |errs| && SourceFileRowNumber(FileRowsOf(KeptRows(u, rows)), errs[k].rowIndex) == n
  {
    var i := KeptIndex(u, rows, n);
    assert HasError(errs, i + 1);
    var e :| e in errs && e.rowIndex == i + 1;
    k :| k < |errs| && errs[k] == e;
    KeptAt(u, rows, i);
  }

  lemma ErrorsCover<F, P>(u: Upload, judge: Judge<F>, rows: seq<FileRow>, errs: seq<RowError>)
    requires ErrorsRight(judge, ValuesOf(KeptRows(u, rows)), errs)
    ensures var part := ErrorEmissions<P>(FileRowsOf(KeptRows(u, rows)), errs);
            Covers(u, judge, rows, part, Refused) && forall k :: 0 <= k < |part| ==> part[k].Record?
  {
    var fileRows := FileRowsOf(KeptRows(u, rows));
    var part := ErrorEmissions<P>(fileRows, errs);
    ErrorEmissionAt<P>(fileRows, errs);
    forall k | 0 <= k < |part| ensures EmissionFits(u, judge, rows, part[k], Refused) {
      ErrorFits<F, P>(u, judge, rows, errs, errs[k]);
    }
    forall n | HasFate(u, judge, rows, n, Refused) ensures Mentions(part, n) {
      var k := RefusedHasError(u, judge, rows, errs, n);
      assert On(part[k], n);
    }
  }

  lemma {:induction false} ErrorEmissionAt<P>(fileRows: map<int, int>, errs: seq<RowError>)
    ensures |ErrorEmissions<P>(fileRows, errs)| == |errs|
    ensures forall k :: 0 <= k < |errs| ==> ErrorEmissions<P>(fileRows, errs)[k] == ErrorEmission(fileRows, errs[k])
  {
    if errs != [] {
      ErrorEmissionAt<P>(fileRows, errs[..|errs| - 1]);
    }
  }

  lemma {:induction false} ShapeEmissionAt<F>(u: Upload, fileRows: map<int, int>, keyOf: F -> string, encodes: F -> bool,
                                              shapes: seq<Shape<F>>)
    ensures |ShapeEmissions(u, fileRows, keyOf, encodes, shapes)| == |shapes|
    ensures forall k :: 0 <= k < |shapes| ==>
              ShapeEmissions(u, fileRows, keyOf, encodes, shapes)[k] == ShapeEmission(u, fileRows, keyOf, encodes, shapes[k])
  {
    hide ShapeEmission;
    if shapes != [] {
      ShapeEmissionAt(u, fileRows, keyOf, encodes, shapes[..|shapes| - 1]);
    }
  }

  // The numbers of the rows that have a shape.
  function ShapeRows<F>(judge: Judge<F>, rows: seq<Row>): seq<nat> {
    if rows == [] then []
    else ShapeRows(judge, rows[..|rows| - 1]) + if judge(rows[|rows| - 1]).Some? then [|rows|] else []
  }

  lemma {:induction false} ShapesFacts<F>(judge: Judge<F>, rows: seq<Row>)
    ensures var at, shapes := ShapeRows(judge, rows), Shapes(judge, rows);
            && |shapes| == |at|
            && (forall k :: 0 <= k < |at| ==>
                  1 <= at[k] <= |rows| && judge(rows[at[k] - 1]).Some?
                  && shapes[k] == Shape(RowRef(at[k]), judge(rows[at[k] - 1]).value))
            && (forall i, j :: 0 <= i < j < |at| ==> at[i] < at[j])
            && (forall n: nat :: 1 <= n <= |rows| && judge(rows[n - 1]).Some? ==> n in at)
  {
    if rows != [] {
      ShapesFacts(judge, rows[..|rows| - 1]);
    }
  }

  // What an accepted row sends to the workers: its shape, labelled with its number
  // in the file.
  function JobFor<F>(u: Upload, keyOf: F -> string, row: int, figures: F): BulkJob<Shape<F>> {
    BulkJob(row, Shape(Text.Itoa(row), figures), RowKey(u, Text.Trim(keyOf(figures)), row))
  }

  lemma ShapeEmissionRow<F>(u: Upload, fileRows: map<int, int>, keyOf: F -> string, encodes: F -> bool, shape: Shape<F>)
    ensures var e, row := ShapeEmission(u, fileRows, keyOf, encodes, shape), SourceFileRowNumber(fileRows, RefNumber(shape.sourceRowRef));
            !e.Panic? && RowOf(e) == row && (encodes(shape.figures) ==> e == Send(JobFor(u, keyOf, row, shape.figures)))
  {
  }

  lemma ShapeFits<F>(u: Upload, judge: Judge<F>, rows: seq<FileRow>, keyOf: F -> string, encodes: F -> bool, k: nat)
    requires k < |ShapeRows(judge, ValuesOf(KeptRows(u, rows)))|
    ensures var kept := KeptRows(u, rows);
            var at, shapes := ShapeRows(judge, ValuesOf(kept)), Shapes(judge, ValuesOf(kept));
            && |shapes| == |at| && 1 <= at[k] <= |kept|
            && var e := ShapeEmission(u, FileRowsOf(kept), keyOf, encodes, shapes[k]);
            EmissionFits(u, judge, rows, e, Dispatched) && RowOf(e) == kept[at[k] - 1].fileRowNumber
  {
    hide KeptRows, FileRowsOf, ShapeEmission, RefNumber;
    var kept := KeptRows(u, rows);
    ShapesFacts(judge, ValuesOf(kept));
    var at, shapes := ShapeRows(judge, ValuesOf(kept)), Shapes(judge, ValuesOf(kept));
    RefRoundTrip(at[k]);
    KeptAt(u, rows, at[k] - 1);
    ShapeEmissionRow(u, FileRowsOf(kept), keyOf, encodes, shapes[k]);
  }

  lemma ParsedHasShape<F>(u: Upload, judge: Judge<F>, rows: seq<FileRow>, n: int) returns (k: nat)
    requires HasFate(u, judge, rows, n, Dispatched)
    ensures var kept := KeptRows(u, rows);
            var at := ShapeRows(judge, ValuesOf(kept));
            k < |at| && 1 <= at[k] <= |kept| && kept[at[k] - 1].fileRowNumber == n
  {
    var values := ValuesOf(KeptRows(u, rows));
    var i := KeptIndex(u, rows, n);
    ShapesFacts(judge, values);
    assert judge(values[(i + 1) - 1]).Some?;
    assert i + 1 in ShapeRows(judge, values);
    k :| k < |ShapeRows(judge, values)| && ShapeRows(judge, values)[k] == i + 1;
  }

  // The emissions for the parser's shapes.
  function ShapePart<F>(u: Upload, judge: Judge<F>, rows: seq<FileRow>, keyOf: F -> string, encodes: F -> bool):
    Program<Shape<F>>
  {
    ShapeEmissions(u, FileRowsOf(KeptRows(u, rows)), keyOf, encodes, Shapes(judge, ValuesOf(KeptRows(u, rows))))
  }

  lemma ShapePartAt<F>(u: Upload, judge: Judge<F>, rows: seq<FileRow>, keyOf: F -> string, encodes: F -> bool, k: nat)
    ensures var at, kept := ShapeRows(judge, ValuesOf(KeptRows(u, rows))), KeptRows(u, rows);
            var part := ShapePart(u, judge, rows, keyOf, encodes);
            && |part| == |at|
            && (k < |part| ==>
                  EmissionFits(u, judge, rows, part[k], Dispatched)
                  && 1 <= at[k] <= |kept| && RowOf(part[k]) == kept[at[k] - 1].fileRowNumber)
  {
    var values := ValuesOf(KeptRows(u, rows));
    ShapesFacts(judge, values);
    ShapeEmissionAt(u, FileRowsOf(KeptRows(u, rows)), keyOf, encodes, Shapes(judge, values));
    if k < |ShapeRows(judge, values)| {
      ShapeFits(u, judge, rows, keyOf, encodes, k);
    }
  }

  lemma ShapesIncrease<F>(u: Upload, judge: Judge<F>, rows: seq<FileRow>, keyOf: F -> string, encodes: F -> bool)
    ensures Increasing(ShapePart(u, judge, rows, keyOf, encodes))
  {
    var part := ShapePart(u, judge, rows, keyOf, encodes);
    forall i, j | 0 <= i < j < |part| && !part[i].Panic? && !part[j].Panic? ensures RowOf(part[i]) < RowOf(part[j]) {
      ShapePartAt(u, judge, rows, keyOf, encodes, i);
      ShapePartAt(u, judge, rows, keyOf, encodes, j);
      ShapesFacts(judge, ValuesOf(KeptRows(u, rows)));
      KeptFacts(u, rows);
    }
  }

  lemma ShapesCover<F>(u: Upload, judge: Judge<F>, rows: seq<FileRow>, keyOf: F -> string, encodes: F -> bool)
    ensures Covers(u, judge, rows, ShapePart(u, judge, rows, keyOf, encodes), Dispatched)
  {
    var part := ShapePart(u, judge, rows, keyOf, encodes);
    forall k | 0 <= k < |part| ensures EmissionFits(u, judge, rows, part[k], Dispatched) {
      ShapePartAt(u, judge, rows, keyOf, encodes, k);
    }
    forall n | HasFate(u, judge, rows, n, Dispatched) ensures Mentions(part, n) {
      var k := ParsedHasShape(u, judge, rows, n);
      ShapePartAt(u, judge, rows, keyOf, encodes, k);
      assert On(part[k], n);
    }
  }

  // Parts about rows of different fates, put together.
  lemma PartsAreUnmixed<F, P>(u: Upload, judge: Judge<F>, rows: seq<FileRow>, a: Program<P>, b: Program<P>, c: Program<P>)
    requires Covers(u, judge, rows, a, Settled) && Covers(u, judge, rows, b, Refused) && Covers(u, judge, rows, c, Dispatched)
    requires Increasing(a) && Increasing(c) && forall k :: 0 <= k < |b| ==> b[k].Record?
    ensures Unmixed(a + b + c)
  {
    var all := a + b + c;
    forall i, j | 0 <= i < j < |all| && RowOrZero(all[i]) == RowOrZero(all[j])
      ensures all[i].Record? && all[j].Record?
    {
      assert EmissionFits(u, judge, rows, all[i], PartOf(|a|, |b|, i));
      assert EmissionFits(u, judge, rows, all[j], PartOf(|a|, |b|, j));
    }
  }

  function RowOrZero<P>(e: Emission<P>): int {
    if e.Panic? then 0 else RowOf(e)
  }

  function PartOf(a: nat, b: nat, i: nat): Fate {
    if i < a then Settled else if i < a + b then Refused else Dispatched
  }

  lemma ParserProgramIsRight<F>(u: Upload, judge: Judge<F>, rows: seq<FileRow>, keyOf: F -> string, encodes: F -> bool,
                                shapes: seq<Shape<F>>, errs: seq<RowError>)
    requires Parsed(judge, ValuesOf(KeptRows(u, rows)), shapes, errs)
    ensures var program := ParserProgram(u, rows, keyOf, encodes, shapes, errs);
            Unmixed(program) && forall row :: Mentions(program, row) <==> CountedRow(rows, row)
  {
    var fileRows := FileRowsOf(KeptRows(u, rows));
    var a, b := SettledRows<Shape<F>>(u, rows), ErrorEmissions<Shape<F>>(fileRows, errs);
    var c := ShapeEmissions(u, fileRows, keyOf, encodes, shapes);
    SettledCovers<F, Shape<F>>(u, judge, rows);
    ErrorsCover<F, Shape<F>>(u, judge, rows, errs);
    ShapesCover(u, judge, rows, keyOf, encodes);
    ShapesIncrease(u, judge, rows, keyOf, encodes);
    PartsAreUnmixed(u, judge, rows, a, b, c);
    forall row ensures Mentions(a + b + c, row) <==> CountedRow(rows, row) {
      PartsMention(u, judge, rows, a, b, c, row);
    }
  }

  // The producer does not panic on the parser path, so a run that cannot go on has
  // accounted for every row.
  lemma ParserUploadIsAnswered<F>(u: Upload, judge: Judge<F>, rows: seq<FileRow>, keyOf: F -> string, encodes: F -> bool,
                                  shapes: seq<Shape<F>>, errs: seq<RowError>, workers: nat, acts: seq<Action>)
    requires Parsed(judge, ValuesOf(KeptRows(u, rows)), shapes, errs) && workers > 0
    requires var program := ParserProgram(u, rows, keyOf, encodes, shapes, errs);
             forall a :: !Enabled(program, Run(program, workers, acts), a)
    ensures Accounted(rows, Run(ParserProgram(u, rows, keyOf, encodes, shapes, errs), workers, acts))
  {
    var program := ParserProgram(u, rows, keyOf, encodes, shapes, errs);
    ParserNeverPanics(u, judge, rows, keyOf, encodes, shapes, errs);
    StuckIsDone(program, workers, acts);
    ParserUploadIsAccounted(u, judge, rows, keyOf, encodes, shapes, errs, workers, acts);
  }

  lemma ParserNeverPanics<F>(u: Upload, judge: Judge<F>, rows: seq<FileRow>, keyOf: F -> string, encodes: F -> bool,
                             shapes: seq<Shape<F>>, errs: seq<RowError>)
    requires Parsed(judge, ValuesOf(KeptRows(u, rows)), shapes, errs)
    ensures var program := ParserProgram(u, rows, keyOf, encodes, shapes, errs);
            forall k :: 0 <= k < |program| ==> !program[k].Panic?
  {
    hide EmissionFits, KeptRows, FileRowsOf;
    var fileRows := FileRowsOf(KeptRows(u, rows));
    var a, b := SettledRows<Shape<F>>(u, rows), ErrorEmissions<Shape<F>>(fileRows, errs);
    var c := ShapePart(u, judge, rows, keyOf, encodes);
    SettledCovers<F, Shape<F>>(u, judge, rows);
    ErrorsCover<F, Shape<F>>(u, judge, rows, errs);
    ShapesCover(u, judge, rows, keyOf, encodes);
    var program := a + b + c;
    forall k | 0 <= k < |program| ensures !program[k].Panic? {
      FitsIsNoPanic(u, judge, rows, program[k], PartOf(|a|, |b|, k));
    }
  }

  lemma FitsIsNoPanic<F, P>(u: Upload, judge: Judge<F>, rows: seq<FileRow>, e: Emission<P>, fate: Fate)
    requires EmissionFits(u, judge, rows, e, fate)
    ensures !e.Panic?
  {
  }

  // On the profile path a run that cannot go on has accounted for every row, unless
  // reading stopped at a panic.
  lemma ProfileUploadIsAnswered(u: Upload, headers: Row, rows: seq<FileRow>, workers: nat, acts: seq<Action>)
    requires workers > 0 && !Stopped(ProfileProgram(u, headers, rows))
    requires forall a :: !Enabled(ProfileProgram(u, headers, rows), Run(ProfileProgram(u, headers, rows), workers, acts), a)
    ensures Accounted(rows, Run(ProfileProgram(u, headers, rows), workers, acts))
  {
    var program := ProfileProgram(u, headers, rows);
    ProfileEmitsRight(u, headers);
    WalkFacts(ProfileEmitter(u, headers), rows);
    StuckIsDone(program, workers, acts);
    ProfileUploadIsAccounted(u, headers, rows, workers, acts);
  }

  lemma PartsMention<F, P>(u: Upload, judge: Judge<F>, rows: seq<FileRow>, a: Program<P>, b: Program<P>, c: Program<P>, row: int)
    requires Covers(u, judge, rows, a, Settled) && Covers(u, judge, rows, b, Refused) && Covers(u, judge, rows, c, Dispatched)
    ensures Mentions(a + b + c, row) <==> CountedRow(rows, row)
  {
    var all := a + b + c;
    if Mentions(all, row) {
      var k :| 0 <= k < |all| && On(all[k], row);
      assert EmissionFits(u, judge, rows, all[k], PartOf(|a|, |b|, k));
    }
    if CountedRow(rows, row) {
      assert HasFate(u, judge, rows, row, FateOf(u, judge, rows[row - 1]));
      if FateOf(u, judge, rows[row - 1]) == Settled {
        assert Mentions(a, row);
        var k :| 0 <= k < |a| && On(a[k], row);
        assert On(all[k], row);
      } else if FateOf(u, judge, rows[row - 1]) == Refused {
        assert Mentions(b, row);
        var k :| 0 <= k < |b| && On(b[k], row);
        assert On(all[|a| + k], row);
      } else {
        assert Mentions(c, row);
        var k :| 0 <= k < |c| && On(c[k], row);
        assert On(all[|a| + |b| + k], row);
      }
    }
  }

  // ---- Every row is accounted for -----------------------------------------------------------

  // Rows with a result are the rows that count, each under its own number.
  ghost predicate Accounted<P>(rows: seq<FileRow>, s: State<P>) {
    forall row :: (row in s.results <==> CountedRow(rows, row)) && (row in s.results ==> s.results[row].row == row)
  }

  lemma DoneAccounts<P>(program: Program<P>, rows: seq<FileRow>, workers: nat, acts: seq<Action>)
    requires Unmixed(program) && forall row :: Mentions(program, row) <==> CountedRow(rows, row)
    requires Done(program, Run(program, workers, acts))
    ensures Accounted(rows, Run(program, workers, acts))
  {
    hide Run, Done, CountedRow, RecordedRight, ProcessedOnce, Unmixed;
    var s := Run(program, workers, acts);
    DoneIsComplete(program, workers, acts);
    forall row ensures (row in s.results <==> CountedRow(rows, row)) && (row in s.results ==> s.results[row].row == row) {
      assert Mentions(program, row) <==> CountedRow(rows, row);
      if row in s.results {
        ResultsKnowTheirRows(program, workers, acts, row);
      }
    }
  }

  // On the profile path, whatever the interleaving: once the upload is done, each
  // row that is not blank has one result and blank rows have none.
  lemma ProfileUploadIsAccounted(u: Upload, headers: Row, rows: seq<FileRow>, workers: nat, acts: seq<Action>)
    requires var program := ProfileProgram(u, headers, rows); Done(program, Run(program, workers, acts))
    ensures Accounted(rows, Run(ProfileProgram(u, headers, rows), workers, acts))
  {
    var program := ProfileProgram(u, headers, rows);
    if Stopped(program) {
      StoppedIsNeverDone(program, workers, acts);
    } else {
      ProfileProgramIsRight(u, headers, rows);
      DoneAccounts(program, rows, workers, acts);
    }
  }

  lemma EmissionShape(u: Upload, headers: Row, r: FileRow, n: nat)
    ensures Settles(u, r) ==> RowEmissions(u, headers, r, n) == [Record(SettledResult(r, n))]
    ensures Keeps(u, r) ==> |RowEmissions(u, headers, r, n)| == 1 && !RowEmissions(u, headers, r, n)[0].Record?
  {
  }

  // ... a malformed row has failed, a row with a formula is rejected, and any other
  // row's payload has been processed exactly once and decides the result.
  lemma ProfileRowsGetTheirResult(u: Upload, headers: Row, rows: seq<FileRow>, workers: nat, acts: seq<Action>, row: int)
    requires var program := ProfileProgram(u, headers, rows); Done(program, Run(program, workers, acts))
    requires CountedRow(rows, row)
    ensures var s := Run(ProfileProgram(u, headers, rows), workers, acts);
            var e := RowEmissions(u, headers, rows[row - 1], row);
            && (Settles(u, rows[row - 1]) ==> row in s.results && s.results[row] == SettledResult(rows[row - 1], row))
            && (Keeps(u, rows[row - 1]) ==> e != [] && e[0].Send? && e[0].job.row == row && ProcessedOnce(s, e[0].job))
  {
    hide RowEmissions;
    EmissionShape(u, headers, rows[row - 1], row);
    var program := ProfileProgram(u, headers, rows);
    var emit, e := ProfileEmitter(u, headers), RowEmissions(u, headers, rows[row - 1], row);
    if Stopped(program) {
      StoppedIsNeverDone(program, workers, acts);
    } else {
      ProfileEmitsRight(u, headers);
      WalkFacts(emit, rows);
      ProfileProgramIsRight(u, headers, rows);
      DoneIsComplete(program, workers, acts);
      assert Mentions(program, row);
      var k :| 0 <= k < |program| && On(program[k], row);
      assert program[k] in program && FromRow(emit, rows, program[k]);
      assert At(emit, rows, row) == e == [program[k]];
      if Settles(u, rows[row - 1]) {
        RecordedIs(program, row, program[k].result);
        assert RecordedRight(program, Run(program, workers, acts), row);
      }
    }
  }

  // On the parser path, with any parser that gives each row a shape or an error, the same holds.
  lemma ParserUploadIsAccounted<F>(u: Upload, judge: Judge<F>, rows: seq<FileRow>, keyOf: F -> string, encodes: F -> bool,
                                   shapes: seq<Shape<F>>, errs: seq<RowError>, workers: nat, acts: seq<Action>)
    requires Parsed(judge, ValuesOf(KeptRows(u, rows)), shapes, errs)
    requires var program := ParserProgram(u, rows, keyOf, encodes, shapes, errs); Done(program, Run(program, workers, acts))
    ensures Accounted(rows, Run(ParserProgram(u, rows, keyOf, encodes, shapes, errs), workers, acts))
  {
    ParserProgramIsRight(u, judge, rows, keyOf, encodes, shapes, errs);
    DoneAccounts(ParserProgram(u, rows, keyOf, encodes, shapes, errs), rows, workers, acts);
  }

  // The parser's program records a refused row as failed, and nothing else for it.
  lemma RefusedIsRecorded<F>(u: Upload, judge: Judge<F>, rows: seq<FileRow>, keyOf: F -> string, encodes: F -> bool,
                             shapes: seq<Shape<F>>, errs: seq<RowError>, row: int)
    requires Parsed(judge, ValuesOf(KeptRows(u, rows)), shapes, errs) && HasFate(u, judge, rows, row, Refused)
    ensures Recorded(ParserProgram(u, rows, keyOf, encodes, shapes, errs), row) == Some(BulkResult(row, Failed, ""))
  {
    hide KeptRows, FileRowsOf, SettledRows, ErrorEmissions, ShapeEmissions, Covers, ErrorsRight, Recorded, HasFate;
    var fileRows := FileRowsOf(KeptRows(u, rows));
    var a, b := SettledRows<Shape<F>>(u, rows), ErrorEmissions<Shape<F>>(fileRows, errs);
    var c := ShapeEmissions(u, fileRows, keyOf, encodes, shapes);
    SettledCovers<F, Shape<F>>(u, judge, rows);
    ErrorsCover<F, Shape<F>>(u, judge, rows, errs);
    ShapesCover(u, judge, rows, keyOf, encodes);
    ErrorEmissionAt<Shape<F>>(fileRows, errs);
    var k := RefusedHasError(u, judge, rows, errs, row);
    assert b[k].result.row == row;
    RefusedPart(u, judge, rows, a, b, c, row, k);
  }

  lemma RefusedPart<F, P>(u: Upload, judge: Judge<F>, rows: seq<FileRow>, a: Program<P>, b: Program<P>, c: Program<P>,
                          row: int, k: nat)
    requires Covers(u, judge, rows, a, Settled) && Covers(u, judge, rows, b, Refused) && Covers(u, judge, rows, c, Dispatched)
    requires HasFate(u, judge, rows, row, Refused) && k < |b| && On(b[k], row)
    requires forall i :: 0 <= i < |b| ==> b[i].Record? && b[i].result == BulkResult(b[i].result.row, Failed, "")
    ensures Recorded(a + b + c, row) == Some(BulkResult(row, Failed, ""))
  {
    var all := a + b + c;
    forall i | 0 <= i < |all| && all[i].Record? && all[i].result.row == row
      ensures all[i].result == BulkResult(row, Failed, "")
    {
      assert EmissionFits(u, judge, rows, all[i], PartOf(|a|, |b|, i));
    }
    assert all[|a| + k] == b[k];
    RecordedIs(all, row, BulkResult(row, Failed, ""));
  }

  // ... and a row the parser refuses has failed, under its number in the file.
  lemma RefusedRowsFail<F>(u: Upload, judge: Judge<F>, rows: seq<FileRow>, keyOf: F -> string, encodes: F -> bool,
                           shapes: seq<Shape<F>>, errs: seq<RowError>, workers: nat, acts: seq<Action>, row: int)
    requires Parsed(judge, ValuesOf(KeptRows(u, rows)), shapes, errs) && HasFate(u, judge, rows, row, Refused)
    requires var program := ParserProgram(u, rows, keyOf, encodes, shapes, errs); Done(program, Run(program, workers, acts))
    ensures var s := Run(ParserProgram(u, rows, keyOf, encodes, shapes, errs), workers, acts);
            row in s.results && s.results[row] == BulkResult(row, Failed, "")
  {
    var program := ParserProgram(u, rows, keyOf, encodes, shapes, errs);
    ParserProgramIsRight(u, judge, rows, keyOf, encodes, shapes, errs);
    DoneIsComplete(program, workers, acts);
    RefusedIsRecorded(u, judge, rows, keyOf, encodes, shapes, errs, row);
    assert RecordedRight(program, Run(program, workers, acts), row);
  }

  lemma ParsedIsSent<F>(u: Upload, judge: Judge<F>, rows: seq<FileRow>, keyOf: F -> string, encodes: F -> bool,
                        shapes: seq<Shape<F>>, errs: seq<RowError>, row: int) returns (i: nat)
    requires Parsed(judge, ValuesOf(KeptRows(u, rows)), shapes, errs) && HasFate(u, judge, rows, row, Dispatched)
    requires encodes(judge(rows[row - 1].values).value)
    ensures var program := ParserProgram(u, rows, keyOf, encodes, shapes, errs);
            i < |program| && program[i] == Send(JobFor(u, keyOf, row, judge(rows[row - 1].values).value))
  {
    hide KeptRows, FileRowsOf, ShapeEmission, RefNumber, JobFor, SettledRows, ErrorEmissions, Shapes, ShapeRows, FateOf;
    var kept := KeptRows(u, rows);
    var values, fileRows := ValuesOf(kept), FileRowsOf(kept);
    var k := ParsedHasShape(u, judge, rows, row);
    var at := ShapeRows(judge, values);
    ShapesFacts(judge, values);
    KeptAt(u, rows, at[k] - 1);
    RefRoundTrip(at[k]);
    ShapeEmissionAt(u, fileRows, keyOf, encodes, shapes);
    ShapeEmissionRow(u, fileRows, keyOf, encodes, shapes[k]);
    i := |SettledRows<Shape<F>>(u, rows)| + |ErrorEmissions<Shape<F>>(fileRows, errs)| + k;
  }

  // ... and a row the parser accepts has had its shape processed exactly once,
  // under its number in the file, and that decides its result.
  lemma ParsedRowsAreProcessed<F>(u: Upload, judge: Judge<F>, rows: seq<FileRow>, keyOf: F -> string, encodes: F -> bool,
                                  shapes: seq<Shape<F>>, errs: seq<RowError>, workers: nat, acts: seq<Action>, row: int)
    requires Parsed(judge, ValuesOf(KeptRows(u, rows)), shapes, errs) && HasFate(u, judge, rows, row, Dispatched)
    requires encodes(judge(rows[row - 1].values).value)
    requires var program := ParserProgram(u, rows, keyOf, encodes, shapes, errs); Done(program, Run(program, workers, acts))
    ensures var s := Run(ParserProgram(u, rows, keyOf, encodes, shapes, errs), workers, acts);
            ProcessedOnce(s, JobFor(u, keyOf, row, judge(rows[row - 1].values).value))
  {
    var program := ParserProgram(u, rows, keyOf, encodes, shapes, errs);
    ParserProgramIsRight(u, judge, rows, keyOf, encodes, shapes, errs);
    DoneIsComplete(program, workers, acts);
    var i := ParsedIsSent(u, judge, rows, keyOf, encodes, shapes, errs, row);
    assert program[i].Send?;
  }
}
