/**
  What the producer of a bulk upload does with each row of the file: on the
  profile path rows go to the workers as they are read, on the parser path they
  are collected, parsed together and then sent.
 */
module BulkRows {
  import opened Wrappers
  import opened RowPayload
  import opened BulkPipeline
  import opened ParsedRows
  import Text

  // A data row as the reader returns it. Rows are numbered from 1.
  datatype FileRow = Malformed | Cells(values: Row)

  datatype Upload = Upload(
    fileHash: string,
    tenantId: string,
    batchId: string,
    forceReprocess: bool,
    sha256: string -> string,
    isFormula: string -> bool)

  type Payload = map<string, Tree>

  // ---- Single rows --------------------------------------------------------------------

  predicate Blank(row: Row) {
    forall v <- row :: Text.Trim(v) == ""
  }

  predicate HasFormula(u: Upload, row: Row) {
    exists v <- row :: u.isFormula(v)
  }

  // A row that must be accounted for.
  predicate Counts(r: FileRow) {
    r.Malformed? || !Blank(r.values)
  }

  // A row the producer settles by itself while reading.
  predicate Settles(u: Upload, r: FileRow) {
    r.Malformed? || (!Blank(r.values) && HasFormula(u, r.values))
  }

  // A row that goes on to be processed.
  predicate Keeps(u: Upload, r: FileRow) {
    r.Cells? && !Blank(r.values) && !HasFormula(u, r.values)
  }

  function SettledResult(r: FileRow, rowNum: int): BulkResult {
    BulkResult(rowNum, if r.Malformed? then Failed else Rejected, "")
  }

  method IsEmpty(row: Row) returns (empty: bool)
    ensures empty == Blank(row)
  {
    for i := 0 to |row|
      invariant forall j :: 0 <= j < i ==> Text.Trim(row[j]) == ""
    {
      if Text.Trim(row[i]) != "" {
        return false;
      }
    }
    return true;
  }

  method CheckRowForFormulas(u: Upload, row: Row, rowNum: int) returns (rejection: Option<BulkResult>)
    ensures rejection == if HasFormula(u, row) then Some(BulkResult(rowNum, Rejected, "")) else None
  {
    for i := 0 to |row|
      invariant forall j :: 0 <= j < i ==> !u.isFormula(row[j])
    {
      if u.isFormula(row[i]) {
        return Some(BulkResult(rowNum, Rejected, ""));
      }
    }
    return None;
  }

  // ---- Idempotency keys ------------------------------------------------------------------

  // The key the payload itself carries, if any.
  function OwnKey(payload: Payload): string {
    var found := Lookup(payload, ["idempotency_key"]);
    if found.Some? then Text.Trim(found.value) else ""
  }

  function Reprocessed(u: Upload): string {
    ":" + u.tenantId + ":reprocess:" + u.batchId
  }

  function RowKey(u: Upload, own: string, rowNum: int): string {
    if u.forceReprocess then
      u.sha256((if own != "" then own else u.fileHash + ":" + Text.Itoa(rowNum)) + Reprocessed(u))
    else if own == "" then u.sha256(u.fileHash + ":" + Text.Itoa(rowNum) + (":" + u.tenantId))
    else own
  }

  lemma KeyTextsDiffer(front: string, rest: string, m: nat, n: nat)
    requires rest == "" || !Text.IsDigit(rest[0])
    requires m != n
    ensures front + Text.Itoa(m) + rest != front + Text.Itoa(n) + rest
  {
    var a, b := Text.Decimal(m) + rest, Text.Decimal(n) + rest;
    assert front + Text.Itoa(m) + rest == front + a && front + Text.Itoa(n) + rest == front + b;
    assert (front + a)[|front|..] == a && (front + b)[|front|..] == b;
    if a == b {
      Text.DecimalBeforeSeparator(m, n, rest);
    }
  }

  // Rows without a key of their own get different keys.
  lemma ServerKeysDiffer(u: Upload, m: nat, n: nat)
    requires m != n && forall a, b :: u.sha256(a) == u.sha256(b) ==> a == b
    ensures RowKey(u, "", m) != RowKey(u, "", n)
  {
    var rest := if u.forceReprocess then Reprocessed(u) else ":" + u.tenantId;
    if RowKey(u, "", m) == RowKey(u, "", n) {
      KeyTextsDiffer(u.fileHash + ":", rest, m, n);
    }
  }

  // What a row's own key has to be to coincide with the key of a row that has none.
  function StandIn(u: Upload, rowNum: int): string {
    var text := u.fileHash + ":" + Text.Itoa(rowNum);
    if u.forceReprocess then text else u.sha256(text + (":" + u.tenantId))
  }

  // When two rows of a file get the same key: neither has one of its own and they
  // are the same row, both have the same of their own, or the one's own key is
  // the stand-in for the other -- which takes a cell that holds the hash of the
  // file it stands in.
  lemma RowKeysMeetIff(u: Upload, a: string, m: nat, b: string, n: nat)
    requires forall x, y :: u.sha256(x) == u.sha256(y) ==> x == y
    ensures RowKey(u, a, m) == RowKey(u, b, n) <==>
            if a == "" && b == "" then m == n
            else if a != "" && b != "" then a == b
            else if a != "" then a == StandIn(u, n)
            else b == StandIn(u, m)
  {
    if a == "" && b == "" {
      if m != n {
        ServerKeysDiffer(u, m, n);
      }
    } else if u.forceReprocess {
      SameBeforeSuffix(if a != "" then a else StandIn(u, m), if b != "" then b else StandIn(u, n), Reprocessed(u));
    }
  }

  lemma SameBeforeSuffix(x: string, y: string, suffix: string)
    ensures x + suffix == y + suffix <==> x == y
  {
    if x + suffix == y + suffix {
      assert (x + suffix)[..|x|] == x && (y + suffix)[..|y|] == y;
    }
  }

  // ---- The profile path -------------------------------------------------------------------

  // What reading row `rowNum` leads to.
  function RowEmissions(u: Upload, headers: Row, r: FileRow, rowNum: nat): Program<Payload>
  {
    if Settles(u, r) then [Record(SettledResult(r, rowNum))]
    else if !Keeps(u, r) then []
    else
      var payload := Build(Writes(headers, r.values, rowNum));
      if payload.None? then [Panic]
      else [Send(BulkJob(rowNum, payload.value, RowKey(u, OwnKey(payload.value), rowNum)))]
  }

  predicate Stopped<P>(program: Program<P>) {
    program != [] && program[|program| - 1].Panic?
  }

  // What reading one row leads to, given its number.
  type Emitter<P> = (FileRow, nat) -> Program<P>

  // The file from the top, up to a panic.
  function Walk<P>(emit: Emitter<P>, rows: seq<FileRow>): Program<P> {
    if rows == [] then []
    else
      var before := Walk(emit, rows[..|rows| - 1]);
      if Stopped(before) then before else before + emit(rows[|rows| - 1], |rows|)
  }

  function ProfileEmitter(u: Upload, headers: Row): Emitter<Payload> {
    (r: FileRow, rowNum: nat) => RowEmissions(u, headers, r, rowNum)
  }

  function ProfileProgram(u: Upload, headers: Row, rows: seq<FileRow>): Program<Payload> {
    Walk(ProfileEmitter(u, headers), rows)
  }

  method ReadProfileRows(u: Upload, headers: Row, rows: seq<FileRow>) returns (program: Program<Payload>)
    ensures program == ProfileProgram(u, headers, rows)
  {
    program := [];
    var fileRowNumber := 0;
    while fileRowNumber < |rows|
      invariant fileRowNumber <= |rows| && !Stopped(program)
      invariant program == ProfileProgram(u, headers, rows[..fileRowNumber])
    {
      var r := rows[fileRowNumber];
      fileRowNumber := fileRowNumber + 1;
      assert rows[..fileRowNumber][..fileRowNumber - 1] == rows[..fileRowNumber - 1];
      if r.Malformed? {
        program := program + [Record(BulkResult(fileRowNumber, Failed, ""))];
        continue;
      }
      var isEmpty := IsEmpty(r.values);
      if isEmpty {
        assert program + [] == program;
        continue;
      }
      var rejection := CheckRowForFormulas(u, r.values, fileRowNumber);
      if rejection.Some? {
        program := program + [Record(rejection.value)];
        continue;
      }
      var payload := Build(Writes(headers, r.values, fileRowNumber));
      if payload.None? {
        program := program + [Panic];
        StopsForGood(ProfileEmitter(u, headers), rows, fileRowNumber);
        return;
      }
      var key := RowKey(u, OwnKey(payload.value), fileRowNumber);
      program := program + [Send(BulkJob(fileRowNumber, payload.value, key))];
    }
    assert rows[..|rows|] == rows;
  }

  // After a panic nothing more is read.
  lemma {:induction false} StopsForGood<P>(emit: Emitter<P>, rows: seq<FileRow>, n: nat)
    requires n <= |rows| && Stopped(Walk(emit, rows[..n]))
    ensures Walk(emit, rows) == Walk(emit, rows[..n])
  {
    if n == |rows| {
      assert rows[..n] == rows;
    } else {
      assert rows[..|rows| - 1][..n] == rows[..n];
      StopsForGood(emit, rows[..|rows| - 1], n);
    }
  }

  // ---- The parser path ------------------------------------------------------------------------

  datatype SourceRow = SourceRow(fileRowNumber: int, values: Row)

  // The results recorded while reading, and the rows kept for the parser.
  function SettledEmitter<P>(u: Upload): Emitter<P> {
    (r: FileRow, rowNum: nat) => if Settles(u, r) then [Record(SettledResult(r, rowNum))] else []
  }

  function SettledRows<P>(u: Upload, rows: seq<FileRow>): Program<P> {
    Walk(SettledEmitter<P>(u), rows)
  }

  function KeptRows(u: Upload, rows: seq<FileRow>): seq<SourceRow> {
    if rows == [] then []
    else
      var r := rows[|rows| - 1];
      KeptRows(u, rows[..|rows| - 1]) + if Keeps(u, r) then [SourceRow(|rows|, r.values)] else []
  }

  method ReadParserRows<P>(u: Upload, rows: seq<FileRow>) returns (program: Program<P>, kept: seq<SourceRow>)
    ensures program == SettledRows<P>(u, rows) && kept == KeptRows(u, rows)
  {
    program, kept := [], [];
    var fileRowNumber := 0;
    while fileRowNumber < |rows|
      invariant fileRowNumber <= |rows| && !Stopped(program)
      invariant program == SettledRows<P>(u, rows[..fileRowNumber]) && kept == KeptRows(u, rows[..fileRowNumber])
    {
      var r := rows[fileRowNumber];
      fileRowNumber := fileRowNumber + 1;
      assert rows[..fileRowNumber][..fileRowNumber - 1] == rows[..fileRowNumber - 1];
      assert SettledEmitter<P>(u)(r, fileRowNumber) == if Settles(u, r) then [Record(SettledResult(r, fileRowNumber))] else [];
      assert program + [] == program && kept + [] == kept;
      if r.Malformed? {
        program := program + [Record(BulkResult(fileRowNumber, Failed, ""))];
        continue;
      }
      var isEmpty := IsEmpty(r.values);
      if isEmpty {
        continue;
      }
      var rejection := CheckRowForFormulas(u, r.values, fileRowNumber);
      if rejection.Some? {
        program := program + [Record(rejection.value)];
        continue;
      }
      kept := kept + [SourceRow(fileRowNumber, r.values)];
    }
    assert rows[..|rows|] == rows;
  }

  function ValuesOf(kept: seq<SourceRow>): seq<Row> {
    seq(|kept|, i requires 0 <= i < |kept| => kept[i].values)
  }

  function FileRowsOf(kept: seq<SourceRow>): map<int, int> {
    if kept == [] then map[] else FileRowsOf(kept[..|kept| - 1])[|kept| := kept[|kept| - 1].fileRowNumber]
  }

  method FlattenSourceRows(kept: seq<SourceRow>) returns (parseRows: seq<Row>, rowIndexToFileRow: map<int, int>)
    ensures parseRows == ValuesOf(kept) && rowIndexToFileRow == FileRowsOf(kept)
  {
    parseRows, rowIndexToFileRow := [], map[];
    for i := 0 to |kept|
      invariant parseRows == ValuesOf(kept[..i]) && rowIndexToFileRow == FileRowsOf(kept[..i])
    {
      var parserRowIndex := i + 1;
      parseRows := parseRows + [kept[i].values];
      rowIndexToFileRow := rowIndexToFileRow[parserRowIndex := kept[i].fileRowNumber];
      assert kept[..i + 1][..i] == kept[..i];
    }
    assert kept[..|kept|] == kept;
  }

  function SourceFileRowNumber(rowIndexToFileRow: map<int, int>, parserRowIndex: int): int {
    if parserRowIndex in rowIndexToFileRow then rowIndexToFileRow[parserRowIndex] else parserRowIndex
  }

  // The number in a row reference.
  function RefNumber(ref: string): int {
    Text.Atoi(if Text.HasPrefix(ref, "row:") then ref[4..] else ref)
  }

  lemma RefRoundTrip(rowNum: nat)
    ensures RefNumber(RowRef(rowNum)) == rowNum
  {
    assert RowRef(rowNum)[4..] == Text.Itoa(rowNum);
    Text.AtoiItoa(rowNum);
  }

  function ErrorEmission<P>(fileRows: map<int, int>, e: RowError): Emission<P> {
    Record(BulkResult(SourceFileRowNumber(fileRows, e.rowIndex), Failed, ""))
  }

  // `keyOf` and `encodes`: the key the shape carries and whether it can be encoded.
  function ShapeEmission<F>(u: Upload, fileRows: map<int, int>, keyOf: F -> string, encodes: F -> bool, shape: Shape<F>):
    Emission<Shape<F>>
  {
    var rowNum := SourceFileRowNumber(fileRows, RefNumber(shape.sourceRowRef));
    if !encodes(shape.figures) then Record(BulkResult(rowNum, Failed, ""))
    else
      var key := RowKey(u, Text.Trim(keyOf(shape.figures)), rowNum);
      Send(BulkJob(rowNum, shape.(sourceRowRef := Text.Itoa(rowNum)), key))
  }

  function ErrorEmissions<P>(fileRows: map<int, int>, errs: seq<RowError>): Program<P> {
    if errs == [] then []
    else ErrorEmissions<P>(fileRows, errs[..|errs| - 1]) + [ErrorEmission(fileRows, errs[|errs| - 1])]
  }

  function ShapeEmissions<F>(u: Upload, fileRows: map<int, int>, keyOf: F -> string, encodes: F -> bool, shapes: seq<Shape<F>>):
    Program<Shape<F>>
  {
    if shapes == [] then []
    else
      ShapeEmissions(u, fileRows, keyOf, encodes, shapes[..|shapes| - 1])
      + [ShapeEmission(u, fileRows, keyOf, encodes, shapes[|shapes| - 1])]
  }

  method DispatchErrors<P>(fileRows: map<int, int>, errs: seq<RowError>) returns (program: Program<P>)
    ensures program == ErrorEmissions<P>(fileRows, errs)
  {
    program := [];
    for i := 0 to |errs|
      invariant program == ErrorEmissions<P>(fileRows, errs[..i])
    {
      var rowNum := SourceFileRowNumber(fileRows, errs[i].rowIndex);
      program := program + [Record(BulkResult(rowNum, Failed, ""))];
      assert errs[..i + 1][..i] == errs[..i];
    }
    assert errs[..|errs|] == errs;
  }

  method DispatchShapes<F>(u: Upload, fileRows: map<int, int>, keyOf: F -> string, encodes: F -> bool, shapes: seq<Shape<F>>)
    returns (program: Program<Shape<F>>)
    ensures program == ShapeEmissions(u, fileRows, keyOf, encodes, shapes)
  {
    program := [];
    for i := 0 to |shapes|
      invariant program == ShapeEmissions(u, fileRows, keyOf, encodes, shapes[..i])
    {
      assert shapes[..i + 1][..i] == shapes[..i];
      var parserRowNum := RefNumber(shapes[i].sourceRowRef);
      var rowNum := SourceFileRowNumber(fileRows, parserRowNum);
      var shape := shapes[i].(sourceRowRef := Text.Itoa(rowNum));
      if !encodes(shape.figures) {
        program := program + [Record(BulkResult(rowNum, Failed, ""))];
        continue;
      }
      var key := RowKey(u, Text.Trim(keyOf(shape.figures)), rowNum);
      program := program + [Send(BulkJob(rowNum, shape, key))];
    }
    assert shapes[..|shapes|] == shapes;
  }

  function ParserProgram<F>(u: Upload, rows: seq<FileRow>, keyOf: F -> string, encodes: F -> bool,
                            shapes: seq<Shape<F>>, errs: seq<RowError>): Program<Shape<F>>
  {
    var fileRows := FileRowsOf(KeptRows(u, rows));
    SettledRows<Shape<F>>(u, rows) + ErrorEmissions<Shape<F>>(fileRows, errs)
    + ShapeEmissions(u, fileRows, keyOf, encodes, shapes)
  }
}
