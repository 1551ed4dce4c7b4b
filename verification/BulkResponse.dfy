/** Putting the results of a bulk upload in file order and summing them up. */
module BulkResponse {
  import opened BulkPipeline
  import opened BulkRows
  import opened BulkAnswers

  // The results for rows 1 to n, in row order.
  function InOrder(results: map<int, BulkResult>, n: nat): seq<BulkResult> {
    if n == 0 then [] else InOrder(results, n - 1) + if n in results then [results[n]] else []
  }

  method MaxRow(results: map<int, BulkResult>) returns (maxRow: nat)
    ensures forall row <- results :: row <= maxRow
  {
    maxRow := 0;
    var todo := results.Keys;
    while todo != {}
      invariant todo <= results.Keys
      invariant forall row <- results :: row in todo || row <= maxRow
      decreases |todo|
    {
      assert exists row :: row in todo by {
        if forall row :: row !in todo {
          assert false;
        }
      }
      var row :| row in todo;
      if row > maxRow {
        maxRow := row;
      }
      todo := todo - {row};
    }
  }

  method AssembleResults(results: map<int, BulkResult>) returns (list: seq<BulkResult>, maxRow: nat)
    ensures forall row <- results :: row <= maxRow
    ensures list == InOrder(results, maxRow)
  {
    maxRow := MaxRow(results);
    list := [];
    for j := 1 to maxRow + 1
      invariant list == InOrder(results, j - 1)
    {
      if j in results {
        list := list + [results[j]];
      }
    }
  }

  ghost predicate RowsIncrease(list: seq<BulkResult>) {
    forall i, j :: 0 <= i < j < |list| ==> list[i].row < list[j].row
  }

  lemma {:induction false} InOrderFacts(results: map<int, BulkResult>, n: nat)
    requires forall row <- results :: results[row].row == row
    ensures var list := InOrder(results, n);
            RowsIncrease(list) && forall r :: r in list <==> 1 <= r.row <= n && r.row in results && results[r.row] == r
  {
    if n > 0 {
      InOrderFacts(results, n - 1);
      var before := InOrder(results, n - 1);
      forall i | 0 <= i < |before| ensures before[i].row < n {
        assert before[i] in before;
      }
    }
  }

  // ---- The answer -----------------------------------------------------------------------

  datatype Response =
    | NoProcessableRows
    | DuplicateBatch(totalRows: nat)
    | Summary(total: nat, accepted: nat, failed: nat, duplicate: nat, conflict: nat, rejected: nat, results: seq<BulkResult>)

  function CountOf(list: seq<BulkResult>, status: Status): nat {
    if list == [] then 0 else CountOf(list[..|list| - 1], status) + if list[|list| - 1].status == status then 1 else 0
  }

  lemma {:induction false} CountsAddUp(list: seq<BulkResult>)
    ensures CountOf(list, Accepted) + CountOf(list, Failed) + CountOf(list, Duplicate) + CountOf(list, Conflict)
            + CountOf(list, Rejected) == |list|
  {
    if list != [] {
      CountsAddUp(list[..|list| - 1]);
    }
  }

  lemma {:induction false} AllOfStatus(list: seq<BulkResult>, status: Status)
    ensures CountOf(list, status) <= |list|
    ensures CountOf(list, status) == |list| <==> forall r <- list :: r.status == status
  {
    if list != [] {
      var init, last := list[..|list| - 1], list[|list| - 1];
      AllOfStatus(init, status);
      assert list == init + [last];
    }
  }

  method RespondBulkResults(list: seq<BulkResult>) returns (r: Response)
    ensures r.NoProcessableRows? <==> list == []
    ensures r.DuplicateBatch? <==> list != [] && forall x <- list :: x.status == Duplicate
    ensures r.DuplicateBatch? ==> r.totalRows == |list|
    ensures r.Summary? ==>
              && r.results == list && r.total == |list|
              && r.accepted == CountOf(list, Accepted) && r.failed == CountOf(list, Failed)
              && r.duplicate == CountOf(list, Duplicate) && r.conflict == CountOf(list, Conflict)
              && r.rejected == CountOf(list, Rejected)
              && r.accepted + r.failed + r.duplicate + r.conflict + r.rejected == r.total
  {
    if |list| == 0 {
      return NoProcessableRows;
    }
    var accepted, failed, duplicate, conflict, rejected := 0, 0, 0, 0, 0;
    for i := 0 to |list|
      invariant accepted == CountOf(list[..i], Accepted) && failed == CountOf(list[..i], Failed)
      invariant duplicate == CountOf(list[..i], Duplicate) && conflict == CountOf(list[..i], Conflict)
      invariant rejected == CountOf(list[..i], Rejected)
    {
      assert list[..i + 1][..i] == list[..i];
      match list[i].status
      case Accepted => accepted := accepted + 1;
      case Failed => failed := failed + 1;
      case Duplicate => duplicate := duplicate + 1;
      case Conflict => conflict := conflict + 1;
      case Rejected => rejected := rejected + 1;
    }
    assert list[..|list|] == list;
    AllOfStatus(list, Duplicate);
    CountsAddUp(list);
    if duplicate == |list| {
      return DuplicateBatch(|list|);
    }
    return Summary(|list|, accepted, failed, duplicate, conflict, rejected, list);
  }

  // The rows of a file that count, in order.
  function CountedRows(rows: seq<FileRow>): seq<int> {
    if rows == [] then []
    else CountedRows(rows[..|rows| - 1]) + if Counts(rows[|rows| - 1]) then [|rows|] else []
  }

  function RowsOf(list: seq<BulkResult>): seq<int> {
    seq(|list|, i requires 0 <= i < |list| => list[i].row)
  }

  lemma {:induction false} OrderedByFile(rows: seq<FileRow>, results: map<int, BulkResult>, n: nat)
    requires n <= |rows|
    requires forall row :: (row in results <==> CountedRow(rows, row)) && (row in results ==> results[row].row == row)
    ensures RowsOf(InOrder(results, n)) == CountedRows(rows[..n])
  {
    if n > 0 {
      OrderedByFile(rows, results, n - 1);
      assert rows[..n][..n - 1] == rows[..n - 1];
      assert n in results <==> CountedRow(rows, n);
    }
  }

  lemma {:induction false} NothingBeyond(results: map<int, BulkResult>, last: nat, n: nat)
    requires last <= n && forall row <- results :: row <= last
    ensures InOrder(results, n) == InOrder(results, last)
  {
    if last < n {
      NothingBeyond(results, last, n - 1);
    }
  }

  // The list a done upload answers with has one entry for each row of the file that
  // is not blank, in file order -- whichever way the workers were scheduled.
  lemma AnswersInFileOrder<P>(rows: seq<FileRow>, s: State<P>, maxRow: nat)
    requires Accounted(rows, s) && forall row <- s.results :: row <= maxRow
    ensures RowsOf(InOrder(s.results, maxRow)) == CountedRows(rows)
  {
    forall row ensures (row in s.results <==> CountedRow(rows, row)) && (row in s.results ==> s.results[row].row == row) {
    }
    OrderedByFile(rows, s.results, |rows|);
    assert rows[..|rows|] == rows;
    if maxRow <= |rows| {
      NothingBeyond(s.results, maxRow, |rows|);
    } else {
      NothingBeyond(s.results, |rows|, maxRow);
    }
  }
}
