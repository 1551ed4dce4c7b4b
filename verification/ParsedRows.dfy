/**
  What a row parser hands back, whichever parser it is: each row either gives one
  shape, labelled with its row number, or at least one error that names it.
 */
module ParsedRows {
  import opened Wrappers
  import Text

  type Row = seq<string>

  datatype RowError = RowError(rowIndex: nat, field: string)

  datatype Shape<F> = Shape(sourceRowRef: string, figures: F)

  // What becomes of a row: the contents of its shape, or None when it is refused.
  type Judge<F> = Row -> Option<F>

  // Rows are numbered from 1.
  function RowRef(rowNum: nat): string {
    "row:" + Text.Decimal(rowNum)
  }

  // The shapes of the rows that are not refused, in row order.
  function Shapes<F>(judge: Judge<F>, rows: seq<Row>): seq<Shape<F>> {
    if rows == [] then []
    else
      var last := judge(rows[|rows| - 1]);
      Shapes(judge, rows[..|rows| - 1]) + if last.Some? then [Shape(RowRef(|rows|), last.value)] else []
  }

  // The errors name exactly the refused rows, in row order.
  ghost predicate ErrorsRight<F>(judge: Judge<F>, rows: seq<Row>, errs: seq<RowError>) {
    && (forall e <- errs :: 1 <= e.rowIndex <= |rows| && judge(rows[e.rowIndex - 1]).None?)
    && (forall i :: 0 <= i < |rows| && judge(rows[i]).None? ==> HasError(errs, i + 1))
    && (forall i, j :: 0 <= i < j < |errs| ==> errs[i].rowIndex <= errs[j].rowIndex)
  }

  ghost predicate HasError(errs: seq<RowError>, rowNum: nat) {
    exists e <- errs :: e.rowIndex == rowNum
  }

  ghost predicate Parsed<F>(judge: Judge<F>, rows: seq<Row>, shapes: seq<Shape<F>>, errs: seq<RowError>) {
    shapes == Shapes(judge, rows) && ErrorsRight(judge, rows, errs)
  }

  ghost predicate AllAt(errs: seq<RowError>, rowNum: nat) {
    forall e <- errs :: e.rowIndex == rowNum
  }

  lemma ErrorsSnoc<F>(judge: Judge<F>, rows: seq<Row>, errs: seq<RowError>, row: Row, more: seq<RowError>)
    requires ErrorsRight(judge, rows, errs) && AllAt(more, |rows| + 1) && (more == [] <==> judge(row).Some?)
    ensures ErrorsRight(judge, rows + [row], errs + more)
  {
    var all, allErrs := rows + [row], errs + more;
    forall e <- allErrs ensures 1 <= e.rowIndex <= |all| && judge(all[e.rowIndex - 1]).None? {
      assert e in errs || e in more;
    }
    forall i | 0 <= i < |all| && judge(all[i]).None? ensures HasError(allErrs, i + 1) {
      if i < |rows| {
        assert HasError(errs, i + 1);
        var e :| e in errs && e.rowIndex == i + 1;
        assert e in allErrs;
      } else {
        assert more[0] in more && more[0] in allErrs;
      }
    }
    forall i, j | 0 <= i < j < |allErrs| ensures allErrs[i].rowIndex <= allErrs[j].rowIndex {
      assert if i < |errs| then errs[i] in errs && allErrs[i] == errs[i] else allErrs[i] in more;
      assert if j < |errs| then errs[j] in errs && allErrs[j] == errs[j] else allErrs[j] in more;
    }
  }

  lemma ParsedSnoc<F>(judge: Judge<F>, rows: seq<Row>, shapes: seq<Shape<F>>, errs: seq<RowError>, row: Row, more: seq<RowError>)
    requires Parsed(judge, rows, shapes, errs) && AllAt(more, |rows| + 1) && (more == [] <==> judge(row).Some?)
    ensures judge(row).Some? ==>
              Parsed(judge, rows + [row], shapes + [Shape(RowRef(|rows| + 1), judge(row).value)], errs)
    ensures judge(row).None? ==> Parsed(judge, rows + [row], shapes, errs + more)
  {
    ErrorsSnoc(judge, rows, errs, row, more);
    assert (rows + [row])[..|rows|] == rows;
    assert errs + [] == errs;
    assert shapes + [] == shapes;
  }
}
