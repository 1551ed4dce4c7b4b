/**
  The JSON payload of one file row: headers with dots become nested objects.
  Writing below a string is a failed type assertion, which panics.
 */
module RowPayload {
  import opened Wrappers
  import opened Text

  datatype Tree = Leaf(text: string) | Object(kids: map<string, Tree>)

  datatype Write = Write(path: seq<string>, text: string)

  const SOURCE_ROW_REF := "source_row_ref"

  // One write into the nested objects; None stands for a panic.
  function Insert(kids: map<string, Tree>, path: seq<string>, text: string): Option<map<string, Tree>>
    requires path != []
    decreases |path|
  {
    var k := path[0];
    if |path| == 1 then Some(kids[k := Leaf(text)])
    else
      var child := if k in kids then kids[k] else Object(map[]);
      if child.Leaf? then None
      else
        var inner := Insert(child.kids, path[1..], text);
        if inner.None? then None else Some(kids[k := Object(inner.value)])
  }

  function Cell(row: seq<string>, j: nat): string {
    if j < |row| then row[j] else ""
  }

  // The writes of a row, in order: the row reference, then one per header.
  function Writes(headers: seq<string>, row: seq<string>, rowNum: nat): (w: seq<Write>)
    ensures |w| == |headers| + 1 && forall i :: 0 <= i < |w| ==> w[i].path != []
  {
    [Write([SOURCE_ROW_REF], Decimal(rowNum))]
    + seq(|headers|, j requires 0 <= j < |headers| => Write(Split(headers[j], '.'), Cell(row, j)))
  }

  function Build(writes: seq<Write>): Option<map<string, Tree>>
    requires forall i :: 0 <= i < |writes| ==> writes[i].path != []
  {
    if writes == [] then Some(map[])
    else
      var n := |writes| - 1;
      var before := Build(writes[..n]);
      if before.None? then None else Insert(before.value, writes[n].path, writes[n].text)
  }

  // The string at a path, if there is one.
  function Lookup(kids: map<string, Tree>, path: seq<string>): Option<string>
    requires path != []
    decreases |path|
  {
    if path[0] !in kids then None
    else
      match kids[path[0]]
      case Leaf(text) => if |path| == 1 then Some(text) else None
      case Object(inner) => if |path| == 1 then None else Lookup(inner, path[1..])
  }

  // ---- One write ------------------------------------------------------------------

  // A string above the path, which makes the write panic.
  ghost predicate Blocked(kids: map<string, Tree>, path: seq<string>) {
    exists m :: 0 < m < |path| && Lookup(kids, path[..m]).Some?
  }

  lemma {:induction false} InsertPanicsIff(kids: map<string, Tree>, path: seq<string>, text: string)
    requires path != []
    ensures Insert(kids, path, text).None? <==> Blocked(kids, path)
    decreases |path|
  {
    var k := path[0];
    if |path| > 1 {
      if k in kids && kids[k].Leaf? {
        assert Lookup(kids, path[..1]).Some?;
      } else {
        var inner := if k in kids then kids[k].kids else map[];
        InsertPanicsIff(inner, path[1..], text);
        if m :| 0 < m < |path| && Lookup(kids, path[..m]).Some? {
          assert m > 1 && path[..m][1..] == path[1..][..m - 1];
        }
        if m :| 0 < m < |path[1..]| && Lookup(inner, path[1..][..m]).Some? {
          assert path[..m + 1][1..] == path[1..][..m];
          assert Lookup(kids, path[..m + 1]).Some?;
        }
      }
    }
  }

  // A write puts its string at its path, removes what was below, and disturbs
  // nothing else.
  lemma {:induction false} InsertEffect(kids: map<string, Tree>, path: seq<string>, text: string, p: seq<string>)
    requires path != [] && p != [] && Insert(kids, path, text).Some?
    ensures Lookup(Insert(kids, path, text).value, p)
         == if p == path then Some(text) else if path <= p then None else Lookup(kids, p)
    decreases |path|
  {
    var k := path[0];
    if |path| == 1 {
      assert path <= p <==> p[0] == k;
      assert p == path <==> p[0] == k && |p| == 1;
    } else {
      var inner := if k in kids then kids[k].kids else map[];
      if p[0] == k && |p| > 1 {
        InsertEffect(inner, path[1..], text, p[1..]);
        assert p == path <==> p[1..] == path[1..];
        assert path <= p <==> path[1..] <= p[1..];
      }
    }
  }

  // ---- The whole row ----------------------------------------------------------------

  predicate ProperPrefix(p: seq<string>, q: seq<string>) {
    p < q
  }

  // Some earlier path lies strictly above a later one.
  ghost predicate Clashes(writes: seq<Write>) {
    exists i, j :: 0 <= i < j < |writes| && ProperPrefix(writes[i].path, writes[j].path)
  }

  // Write j is the last one at or above its path.
  predicate Survives(writes: seq<Write>, j: nat)
    requires j < |writes|
  {
    forall i :: j < i < |writes| ==> !(writes[i].path <= writes[j].path)
  }

  // Wherever something was written, a string stays at or above that path.
  lemma {:induction false} WrittenStays(writes: seq<Write>, i: nat)
    requires forall k :: 0 <= k < |writes| ==> writes[k].path != []
    requires i < |writes| && Build(writes).Some?
    ensures exists m :: 0 < m <= |writes[i].path| && Lookup(Build(writes).value, writes[i].path[..m]).Some?
  {
    var n := |writes| - 1;
    var before := Build(writes[..n]).value;
    var last := writes[n];
    var p := writes[i].path;
    if i == n {
      InsertEffect(before, last.path, last.text, p);
      assert p[..|p|] == p;
    } else {
      WrittenStays(writes[..n], i);
      var m :| 0 < m <= |p| && Lookup(before, p[..m]).Some?;
      InsertEffect(before, last.path, last.text, p[..m]);
      if last.path <= p[..m] {
        var l := |last.path|;
        assert p[..l] == last.path;
        InsertEffect(before, last.path, last.text, p[..l]);
      }
    }
  }

  // Building panics exactly when some earlier header path (or the row reference)
  // lies strictly above a later one.
  lemma {:induction false} BuildPanicsIff(writes: seq<Write>)
    requires forall k :: 0 <= k < |writes| ==> writes[k].path != []
    ensures Build(writes).None? <==> Clashes(writes)
  {
    if writes != [] {
      var n := |writes| - 1;
      var init := writes[..n];
      BuildPanicsIff(init);
      if Clashes(init) {
        var i, j :| 0 <= i < j < n && ProperPrefix(init[i].path, init[j].path);
        assert ProperPrefix(writes[i].path, writes[j].path);
      } else {
        LastPanicsIff(writes);
        forall i, j | 0 <= i < j < n ensures !ProperPrefix(writes[i].path, writes[j].path) {
          assert init[i].path == writes[i].path && init[j].path == writes[j].path;
        }
      }
    }
  }

  lemma LastPanicsIff(writes: seq<Write>)
    requires forall k :: 0 <= k < |writes| ==> writes[k].path != []
    requires writes != [] && Build(writes[..|writes| - 1]).Some?
    ensures Build(writes).None?
       <==> exists i :: 0 <= i < |writes| - 1 && ProperPrefix(writes[i].path, writes[|writes| - 1].path)
  {
    hide Insert, Lookup, Survives;
    var n := |writes| - 1;
    var init, p := writes[..n], writes[n].path;
    var before := Build(init).value;
    InsertPanicsIff(before, p, writes[n].text);
    if i :| 0 <= i < n && ProperPrefix(writes[i].path, p) {
      WrittenStays(init, i);
      var q := init[i].path;
      var m :| 0 < m <= |q| && Lookup(before, q[..m]).Some?;
      assert q[..m] == p[..m];
    }
    if m :| 0 < m < |p| && Lookup(before, p[..m]).Some? {
      LeavesExactly(init, p[..m], Lookup(before, p[..m]).value);
      var j :| 0 <= j < n && init[j].path == p[..m];
      assert ProperPrefix(writes[j].path, p);
    }
  }

  // The strings of a built payload are exactly the surviving writes: a path
  // holds a text if and only if the last write at or above it wrote that text there.
  lemma {:induction false} LeavesExactly(writes: seq<Write>, p: seq<string>, text: string)
    requires forall k :: 0 <= k < |writes| ==> writes[k].path != []
    requires Build(writes).Some? && p != []
    ensures Lookup(Build(writes).value, p) == Some(text)
       <==> exists j :: 0 <= j < |writes| && writes[j] == Write(p, text) && Survives(writes, j)
  {
    if writes != [] {
      var n := |writes| - 1;
      var init, last := writes[..n], writes[n];
      LeavesExactly(init, p, text);
      InsertEffect(Build(init).value, last.path, last.text, p);
      if j :| 0 <= j < n && init[j] == Write(p, text) && Survives(init, j) {
        if !(last.path <= p) {
          assert writes[j] == Write(p, text) && Survives(writes, j);
        }
      }
      if j :| 0 <= j < |writes| && writes[j] == Write(p, text) && Survives(writes, j) {
        if j < n {
          assert init[j] == Write(p, text);
          assert forall i :: j < i < n ==> init[i].path == writes[i].path;
          assert Survives(init, j);
        }
      }
      if last == Write(p, text) {
        assert Survives(writes, n);
      }
    }
  }

  // ---- In terms of the headers ------------------------------------------------------

  // What a row writes under: the row reference, then the headers.
  function Names(headers: seq<string>): (names: seq<string>)
    ensures |names| == |headers| + 1
  {
    ["source_row_ref"] + headers
  }

  // What it writes there: the row's number, then its cells, "" where the row is short.
  function TextAt(row: seq<string>, rowNum: nat, j: nat): string {
    if j == 0 then Decimal(rowNum) else if j - 1 < |row| then row[j - 1] else ""
  }

  lemma WriteIs(headers: seq<string>, row: seq<string>, rowNum: nat, j: nat)
    requires j <= |headers|
    ensures Writes(headers, row, rowNum)[j] == Write(Split(Names(headers)[j], '.'), TextAt(row, rowNum, j))
  {
    hide Decimal, Split;
    if j == 0 {
      RowRefIsOnePart();
    }
  }

  lemma RowRefIsOnePart()
    ensures Split("source_row_ref", '.') == ["source_row_ref"]
  {
    SplitNoSeparator("source_row_ref", '.');
  }

  // The first name comes before the second in its path: "a" before "a.b".
  predicate Above(x: string, y: string) {
    x + "." <= y
  }

  lemma ProperPrefixIff(x: string, y: string)
    ensures ProperPrefix(Split(x, '.'), Split(y, '.')) <==> Above(x, y)
  {
    hide Split;
    SplitPrefixIff(x, y, '.');
    SplitJoins(x, '.');
    SplitJoins(y, '.');
    var p, q := Split(x, '.'), Split(y, '.');
    assert Above(x, y) ==> x != y;
    assert x != y ==> p != q;
    assert ['.'] == ".";
    assert ProperPrefix(p, q) <==> p <= q && p != q;
  }

  // A payload cannot be built exactly when a name lies above a later one.
  lemma PayloadPanicsIff(headers: seq<string>, row: seq<string>, rowNum: nat)
    ensures var names := Names(headers);
            Build(Writes(headers, row, rowNum)).None? <==> exists i, j :: 0 <= i < j < |names| && Above(names[i], names[j])
  {
    hide Split, Build, Decimal;
    var w, names := Writes(headers, row, rowNum), Names(headers);
    BuildPanicsIff(w);
    forall i, j | 0 <= i < j < |names| ensures ProperPrefix(w[i].path, w[j].path) <==> Above(names[i], names[j]) {
      WriteIs(headers, row, rowNum, i);
      WriteIs(headers, row, rowNum, j);
      ProperPrefixIff(names[i], names[j]);
    }
    if i, j :| 0 <= i < j < |w| && ProperPrefix(w[i].path, w[j].path) {
      assert Above(names[i], names[j]);
    }
    if i, j :| 0 <= i < j < |names| && Above(names[i], names[j]) {
      assert ProperPrefix(w[i].path, w[j].path);
    }
  }

  // The last of the names at or above it.
  ghost predicate LastWord(names: seq<string>, j: nat)
    requires j < |names|
  {
    forall i :: j < i < |names| ==> names[i] != names[j] && !Above(names[i], names[j])
  }

  // Name j is spelled by the path and has the last word on it.
  ghost predicate Decides(names: seq<string>, j: nat, path: seq<string>) {
    j < |names| && names[j] == Join(path, ".") && LastWord(names, j)
  }

  // The strings of a payload: a path holds a text exactly when its parts, joined by
  // dots, are the last name at or above it, and the text is that name's. Nothing is
  // ever under a key with a dot in it.
  lemma PayloadHolds(headers: seq<string>, row: seq<string>, rowNum: nat, path: seq<string>, text: string)
    requires path != [] && Build(Writes(headers, row, rowNum)).Some?
    ensures Lookup(Build(Writes(headers, row, rowNum)).value, path) == Some(text) <==>
            NoneHas(path, '.') && exists j :: Decides(Names(headers), j, path) && TextAt(row, rowNum, j) == text
  {
    hide Split, Build, Decimal, Lookup, Join, TextAt, Writes, Names, Above, NoneHas;
    var w, names := Writes(headers, row, rowNum), Names(headers);
    LeavesExactly(w, path, text);
    forall j | 0 <= j < |names|
      ensures w[j] == Write(path, text) && Survives(w, j) <==>
              NoneHas(path, '.') && Decides(names, j, path) && TextAt(row, rowNum, j) == text
    {
      WriteIs(headers, row, rowNum, j);
      SplitJoins(names[j], '.');
      if NoneHas(path, '.') {
        SplitOfJoin(path, '.');
      }
      SurvivesIff(headers, row, rowNum, j);
    }
  }

  lemma SurvivesIff(headers: seq<string>, row: seq<string>, rowNum: nat, j: nat)
    requires j <= |headers|
    ensures Survives(Writes(headers, row, rowNum), j) <==> LastWord(Names(headers), j)
  {
    hide Split, Decimal, TextAt, Writes, Names;
    var w, names := Writes(headers, row, rowNum), Names(headers);
    WriteIs(headers, row, rowNum, j);
    forall i | j < i < |w| ensures w[i].path <= w[j].path <==> names[i] == names[j] || Above(names[i], names[j]) {
      WriteIs(headers, row, rowNum, i);
      SplitPrefixIff(names[i], names[j], '.');
    }
  }

  // When no name lies above another or repeats it, each header's cell is found by
  // going down the parts of the header, whatever the order of the columns.
  lemma DistinctHeadersKeepTheirCells(headers: seq<string>, row: seq<string>, rowNum: nat, j: nat, path: seq<string>)
    requires var names := Names(headers);
             forall a, b | 0 <= a < |names| && 0 <= b < |names| && a != b :: names[a] != names[b] && !Above(names[a], names[b])
    requires j < |headers|
    requires path != [] && NoneHas(path, '.') && Join(path, ".") == headers[j]
    ensures var payload := Build(Writes(headers, row, rowNum));
            && payload.Some?
            && Lookup(payload.value, path) == Some(if j < |row| then row[j] else "")
            && Lookup(payload.value, ["source_row_ref"]) == Some(Decimal(rowNum))
  {
    hide Split, Build, Decimal, Lookup, Join, Writes, Above;
    PayloadPanicsIff(headers, row, rowNum);
    PayloadHolds(headers, row, rowNum, path, if j < |row| then row[j] else "");
    assert Decides(Names(headers), j + 1, path);
    var ref := ["source_row_ref"];
    RowRefIsOnePart();
    SplitJoins("source_row_ref", '.');
    PayloadHolds(headers, row, rowNum, ref, Decimal(rowNum));
    assert Decides(Names(headers), 0, ref);
  }

  // Whether building panics depends on the headers alone, not on the row.
  lemma PanicDependsOnHeaders(headers: seq<string>, row: seq<string>, rowNum: nat, row': seq<string>, rowNum': nat)
    ensures Build(Writes(headers, row, rowNum)).None? <==> Build(Writes(headers, row', rowNum')).None?
  {
    var w, w' := Writes(headers, row, rowNum), Writes(headers, row', rowNum');
    BuildPanicsIff(w);
    BuildPanicsIff(w');
    assert forall i :: 0 <= i < |w| ==> w[i].path == w'[i].path;
    if i, j :| 0 <= i < j < |w| && ProperPrefix(w[i].path, w[j].path) {
      assert ProperPrefix(w'[i].path, w'[j].path);
    }
    if i, j :| 0 <= i < j < |w| && ProperPrefix(w'[i].path, w'[j].path) {
      assert ProperPrefix(w[i].path, w[j].path);
    }
  }
}
