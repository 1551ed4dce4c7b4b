/**
  What the file parsers share: the header index, looking a cell up under several
  column names, and reading an amount.
 */
module BaseParser {
  import opened Wrappers
  import Text

  type Columns = map<string, nat>

  function Normal(header: string): string {
    Text.Lower(Text.Trim(header))
  }

  // ---- Header index ---------------------------------------------------------------

  // The last header with this normal form.
  ghost predicate LastHeader(headers: seq<string>, key: string, i: nat) {
    && i < |headers| && Normal(headers[i]) == key
    && forall j :: i < j < |headers| ==> Normal(headers[j]) != key
  }

  ghost predicate Indexes(cols: Columns, headers: seq<string>) {
    && (forall key <- cols :: LastHeader(headers, key, cols[key]))
    && (forall i :: 0 <= i < |headers| ==> Normal(headers[i]) in cols)
  }

  function IndexOf(headers: seq<string>): Columns {
    if headers == [] then map[] else IndexOf(headers[..|headers| - 1])[Normal(headers[|headers| - 1]) := |headers| - 1]
  }

  lemma {:induction false} IndexOfIndexes(headers: seq<string>)
    ensures Indexes(IndexOf(headers), headers)
  {
    hide Normal;
    if headers != [] {
      var init, last := headers[..|headers| - 1], |headers| - 1;
      IndexOfIndexes(init);
      forall k <- IndexOf(headers) ensures LastHeader(headers, k, IndexOf(headers)[k]) {
        assert k != Normal(headers[last]) ==> LastHeader(init, k, IndexOf(init)[k]);
      }
      forall i | 0 <= i < |headers| ensures Normal(headers[i]) in IndexOf(headers) {
        assert i < last ==> Normal(init[i]) in IndexOf(init);
      }
    }
  }

  // A name finds the last header that is the same but for case and blanks around it, and
  // nothing when there is none.
  lemma ColumnIs(headers: seq<string>, name: string)
    ensures Normal(name) in IndexOf(headers) <==> exists i :: 0 <= i < |headers| && Text.Fold(headers[i]) == Text.Fold(name)
    ensures Normal(name) in IndexOf(headers) ==>
              var i := IndexOf(headers)[Normal(name)];
              && i < |headers| && Text.Fold(headers[i]) == Text.Fold(name)
              && forall j :: i < j < |headers| ==> Text.Fold(headers[j]) != Text.Fold(name)
  {
    hide IndexOf, Text.Trim, Text.Lower;
    IndexOfIndexes(headers);
    if Normal(name) in IndexOf(headers) {
      assert LastHeader(headers, Normal(name), IndexOf(headers)[Normal(name)]);
    }
  }

  method BuildColIndex(headers: seq<string>) returns (cols: Columns)
    ensures cols == IndexOf(headers) && Indexes(cols, headers)
  {
    hide Normal;
    cols := map[];
    for i := 0 to |headers|
      invariant cols == IndexOf(headers[..i])
    {
      cols := cols[Normal(headers[i]) := i];
      assert headers[..i + 1][..i] == headers[..i];
    }
    assert headers[..|headers|] == headers;
    IndexOfIndexes(headers);
  }

  // ---- Cells under several names -----------------------------------------------------

  predicate Readable(row: seq<string>, cols: Columns, candidate: string) {
    Normal(candidate) in cols && cols[Normal(candidate)] < |row|
  }

  function CellUnder(row: seq<string>, cols: Columns, candidate: string): string
    requires Readable(row, cols, candidate)
  {
    Text.Trim(row[cols[Normal(candidate)]])
  }

  // The row has text under this name.
  predicate HasText(row: seq<string>, cols: Columns, candidate: string) {
    Readable(row, cols, candidate) && CellUnder(row, cols, candidate) != ""
  }

  // The cell found from candidate i on.
  function Found(row: seq<string>, cols: Columns, candidates: seq<string>, i: nat): string
    decreases |candidates| - i
  {
    if i >= |candidates| then ""
    else if HasText(row, cols, candidates[i]) then CellUnder(row, cols, candidates[i])
    else if Readable(row, cols, candidates[i]) then Found(row, cols, candidates, i + 1)
    else if i == |candidates| - 1 && |candidates| > 1 then candidates[i]
    else Found(row, cols, candidates, i + 1)
  }

  function Get(row: seq<string>, cols: Columns, candidates: seq<string>): string {
    Found(row, cols, candidates, 0)
  }

  method GetFromCandidates(row: seq<string>, cols: Columns, candidates: seq<string>) returns (r: string)
    ensures r == Get(row, cols, candidates)
  {
    for i := 0 to |candidates|
      invariant Found(row, cols, candidates, i) == Get(row, cols, candidates)
    {
      var normalized := Normal(candidates[i]);
      if normalized in cols && cols[normalized] < |row| {
        var val := Text.Trim(row[cols[normalized]]);
        if val != "" {
          return val;
        }
      } else if i == |candidates| - 1 && |candidates| > 1 {
        return candidates[i];
      }
    }
    return "";
  }

  // The first name with text wins.
  lemma {:induction false} FirstTextWins(row: seq<string>, cols: Columns, candidates: seq<string>, i: nat, first: nat)
    requires i <= first < |candidates| && HasText(row, cols, candidates[first])
    requires forall k :: i <= k < first ==> !HasText(row, cols, candidates[k])
    ensures Found(row, cols, candidates, i) == CellUnder(row, cols, candidates[first])
    decreases first - i
  {
    if i < first {
      FirstTextWins(row, cols, candidates, i + 1, first);
    }
  }

  // With no text under any name, the last of several names is itself the result
  // when the row has no column of that name: a missing column reads as its name.
  lemma {:induction false} NoTextReadsAs(row: seq<string>, cols: Columns, candidates: seq<string>, i: nat)
    requires i <= |candidates| && forall k :: i <= k < |candidates| ==> !HasText(row, cols, candidates[k])
    ensures Found(row, cols, candidates, i) ==
            if i < |candidates| && |candidates| > 1 && !Readable(row, cols, candidates[|candidates| - 1])
            then candidates[|candidates| - 1] else ""
    decreases |candidates| - i
  {
    if i < |candidates| {
      NoTextReadsAs(row, cols, candidates, i + 1);
    }
  }

  // ---- Amounts ---------------------------------------------------------------------

  function Count(s: string, c: char): nat {
    if s == "" then 0 else (if s[0] == c then 1 else 0) + Count(s[1..], c)
  }

  // Where this character first and last occurs.
  function Index(s: string, c: char): nat
    requires Count(s, c) > 0
  {
    if s[0] == c then 0 else 1 + Index(s[1..], c)
  }

  function LastIndex(s: string, c: char): nat
    requires Count(s, c) > 0
  {
    if Count(s[1..], c) > 0 then 1 + LastIndex(s[1..], c) else 0
  }

  function Remove(s: string, c: char): string {
    if s == "" then "" else (if s[0] == c then "" else [s[0]]) + Remove(s[1..], c)
  }

  predicate IsCurrency(c: char) {
    c == '\U{20B9}' || c == '$' || c == '\U{20AC}' || c == '\U{A3}' || c == '\U{A5}'
  }

  function TrimCurrency(s: string): string {
    if s != "" && IsCurrency(s[0]) then TrimCurrency(s[1..]) else s
  }

  // The number without blanks around it and currency signs before it.
  function Bare(raw: string): string {
    Text.Trim(TrimCurrency(Text.Trim(raw)))
  }

  predicate Ambiguous(s: string) {
    || Count(s, '.') > 1
    || (Count(s, '.') == 1 && Count(s, ',') >= 1 && LastIndex(s, ',') > Index(s, '.'))
  }

  type DecimalOf = string -> Option<real>

  function ParseAmount(decimalOf: DecimalOf, raw: string): Option<real> {
    if Text.Trim(raw) == "" then None
    else if Ambiguous(Bare(raw)) then None
    else decimalOf(Remove(Bare(raw), ','))
  }

  lemma {:induction false} CountFacts(s: string, c: char)
    ensures Count(s, c) > 0 <==> c in s
    ensures Count(s, c) > 0 ==>
              && Index(s, c) < |s| && s[Index(s, c)] == c && (forall i :: 0 <= i < Index(s, c) ==> s[i] != c)
              && LastIndex(s, c) < |s| && s[LastIndex(s, c)] == c
              && (forall i :: LastIndex(s, c) < i < |s| ==> s[i] != c)
    ensures Count(s, c) > 1 <==> exists i, j :: 0 <= i < j < |s| && s[i] == s[j] == c
  {
    if s != "" {
      var t := s[1..];
      CountFacts(t, c);
      assert s == [s[0]] + t;
      if Count(s, c) > 1 {
        if s[0] == c {
          assert c in t;
        } else {
          var i, j :| 0 <= i < j < |t| && t[i] == t[j] == c;
          assert s[i + 1] == s[j + 1] == c;
        }
      }
      forall i, j | 0 <= i < j < |s| && s[i] == s[j] == c ensures Count(s, c) > 1 {
        assert t[j - 1] == c;
        if i > 0 {
          assert t[i - 1] == c;
        }
      }
    }
  }

  // An amount is ambiguous exactly when a point or a comma follows a point.
  lemma AmbiguousIff(s: string)
    ensures Ambiguous(s) <==> exists i, j :: 0 <= i < j < |s| && s[i] == '.' && s[j] in ".,"
  {
    CountFacts(s, '.');
    CountFacts(s, ',');
    if Count(s, '.') == 1 && Count(s, ',') >= 1 && LastIndex(s, ',') > Index(s, '.') {
      assert s[Index(s, '.')] == '.' && s[LastIndex(s, ',')] == ',';
    }
    forall i, j | 0 <= i < j < |s| && s[i] == '.' && s[j] in ".," ensures Ambiguous(s) {
      if s[j] == ',' && Count(s, '.') <= 1 {
        assert Index(s, '.') <= i && j <= LastIndex(s, ',');
      }
    }
  }
}
