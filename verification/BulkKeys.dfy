/** Which rows of bulk uploads get the same idempotency key, and where a key comes from. */
module BulkKeys {
  import opened Wrappers
  import opened RowPayload
  import opened BulkPipeline
  import opened ParsedRows
  import opened BulkRows
  import Text

  // ---- The key a row carries --------------------------------------------------------------

  // Column j (from 1; 0 is the row reference) is the one a payload has its key from.
  ghost predicate KeyColumn(headers: Row, j: nat) {
    j < |Names(headers)| && Names(headers)[j] == "idempotency_key" && LastWord(Names(headers), j)
  }

  // A row carries the key that stands in its column "idempotency_key", without blanks
  // around it, and none when the file has no such column.
  lemma OwnKeyIsCell(headers: Row, row: Row, rowNum: nat)
    requires Build(Writes(headers, row, rowNum)).Some?
    ensures var payload := Build(Writes(headers, row, rowNum)).value;
            && (forall j: nat | KeyColumn(headers, j) :: OwnKey(payload) == Text.Trim(TextAt(row, rowNum, j)))
            && ((forall j: nat :: !KeyColumn(headers, j)) ==> OwnKey(payload) == "")
  {
    hide Build, Writes, Text.Trim, Text.Join, TextAt, Lookup, LastWord, Names;
    var path := ["idempotency_key"];
    var payload := Build(Writes(headers, row, rowNum)).value;
    Text.JoinOne("idempotency_key", ".");
    assert Text.NoneHas(path, '.');
    forall j: nat ensures Decides(Names(headers), j, path) <==> KeyColumn(headers, j) {
    }
    forall j: nat | KeyColumn(headers, j) ensures Lookup(payload, path) == Some(TextAt(row, rowNum, j)) {
      PayloadHolds(headers, row, rowNum, path, TextAt(row, rowNum, j));
      assert Decides(Names(headers), j, path);
    }
    if Lookup(payload, path).Some? {
      PayloadHolds(headers, row, rowNum, path, Lookup(payload, path).value);
      var j :| Decides(Names(headers), j, path);
      assert KeyColumn(headers, j);
    }
  }

  // ---- Keys of different uploads -----------------------------------------------------------

  // A hash in hexadecimal has no colon in it.
  predicate NoColon(s: string) {
    ':' !in s
  }

  lemma FirstColon(p: string, q: string, x: string, y: string)
    requires NoColon(p) && NoColon(q) && p + (":" + x) == q + (":" + y)
    ensures p == q && x == y
  {
    var s := p + (":" + x);
    assert s == q + (":" + y);
    assert s[|p|] == ':' && s[|q|] == ':';
    assert |p| == |q|;
    assert p == s[..|p|] == q && x == s[|p| + 1..] == y;
  }

  lemma KeyText(u: Upload, m: nat)
    ensures u.fileHash + ":" + Text.Itoa(m) + (":" + u.tenantId) == u.fileHash + (":" + (Text.Decimal(m) + (":" + u.tenantId)))
  {
  }

  // Rows without a key of their own, in two ordinary uploads: they get the same key
  // exactly when they are the same row of the same file for the same tenant. Sending a
  // file again gives the same keys; no other file or tenant does.
  lemma KeysMeetAcrossUploadsIff(u: Upload, m: nat, v: Upload, n: nat)
    requires v.sha256 == u.sha256 && forall a, b :: u.sha256(a) == u.sha256(b) ==> a == b
    requires !u.forceReprocess && !v.forceReprocess && NoColon(u.fileHash) && NoColon(v.fileHash)
    ensures RowKey(u, "", m) == RowKey(v, "", n) <==> u.fileHash == v.fileHash && m == n && u.tenantId == v.tenantId
  {
    hide Text.Decimal;
    KeyText(u, m);
    KeyText(v, n);
    if RowKey(u, "", m) == RowKey(v, "", n) {
      var x, y := ":" + u.tenantId, ":" + v.tenantId;
      FirstColon(u.fileHash, v.fileHash, Text.Decimal(m) + x, Text.Decimal(n) + y);
      Text.DecimalRoundTrip(m);
      Text.DecimalRoundTrip(n);
      Text.SpanDigitsStops(Text.Decimal(m), x);
      Text.SpanDigitsStops(Text.Decimal(n), y);
      assert x[1..] == u.tenantId && y[1..] == v.tenantId;
    }
  }

  // A row with a key of its own keeps it in every ordinary upload, whatever the file.
  lemma OwnKeyIsKept(u: Upload, own: string, m: int)
    requires !u.forceReprocess && own != ""
    ensures RowKey(u, own, m) == own
  {
  }

  // Reprocessing gives every row a key that another batch or another tenant does not give
  // it, and a row without a key of its own one that no ordinary upload gives it.
  lemma ReprocessingGivesNewKeys(u: Upload, own: string, m: int, batchId: string, tenantId: string)
    requires u.forceReprocess && forall a, b :: u.sha256(a) == u.sha256(b) ==> a == b
    ensures RowKey(u.(batchId := batchId), own, m) == RowKey(u, own, m) <==> batchId == u.batchId
    ensures RowKey(u.(tenantId := tenantId), own, m) == RowKey(u, own, m) <==> tenantId == u.tenantId
    ensures RowKey(u, "", m) != RowKey(u.(forceReprocess := false), "", m)
  {
    var front := (if own != "" then own else u.fileHash + ":" + Text.Itoa(m)) + ":";
    Inside(front, u.tenantId, ":reprocess:", u.batchId, tenantId);
    Inside(front, u.tenantId, ":reprocess:", u.batchId, u.tenantId);
    Ends(front + u.tenantId + ":reprocess:", u.batchId, batchId);
    Regrouped(u, own, m);
    Regrouped(u.(batchId := batchId), own, m);
    Regrouped(u.(tenantId := tenantId), own, m);
    Regrouped(u, "", m);
  }

  lemma Regrouped(u: Upload, own: string, m: int)
    ensures var start := if own != "" then own else u.fileHash + ":" + Text.Itoa(m);
            start + Reprocessed(u) == start + ":" + u.tenantId + ":reprocess:" + u.batchId
    ensures |u.fileHash + ":" + Text.Itoa(m) + Reprocessed(u)| > |u.fileHash + ":" + Text.Itoa(m) + (":" + u.tenantId)|
  {
  }

  lemma Inside(front: string, x: string, middle: string, back: string, y: string)
    ensures front + x + middle + back == front + y + middle + back <==> x == y
  {
    var s, t := front + x + middle + back, front + y + middle + back;
    if s == t {
      assert |x| == |y|;
      assert s[|front|..|front| + |x|] == x && t[|front|..|front| + |y|] == y;
    }
  }

  lemma Ends(front: string, x: string, y: string)
    ensures front + x == front + y <==> x == y
  {
    assert (front + x)[|front|..] == x && (front + y)[|front|..] == y;
  }
}
