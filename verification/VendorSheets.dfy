/** The rows of VendorGaps as rows of a vendor file, under headers of its own. */
module VendorSheets {
  import opened Wrappers
  import opened BaseParser
  import opened VendorParser
  import opened VendorAmounts
  import opened VendorGaps
  import opened ParsedRows
  import Text

  const HEADERS: Row := [
    "cin", "pan", "cgst", "igst", "sgst", "amount", "msme no", "gst rate", "gst type", "tds rate",
    "kyc policy", "kyc status", "tds amount", "tds section", "invoice date", "vendor gstin", "taxable value",
    "account number", "reverse charge", "fund account id"]

  function FileRow(n: Sheet): (row: Row)
    ensures |row| == |HEADERS|
  {
    ["", "", "", if n.igst.Some? then Numeral(n.igst.value) else "", "", Numeral(n.amount), "", Numeral(n.gstRate),
     if n.igst.Some? then "IGST" else "", Numeral(n.tdsRate),
     "", "", if n.tds.Some? then Numeral(n.tds.value) else "", "", "", "", Numeral(n.taxable),
     "1", if n.reverse then "yes" else "", ""]
  }

  // ---- The headers ---------------------------------------------------------------------

  // Small letters and blanks, with letters at both ends.
  predicate IsPlain(s: string) {
    s != "" && s[0] != ' ' && s[|s| - 1] != ' ' && forall i :: 0 <= i < |s| ==> s[i] == ' ' || 'a' <= s[i] <= 'z'
  }

  lemma PlainIsNormal(s: string)
    requires IsPlain(s)
    ensures Normal(s) == s
  {
    Text.TrimIsTrimmed(s);
  }

  lemma HeadersArePlain()
    ensures forall i :: 0 <= i < |HEADERS| ==> IsPlain(HEADERS[i])
  {
  }

  // The headers are listed by length, first letter and fifth.
  function Rank(s: string): int
    requires s != ""
  {
    (|s| * 256 + s[0] as int) * 256 + s[if |s| > 4 then 4 else 0] as int
  }

  lemma HeadersAscend()
    ensures forall i :: 0 <= i < |HEADERS| ==> HEADERS[i] != ""
    ensures forall i :: 0 <= i < |HEADERS| - 1 ==> Rank(HEADERS[i]) < Rank(HEADERS[i + 1])
  {
  }

  lemma {:induction false} HeadersAreOrdered(i: nat, j: nat)
    requires i < j < |HEADERS|
    ensures HEADERS[i] != "" && HEADERS[j] != "" && Rank(HEADERS[i]) < Rank(HEADERS[j])
    decreases j - i
  {
    hide Rank, HEADERS;
    HeadersAscend();
    if i + 1 < j {
      HeadersAreOrdered(i, j - 1);
      assert Rank(HEADERS[j - 1]) < Rank(HEADERS[j - 1 + 1]);
    }
  }

  // Each header has its own column.
  lemma ColumnOf(i: nat)
    requires i < |HEADERS|
    ensures var cols := IndexOf(HEADERS); Normal(HEADERS[i]) in cols && cols[Normal(HEADERS[i])] == i
  {
    hide HEADERS, IndexOf, Rank;
    var cols, key := IndexOf(HEADERS), Normal(HEADERS[i]);
    IndexOfIndexes(HEADERS);
    HeadersArePlain();
    assert LastHeader(HEADERS, key, cols[key]);
    var j := cols[key];
    PlainIsNormal(HEADERS[i]);
    PlainIsNormal(HEADERS[j]);
    if i < j {
      HeadersAreOrdered(i, j);
    } else if j < i {
      HeadersAreOrdered(j, i);
    }
  }

  // A name that is no header: it has a sign no header has.
  predicate IsForeign(s: string) {
    Text.Trimmed(s) && exists i :: 0 <= i < |s| && (s[i] == '_' || s[i] == '.' || s[i] == '%')
  }

  lemma ForeignHasNoColumn(s: string)
    requires IsForeign(s)
    ensures Normal(s) !in IndexOf(HEADERS)
  {
    hide HEADERS, IndexOf;
    IndexOfIndexes(HEADERS);
    HeadersArePlain();
    Text.TrimIsTrimmed(s);
    var i :| 0 <= i < |s| && (s[i] == '_' || s[i] == '.' || s[i] == '%');
    assert Normal(s)[i] == s[i];
    if Normal(s) in IndexOf(HEADERS) {
      var j := IndexOf(HEADERS)[Normal(s)];
      assert LastHeader(HEADERS, Normal(s), j);
      PlainIsNormal(HEADERS[j]);
    }
  }

  // ---- Cells ---------------------------------------------------------------------------

  // The names before number k are no headers, name k is header i, and no later name is
  // needed.
  lemma CellAt(row: Row, names: seq<string>, k: nat, i: nat)
    requires |row| == |HEADERS| && i < |HEADERS| && k < |names| && |names| > 1 && names[k] == HEADERS[i]
    requires forall m :: 0 <= m < k ==> IsForeign(names[m])
    requires Text.Trimmed(row[i]) && (row[i] != "" || k == |names| - 1)
    ensures Get(row, IndexOf(HEADERS), names) == row[i]
  {
    hide HEADERS, IndexOf, Normal, Text.Trimmed, IsForeign;
    var cols := IndexOf(HEADERS);
    ColumnOf(i);
    Text.TrimIsTrimmed(row[i]);
    forall m | 0 <= m < k ensures !HasText(row, cols, names[m]) {
      ForeignHasNoColumn(names[m]);
    }
    if row[i] != "" {
      FirstTextWins(row, cols, names, 0, k);
    } else {
      NoTextReadsAs(row, cols, names, 0);
    }
  }

  lemma Foreign(s: string, i: nat)
    requires i < |s| && (s[i] == '_' || s[i] == '.' || s[i] == '%') && Text.Trimmed(s)
    ensures IsForeign(s)
  {
  }

  lemma NumeralIsTrimmed(x: Num)
    ensures Text.Trimmed(Numeral(x)) && Numeral(x) != ""
  {
    NumeralIsUnmarked(x);
  }

  lemma FileRowIsTrimmed(n: Sheet)
    ensures forall i :: 0 <= i < |HEADERS| ==> Text.Trimmed(FileRow(n)[i])
    ensures FileRow(n)[5] != "" && FileRow(n)[17] != ""
  {
    hide Numeral;
    NumeralIsTrimmed(n.amount);
    NumeralIsTrimmed(n.gstRate);
    NumeralIsTrimmed(n.tdsRate);
    NumeralIsTrimmed(n.taxable);
    if n.igst.Some? {
      NumeralIsTrimmed(n.igst.value);
    }
    if n.tds.Some? {
      NumeralIsTrimmed(n.tds.value);
    }
  }

  // The cell of the row under one of two names.
  function UnderEither(n: Sheet, first: string, second: string): string {
    Get(FileRow(n), IndexOf(HEADERS), [first, second])
  }

  lemma TwoNames(n: Sheet, first: string, at: nat, second: string, i: nat)
    requires i < |HEADERS| && second == HEADERS[i] && at < |first| && first[at] == '_' && Text.Trimmed(first)
    ensures UnderEither(n, first, second) == FileRow(n)[i]
  {
    hide FileRow, IndexOf, Get, HEADERS;
    FileRowIsTrimmed(n);
    Foreign(first, at);
    CellAt(FileRow(n), [first, second], 1, i);
  }

  lemma TaxNames(n: Sheet)
    ensures UnderEither(n, "taxable_value", "taxable value") == FileRow(n)[16]
    ensures UnderEither(n, "gst_rate", "gst rate") == FileRow(n)[7]
    ensures UnderEither(n, "igst_amount", "igst") == FileRow(n)[3]
  {
    hide FileRow, IndexOf, Get, UnderEither;
    TwoNames(n, "taxable_value", 7, "taxable value", 16);
    TwoNames(n, "gst_rate", 3, "gst rate", 7);
    TwoNames(n, "igst_amount", 4, "igst", 3);
  }

  lemma AmountNames(n: Sheet)
    ensures UnderEither(n, "cgst_amount", "cgst") == FileRow(n)[2]
    ensures UnderEither(n, "sgst_amount", "sgst") == FileRow(n)[4]
    ensures UnderEither(n, "tds_amount", "tds amount") == FileRow(n)[12]
    ensures UnderEither(n, "fund_account_id", "fund account id") == FileRow(n)[19]
  {
    hide FileRow, IndexOf, Get, UnderEither;
    TwoNames(n, "cgst_amount", 4, "cgst", 2);
    TwoNames(n, "sgst_amount", 4, "sgst", 4);
    TwoNames(n, "tds_amount", 3, "tds amount", 12);
    TwoNames(n, "fund_account_id", 4, "fund account id", 19);
  }

  lemma HeaderNames(n: Sheet)
    ensures UnderEither(n, "invoice_date", "invoice date") == FileRow(n)[14]
    ensures UnderEither(n, "vendor_gstin", "vendor gstin") == FileRow(n)[15]
    ensures UnderEither(n, "reverse_charge", "reverse charge") == FileRow(n)[18]
    ensures UnderEither(n, "gst_type", "gst type") == FileRow(n)[8]
  {
    hide FileRow, IndexOf, Get, UnderEither;
    TwoNames(n, "invoice_date", 7, "invoice date", 14);
    TwoNames(n, "vendor_gstin", 6, "vendor gstin", 15);
    TwoNames(n, "reverse_charge", 7, "reverse charge", 18);
    TwoNames(n, "gst_type", 3, "gst type", 8);
  }

  lemma NumberNames(n: Sheet)
    ensures UnderEither(n, "tds_section", "tds section") == FileRow(n)[13]
    ensures UnderEither(n, "pan_number", "pan") == FileRow(n)[1]
    ensures UnderEither(n, "kyc_status", "kyc status") == FileRow(n)[11]
  {
    hide FileRow, IndexOf, Get, UnderEither;
    TwoNames(n, "tds_section", 3, "tds section", 13);
    TwoNames(n, "pan_number", 3, "pan", 1);
    TwoNames(n, "kyc_status", 3, "kyc status", 11);
  }

  lemma KycNames(n: Sheet)
    ensures UnderEither(n, "kyc_policy_class", "kyc policy") == FileRow(n)[10]
    ensures UnderEither(n, "cin_number", "cin") == FileRow(n)[0]
    ensures UnderEither(n, "msme_number", "msme no") == FileRow(n)[6]
  {
    hide FileRow, IndexOf, Get, UnderEither;
    TwoNames(n, "kyc_policy_class", 3, "kyc policy", 10);
    TwoNames(n, "cin_number", 3, "cin", 0);
    TwoNames(n, "msme_number", 4, "msme no", 6);
  }

  lemma PaidUnder(n: Sheet)
    ensures Get(FileRow(n), IndexOf(HEADERS), ["amount.value", "amount_paid", "amount", "net payable"]) == FileRow(n)[5]
  {
    hide FileRow, IndexOf, Get;
    FileRowIsTrimmed(n);
    Foreign("amount.value", 6);
    Foreign("amount_paid", 6);
    CellAt(FileRow(n), ["amount.value", "amount_paid", "amount", "net payable"], 2, 5);
  }

  lemma TdsRateUnder(n: Sheet)
    ensures Get(FileRow(n), IndexOf(HEADERS), ["tds_rate", "tds rate %", "tds rate"]) == FileRow(n)[9]
  {
    hide FileRow, IndexOf, Get;
    FileRowIsTrimmed(n);
    Foreign("tds_rate", 3);
    Foreign("tds rate %", 9);
    CellAt(FileRow(n), ["tds_rate", "tds rate %", "tds rate"], 2, 9);
  }

  lemma AccountUnder(n: Sheet)
    ensures Get(FileRow(n), IndexOf(HEADERS),
                ["account_number", "beneficiary_account_no", "account number", "account no", ""]) == FileRow(n)[17]
  {
    hide FileRow, IndexOf, Get;
    FileRowIsTrimmed(n);
    Foreign("account_number", 7);
    Foreign("beneficiary_account_no", 11);
    CellAt(FileRow(n), ["account_number", "beneficiary_account_no", "account number", "account no", ""], 2, 17);
  }

  lemma MoneyCells(n: Sheet)
    ensures var c, row := CellsOf(FileRow(n), IndexOf(HEADERS)), FileRow(n);
            && c.amount == row[5] && c.taxable == row[16] && c.gstRate == row[7] && c.igst == row[3]
            && c.cgst == row[2] && c.sgst == row[4] && c.tdsRate == row[9] && c.tds == row[12]
            && c.account == row[17] && c.fundAccount == row[19]
  {
    hide FileRow, IndexOf, Get, HEADERS, Text.Upper, Text.Lower, Text.Trim;
    PaidUnder(n);
    TdsRateUnder(n);
    AccountUnder(n);
    TaxNames(n);
    AmountNames(n);
  }

  lemma OtherCells(n: Sheet)
    ensures var c, row := CellsOf(FileRow(n), IndexOf(HEADERS)), FileRow(n);
            && c.invoiceDate == row[14] && c.gstin == Text.Upper(Text.Trim(row[15]))
            && c.reverseCharge == Text.Lower(row[18]) && c.gstType == Text.Upper(row[8])
            && c.tdsSection == Text.Upper(row[13]) && c.pan == Text.Upper(Text.Trim(row[1]))
            && c.kycStatus == Text.Lower(row[11]) && c.kycPolicy == Text.Lower(row[10])
            && c.cin == Text.Upper(row[0]) && c.msme == Text.Upper(row[6])
  {
    hide FileRow, IndexOf, Get, HEADERS, Text.Upper, Text.Lower, Text.Trim;
    HeaderNames(n);
    NumberNames(n);
    KycNames(n);
  }

  lemma Letters()
    ensures Text.Upper(Text.Trim("")) == "" && Text.Upper("") == "" && Text.Lower("") == ""
    ensures Text.Lower("yes") == "yes" && Text.Upper("IGST") == "IGST"
  {
  }

  // The cells of this row of the file are those of the sheet.
  lemma FileRowReads(n: Sheet)
    ensures CellsOf(FileRow(n), IndexOf(HEADERS)) == RowWith(n)
  {
    hide CellsOf, IndexOf, Numeral, Text.Upper, Text.Lower, Text.Trim;
    MoneyCells(n);
    OtherCells(n);
    Letters();
  }

  // ---- Rows of a file that are accepted and far off ------------------------------------

  // Rows of a vendor file to which all checks apply come as near to 3.01 rupees as one
  // likes.
  lemma FileRowsAreSharp(slack: real) returns (row: Row)
    requires slack > 0.0
    ensures var c := CellsOf(row, IndexOf(HEADERS));
            && Accepts(READING, c) && (forall tie :: Tied(FiguresOf(READING, c), tie))
            && 3.01 - slack <= Gap(FiguresOf(READING, c)) < 3.01
  {
    hide Accepts, FiguresOf, Tied, Gap, CellsOf, IndexOf, RowWith, FileRow;
    var n := SharpSheet(slack);
    row := FileRow(n);
    FileRowReads(n);
  }

  // With any one of the ties missing, rows of a vendor file are as far off as one likes.
  lemma FileRowsNeedEachTie(tie: Tie, far: nat) returns (row: Row)
    requires far >= 2
    ensures var c := CellsOf(row, IndexOf(HEADERS));
            && Accepts(READING, c) && (forall t :: Tied(FiguresOf(READING, c), t) <==> t != tie)
            && Gap(FiguresOf(READING, c)) >= far as real
  {
    hide Accepts, FiguresOf, Tied, Gap, CellsOf, IndexOf, RowWith, FileRow;
    row := FileRow(Loose(tie, far));
    LooseRow(tie, far);
    FileRowReads(Loose(tie, far));
  }
}
