/**
  How far the payout of an accepted vendor row can be from what its taxable value
  and tax rates call for.
 */
module VendorAmounts {
  import opened Wrappers
  import opened BaseParser
  import opened ParsedRows
  import opened VendorParser
  import Text

  function Abs(x: real): real {
    if x < 0.0 then -x else x
  }

  // The gap between the payout and the taxable value plus GST less TDS.
  function Gap(n: Figures): real {
    Abs(n.amount - n.taxable * (1.0 + n.gstRate / 100.0 - n.tdsRate / 100.0))
  }

  // ---- Rounding ----------------------------------------------------------------------

  lemma RoundIsNear(x: real)
    ensures -0.5 <= Round(x) as real - x <= 0.5
    ensures x >= 0.0 ==> Round(x) as real - x > -0.5
  {
  }

  lemma ShareIsNear(amount: real, rate: real)
    requires amount * rate >= 0.0
    ensures -0.005 < Share(amount, rate) - amount * rate / 100.0 <= 0.005
  {
    RoundIsNear(amount * rate / 100.0 * 100.0);
  }

  // ---- The bound -----------------------------------------------------------------------

  // What ties the payout to the rates. Each fails for rows on which the parser
  // leaves a check out.
  datatype Tie = TaxablePositive | GstChecked | TdsChecked | AmountGiven | NetPositive

  predicate Tied(n: Figures, tie: Tie) {
    match tie
    case TaxablePositive => n.taxable > 0.0
    case GstChecked => n.gstRate == 0.0 || (!n.reverseCharge && KnownGstType(n.gstType))
    case TdsChecked => if n.tds.Some? then n.tdsRate > 0.0 else n.tdsRate == 0.0
    case AmountGiven => n.amount != 0.0
    case NetPositive => Net(n) > 0.0
  }

  // Figures a row can have: a listed GST rate, and no GST amounts where the GST
  // columns are not read.
  predicate Readable(n: Figures) {
    ValidRate(n.gstRate)
    && (!ChecksGst(n.reverseCharge, n.taxable, n.gstRate) || !KnownGstType(n.gstType) ==> n.taxes == NO_TAX)
  }

  lemma GstIsNear(n: Figures)
    requires Readable(n) && GstAgrees(n) && Tied(n, TaxablePositive) && Tied(n, GstChecked)
    ensures -1.005 < Total(n.taxes) - n.taxable * n.gstRate / 100.0 <= 1.005
  {
    assert n.taxable * n.gstRate >= 0.0;
    ShareIsNear(n.taxable, n.gstRate);
    if n.gstRate == 0.0 {
      assert n.taxable * n.gstRate == 0.0;
    }
  }

  lemma TdsIsNear(n: Figures)
    requires TdsAgrees(n) && Tied(n, TaxablePositive) && Tied(n, TdsChecked)
    ensures -1.005 < OrZero(n.tds) - n.taxable * n.tdsRate / 100.0 <= 1.005
  {
    if n.tds.Some? {
      assert n.taxable * n.tdsRate >= 0.0;
      ShareIsNear(n.taxable, n.tdsRate);
    } else {
      assert n.taxable * n.tdsRate == 0.0;
    }
  }

  // What the taxable value and the rates call for, term by term.
  lemma DueInTerms(taxable: real, gstRate: real, tdsRate: real)
    ensures taxable * (1.0 + gstRate / 100.0 - tdsRate / 100.0)
            == taxable + taxable * gstRate / 100.0 - taxable * tdsRate / 100.0
  {
  }

  // Three misses of a rupee and two of half a paisa.
  lemma MissesAddUp(amount: real, taxable: real, gst: real, tds: real, gstDue: real, tdsDue: real)
    requires Within(amount, taxable + gst - tds)
    requires -1.005 < gst - gstDue <= 1.005 && -1.005 < tds - tdsDue <= 1.005
    ensures Abs(amount - (taxable + gstDue - tdsDue)) < 3.01
  {
  }

  lemma FiguresAreNear(n: Figures)
    requires Readable(n) && FiguresAgree(n) && forall tie :: Tied(n, tie)
    ensures Gap(n) < 3.01
  {
    assert Within(n.amount, Net(n)) by {
      assert Tied(n, AmountGiven) && Tied(n, NetPositive);
    }
    assert Tied(n, TaxablePositive) && Tied(n, GstChecked) && Tied(n, TdsChecked);
    var gstDue, tdsDue := n.taxable * n.gstRate / 100.0, n.taxable * n.tdsRate / 100.0;
    assert -1.005 < Total(n.taxes) - gstDue <= 1.005 by {
      GstIsNear(n);
    }
    assert -1.005 < OrZero(n.tds) - tdsDue <= 1.005 by {
      TdsIsNear(n);
    }
    MissesAddUp(n.amount, n.taxable, Total(n.taxes), OrZero(n.tds), gstDue, tdsDue);
    GapInTerms(n);
  }

  lemma GapInTerms(n: Figures)
    ensures Gap(n) == Abs(n.amount - (n.taxable + n.taxable * n.gstRate / 100.0 - n.taxable * n.tdsRate / 100.0))
  {
    DueInTerms(n.taxable, n.gstRate, n.tdsRate);
  }

  lemma AcceptedIsReadable(f: Formats, c: Cells)
    requires NumbersReadable(f, c)
    ensures Readable(FiguresOf(f, c))
  {
    var n := FiguresOf(f, c);
    assert RateRight(f, c.gstRate);
    assert ValidRate(n.gstRate);
    assert TaxesOf(f, c).Some?;
  }

  // The three checks of one rupee and two roundings of half a paisa add up: an
  // accepted row that is tied pays within 3.01 rupees of its rates.
  lemma AcceptedRowsPayTheirRates(f: Formats, c: Cells)
    requires Accepts(f, c) && forall tie :: Tied(FiguresOf(f, c), tie)
    ensures Gap(FiguresOf(f, c)) < 3.01
  {
    var n := FiguresOf(f, c);
    AcceptedIsReadable(f, c);
    FiguresAreNear(n);
  }

  // ---- Columns that are not there ------------------------------------------------------------

  // The row has no text under any of these names, and no column of the last name.
  ghost predicate Blank(row: Row, cols: Columns, names: seq<string>) {
    && |names| > 1 && (forall k :: 0 <= k < |names| ==> !HasText(row, cols, names[k]))
    && !BaseParser.Readable(row, cols, names[|names| - 1])
  }

  const TAXABLE := ["taxable_value", "taxable value"]
  const GST_RATE := ["gst_rate", "gst rate"]
  const TDS_RATE := ["tds_rate", "tds rate %", "tds rate"]
  const TDS := ["tds_amount", "tds amount"]

  lemma BlankReadsAsName(row: Row, cols: Columns, names: seq<string>)
    requires Blank(row, cols, names)
    ensures Get(row, cols, names) == names[|names| - 1] && names[|names| - 1] in names
  {
    NoTextReadsAs(row, cols, names, 0);
  }

  lemma NumberCells(row: Row, cols: Columns)
    ensures var c := CellsOf(row, cols);
            c.taxable == Get(row, cols, TAXABLE) && c.gstRate == Get(row, cols, GST_RATE)
            && c.tdsRate == Get(row, cols, TDS_RATE) && c.tds == Get(row, cols, TDS)
  {
  }

  // When a file has no column of the alternative name for the taxable value, a
  // rate or the TDS amount, a row that leaves the number blank is refused: the
  // alternative name itself is then read as the number.
  lemma BlankNumberRefusesRow(f: Formats, row: Row, cols: Columns, names: seq<string>)
    requires names == TAXABLE || names == GST_RATE || names == TDS_RATE || names == TDS
    requires Blank(row, cols, names) && forall name <- names :: name != "" && f.amountOf(name).None?
    ensures !Accepts(f, CellsOf(row, cols))
  {
    NumberCells(row, cols);
    BlankReadsAsName(row, cols, names);
    UnreadableNumberRefuses(f, CellsOf(row, cols), names[|names| - 1]);
  }

  lemma UnreadableNumberRefuses(f: Formats, c: Cells, text: string)
    requires text != "" && f.amountOf(text).None?
    requires c.taxable == text || c.gstRate == text || c.tdsRate == text || c.tds == text
    ensures !Accepts(f, c)
  {
  }

  // The identifiers, as they are looked up when nothing is there.
  datatype Identifier = InvoiceDate | Gstin | TdsSection | Pan | Msme

  function Names(i: Identifier): seq<string> {
    match i
    case InvoiceDate => ["invoice_date", "invoice date"]
    case Gstin => ["vendor_gstin", "vendor gstin"]
    case TdsSection => ["tds_section", "tds section"]
    case Pan => ["pan_number", "pan"]
    case Msme => ["msme_number", "msme no"]
  }

  // None of the names passes for an identifier.
  predicate NamesAreNoIdentifiers(f: Formats) {
    !f.isDate("invoice date") && !f.isGstin("VENDOR GSTIN") && !f.isPan("PAN") && !f.isMsme("MSME NO")
  }

  lemma IdentifierCells(row: Row, cols: Columns)
    ensures var c := CellsOf(row, cols);
            && c.invoiceDate == Get(row, cols, Names(InvoiceDate))
            && c.gstin == Text.Upper(Text.Trim(Get(row, cols, Names(Gstin))))
            && c.tdsSection == Text.Upper(Get(row, cols, Names(TdsSection)))
            && c.pan == Text.Upper(Text.Trim(Get(row, cols, Names(Pan))))
            && c.msme == Text.Upper(Get(row, cols, Names(Msme)))
  {
  }

  lemma NamesInCapitals()
    ensures Text.Upper(Text.Trim("vendor gstin")) == "VENDOR GSTIN" && Text.Upper("tds section") == "TDS SECTION"
    ensures Text.Upper(Text.Trim("pan")) == "PAN" && Text.Upper("msme no") == "MSME NO"
  {
    InCapitals("vendor gstin", "VENDOR GSTIN");
    InCapitals("tds section", "TDS SECTION");
    InCapitals("pan", "PAN");
    InCapitals("msme no", "MSME NO");
    Text.TrimIsTrimmed("vendor gstin");
    Text.TrimIsTrimmed("pan");
  }

  lemma InCapitals(s: string, t: string)
    requires |s| == |t| && forall i :: 0 <= i < |s| ==> Text.UpperChar(s[i]) == t[i]
    ensures Text.Upper(s) == t
  {
  }

  // The same for identifiers that are optional: without a column of the alternative
  // name a row that leaves the date, the GSTIN, the TDS section, the PAN or the MSME
  // number blank is refused.
  lemma BlankIdentifierRefusesRow(f: Formats, row: Row, cols: Columns, i: Identifier)
    requires NamesAreNoIdentifiers(f) && Blank(row, cols, Names(i))
    ensures !Accepts(f, CellsOf(row, cols))
  {
    hide CellsOf, Get, Blank, NumbersReadable, FiguresAgree, KycRight;
    IdentifierCells(row, cols);
    BlankReadsAsName(row, cols, Names(i));
    NamesInCapitals();
  }

  const FUND_ACCOUNT := ["fund_account_id", "fund account id"]

  lemma FundAccountCell(row: Row, cols: Columns)
    ensures CellsOf(row, cols).fundAccount == Get(row, cols, FUND_ACCOUNT)
  {
  }

  // The row has no text under any of these names, but a column of the last name.
  ghost predicate LeftOut(row: Row, cols: Columns, names: seq<string>) {
    && |names| > 1 && (forall k :: 0 <= k < |names| ==> !HasText(row, cols, names[k]))
    && BaseParser.Readable(row, cols, names[|names| - 1])
  }

  lemma FirstWithText(row: Row, cols: Columns, names: seq<string>, k: nat) returns (first: nat)
    requires k < |names| && HasText(row, cols, names[k])
    ensures first < |names| && HasText(row, cols, names[first])
    ensures forall i :: 0 <= i < first ==> !HasText(row, cols, names[i])
    decreases k
  {
    if i :| 0 <= i < k && HasText(row, cols, names[i]) {
      first := FirstWithText(row, cols, names, i);
    } else {
      first := k;
    }
  }

  // A cell reads as empty exactly when it is left out in a file that has the column.
  lemma EmptyIff(row: Row, cols: Columns, names: seq<string>)
    requires |names| > 1 && names[|names| - 1] != "" && !Text.IsSpace(names[|names| - 1][0])
    ensures Get(row, cols, names) == "" <==> LeftOut(row, cols, names)
    ensures Get(row, cols, names) != "" ==> Text.Trim(Get(row, cols, names)) != ""
  {
    hide Text.Trim;
    if k :| 0 <= k < |names| && HasText(row, cols, names[k]) {
      var first := FirstWithText(row, cols, names, k);
      FirstTextWins(row, cols, names, 0, first);
      CellIsTrimmed(row, cols, names[first]);
    } else {
      NoTextReadsAs(row, cols, names, 0);
      Text.TrimKeeps(names[|names| - 1]);
    }
  }

  lemma CellIsTrimmed(row: Row, cols: Columns, name: string)
    requires BaseParser.Readable(row, cols, name)
    ensures Text.Trim(CellUnder(row, cols, name)) == CellUnder(row, cols, name)
  {
    Text.TrimIsTrimmed(row[cols[Normal(name)]]);
  }

  // The other half: these optional numbers count as not given exactly when they are
  // left out in a file that has the column of the alternative name ...
  lemma NumberIsEmptyIff(row: Row, cols: Columns)
    ensures var c := CellsOf(row, cols);
            && (c.taxable == "" <==> LeftOut(row, cols, TAXABLE))
            && (c.gstRate == "" <==> LeftOut(row, cols, GST_RATE))
            && (c.tdsRate == "" <==> LeftOut(row, cols, TDS_RATE))
            && (c.tds == "" <==> LeftOut(row, cols, TDS))
  {
    hide CellsOf, Get, LeftOut, Text.Trim;
    NumberCells(row, cols);
    EmptyIff(row, cols, TAXABLE);
    EmptyIff(row, cols, GST_RATE);
    EmptyIff(row, cols, TDS_RATE);
    EmptyIff(row, cols, TDS);
  }

  // The cell an identifier is checked in.
  function IdentifierCell(c: Cells, i: Identifier): string {
    match i
    case InvoiceDate => c.invoiceDate
    case Gstin => c.gstin
    case TdsSection => c.tdsSection
    case Pan => c.pan
    case Msme => c.msme
  }

  // ... and so do these identifiers.
  lemma IdentifierIsEmptyIff(row: Row, cols: Columns, i: Identifier)
    ensures IdentifierCell(CellsOf(row, cols), i) == "" <==> LeftOut(row, cols, Names(i))
  {
    hide CellsOf, Get, LeftOut, Text.Trim;
    IdentifierCells(row, cols);
    EmptyIff(row, cols, Names(i));
    NothingToTrim();
  }

  lemma NothingToTrim()
    ensures Text.Trim("") == ""
  {
  }

  // A missing fund account is noticed exactly in a file that has a column named "fund
  // account id"; without it every row passes for having one.
  lemma AccountIsMissedIff(row: Row, cols: Columns)
    ensures CellsOf(row, cols).fundAccount == "" <==> LeftOut(row, cols, FUND_ACCOUNT)
  {
    hide CellsOf, Get, LeftOut, Text.Trim;
    FundAccountCell(row, cols);
    EmptyIff(row, cols, FUND_ACCOUNT);
  }

  lemma AccountIsNeverMissed(row: Row, cols: Columns)
    requires !BaseParser.Readable(row, cols, "fund account id")
    ensures CellsOf(row, cols).fundAccount != ""
  {
    hide CellsOf;
    AccountIsMissedIff(row, cols);
  }
}
