/**
  Reading vendor payout rows: which rows are accepted, and the rupee figures of
  an accepted row. Amounts are reals.
 */
module VendorParser {
  import opened Wrappers
  import opened BaseParser
  import opened ParsedRows
  import Text

  const TOLERANCE := 1.0

  // How amounts, dates and registration numbers are read.
  datatype Formats = Formats(
    amountOf: string -> Option<real>,
    isDate: string -> bool,
    isGstin: string -> bool,
    isPan: string -> bool,
    isCin: string -> bool,
    isMsme: string -> bool)

  // The cells of a row that the checks look at.
  datatype Cells = Cells(
    amount: string, invoiceDate: string, gstin: string, reverseCharge: string, taxable: string,
    gstRate: string, gstType: string, igst: string, cgst: string, sgst: string,
    tdsSection: string, pan: string, tdsRate: string, tds: string,
    kycStatus: string, kycPolicy: string, cin: string, msme: string,
    account: string, fundAccount: string)

  datatype Taxes = Taxes(igst: real, cgst: real, sgst: real)

  const NO_TAX := Taxes(0.0, 0.0, 0.0)

  // The figures of a row; `tds` is None when the row gives no TDS amount.
  datatype Figures = Figures(
    amount: real, reverseCharge: bool, taxable: real, gstRate: real, gstType: string, taxes: Taxes,
    tdsRate: real, tds: Option<real>)

  function CellsOf(row: seq<string>, cols: Columns): Cells {
    Cells(
      Get(row, cols, ["amount.value", "amount_paid", "amount", "net payable"]),
      Get(row, cols, ["invoice_date", "invoice date"]),
      Text.Upper(Text.Trim(Get(row, cols, ["vendor_gstin", "vendor gstin"]))),
      Text.Lower(Get(row, cols, ["reverse_charge", "reverse charge"])),
      Get(row, cols, ["taxable_value", "taxable value"]),
      Get(row, cols, ["gst_rate", "gst rate"]),
      Text.Upper(Get(row, cols, ["gst_type", "gst type"])),
      Get(row, cols, ["igst_amount", "igst"]),
      Get(row, cols, ["cgst_amount", "cgst"]),
      Get(row, cols, ["sgst_amount", "sgst"]),
      Text.Upper(Get(row, cols, ["tds_section", "tds section"])),
      Text.Upper(Text.Trim(Get(row, cols, ["pan_number", "pan"]))),
      Get(row, cols, ["tds_rate", "tds rate %", "tds rate"]),
      Get(row, cols, ["tds_amount", "tds amount"]),
      Text.Lower(Get(row, cols, ["kyc_status", "kyc status"])),
      Text.Lower(Get(row, cols, ["kyc_policy_class", "kyc policy"])),
      Text.Upper(Get(row, cols, ["cin_number", "cin"])),
      Text.Upper(Get(row, cols, ["msme_number", "msme no"])),
      Get(row, cols, ["account_number", "beneficiary_account_no", "account number", "account no", ""]),
      Get(row, cols, ["fund_account_id", "fund account id"]))
  }

  // ---- Rounding -------------------------------------------------------------------------

  // To the nearest integer, halves away from zero.
  function Round(x: real): int {
    if x >= 0.0 then (x + 0.5).Floor else -(0.5 - x).Floor
  }

  // A percentage of an amount, rounded to the paisa.
  function Share(amount: real, rate: real): real {
    Round(amount * rate / 100.0 * 100.0) as real / 100.0
  }

  predicate Within(x: real, y: real) {
    -TOLERANCE <= x - y <= TOLERANCE
  }

  // ---- What is accepted --------------------------------------------------------------------

  // A number that may be left out.
  function Optional(f: Formats, text: string): Option<real> {
    if text == "" then Some(0.0) else f.amountOf(text)
  }

  function OrZero(x: Option<real>): real {
    if x.Some? then x.value else 0.0
  }

  predicate IsYes(text: string) {
    text == "yes" || text == "true" || text == "y"
  }

  predicate ValidRate(rate: real) {
    rate == 0.0 || rate == 5.0 || rate == 12.0 || rate == 18.0 || rate == 28.0
  }

  predicate RateRight(f: Formats, text: string) {
    text == "" || (f.amountOf(text).Some? && ValidRate(f.amountOf(text).value))
  }

  function RateOf(f: Formats, text: string): real {
    if RateRight(f, text) then OrZero(Optional(f, text)) else 0.0
  }

  // The GST columns are read and checked only in these cases.
  predicate ChecksGst(reverse: bool, taxable: real, rate: real) {
    !reverse && taxable > 0.0 && rate > 0.0
  }

  // The GST of a row whose GST is checked; None when it cannot be read.
  function ReadTaxes(f: Formats, c: Cells): Option<Taxes> {
    if c.gstType == "IGST" then
      var igst := f.amountOf(c.igst);
      if igst.Some? then Some(Taxes(igst.value, 0.0, 0.0)) else None
    else if c.gstType == "CGST_SGST" then
      var cgst, sgst := f.amountOf(c.cgst), f.amountOf(c.sgst);
      if cgst.Some? && sgst.Some? then Some(Taxes(0.0, cgst.value, sgst.value)) else None
    else Some(NO_TAX)
  }

  function Total(t: Taxes): real {
    t.igst + t.cgst + t.sgst
  }

  predicate KnownGstType(gstType: string) {
    gstType == "IGST" || gstType == "CGST_SGST"
  }

  function TaxesOf(f: Formats, c: Cells): Option<Taxes> {
    if ChecksGst(IsYes(c.reverseCharge), OrZero(Optional(f, c.taxable)), RateOf(f, c.gstRate)) then ReadTaxes(f, c)
    else Some(NO_TAX)
  }

  function FiguresOf(f: Formats, c: Cells): Figures {
    Figures(OrZero(f.amountOf(c.amount)), IsYes(c.reverseCharge), OrZero(Optional(f, c.taxable)),
            RateOf(f, c.gstRate), c.gstType, if TaxesOf(f, c).Some? then TaxesOf(f, c).value else NO_TAX,
            OrZero(Optional(f, c.tdsRate)), if c.tds == "" then None else f.amountOf(c.tds))
  }

  predicate GstAgrees(n: Figures) {
    ChecksGst(n.reverseCharge, n.taxable, n.gstRate) && KnownGstType(n.gstType) ==>
      Within(Total(n.taxes), Share(n.taxable, n.gstRate))
  }

  predicate TdsAgrees(n: Figures) {
    n.tds.Some? && n.taxable > 0.0 && n.tdsRate > 0.0 ==> Within(n.tds.value, Share(n.taxable, n.tdsRate))
  }

  function Net(n: Figures): real {
    n.taxable + Total(n.taxes) - OrZero(n.tds)
  }

  predicate NetAgrees(n: Figures) {
    n.amount != 0.0 && Net(n) > 0.0 ==> Within(n.amount, Net(n))
  }

  predicate FiguresAgree(n: Figures) {
    GstAgrees(n) && TdsAgrees(n) && NetAgrees(n)
  }

  // Every number in the row can be read.
  predicate NumbersReadable(f: Formats, c: Cells) {
    && f.amountOf(c.amount).Some?
    && Optional(f, c.taxable).Some? && RateRight(f, c.gstRate) && TaxesOf(f, c).Some?
    && Optional(f, c.tdsRate).Some? && Optional(f, c.tds).Some?
  }

  predicate ValidSection(section: string) {
    section == "192" || section == "194C" || section == "194J" || section == "194H" || section == "194I"
    || section == "194A"
  }

  predicate IdentifiersRight(f: Formats, c: Cells) {
    && (c.invoiceDate == "" || f.isDate(c.invoiceDate))
    && (c.gstin == "" || f.isGstin(c.gstin))
    && (c.tdsSection == "" || ValidSection(c.tdsSection))
    && (c.pan == "" || f.isPan(c.pan))
    && (c.msme == "" || f.isMsme(c.msme))
    && (c.account != "" || c.fundAccount != "")
  }

  predicate KycRight(f: Formats, c: Cells) {
    && c.kycStatus != "suspended"
    && (c.kycPolicy == "enhanced" ==> c.pan != "" && c.gstin != "" && c.cin != "" && f.isCin(c.cin))
    && (c.kycPolicy == "standard" ==> c.pan != "" && c.gstin != "")
    && (c.kycPolicy == "simplified" ==> c.pan != "")
  }

  predicate Accepts(f: Formats, c: Cells) {
    NumbersReadable(f, c) && IdentifiersRight(f, c) && FiguresAgree(FiguresOf(f, c)) && KycRight(f, c)
  }

  // ---- The parser ----------------------------------------------------------------------------

  // An error when the condition fails.
  method Demand(ok: bool, rowNum: nat, field: string) returns (errs: seq<RowError>)
    ensures AllAt(errs, rowNum) && (errs == [] <==> ok)
  {
    errs := if ok then [] else [RowError(rowNum, field)];
  }

  method ReadNumber(f: Formats, text: string, rowNum: nat, field: string) returns (x: real, errs: seq<RowError>)
    ensures AllAt(errs, rowNum) && (errs == [] <==> Optional(f, text).Some?)
    ensures x == OrZero(Optional(f, text))
  {
    x, errs := 0.0, [];
    if text != "" {
      var parsed := f.amountOf(text);
      if parsed.None? {
        errs := [RowError(rowNum, field)];
      } else {
        x := parsed.value;
      }
    }
  }

  method ReadGst(f: Formats, c: Cells, taxable: real, rate: real, rowNum: nat)
    returns (taxes: Taxes, errs: seq<RowError>)
    ensures AllAt(errs, rowNum)
    ensures errs == [] <==>
            ReadTaxes(f, c).Some? && (KnownGstType(c.gstType) ==> Within(Total(ReadTaxes(f, c).value), Share(taxable, rate)))
    ensures ReadTaxes(f, c).Some? ==> taxes == ReadTaxes(f, c).value
  {
    taxes, errs := NO_TAX, [];
    var expected := Share(taxable, rate);
    if c.gstType == "IGST" {
      var igst := f.amountOf(c.igst);
      if igst.None? {
        errs := [RowError(rowNum, "igst_amount")];
      } else {
        taxes := Taxes(igst.value, 0.0, 0.0);
        errs := Demand(Within(igst.value, expected), rowNum, "igst_amount");
      }
    } else if c.gstType == "CGST_SGST" {
      var cgst := f.amountOf(c.cgst);
      var sgst := f.amountOf(c.sgst);
      if cgst.None? {
        errs := errs + [RowError(rowNum, "cgst_amount")];
      }
      if sgst.None? {
        errs := errs + [RowError(rowNum, "sgst_amount")];
      }
      if cgst.Some? && sgst.Some? {
        taxes := Taxes(0.0, cgst.value, sgst.value);
        errs := Demand(Within(cgst.value + sgst.value, expected), rowNum, "cgst_amount");
      }
    }
  }

  method ReadTds(f: Formats, c: Cells, taxable: real, tdsRate: real, rowNum: nat)
    returns (tds: Option<real>, errs: seq<RowError>)
    ensures AllAt(errs, rowNum)
    ensures errs == [] <==>
            Optional(f, c.tds).Some?
            && (c.tds != "" && taxable > 0.0 && tdsRate > 0.0 ==> Within(OrZero(Optional(f, c.tds)), Share(taxable, tdsRate)))
    ensures tds == if c.tds == "" then None else f.amountOf(c.tds)
  {
    tds, errs := None, [];
    if c.tds != "" {
      tds := f.amountOf(c.tds);
      if tds.None? {
        errs := [RowError(rowNum, "tds_amount")];
      } else if taxable > 0.0 && tdsRate > 0.0 {
        errs := Demand(Within(tds.value, Share(taxable, tdsRate)), rowNum, "tds_amount");
      }
    }
  }

  method CheckNet(amount: real, net: real, rowNum: nat) returns (errs: seq<RowError>)
    ensures AllAt(errs, rowNum) && (errs == [] <==> (amount != 0.0 && net > 0.0 ==> Within(amount, net)))
  {
    errs := [];
    if amount != 0.0 && net > 0.0 {
      errs := Demand(Within(amount, net), rowNum, "amount");
    }
  }

  // The figures of the row, with an error for each that cannot be read or that
  // disagrees with the others.
  method ReadFigures(f: Formats, c: Cells, rowNum: nat) returns (n: Figures, errs: seq<RowError>)
    ensures AllAt(errs, rowNum)
    ensures errs == [] <==> NumbersReadable(f, c) && FiguresAgree(FiguresOf(f, c))
    ensures errs == [] ==> n == FiguresOf(f, c)
  {
    var amount := f.amountOf(c.amount);
    var amountErrs := Demand(amount.Some?, rowNum, "amount");
    var taxable, taxableErrs := ReadNumber(f, c.taxable, rowNum, "taxable_value");
    var gstRateErrs := Demand(RateRight(f, c.gstRate), rowNum, "gst_rate");
    var rate, reverse := RateOf(f, c.gstRate), IsYes(c.reverseCharge);
    var taxes, gstErrs := NO_TAX, [];
    if ChecksGst(reverse, taxable, rate) {
      taxes, gstErrs := ReadGst(f, c, taxable, rate, rowNum);
    }
    var tdsRate, tdsRateErrs := ReadNumber(f, c.tdsRate, rowNum, "tds_rate");
    var tds, tdsErrs := ReadTds(f, c, taxable, tdsRate, rowNum);
    n := Figures(OrZero(amount), reverse, taxable, rate, c.gstType, taxes, tdsRate, tds);
    var netErrs := CheckNet(n.amount, Net(n), rowNum);
    errs := amountErrs + taxableErrs + gstRateErrs + gstErrs + tdsRateErrs + tdsErrs + netErrs;
  }

  method CheckIdentifiers(f: Formats, c: Cells, rowNum: nat) returns (errs: seq<RowError>)
    ensures AllAt(errs, rowNum) && (errs == [] <==> IdentifiersRight(f, c))
  {
    errs := Demand(c.invoiceDate == "" || f.isDate(c.invoiceDate), rowNum, "invoice_date");
    var more := Demand(c.gstin == "" || f.isGstin(c.gstin), rowNum, "vendor_gstin");
    errs := errs + more;
    more := Demand(c.tdsSection == "" || ValidSection(c.tdsSection), rowNum, "tds_section");
    errs := errs + more;
    more := Demand(c.pan == "" || f.isPan(c.pan), rowNum, "pan_number");
    errs := errs + more;
    more := Demand(c.msme == "" || f.isMsme(c.msme), rowNum, "msme_number");
    errs := errs + more;
    more := Demand(c.account != "" || c.fundAccount != "", rowNum, "account_number");
    errs := errs + more;
  }

  method CheckKyc(f: Formats, c: Cells, rowNum: nat) returns (errs: seq<RowError>)
    ensures AllAt(errs, rowNum) && (errs == [] <==> KycRight(f, c))
  {
    if c.kycStatus == "suspended" {
      return [RowError(rowNum, "kyc_status")];
    }
    errs := [];
    if c.kycPolicy == "enhanced" || c.kycPolicy == "standard" || c.kycPolicy == "simplified" {
      errs := Demand(c.pan != "", rowNum, "pan_number");
    }
    if c.kycPolicy == "enhanced" || c.kycPolicy == "standard" {
      var more := Demand(c.gstin != "", rowNum, "vendor_gstin");
      errs := errs + more;
    }
    if c.kycPolicy == "enhanced" {
      var more := Demand(c.cin != "" && f.isCin(c.cin), rowNum, "cin_number");
      errs := errs + more;
    }
  }

  method ParseRow(f: Formats, rowNum: nat, row: seq<string>, cols: Columns) returns (shape: Shape<Figures>, errs: seq<RowError>)
    ensures AllAt(errs, rowNum)
    ensures errs == [] <==> Accepts(f, CellsOf(row, cols))
    ensures errs == [] ==> shape == Shape(RowRef(rowNum), FiguresOf(f, CellsOf(row, cols)))
  {
    var c := CellsOf(row, cols);
    var figures, figureErrs := ReadFigures(f, c, rowNum);
    var identifierErrs := CheckIdentifiers(f, c, rowNum);
    var kycErrs := CheckKyc(f, c, rowNum);
    errs := figureErrs + identifierErrs + kycErrs;
    shape := Shape(RowRef(rowNum), figures);
  }

  // ---- The file -------------------------------------------------------------------------------

  function Amounts(decimalOf: DecimalOf): string -> Option<real> {
    text => ParseAmount(decimalOf, text)
  }

  function Judged(f: Formats, cols: Columns): Judge<Figures> {
    row => if Accepts(f, CellsOf(row, cols)) then Some(FiguresOf(f, CellsOf(row, cols))) else None
  }

  method ParseRows(f: Formats, rows: seq<Row>, cols: Columns, ghost judge: Judge<Figures>)
    returns (shapes: seq<Shape<Figures>>, errs: seq<RowError>)
    requires judge == Judged(f, cols)
    ensures Parsed(judge, rows, shapes, errs)
  {
    hide Accepts, CellsOf, FiguresOf;
    shapes, errs := [], [];
    for i := 0 to |rows|
      invariant Parsed(judge, rows[..i], shapes, errs)
    {
      var shape, rowErrs := ParseRow(f, i + 1, rows[i], cols);
      ParsedSnoc(judge, rows[..i], shapes, errs, rows[i], rowErrs);
      assert rows[..i + 1] == rows[..i] + [rows[i]];
      if |rowErrs| > 0 {
        errs := errs + rowErrs;
      } else {
        shapes := shapes + [shape];
      }
    }
    assert rows[..|rows|] == rows;
  }

  method Parse(f: Formats, rows: seq<Row>, headers: Row) returns (shapes: seq<Shape<Figures>>, errs: seq<RowError>)
    ensures Parsed(Judged(f, IndexOf(headers)), rows, shapes, errs)
  {
    var colIndex := BuildColIndex(headers);
    shapes, errs := ParseRows(f, rows, colIndex, Judged(f, colIndex));
  }
}
