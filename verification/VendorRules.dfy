/** The rules of a vendor row in plain terms: rates, sections, papers and reverse charge. */
module VendorRules {
  import opened Wrappers
  import opened BaseParser
  import opened VendorParser
  import opened VendorAmounts
  import Text

  // A GST rate is left out or one of five; a TDS section is left out or one of six.
  lemma ListedRatesAndSections(f: Formats, c: Cells)
    requires Accepts(f, c)
    ensures c.gstRate != "" ==> f.amountOf(c.gstRate).Some? && f.amountOf(c.gstRate).value in {0.0, 5.0, 12.0, 18.0, 28.0}
    ensures c.tdsSection in {"", "192", "194C", "194J", "194H", "194I", "194A"}
  {
    assert RateRight(f, c.gstRate) && IdentifiersRight(f, c);
  }

  // Any of them does: a row with one listed section is right with any other.
  lemma AnySectionDoes(f: Formats, c: Cells, section: string)
    requires IdentifiersRight(f, c) && section in {"", "192", "194C", "194J", "194H", "194I", "194A"}
    ensures IdentifiersRight(f, c.(tdsSection := section))
  {
  }

  lemma AnyRateIsRead(f: Formats, text: string)
    requires f.amountOf(text).Some? && f.amountOf(text).value in {0.0, 5.0, 12.0, 18.0, 28.0}
    ensures RateRight(f, text) && (text != "" ==> RateOf(f, text) == f.amountOf(text).value)
  {
  }

  // Under a reverse charge, said as "yes", "true" or "y", and where there is no taxable
  // value or no rate: whatever the GST columns say, the row is accepted or not all the
  // same, and no GST is in its figures.
  lemma GstIsIgnored(f: Formats, c: Cells, gstType: string, igst: string, cgst: string, sgst: string)
    requires c.reverseCharge in {"yes", "true", "y"} || OrZero(Optional(f, c.taxable)) <= 0.0 || RateOf(f, c.gstRate) <= 0.0
    ensures var c' := c.(gstType := gstType, igst := igst, cgst := cgst, sgst := sgst);
            && (Accepts(f, c') <==> Accepts(f, c))
            && FiguresOf(f, c') == FiguresOf(f, c).(gstType := gstType)
            && FiguresOf(f, c).taxes == Taxes(0.0, 0.0, 0.0)
  {
  }

  // Otherwise the GST columns count: the GST of an accepted
  // row is within a rupee and half a paisa of its rate.
  lemma OtherwiseGstIsChecked(f: Formats, c: Cells)
    requires Accepts(f, c) && c.reverseCharge !in {"yes", "true", "y"} && c.gstType in {"IGST", "CGST_SGST"}
    requires var n := FiguresOf(f, c); n.taxable > 0.0 && n.gstRate > 0.0
    ensures var n := FiguresOf(f, c);
            -1.005 < n.taxes.igst + n.taxes.cgst + n.taxes.sgst - n.taxable * n.gstRate / 100.0 <= 1.005
  {
    var n := FiguresOf(f, c);
    AcceptedIsReadable(f, c);
    assert Tied(n, TaxablePositive) && Tied(n, GstChecked);
    GstIsNear(n);
  }

  // The papers a policy asks for. A stricter policy asks for all that a laxer one does,
  // and a suspended vendor has the right papers under none.
  datatype Paper = PanPaper | GstinPaper | CinPaper

  function PapersFor(policy: string): set<Paper> {
    if policy == "enhanced" then {PanPaper, GstinPaper, CinPaper}
    else if policy == "standard" then {PanPaper, GstinPaper}
    else if policy == "simplified" then {PanPaper}
    else {}
  }

  predicate HasPaper(f: Formats, c: Cells, p: Paper) {
    match p
    case PanPaper => c.pan != ""
    case GstinPaper => c.gstin != ""
    case CinPaper => c.cin != "" && f.isCin(c.cin)
  }

  lemma PapersDecide(f: Formats, c: Cells)
    ensures KycRight(f, c) <==> c.kycStatus != "suspended" && forall p <- PapersFor(c.kycPolicy) :: HasPaper(f, c, p)
    ensures PapersFor("simplified") <= PapersFor("standard") <= PapersFor("enhanced")
  {
    assert PanPaper in PapersFor("simplified") && PanPaper in PapersFor("standard") && PanPaper in PapersFor("enhanced");
    assert GstinPaper in PapersFor("standard") && GstinPaper in PapersFor("enhanced") && CinPaper in PapersFor("enhanced");
  }

  // ---- Columns ---------------------------------------------------------------------------

  lemma FirstName(row: seq<string>, cols: Columns, names: seq<string>)
    requires names != []
    ensures HasText(row, cols, names[0]) ==> Get(row, cols, names) == CellUnder(row, cols, names[0])
  {
    if HasText(row, cols, names[0]) {
      FirstTextWins(row, cols, names, 0, 0);
    }
  }

  // A row with text under a column's own name has that text, without blanks, as its cell;
  // identifiers and GST types in capitals, yes-or-no and policy cells in small letters.
  lemma OwnColumnsAreRead(row: seq<string>, cols: Columns)
    ensures var c := CellsOf(row, cols);
            && (HasText(row, cols, "amount.value") ==> c.amount == CellUnder(row, cols, "amount.value"))
            && (HasText(row, cols, "invoice_date") ==> c.invoiceDate == CellUnder(row, cols, "invoice_date"))
            && (HasText(row, cols, "vendor_gstin") ==> c.gstin == Text.Upper(Text.Trim(CellUnder(row, cols, "vendor_gstin"))))
            && (HasText(row, cols, "reverse_charge") ==> c.reverseCharge == Text.Lower(CellUnder(row, cols, "reverse_charge")))
            && (HasText(row, cols, "taxable_value") ==> c.taxable == CellUnder(row, cols, "taxable_value"))
            && (HasText(row, cols, "gst_rate") ==> c.gstRate == CellUnder(row, cols, "gst_rate"))
            && (HasText(row, cols, "gst_type") ==> c.gstType == Text.Upper(CellUnder(row, cols, "gst_type")))
            && (HasText(row, cols, "igst_amount") ==> c.igst == CellUnder(row, cols, "igst_amount"))
            && (HasText(row, cols, "cgst_amount") ==> c.cgst == CellUnder(row, cols, "cgst_amount"))
            && (HasText(row, cols, "sgst_amount") ==> c.sgst == CellUnder(row, cols, "sgst_amount"))
            && (HasText(row, cols, "tds_section") ==> c.tdsSection == Text.Upper(CellUnder(row, cols, "tds_section")))
            && (HasText(row, cols, "pan_number") ==> c.pan == Text.Upper(Text.Trim(CellUnder(row, cols, "pan_number"))))
            && (HasText(row, cols, "tds_rate") ==> c.tdsRate == CellUnder(row, cols, "tds_rate"))
            && (HasText(row, cols, "tds_amount") ==> c.tds == CellUnder(row, cols, "tds_amount"))
            && (HasText(row, cols, "kyc_status") ==> c.kycStatus == Text.Lower(CellUnder(row, cols, "kyc_status")))
            && (HasText(row, cols, "kyc_policy_class") ==> c.kycPolicy == Text.Lower(CellUnder(row, cols, "kyc_policy_class")))
            && (HasText(row, cols, "cin_number") ==> c.cin == Text.Upper(CellUnder(row, cols, "cin_number")))
            && (HasText(row, cols, "msme_number") ==> c.msme == Text.Upper(CellUnder(row, cols, "msme_number")))
            && (HasText(row, cols, "account_number") ==> c.account == CellUnder(row, cols, "account_number"))
            && (HasText(row, cols, "fund_account_id") ==> c.fundAccount == CellUnder(row, cols, "fund_account_id"))
  {
    hide Get, HasText, CellUnder, Text.Upper, Text.Lower, Text.Trim;
    FirstName(row, cols, ["amount.value", "amount_paid", "amount", "net payable"]);
    FirstName(row, cols, ["invoice_date", "invoice date"]);
    FirstName(row, cols, ["vendor_gstin", "vendor gstin"]);
    FirstName(row, cols, ["reverse_charge", "reverse charge"]);
    FirstName(row, cols, ["taxable_value", "taxable value"]);
    FirstName(row, cols, ["gst_rate", "gst rate"]);
    FirstName(row, cols, ["gst_type", "gst type"]);
    FirstName(row, cols, ["igst_amount", "igst"]);
    FirstName(row, cols, ["cgst_amount", "cgst"]);
    FirstName(row, cols, ["sgst_amount", "sgst"]);
    FirstName(row, cols, ["tds_section", "tds section"]);
    FirstName(row, cols, ["pan_number", "pan"]);
    FirstName(row, cols, ["tds_rate", "tds rate %", "tds rate"]);
    FirstName(row, cols, ["tds_amount", "tds amount"]);
    FirstName(row, cols, ["kyc_status", "kyc status"]);
    FirstName(row, cols, ["kyc_policy_class", "kyc policy"]);
    FirstName(row, cols, ["cin_number", "cin"]);
    FirstName(row, cols, ["msme_number", "msme no"]);
    FirstName(row, cols, ["account_number", "beneficiary_account_no", "account number", "account no", ""]);
    FirstName(row, cols, ["fund_account_id", "fund account id"]);
  }
}
