/**
  Vendor rows that are accepted although their payout misses the tax rates: by
  nearly 3.01 rupees when all checks apply, and by any amount when one does not.
 */
module VendorGaps {
  import opened Wrappers
  import opened BaseParser
  import opened VendorParser
  import opened VendorAmounts
  import Text

  // ---- Numbers in cells -------------------------------------------------------------

  // n / 10^k, written as a whole number with a negative exponent.
  datatype Num = Num(n: int, k: nat)

  function Value(x: Num): real {
    x.n as real / Text.Power10(x.k) as real
  }

  function Exponent(k: nat): string {
    if k == 0 then "" else "e-" + Text.Decimal(k)
  }

  function Numeral(x: Num): string {
    Text.Itoa(x.n) + Exponent(x.k)
  }

  // Reads digits, with a negative exponent or without.
  function ReadUnsigned(text: string): Option<real> {
    var (digits, rest) := Text.SpanDigits(text);
    if digits == "" then None
    else if rest == "" then Some(Text.ParseNat(digits) as real)
    else if |rest| > 2 && rest[..2] == "e-" && Text.AllDigits(rest[2..]) then
      Some(Text.ParseNat(digits) as real / Text.Power10(Text.ParseNat(rest[2..])) as real)
    else None
  }

  function ReadDecimal(text: string): Option<real> {
    if text != "" && text[0] == '-' then
      var r := ReadUnsigned(text[1..]);
      if r.Some? then Some(-r.value) else None
    else ReadUnsigned(text)
  }

  lemma ExponentFacts(k: nat)
    ensures var rest := Exponent(k);
            && (rest == "" || !Text.IsDigit(rest[0]))
            && (k == 0 ==> rest == "" && Text.Power10(k) == 1)
            && (k > 0 ==> |rest| > 2 && rest[..2] == "e-" && rest[2..] == Text.Decimal(k))
  {
    Text.DecimalRoundTrip(k);
  }

  lemma UnsignedReads(m: nat, k: nat)
    ensures ReadUnsigned(Text.Decimal(m) + Exponent(k)) == Some(m as real / Text.Power10(k) as real)
  {
    hide Text.Decimal, Text.ParseNat, Text.SpanDigits, Text.Power10, Text.AllDigits, Exponent;
    Text.DecimalRoundTrip(m);
    Text.DecimalRoundTrip(k);
    ExponentFacts(k);
    Text.SpanDigitsStops(Text.Decimal(m), Exponent(k));
  }

  lemma SignReads(text: string)
    requires text != "" && Text.IsDigit(text[0])
    ensures ReadDecimal(text) == ReadUnsigned(text)
    ensures ReadUnsigned(text).Some? ==> ReadDecimal("-" + text) == Some(-ReadUnsigned(text).value)
  {
    hide ReadUnsigned;
    assert ("-" + text)[1..] == text;
  }

  lemma DecimalReads(x: Num)
    ensures ReadDecimal(Numeral(x)) == Some(Value(x))
  {
    hide ReadUnsigned, ReadDecimal, Text.Power10, Exponent;
    var m := if x.n < 0 then -x.n else x.n;
    var text := Text.Decimal(m) + Exponent(x.k);
    UnsignedReads(m, x.k);
    StartsWithDigit(m, Exponent(x.k));
    SignReads(text);
    NumeralIs(x);
    if x.n < 0 {
      Negate(m as real, Text.Power10(x.k) as real);
    }
  }

  lemma StartsWithDigit(m: nat, rest: string)
    ensures var text := Text.Decimal(m) + rest; text != "" && Text.IsDigit(text[0])
  {
    Text.DecimalRoundTrip(m);
  }

  lemma NumeralIs(x: Num)
    ensures Numeral(x) == if x.n < 0 then "-" + (Text.Decimal(-x.n) + Exponent(x.k)) else Text.Decimal(x.n) + Exponent(x.k)
  {
  }

  lemma Negate(x: real, y: real)
    requires y > 0.0
    ensures -(x / y) == (-x) / y
  {
  }

  // Nothing that reading an amount would trim, drop or refuse.
  predicate Unmarked(s: string) {
    s != "" && forall i :: 0 <= i < |s| ==> Text.IsDigit(s[i]) || s[i] == '-' || s[i] == 'e'
  }

  lemma NumeralIsUnmarked(x: Num)
    ensures Unmarked(Numeral(x))
  {
    Text.DecimalRoundTrip(if x.n < 0 then -x.n else x.n);
    Text.DecimalRoundTrip(x.k);
  }

  lemma {:induction false} NothingToRemove(s: string, c: char)
    requires c !in s
    ensures Remove(s, c) == s
  {
    if s != "" {
      assert c !in s[1..];
      NothingToRemove(s[1..], c);
    }
  }

  lemma UnmarkedIsRead(decimalOf: DecimalOf, s: string)
    requires Unmarked(s)
    ensures ParseAmount(decimalOf, s) == decimalOf(s)
  {
    Text.TrimIsTrimmed(s);
    assert Text.Trim(s) == s && TrimCurrency(s) == s;
    AmbiguousIff(s);
    NothingToRemove(s, ',');
  }

  const READING: Formats := Formats(Amounts(ReadDecimal), _ => true, _ => true, _ => true, _ => true, _ => true)

  lemma NumeralReads(x: Num)
    ensures READING.amountOf(Numeral(x)) == Some(Value(x)) && Numeral(x) != ""
  {
    NumeralIsUnmarked(x);
    UnmarkedIsRead(ReadDecimal, Numeral(x));
    DecimalReads(x);
  }

  // ---- Rows with given figures ---------------------------------------------------------

  // The numbers of a row; its GST, if any, is IGST.
  datatype Sheet = Sheet(amount: Num, reverse: bool, taxable: Num, gstRate: Num, igst: Option<Num>, tdsRate: Num,
                         tds: Option<Num>)

  function RowWith(n: Sheet): Cells {
    Cells(Numeral(n.amount), "", "", if n.reverse then "yes" else "", Numeral(n.taxable), Numeral(n.gstRate),
          if n.igst.Some? then "IGST" else "", if n.igst.Some? then Numeral(n.igst.value) else "", "", "",
          "", "", Numeral(n.tdsRate), if n.tds.Some? then Numeral(n.tds.value) else "", "", "", "", "", "1", "")
  }

  function Reading(n: Sheet): Figures {
    Figures(Value(n.amount), n.reverse, Value(n.taxable), Value(n.gstRate), if n.igst.Some? then "IGST" else "",
            if n.igst.Some? && ChecksGst(n.reverse, Value(n.taxable), Value(n.gstRate))
            then Taxes(Value(n.igst.value), 0.0, 0.0) else NO_TAX,
            Value(n.tdsRate), if n.tds.Some? then Some(Value(n.tds.value)) else None)
  }

  lemma SheetReads(n: Sheet)
    requires ValidRate(Value(n.gstRate))
    ensures NumbersReadable(READING, RowWith(n)) && FiguresOf(READING, RowWith(n)) == Reading(n)
  {
    hide Numeral, Value, Share, Amounts, ReadDecimal;
    NumeralReads(n.amount);
    NumeralReads(n.taxable);
    NumeralReads(n.gstRate);
    NumeralReads(n.tdsRate);
    if n.igst.Some? {
      NumeralReads(n.igst.value);
    }
    if n.tds.Some? {
      NumeralReads(n.tds.value);
    }
  }

  // A row with figures that agree is accepted.
  lemma SheetAccepted(n: Sheet)
    requires ValidRate(Value(n.gstRate)) && FiguresAgree(Reading(n))
    ensures Accepts(READING, RowWith(n)) && FiguresOf(READING, RowWith(n)) == Reading(n)
  {
    hide Numeral, Value, FiguresAgree, FiguresOf, NumbersReadable, Reading;
    SheetReads(n);
  }

  // ---- The bound is sharp ----------------------------------------------------------------

  lemma {:induction false} PowerGrows(k: nat)
    ensures Text.Power10(k) >= k + 1
    ensures k >= 4 ==> Text.Power10(k) >= 10000
  {
    if k > 0 {
      PowerGrows(k - 1);
      if k == 4 {
        assert Text.Power10(4) == 10 * Text.Power10(3) && Text.Power10(3) == 10 * Text.Power10(2);
        Powers();
      }
    }
  }

  // A TDS rate with k decimals, just too small to round up to 1.01 rupees.
  function TightRate(p: nat): nat
    requires p >= 1
  {
    (1005 * p - 1) / 10001
  }

  function Extreme(k: nat): Sheet {
    Sheet(Num(105211, 2), false, Num(10001, 1), Num(5, 0), Some(Num(5101, 2)), Num(TightRate(Text.Power10(k)), k), Some(Num(0, 0)))
  }

  lemma Powers()
    ensures Text.Power10(0) == 1 && Text.Power10(1) == 10 && Text.Power10(2) == 100
  {
    assert Text.Power10(1) == 10 * Text.Power10(0) && Text.Power10(2) == 10 * Text.Power10(1);
  }

  // The tax withheld at that rate is short of 1.005 rupees by less than 10.1 / 10^k.
  lemma TightTax(p: nat)
    requires p >= 10000
    ensures var tax := 1000.1 * (TightRate(p) as real / p as real);
            100.5 - 1000.1 / p as real <= tax < 100.5 && tax > 99.5
  {
    var n := TightRate(p);
    assert 10001 * n < 1005 * p <= 10001 * n + 10001;
    var r, q := n as real, p as real;
    assert 10001.0 * r < 1005.0 * q && 1005.0 * q <= 10001.0 * r + 10001.0;
    TaxBetween(r, q);
  }

  lemma TaxBetween(r: real, q: real)
    requires q >= 10000.0 && 10001.0 * r < 1005.0 * q && 1005.0 * q <= 10001.0 * r + 10001.0
    ensures var tax := 1000.1 * (r / q);
            100.5 - 1000.1 / q <= tax < 100.5 && tax > 99.5
  {
    var tax, miss := 1000.1 * (r / q), 1000.1 / q;
    DivideAndMultiply(r, q);
    DivideAndMultiply(1000.1, q);
    var x := r / q;
    assert tax * q == 1000.1 * (x * q);
    Cancel(tax, 100.5, q);
    var low := 100.5 - miss;
    assert low * q == 100.5 * q - miss * q;
    CancelWeak(low, tax, q);
    CancelWeak(miss, 0.10001, q);
  }

  lemma DivideAndMultiply(x: real, q: real)
    requires q > 0.0
    ensures x / q * q == x
  {
  }

  lemma Cancel(x: real, y: real, q: real)
    requires q > 0.0 && x * q < y * q
    ensures x < y
  {
  }

  lemma CancelWeak(x: real, y: real, q: real)
    requires q > 0.0 && x * q <= y * q
    ensures x <= y
  {
  }

  // The figures of the extreme row, with the tax withheld as `tax` in paise.
  lemma ExtremeAgrees(n: Figures, tax: real)
    requires n.amount == 1052.11 && !n.reverseCharge && n.taxable == 1000.1 && n.gstRate == 5.0 && n.gstType == "IGST"
    requires n.taxes == Taxes(51.01, 0.0, 0.0) && n.tds == Some(0.0) && n.tdsRate > 0.0
    requires tax == n.taxable * n.tdsRate && 99.5 < tax < 100.5
    ensures FiguresAgree(n) && (forall tie :: Tied(n, tie)) && Gap(n) == 2.005 + tax / 100.0
  {
    assert n.taxable * n.gstRate / 100.0 * 100.0 == 5000.5;
    assert Share(n.taxable, n.gstRate) == 50.01;
    assert n.taxable * n.tdsRate / 100.0 * 100.0 == tax;
    assert Share(n.taxable, n.tdsRate) == 1.0;
    GapInTerms(n);
  }

  // What that row reads as.
  lemma ExtremeReads(k: nat)
    ensures var n := Reading(Extreme(k));
            && n.amount == 1052.11 && !n.reverseCharge && n.taxable == 1000.1 && n.gstRate == 5.0 && n.gstType == "IGST"
            && n.taxes == Taxes(51.01, 0.0, 0.0) && n.tds == Some(0.0)
            && n.tdsRate == TightRate(Text.Power10(k)) as real / Text.Power10(k) as real
  {
    Powers();
    assert Value(Num(5, 0)) == 5.0 && Value(Num(0, 0)) == 0.0 && Value(Num(10001, 1)) == 1000.1;
    assert Value(Num(105211, 2)) == 1052.11 && Value(Num(5101, 2)) == 51.01;
  }

  // The row whose TDS rate has k decimals.
  lemma ExtremeMiss(k: nat)
    requires k >= 4
    ensures var n := Reading(Extreme(k));
            && ValidRate(n.gstRate) && FiguresAgree(n) && (forall tie :: Tied(n, tie))
            && 3.01 - 10.001 / Text.Power10(k) as real <= Gap(n) < 3.01
  {
    hide Reading, FiguresAgree, Tied, Gap, Text.Power10, TightRate;
    var n, p := Reading(Extreme(k)), Text.Power10(k);
    ExtremeReads(k);
    PowerGrows(k);
    TightTax(p);
    var tax := 1000.1 * (TightRate(p) as real / p as real);
    assert n.tdsRate > 0.0;
    ExtremeAgrees(n, tax);
    assert 1000.1 / p as real == 100.0 * (10.001 / p as real);
  }

  // There are accepted rows to which all checks apply and whose payout is off by as
  // nearly 3.01 rupees as one likes.
  lemma SharpSheet(slack: real) returns (n: Sheet)
    requires slack > 0.0
    ensures var c := RowWith(n);
            && Accepts(READING, c) && (forall tie :: Tied(FiguresOf(READING, c), tie))
            && 3.01 - slack <= Gap(FiguresOf(READING, c)) < 3.01
  {
    hide Accepts, FiguresOf, Tied, Gap, RowWith, Reading, FiguresAgree, Extreme, Text.Power10;
    var k: nat := Above(10.001 / slack) + 4;
    PowerGrows(k);
    n := Extreme(k);
    ExtremeMiss(k);
    ExtremeRate(k);
    SheetAccepted(n);
    Swap(10.001, Text.Power10(k) as real, slack);
  }

  lemma BoundIsSharp(slack: real) returns (f: Formats, c: Cells)
    requires slack > 0.0
    ensures Accepts(f, c) && (forall tie :: Tied(FiguresOf(f, c), tie))
    ensures 3.01 - slack <= Gap(FiguresOf(f, c)) < 3.01
  {
    var n := SharpSheet(slack);
    f, c := READING, RowWith(n);
  }

  function Above(x: real): (n: nat)
    requires x >= 0.0
    ensures x <= n as real
  {
    x.Floor + 1
  }

  lemma ExtremeRate(k: nat)
    ensures Reading(Extreme(k)).gstRate == Value(Extreme(k).gstRate)
  {
  }

  lemma Swap(x: real, p: real, y: real)
    requires x > 0.0 && p > 0.0 && y > 0.0 && p >= x / y
    ensures x / p <= y
  {
    assert p * y >= x / y * y == x;
    CancelWeak(x / p, y, p);
  }

  // ---- Each tie is needed -----------------------------------------------------------------

  // A row with this tie alone missing, and a gap of `far` or more.
  function Loose(tie: Tie, far: int): Sheet {
    match tie
    case TaxablePositive => Sheet(Num(far, 0), false, Num(0, 0), Num(18, 0), Some(Num(0, 0)), Num(10, 0), Some(Num(-far, 0)))
    case GstChecked =>
      Sheet(Num(90 * far, 0), true, Num(100 * far, 0), Num(28, 0), Some(Num(0, 0)), Num(10, 0), Some(Num(10 * far, 0)))
    case TdsChecked => Sheet(Num(far, 0), false, Num(far, 0), Num(0, 0), None, Num(100, 0), None)
    case AmountGiven => Sheet(Num(0, 0), false, Num(100 * far, 0), Num(0, 0), None, Num(0, 0), None)
    case NetPositive => Sheet(Num(far, 0), false, Num(far, 0), Num(0, 0), None, Num(100, 0), Some(Num(far, 0)))
  }

  // Its figures.
  function LooseFigures(tie: Tie, far: real): Figures {
    match tie
    case TaxablePositive => Figures(far, false, 0.0, 18.0, "IGST", NO_TAX, 10.0, Some(-far))
    case GstChecked => Figures(90.0 * far, true, 100.0 * far, 28.0, "IGST", NO_TAX, 10.0, Some(10.0 * far))
    case TdsChecked => Figures(far, false, far, 0.0, "", NO_TAX, 100.0, None)
    case AmountGiven => Figures(0.0, false, 100.0 * far, 0.0, "", NO_TAX, 0.0, None)
    case NetPositive => Figures(far, false, far, 0.0, "", NO_TAX, 100.0, Some(far))
  }

  lemma WholeNumber(n: int)
    ensures Value(Num(n, 0)) == n as real
  {
  }

  lemma LooseReads(tie: Tie, far: nat)
    ensures Reading(Loose(tie, far)) == LooseFigures(tie, far as real)
  {
    hide Value;
    WholeNumber(0);
    WholeNumber(10);
    WholeNumber(18);
    WholeNumber(28);
    WholeNumber(100);
    WholeNumber(far);
    WholeNumber(-(far as int));
    WholeNumber(10 * far);
    WholeNumber(90 * far);
    WholeNumber(100 * far);
  }

  lemma RoundExact(k: nat)
    ensures Round(k as real) == k
  {
  }

  lemma LooseAgrees(tie: Tie, far: nat)
    requires far >= 2
    ensures var n := LooseFigures(tie, far as real); ValidRate(n.gstRate) && FiguresAgree(n)
  {
    var n := LooseFigures(tie, far as real);
    if tie.GstChecked? {
      assert n.taxable * n.tdsRate / 100.0 * 100.0 == (1000 * far) as real;
      RoundExact(1000 * far);
    } else if tie.NetPositive? {
      assert n.taxable * n.tdsRate / 100.0 * 100.0 == (100 * far) as real;
      RoundExact(100 * far);
    }
  }

  lemma LooseMissesOneTie(tie: Tie, far: nat, t: Tie)
    requires far >= 2
    ensures Tied(LooseFigures(tie, far as real), t) <==> t != tie
  {
  }

  lemma LooseGap(tie: Tie, far: nat)
    requires far >= 2
    ensures Gap(LooseFigures(tie, far as real)) >= far as real
  {
    GapInTerms(LooseFigures(tie, far as real));
  }

  // Without any one of the ties there are accepted rows whose payout is as far off
  // as one likes.
  lemma LooseRow(tie: Tie, far: nat)
    requires far >= 2
    ensures var c := RowWith(Loose(tie, far));
            && Accepts(READING, c) && (forall t :: Tied(FiguresOf(READING, c), t) <==> t != tie)
            && Gap(FiguresOf(READING, c)) >= far as real
  {
    hide Accepts, FiguresOf, Tied, Gap, RowWith, Reading, FiguresAgree, LooseFigures;
    var c := RowWith(Loose(tie, far));
    LooseReads(tie, far);
    LooseAgrees(tie, far);
    LooseRate(tie, far);
    SheetAccepted(Loose(tie, far));
    LooseGap(tie, far);
    forall t ensures Tied(FiguresOf(READING, c), t) <==> t != tie {
      LooseMissesOneTie(tie, far, t);
    }
  }

  lemma EachTieIsNeeded(tie: Tie, far: nat) returns (f: Formats, c: Cells)
    requires far >= 2
    ensures Accepts(f, c) && (forall t :: Tied(FiguresOf(f, c), t) <==> t != tie)
    ensures Gap(FiguresOf(f, c)) >= far as real
  {
    LooseRow(tie, far);
    f, c := READING, RowWith(Loose(tie, far));
  }

  lemma LooseRate(tie: Tie, far: nat)
    ensures ValidRate(Value(Loose(tie, far).gstRate))
  {
  }
}
