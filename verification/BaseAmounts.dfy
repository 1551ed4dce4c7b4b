/** What does not matter in the text of an amount: blanks, currency signs, grouping commas. */
module BaseAmounts {
  import opened Wrappers
  import opened BaseParser
  import Text
  import TextForms

  lemma {:induction false} RemoveAppends(s: string, t: string, c: char)
    ensures Remove(s + t, c) == Remove(s, c) + Remove(t, c)
  {
    if s == "" {
      assert s + t == t;
    } else {
      assert (s + t)[1..] == s[1..] + t;
      RemoveAppends(s[1..], t, c);
    }
  }

  // Text without the character stays as it is.
  lemma {:induction false} NothingToRemove(s: string, c: char)
    requires c !in s
    ensures Remove(s, c) == s
  {
    if s != "" {
      NothingToRemove(s[1..], c);
      assert s == [s[0]] + s[1..];
    }
  }

  lemma BareCounts(s: string)
    ensures Ambiguous(s) <==> exists i, j :: 0 <= i < j < |s| && s[i] == '.' && s[j] in ".,"
  {
    AmbiguousIff(s);
  }

  // A comma before the point does not make an amount ambiguous, nor unambiguous.
  lemma CommaKeepsAmbiguity(x: string, y: string)
    requires '.' !in x
    ensures Ambiguous(x + "," + y) <==> Ambiguous(x + y)
  {
    hide Ambiguous;
    var s, t := x + "," + y, x + y;
    BareCounts(s);
    BareCounts(t);
    if i, j :| 0 <= i < j < |s| && s[i] == '.' && s[j] in ".," {
      assert s[i] == t[i - 1] && s[j] == t[j - 1];
    }
    if i, j :| 0 <= i < j < |t| && t[i] == '.' && t[j] in ".," {
      assert t[i] == s[i + 1] && t[j] == s[j + 1];
    }
  }

  // Commas that group the digits before the point are ignored.
  lemma GroupingIsIgnored(decimalOf: DecimalOf, raw: string, plain: string, x: string, y: string)
    requires Bare(raw) == x + "," + y && Bare(plain) == x + y && '.' !in x
    requires Text.Trim(raw) != "" && Text.Trim(plain) != ""
    ensures ParseAmount(decimalOf, raw) == ParseAmount(decimalOf, plain)
  {
    hide Bare, Ambiguous, Text.Trim;
    CommaKeepsAmbiguity(x, y);
    RemoveAppends(x + ",", y, ',');
    RemoveAppends(x, ",", ',');
    RemoveAppends(x, y, ',');
    CommaIsRemoved();
    assert Remove(x, ',') + "" == Remove(x, ',');
  }

  lemma CommaIsRemoved()
    ensures Remove(",", ',') == ""
  {
  }

  lemma TrimTwice(raw: string)
    ensures Text.Trim(Text.Trim(raw)) == Text.Trim(raw)
  {
    Text.TrimIsTrimmed(raw);
  }

  // Blanks around an amount are ignored.
  lemma BlanksAreIgnored(decimalOf: DecimalOf, raw: string)
    ensures ParseAmount(decimalOf, raw) == ParseAmount(decimalOf, Text.Trim(raw))
  {
    hide Text.Trim;
    TrimTwice(raw);
  }

  lemma {:induction false} TrimRightCons(c: char, s: string)
    requires !Text.IsSpace(c)
    ensures Text.TrimRight([c] + s) == [c] + Text.TrimRight(s)
  {
    var all := [c] + s;
    if s != "" && Text.IsSpace(s[|s| - 1]) {
      assert all[..|all| - 1] == [c] + s[..|s| - 1];
      TrimRightCons(c, s[..|s| - 1]);
    }
  }

  lemma TrimFront(s: string)
    requires s != "" && !Text.IsSpace(s[0])
    ensures Text.Trim(s) == Text.TrimRight(s) != ""
  {
    Text.TrimKeeps(s);
  }

  lemma BareOfCurrency(c: char, s: string)
    requires c in "\U{20B9}$\U{20AC}\U{A3}\U{A5}" && s != "" && !Text.IsSpace(s[0])
    ensures Bare([c] + s) == Bare(s)
    ensures Text.Trim([c] + s) != "" && Text.Trim(s) != ""
  {
    hide Text.Trim, Text.TrimRight;
    TrimFront([c] + s);
    TrimFront(s);
    TrimRightCons(c, s);
    var t := Text.TrimRight(s);
    assert ([c] + t)[1..] == t;
    assert TrimCurrency([c] + t) == TrimCurrency(t);
  }

  // A sign for rupees, dollars, euros, pounds or yen in front of the amount is ignored.
  lemma CurrencyIsIgnored(decimalOf: DecimalOf, c: char, s: string)
    requires c in "\U{20B9}$\U{20AC}\U{A3}\U{A5}" && s != "" && !Text.IsSpace(s[0])
    ensures ParseAmount(decimalOf, [c] + s) == ParseAmount(decimalOf, s)
  {
    hide Bare, Text.Trim;
    BareOfCurrency(c, s);
  }

  predicate StartsPlain(t: string) {
    t != "" && !Text.IsSpace(t[0]) && t[0] !in "\U{20B9}$\U{20AC}\U{A3}\U{A5}"
  }

  lemma BareOfPlainStart(t: string)
    requires StartsPlain(t)
    ensures Bare(t) == Text.TrimRight(t) && Text.Trim(t) != ""
  {
    hide Text.TrimRight, Text.Trim;
    TrimFront(t);
    assert TrimCurrency(Text.TrimRight(t)) == Text.TrimRight(t) by {
      FirstStays(t);
    }
    TrimTwice(t);
  }

  lemma FirstStays(t: string)
    requires StartsPlain(t)
    ensures TrimCurrency(Text.TrimRight(t)) == Text.TrimRight(t)
  {
    Text.TrimRightKeeps(t);
  }

  lemma BareOfSpacedSign(c: char, blanks: string, t: string)
    requires c in "\U{20B9}$\U{20AC}\U{A3}\U{A5}" && TextForms.AllSpace(blanks) && StartsPlain(t)
    ensures Bare([c] + blanks + t) == Bare(t) && Text.Trim([c] + blanks + t) != ""
  {
    hide Text.Trim, Text.TrimRight, Bare;
    var rest := blanks + t;
    assert [c] + blanks + t == [c] + rest;
    TrimFront([c] + rest);
    TrimRightCons(c, rest);
    TrimRightKeepsFront(blanks, t);
    BareOfPlainStart(t);
    SignedIs(c, blanks, Text.TrimRight(t), [c] + rest);
    BlanksThenTrimmed(blanks, t);
  }

  lemma SignedIs(c: char, blanks: string, t: string, raw: string)
    requires c in "\U{20B9}$\U{20AC}\U{A3}\U{A5}" && TextForms.AllSpace(blanks) && StartsPlain(t)
    requires Text.Trim(raw) == [c] + (blanks + t)
    ensures Bare(raw) == Text.Trim(blanks + t)
  {
    hide Text.Trim;
    assert ([c] + (blanks + t))[1..] == blanks + t;
    SignIs(c);
    SignIs(t[0]);
    assert TrimCurrency([c] + (blanks + t)) == TrimCurrency(blanks + t);
    if blanks == "" {
      assert blanks + t == t && TrimCurrency(t) == t;
    } else {
      NoSignIsSpace(blanks[0]);
      assert (blanks + t)[0] == blanks[0];
    }
  }

  lemma SignIs(c: char)
    ensures IsCurrency(c) <==> c in "\U{20B9}$\U{20AC}\U{A3}\U{A5}"
  {
  }

  lemma NoSignIsSpace(c: char)
    requires Text.IsSpace(c)
    ensures !IsCurrency(c)
  {
  }

  lemma TrimRightKeepsFront(blanks: string, t: string)
    requires StartsPlain(t)
    ensures Text.TrimRight(blanks + t) == blanks + Text.TrimRight(t) && StartsPlain(Text.TrimRight(t))
  {
    hide StartsPlain;
    KeepsFront(blanks, t);
    KeepsStart(t);
  }

  lemma KeepsStart(t: string)
    requires StartsPlain(t)
    ensures t != "" && !Text.IsSpace(t[0]) && StartsPlain(Text.TrimRight(t))
  {
    Text.TrimRightKeeps(t);
  }

  lemma {:induction false} KeepsFront(front: string, t: string)
    requires StartsPlain(t)
    ensures Text.TrimRight(front + t) == front + Text.TrimRight(t)
  {
    var all := front + t;
    assert all[|all| - 1] == t[|t| - 1];
    if Text.IsSpace(t[|t| - 1]) {
      assert all[..|all| - 1] == front + t[..|t| - 1] && t[..|t| - 1][0] == t[0];
      KeepsFront(front, t[..|t| - 1]);
    }
  }

  lemma BlanksThenTrimmed(blanks: string, t: string)
    requires TextForms.AllSpace(blanks) && StartsPlain(t)
    ensures Text.Trim(blanks + Text.TrimRight(t)) == Text.TrimRight(t)
  {
    hide Text.TrimRight, Text.Trim;
    Text.TrimRightFacts(t);
    KeepsStart(t);
    TextForms.TrimTakesBlanks(blanks, Text.TrimRight(t), "");
    assert blanks + Text.TrimRight(t) + "" == blanks + Text.TrimRight(t);
  }

  // Blanks between the sign and the amount are ignored too.
  lemma SpacedSignIsIgnored(decimalOf: DecimalOf, c: char, blanks: string, t: string)
    requires c in "\U{20B9}$\U{20AC}\U{A3}\U{A5}" && TextForms.AllSpace(blanks) && StartsPlain(t)
    ensures ParseAmount(decimalOf, [c] + blanks + t) == ParseAmount(decimalOf, t)
  {
    hide Bare, Text.Trim, Ambiguous;
    BareOfSpacedSign(c, blanks, t);
    BareOfPlainStart(t);
  }

  // A number written with digits and at most one point is read as it stands.
  lemma PlainNumberIsRead(decimalOf: DecimalOf, s: string)
    requires s != "" && forall i :: 0 <= i < |s| ==> '0' <= s[i] <= '9' || s[i] == '.'
    requires forall i, j :: 0 <= i < j < |s| ==> s[i] != '.' || s[j] != '.'
    ensures ParseAmount(decimalOf, s) == decimalOf(s)
  {
    hide Text.Trim, Ambiguous, Bare, Remove;
    BareOfPlain(s);
    AmbiguousIff(s);
    NothingToRemove(s, ',');
  }

  lemma BareOfPlain(s: string)
    requires s != "" && forall i :: 0 <= i < |s| ==> '0' <= s[i] <= '9' || s[i] == '.'
    ensures Text.Trim(s) == s && Bare(s) == s
  {
    Text.TrimIsTrimmed(s);
  }
}
