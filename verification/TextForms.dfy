/** What trimming, case folding and the shape of a UUID come to, in plain terms. */
module TextForms {
  import opened Text

  predicate AllSpace(s: string) {
    forall i :: 0 <= i < |s| ==> IsSpace(s[i])
  }

  // The blanks are the twenty-five characters that Unicode calls white space.
  lemma SpacesAre(c: char)
    ensures IsSpace(c) <==>
            c as int in {9, 10, 11, 12, 13, 32, 133, 160, 5760, 8192, 8193, 8194, 8195, 8196, 8197, 8198, 8199, 8200, 8201,
                         8202, 8232, 8233, 8239, 8287, 12288}
  {
  }

  // Trimming takes off all the blanks on both sides and nothing else.
  lemma TrimTakesBlanks(front: string, s: string, back: string)
    requires AllSpace(front) && AllSpace(back) && Trimmed(s)
    ensures Trim(front + s + back) == s
  {
    TrimLeftTakes(front, s + back);
    assert front + s + back == front + (s + back);
    if s == "" {
      assert s + back == back;
      OnlyBlanks(back);
    } else {
      LeftStops(s + back);
      TrimRightTakes(s, back);
    }
  }

  lemma {:induction false} TrimLeftTakes(front: string, rest: string)
    requires AllSpace(front)
    ensures TrimLeft(front + rest) == TrimLeft(rest)
  {
    if front == "" {
      assert front + rest == rest;
    } else {
      assert (front + rest)[1..] == front[1..] + rest;
      TrimLeftTakes(front[1..], rest);
    }
  }

  lemma LeftStops(s: string)
    requires s != "" && !IsSpace(s[0])
    ensures TrimLeft(s) == s
  {
  }

  lemma {:induction false} OnlyBlanks(s: string)
    requires AllSpace(s)
    ensures TrimLeft(s) == "" && TrimRight(TrimLeft(s)) == ""
  {
    if s != "" {
      OnlyBlanks(s[1..]);
    }
  }

  lemma {:induction false} TrimRightTakes(s: string, back: string)
    requires AllSpace(back) && (s == "" || !IsSpace(s[|s| - 1]))
    ensures TrimRight(s + back) == s
  {
    var all := s + back;
    if back == "" {
      assert all == s;
    } else {
      assert all[..|all| - 1] == s + back[..|back| - 1];
      TrimRightTakes(s, back[..|back| - 1]);
    }
  }

  // One text begins, or ends, with another exactly when something can be put after, or
  // before, that other to make it.
  lemma EndsIff(s: string, p: string)
    ensures HasSuffix(s, p) <==> exists front :: s == front + p
    ensures HasPrefix(s, p) <==> exists back :: s == p + back
  {
    if HasSuffix(s, p) {
      assert s == s[..|s| - |p|] + p;
    }
    if HasPrefix(s, p) {
      assert s == p + s[|p|..];
    }
  }

  // ---- Numbers ------------------------------------------------------------------------

  // Digits read as their number, after a plus too; after a minus as its negative; and
  // anything else as nought.
  lemma AtoiReads(digits: string, other: string)
    requires digits != "" && AllDigits(digits)
    requires other == "" || other[0] !in "+-"
    requires other == "" || !AllDigits(other)
    ensures Atoi(digits) == ParseNat(digits) && Atoi("+" + digits) == ParseNat(digits)
    ensures Atoi("-" + digits) == -(ParseNat(digits) as int)
    ensures Atoi(other) == Atoi("+" + other) == Atoi("-" + other) == 0
  {
    assert ("+" + digits)[1..] == digits && ("-" + digits)[1..] == digits;
    assert ("+" + other)[1..] == other && ("-" + other)[1..] == other;
    assert IsDigit(digits[0]);
  }

  // ---- Case ---------------------------------------------------------------------------

  const CAPITALS := "ABCDEFGHIJKLMNOPQRSTUVWXYZ"
  const SMALL := "abcdefghijklmnopqrstuvwxyz"

  // Lower case turns capital letter k into small letter k and leaves the rest, upper case
  // the other way round.
  lemma CaseIs(s: string, i: nat)
    requires i < |s|
    ensures |Lower(s)| == |s| == |Upper(s)|
    ensures forall k :: 0 <= k < 26 && s[i] == CAPITALS[k] ==> Lower(s)[i] == SMALL[k] && Upper(s)[i] == s[i]
    ensures forall k :: 0 <= k < 26 && s[i] == SMALL[k] ==> Upper(s)[i] == CAPITALS[k] && Lower(s)[i] == s[i]
    ensures s[i] !in CAPITALS + SMALL ==> Lower(s)[i] == s[i] == Upper(s)[i]
  {
    forall k | 0 <= k < 26 ensures CAPITALS[k] as int == 'A' as int + k && SMALL[k] as int == 'a' as int + k {
      Alphabet(k);
    }
    if 'A' <= s[i] <= 'Z' {
      assert CAPITALS[s[i] as int - 'A' as int] == s[i];
    }
    if 'a' <= s[i] <= 'z' {
      assert SMALL[s[i] as int - 'a' as int] == s[i];
    }
  }

  lemma Alphabet(k: nat)
    requires k < 26
    ensures CAPITALS[k] as int == 'A' as int + k && SMALL[k] as int == 'a' as int + k
  {
    if k < 13 {
    } else {
    }
  }

  // ---- UUIDs ----------------------------------------------------------------------------

  predicate IsHex(s: string, n: nat) {
    |s| == n && forall i :: 0 <= i < |s| ==> s[i] in "0123456789abcdefABCDEF"
  }

  // Groups of 8, 4, 4, 4 and 12 hexadecimal digits, the third led by its version, 1 to 5,
  // and the fourth by its variant.
  predicate UuidGroups(g: seq<string>) {
    && |g| == 5 && IsHex(g[0], 8) && IsHex(g[1], 4) && IsHex(g[2], 4) && IsHex(g[3], 4) && IsHex(g[4], 12)
    && g[2][0] in "12345" && g[3][0] in "89abAB"
  }

  lemma HexIs(c: char)
    ensures c in "0123456789abcdefABCDEF" <==> IsDigit(c) || 'a' <= LowerChar(c) <= 'f'
    ensures c in "0123456789abcdefABCDEF" ==> c != '-'
  {
  }

  lemma JoinFive(a: string, b: string, c: string, d: string, e: string)
    ensures Join([a, b, c, d, e], "-") == a + "-" + (b + "-" + (c + "-" + (d + "-" + e)))
  {
    hide Join;
    JoinOne(e, "-");
    JoinRest(d, [e], "-");
    JoinRest(c, [d, e], "-");
    JoinRest(b, [c, d, e], "-");
    JoinRest(a, [b, c, d, e], "-");
    assert [d] + [e] == [d, e] && [c] + [d, e] == [c, d, e] && [b] + [c, d, e] == [b, c, d, e];
    assert [a] + [b, c, d, e] == [a, b, c, d, e];
  }

  // A text is taken for a UUID exactly when its parts between dashes are such groups.
  lemma UuidIff(s: string)
    ensures IsUuidText(s) <==> UuidGroups(Split(s, '-'))
  {
    hide Split, Join;
    SplitJoins(s, '-');
    var g := Split(s, '-');
    if UuidGroups(g) {
      assert g == [g[0], g[1], g[2], g[3], g[4]];
      JoinFive(g[0], g[1], g[2], g[3], g[4]);
      GroupsAreUuid(g[0], g[1], g[2], g[3], g[4]);
    }
    if IsUuidText(s) {
      var h := [s[..8], s[9..13], s[14..18], s[19..23], s[24..]];
      UuidHasGroups(s);
      JoinFive(s[..8], s[9..13], s[14..18], s[19..23], s[24..]);
      SplitOfJoin(h, '-');
    }
  }

  lemma AllHex(s: string, n: nat)
    requires IsHex(s, n)
    ensures |s| == n && forall i :: 0 <= i < n ==> IsDigit(s[i]) || 'a' <= LowerChar(s[i]) <= 'f'
  {
    forall i | 0 <= i < n ensures IsDigit(s[i]) || 'a' <= LowerChar(s[i]) <= 'f' {
      HexIs(s[i]);
    }
  }

  lemma GroupsAreUuid(a: string, b: string, c: string, d: string, e: string)
    requires UuidGroups([a, b, c, d, e])
    ensures IsUuidText(a + "-" + (b + "-" + (c + "-" + (d + "-" + e))))
  {
    hide IsHex, LowerChar, IsDigit;
    var g := [a, b, c, d, e];
    assert g[0] == a && g[1] == b && g[2] == c && g[3] == d && g[4] == e;
    AllHex(a, 8);
    AllHex(b, 4);
    AllHex(c, 4);
    AllHex(d, 4);
    AllHex(e, 12);
    Leads(c[0], d[0]);
    var s := a + "-" + (b + "-" + (c + "-" + (d + "-" + e)));
    assert |s| == 36 && s[8] == s[13] == s[18] == s[23] == '-' && s[14] == c[0] && s[19] == d[0];
    forall i | 0 <= i < 36 && i !in {8, 13, 18, 23} ensures IsDigit(s[i]) || 'a' <= LowerChar(s[i]) <= 'f' {
      assert if i < 8 then s[i] == a[i] else if i < 13 then s[i] == b[i - 9] else if i < 18 then s[i] == c[i - 14]
             else if i < 23 then s[i] == d[i - 19] else s[i] == e[i - 24];
    }
  }

  lemma Leads(version: char, variant: char)
    ensures version in "12345" <==> '1' <= version <= '5'
    ensures variant in "89abAB" <==> LowerChar(variant) in "89ab"
  {
  }

  lemma GroupIs(s: string, i: nat, n: nat)
    requires IsUuidText(s) && ((i == 0 && n == 8) || (i in {9, 14, 19} && n == 4) || (i == 24 && n == 12))
    ensures IsHex(s[i..i + n], n) && '-' !in s[i..i + n]
  {
    forall k | i <= k < i + n ensures s[k] in "0123456789abcdefABCDEF" && s[k] != '-' {
      HexIs(s[k]);
    }
  }

  lemma Reassembled(s: string)
    requires |s| == 36 && s[8] == s[13] == s[18] == s[23] == '-'
    ensures s == s[..8] + "-" + (s[9..13] + "-" + (s[14..18] + "-" + (s[19..23] + "-" + s[24..])))
  {
    assert s == s[..8] + (s[8..9] + (s[9..13] + (s[13..14] + (s[14..18] + (s[18..19] + (s[19..23] + (s[23..24] + s[24..])))))));
    assert s[8..9] == "-" && s[13..14] == "-" && s[18..19] == "-" && s[23..24] == "-";
  }

  lemma UuidHasGroups(s: string)
    requires IsUuidText(s)
    ensures UuidGroups([s[..8], s[9..13], s[14..18], s[19..23], s[24..]])
    ensures NoneHas([s[..8], s[9..13], s[14..18], s[19..23], s[24..]], '-')
    ensures s == s[..8] + "-" + (s[9..13] + "-" + (s[14..18] + "-" + (s[19..23] + "-" + s[24..])))
  {
    hide IsUuidText, IsHex;
    GroupIs(s, 0, 8);
    GroupIs(s, 9, 4);
    GroupIs(s, 14, 4);
    GroupIs(s, 19, 4);
    GroupIs(s, 24, 12);
    Dashes(s);
    Reassembled(s);
    assert s[0..8] == s[..8] && s[24..36] == s[24..];
  }

  lemma Dashes(s: string)
    requires IsUuidText(s)
    ensures |s| == 36 && s[8] == s[13] == s[18] == s[23] == '-'
    ensures s[14] in "12345" && s[19] in "89abAB"
  {
  }
}
