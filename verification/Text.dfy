/**
  The string operations the services share: trimming, ASCII case folding,
  decimal numbers, and splitting at a separator.
 */
module Text {
  predicate IsSpace(c: char) {
    || '\t' <= c <= '\r' || c == ' '
    || c == '\U{85}' || c == '\U{A0}' || c == '\U{1680}' || '\U{2000}' <= c <= '\U{200A}'
    || c == '\U{2028}' || c == '\U{2029}' || c == '\U{202F}' || c == '\U{205F}' || c == '\U{3000}'
  }

  function TrimLeft(s: string): string {
    if s != [] && IsSpace(s[0]) then TrimLeft(s[1..]) else s
  }

  function TrimRight(s: string): string {
    if s != [] && IsSpace(s[|s| - 1]) then TrimRight(s[..|s| - 1]) else s
  }

  function Trim(s: string): string {
    TrimRight(TrimLeft(s))
  }

  function LowerChar(c: char): char {
    if 'A' <= c <= 'Z' then c - 'A' + 'a' else c
  }

  function Lower(s: string): string {
    seq(|s|, i requires 0 <= i < |s| => LowerChar(s[i]))
  }

  function UpperChar(c: char): char {
    if 'a' <= c <= 'z' then c - 'a' + 'A' else c
  }

  function Upper(s: string): string {
    seq(|s|, i requires 0 <= i < |s| => UpperChar(s[i]))
  }

  function Join(parts: seq<string>, separator: string): string {
    if |parts| == 0 then "" else if |parts| == 1 then parts[0] else parts[0] + separator + Join(parts[1..], separator)
  }

  // The parts between separators; one part more than there are separators.
  function Split(s: string, separator: char): (parts: seq<string>)
    ensures parts != []
  {
    if s == "" then [""]
    else
      var rest := Split(s[1..], separator);
      if s[0] == separator then [""] + rest else [[s[0]] + rest[0]] + rest[1..]
  }

  predicate NoneHas(parts: seq<string>, separator: char) {
    forall p <- parts :: separator !in p
  }

  lemma JoinRest(first: string, rest: seq<string>, separator: string)
    requires rest != []
    ensures Join([first] + rest, separator) == first + separator + Join(rest, separator)
  {
    assert ([first] + rest)[1..] == rest;
  }

  // The parts have no separator in them, and joined they are the text again.
  lemma {:induction false} SplitJoins(s: string, separator: char)
    ensures Join(Split(s, separator), [separator]) == s && NoneHas(Split(s, separator), separator)
  {
    hide Join;
    if s == "" {
      JoinOne("", [separator]);
    } else {
      var rest := Split(s[1..], separator);
      SplitJoins(s[1..], separator);
      if s[0] == separator {
        JoinRest("", rest, [separator]);
        assert s == [separator] + s[1..] == "" + [separator] + s[1..];
      } else {
        JoinGrows(s[0], rest, [separator]);
        assert s == [s[0]] + s[1..];
      }
    }
  }

  lemma JoinOne(x: string, separator: string)
    ensures Join([x], separator) == x
  {
  }

  lemma JoinGrows(c: char, parts: seq<string>, separator: string)
    requires parts != []
    ensures Join([[c] + parts[0]] + parts[1..], separator) == [c] + Join(parts, separator)
  {
    if |parts| == 1 {
      assert [[c] + parts[0]] + parts[1..] == [[c] + parts[0]];
    } else {
      JoinRest([c] + parts[0], parts[1..], separator);
      assert [c] + parts[0] + separator + Join(parts[1..], separator) == [c] + (parts[0] + separator + Join(parts[1..], separator));
    }
  }

  // ... and they are the only such parts.
  lemma {:induction false} SplitOfJoin(parts: seq<string>, separator: char)
    requires parts != [] && NoneHas(parts, separator)
    ensures Split(Join(parts, [separator]), separator) == parts
    decreases |parts|
  {
    if |parts| == 1 {
      SplitNoSeparator(parts[0], separator);
      assert [parts[0]] == parts;
    } else {
      SplitAtFirst(parts[0], Join(parts[1..], [separator]), separator);
      SplitOfJoin(parts[1..], separator);
      assert [parts[0]] + parts[1..] == parts;
    }
  }

  lemma {:induction false} SplitNoSeparator(s: string, separator: char)
    requires separator !in s
    ensures Split(s, separator) == [s]
  {
    if s != "" {
      SplitNoSeparator(s[1..], separator);
      assert s == [s[0]] + s[1..];
    }
  }

  lemma {:induction false} SplitAtFirst(x: string, rest: string, separator: char)
    requires separator !in x
    ensures Split(x + [separator] + rest, separator) == [x] + Split(rest, separator)
  {
    var s := x + [separator] + rest;
    if x == "" {
      assert s[1..] == rest;
    } else {
      assert s[1..] == x[1..] + [separator] + rest && s[0] == x[0];
      SplitAtFirst(x[1..], rest, separator);
      assert x == [x[0]] + x[1..];
    }
  }

  // The parts of one text lead those of another exactly when the texts are the
  // same, or the second goes on with a separator after the first.
  lemma SplitPrefixIff(s: string, t: string, separator: char)
    ensures Split(s, separator) <= Split(t, separator) <==> s == t || s + [separator] <= t
  {
    hide Split, Join;
    var p, q := Split(s, separator), Split(t, separator);
    SplitJoins(s, separator);
    SplitJoins(t, separator);
    if s + [separator] <= t {
      var rest := t[|s| + 1..];
      assert t == s + [separator] + rest;
      SplitMiddle(s, rest, separator);
    }
    if p <= q && |p| < |q| {
      JoinSplitsAt(q, |p|, [separator]);
      assert q[..|p|] == p;
      assert t == s + [separator] + Join(q[|p|..], [separator]);
    } else if p <= q {
      assert p == q;
    }
  }

  lemma {:induction false} SplitMiddle(s: string, rest: string, separator: char)
    ensures Split(s + [separator] + rest, separator) == Split(s, separator) + Split(rest, separator)
  {
    var t := s + [separator] + rest;
    if s == "" {
      assert t[1..] == rest;
    } else {
      assert t[1..] == s[1..] + [separator] + rest && t[0] == s[0];
      SplitMiddle(s[1..], rest, separator);
    }
  }

  lemma {:induction false} JoinSplitsAt(parts: seq<string>, k: nat, separator: string)
    requires 0 < k < |parts|
    ensures Join(parts, separator) == Join(parts[..k], separator) + separator + Join(parts[k..], separator)
    decreases k
  {
    if k == 1 {
      assert parts[..1] == [parts[0]];
    } else {
      JoinSplitsAt(parts[1..], k - 1, separator);
      assert parts[..k][1..] == parts[1..][..k - 1] && parts[k..] == parts[1..][k - 1..];
      assert parts[0] + separator + (Join(parts[1..][..k - 1], separator) + separator + Join(parts[k..], separator))
          == (parts[0] + separator + Join(parts[1..][..k - 1], separator)) + separator + Join(parts[k..], separator);
    }
  }

  // A UUID of version 1 to 5 in its usual text form, in either case.
  predicate IsUuidText(s: string) {
    && |s| == 36
    && (forall i :: 0 <= i < 36 ==>
          if i in {8, 13, 18, 23} then s[i] == '-'
          else IsDigit(s[i]) || 'a' <= LowerChar(s[i]) <= 'f')
    && '1' <= s[14] <= '5'
    && LowerChar(s[19]) in "89ab"
  }

  predicate HasPrefix(s: string, p: string) {
    p <= s
  }

  predicate HasSuffix(s: string, p: string) {
    |p| <= |s| && s[|s| - |p|..] == p
  }

  // ---- Trimmed and folded text ----------------------------------------------------

  predicate Trimmed(s: string) {
    s == "" || (!IsSpace(s[0]) && !IsSpace(s[|s| - 1]))
  }

  lemma {:induction false} TrimLeftFacts(s: string)
    ensures var r := TrimLeft(s); r == "" || (!IsSpace(r[0]) && r[|r| - 1] == s[|s| - 1])
  {
    if s != "" && IsSpace(s[0]) {
      TrimLeftFacts(s[1..]);
    }
  }

  lemma {:induction false} TrimRightFacts(s: string)
    ensures var r := TrimRight(s); r <= s && (r == "" || !IsSpace(r[|r| - 1]))
  {
    if s != "" && IsSpace(s[|s| - 1]) {
      TrimRightFacts(s[..|s| - 1]);
    }
  }

  // Trimming leaves trimmed text, and trimmed text alone.
  lemma TrimIsTrimmed(s: string)
    ensures Trimmed(Trim(s)) && Trim(Trim(s)) == Trim(s)
    ensures Trimmed(s) ==> Trim(s) == s
  {
    TrimLeftFacts(s);
    TrimRightFacts(TrimLeft(s));
  }

  // Text that starts with something to see is not trimmed away.
  lemma TrimKeeps(s: string)
    requires s != "" && !IsSpace(s[0])
    ensures Trim(s) != "" && Trim(s)[0] == s[0]
  {
    TrimRightKeeps(s);
  }

  lemma {:induction false} TrimRightKeeps(s: string)
    requires s != "" && !IsSpace(s[0])
    ensures TrimRight(s) != "" && TrimRight(s)[0] == s[0]
  {
    if IsSpace(s[|s| - 1]) {
      TrimRightKeeps(s[..|s| - 1]);
    }
  }

  // Trimmed and in lower case.
  function Fold(s: string): string {
    Lower(Trim(s))
  }

  // Folding folded or trimmed text again gives the same.
  lemma FoldTwice(s: string)
    ensures Fold(Fold(s)) == Fold(s) && Fold(Trim(s)) == Fold(s) && Trim(Fold(s)) == Fold(s)
  {
    TrimIsTrimmed(s);
    var t := Trim(s);
    assert Trimmed(Lower(t));
    TrimIsTrimmed(Lower(t));
  }

  // ---- Bars -----------------------------------------------------------------------

  predicate NoBar(s: string) {
    forall i :: 0 <= i < |s| ==> s[i] != '|'
  }

  lemma UuidHasNoBar(s: string)
    requires IsUuidText(s)
    ensures NoBar(s)
  {
  }

  // ---- Decimal numbers ----------------------------------------------------------

  predicate IsDigit(c: char) { '0' <= c <= '9' }

  predicate AllDigits(s: string) {
    forall i :: 0 <= i < |s| ==> IsDigit(s[i])
  }

  function Digit(d: nat): (c: char)
    requires d < 10
    ensures IsDigit(c)
  {
    '0' + d as char
  }

  function Decimal(n: nat): string {
    if n < 10 then [Digit(n)] else Decimal(n / 10) + [Digit(n % 10)]
  }

  function ParseNat(s: string): nat
    requires AllDigits(s)
  {
    if s == "" then 0 else ParseNat(s[..|s| - 1]) * 10 + (s[|s| - 1] - '0') as nat
  }

  function Power10(n: nat): (p: nat)
    ensures p >= 1
  {
    if n == 0 then 1 else 10 * Power10(n - 1)
  }

  // Printing a number and reading it back.
  lemma {:induction false} DecimalRoundTrip(n: nat)
    ensures Decimal(n) != "" && AllDigits(Decimal(n)) && ParseNat(Decimal(n)) == n
  {
    if n >= 10 {
      DecimalRoundTrip(n / 10);
      assert Decimal(n)[..|Decimal(n)| - 1] == Decimal(n / 10);
    } else {
      assert Decimal(n)[..0] == "";
    }
  }

  // The digits at the front of a string, and the rest.
  function SpanDigits(s: string): (r: (string, string))
    ensures AllDigits(r.0) && s == r.0 + r.1
  {
    if s != "" && IsDigit(s[0]) then
      var (d, rest) := SpanDigits(s[1..]);
      ([s[0]] + d, rest)
    else ("", s)
  }

  lemma {:induction false} SpanDigitsStops(d: string, rest: string)
    requires AllDigits(d) && (rest == "" || !IsDigit(rest[0]))
    ensures SpanDigits(d + rest) == (d, rest)
  {
    if d == "" {
      assert d + rest == rest;
    } else {
      assert (d + rest)[1..] == d[1..] + rest && d == [d[0]] + d[1..];
      SpanDigitsStops(d[1..], rest);
    }
  }

  function Itoa(n: int): string {
    if n < 0 then "-" + Decimal(-n) else Decimal(n)
  }

  // A signed number; 0 when the text is not one.
  function Atoi(s: string): int {
    var signed := s != "" && (s[0] == '-' || s[0] == '+');
    var digits := if signed then s[1..] else s;
    if digits == "" || !AllDigits(digits) then 0
    else if signed && s[0] == '-' then -(ParseNat(digits) as int)
    else ParseNat(digits) as int
  }

  lemma AtoiItoa(n: int)
    ensures Atoi(Itoa(n)) == n
  {
    DecimalRoundTrip(if n < 0 then -n else n);
    if n < 0 {
      assert Itoa(n)[1..] == Decimal(-n);
    } else {
      assert IsDigit(Itoa(n)[0]);
    }
  }

  // Two numbers before the same separator and text are told apart.
  lemma DecimalBeforeSeparator(m: nat, n: nat, rest: string)
    requires rest == "" || !IsDigit(rest[0])
    requires Decimal(m) + rest == Decimal(n) + rest
    ensures m == n
  {
    DecimalRoundTrip(m);
    DecimalRoundTrip(n);
    SpanDigitsStops(Decimal(m), rest);
    SpanDigitsStops(Decimal(n), rest);
  }
}
