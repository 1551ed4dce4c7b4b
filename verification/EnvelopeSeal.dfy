/**
  The byte string that is hashed to seal an envelope, and a decoder showing that
  it determines every field. A character stands for one byte.
 */
module EnvelopeSeal {
  import opened Wrappers
  import opened Text

  datatype UtcTime = UtcTime(year: nat, month: nat, day: nat, hour: nat, minute: nat, second: nat, nanos: nat)
  {
    predicate Valid() {
      && 1 <= month <= 12 && 1 <= day <= 31
      && hour < 24 && minute < 60 && second < 60 && nanos < 1_000_000_000
    }
  }

  datatype SealedFields = SealedFields(
    envelopeId: string,
    tenantId: string,
    traceId: string,
    receivedAt: UtcTime,
    contentType: string,
    sourceType: string,
    payloadHash: string,
    objectRef: string)

  // ---- Writing -------------------------------------------------------------------

  // A number with leading zeros up to the width.
  function Padded(n: nat, width: nat): string
    decreases width - |Decimal(n)|
  {
    PadLeft(Decimal(n), width)
  }

  function PadLeft(s: string, width: nat): (r: string)
    ensures |s| >= width ==> r == s
    ensures |s| < width ==> |r| == width
    decreases width - |s|
  {
    if |s| >= width then s else PadLeft("0" + s, width)
  }

  function DropZeros(s: string): string {
    if s != "" && s[|s| - 1] == '0' then DropZeros(s[..|s| - 1]) else s
  }

  // Nanoseconds without trailing zeros, and no point when there are none.
  function Fraction(nanos: nat): string {
    if nanos == 0 then "" else "." + DropZeros(Padded(nanos, 9))
  }

  // The RFC 3339 text of a UTC time, with nanoseconds.
  function FormatTime(t: UtcTime): string {
    Padded(t.year, 4) + "-" + Padded(t.month, 2) + "-" + Padded(t.day, 2) + "T"
    + Padded(t.hour, 2) + ":" + Padded(t.minute, 2) + ":" + Padded(t.second, 2) + Fraction(t.nanos) + "Z"
  }

  function Field(s: string): string {
    Decimal(|s|) + ":" + s
  }

  function SealText(f: SealedFields): string {
    Field(f.envelopeId) + "|" + Field(f.tenantId) + "|" + Field(f.traceId) + "|" + FormatTime(f.receivedAt) + "|"
    + Field(f.contentType) + "|" + Field(f.sourceType) + "|" + Field(f.payloadHash) + "|" + f.objectRef
  }

  // The seal itself, for whatever hash function is in use.
  method BuildEnvelopeHash(f: SealedFields, sha: string -> string) returns (hash: string)
    ensures hash == sha(SealText(f))
  {
    var builder := "";
    builder := builder + Field(f.envelopeId);
    builder := builder + "|";
    builder := builder + Field(f.tenantId);
    builder := builder + "|";
    builder := builder + Field(f.traceId);
    builder := builder + "|";
    builder := builder + FormatTime(f.receivedAt);
    builder := builder + "|";
    builder := builder + Field(f.contentType);
    builder := builder + "|";
    builder := builder + Field(f.sourceType);
    builder := builder + "|";
    ghost var soFar := builder;
    assert soFar == Field(f.envelopeId) + "|" + Field(f.tenantId) + "|" + Field(f.traceId) + "|"
                    + FormatTime(f.receivedAt) + "|" + Field(f.contentType) + "|" + Field(f.sourceType) + "|";
    builder := builder + (Decimal(|f.payloadHash|) + ":");
    builder := builder + f.payloadHash;
    assert builder == soFar + Field(f.payloadHash);
    builder := builder + "|";
    builder := builder + f.objectRef;
    hash := sha(builder);
  }

  // ---- Reading -------------------------------------------------------------------

  // A length-prefixed field, and what follows it.
  function ReadField(s: string): Option<(string, string)> {
    var (digits, rest) := SpanDigits(s);
    var n := ParseNat(digits);
    if digits == "" || rest == "" || rest[0] != ':' || |rest| < 1 + n then None
    else Some((rest[1..1 + n], rest[1 + n..]))
  }

  function ReadChar(s: string, c: char): Option<string> {
    if s != "" && s[0] == c then Some(s[1..]) else None
  }

  // The text before the first bar, and what follows that bar.
  function ReadToBar(s: string): Option<(string, string)> {
    if s == "" then None
    else if s[0] == '|' then Some(("", s[1..]))
    else
      var r := ReadToBar(s[1..]);
      if r.None? then None else Some(([s[0]] + r.value.0, r.value.1))
  }

  // A number, and what follows it.
  function ReadNat(s: string): Option<(nat, string)> {
    var (digits, rest) := SpanDigits(s);
    if digits == "" then None else Some((ParseNat(digits), rest))
  }

  function PadRight(s: string, width: nat): string
    decreases width - |s|
  {
    if |s| >= width then s else PadRight(s + "0", width)
  }

  function ReadFraction(s: string): (nat, string) {
    if s == "" || s[0] != '.' then (0, s)
    else
      var (digits, rest) := SpanDigits(s[1..]);
      PadRightDigits(digits, 9);
      (ParseNat(PadRight(digits, 9)), rest)
  }

  // The numbers that the listed separators follow, in turn.
  function ReadNats(s: string, separators: string): Option<(seq<nat>, string)>
    decreases |separators|
  {
    if separators == "" then Some(([], s))
    else
      var n := ReadNat(s);
      if n.None? then None
      else
        var rest := ReadChar(n.value.1, separators[0]);
        if rest.None? then None
        else
          var more := ReadNats(rest.value, separators[1..]);
          if more.None? then None else Some(([n.value.0] + more.value.0, more.value.1))
  }

  function ParseTime(s: string): Option<UtcTime> {
    var front := ReadNats(s, "--T::");
    if front.None? || |front.value.0| != 5 then None
    else
      var second := ReadNat(front.value.1);
      if second.None? then None
      else
        var (nanos, rest) := ReadFraction(second.value.1);
        var n := front.value.0;
        if rest != "Z" then None else Some(UtcTime(n[0], n[1], n[2], n[3], n[4], second.value.0, nanos))
  }

  // A length-prefixed field with the bar after it.
  function ReadPart(s: string): Option<(string, string)> {
    var f := ReadField(s);
    if f.None? then None
    else
      var rest := ReadChar(f.value.1, '|');
      if rest.None? then None else Some((f.value.0, rest.value))
  }

  function Unseal(s: string): Option<SealedFields> {
    var a := ReadPart(s);
    if a.None? then None else
    var b := ReadPart(a.value.1);
    if b.None? then None else
    var c := ReadPart(b.value.1);
    if c.None? then None else
    var t := ReadToBar(c.value.1);
    if t.None? then None else
    var time := ParseTime(t.value.0);
    if time.None? then None else
    var d := ReadPart(t.value.1);
    if d.None? then None else
    var e := ReadPart(d.value.1);
    if e.None? then None else
    var h := ReadPart(e.value.1);
    if h.None? then None else
    Some(SealedFields(a.value.0, b.value.0, c.value.0, time.value, d.value.0, e.value.0, h.value.0, h.value.1))
  }

  // ---- Reading back what was written ---------------------------------------------

  lemma {:induction false} PadRightDigits(s: string, width: nat)
    requires AllDigits(s)
    ensures AllDigits(PadRight(s, width))
    decreases width - |s|
  {
    if |s| < width {
      PadRightDigits(s + "0", width);
    }
  }

  lemma ReadPartWritten(s: string, rest: string)
    ensures ReadPart(Field(s) + "|" + rest) == Some((s, rest))
  {
    var tail := ":" + s + "|" + rest;
    assert Field(s) + "|" + rest == Decimal(|s|) + tail;
    DecimalRoundTrip(|s|);
    SpanDigitsStops(Decimal(|s|), tail);
    assert tail[1..1 + |s|] == s && tail[1 + |s|..] == "|" + rest;
  }

  lemma {:induction false} ReadToBarWritten(s: string, rest: string)
    requires NoBar(s)
    ensures ReadToBar(s + "|" + rest) == Some((s, rest))
  {
    if s != "" {
      assert (s + "|" + rest)[1..] == s[1..] + "|" + rest && s == [s[0]] + s[1..];
      ReadToBarWritten(s[1..], rest);
    } else {
      assert (s + "|" + rest)[1..] == rest;
    }
  }

  lemma {:induction false} ParseLeadingZero(s: string)
    requires AllDigits(s)
    ensures AllDigits("0" + s) && ParseNat("0" + s) == ParseNat(s)
  {
    if s == "" {
      assert "0" + s == "0" && "0"[..0] == "";
    } else {
      ParseLeadingZero(s[..|s| - 1]);
      assert ("0" + s)[..|s|] == "0" + s[..|s| - 1];
    }
  }

  lemma {:induction false} PadLeftSame(s: string, width: nat)
    requires AllDigits(s)
    ensures AllDigits(PadLeft(s, width)) && ParseNat(PadLeft(s, width)) == ParseNat(s)
    decreases width - |s|
  {
    if |s| < width {
      ParseLeadingZero(s);
      PadLeftSame("0" + s, width);
    }
  }

  lemma PaddedReads(n: nat, width: nat)
    ensures Padded(n, width) != "" && AllDigits(Padded(n, width)) && ParseNat(Padded(n, width)) == n
  {
    DecimalRoundTrip(n);
    PadLeftSame(Decimal(n), width);
  }

  lemma ReadNatWritten(n: nat, width: nat, rest: string)
    requires rest == "" || !IsDigit(rest[0])
    ensures ReadNat(Padded(n, width) + rest) == Some((n, rest))
  {
    PaddedReads(n, width);
    SpanDigitsStops(Padded(n, width), rest);
  }

  // ---- The time ------------------------------------------------------------------

  lemma {:induction false} DropZerosKeeps(s: string, width: nat)
    requires AllDigits(s) && |s| == width
    ensures AllDigits(DropZeros(s)) && PadRight(DropZeros(s), width) == s
  {
    if s != "" && s[|s| - 1] == '0' {
      var t := s[..|s| - 1];
      DropZerosKeeps(t, width - 1);
      PadRightFurther(DropZeros(t), width - 1);
      assert t + "0" == s;
    }
  }

  lemma {:induction false} PadRightFurther(s: string, width: nat)
    requires |s| <= width
    ensures PadRight(s, width + 1) == PadRight(s, width) + "0"
    decreases width - |s|
  {
    if |s| < width {
      PadRightFurther(s + "0", width);
    } else {
      assert PadRight(s + "0", width + 1) == s + "0";
    }
  }

  lemma {:induction false} DecimalShort(n: nat, width: nat, bound: nat)
    requires n < bound && 1 <= width && bound == Power10(width)
    ensures |Decimal(n)| <= width
  {
    if n >= 10 {
      assert width > 1;
      assert n / 10 < Power10(width - 1);
      DecimalShort(n / 10, width - 1, Power10(width - 1));
    }
  }

  lemma PaddedWidth(nanos: nat)
    requires nanos < 1_000_000_000
    ensures |Padded(nanos, 9)| == 9
  {
    assert Power10(3) == 1000;
    assert Power10(6) == 1_000_000;
    assert Power10(9) == 1_000_000_000;
    DecimalShort(nanos, 9, 1_000_000_000);
  }

  lemma ReadFractionWritten(nanos: nat)
    requires nanos < 1_000_000_000
    ensures ReadFraction(Fraction(nanos) + "Z") == (nanos, "Z")
    ensures NoBar(Fraction(nanos)) && (Fraction(nanos) + "Z")[0] in ".Z"
  {
    hide Padded;
    if nanos > 0 {
      PaddedReads(nanos, 9);
      PaddedWidth(nanos);
      var digits := DropZeros(Padded(nanos, 9));
      DropZerosKeeps(Padded(nanos, 9), 9);
      SpanDigitsStops(digits, "Z");
      var text := Fraction(nanos) + "Z";
      assert text[0] == '.' && text[1..] == digits + "Z";
    } else {
      assert Fraction(nanos) + "Z" == "Z";
    }
  }

  lemma ReadNatsStep(n: nat, width: nat, sep: char, rest: string, separators: string)
    requires !IsDigit(sep) && separators != "" && separators[0] == sep
    ensures var more := ReadNats(rest, separators[1..]);
            ReadNats(Padded(n, width) + [sep] + rest, separators)
            == if more.None? then None else Some(([n] + more.value.0, more.value.1))
  {
    ReadNatWritten(n, width, [sep] + rest);
    assert Padded(n, width) + [sep] + rest == Padded(n, width) + ([sep] + rest);
    assert ([sep] + rest)[1..] == rest;
  }

  lemma Regroup(l: string, f: string, sep: string, t: string)
    ensures (l + f + sep) + t == l + (f + sep + t)
  {
  }

  lemma ReadClock(hour: nat, minute: nat, rest: string)
    ensures ReadNats(Padded(hour, 2) + ":" + (Padded(minute, 2) + ":" + rest), "::") == Some(([hour, minute], rest))
  {
    assert ReadNats(rest, "") == Some(([], rest));
    ReadNatsStep(minute, 2, ':', rest, ":");
    assert ":"[1..] == "";
    ReadNatsStep(hour, 2, ':', Padded(minute, 2) + ":" + rest, "::");
    assert "::"[1..] == ":";
    assert [hour] + ([minute] + []) == [hour, minute];
  }

  // A printed time reads back, and contains no bar.
  lemma TimeRoundTrip(t: UtcTime)
    requires t.Valid()
    ensures ParseTime(FormatTime(t)) == Some(t) && NoBar(FormatTime(t))
  {
    hide Padded, Fraction;
    var tail := Fraction(t.nanos) + "Z";
    var s5 := Padded(t.second, 2) + tail;
    var s4 := Padded(t.minute, 2) + ":" + s5;
    var s3 := Padded(t.hour, 2) + ":" + s4;
    var s2 := Padded(t.day, 2) + "T" + s3;
    var s1 := Padded(t.month, 2) + "-" + s2;
    TimeText(t);
    TimeHasNoBar(t);
    ReadFractionWritten(t.nanos);
    ReadNatWritten(t.second, 2, tail);
    ReadClock(t.hour, t.minute, s5);
    ReadNatsStep(t.day, 2, 'T', s3, "T::");
    assert "T::"[1..] == "::";
    ReadNatsStep(t.month, 2, '-', s2, "-T::");
    assert "-T::"[1..] == "T::";
    ReadNatsStep(t.year, 4, '-', s1, "--T::");
    assert "--T::"[1..] == "-T::";
  }

  lemma TimeText(t: UtcTime)
    requires t.Valid()
    ensures FormatTime(t) ==
            Padded(t.year, 4) + "-" + (Padded(t.month, 2) + "-" + (Padded(t.day, 2) + "T" + (Padded(t.hour, 2) + ":"
            + (Padded(t.minute, 2) + ":" + (Padded(t.second, 2) + (Fraction(t.nanos) + "Z"))))))
  {
    var l1 := Padded(t.year, 4) + "-";
    var l2 := l1 + Padded(t.month, 2) + "-";
    var l3 := l2 + Padded(t.day, 2) + "T";
    var l4 := l3 + Padded(t.hour, 2) + ":";
    var l5 := l4 + Padded(t.minute, 2) + ":";
    var t5 := Padded(t.second, 2) + (Fraction(t.nanos) + "Z");
    var t4 := Padded(t.minute, 2) + ":" + t5;
    var t3 := Padded(t.hour, 2) + ":" + t4;
    var t2 := Padded(t.day, 2) + "T" + t3;
    Regroup(l1, Padded(t.month, 2), "-", t2);
    Regroup(l2, Padded(t.day, 2), "T", t3);
    Regroup(l3, Padded(t.hour, 2), ":", t4);
    Regroup(l4, Padded(t.minute, 2), ":", t5);
    assert FormatTime(t) == l5 + t5;
  }

  // The text of a time is digits, separators and nothing else.
  lemma TimeHasNoBar(t: UtcTime)
    requires t.Valid()
    ensures NoBar(FormatTime(t))
  {
    PaddedReads(t.year, 4);
    PaddedReads(t.month, 2);
    PaddedReads(t.day, 2);
    PaddedReads(t.hour, 2);
    PaddedReads(t.minute, 2);
    PaddedReads(t.second, 2);
    ReadFractionWritten(t.nanos);
  }

  // ---- The whole seal --------------------------------------------------------------

  lemma SealTextParts(f: SealedFields)
    ensures SealText(f) ==
            Field(f.envelopeId) + "|" + (Field(f.tenantId) + "|" + (Field(f.traceId) + "|" + (FormatTime(f.receivedAt) + "|"
            + (Field(f.contentType) + "|" + (Field(f.sourceType) + "|" + (Field(f.payloadHash) + "|" + f.objectRef))))))
  {
    var l1 := Field(f.envelopeId) + "|";
    var l2 := l1 + Field(f.tenantId) + "|";
    var l3 := l2 + Field(f.traceId) + "|";
    var l4 := l3 + FormatTime(f.receivedAt) + "|";
    var l5 := l4 + Field(f.contentType) + "|";
    var l6 := l5 + Field(f.sourceType) + "|";
    var t6 := Field(f.payloadHash) + "|" + f.objectRef;
    var t5 := Field(f.sourceType) + "|" + t6;
    var t4 := Field(f.contentType) + "|" + t5;
    var t3 := FormatTime(f.receivedAt) + "|" + t4;
    var t2 := Field(f.traceId) + "|" + t3;
    Regroup(l1, Field(f.tenantId), "|", t2);
    Regroup(l2, Field(f.traceId), "|", t3);
    Regroup(l3, FormatTime(f.receivedAt), "|", t4);
    Regroup(l4, Field(f.contentType), "|", t5);
    Regroup(l5, Field(f.sourceType), "|", t6);
    Regroup(l6, Field(f.payloadHash), "|", f.objectRef);
    assert SealText(f) == (l6 + Field(f.payloadHash) + "|") + f.objectRef;
  }

  // Every field can be read back, whatever the fields contain.
  lemma SealRoundTrip(f: SealedFields)
    requires f.receivedAt.Valid()
    ensures Unseal(SealText(f)) == Some(f)
  {
    var t6 := Field(f.payloadHash) + "|" + f.objectRef;
    var t5 := Field(f.sourceType) + "|" + t6;
    var t4 := Field(f.contentType) + "|" + t5;
    var t3 := FormatTime(f.receivedAt) + "|" + t4;
    var t2 := Field(f.traceId) + "|" + t3;
    var t1 := Field(f.tenantId) + "|" + t2;
    SealTextParts(f);
    TimeRoundTrip(f.receivedAt);
    ReadPartWritten(f.envelopeId, t1);
    ReadPartWritten(f.tenantId, t2);
    ReadPartWritten(f.traceId, t3);
    ReadToBarWritten(FormatTime(f.receivedAt), t4);
    ReadPartWritten(f.contentType, t5);
    ReadPartWritten(f.sourceType, t6);
    ReadPartWritten(f.payloadHash, f.objectRef);
  }

  // Two envelopes that differ in any sealed field are hashed from different
  // texts, so with a collision-free hash they have different seals.
  lemma SealsDiffer(f: SealedFields, g: SealedFields, sha: string -> string)
    requires f.receivedAt.Valid() && g.receivedAt.Valid() && f != g
    requires forall x, y :: sha(x) == sha(y) ==> x == y
    ensures sha(SealText(f)) != sha(SealText(g))
  {
    SealRoundTrip(f);
    SealRoundTrip(g);
  }
}
