/** Merging retrieved chunks from two sources without repeating a key. */
module Merging {
  import opened Text
  import opened Chunks

  const KEY_TEXT_LIMIT := 160

  // The length of a character in UTF-8.
  function Utf8Size(c: char): nat {
    if c < '\U{80}' then 1 else if c < '\U{800}' then 2 else if c < '\U{10000}' then 3 else 4
  }

  // How many characters there are that n bytes of UTF-8 can hold: 7 bits in one byte,
  // and 5n + 1 in more.
  function Capacity(n: nat): nat {
    if n == 0 then 0 else if n == 1 then 128 else if n == 2 then 2048 else 32 * Capacity(n - 1)
  }

  // The size is that of the shortest form that holds the character.
  lemma Utf8SizeIsShortest(c: char)
    ensures 1 <= Utf8Size(c) <= 4 && Capacity(Utf8Size(c) - 1) <= c as int < Capacity(Utf8Size(c))
  {
    assert Capacity(3) == 0x10000 && Capacity(4) == 0x200000;
  }

  function Bytes(s: string): nat {
    if s == "" then 0 else Utf8Size(s[0]) + Bytes(s[1..])
  }

  // The first n bytes of a text; each byte left of a character cut in two reads as
  // the replacement character.
  function CutBytes(s: string, n: nat): string {
    if s == "" then ""
    else if Utf8Size(s[0]) <= n then [s[0]] + CutBytes(s[1..], n - Utf8Size(s[0]))
    else seq(n, _ => '\U{FFFD}')
  }

  // Cut after k characters, and what is left of the next one.
  predicate CutAfter(s: string, cut: string, n: nat, k: nat) {
    k <= |s| && s[..k] <= cut && |cut| <= k + 3 && Bytes(s[..k]) <= n
  }

  // A text within the limit is kept whole; of a longer one a prefix is kept, and at
  // most three replacement characters.
  lemma {:induction false} CutBytesKeeps(s: string, n: nat)
    ensures Bytes(s) <= n ==> CutBytes(s, n) == s
    ensures exists k: nat :: CutAfter(s, CutBytes(s, n), n, k)
  {
    hide CutAfter;
    if s != "" && Utf8Size(s[0]) <= n {
      var rest := CutBytes(s[1..], n - Utf8Size(s[0]));
      CutBytesKeeps(s[1..], n - Utf8Size(s[0]));
      var k: nat :| CutAfter(s[1..], rest, n - Utf8Size(s[0]), k);
      OneMoreCharacter(s, rest, n, k);
      assert CutBytes(s, n) == [s[0]] + rest && s == [s[0]] + s[1..];
      assert CutAfter(s, CutBytes(s, n), n, k + 1);
    } else {
      CutAtOnce(s, n);
      assert CutAfter(s, CutBytes(s, n), n, 0);
    }
  }

  lemma CutAtOnce(s: string, n: nat)
    requires s == "" || Utf8Size(s[0]) > n
    ensures CutAfter(s, CutBytes(s, n), n, 0)
  {
    assert s[..0] == "";
  }

  lemma OneMoreCharacter(s: string, rest: string, n: nat, k: nat)
    requires s != "" && Utf8Size(s[0]) <= n && CutAfter(s[1..], rest, n - Utf8Size(s[0]), k)
    ensures CutAfter(s, [s[0]] + rest, n, k + 1)
  {
    hide Utf8Size;
    assert s[..k + 1] == [s[0]] + s[1..][..k];
    assert s[..k + 1][1..] == s[1..][..k];
  }

  // The key under which two chunks count as the same; empty when there is nothing to compare.
  function RetrievedChunkKey(c: RetrievedChunk): string {
    var source, text := Trim(c.sourceType), Trim(c.text);
    if source == "" && text == "" then "" else Lower(source + "|" + CutBytes(text, KEY_TEXT_LIMIT))
  }

  // ---- When two chunks count as the same ------------------------------------------

  // What the key makes of a chunk's source, and of its text: the first 160 bytes.
  function KeySource(c: RetrievedChunk): string {
    Lower(Trim(c.sourceType))
  }

  function KeyText(c: RetrievedChunk): string {
    Lower(CutBytes(Trim(c.text), 160))
  }

  lemma LowerAppends(s: string, t: string)
    ensures Lower(s + t) == Lower(s) + Lower(t)
  {
  }

  lemma KeyIs(c: RetrievedChunk)
    requires Trim(c.sourceType) != "" || Trim(c.text) != ""
    ensures RetrievedChunkKey(c) == KeySource(c) + ("|" + KeyText(c)) != ""
  {
    hide Trim, CutBytes, Lower;
    var source, text := Trim(c.sourceType), CutBytes(Trim(c.text), 160);
    assert source + "|" + text == source + ("|" + text);
    LowerAppends(source, "|" + text);
    LowerAppends("|", text);
    LowerBar();
  }

  lemma LowerBar()
    ensures Lower("|") == "|"
  {
  }

  // Only a chunk with neither source nor text has nothing to compare, and is never dropped.
  lemma NoKeyIff(c: RetrievedChunk)
    ensures RetrievedChunkKey(c) == "" <==> Trim(c.sourceType) == "" && Trim(c.text) == ""
  {
    hide Trim, CutBytes, Lower, RetrievedChunkKey;
    if Trim(c.sourceType) != "" || Trim(c.text) != "" {
      KeyIs(c);
    } else {
      assert RetrievedChunkKey(c) == "" by {
        KeylessIs(c);
      }
    }
  }

  lemma KeylessIs(c: RetrievedChunk)
    requires Trim(c.sourceType) == "" && Trim(c.text) == ""
    ensures RetrievedChunkKey(c) == ""
  {
  }

  // Two chunks with a key count as the same exactly when source and the first 160 bytes
  // of the text are the same in lower case -- or the longer source goes on with a bar
  // and what it says there stands before a bar in the other's text.
  lemma SameKeyIff(c: RetrievedChunk, d: RetrievedChunk)
    requires RetrievedChunkKey(c) != "" && RetrievedChunkKey(d) != "" && |KeySource(c)| <= |KeySource(d)|
    ensures RetrievedChunkKey(c) == RetrievedChunkKey(d) <==>
            || (KeySource(c) == KeySource(d) && KeyText(c) == KeyText(d))
            || exists r :: KeySource(d) == KeySource(c) + "|" + r && KeyText(c) == r + "|" + KeyText(d)
  {
    hide RetrievedChunkKey, KeySource, KeyText, Trim;
    NoKeyIff(c);
    NoKeyIff(d);
    KeyIs(c);
    KeyIs(d);
    SameWithBarIff(KeySource(c), KeyText(c), KeySource(d), KeyText(d));
  }

  lemma SameWithBarIff(a: string, x: string, b: string, y: string)
    requires |a| <= |b|
    ensures a + ("|" + x) == b + ("|" + y) <==> (a == b && x == y) || exists r :: b == a + "|" + r && x == r + "|" + y
  {
    var s, t := a + ("|" + x), b + ("|" + y);
    if s == t {
      assert a == s[..|a|] == t[..|a|] == b[..|a|];
      if |a| == |b| {
        assert x == s[|a| + 1..] && y == t[|b| + 1..];
      } else {
        var r := b[|a| + 1..];
        assert s[|a|] == '|' && t[|a|] == b[|a|];
        assert b == a + "|" + r;
        assert x == s[|a| + 1..] && t[|a| + 1..] == r + ("|" + y);
        assert r + ("|" + y) == r + "|" + y;
      }
    }
    if r :| b == a + "|" + r && x == r + "|" + y {
      assert s == (a + "|" + r) + ("|" + y);
    }
  }

  // Two texts that agree in their first n bytes are cut to the same.
  lemma {:induction false} CutSeesTheFront(p: string, x: string, y: string, n: nat)
    requires Bytes(p) >= n
    ensures CutBytes(p + x, n) == CutBytes(p + y, n)
  {
    if p == "" {
      NothingCut(x);
      NothingCut(y);
      assert p + x == x && p + y == y;
    } else if Utf8Size(p[0]) <= n {
      assert (p + x)[1..] == p[1..] + x && (p + y)[1..] == p[1..] + y;
      CutSeesTheFront(p[1..], x, y, n - Utf8Size(p[0]));
    }
  }

  lemma NothingCut(x: string)
    ensures CutBytes(x, 0) == ""
  {
  }

  // ---- The merge, for any way of giving items keys -----------------------------

  function Keys<T>(key: T -> string, s: seq<T>): set<string> {
    if s == [] then {}
    else Keys(key, s[..|s| - 1]) + if key(s[|s| - 1]) == "" then {} else {key(s[|s| - 1])}
  }

  // Item i of the secondary list is kept: it has no key, or a key that neither
  // the primary list nor an earlier secondary item has.
  predicate IsNew<T>(key: T -> string, primary: seq<T>, secondary: seq<T>, i: nat)
    requires i < |secondary|
  {
    key(secondary[i]) == "" || key(secondary[i]) !in Keys(key, primary) + Keys(key, secondary[..i])
  }

  // The kept items, in order.
  function New<T>(key: T -> string, primary: seq<T>, secondary: seq<T>): seq<T> {
    if secondary == [] then []
    else
      var n := |secondary| - 1;
      New(key, primary, secondary[..n]) + if IsNew(key, primary, secondary, n) then [secondary[n]] else []
  }

  function Merge<T>(key: T -> string, primary: seq<T>, secondary: seq<T>): seq<T> {
    primary + New(key, primary, secondary)
  }

  method MergeRetrievedChunks(primary: seq<RetrievedChunk>, secondary: seq<RetrievedChunk>)
    returns (out: seq<RetrievedChunk>)
    ensures out == Merge(RetrievedChunkKey, primary, secondary)
  {
    out := MergeBy(RetrievedChunkKey, primary, secondary);
  }

  method MergeBy<T>(keyOf: T -> string, primary: seq<T>, secondary: seq<T>) returns (out: seq<T>)
    ensures out == Merge(keyOf, primary, secondary)
  {
    out := [];
    var seen: set<string> := {};
    for i := 0 to |primary|
      invariant out == primary[..i] && seen == Keys(keyOf, primary[..i])
    {
      var key := keyOf(primary[i]);
      if key != "" {
        seen := seen + {key};
      }
      out := out + [primary[i]];
      assert primary[..i + 1][..i] == primary[..i];
    }
    assert primary[..|primary|] == primary;
    for i := 0 to |secondary|
      invariant out == primary + New(keyOf, primary, secondary[..i])
      invariant seen == Keys(keyOf, primary) + Keys(keyOf, secondary[..i])
    {
      var key := keyOf(secondary[i]);
      assert secondary[..i + 1][..i] == secondary[..i];
      if key != "" {
        if key in seen {
          continue;
        }
        seen := seen + {key};
      }
      out := out + [secondary[i]];
    }
    assert secondary[..|secondary|] == secondary;
  }

  // ---- Laws ---------------------------------------------------------------------

  lemma KeysSnoc<T>(key: T -> string, s: seq<T>, x: T)
    ensures Keys(key, s + [x]) == Keys(key, s) + if key(x) == "" then {} else {key(x)}
  {
    assert (s + [x])[..|s|] == s;
  }

  lemma {:induction false} KeysAppend<T>(key: T -> string, s: seq<T>, t: seq<T>)
    ensures Keys(key, s + t) == Keys(key, s) + Keys(key, t)
  {
    if t == [] {
      assert s + t == s;
    } else {
      var n := |t| - 1;
      KeysAppend(key, s, t[..n]);
      assert s + t == (s + t[..n]) + [t[n]];
      KeysSnoc(key, s + t[..n], t[n]);
    }
  }

  lemma {:induction false} KeyListed<T>(key: T -> string, s: seq<T>)
    ensures forall k :: k in Keys(key, s) <==> k != "" && exists i :: 0 <= i < |s| && key(s[i]) == k
  {
    if s != [] {
      KeyListed(key, s[..|s| - 1]);
      forall k | k != "" && exists i :: 0 <= i < |s| && key(s[i]) == k ensures k in Keys(key, s) {
        var i :| 0 <= i < |s| && key(s[i]) == k;
        assert i < |s| - 1 ==> s[..|s| - 1][i] == s[i];
      }
    }
  }

  // Merging loses no key and adds none.
  lemma {:induction false} MergeKeys<T>(key: T -> string, p: seq<T>, s: seq<T>)
    ensures Keys(key, Merge(key, p, s)) == Keys(key, p) + Keys(key, s)
  {
    if s == [] {
      assert Merge(key, p, s) == p;
    } else {
      var n := |s| - 1;
      MergeKeys(key, p, s[..n]);
      if IsNew(key, p, s, n) {
        assert Merge(key, p, s) == Merge(key, p, s[..n]) + [s[n]];
        KeysSnoc(key, Merge(key, p, s[..n]), s[n]);
      } else {
        assert Merge(key, p, s) == Merge(key, p, s[..n]);
      }
    }
  }

  predicate Fresh<T>(key: T -> string, p: seq<T>, m: seq<T>) {
    && (forall i :: 0 <= i < |m| && key(m[i]) != "" ==> key(m[i]) !in Keys(key, p))
    && (forall i, j :: 0 <= i < j < |m| && key(m[i]) != "" ==> key(m[i]) != key(m[j]))
  }

  // No appended item repeats a key, neither of the primary list nor of another appended item.
  lemma {:induction false} NewItemsAreFresh<T>(key: T -> string, p: seq<T>, s: seq<T>)
    ensures Fresh(key, p, New(key, p, s)) && Keys(key, New(key, p, s)) <= Keys(key, s)
  {
    if s != [] {
      var n := |s| - 1;
      var m := New(key, p, s[..n]);
      NewItemsAreFresh(key, p, s[..n]);
      KeyListed(key, m);
      KeysSnoc(key, m, s[n]);
      assert New(key, p, s) == if IsNew(key, p, s, n) then m + [s[n]] else m;
    }
  }

  // Merging twice is merging the concatenation.
  lemma {:induction false} MergeAssociates<T>(key: T -> string, p: seq<T>, a: seq<T>, b: seq<T>)
    ensures Merge(key, Merge(key, p, a), b) == Merge(key, p, a + b)
  {
    hide Keys;
    if b == [] {
      assert a + b == a;
    } else {
      var n := |b| - 1;
      MergeAssociates(key, p, a, b[..n]);
      var ab := a + b;
      assert ab[..|ab| - 1] == a + b[..n] && ab[|ab| - 1] == b[n];
      MergeKeys(key, p, a);
      KeysAppend(key, a, b[..n]);
      var last := if IsNew(key, p, ab, |ab| - 1) then [b[n]] else [];
      assert Merge(key, p, ab) == Merge(key, p, a + b[..n]) + last;
      assert Merge(key, Merge(key, p, a), b) == Merge(key, Merge(key, p, a), b[..n]) + last;
    }
  }

  predicate AllKeyed<T>(key: T -> string, s: seq<T>) {
    forall i :: 0 <= i < |s| ==> key(s[i]) != ""
  }

  // What is already covered by key adds nothing but its keyless items.
  lemma {:induction false} CoveredAddsNothing<T>(key: T -> string, p: seq<T>, s: seq<T>)
    requires Keys(key, s) <= Keys(key, p)
    ensures New(key, p, s) == [] <==> AllKeyed(key, s)
  {
    if s != [] {
      var n := |s| - 1;
      CoveredAddsNothing(key, p, s[..n]);
      assert AllKeyed(key, s) <==> AllKeyed(key, s[..n]) && key(s[n]) != "";
    }
  }

  // Merging the same list again changes nothing, exactly when all its items have keys.
  lemma MergeIdempotentIff<T>(key: T -> string, p: seq<T>, s: seq<T>)
    ensures Merge(key, Merge(key, p, s), s) == Merge(key, p, s) <==> AllKeyed(key, s)
  {
    MergeKeys(key, p, s);
    CoveredAddsNothing(key, Merge(key, p, s), s);
    assert |Merge(key, Merge(key, p, s), s)| == |Merge(key, p, s)| + |New(key, Merge(key, p, s), s)|;
  }
}
