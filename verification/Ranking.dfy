/**
  Balanced trimming of retrieved chunks: pinned chunks first, then the rest dealt
  round by round from one score-ordered bucket per source service.
 */
module Ranking {
  import opened Text
  import opened StableSort
  import opened Chunks

  const PINNED_SOURCE := "evidence_batch_exact_counts"

  predicate IsPinned(c: RetrievedChunk) {
    Lower(Trim(c.sourceType)) == PINNED_SOURCE
  }

  function SourceServiceBucket(sourceType: string): string {
    var s := Lower(Trim(sourceType));
    if HasPrefix(s, "edge_") then "edge"
    else if HasPrefix(s, "intent_") then "intent"
    else if HasPrefix(s, "relay_") then "relay"
    else if HasPrefix(s, "intelligence_") then "intelligence"
    else if HasPrefix(s, "evidence_") then "evidence"
    else if HasPrefix(s, "outcome_") then "outcome"
    else s
  }

  function BucketOf(c: RetrievedChunk): string {
    SourceServiceBucket(c.sourceType)
  }

  function Pinned(chunks: seq<RetrievedChunk>): seq<RetrievedChunk> {
    if chunks == [] then [] else (if IsPinned(chunks[0]) then [chunks[0]] else []) + Pinned(chunks[1..])
  }

  function Unpinned(chunks: seq<RetrievedChunk>): seq<RetrievedChunk> {
    if chunks == [] then [] else (if IsPinned(chunks[0]) then [] else [chunks[0]]) + Unpinned(chunks[1..])
  }

  // The chunks of one bucket, in order.
  function Only(chunks: seq<RetrievedChunk>, k: string): seq<RetrievedChunk> {
    if chunks == [] then [] else (if BucketOf(chunks[0]) == k then [chunks[0]] else []) + Only(chunks[1..], k)
  }

  function Ranked(chunks: seq<RetrievedChunk>): seq<RetrievedChunk> {
    SortDesc(chunks, ScoreOf)
  }

  // ---- Dealing ---------------------------------------------------------------

  // What round r deals from the first c buckets.
  function Deal(b: seq<seq<RetrievedChunk>>, r: nat, c: nat): seq<RetrievedChunk>
    requires c <= |b|
  {
    if c == 0 then [] else Deal(b, r, c - 1) + if r < |b[c - 1]| then [b[c - 1][r]] else []
  }

  // What the first `rounds` rounds deal from all buckets.
  function Deals(b: seq<seq<RetrievedChunk>>, rounds: nat): seq<RetrievedChunk> {
    if rounds == 0 then [] else Deals(b, rounds - 1) + Deal(b, rounds - 1, |b|)
  }

  function Dealt(b: seq<seq<RetrievedChunk>>, level: nat, cut: nat): seq<RetrievedChunk>
    requires cut <= |b|
  {
    Deals(b, level) + Deal(b, level, cut)
  }

  function Buckets(chunks: seq<RetrievedChunk>, keys: seq<string>): (b: seq<seq<RetrievedChunk>>)
    ensures |b| == |keys| && forall i :: 0 <= i < |keys| ==> b[i] == Ranked(Only(chunks, keys[i]))
  {
    seq(|keys|, i requires 0 <= i < |keys| => Ranked(Only(chunks, keys[i])))
  }

  predicate Distinct(keys: seq<string>) {
    forall i, j :: 0 <= i < j < |keys| ==> keys[i] != keys[j]
  }

  predicate Covers(keys: seq<string>, chunks: seq<RetrievedChunk>) {
    forall c <- chunks :: BucketOf(c) in keys
  }

  // An admissible bucket order: every nonempty bucket once, best head first.
  // Buckets with equally scored heads may come in either order.
  ghost predicate KeyOrder(keys: seq<string>, chunks: seq<RetrievedChunk>) {
    && Distinct(keys)
    && Covers(keys, chunks)
    && (forall i :: 0 <= i < |keys| ==> Ranked(Only(chunks, keys[i])) != [])
    && (forall i, j :: 0 <= i < j < |keys| ==>
          Ranked(Only(chunks, keys[i]))[0].score >= Ranked(Only(chunks, keys[j]))[0].score)
  }

  ghost predicate DealtFrom(chunks: seq<RetrievedChunk>, topK: nat, out: seq<RetrievedChunk>,
                            keys: seq<string>, level: nat, cut: nat) {
    && KeyOrder(keys, chunks)
    && cut <= |keys|
    && |out| == topK
    && out == Dealt(Buckets(chunks, keys), level, cut)
  }

  ghost predicate IsWaterFilled(chunks: seq<RetrievedChunk>, topK: nat, out: seq<RetrievedChunk>) {
    exists keys, level, cut :: DealtFrom(chunks, topK, out, keys, level, cut)
  }

  ghost predicate IsRanked(chunks: seq<RetrievedChunk>, topK: int, out: seq<RetrievedChunk>) {
    if topK <= 0 || |chunks| <= topK then out == chunks
    else if |Pinned(chunks)| >= topK then |out| == topK && out <= Ranked(Pinned(chunks))
    else exists tail ::
        out == Pinned(chunks) + tail && IsWaterFilled(Unpinned(chunks), topK - |Pinned(chunks)|, tail)
  }

  // ---- The dealt sequence, bucket by bucket ----------------------------------

  lemma {:induction false} OnlyAppend(s: seq<RetrievedChunk>, t: seq<RetrievedChunk>, k: string)
    ensures Only(s + t, k) == Only(s, k) + Only(t, k)
  {
    hide BucketOf;
    if s == [] {
      assert s + t == t;
    } else {
      var first := if BucketOf(s[0]) == k then [s[0]] else [];
      assert (s + t)[0] == s[0] && (s + t)[1..] == s[1..] + t;
      OnlyAppend(s[1..], t, k);
      assert Only(s + t, k) == first + (Only(s[1..], k) + Only(t, k));
    }
  }

  lemma {:induction false} OnlyIsOf(s: seq<RetrievedChunk>, k: string)
    ensures forall c <- Only(s, k) :: BucketOf(c) == k && c in s
  {
    if s != [] {
      OnlyIsOf(s[1..], k);
    }
  }

  // Each bucket's key labels exactly its own chunks.
  ghost predicate Labelled(b: seq<seq<RetrievedChunk>>, keys: seq<string>) {
    && |b| == |keys| && Distinct(keys)
    && forall i :: 0 <= i < |b| ==> forall c <- b[i] :: BucketOf(c) == keys[i]
  }

  lemma BucketsLabelled(chunks: seq<RetrievedChunk>, keys: seq<string>)
    requires Distinct(keys)
    ensures Labelled(Buckets(chunks, keys), keys)
  {
    forall i | 0 <= i < |keys| ensures forall c <- Buckets(chunks, keys)[i] :: BucketOf(c) == keys[i] {
      SortDescSpec(Only(chunks, keys[i]), ScoreOf);
      OnlyIsOf(Only(chunks, keys[i]), keys[i]);
      OnlyIsOf(chunks, keys[i]);
      forall c <- Buckets(chunks, keys)[i] ensures BucketOf(c) == keys[i] {
        assert c in multiset(Buckets(chunks, keys)[i]);
        assert c in Only(chunks, keys[i]);
      }
    }
  }

  // How many chunks bucket i contributes.
  function Share(b: seq<seq<RetrievedChunk>>, level: nat, cut: nat, i: nat): nat
    requires i < |b|
  {
    var filled := if i < cut then level + 1 else level;
    if |b[i]| <= filled then |b[i]| else filled
  }

  lemma {:induction false} DealOnly(b: seq<seq<RetrievedChunk>>, keys: seq<string>, r: nat, c: nat, i: nat)
    requires Labelled(b, keys) && c <= |b| && i < |b|
    ensures Only(Deal(b, r, c), keys[i]) == if i < c && r < |b[i]| then [b[i][r]] else []
  {
    hide BucketOf;
    if c > 0 {
      DealOnly(b, keys, r, c - 1, i);
      var last := if r < |b[c - 1]| then [b[c - 1][r]] else [];
      OnlyAppend(Deal(b, r, c - 1), last, keys[i]);
      if last != [] {
        assert last[0] in b[c - 1] && last[1..] == [];
      }
    }
  }

  lemma {:induction false} DealsOnly(b: seq<seq<RetrievedChunk>>, keys: seq<string>, rounds: nat, i: nat)
    requires Labelled(b, keys) && i < |b|
    ensures Only(Deals(b, rounds), keys[i]) == b[i][..Share(b, rounds, 0, i)]
  {
    hide BucketOf;
    if rounds > 0 {
      DealsOnly(b, keys, rounds - 1, i);
      DealOnly(b, keys, rounds - 1, |b|, i);
      OnlyAppend(Deals(b, rounds - 1), Deal(b, rounds - 1, |b|), keys[i]);
    }
  }

  // Water filling: up to the cut every bucket is served to one level more than
  // after it, as far as its chunks go; and each is served from the top.
  lemma DealtShares(b: seq<seq<RetrievedChunk>>, keys: seq<string>, level: nat, cut: nat, i: nat)
    requires Labelled(b, keys) && cut <= |b| && i < |b|
    ensures Only(Dealt(b, level, cut), keys[i]) == b[i][..Share(b, level, cut, i)]
  {
    hide BucketOf;
    DealsOnly(b, keys, level, i);
    DealOnly(b, keys, level, cut, i);
    OnlyAppend(Deals(b, level), Deal(b, level, cut), keys[i]);
    if i < cut && level < |b[i]| {
      assert b[i][..level + 1] == b[i][..level] + [b[i][level]];
    }
  }

  // ---- Counting ---------------------------------------------------------------

  function Count(s: seq<RetrievedChunk>, keys: seq<string>): nat {
    if keys == [] then 0 else |Only(s, keys[0])| + Count(s, keys[1..])
  }

  lemma {:induction false} CountCons(c: RetrievedChunk, s: seq<RetrievedChunk>, keys: seq<string>)
    requires Distinct(keys)
    ensures Count([c] + s, keys) == Count(s, keys) + if BucketOf(c) in keys then 1 else 0
  {
    if keys != [] {
      assert ([c] + s)[1..] == s;
      CountCons(c, s, keys[1..]);
      assert BucketOf(c) == keys[0] ==> BucketOf(c) !in keys[1..];
    }
  }

  lemma {:induction false} CountNone(keys: seq<string>)
    ensures Count([], keys) == 0
  {
    if keys != [] {
      CountNone(keys[1..]);
    }
  }

  // The buckets partition a covered sequence.
  lemma {:induction false} CountAll(s: seq<RetrievedChunk>, keys: seq<string>)
    requires Distinct(keys) && Covers(keys, s)
    ensures Count(s, keys) == |s|
  {
    if s == [] {
      CountNone(keys);
    } else {
      assert s == [s[0]] + s[1..];
      CountAll(s[1..], keys);
      CountCons(s[0], s[1..], keys);
    }
  }

  lemma {:induction false} SameCount(s: seq<RetrievedChunk>, t: seq<RetrievedChunk>, keys: seq<string>)
    requires forall k <- keys :: |Only(s, k)| == |Only(t, k)|
    ensures Count(s, keys) == Count(t, keys)
  {
    if keys != [] {
      SameCount(s, t, keys[1..]);
    }
  }

  lemma {:induction false} DealCovered(b: seq<seq<RetrievedChunk>>, keys: seq<string>, r: nat, c: nat)
    requires Labelled(b, keys) && c <= |b|
    ensures Covers(keys, Deal(b, r, c))
  {
    if c > 0 {
      DealCovered(b, keys, r, c - 1);
      if r < |b[c - 1]| {
        assert b[c - 1][r] in b[c - 1];
      }
    }
  }

  lemma {:induction false} DealsCovered(b: seq<seq<RetrievedChunk>>, keys: seq<string>, rounds: nat)
    requires Labelled(b, keys)
    ensures Covers(keys, Deals(b, rounds))
  {
    if rounds > 0 {
      DealsCovered(b, keys, rounds - 1);
      DealCovered(b, keys, rounds - 1, |b|);
    }
  }

  // When every bucket is used up, everything has been dealt.
  lemma ExhaustedDealsAll(chunks: seq<RetrievedChunk>, keys: seq<string>, rounds: nat)
    requires Distinct(keys) && Covers(keys, chunks)
    requires forall i :: 0 <= i < |keys| ==> |Buckets(chunks, keys)[i]| <= rounds
    ensures |Deals(Buckets(chunks, keys), rounds)| == |chunks|
  {
    var b := Buckets(chunks, keys);
    BucketsLabelled(chunks, keys);
    DealsCovered(b, keys, rounds);
    forall k <- keys ensures |Only(Deals(b, rounds), k)| == |Only(chunks, k)| {
      var i :| 0 <= i < |keys| && keys[i] == k;
      DealsOnly(b, keys, rounds, i);
      SortDescSpec(Only(chunks, k), ScoreOf);
    }
    SameCount(Deals(b, rounds), chunks, keys);
    CountAll(chunks, keys);
    CountAll(Deals(b, rounds), keys);
  }

  // ---- The procedure -----------------------------------------------------------

  lemma {:induction false} PinnedAppend(s: seq<RetrievedChunk>, c: RetrievedChunk)
    ensures Pinned(s + [c]) == Pinned(s) + if IsPinned(c) then [c] else []
  {
    hide IsPinned;
    if s == [] {
      assert s + [c] == [c] && [c][1..] == [];
    } else {
      assert (s + [c])[1..] == s[1..] + [c];
      PinnedAppend(s[1..], c);
    }
  }

  lemma {:induction false} UnpinnedAppend(s: seq<RetrievedChunk>, c: RetrievedChunk)
    ensures Unpinned(s + [c]) == Unpinned(s) + if IsPinned(c) then [] else [c]
  {
    hide IsPinned;
    if s == [] {
      assert s + [c] == [c] && [c][1..] == [];
    } else {
      assert (s + [c])[1..] == s[1..] + [c];
      UnpinnedAppend(s[1..], c);
    }
  }

  lemma {:induction false} SplitLength(s: seq<RetrievedChunk>)
    ensures |Pinned(s)| + |Unpinned(s)| == |s|
  {
    hide IsPinned;
    if s != [] {
      SplitLength(s[1..]);
    }
  }

  lemma {:induction false} UnpinnedHasNoPinned(s: seq<RetrievedChunk>)
    ensures Pinned(Unpinned(s)) == [] && Unpinned(Unpinned(s)) == Unpinned(s)
  {
    if s != [] {
      UnpinnedHasNoPinned(s[1..]);
      if IsPinned(s[0]) {
        assert Unpinned(s) == Unpinned(s[1..]);
      } else {
        assert Unpinned(s)[0] == s[0] && Unpinned(s)[1..] == Unpinned(s[1..]);
      }
    }
  }

  lemma {:induction false} NothingPinned(s: seq<RetrievedChunk>)
    requires Pinned(s) == []
    ensures Unpinned(s) == s
  {
    if s != [] {
      NothingPinned(s[1..]);
    }
  }

  method SplitPinned(chunks: seq<RetrievedChunk>) returns (pinned: seq<RetrievedChunk>, remaining: seq<RetrievedChunk>)
    ensures pinned == Pinned(chunks) && remaining == Unpinned(chunks)
    ensures |pinned| + |remaining| == |chunks|
  {
    pinned, remaining := [], [];
    for i := 0 to |chunks|
      invariant pinned == Pinned(chunks[..i]) && remaining == Unpinned(chunks[..i])
      invariant |pinned| + |remaining| == i
    {
      PinnedAppend(chunks[..i], chunks[i]);
      UnpinnedAppend(chunks[..i], chunks[i]);
      assert chunks[..i + 1] == chunks[..i] + [chunks[i]];
      if IsPinned(chunks[i]) {
        pinned := pinned + [chunks[i]];
        continue;
      }
      remaining := remaining + [chunks[i]];
    }
    assert chunks[..|chunks|] == chunks;
  }

  lemma RankedPinnedFirst(chunks: seq<RetrievedChunk>, topK: int, trimmed: seq<RetrievedChunk>)
    requires 0 < topK < |chunks| && |Pinned(chunks)| < topK
    requires IsRanked(Unpinned(chunks), topK - |Pinned(chunks)|, trimmed)
    ensures IsRanked(chunks, topK, Pinned(chunks) + trimmed)
  {
    SplitLength(chunks);
    UnpinnedHasNoPinned(chunks);
    var tail :| trimmed == [] + tail && IsWaterFilled(Unpinned(chunks), topK - |Pinned(chunks)|, tail);
    assert trimmed == tail;
  }

  lemma RankedAsGiven(chunks: seq<RetrievedChunk>, topK: int)
    requires topK <= 0 || |chunks| <= topK
    ensures IsRanked(chunks, topK, chunks)
  {
  }

  lemma RankedPinnedOnly(chunks: seq<RetrievedChunk>, topK: int)
    requires 0 < topK < |chunks| && topK <= |Pinned(chunks)|
    ensures |Ranked(Pinned(chunks))| == |Pinned(chunks)| && IsRanked(chunks, topK, Ranked(Pinned(chunks))[..topK])
  {
    SortDescSpec(Pinned(chunks), ScoreOf);
  }

  lemma RankedUnpinned(chunks: seq<RetrievedChunk>, topK: int, out: seq<RetrievedChunk>)
    requires 0 < topK < |chunks| && Pinned(chunks) == [] && IsWaterFilled(chunks, topK, out)
    ensures IsRanked(chunks, topK, out)
  {
    hide Pinned, Unpinned, IsWaterFilled;
    NothingPinned(chunks);
    assert out == Pinned(chunks) + out && IsWaterFilled(Unpinned(chunks), topK - |Pinned(chunks)|, out);
  }

  method RankAndTrimBalanced(chunks: seq<RetrievedChunk>, topK: int) returns (out: seq<RetrievedChunk>)
    ensures IsRanked(chunks, topK, out)
    decreases |chunks|
  {
    hide IsRanked, IsWaterFilled, Pinned, Unpinned, Ranked;
    if topK <= 0 || |chunks| <= topK {
      RankedAsGiven(chunks, topK);
      return chunks;
    }
    var pinned, remaining := SplitPinned(chunks);
    if |pinned| > 0 {
      if |pinned| >= topK {
        RankedPinnedOnly(chunks, topK);
        return Ranked(pinned)[..topK];
      }
      var trimmed := RankAndTrimBalanced(remaining, topK - |pinned|);
      RankedPinnedFirst(chunks, topK, trimmed);
      return pinned + trimmed;
    }
    out := DealBuckets(chunks, topK);
    RankedUnpinned(chunks, topK, out);
  }

  lemma {:induction false} OnlySnoc(s: seq<RetrievedChunk>, c: RetrievedChunk, k: string)
    ensures Only(s + [c], k) == Only(s, k) + if BucketOf(c) == k then [c] else []
  {
    OnlyAppend(s, [c], k);
    assert [c][1..] == [];
  }

  lemma {:induction false} OnlyOutside(s: seq<RetrievedChunk>, k: string)
    requires forall c <- s :: BucketOf(c) != k
    ensures Only(s, k) == []
  {
    if s != [] {
      OnlyOutside(s[1..], k);
    }
  }

  lemma {:induction false} DistinctCounts(s: seq<string>)
    ensures Distinct(s) <==> forall x :: multiset(s)[x] <= 1
  {
    if s != [] {
      DistinctCounts(s[1..]);
      assert s == [s[0]] + s[1..];
      if s[0] in s[1..] {
        var j :| 0 <= j < |s[1..]| && s[1..][j] == s[0];
        assert s[0] == s[j + 1] && multiset(s)[s[0]] > 1;
      } else {
        assert multiset(s[1..])[s[0]] == 0;
        assert forall x :: multiset(s)[x] == multiset(s[1..])[x] + if x == s[0] then 1 else 0;
        assert Distinct(s) <==> Distinct(s[1..]);
      }
    }
  }

  // The bucket names, in any order.
  method CollectKeys(buckets: map<string, seq<RetrievedChunk>>) returns (keys: seq<string>)
    ensures Distinct(keys) && forall k :: k in keys <==> k in buckets
  {
    keys := [];
    var left := buckets.Keys;
    while left != {}
      invariant Distinct(keys)
      invariant left <= buckets.Keys
      invariant forall k :: k in keys <==> k in buckets && k !in left
    {
      var k :| k in left;
      keys := keys + [k];
      left := left - {k};
    }
  }

  // Sorting keeps the names and repeats none.
  lemma SortedKeysKept(keys: seq<string>, sorted: seq<string>)
    requires Distinct(keys) && multiset(sorted) == multiset(keys)
    ensures Distinct(sorted) && forall k :: k in sorted <==> k in keys
  {
    DistinctCounts(keys);
    DistinctCounts(sorted);
    forall k ensures k in sorted <==> k in keys {
      assert k in sorted <==> k in multiset(sorted);
      assert k in keys <==> k in multiset(keys);
    }
  }

  // The bucket names, collected in any order, then stably sorted by head score.
  method OrderKeys(buckets: map<string, seq<RetrievedChunk>>) returns (keys: seq<string>)
    requires forall k <- buckets :: buckets[k] != []
    ensures Distinct(keys) && (set k <- keys) == buckets.Keys
    ensures forall i, j :: 0 <= i < j < |keys| ==> buckets[keys[i]][0].score >= buckets[keys[j]][0].score
  {
    hide Distinct;
    var collected := CollectKeys(buckets);
    var head := (k: string) => if k in buckets && buckets[k] != [] then buckets[k][0].score else 0.0;
    SortDescSpec(collected, head);
    keys := SortDesc(collected, head);
    SortedKeysKept(collected, keys);
    forall i, j | 0 <= i < j < |keys|
      ensures buckets[keys[i]][0].score >= buckets[keys[j]][0].score
    {
      assert keys[i] in keys && keys[j] in keys;
      assert head(keys[i]) >= head(keys[j]);
    }
  }

  method BuildBuckets(chunks: seq<RetrievedChunk>) returns (buckets: map<string, seq<RetrievedChunk>>)
    ensures forall k <- buckets :: buckets[k] == Only(chunks, k) && buckets[k] != []
    ensures forall c <- chunks :: BucketOf(c) in buckets
  {
    hide BucketOf;
    buckets := map[];
    for i := 0 to |chunks|
      invariant forall k <- buckets :: buckets[k] == Only(chunks[..i], k) && buckets[k] != []
      invariant forall c <- chunks[..i] :: BucketOf(c) in buckets
    {
      var k := BucketOf(chunks[i]);
      assert chunks[..i + 1] == chunks[..i] + [chunks[i]];
      forall x ensures Only(chunks[..i + 1], x) == Only(chunks[..i], x) + if k == x then [chunks[i]] else [] {
        OnlySnoc(chunks[..i], chunks[i], x);
      }
      if k !in buckets {
        OnlyOutside(chunks[..i], k);
      }
      buckets := buckets[k := (if k in buckets then buckets[k] else []) + [chunks[i]]];
    }
    assert chunks[..|chunks|] == chunks;
  }

  // What is left in the buckets after `level` rounds and `cut` turns.
  ghost predicate Left(buckets: map<string, seq<RetrievedChunk>>, keys: seq<string>,
                       b: seq<seq<RetrievedChunk>>, level: nat, cut: nat) {
    && |keys| == |b|
    && forall j :: 0 <= j < |keys| ==> keys[j] in buckets && buckets[keys[j]] == b[j][Share(b, level, cut, j)..]
  }

  lemma LeftTurn(buckets: map<string, seq<RetrievedChunk>>, keys: seq<string>,
                 b: seq<seq<RetrievedChunk>>, level: nat, i: nat)
    requires Left(buckets, keys, b, level, i) && Distinct(keys) && i < |b|
    ensures i < |keys| && keys[i] in buckets
    ensures |buckets[keys[i]]| == 0 <==> |b[i]| <= level
    ensures |b[i]| <= level ==> Left(buckets, keys, b, level, i + 1)
    ensures level < |b[i]| ==>
              && buckets[keys[i]][0] == b[i][level]
              && Left(buckets[keys[i] := buckets[keys[i]][1..]], keys, b, level, i + 1)
  {
  }

  lemma LeftSize(buckets: map<string, seq<RetrievedChunk>>, keys: seq<string>, b: seq<seq<RetrievedChunk>>, level: nat)
    requires Left(buckets, keys, b, level, 0)
    ensures |keys| == |b|
  {
  }

  // One round: a chunk from each bucket that still has one, until topK are out.
  method DealRound(keys: seq<string>, left: map<string, seq<RetrievedChunk>>, dealt: seq<RetrievedChunk>, topK: nat,
                   ghost b: seq<seq<RetrievedChunk>>, ghost level: nat)
    returns (out: seq<RetrievedChunk>, buckets: map<string, seq<RetrievedChunk>>, added: bool, ghost cut: nat)
    requires Left(left, keys, b, level, 0) && Distinct(keys) && |dealt| < topK
    ensures cut <= |b| && out == dealt + Deal(b, level, cut) && |out| <= topK
    ensures Left(buckets, keys, b, level, cut)
    ensures |out| < topK ==> cut == |b|
    ensures added <==> |out| > |dealt|
    ensures !added ==> forall j :: 0 <= j < |b| ==> |b[j]| <= level
  {
    hide Left;
    LeftSize(left, keys, b, level);
    hide BucketOf;
    out, buckets, added := dealt, left, false;
    for i := 0 to |keys|
      invariant out == dealt + Deal(b, level, i) && |out| < topK
      invariant Left(buckets, keys, b, level, i)
      invariant added <==> |out| > |dealt|
      invariant !added ==> forall j :: 0 <= j < i ==> |b[j]| <= level
    {
      LeftTurn(buckets, keys, b, level, i);
      if |buckets[keys[i]]| == 0 {
        continue;
      }
      out := out + [buckets[keys[i]][0]];
      buckets := buckets[keys[i] := buckets[keys[i]][1..]];
      added := true;
      if |out| == topK {
        cut := i + 1;
        return;
      }
    }
    cut := |keys|;
  }

  predicate UsedUp(b: seq<seq<RetrievedChunk>>, rounds: nat) {
    forall i :: 0 <= i < |b| ==> |b[i]| <= rounds
  }

  // A full round is the start of the next.
  lemma NextRound(buckets: map<string, seq<RetrievedChunk>>, keys: seq<string>, b: seq<seq<RetrievedChunk>>, level: nat)
    ensures Dealt(b, level, |b|) == Dealt(b, level + 1, 0)
    ensures Left(buckets, keys, b, level, |b|) ==> Left(buckets, keys, b, level + 1, 0)
  {
  }

  lemma RoundSoFar(b: seq<seq<RetrievedChunk>>, level: nat, cut: nat)
    requires cut <= |b|
    ensures Dealt(b, level, cut) == Dealt(b, level, 0) + Deal(b, level, cut)
    ensures Dealt(b, level, 0) == Deals(b, level) && Deals(b, 0) == []
  {
  }

  method DealRounds(topK: nat, keys: seq<string>, ranked: map<string, seq<RetrievedChunk>>,
                    ghost b: seq<seq<RetrievedChunk>>)
    returns (out: seq<RetrievedChunk>, ghost level: nat, ghost cut: nat)
    requires Distinct(keys) && Left(ranked, keys, b, 0, 0)
    requires forall rounds: nat :: UsedUp(b, rounds) ==> |Deals(b, rounds)| > topK
    ensures cut <= |b| && |out| == topK && out == Dealt(b, level, cut)
  {
    hide Left, Deal, Deals, Dealt;
    out, level, cut := [], 0, 0;
    var buckets := ranked;
    RoundSoFar(b, 0, 0);
    while |out| < topK
      invariant cut <= |b| && out == Dealt(b, level, cut) && |out| <= topK
      invariant |out| < topK ==> cut == 0 && Left(buckets, keys, b, level, 0)
      decreases topK - |out|
    {
      var added;
      RoundSoFar(b, level, 0);
      out, buckets, added, cut := DealRound(keys, buckets, out, topK, b, level);
      RoundSoFar(b, level, cut);
      assert added || UsedUp(b, level);
      if !added {
        assert false;
        break;
      }
      if |out| < topK {
        NextRound(buckets, keys, b, level);
        level, cut := level + 1, 0;
      }
    }
  }

  lemma OrderIsAdmissible(chunks: seq<RetrievedChunk>, ranked: map<string, seq<RetrievedChunk>>, keys: seq<string>)
    requires forall k <- ranked :: ranked[k] == Ranked(Only(chunks, k)) && ranked[k] != []
    requires forall c <- chunks :: BucketOf(c) in ranked
    requires Distinct(keys) && (set k <- keys) == ranked.Keys
    requires forall i, j :: 0 <= i < j < |keys| ==> ranked[keys[i]][0].score >= ranked[keys[j]][0].score
    ensures KeyOrder(keys, chunks)
    ensures forall i :: 0 <= i < |keys| ==> keys[i] in ranked && ranked[keys[i]] == Buckets(chunks, keys)[i]
  {
    forall i | 0 <= i < |keys| ensures keys[i] in ranked {}
    forall c <- chunks ensures BucketOf(c) in keys {
      assert BucketOf(c) in ranked.Keys;
    }
  }

  // Build the buckets, order them, and deal.
  method DealBuckets(chunks: seq<RetrievedChunk>, topK: nat) returns (out: seq<RetrievedChunk>)
    requires topK < |chunks|
    ensures IsWaterFilled(chunks, topK, out)
  {
    var buckets := BuildBuckets(chunks);
    forall k <- buckets ensures Ranked(buckets[k]) != [] {
      SortDescSpec(buckets[k], ScoreOf);
    }
    var ranked := map k <- buckets :: Ranked(buckets[k]);
    var keys := OrderKeys(ranked);
    OrderIsAdmissible(chunks, ranked, keys);
    ghost var b := Buckets(chunks, keys);
    ghost var level, cut;
    forall rounds: nat | UsedUp(b, rounds) ensures |Deals(b, rounds)| > topK {
      ExhaustedDealsAll(chunks, keys, rounds);
    }
    out, level, cut := DealRounds(topK, keys, ranked, b);
    assert DealtFrom(chunks, topK, out, keys, level, cut);
  }
}
