/** What balanced trimming guarantees about its result. */
module RankingFairness {
  import opened StableSort
  import opened Chunks
  import opened Ranking

  // The number of chunks that a bucket of `size` gives at a water level.
  function Filled(size: nat, level: nat, onTop: bool): nat {
    var filled := if onTop then level + 1 else level;
    if size <= filled then size else filled
  }

  // Bucket k gives the top of its stable descending order, up to the water level.
  ghost predicate Gives(chunks: seq<RetrievedChunk>, out: seq<RetrievedChunk>, k: string, level: nat, onTop: bool) {
    var ranked := Ranked(Only(chunks, k));
    Only(out, k) == ranked[..Filled(|ranked|, level, onTop)]
  }

  ghost predicate FilledTo(chunks: seq<RetrievedChunk>, topK: nat, out: seq<RetrievedChunk>,
                           keys: seq<string>, level: nat, cut: nat) {
    && KeyOrder(keys, chunks) && cut <= |keys| && |out| == topK
    && forall i :: 0 <= i < |keys| ==> Gives(chunks, out, keys[i], level, i < cut)
  }

  // There is a level and a cut in an admissible bucket order such that each
  // bucket gives its best chunks, in order: one more before the cut than after.
  lemma WaterFilling(chunks: seq<RetrievedChunk>, topK: nat, out: seq<RetrievedChunk>)
    requires IsWaterFilled(chunks, topK, out)
    ensures exists keys, level, cut :: FilledTo(chunks, topK, out, keys, level, cut)
  {
    var keys, level, cut :| DealtFrom(chunks, topK, out, keys, level, cut);
    forall i | 0 <= i < |keys| ensures Gives(chunks, out, keys[i], level, i < cut) {
      BucketsLabelled(chunks, keys);
      DealtShares(Buckets(chunks, keys), keys, level, cut, i);
    }
    assert FilledTo(chunks, topK, out, keys, level, cut);
  }

  // For every bucket name, the chunks chosen are the best of that bucket: a
  // prefix of its stable descending order.
  lemma BucketShare(chunks: seq<RetrievedChunk>, topK: nat, out: seq<RetrievedChunk>, k: string)
    requires IsWaterFilled(chunks, topK, out)
    ensures Only(out, k) <= Ranked(Only(chunks, k))
  {
    var keys, level, cut :| DealtFrom(chunks, topK, out, keys, level, cut);
    var b := Buckets(chunks, keys);
    BucketsLabelled(chunks, keys);
    if k in keys {
      var i :| 0 <= i < |keys| && keys[i] == k;
      DealtShares(b, keys, level, cut, i);
    } else {
      DealsCovered(b, keys, level);
      DealCovered(b, keys, level, cut);
      forall c <- out ensures BucketOf(c) != k {
        assert c in Deals(b, level) || c in Deal(b, level, cut);
      }
      OnlyOutside(out, k);
    }
  }

  lemma ShareOf(chunks: seq<RetrievedChunk>, topK: nat, out: seq<RetrievedChunk>,
                keys: seq<string>, level: nat, cut: nat, k: string)
    requires DealtFrom(chunks, topK, out, keys, level, cut)
    ensures exists onTop :: Gives(chunks, out, k, level, onTop)
  {
    if k in keys {
      var i :| 0 <= i < |keys| && keys[i] == k;
      BucketsLabelled(chunks, keys);
      DealtShares(Buckets(chunks, keys), keys, level, cut, i);
      assert Gives(chunks, out, k, level, i < cut);
    } else {
      BucketShare(chunks, topK, out, k);
      OnlyOutside(chunks, k);
      assert Gives(chunks, out, k, level, true);
    }
  }

  // A bucket that is served at least two chunks less than another is used up.
  lemma NoBucketStarves(chunks: seq<RetrievedChunk>, topK: nat, out: seq<RetrievedChunk>, poor: string, rich: string)
    requires IsWaterFilled(chunks, topK, out)
    requires |Only(out, poor)| + 1 < |Only(out, rich)|
    ensures Only(out, poor) == Ranked(Only(chunks, poor))
  {
    var keys, level, cut :| DealtFrom(chunks, topK, out, keys, level, cut);
    ShareOf(chunks, topK, out, keys, level, cut, poor);
    ShareOf(chunks, topK, out, keys, level, cut, rich);
  }

  // A chunk of some bucket that was not chosen scores no better than any that was.
  lemma ChosenScoreBest(chunks: seq<RetrievedChunk>, topK: nat, out: seq<RetrievedChunk>, c: RetrievedChunk, d: RetrievedChunk)
    requires IsWaterFilled(chunks, topK, out)
    requires c in out && d in chunks && d !in out && BucketOf(c) == BucketOf(d)
    ensures c.score >= d.score
  {
    hide BucketOf;
    var k := BucketOf(c);
    var ranked := Ranked(Only(chunks, k));
    BucketShare(chunks, topK, out, k);
    SortDescSpec(Only(chunks, k), ScoreOf);
    OnlyHas(out, c);
    OnlyHas(out, d);
    OnlyHas(chunks, d);
    assert d in multiset(ranked);
    var i :| 0 <= i < |Only(out, k)| && Only(out, k)[i] == c;
    var j :| 0 <= j < |ranked| && ranked[j] == d;
    assert ranked[i] == c;
    assert forall m :: 0 <= m < |Only(out, k)| ==> ranked[m] == Only(out, k)[m] && Only(out, k)[m] in Only(out, k);
    assert ScoreOf(ranked[i]) >= ScoreOf(ranked[j]);
  }

  lemma {:induction false} OnlyHas(s: seq<RetrievedChunk>, c: RetrievedChunk)
    ensures c in Only(s, BucketOf(c)) <==> c in s
  {
    if s != [] {
      OnlyHas(s[1..], c);
    }
  }

  // ---- Nothing is invented, nothing is doubled --------------------------------

  lemma {:induction false} OnlyCounts(s: seq<RetrievedChunk>, c: RetrievedChunk)
    ensures multiset(Only(s, BucketOf(c)))[c] == multiset(s)[c]
  {
    if s != [] {
      OnlyCounts(s[1..], c);
      assert s == [s[0]] + s[1..];
    }
  }

  lemma {:induction false} PinnedCounts(s: seq<RetrievedChunk>)
    ensures multiset(Pinned(s)) + multiset(Unpinned(s)) == multiset(s)
  {
    if s != [] {
      PinnedCounts(s[1..]);
      assert s == [s[0]] + s[1..];
    }
  }

  lemma PrefixCounts(p: seq<RetrievedChunk>, s: seq<RetrievedChunk>)
    requires p <= s
    ensures multiset(p) <= multiset(s)
  {
    assert s == p + s[|p|..];
  }

  lemma WaterFilledSub(chunks: seq<RetrievedChunk>, topK: nat, out: seq<RetrievedChunk>)
    requires IsWaterFilled(chunks, topK, out)
    ensures multiset(out) <= multiset(chunks)
  {
    forall c ensures multiset(out)[c] <= multiset(chunks)[c] {
      var k := BucketOf(c);
      BucketShare(chunks, topK, out, k);
      PrefixCounts(Only(out, k), Ranked(Only(chunks, k)));
      SortDescSpec(Only(chunks, k), ScoreOf);
      OnlyCounts(out, c);
      OnlyCounts(chunks, c);
    }
  }

  // The result is a sub-multiset of the input. A positive limit is met exactly,
  // or the input is short; without a positive limit everything is returned.
  lemma ResultIsSubMultiset(chunks: seq<RetrievedChunk>, topK: int, out: seq<RetrievedChunk>)
    requires IsRanked(chunks, topK, out)
    ensures multiset(out) <= multiset(chunks)
    ensures |out| == if 0 < topK < |chunks| then topK else |chunks|
  {
    if 0 < topK < |chunks| {
      PinnedCounts(chunks);
      if |Pinned(chunks)| >= topK {
        SortDescSpec(Pinned(chunks), ScoreOf);
        PrefixCounts(out, Ranked(Pinned(chunks)));
      } else {
        var tail :| out == Pinned(chunks) + tail
                    && IsWaterFilled(Unpinned(chunks), topK - |Pinned(chunks)|, tail);
        WaterFilledSub(Unpinned(chunks), topK - |Pinned(chunks)|, tail);
      }
    }
  }

  lemma {:induction false} PinnedArePinned(s: seq<RetrievedChunk>)
    ensures (forall c <- Pinned(s) :: IsPinned(c)) && (forall c <- Unpinned(s) :: !IsPinned(c))
  {
    if s != [] {
      PinnedArePinned(s[1..]);
    }
  }

  // When something has to go, pinned chunks come first and stay while they fit.
  lemma PinnedComeFirst(chunks: seq<RetrievedChunk>, topK: int, out: seq<RetrievedChunk>)
    requires IsRanked(chunks, topK, out) && 0 < topK < |chunks|
    ensures var p := if |Pinned(chunks)| <= topK then |Pinned(chunks)| else topK;
            && |out| == topK
            && (forall i :: 0 <= i < topK ==> (IsPinned(out[i]) <==> i < p))
            && (|Pinned(chunks)| < topK ==> Pinned(chunks) <= out)
  {
    ResultIsSubMultiset(chunks, topK, out);
    PinnedArePinned(chunks);
    if |Pinned(chunks)| >= topK {
      SortDescSpec(Pinned(chunks), ScoreOf);
      forall i | 0 <= i < topK ensures IsPinned(out[i]) {
        assert out[i] == Ranked(Pinned(chunks))[i] && out[i] in multiset(Ranked(Pinned(chunks)));
      }
    } else {
      var tail :| out == Pinned(chunks) + tail
                  && IsWaterFilled(Unpinned(chunks), topK - |Pinned(chunks)|, tail);
      WaterFilledSub(Unpinned(chunks), topK - |Pinned(chunks)|, tail);
      forall i | 0 <= i < topK ensures IsPinned(out[i]) <==> i < |Pinned(chunks)| {
        if i < |Pinned(chunks)| {
          assert out[i] in Pinned(chunks);
        } else {
          assert out[i] == tail[i - |Pinned(chunks)|] && out[i] in multiset(tail);
          assert out[i] in multiset(Unpinned(chunks));
        }
      }
    }
  }

  // ---- The result does not depend on map iteration order -----------------------

  lemma {:induction false} DealPrefix(b: seq<seq<RetrievedChunk>>, r: nat, c: nat, d: nat)
    requires c <= d <= |b|
    ensures Deal(b, r, c) <= Deal(b, r, d)
    decreases d
  {
    if c < d {
      DealPrefix(b, r, c, d - 1);
    }
  }

  lemma {:induction false} DealsPrefix(b: seq<seq<RetrievedChunk>>, m: nat, n: nat)
    requires m <= n
    ensures Deals(b, m) <= Deals(b, n)
    decreases n
  {
    if m < n {
      DealsPrefix(b, m, n - 1);
    }
  }

  // However far two dealings of the same buckets go, one extends the other.
  lemma DealtChain(b: seq<seq<RetrievedChunk>>, m: nat, c: nat, n: nat, d: nat)
    requires c <= |b| && d <= |b| && (m < n || (m == n && c <= d))
    ensures Dealt(b, m, c) <= Dealt(b, n, d)
  {
    if m == n {
      DealPrefix(b, m, c, d);
    } else {
      DealPrefix(b, m, c, |b|);
      DealsPrefix(b, m + 1, n);
      assert Dealt(b, m, c) <= Deals(b, m + 1) <= Deals(b, n) <= Dealt(b, n, d);
    }
  }

  function HeadScore(chunks: seq<RetrievedChunk>, k: string): real {
    var ranked := Ranked(Only(chunks, k));
    if ranked == [] then 0.0 else ranked[0].score
  }

  ghost predicate HeadsDiffer(chunks: seq<RetrievedChunk>) {
    forall c, d | c in chunks && d in chunks && BucketOf(c) != BucketOf(d) ::
      HeadScore(chunks, BucketOf(c)) != HeadScore(chunks, BucketOf(d))
  }

  // The keys of an order are exactly the buckets that occur.
  lemma KeyOccurs(keys: seq<string>, chunks: seq<RetrievedChunk>, k: string)
    requires KeyOrder(keys, chunks) && k in keys
    ensures exists c <- chunks :: BucketOf(c) == k
  {
    var i :| 0 <= i < |keys| && keys[i] == k;
    SortDescSpec(Only(chunks, k), ScoreOf);
    OnlyIsOf(chunks, k);
    assert Only(chunks, k)[0] in Only(chunks, k);
  }

  ghost predicate StrictlyFalling(keys: seq<string>, chunks: seq<RetrievedChunk>) {
    forall i, j :: 0 <= i < j < |keys| ==> HeadScore(chunks, keys[i]) > HeadScore(chunks, keys[j])
  }

  lemma OrderFalls(keys: seq<string>, chunks: seq<RetrievedChunk>)
    requires KeyOrder(keys, chunks) && HeadsDiffer(chunks)
    ensures StrictlyFalling(keys, chunks)
  {
    forall i, j | 0 <= i < j < |keys| ensures HeadScore(chunks, keys[i]) > HeadScore(chunks, keys[j]) {
      KeyOccurs(keys, chunks, keys[i]);
      KeyOccurs(keys, chunks, keys[j]);
    }
  }

  lemma HasFirst(s: seq<string>)
    ensures s != [] ==> s[0] in s
  {
  }

  lemma {:induction false} FallingUnique(p: seq<string>, q: seq<string>, chunks: seq<RetrievedChunk>)
    requires StrictlyFalling(p, chunks) && StrictlyFalling(q, chunks)
    requires forall k :: k in p <==> k in q
    ensures p == q
  {
    HasFirst(p);
    HasFirst(q);
    if p != [] && q != [] {
      assert p[0] in q && q[0] in p;
      var i :| 0 <= i < |q| && q[i] == p[0];
      var j :| 0 <= j < |p| && p[j] == q[0];
      assert i == 0;
      forall k ensures k in p[1..] <==> k in q[1..] {
        assert k in p[1..] <==> k in p && k != p[0];
        assert k in q[1..] <==> k in q && k != q[0];
      }
      FallingUnique(p[1..], q[1..], chunks);
    }
  }

  lemma WaterFilledIsDetermined(rest: seq<RetrievedChunk>, n: nat, s: seq<RetrievedChunk>, t: seq<RetrievedChunk>)
    requires HeadsDiffer(rest) && IsWaterFilled(rest, n, s) && IsWaterFilled(rest, n, t)
    ensures s == t
  {
    var kx, mx, cx :| DealtFrom(rest, n, s, kx, mx, cx);
    var ky, my, cy :| DealtFrom(rest, n, t, ky, my, cy);
    SameKeys(kx, ky, rest);
    var b := Buckets(rest, kx);
    if mx < my || (mx == my && cx <= cy) {
      DealtChain(b, mx, cx, my, cy);
    } else {
      DealtChain(b, my, cy, mx, cx);
    }
  }

  lemma SameKeys(p: seq<string>, q: seq<string>, chunks: seq<RetrievedChunk>)
    requires KeyOrder(p, chunks) && KeyOrder(q, chunks) && HeadsDiffer(chunks)
    ensures p == q
  {
    OrderFalls(p, chunks);
    OrderFalls(q, chunks);
    forall k ensures k in p <==> k in q {
      if k in p { KeyOccurs(p, chunks, k); }
      if k in q { KeyOccurs(q, chunks, k); }
    }
    FallingUnique(p, q, chunks);
  }

  // When no two buckets have equally scored heads, every execution gives the
  // same result.
  lemma ResultIsDetermined(chunks: seq<RetrievedChunk>, topK: int, x: seq<RetrievedChunk>, y: seq<RetrievedChunk>)
    requires HeadsDiffer(Unpinned(chunks))
    requires IsRanked(chunks, topK, x) && IsRanked(chunks, topK, y)
    ensures x == y
  {
    if 0 < topK < |chunks| && |Pinned(chunks)| < topK {
      var s :| x == Pinned(chunks) + s && IsWaterFilled(Unpinned(chunks), topK - |Pinned(chunks)|, s);
      var t :| y == Pinned(chunks) + t && IsWaterFilled(Unpinned(chunks), topK - |Pinned(chunks)|, t);
      WaterFilledIsDetermined(Unpinned(chunks), topK - |Pinned(chunks)|, s, t);
    }
  }
}
