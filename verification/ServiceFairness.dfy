/**
  Balanced trimming seen from outside: which service a chunk comes from, and what
  each service gets of the result.
 */
module ServiceFairness {
  import opened Text
  import opened StableSort
  import opened Chunks
  import opened Ranking
  import opened RankingFairness

  const SERVICES: seq<string> := ["edge", "intent", "relay", "intelligence", "evidence", "outcome"]

  // The chunk comes from the service: its source type is "service_" and more, in any
  // case and with any blanks around it. (The bare name counts as well.)
  predicate From(c: RetrievedChunk, service: string) {
    service + "_" <= Fold(c.sourceType) || Fold(c.sourceType) == service
  }

  // Exact counts of a batch, which are never crowded out by anything else.
  predicate IsExact(c: RetrievedChunk) {
    Fold(c.sourceType) == "evidence_batch_exact_counts"
  }

  // Two chunks count as one source: one of the six services, or one source type.
  ghost predicate SameSource(c: RetrievedChunk, d: RetrievedChunk) {
    Fold(c.sourceType) == Fold(d.sourceType) || exists service <- SERVICES :: From(c, service) && From(d, service)
  }

  // ---- Buckets are sources -----------------------------------------------------------

  predicate Underscored(t: string, service: string) {
    service + "_" <= t
  }

  // No name starts two of the six.
  lemma OneService(t: string, x: string, y: string)
    requires x in SERVICES && y in SERVICES && (Underscored(t, x) || t == x) && (Underscored(t, y) || t == y)
    ensures x == y
  {
    SameLetters(t, x);
    SameLetters(t, y);
  }

  lemma SameLetters(t: string, x: string)
    requires x in SERVICES && (Underscored(t, x) || t == x)
    ensures |t| >= 4 && t[0] == x[0] && t[1] == x[1]
    ensures |x| > 4 ==> |t| > 4 && t[4] == x[4]
    ensures x == "edge" ==> t[1] == 'd'
  {
  }

  lemma BucketIs(c: RetrievedChunk)
    ensures (exists service <- SERVICES :: From(c, service)) ==> BucketOf(c) in SERVICES && From(c, BucketOf(c))
    ensures (forall service <- SERVICES :: !From(c, service)) ==> BucketOf(c) == Fold(c.sourceType)
  {
    hide Lower, Trim;
    var t := Fold(c.sourceType);
    assert BucketOf(c) == SourceServiceBucket(c.sourceType);
    assert "edge" in SERVICES && "intent" in SERVICES && "relay" in SERVICES;
    assert "intelligence" in SERVICES && "evidence" in SERVICES && "outcome" in SERVICES;
    assert "edge" + "_" == "edge_" && "intent" + "_" == "intent_" && "relay" + "_" == "relay_";
    assert "intelligence" + "_" == "intelligence_" && "evidence" + "_" == "evidence_" && "outcome" + "_" == "outcome_";
  }

  // Two chunks share a bucket exactly when they come from one source.
  lemma BucketsAreSources(c: RetrievedChunk, d: RetrievedChunk)
    ensures BucketOf(c) == BucketOf(d) <==> SameSource(c, d)
  {
    hide BucketOf, Fold;
    BucketIs(c);
    BucketIs(d);
    var x, y := Fold(c.sourceType), Fold(d.sourceType);
    if service :| service in SERVICES && From(c, service) {
      OneService(x, service, BucketOf(c));
    }
    if service :| service in SERVICES && From(d, service) {
      OneService(y, service, BucketOf(d));
    }
    if service :| service in SERVICES && From(c, service) && From(d, service) {
      OneService(x, service, BucketOf(c));
      OneService(y, service, BucketOf(d));
    }
  }

  // ---- What a source gets --------------------------------------------------------------

  // The chunks that come from the same source as `like`, exact counts aside.
  ghost function Served(s: seq<RetrievedChunk>, like: RetrievedChunk): seq<RetrievedChunk> {
    if s == [] then []
    else (if !IsExact(s[0]) && SameSource(s[0], like) then [s[0]] else []) + Served(s[1..], like)
  }

  lemma {:induction false} ServedIsOnly(s: seq<RetrievedChunk>, like: RetrievedChunk)
    ensures Served(s, like) == Only(Unpinned(s), BucketOf(like))
  {
    hide BucketOf, SameSource, Fold;
    if s != [] {
      ServedIsOnly(s[1..], like);
      BucketsAreSources(s[0], like);
      ExactIsPinned(s[0]);
      OnlyCons(s[0], Unpinned(s[1..]), BucketOf(like));
    }
  }

  lemma ExactIsPinned(c: RetrievedChunk)
    ensures IsExact(c) <==> IsPinned(c)
  {
  }

  lemma OnlyCons(c: RetrievedChunk, s: seq<RetrievedChunk>, k: string)
    ensures Only([c] + s, k) == (if BucketOf(c) == k then [c] else []) + Only(s, k)
    ensures [] + s == s
  {
    assert ([c] + s)[1..] == s;
  }

  lemma {:induction false} UnpinnedAppends(s: seq<RetrievedChunk>, t: seq<RetrievedChunk>)
    ensures Unpinned(s + t) == Unpinned(s) + Unpinned(t)
  {
    hide IsPinned;
    if s == [] {
      assert s + t == t;
    } else {
      assert (s + t)[1..] == s[1..] + t;
      UnpinnedAppends(s[1..], t);
    }
  }

  lemma {:induction false} AllPinned(s: seq<RetrievedChunk>)
    requires forall c <- s :: IsPinned(c)
    ensures Unpinned(s) == []
  {
    if s != [] {
      AllPinned(s[1..]);
    }
  }

  lemma {:induction false} NonePinned(s: seq<RetrievedChunk>)
    requires forall c <- s :: !IsPinned(c)
    ensures Unpinned(s) == s
  {
    if s != [] {
      NonePinned(s[1..]);
    }
  }

  // The unpinned part of a result is dealt from the unpinned chunks, or empty.
  lemma UnpinnedResult(chunks: seq<RetrievedChunk>, topK: int, out: seq<RetrievedChunk>)
    requires IsRanked(chunks, topK, out) && 0 < topK < |chunks|
    ensures Unpinned(out) == [] ||
            (|Pinned(chunks)| < topK && IsWaterFilled(Unpinned(chunks), topK - |Pinned(chunks)|, Unpinned(out)))
  {
    hide IsPinned, IsWaterFilled, Ranked, Pinned, Unpinned;
    PinnedComeFirst(chunks, topK, out);
    if |Pinned(chunks)| >= topK {
      AllPinned(out);
    } else {
      PinnedArePinned(chunks);
      var tail :| out == Pinned(chunks) + tail && IsWaterFilled(Unpinned(chunks), topK - |Pinned(chunks)|, tail);
      forall c <- tail ensures !IsPinned(c) {
        var i :| 0 <= i < |tail| && tail[i] == c;
        assert out[|Pinned(chunks)| + i] == c;
      }
      AllPinned(Pinned(chunks));
      NonePinned(tail);
      UnpinnedAppends(Pinned(chunks), tail);
      assert [] + tail == tail;
    }
  }

  lemma OnlyNone(k: string)
    ensures Only([], k) == []
  {
  }

  // What a source gets is the best of what it has: the top of its chunks in stable
  // descending order of score.
  lemma SourcesGiveTheirBest(chunks: seq<RetrievedChunk>, topK: int, out: seq<RetrievedChunk>, like: RetrievedChunk)
    requires IsRanked(chunks, topK, out) && 0 < topK < |chunks|
    ensures Served(out, like) <= SortDesc(Served(chunks, like), ScoreOf)
  {
    hide BucketOf, SameSource, IsPinned, IsRanked, IsWaterFilled, Served, Only, Unpinned, Pinned;
    ServedIsOnly(out, like);
    ServedIsOnly(chunks, like);
    UnpinnedResult(chunks, topK, out);
    OnlyNone(BucketOf(like));
    if Unpinned(out) != [] {
      BucketShare(Unpinned(chunks), topK - |Pinned(chunks)|, Unpinned(out), BucketOf(like));
    }
  }

  // No source is crowded out: one that gets at least two chunks less than another
  // has nothing more to give.
  lemma NoSourceStarves(chunks: seq<RetrievedChunk>, topK: int, out: seq<RetrievedChunk>,
                        poor: RetrievedChunk, rich: RetrievedChunk)
    requires IsRanked(chunks, topK, out) && 0 < topK < |chunks|
    requires |Served(out, poor)| + 1 < |Served(out, rich)|
    ensures Served(out, poor) == SortDesc(Served(chunks, poor), ScoreOf)
  {
    hide BucketOf, SameSource, IsPinned, IsRanked, IsWaterFilled, Served, Only, Unpinned, Pinned;
    ServedIsOnly(out, poor);
    ServedIsOnly(out, rich);
    ServedIsOnly(chunks, poor);
    UnpinnedResult(chunks, topK, out);
    OnlyNone(BucketOf(rich));
    if Unpinned(out) != [] {
      NoBucketStarves(Unpinned(chunks), topK - |Pinned(chunks)|, Unpinned(out), BucketOf(poor), BucketOf(rich));
    }
  }

  ghost function Exact(s: seq<RetrievedChunk>): seq<RetrievedChunk> {
    if s == [] then [] else (if IsExact(s[0]) then [s[0]] else []) + Exact(s[1..])
  }

  lemma {:induction false} ExactArePinned(s: seq<RetrievedChunk>)
    ensures Exact(s) == Pinned(s)
  {
    if s != [] {
      ExactArePinned(s[1..]);
      ExactIsPinned(s[0]);
    }
  }

  // Exact counts lead whatever is trimmed, in the order they came in, and all of them
  // are there; only when they are too many themselves do the best of them remain.
  lemma ExactCountsLead(chunks: seq<RetrievedChunk>, topK: int, out: seq<RetrievedChunk>)
    requires IsRanked(chunks, topK, out) && 0 < topK < |chunks|
    ensures |Exact(chunks)| < topK ==>
              Exact(chunks) <= out && forall i :: |Exact(chunks)| <= i < topK ==> i < |out| && !IsExact(out[i])
    ensures |Exact(chunks)| >= topK ==> |out| == topK && out <= SortDesc(Exact(chunks), ScoreOf)
  {
    ExactArePinned(chunks);
    PinnedComeFirst(chunks, topK, out);
    SortDescSpec(Pinned(chunks), ScoreOf);
    forall c ensures IsExact(c) <==> IsPinned(c) {
      ExactIsPinned(c);
    }
  }
}
