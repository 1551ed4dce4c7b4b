/** Stable sorting by descending score, as a function with its characterisation. */
module StableSort {
  // `x` precedes everything in `s` in the input, so it goes before its equals.
  function Place<T>(x: T, s: seq<T>, score: T -> real): seq<T> {
    if s == [] || score(x) >= score(s[0]) then [x] + s else [s[0]] + Place(x, s[1..], score)
  }

  function SortDesc<T>(s: seq<T>, score: T -> real): seq<T> {
    if s == [] then [] else Place(s[0], SortDesc(s[1..], score), score)
  }

  predicate Descending<T>(s: seq<T>, score: T -> real) {
    forall i, j :: 0 <= i < j < |s| ==> score(s[i]) >= score(s[j])
  }

  // The elements of score v, in order.
  function WithScore<T>(s: seq<T>, score: T -> real, v: real): seq<T> {
    if s == [] then []
    else (if score(s[0]) == v then [s[0]] else []) + WithScore(s[1..], score, v)
  }

  lemma {:induction false} PlaceSorts<T>(x: T, s: seq<T>, score: T -> real)
    requires Descending(s, score)
    ensures Descending(Place(x, s, score), score)
    ensures multiset(Place(x, s, score)) == multiset{x} + multiset(s)
    ensures |Place(x, s, score)| == |s| + 1
  {
    if s == [] || score(x) >= score(s[0]) {
      assert Place(x, s, score) == [x] + s;
    } else {
      var t := Place(x, s[1..], score);
      PlaceSorts(x, s[1..], score);
      assert s == [s[0]] + s[1..];
      forall j | 0 <= j < |t| ensures score(s[0]) >= score(t[j]) {
        assert t[j] in multiset(t);
        assert t[j] == x || t[j] in s[1..];
      }
    }
  }

  lemma {:induction false} PlaceIsStable<T>(x: T, s: seq<T>, score: T -> real, v: real)
    ensures Descending(s, score) ==>
              WithScore(Place(x, s, score), score, v) == (if score(x) == v then [x] else []) + WithScore(s, score, v)
  {
    if s == [] || score(x) >= score(s[0]) {
      assert ([x] + s)[1..] == s;
    } else if Descending(s, score) {
      PlaceIsStable(x, s[1..], score, v);
      assert Place(x, s, score)[1..] == Place(x, s[1..], score);
      if score(x) == v {
        NoneWithScore(s, score, v);
      }
    }
  }

  // Scores only fall, so a score above the first does not occur.
  lemma {:induction false} NoneWithScore<T>(s: seq<T>, score: T -> real, v: real)
    requires Descending(s, score) && s != []
    ensures v > score(s[0]) ==> WithScore(s, score, v) == []
  {
    if |s| > 1 {
      NoneWithScore(s[1..], score, v);
    }
  }

  // The result is a permutation, descending, and keeps the order of equals.
  lemma {:induction false} SortDescSpec<T>(s: seq<T>, score: T -> real)
    ensures Descending(SortDesc(s, score), score)
    ensures multiset(SortDesc(s, score)) == multiset(s)
    ensures |SortDesc(s, score)| == |s|
    ensures forall v :: WithScore(SortDesc(s, score), score, v) == WithScore(s, score, v)
  {
    if s != [] {
      SortDescSpec(s[1..], score);
      assert s == [s[0]] + s[1..];
      forall v ensures WithScore(SortDesc(s, score), score, v) == WithScore(s, score, v) {
        PlaceIsStable(s[0], SortDesc(s[1..], score), score, v);
      }
      PlaceSorts(s[0], SortDesc(s[1..], score), score);
    }
  }

  // Nothing else has these properties, so any stable sort gives this result.
  lemma {:induction false} StableSortIsUnique<T>(p: seq<T>, q: seq<T>, score: T -> real)
    requires Descending(p, score) && Descending(q, score)
    requires forall v :: WithScore(p, score, v) == WithScore(q, score, v)
    ensures p == q
  {
    if p == [] {
      if q != [] {
        HeadHasItsScore(q, score);
      }
    } else {
      var v := score(p[0]);
      HeadHasItsScore(p, score);
      HeadHasItsScore(q, score);
      WithScoreNonEmpty(q, score, v);
      var w := score(q[0]);
      WithScoreNonEmpty(p, score, w);
      assert p[0] == q[0];
      forall u ensures WithScore(p[1..], score, u) == WithScore(q[1..], score, u) {
        assert WithScore(p, score, u) == WithScore(q, score, u);
        var head := if v == u then [p[0]] else [];
        assert WithScore(p, score, u) == head + WithScore(p[1..], score, u);
        assert WithScore(q, score, u) == head + WithScore(q[1..], score, u);
        assert WithScore(p[1..], score, u) == WithScore(p, score, u)[|head|..];
        assert WithScore(q[1..], score, u) == WithScore(q, score, u)[|head|..];
      }
      StableSortIsUnique(p[1..], q[1..], score);
      assert p == [p[0]] + p[1..] && q == [q[0]] + q[1..];
    }
  }

  lemma HeadHasItsScore<T>(s: seq<T>, score: T -> real)
    ensures s != [] ==> WithScore(s, score, score(s[0])) != [] && WithScore(s, score, score(s[0]))[0] == s[0]
  {
  }

  lemma {:induction false} WithScoreNonEmpty<T>(s: seq<T>, score: T -> real, v: real)
    requires WithScore(s, score, v) != []
    ensures exists i :: 0 <= i < |s| && score(s[i]) == v
  {
    if score(s[0]) != v {
      WithScoreNonEmpty(s[1..], score, v);
      var i :| 0 <= i < |s[1..]| && score(s[1..][i]) == v;
      assert score(s[i + 1]) == v;
    }
  }
}
