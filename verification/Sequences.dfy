/** Sequences without repetitions, and sequences with elements left out. */
module Sequences {
  predicate Distinct<T(==)>(s: seq<T>) {
    forall i, j :: 0 <= i < j < |s| ==> s[i] != s[j]
  }

  function Elements<T>(s: seq<T>): set<T> {
    set x <- s
  }

  /** `a` is `b` with some elements left out. */
  predicate Subsequence<T(==)>(a: seq<T>, b: seq<T>)
    decreases |b|
  {
    || a == []
    || (b != [] &&
        var c := b[..|b| - 1];
        || Subsequence(a, c)
        || (a[|a| - 1] == b[|b| - 1] && Subsequence(a[..|a| - 1], c)))
  }

  lemma SubsequenceExtends<T>(a: seq<T>, b: seq<T>, x: T)
    requires Subsequence(a, b)
    ensures Subsequence(a, b + [x]) && Subsequence(a + [x], b + [x])
  {
    assert (b + [x])[..|b|] == b && (a + [x])[..|a|] == a;
  }

  /** `places` are where the elements of `a` are found in `b`, from left to right. */
  predicate Embeds<T(==)>(places: seq<nat>, a: seq<T>, b: seq<T>) {
    && |places| == |a|
    && (forall i :: 0 <= i < |a| ==> places[i] < |b| && a[i] == b[places[i]])
    && (forall i, j :: 0 <= i < j < |a| ==> places[i] < places[j])
  }

  lemma {:induction false} SubsequenceEmbeds<T>(a: seq<T>, b: seq<T>) returns (places: seq<nat>)
    requires Subsequence(a, b)
    ensures Embeds(places, a, b)
    decreases |b|
  {
    if a == [] {
      places := [];
    } else if Subsequence(a, b[..|b| - 1]) {
      places := SubsequenceEmbeds(a, b[..|b| - 1]);
    } else {
      places := SubsequenceEmbeds(a[..|a| - 1], b[..|b| - 1]);
      places := places + [|b| - 1];
    }
  }

  lemma {:induction false} EmbeddedIsSubsequence<T>(places: seq<nat>, a: seq<T>, b: seq<T>)
    requires Embeds(places, a, b)
    ensures Subsequence(a, b)
    decreases |b|
  {
    if a != [] {
      var n := |a| - 1;
      if places[n] == |b| - 1 {
        EmbeddedIsSubsequence(places[..n], a[..n], b[..|b| - 1]);
      } else {
        EmbeddedIsSubsequence(places, a, b[..|b| - 1]);
      }
    }
  }

  /** A subsequence is found in the whole from left to right. */
  lemma SubsequenceIff<T>(a: seq<T>, b: seq<T>)
    ensures Subsequence(a, b) <==> exists places :: Embeds(places, a, b)
  {
    if Subsequence(a, b) {
      var places := SubsequenceEmbeds(a, b);
    } else if places :| Embeds(places, a, b) {
      EmbeddedIsSubsequence(places, a, b);
    }
  }
}
