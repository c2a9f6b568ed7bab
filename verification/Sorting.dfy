/** Go's order on strings, and what `sort.Slice` and `sort.Strings` guarantee. */
module Sorting {
  import opened Sequences

  /** `a < b`, character by character. */
  predicate Before(a: string, b: string) {
    if b == "" then false
    else if a == "" then true
    else a[0] < b[0] || (a[0] == b[0] && Before(a[1..], b[1..]))
  }

  /** The strings agree up to place `i`, where `a` ends or has the smaller character. */
  predicate DecidedAt(a: string, b: string, i: nat) {
    i <= |a| && i < |b| && a[..i] == b[..i] && (i == |a| || a[i] < b[i])
  }

  /** The order of a dictionary: a proper prefix comes first, and otherwise the smaller character at the
      first place where the strings differ decides. */
  lemma {:induction false} BeforeIsLexicographic(a: string, b: string)
    ensures Before(a, b) <==> exists i: nat :: DecidedAt(a, b, i)
    decreases |a|
  {
    if a != "" && b != "" && a[0] == b[0] {
      BeforeIsLexicographic(a[1..], b[1..]);
      forall i: nat | DecidedAt(a[1..], b[1..], i) ensures DecidedAt(a, b, i + 1) {
        assert a[..i + 1] == [a[0]] + a[1..][..i] && b[..i + 1] == [b[0]] + b[1..][..i];
      }
      forall i: nat | DecidedAt(a, b, i) ensures i > 0 && DecidedAt(a[1..], b[1..], i - 1) {
        assert a[1..][..i - 1] == a[..i][1..] && b[1..][..i - 1] == b[..i][1..];
      }
    } else {
      assert DecidedAt(a, b, 0) == Before(a, b);
      forall i: nat | 0 < i <= |a| && i < |b| ensures a[..i] != b[..i] {
        assert a[..i][0] == a[0] && b[..i][0] == b[0];
      }
    }
  }

  lemma {:induction false} BeforeIsTotal(a: string, b: string)
    ensures a != b ==> Before(a, b) || Before(b, a)
    ensures !(Before(a, b) && Before(b, a)) && !Before(a, a)
    decreases |a|
  {
    if a != "" && b != "" {
      BeforeIsTotal(a[1..], b[1..]);
      BeforeIsTotal(a[1..], a[1..]);
      assert a == [a[0]] + a[1..] && b == [b[0]] + b[1..];
    } else if a != "" {
      BeforeIsTotal(a[1..], a[1..]);
    }
  }

  lemma {:induction false} BeforeIsTransitive(a: string, b: string, c: string)
    requires Before(a, b) && Before(b, c)
    ensures Before(a, c)
    decreases |a|
  {
    if a != "" && a[0] == b[0] == c[0] {
      BeforeIsTransitive(a[1..], b[1..], c[1..]);
    }
  }

  /** No element comes before an earlier one. */
  ghost predicate SortedBy<T>(s: seq<T>, key: T -> string) {
    forall i, j :: 0 <= i < j < |s| ==> !Before(key(s[j]), key(s[i]))
  }

  ghost predicate DistinctBy<T>(s: seq<T>, key: T -> string) {
    forall i, j :: 0 <= i < j < |s| ==> key(s[i]) != key(s[j])
  }

  function Insert<T>(x: T, s: seq<T>, key: T -> string): seq<T> {
    if s == [] then [x]
    else if Before(key(x), key(s[0])) then [x] + s
    else [s[0]] + Insert(x, s[1..], key)
  }

  /** A sort. With distinct keys, any other gives the same (`SortedPermutationIsUnique`). */
  function SortBy<T>(s: seq<T>, key: T -> string): seq<T> {
    if s == [] then [] else Insert(s[0], SortBy(s[1..], key), key)
  }

  lemma {:induction false} InsertAdds<T>(x: T, s: seq<T>, key: T -> string)
    ensures multiset(Insert(x, s, key)) == multiset(s) + multiset{x}
    decreases |s|
  {
    if s != [] {
      assert s == [s[0]] + s[1..];
      InsertAdds(x, s[1..], key);
    }
  }

  lemma {:induction false} InsertIntoSorted<T>(x: T, s: seq<T>, key: T -> string)
    requires SortedBy(s, key)
    ensures SortedBy(Insert(x, s, key), key)
    decreases |s|
  {
    if s != [] {
      if Before(key(x), key(s[0])) {
        forall j | 0 <= j < |s| ensures !Before(key(s[j]), key(x)) {
          if Before(key(s[j]), key(x)) {
            BeforeIsTransitive(key(s[j]), key(x), key(s[0]));
            BeforeIsTotal(key(s[0]), key(s[0]));
          }
        }
      } else {
        InsertIntoSorted(x, s[1..], key);
        InsertAdds(x, s[1..], key);
        var rest := Insert(x, s[1..], key);
        forall j | 0 <= j < |rest| ensures !Before(key(rest[j]), key(s[0])) {
          assert rest[j] in multiset(rest);
          assert rest[j] == x || rest[j] in s[1..];
        }
      }
    }
  }

  lemma {:induction false} SortBySorts<T>(s: seq<T>, key: T -> string)
    ensures SortedBy(SortBy(s, key), key) && multiset(SortBy(s, key)) == multiset(s)
    decreases |s|
  {
    if s != [] {
      SortBySorts(s[1..], key);
      InsertIntoSorted(s[0], SortBy(s[1..], key), key);
      InsertAdds(s[0], SortBy(s[1..], key), key);
      assert s == [s[0]] + s[1..];
    }
  }

  /** The first element of a sorted permutation is determined by its key. */
  lemma SameFirst<T>(a: seq<T>, b: seq<T>, key: T -> string)
    requires SortedBy(a, key) && SortedBy(b, key) && DistinctBy(a, key)
    requires multiset(a) == multiset(b) && a != [] && b != []
    ensures a[0] == b[0]
  {
    assert a[0] in multiset(b) && b[0] in multiset(a);
    var i :| 0 <= i < |b| && b[i] == a[0];
    var j :| 0 <= j < |a| && a[j] == b[0];
    BeforeIsTotal(key(a[0]), key(b[0]));
  }

  lemma RestOf<T>(s: seq<T>)
    requires s != []
    ensures multiset(s[1..]) == multiset(s) - multiset{s[0]}
  {
    assert s == [s[0]] + s[1..];
  }

  /** What a sorting function promises; how it orders equal keys is its own affair. */
  ghost predicate IsSort<T(!new)>(sort: seq<T> -> seq<T>, key: T -> string) {
    forall s: seq<T> :: SortedBy(sort(s), key) && multiset(sort(s)) == multiset(s)
  }

  lemma SortByIsSort<T(!new)>(key: T -> string)
    ensures IsSort((s: seq<T>) => SortBy(s, key), key)
  {
    forall s: seq<T> ensures SortedBy(SortBy(s, key), key) && multiset(SortBy(s, key)) == multiset(s) {
      SortBySorts(s, key);
    }
  }

  /** With distinct keys a sorted permutation is unique: any sort gives the same result, from any
      order of the input. */
  lemma {:induction false} SortedPermutationIsUnique<T>(a: seq<T>, b: seq<T>, key: T -> string)
    requires SortedBy(a, key) && SortedBy(b, key) && DistinctBy(a, key)
    requires multiset(a) == multiset(b)
    ensures a == b
    decreases |a|
  {
    assert |a| == |multiset(a)| && |b| == |multiset(b)|;
    if a != [] {
      SameFirst(a, b, key);
      RestOf(a);
      RestOf(b);
      SortedPermutationIsUnique(a[1..], b[1..], key);
    }
  }

  lemma {:induction false} LeastExists(keys: set<string>)
    requires keys != {}
    ensures exists k :: k in keys && forall j <- keys :: !Before(j, k)
    decreases keys
  {
    var x :| x in keys;
    BeforeIsTotal(x, x);
    if keys != {x} {
      LeastExists(keys - {x});
      var k :| k in keys - {x} && forall j <- keys - {x} :: !Before(j, k);
      if Before(x, k) {
        forall j <- keys ensures !Before(j, x) {
          if Before(j, x) {
            BeforeIsTransitive(j, x, k);
          }
        }
      } else {
        assert forall j <- keys :: !Before(j, k);
      }
    }
  }

  /** The elements of a set in order. */
  ghost function InOrder(keys: set<string>): (s: seq<string>)
    ensures SortedBy(s, (k: string) => k) && Distinct(s) && Elements(s) == keys
  {
    if keys == {} then []
    else
      LeastExists(keys);
      var k :| k in keys && forall j <- keys :: !Before(j, k);
      var rest := InOrder(keys - {k});
      assert forall x <- rest :: x in Elements(rest);
      assert Elements([k] + rest) == {k} + Elements(rest);
      [k] + rest
  }

  lemma {:induction false} CountInDistinct(s: seq<string>, x: string)
    requires Distinct(s)
    ensures multiset(s)[x] == if x in s then 1 else 0
    decreases |s|
  {
    if s != [] {
      assert s == [s[0]] + s[1..];
      CountInDistinct(s[1..], x);
    }
  }

  lemma MultisetOfDistinct(s: seq<string>)
    requires Distinct(s)
    ensures multiset(s) == multiset(Elements(s))
  {
    forall x ensures multiset(s)[x] == multiset(Elements(s))[x] {
      CountInDistinct(s, x);
    }
  }

  /** Sorting the elements of a set, taken in any order, gives them in order. */
  lemma SortedSetIsInOrder(s: seq<string>)
    requires Distinct(s)
    ensures SortBy(s, (k: string) => k) == InOrder(Elements(s))
  {
    var sorted := SortBy(s, (k: string) => k);
    var expected := InOrder(Elements(s));
    SortBySorts(s, (k: string) => k);
    MultisetOfDistinct(s);
    MultisetOfDistinct(expected);
    SortedPermutationIsUnique(expected, sorted, (k: string) => k);
  }

  // ---- Sorted listings ----

  ghost function KeysOf<T>(s: seq<T>, key: T -> string): seq<string> {
    seq(|s|, i requires 0 <= i < |s| => key(s[i]))
  }

  /** `s` has one element for each of `keys`, in order, and all its elements are good. */
  ghost predicate Lists<T>(s: seq<T>, keys: set<string>, key: T -> string, good: T -> bool) {
    SortedBy(s, key) && DistinctBy(s, key) && Elements(KeysOf(s, key)) == keys && forall x <- s :: good(x)
  }

  /** A listing of given keys is unique if good elements are determined by their keys. */
  lemma ListingIsUnique<T>(a: seq<T>, b: seq<T>, keys: set<string>, key: T -> string, good: T -> bool)
    requires Lists(a, keys, key, good) && Lists(b, keys, key, good)
    requires forall x, y :: x in a && y in b && key(x) == key(y) ==> x == y
    ensures a == b
  {
    var ka, kb := KeysOf(a, key), KeysOf(b, key);
    MultisetOfDistinct(ka);
    MultisetOfDistinct(kb);
    SortedPermutationIsUnique(ka, kb, (k: string) => k);
    forall i | 0 <= i < |a| ensures a[i] == b[i] {
      assert key(a[i]) == ka[i] == kb[i] == key(b[i]);
      assert a[i] in a && b[i] in b;
    }
  }

  lemma TwiceInPermutation<T>(t: seq<T>, i: nat, j: nat)
    requires i < j < |t| && t[i] == t[j]
    ensures multiset(t)[t[i]] >= 2
  {
    assert t == t[..j] + t[j..];
    assert t[i] in t[..j] && t[j] in t[j..];
  }

  lemma {:induction false} OnceIfDistinct<T>(s: seq<T>, x: T, key: T -> string)
    requires DistinctBy(s, key)
    ensures multiset(s)[x] <= 1
    decreases |s|
  {
    if s != [] {
      assert s == [s[0]] + s[1..];
      OnceIfDistinct(s[1..], x, key);
      if s[0] == x {
        assert x !in s[1..];
      }
    }
  }

  lemma PermutationKeepsDistinct<T>(s: seq<T>, t: seq<T>, key: T -> string)
    requires multiset(s) == multiset(t) && DistinctBy(s, key)
    ensures DistinctBy(t, key)
  {
    assert |s| == |multiset(s)| && |t| == |multiset(t)|;
    forall i, j | 0 <= i < j < |t| ensures key(t[i]) != key(t[j]) {
      if key(t[i]) == key(t[j]) {
        assert t[i] in multiset(s) && t[j] in multiset(s);
        assert t[i] == t[j];
        TwiceInPermutation(t, i, j);
        OnceIfDistinct(s, t[i], key);
      }
    }
  }

  lemma SameMembers<T>(s: seq<T>, t: seq<T>)
    requires multiset(s) == multiset(t)
    ensures forall x <- s :: x in t
    ensures forall x <- t :: x in s
  {
    forall x | x in s ensures x in t {
      assert x in multiset(s);
    }
    forall x | x in t ensures x in s {
      assert x in multiset(t);
    }
  }

  lemma KeysOfSubset<T>(s: seq<T>, t: seq<T>, key: T -> string)
    requires forall x <- s :: x in t
    ensures Elements(KeysOf(s, key)) <= Elements(KeysOf(t, key))
  {
    forall k | k in KeysOf(s, key) ensures k in KeysOf(t, key) {
      var i :| 0 <= i < |s| && KeysOf(s, key)[i] == k;
      assert s[i] in s && s[i] in t;
      var j :| 0 <= j < |t| && t[j] == s[i];
      assert KeysOf(t, key)[j] == k;
    }
  }

  /** Sorting a list with one good element for each key, in any order, gives the listing. */
  lemma SortedIsListing<T>(s: seq<T>, keys: set<string>, key: T -> string, good: T -> bool)
    requires DistinctBy(s, key) && Elements(KeysOf(s, key)) == keys && forall x <- s :: good(x)
    ensures Lists(SortBy(s, key), keys, key, good)
  {
    var t := SortBy(s, key);
    SortBySorts(s, key);
    PermutationKeepsDistinct(s, t, key);
    SameMembers(s, t);
    KeysOfSubset(s, t, key);
    KeysOfSubset(t, s, key);
  }
}
