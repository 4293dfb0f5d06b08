/** Ordering of result lists. The handlers order documents by a numeric key
    (the relevance score and creation time of an event, or its start date);
    the key is a pair compared lexicographically, smaller first. A descending
    order is obtained by negating the key. */
module Sorting {

  /** Lexicographic order on key pairs. */
  predicate KeyLe(a: (int, int), b: (int, int)) {
    a.0 < b.0 || (a.0 == b.0 && a.1 <= b.1)
  }

  ghost predicate SortedBy<T>(s: seq<T>, key: T -> (int, int)) {
    forall i, j :: 0 <= i < j < |s| ==> KeyLe(key(s[i]), key(s[j]))
  }

  /** Every element of `s` has a key at least `b`. */
  ghost predicate Above<T>(b: (int, int), s: seq<T>, key: T -> (int, int)) {
    forall i :: 0 <= i < |s| ==> KeyLe(b, key(s[i]))
  }

  /** Inserts `x` into `s` after every element whose key is not greater. */
  function Insert<T>(x: T, s: seq<T>, key: T -> (int, int)): (r: seq<T>)
    ensures multiset(r) == multiset(s) + multiset{x}
    ensures |r| == |s| + 1
  {
    if s == [] then [x]
    else if KeyLe(key(s[0]), key(x)) then
      assert s == [s[0]] + s[1..];
      [s[0]] + Insert(x, s[1..], key)
    else
      [x] + s
  }

  lemma {:induction false} InsertAbove<T>(b: (int, int), x: T, s: seq<T>, key: T -> (int, int))
    requires Above(b, s, key) && KeyLe(b, key(x))
    ensures Above(b, Insert(x, s, key), key)
  {
    if s != [] && KeyLe(key(s[0]), key(x)) {
      InsertAbove(b, x, s[1..], key);
    }
  }

  /** Inserting into an ordered sequence keeps it ordered. */
  lemma {:induction false} InsertSorted<T>(x: T, s: seq<T>, key: T -> (int, int))
    requires SortedBy(s, key)
    ensures SortedBy(Insert(x, s, key), key)
  {
    if s != [] {
      if KeyLe(key(s[0]), key(x)) {
        var rest := s[1..];
        assert SortedBy(rest, key);
        InsertSorted(x, rest, key);
        assert Above(key(s[0]), rest, key) by {
          forall i | 0 <= i < |rest| ensures KeyLe(key(s[0]), key(rest[i])) {
            assert rest[i] == s[i + 1];
          }
        }
        InsertAbove(key(s[0]), x, rest, key);
      } else {
        assert Above(key(x), s, key) by {
          forall i | 0 <= i < |s| ensures KeyLe(key(x), key(s[i])) {
            if i > 0 { assert KeyLe(key(s[0]), key(s[i])); }
          }
        }
      }
    }
  }

  /** Insertion sort: the result is ordered by `key` and is a permutation of `s`. */
  function SortBy<T>(s: seq<T>, key: T -> (int, int)): (r: seq<T>)
    ensures SortedBy(r, key)
    ensures multiset(r) == multiset(s)
    ensures |r| == |s|
  {
    if s == [] then []
    else
      assert s == s[..|s| - 1] + [s[|s| - 1]];
      var sorted := SortBy(s[..|s| - 1], key);
      InsertSorted(s[|s| - 1], sorted, key);
      Insert(s[|s| - 1], sorted, key)
  }

  /** `.limit(n)`: at most the first `n` elements. */
  function Take<T>(s: seq<T>, n: nat): (r: seq<T>)
    ensures |r| == if |s| < n then |s| else n
    ensures r <= s
  {
    if |s| <= n then s else s[..n]
  }

  /** The first `n` of a sorted sequence are its `n` smallest: whatever is
      left out has a key no smaller than anything kept. */
  lemma TakeKeepsSmallest<T>(s: seq<T>, key: T -> (int, int), n: nat)
    ensures var r := Take(SortBy(s, key), n);
      forall y :: y in s ==> y in r || forall x :: x in r ==> KeyLe(key(x), key(y))
  {
    var sorted := SortBy(s, key);
    var r := Take(sorted, n);
    forall y | y in s && y !in r ensures forall x :: x in r ==> KeyLe(key(x), key(y)) {
      assert y in multiset(sorted);
      var j :| 0 <= j < |sorted| && sorted[j] == y;
      assert j >= |r|;
      forall x | x in r ensures KeyLe(key(x), key(y)) {
        var i :| 0 <= i < |r| && r[i] == x;
        assert sorted[i] == x;
      }
    }
  }

  /** The first `n` of a sorted sequence are still sorted and drawn from it. */
  lemma TakeSortedKeeps<T>(s: seq<T>, key: T -> (int, int), n: nat)
    ensures var r := Take(SortBy(s, key), n);
      SortedBy(r, key) && forall x :: x in r ==> x in s
  {
    var sorted := SortBy(s, key);
    var r := Take(sorted, n);
    forall x | x in r ensures x in s {
      assert x in multiset(sorted);
    }
  }
}
