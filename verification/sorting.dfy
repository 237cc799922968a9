/** `sortBy(items, key)`: order items by a string key.
    The library's `sortBy` is not part of this model, so only what any correct
    sort guarantees is promised: the result is ordered by key and is a
    permutation of the input. Stability is not promised. */
module Sorting {
  import Utf16

  ghost predicate SortedBy<T>(s: seq<T>, key: T -> string)
  {
    forall i, j :: 0 <= i < j < |s| ==> Utf16.LexLessEq(key(s[i]), key(s[j]))
  }

  /** Insert `x` in front of the first element whose key is not smaller. */
  function Insert<T>(x: T, s: seq<T>, key: T -> string): (r: seq<T>)
    ensures |r| == |s| + 1
    ensures multiset(r) == multiset(s) + multiset{x}
  {
    if s == [] then [x]
    else if Utf16.LexLessEq(key(x), key(s[0])) then [x] + s
    else
      assert s == [s[0]] + s[1..];
      [s[0]] + Insert(x, s[1..], key)
  }

  function SortBy<T>(s: seq<T>, key: T -> string): (r: seq<T>)
    ensures |r| == |s|
    ensures multiset(r) == multiset(s)
  {
    if s == [] then []
    else
      assert s == [s[0]] + s[1..];
      Insert(s[0], SortBy(s[1..], key), key)
  }

  lemma {:induction false} InsertSorted<T>(x: T, s: seq<T>, key: T -> string)
    requires SortedBy(s, key)
    ensures SortedBy(Insert(x, s, key), key)
  {
    if s == [] {
    } else if Utf16.LexLessEq(key(x), key(s[0])) {
      forall k | 0 <= k < |s|
        ensures Utf16.LexLessEq(key(x), key(s[k]))
      {
        if k > 0 {
          Utf16.LexTransitive(key(x), key(s[0]), key(s[k]));
        }
      }
      ConsSorted(x, s, key);
    } else {
      InsertSorted(x, s[1..], key);
      Utf16.LexTotal(key(x), key(s[0]));
      InsertKeepsLowerBound(s[0], x, s[1..], key);
      ConsSorted(s[0], Insert(x, s[1..], key), key);
    }
  }

  /** Putting a key no greater than any other in front keeps a sequence sorted. */
  lemma ConsSorted<T>(y: T, t: seq<T>, key: T -> string)
    requires SortedBy(t, key)
    requires forall k :: 0 <= k < |t| ==> Utf16.LexLessEq(key(y), key(t[k]))
    ensures SortedBy([y] + t, key)
  {
    var r := [y] + t;
    forall i, j | 0 <= i < j < |r|
      ensures Utf16.LexLessEq(key(r[i]), key(r[j]))
    {
      assert r[j] == t[j - 1];
      if i > 0 {
        assert r[i] == t[i - 1];
      }
    }
  }

  /** A key below `x` and below all of `s` stays below everything `Insert`
      returns. */
  lemma InsertKeepsLowerBound<T>(y: T, x: T, s: seq<T>, key: T -> string)
    requires Utf16.LexLessEq(key(y), key(x))
    requires forall m :: 0 <= m < |s| ==> Utf16.LexLessEq(key(y), key(s[m]))
    ensures forall k :: 0 <= k < |Insert(x, s, key)| ==> Utf16.LexLessEq(key(y), key(Insert(x, s, key)[k]))
  {
    var t := Insert(x, s, key);
    forall k | 0 <= k < |t|
      ensures Utf16.LexLessEq(key(y), key(t[k]))
    {
      assert t[k] in multiset(t);
      if t[k] != x {
        assert t[k] in multiset(s);
        var m :| 0 <= m < |s| && s[m] == t[k];
      }
    }
  }

  /** The result of `SortBy` is ordered by key. */
  lemma {:induction false} SortBySorted<T>(s: seq<T>, key: T -> string)
    ensures SortedBy(SortBy(s, key), key)
  {
    if s != [] {
      SortBySorted(s[1..], key);
      InsertSorted(s[0], SortBy(s[1..], key), key);
    }
  }
}
