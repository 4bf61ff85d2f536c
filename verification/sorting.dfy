/** `Array.prototype.sort` with a numeric comparator `(a, b) => key(a) - key(b)`.
    The engine's sort is stable, so for a consistent comparator its result is
    the stable insertion sort below. */
module Sorting {

  /** Non-decreasing in `key`. */
  ghost predicate Ascending<T>(s: seq<T>, key: T -> real) {
    forall i, j :: 0 <= i < j < |s| ==> key(s[i]) <= key(s[j])
  }

  /** Non-increasing in `key`. */
  ghost predicate Descending<T>(s: seq<T>, key: T -> real) {
    forall i, j :: 0 <= i < j < |s| ==> key(s[i]) >= key(s[j])
  }

  /** Places `x` before the first element whose key is not smaller. */
  function Insert<T>(x: T, s: seq<T>, key: T -> real): (r: seq<T>)
    ensures multiset(r) == multiset(s) + multiset{x}
    ensures |r| == |s| + 1
  {
    if |s| == 0 then [x]
    else if key(x) <= key(s[0]) then [x] + s
    else
      assert s == [s[0]] + s[1..];
      [s[0]] + Insert(x, s[1..], key)
  }

  /** Inserting into an ascending sequence keeps it ascending. */
  lemma {:induction false} InsertAscending<T>(x: T, s: seq<T>, key: T -> real)
    requires Ascending(s, key)
    ensures Ascending(Insert(x, s, key), key)
  {
    if |s| > 0 && key(x) > key(s[0]) {
      var rest := Insert(x, s[1..], key);
      assert Ascending(s[1..], key);
      InsertAscending(x, s[1..], key);
      forall i | 0 <= i < |rest|
        ensures key(s[0]) <= key(rest[i])
      {
        assert rest[i] in multiset(rest);
        if rest[i] != x {
          assert rest[i] in multiset(s[1..]);
          var j :| 0 <= j < |s[1..]| && s[1..][j] == rest[i];
          assert s[j + 1] == rest[i];
        }
      }
      ConsAscending(s[0], rest, key);
    } else if |s| > 0 {
      ConsAscending(x, s, key);
    }
  }

  /** `items.sort((a, b) => key(a) - key(b))` */
  function SortAscending<T>(s: seq<T>, key: T -> real): (r: seq<T>)
    ensures Ascending(r, key)
    ensures multiset(r) == multiset(s)
    ensures |r| == |s|
  {
    if |s| == 0 then []
    else
      assert s == [s[0]] + s[1..];
      InsertAscending(s[0], SortAscending(s[1..], key), key);
      Insert(s[0], SortAscending(s[1..], key), key)
  }

  /** `items.sort((a, b) => key(b) - key(a))` */
  function SortDescending<T>(s: seq<T>, key: T -> real): (r: seq<T>)
    ensures Descending(r, key)
    ensures multiset(r) == multiset(s)
    ensures |r| == |s|
  {
    var neg := (x: T) => -key(x);
    var r := SortAscending(s, neg);
    assert forall i, j :: 0 <= i < j < |r| ==> neg(r[i]) <= neg(r[j]);
    r
  }

  /** A sequence already in order is left exactly as it is. */
  lemma {:induction false} SortAscendingSorted<T>(s: seq<T>, key: T -> real)
    requires Ascending(s, key)
    ensures SortAscending(s, key) == s
  {
    if |s| > 0 {
      assert Ascending(s[1..], key);
      SortAscendingSorted(s[1..], key);
    }
  }

  /** A smallest element in front keeps a sequence ascending. */
  lemma ConsAscending<T>(x: T, s: seq<T>, key: T -> real)
    requires Ascending(s, key)
    requires forall i :: 0 <= i < |s| ==> key(x) <= key(s[i])
    ensures Ascending([x] + s, key)
  {
    var r := [x] + s;
    forall i, j | 0 <= i < j < |r|
      ensures key(r[i]) <= key(r[j])
    {
      assert r[j] == s[j - 1];
      if i > 0 {
        assert r[i] == s[i - 1];
      }
    }
  }

  /** Sequences with the same multiset have the same elements. */
  lemma SameElements<T>(a: seq<T>, b: seq<T>)
    requires multiset(a) == multiset(b)
    ensures forall i :: 0 <= i < |a| ==> a[i] in b
    ensures forall i :: 0 <= i < |b| ==> b[i] in a
  {
    forall i | 0 <= i < |a|
      ensures a[i] in b
    {
      assert a[i] in multiset(a);
    }
    forall i | 0 <= i < |b|
      ensures b[i] in a
    {
      assert b[i] in multiset(b);
    }
  }
}
