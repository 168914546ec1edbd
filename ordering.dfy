// OrderByDescending on a nullable timestamp column, as the database
// evaluates it: larger values first, NULL below every value.
module Ordering {
  import opened Wrappers

  /** a sorts no later than b in descending order. */
  predicate AtLeast(a: Option<int>, b: Option<int>)
  {
    b.None? || (a.Some? && a.value >= b.value)
  }

  predicate SortedDesc<T>(s: seq<T>, key: T -> Option<int>)
  {
    forall i, j :: 0 <= i < j < |s| ==> AtLeast(key(s[i]), key(s[j]))
  }

  /** Inserts x in front of the first element that is not strictly newer. */
  function Insert<T>(x: T, s: seq<T>, key: T -> Option<int>): (r: seq<T>)
    ensures |r| == |s| + 1
    ensures multiset(r) == multiset(s) + multiset{x}
  {
    if s == [] then [x]
    else if AtLeast(key(s[0]), key(x)) && key(s[0]) != key(x) then
      assert s == [s[0]] + s[1..];
      [s[0]] + Insert(x, s[1..], key)
    else [x] + s
  }

  /** Insertion sort, newest first. */
  function OrderByDescending<T>(s: seq<T>, key: T -> Option<int>): (r: seq<T>)
    ensures |r| == |s|
    ensures multiset(r) == multiset(s)
  {
    if s == [] then []
    else
      assert s == [s[0]] + s[1..];
      Insert(s[0], OrderByDescending(s[1..], key), key)
  }

  lemma AtLeastTotal(a: Option<int>, b: Option<int>)
    ensures AtLeast(a, b) || AtLeast(b, a)
  {
  }

  lemma {:induction false} InsertSorted<T>(x: T, s: seq<T>, key: T -> Option<int>)
    requires SortedDesc(s, key)
    ensures SortedDesc(Insert(x, s, key), key)
  {
    if s != [] {
      var r := Insert(x, s, key);
      if AtLeast(key(s[0]), key(x)) && key(s[0]) != key(x) {
        InsertSorted(x, s[1..], key);
        var t := Insert(x, s[1..], key);
        assert r == [s[0]] + t;
        forall j | 1 <= j < |r| ensures AtLeast(key(r[0]), key(r[j])) {
          assert r[j] in multiset(t);
          assert r[j] in multiset(s[1..]) + multiset{x};
          if r[j] in multiset(s[1..]) {
            var k :| 0 <= k < |s[1..]| && s[1..][k] == r[j];
            assert s[k + 1] == r[j];
          }
        }
      } else {
        AtLeastTotal(key(s[0]), key(x));
      }
    }
  }

  lemma {:induction false} SortSorted<T>(s: seq<T>, key: T -> Option<int>)
    ensures SortedDesc(OrderByDescending(s, key), key)
  {
    if s != [] {
      SortSorted(s[1..], key);
      InsertSorted(s[0], OrderByDescending(s[1..], key), key);
    }
  }

  /** The first n elements of a descending sequence: nothing left out is
      newer than anything kept. */
  lemma TakeKeepsNewest<T>(s: seq<T>, key: T -> Option<int>, n: nat, x: T)
    requires SortedDesc(s, key)
    requires x in s && n <= |s|
    ensures x in s[..n] || forall i :: 0 <= i < n ==> AtLeast(key(s[i]), key(x))
  {
    var j :| 0 <= j < |s| && s[j] == x;
    if j < n {
      assert s[..n][j] == x;
    }
  }

  /** A prefix of a descending sequence is descending. */
  lemma SortedPrefix<T>(s: seq<T>, key: T -> Option<int>, n: nat)
    requires SortedDesc(s, key) && n <= |s|
    ensures SortedDesc(s[..n], key)
  {
    forall i, j | 0 <= i < j < n ensures AtLeast(key(s[..n][i]), key(s[..n][j])) {
      assert s[..n][i] == s[i] && s[..n][j] == s[j];
    }
  }
}
