/**
 * `ORDER BY <time> DESC LIMIT n`, the query shape behind every history listing:
 * the `n` rows with the latest times, latest first. Rows with equal times may come
 * in any order; this model fixes one.
 */
module Newest {

  predicate SortedDesc<T>(s: seq<T>, key: T -> int) {
    forall i, j :: 0 <= i < j < |s| ==> key(s[i]) >= key(s[j])
  }

  function Insert<T(==)>(x: T, s: seq<T>, key: T -> int): (r: seq<T>)
    requires SortedDesc(s, key)
    ensures SortedDesc(r, key)
    ensures multiset(r) == multiset(s) + multiset{x}
    ensures |r| > 0 && (r[0] == x || (|s| > 0 && r[0] == s[0]))
  {
    if |s| == 0 then [x]
    else if key(x) >= key(s[0]) then [x] + s
    else
      var rest := Insert(x, s[1..], key);
      assert s == [s[0]] + s[1..];
      ConsSorted(s[0], rest, key);
      [s[0]] + rest
  }

  lemma ConsSorted<T>(h: T, rest: seq<T>, key: T -> int)
    requires SortedDesc(rest, key) && (|rest| > 0 ==> key(h) >= key(rest[0]))
    ensures SortedDesc([h] + rest, key)
  {
    var r := [h] + rest;
    forall i, j | 0 <= i < j < |r| ensures key(r[i]) >= key(r[j]) {
      if i == 0 { assert r[j] == rest[j - 1]; assert key(rest[0]) >= key(rest[j - 1]); }
      else { assert r[i] == rest[i - 1] && r[j] == rest[j - 1]; }
    }
  }

  function Sort<T(==)>(s: seq<T>, key: T -> int): (r: seq<T>)
    ensures SortedDesc(r, key)
    ensures multiset(r) == multiset(s)
  {
    if |s| == 0 then []
    else
      assert s == [s[0]] + s[1..];
      Insert(s[0], Sort(s[1..], key), key)
  }

  function Min(a: nat, b: nat): nat {
    if a <= b then a else b
  }

  /** A prefix of a latest-first permutation of `s` holds rows no earlier than those cut off. */
  lemma PrefixKeepsNewest<T(!new)>(s: seq<T>, sorted: seq<T>, n: nat, key: T -> int)
    requires SortedDesc(sorted, key) && multiset(sorted) == multiset(s) && n <= |sorted|
    ensures multiset(sorted[..n]) <= multiset(s)
    ensures forall x :: multiset(sorted[..n])[x] < multiset(s)[x] ==>
              forall i :: 0 <= i < n ==> key(x) <= key(sorted[..n][i])
  {
    var r := sorted[..n];
    assert sorted == r + sorted[n..];
    assert multiset(sorted) == multiset(r) + multiset(sorted[n..]);
    forall x | multiset(r)[x] < multiset(s)[x]
      ensures forall i :: 0 <= i < n ==> key(x) <= key(r[i])
    {
      assert x in multiset(sorted[n..]);
      var j :| 0 <= j < |sorted[n..]| && sorted[n..][j] == x;
      assert sorted[n + j] == x;
    }
  }

  /**
   * At most `limit` rows, latest first, each taken from `s`; every row left out is
   * no later than any row kept.
   */
  function NewestFirst<T(==,!new)>(s: seq<T>, key: T -> int, limit: nat): (r: seq<T>)
    ensures |r| == Min(limit, |s|)
    ensures SortedDesc(r, key)
    ensures multiset(r) <= multiset(s)
    ensures forall x :: multiset(r)[x] < multiset(s)[x] ==>
              forall i :: 0 <= i < |r| ==> key(x) <= key(r[i])
  {
    var sorted := Sort(s, key);
    assert |sorted| == |s| by { assert |multiset(sorted)| == |multiset(s)|; }
    var n := Min(limit, |s|);
    PrefixKeepsNewest(s, sorted, n, key);
    sorted[..n]
  }
}
