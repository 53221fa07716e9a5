/** Tables are sequences of rows in primary-key order. This module holds what every
    query over such a table needs: an optional value, selection of the rows that satisfy
    a condition, and ordering by a key. */
module Rows {

  datatype Option<T> = None | Some(value: T)

  /** The rows of `s` that satisfy `p`, in table order (a WHERE clause). */
  function Where<T(!new)>(s: seq<T>, p: T -> bool): (r: seq<T>)
    ensures |r| <= |s|
    ensures forall x :: x in r <==> x in s && p(x)
    ensures forall x :: multiset(r)[x] == if p(x) then multiset(s)[x] else 0
  {
    if s == [] then []
    else
      var rest := Where(s[1..], p);
      assert s == [s[0]] + s[1..];
      if p(s[0]) then [s[0]] + rest else rest
  }

  /** No two rows of `s` share a key (a primary key). */
  ghost predicate UniqueBy<T>(s: seq<T>, key: T -> int)
  {
    forall i, j | 0 <= i < j < |s| :: key(s[i]) != key(s[j])
  }

  /** Selecting rows keeps a primary key unique. */
  lemma {:induction false} WhereKeepsUnique<T(!new)>(s: seq<T>, p: T -> bool, key: T -> int)
    requires UniqueBy(s, key)
    ensures UniqueBy(Where(s, p), key)
  {
    if s != [] {
      WhereKeepsUnique(s[1..], p, key);
      var rest := Where(s[1..], p);
      forall j | 0 <= j < |rest| ensures key(s[0]) != key(rest[j]) {
        assert rest[j] in s[1..];
      }
    }
  }

  /** The keys of `s` never decrease from left to right. */
  ghost predicate SortedBy<T>(s: seq<T>, key: T -> int)
  {
    forall i, j | 0 <= i < j < |s| :: key(s[i]) <= key(s[j])
  }

  /** Puts `x` into the sorted `s` in front of the first row whose key is not smaller. */
  function Insert<T>(x: T, s: seq<T>, key: T -> int): (r: seq<T>)
    requires SortedBy(s, key)
    ensures SortedBy(r, key)
    ensures multiset(r) == multiset(s) + multiset{x}
  {
    if s == [] || key(x) <= key(s[0]) then [x] + s
    else
      SortedTail(s, key);
      var rest := Insert(x, s[1..], key);
      assert s == [s[0]] + s[1..];
      BelowAll(s[0], x, s[1..], rest, key);
      SortedCons(s[0], rest, key);
      [s[0]] + rest
  }

  /** The rows after the first of a sorted `s` are sorted, and none has a smaller key. */
  lemma SortedTail<T>(s: seq<T>, key: T -> int)
    requires SortedBy(s, key) && s != []
    ensures SortedBy(s[1..], key)
    ensures forall i | 0 <= i < |s[1..]| :: key(s[0]) <= key(s[1..][i])
  {
    forall i | 0 <= i < |s[1..]| ensures key(s[0]) <= key(s[1..][i]) {
      assert s[1..][i] == s[i + 1];
    }
  }

  /** A sorted `rest` stays sorted behind a row whose key is not larger than any of its. */
  lemma SortedCons<T>(h: T, rest: seq<T>, key: T -> int)
    requires SortedBy(rest, key)
    requires forall j | 0 <= j < |rest| :: key(h) <= key(rest[j])
    ensures SortedBy([h] + rest, key)
  {
    var r := [h] + rest;
    forall i, j | 0 <= i < j < |r| ensures key(r[i]) <= key(r[j]) {
      assert r[j] == rest[j - 1];
      if i > 0 {
        assert r[i] == rest[i - 1];
      }
    }
  }

  /** A row whose key bounds the keys of `tail` and of `x` from below bounds the keys of
      any rearrangement of `tail` with `x` added. */
  lemma BelowAll<T>(h: T, x: T, tail: seq<T>, rest: seq<T>, key: T -> int)
    requires forall i | 0 <= i < |tail| :: key(h) <= key(tail[i])
    requires key(h) <= key(x)
    requires multiset(rest) == multiset(tail) + multiset{x}
    ensures forall j | 0 <= j < |rest| :: key(h) <= key(rest[j])
  {
    forall j | 0 <= j < |rest| ensures key(h) <= key(rest[j]) {
      assert rest[j] in multiset(rest);
      if rest[j] != x {
        assert rest[j] in multiset(tail);
        var i :| 0 <= i < |tail| && tail[i] == rest[j];
      }
    }
  }

  /** A stable insertion sort: the same rows, ordered by ascending key (ORDER BY key). */
  function SortBy<T>(s: seq<T>, key: T -> int): (r: seq<T>)
    ensures SortedBy(r, key)
    ensures multiset(r) == multiset(s)
    ensures |r| == |s|
  {
    if s == [] then []
    else
      assert s == [s[0]] + s[1..];
      Insert(s[0], SortBy(s[1..], key), key)
  }

  /** The first `n` rows, or all of them when there are fewer (LIMIT n). */
  function Limit<T>(s: seq<T>, n: nat): (r: seq<T>)
    ensures |r| == if |s| < n then |s| else n
    ensures r == s[..|r|]
  {
    if |s| < n then s else s[..n]
  }
}
