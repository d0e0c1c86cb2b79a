/** Sequence helpers for the in-memory tables: the `where` filter of a query,
    descending order, and the chronology facts that fresh ids and timestamps
    give every table. */
module Seqs {

  /** The rows of `s` that satisfy `p`, in table order. */
  function Filter<T(!new)>(s: seq<T>, p: T -> bool): (r: seq<T>)
    ensures |r| <= |s|
    ensures forall x :: x in r <==> x in s && p(x)
    ensures forall i :: 0 <= i < |r| ==> p(r[i])
  {
    if s == [] then []
    else (if p(s[0]) then [s[0]] else []) + Filter(s[1..], p)
  }

  /** `s` in reverse order (an `orderBy: { createdAt: 'desc' }` over a
      chronological table). */
  function Reverse<T>(s: seq<T>): (r: seq<T>)
    ensures |r| == |s|
    ensures forall i :: 0 <= i < |s| ==> r[i] == s[|s| - 1 - i]
  {
    if s == [] then [] else Reverse(s[1..]) + [s[0]]
  }

  /** Reversing keeps the members. */
  lemma ReverseSameMembers<T>(s: seq<T>)
    ensures forall x :: x in Reverse(s) <==> x in s
  {
    forall x | x in s ensures x in Reverse(s) {
      var i :| 0 <= i < |s| && s[i] == x;
      assert Reverse(s)[|s| - 1 - i] == x;
    }
  }

  /** `f` applied to every row (an `updateMany`). */
  function Map<T>(s: seq<T>, f: T -> T): (r: seq<T>)
    ensures |r| == |s|
    ensures forall i :: 0 <= i < |s| ==> r[i] == f(s[i])
  {
    seq(|s|, i requires 0 <= i < |s| => f(s[i]))
  }

  /** The index of the first row satisfying `p`, or -1 (`findIndex`, and the
      position `findUnique` / `findFirst` select). */
  function FirstIndex<T>(s: seq<T>, p: T -> bool): (i: int)
    ensures -1 <= i < |s|
    ensures 0 <= i ==> p(s[i]) && forall k :: 0 <= k < i ==> !p(s[k])
    ensures i == -1 <==> forall k :: 0 <= k < |s| ==> !p(s[k])
  {
    if s == [] then -1
    else if p(s[0]) then 0
    else
      var j := FirstIndex(s[1..], p);
      if j == -1 then -1 else j + 1
  }

  /** Two searches that agree row by row find the same index. */
  lemma FirstIndexAgrees<T>(s: seq<T>, p: T -> bool, s': seq<T>, q: T -> bool)
    requires |s| == |s'| && forall k :: 0 <= k < |s| ==> p(s[k]) == q(s'[k])
    ensures FirstIndex(s, p) == FirstIndex(s', q)
  {
  }

  /** Appending a row the search rejects does not move the first match. */
  lemma {:induction false} FirstIndexAppendMiss<T>(s: seq<T>, x: T, p: T -> bool)
    requires !p(x)
    ensures FirstIndex(s + [x], p) == FirstIndex(s, p)
  {
    if s == [] {
      assert s + [x] == [x] && [x][1..] == [];
    } else {
      assert (s + [x])[1..] == s[1..] + [x];
      FirstIndexAppendMiss(s[1..], x, p);
    }
  }

  /** The index of the last row satisfying `p`, or -1. */
  function LastIndex<T>(s: seq<T>, p: T -> bool): (i: int)
    ensures -1 <= i < |s|
    ensures 0 <= i ==> p(s[i]) && forall k :: i < k < |s| ==> !p(s[k])
    ensures i == -1 <==> forall k :: 0 <= k < |s| ==> !p(s[k])
  {
    if s == [] then -1
    else if p(s[|s| - 1]) then |s| - 1
    else LastIndex(s[..|s| - 1], p)
  }

  /** Keys strictly increase along the table. */
  ghost predicate Increasing<T>(s: seq<T>, key: T -> int) {
    forall i, j :: 0 <= i < j < |s| ==> key(s[i]) < key(s[j])
  }

  /** Every key is below `bound`. */
  ghost predicate Below<T>(s: seq<T>, key: T -> int, bound: int) {
    forall i :: 0 <= i < |s| ==> key(s[i]) < bound
  }

  /** A table whose rows carry an id and a creation stamp, both taken from a
      counter whose next value is `tick`. */
  ghost predicate Chrono<T>(s: seq<T>, id: T -> int, stamp: T -> int, tick: int) {
    Increasing(s, id) && Increasing(s, stamp) && Below(s, id, tick) && Below(s, stamp, tick)
  }

  lemma {:induction false} FilterIncreasing<T(!new)>(s: seq<T>, p: T -> bool, key: T -> int)
    requires Increasing(s, key)
    ensures Increasing(Filter(s, p), key)
  {
    if s != [] {
      FilterIncreasing(s[1..], p, key);
      var rest := Filter(s[1..], p);
      forall x | x in rest ensures key(s[0]) < key(x) {
        var k :| 0 <= k < |s[1..]| && s[1..][k] == x;
        assert s[k + 1] == x;
      }
      var r := (if p(s[0]) then [s[0]] else []) + rest;
      forall i, j | 0 <= i < j < |r| ensures key(r[i]) < key(r[j]) {
        if p(s[0]) && i == 0 {
          assert r[j] in rest by { assert r[j] == rest[j - 1]; }
        }
      }
    }
  }

  lemma FilterBelow<T(!new)>(s: seq<T>, p: T -> bool, key: T -> int, bound: int)
    requires Below(s, key, bound)
    ensures Below(Filter(s, p), key, bound)
  {
    var r := Filter(s, p);
    forall i | 0 <= i < |r| ensures key(r[i]) < bound {
      assert r[i] in s;
    }
  }

  lemma FilterChrono<T(!new)>(s: seq<T>, p: T -> bool, id: T -> int, stamp: T -> int, tick: int)
    requires Chrono(s, id, stamp, tick)
    ensures Chrono(Filter(s, p), id, stamp, tick)
  {
    FilterIncreasing(s, p, id);
    FilterIncreasing(s, p, stamp);
    FilterBelow(s, p, id, tick);
    FilterBelow(s, p, stamp, tick);
  }

  /** Appending a row stamped with the counter and advancing the counter keeps
      the table chronological. */
  lemma AppendChrono<T>(s: seq<T>, x: T, id: T -> int, stamp: T -> int, tick: int, tick': int)
    requires Chrono(s, id, stamp, tick)
    requires id(x) == stamp(x) == tick < tick'
    ensures Chrono(s + [x], id, stamp, tick')
  {
  }

  lemma ChronoLater<T>(s: seq<T>, id: T -> int, stamp: T -> int, tick: int, tick': int)
    requires Chrono(s, id, stamp, tick) && tick <= tick'
    ensures Chrono(s, id, stamp, tick')
  {
  }

  /** Rows stamped from `tick` on may follow a table stamped below it. */
  lemma ConcatChrono<T>(s: seq<T>, u: seq<T>, id: T -> int, stamp: T -> int, tick: int, tick': int)
    requires Chrono(s, id, stamp, tick) && Chrono(u, id, stamp, tick') && tick <= tick'
    requires forall i :: 0 <= i < |u| ==> tick <= id(u[i]) && tick <= stamp(u[i])
    ensures Chrono(s + u, id, stamp, tick')
  {
  }

  /** An update that keeps every row's id and stamp keeps the table chronological. */
  lemma MapChrono<T>(s: seq<T>, f: T -> T, id: T -> int, stamp: T -> int, tick: int)
    requires Chrono(s, id, stamp, tick)
    requires forall x :: id(f(x)) == id(x) && stamp(f(x)) == stamp(x)
    ensures Chrono(Map(s, f), id, stamp, tick)
  {
  }

  lemma ReplaceChrono<T>(s: seq<T>, i: nat, x: T, id: T -> int, stamp: T -> int, tick: int)
    requires Chrono(s, id, stamp, tick) && i < |s|
    requires id(x) == id(s[i]) && stamp(x) == stamp(s[i])
    ensures Chrono(s[i := x], id, stamp, tick)
  {
  }

  /** Filtering twice is filtering once by a predicate that agrees with both
      filters on every row. */
  lemma {:induction false} FilterThen<T(!new)>(s: seq<T>, p: T -> bool, q: T -> bool, pq: T -> bool)
    requires forall k :: 0 <= k < |s| ==> pq(s[k]) == (p(s[k]) && q(s[k]))
    ensures Filter(Filter(s, p), q) == Filter(s, pq)
  {
    if s != [] {
      FilterThen(s[1..], p, q, pq);
      var rest := Filter(s[1..], p);
      if p(s[0]) {
        assert Filter(s, p) == [s[0]] + rest;
        assert ([s[0]] + rest)[1..] == rest;
      } else {
        assert Filter(s, p) == rest;
      }
    }
  }

  /** Two filters that agree on every row select the same rows. */
  lemma {:induction false} FilterSame<T(!new)>(s: seq<T>, p: T -> bool, q: T -> bool)
    requires forall k :: 0 <= k < |s| ==> p(s[k]) == q(s[k])
    ensures Filter(s, p) == Filter(s, q)
  {
    if s != [] {
      FilterSame(s[1..], p, q);
    }
  }

  /** Filtering distributes over concatenation. */
  lemma {:induction false} FilterAppend<T(!new)>(s: seq<T>, s': seq<T>, p: T -> bool)
    ensures Filter(s + s', p) == Filter(s, p) + Filter(s', p)
  {
    if s == [] {
      assert s + s' == s';
    } else {
      assert (s + s')[1..] == s[1..] + s';
      FilterAppend(s[1..], s', p);
    }
  }

  /** No row satisfies the filter. */
  lemma {:induction false} NoneMatch<T(!new)>(s: seq<T>, p: T -> bool)
    requires forall k :: 0 <= k < |s| ==> !p(s[k])
    ensures Filter(s, p) == []
  {
    if s != [] {
      NoneMatch(s[1..], p);
    }
  }

  /** Every row satisfies the filter. */
  lemma {:induction false} AllMatch<T(!new)>(s: seq<T>, p: T -> bool)
    requires forall k :: 0 <= k < |s| ==> p(s[k])
    ensures Filter(s, p) == s
  {
    if s != [] {
      AllMatch(s[1..], p);
      assert [s[0]] + s[1..] == s;
    }
  }

  /** In an increasing table the key identifies the row. */
  lemma IncreasingUnique<T>(s: seq<T>, key: T -> int, i: nat, j: nat)
    requires Increasing(s, key) && i < |s| && j < |s| && key(s[i]) == key(s[j])
    ensures i == j
  {
  }
}
