/**
 * What the controllers rely on from the document database: ObjectIds, the
 * natural order of a collection, `findOne` and `find(...).sort('-field')`.
 */
module Persistence {
  import opened Wrappers

  /** Document ids. Ids are handed out in increasing order, so the ascending
      order of ids is the order in which documents were inserted. */
  type ObjectId = nat

  /** A least element of a non-empty set. */
  ghost function LeastOf(s: set<ObjectId>): (m: ObjectId)
    requires s != {}
    ensures m in s && forall x :: x in s ==> m <= x
    decreases s
  {
    var x :| x in s;
    if s == {x} then x
    else
      var rest := LeastOf(s - {x});
      assert forall y :: y in s ==> y == x || y in s - {x};
      if x < rest then x else rest
  }

  /** The first of a set of documents in natural order. */
  function Min(s: set<ObjectId>): (m: ObjectId)
    requires s != {}
    ensures m in s && forall x :: x in s ==> m <= x
  {
    assert LeastOf(s) in s;
    var m :| m in s && forall x :: x in s ==> m <= x;
    m
  }

  /** `findOne(filter)`: the first matching document in natural order, if any. */
  function FindFirst(matching: set<ObjectId>): (r: Option<ObjectId>)
    ensures r.None? <==> matching == {}
    ensures r.Some? ==> r.value in matching && forall x :: x in matching ==> r.value <= x
  {
    if matching == {} then None else Some(Min(matching))
  }

  predicate Ascending(r: seq<ObjectId>) {
    forall i, j :: 0 <= i < j < |r| ==> r[i] < r[j]
  }

  /** `find(filter)` without a sort: the matching documents in natural order. */
  function NaturalOrder(s: set<ObjectId>): (r: seq<ObjectId>)
    ensures multiset(r) == multiset(s)
    ensures Ascending(r)
    decreases s
  {
    if s == {} then []
    else
      var m := Min(s);
      var rest := NaturalOrder(s - {m});
      MultisetOfSetWithout(s, m);
      forall x | x in rest ensures m < x {
        assert x in multiset(rest);
      }
      AscendingCons(m, rest);
      [m] + rest
  }

  lemma AscendingCons(h: ObjectId, t: seq<ObjectId>)
    requires Ascending(t) && forall x :: x in t ==> h < x
    ensures Ascending([h] + t)
  {
    var r := [h] + t;
    forall i, j | 0 <= i < j < |r| ensures r[i] < r[j] {
      assert r[j] == t[j - 1] && t[j - 1] in t;
      if i > 0 {
        assert r[i] == t[i - 1];
      }
    }
  }

  lemma MultisetOfSetWithout(s: set<ObjectId>, m: ObjectId)
    requires m in s
    ensures multiset(s) == multiset(s - {m}) + multiset{m}
  {
    forall x ensures multiset(s)[x] == (multiset(s - {m}) + multiset{m})[x] {
    }
  }

  /** Every id of `r` has a sort key. */
  predicate Keyed(r: seq<ObjectId>, key: map<ObjectId, int>) {
    forall x :: x in r ==> x in key
  }

  /** Newest first: every id has a key and keys never increase along `r`. */
  predicate SortedDesc(r: seq<ObjectId>, key: map<ObjectId, int>) {
    Keyed(r, key) && forall i, j :: 0 <= i < j < |r| ==> key[r[i]] >= key[r[j]]
  }

  lemma SortedCons(h: ObjectId, t: seq<ObjectId>, key: map<ObjectId, int>)
    requires h in key && SortedDesc(t, key)
    requires forall y :: y in t ==> key[y] <= key[h]
    ensures SortedDesc([h] + t, key)
  {
    var r := [h] + t;
    forall i, j | 0 <= i < j < |r| ensures key[r[i]] >= key[r[j]] {
      assert r[j] == t[j - 1];
      if i > 0 {
        assert r[i] == t[i - 1];
      }
    }
  }

  lemma SortedHead(r: seq<ObjectId>, key: map<ObjectId, int>)
    requires SortedDesc(r, key) && |r| > 0
    ensures forall y :: y in r ==> key[y] <= key[r[0]]
  {
    forall y | y in r ensures key[y] <= key[r[0]] {
      var k :| 0 <= k < |r| && r[k] == y;
      if k > 0 {
        assert key[r[0]] >= key[r[k]];
      }
    }
  }

  function InsertDesc(x: ObjectId, r: seq<ObjectId>, key: map<ObjectId, int>): (r': seq<ObjectId>)
    requires x in key && SortedDesc(r, key)
    ensures multiset(r') == multiset(r) + multiset{x}
    ensures SortedDesc(r', key)
    decreases |r|
  {
    if r == [] || key[x] >= key[r[0]] then
      SortedCons(x, r, key);
      [x] + r
    else
      var tail := InsertDesc(x, r[1..], key);
      assert r == [r[0]] + r[1..];
      InsertedBelowHead(x, r, tail, key);
      SortedCons(r[0], tail, key);
      [r[0]] + tail
  }

  /** What is inserted below the head of a sorted sequence stays below it. */
  lemma InsertedBelowHead(x: ObjectId, r: seq<ObjectId>, tail: seq<ObjectId>, key: map<ObjectId, int>)
    requires SortedDesc(r, key) && |r| > 0 && x in key && key[x] < key[r[0]]
    requires multiset(tail) == multiset(r[1..]) + multiset{x}
    ensures forall y :: y in tail ==> y in key && key[y] <= key[r[0]]
  {
    SortedHead(r, key);
    forall y | y in tail ensures y in key && key[y] <= key[r[0]] {
      assert y in multiset(tail);
      if y != x {
        assert y in multiset(r[1..]);
        assert y in r;
      }
    }
  }

  /** `sort('-field')`: the same ids with their keys in non-increasing order. */
  function SortDesc(xs: seq<ObjectId>, key: map<ObjectId, int>): (r: seq<ObjectId>)
    requires Keyed(xs, key)
    ensures multiset(r) == multiset(xs)
    ensures SortedDesc(r, key)
    decreases |xs|
  {
    if xs == [] then []
    else
      assert xs == [xs[0]] + xs[1..];
      InsertDesc(xs[0], SortDesc(xs[1..], key), key)
  }

  /** `find(filter).sort('-field')`: each matching document exactly once, newest first. */
  function FindSortedDesc(matching: set<ObjectId>, key: map<ObjectId, int>): (r: seq<ObjectId>)
    requires matching <= key.Keys
    ensures multiset(r) == multiset(matching)
    ensures SortedDesc(r, key)
  {
    var found := NaturalOrder(matching);
    assert forall x :: x in found ==> x in multiset(found);
    SortDesc(found, key)
  }

  /** An id at two positions counts twice. */
  lemma CountAtTwoPositions(r: seq<ObjectId>, i: int, j: int)
    requires 0 <= i < j < |r|
    ensures multiset(r)[r[i]] >= 1 + (if r[i] == r[j] then 1 else 0)
  {
    assert r == r[..j] + r[j..];
    assert r[..j][i] == r[i];
    assert r[j..][0] == r[j];
  }

  /** A result whose multiset is that of a set holds each member of the set exactly once. */
  lemma OnceEach(r: seq<ObjectId>, s: set<ObjectId>)
    requires multiset(r) == multiset(s)
    ensures forall x :: x in r <==> x in s
    ensures forall i, j :: 0 <= i < j < |r| ==> r[i] != r[j]
  {
    forall x ensures x in r <==> x in s {
      assert x in r <==> x in multiset(r);
    }
    forall i, j | 0 <= i < j < |r| ensures r[i] != r[j] {
      CountAtTwoPositions(r, i, j);
    }
  }
}
