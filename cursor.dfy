/** The cursor operations of the document store that the handlers chain:
    `find` with a condition, `sort`, `skip` and `limit`. The sort is a stable
    insertion sort under a comparator `le` ("may come before"): records the
    comparator ranks equal keep the order in which the collection holds them. */
module Cursor {

  /** `find(condition)`: the records that satisfy it, in collection order. */
  function Keep<T>(s: seq<T>, keep: T -> bool): (r: seq<T>)
    ensures |r| <= |s|
    ensures forall k :: 0 <= k < |r| ==> r[k] in s && keep(r[k])
    ensures forall k :: 0 <= k < |s| && keep(s[k]) ==> s[k] in r
    ensures multiset(r) <= multiset(s)
  {
    if s == [] then []
    else
      assert s == [s[0]] + s[1..];
      (if keep(s[0]) then [s[0]] else []) + Keep(s[1..], keep)
  }

  /** `findOne(condition)` or `findIndex(condition)`: the position of the
      first record that satisfies it, or -1. */
  function FirstIndex<T>(s: seq<T>, keep: T -> bool): (i: int)
    ensures -1 <= i < |s|
    ensures i >= 0 ==> keep(s[i]) && forall k :: 0 <= k < i ==> !keep(s[k])
    ensures i < 0 ==> forall k :: 0 <= k < |s| ==> !keep(s[k])
  {
    if s == [] then -1
    else if keep(s[0]) then 0
    else
      var j := FirstIndex(s[1..], keep);
      if j < 0 then -1 else j + 1
  }

  /** `skip(skip).limit(limit)`: at most `limit` records, starting after the
      first `skip`. */
  function Window<T>(s: seq<T>, skip: nat, limit: nat): (r: seq<T>)
    ensures |r| <= limit
    ensures |r| == if skip >= |s| then 0 else if |s| - skip < limit then |s| - skip else limit
    ensures forall k :: 0 <= k < |r| ==> r[k] == s[skip + k]
  {
    if skip >= |s| then []
    else if |s| - skip < limit then s[skip..]
    else s[skip..skip + limit]
  }

  /** A window holds no element more often than the sequence it is cut
      from. */
  lemma WindowWithin<T>(s: seq<T>, skip: nat, limit: nat)
    ensures multiset(Window(s, skip, limit)) <= multiset(s)
  {
    var w := Window(s, skip, limit);
    if skip < |s| {
      assert s == s[..skip] + w + s[skip + |w|..];
      assert multiset(s) == multiset(s[..skip]) + multiset(w) + multiset(s[skip + |w|..]);
    }
  }

  /** Every adjacent pair is in order. */
  ghost predicate Sorted<T>(s: seq<T>, le: (T, T) -> bool) {
    forall i :: 0 <= i < |s| - 1 ==> le(s[i], s[i + 1])
  }

  /** Puts `x` before the first element it may precede. */
  function Insert<T>(x: T, s: seq<T>, le: (T, T) -> bool): (r: seq<T>)
    ensures |r| == |s| + 1
    ensures multiset(r) == multiset(s) + multiset{x}
  {
    if s == [] || le(x, s[0]) then [x] + s
    else
      assert s == [s[0]] + s[1..];
      [s[0]] + Insert(x, s[1..], le)
  }

  function Sort<T>(s: seq<T>, le: (T, T) -> bool): (r: seq<T>)
    ensures |r| == |s|
    ensures multiset(r) == multiset(s)
  {
    if s == [] then []
    else
      assert s == [s[0]] + s[1..];
      Insert(s[0], Sort(s[1..], le), le)
  }

  lemma {:induction false} InsertSorted<T>(x: T, s: seq<T>, le: (T, T) -> bool)
    requires forall a: T, b: T :: le(a, b) || le(b, a)
    requires Sorted(s, le)
    ensures Sorted(Insert(x, s, le), le)
    ensures Insert(x, s, le)[0] == x || (s != [] && Insert(x, s, le)[0] == s[0])
  {
    if s != [] && !le(x, s[0]) {
      InsertSorted(x, s[1..], le);
      var r := Insert(x, s, le);
      assert r == [s[0]] + Insert(x, s[1..], le);
      assert le(s[0], x);
      assert |s| > 1 ==> le(s[0], s[1]);
    }
  }

  /** Sorting yields a sorted permutation (the permutation is the function's
      own contract). */
  lemma {:induction false} SortSorted<T>(s: seq<T>, le: (T, T) -> bool)
    requires forall a: T, b: T :: le(a, b) || le(b, a)
    ensures Sorted(Sort(s, le), le)
  {
    if s != [] {
      SortSorted(s[1..], le);
      InsertSorted(s[0], Sort(s[1..], le), le);
    }
  }

  /** With a transitive comparator, adjacent order gives order between any
      two positions. */
  lemma {:induction false} SortedPairwise<T>(s: seq<T>, le: (T, T) -> bool, i: int, j: int)
    requires forall a: T, b: T, c: T :: le(a, b) && le(b, c) ==> le(a, c)
    requires Sorted(s, le)
    requires 0 <= i < j < |s|
    ensures le(s[i], s[j])
    decreases j - i
  {
    if j > i + 1 {
      SortedPairwise(s, le, i + 1, j);
    }
  }
}
