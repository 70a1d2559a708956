/**
 * The list operations the components use: `Array.prototype.filter`, `Array.prototype.map`
 * and `Array.from(new Set(xs))`, which keeps the first occurrence of every value.
 */
module Seqs {

  /** `s.filter(p)`: the elements of `s` that satisfy `p`, in their original order. */
  function Filter<T(==)>(s: seq<T>, p: T -> bool): (r: seq<T>)
    ensures |r| <= |s|
    ensures forall i :: 0 <= i < |r| ==> r[i] in s && p(r[i])
    ensures forall i :: 0 <= i < |s| && p(s[i]) ==> s[i] in r
    decreases |s|
  {
    if s == [] then []
    else if p(s[0]) then [s[0]] + Filter(s[1..], p)
    else Filter(s[1..], p)
  }

  /** Filtering a concatenation filters each part: so `Filter` keeps the relative order. */
  lemma {:induction false} FilterConcat<T>(a: seq<T>, b: seq<T>, p: T -> bool)
    ensures Filter(a + b, p) == Filter(a, p) + Filter(b, p)
    decreases |a|
  {
    if a == [] {
      assert a + b == b;
    } else {
      assert (a + b)[0] == a[0] && (a + b)[1..] == a[1..] + b;
      FilterConcat(a[1..], b, p);
    }
  }

  /** `Filter` keeps every element that satisfies `p` as often as it occurs, and drops all others. */
  lemma {:induction false} FilterCount<T>(s: seq<T>, p: T -> bool, x: T)
    ensures multiset(Filter(s, p))[x] == if p(x) then multiset(s)[x] else 0
    decreases |s|
  {
    if s != [] {
      assert s == [s[0]] + s[1..];
      FilterCount(s[1..], p, x);
    }
  }

  /** `s.map(f)`: one image per element, in the same order. */
  function Map<A, B>(s: seq<A>, f: A -> B): (r: seq<B>)
    ensures |r| == |s|
    ensures forall i :: 0 <= i < |s| ==> r[i] == f(s[i])
    decreases |s|
  {
    if s == [] then [] else [f(s[0])] + Map(s[1..], f)
  }

  /** Mapping a suffix gives the suffix of the mapped list. */
  lemma MapDrop<A, B>(s: seq<A>, f: A -> B, n: nat)
    requires n <= |s|
    ensures Map(s[n..], f) == Map(s, f)[n..]
  {
    var a := Map(s[n..], f);
    var b := Map(s, f)[n..];
    forall k | 0 <= k < |a| ensures a[k] == b[k] {
      assert s[n..][k] == s[n + k];
    }
  }

  /** Mapping a prefix gives the prefix of the mapped list. */
  lemma MapTake<A, B>(s: seq<A>, f: A -> B, n: nat)
    requires n <= |s|
    ensures Map(s[..n], f) == Map(s, f)[..n]
  {
    var a := Map(s[..n], f);
    var b := Map(s, f)[..n];
    forall k | 0 <= k < |a| ensures a[k] == b[k] {
      assert s[..n][k] == s[k];
    }
  }

  predicate NoDuplicates<T(==)>(s: seq<T>) {
    forall i, j :: 0 <= i < j < |s| ==> s[i] != s[j]
  }

  /** The position of the first occurrence of `x` in `s`. */
  function FirstIndex<T(==)>(s: seq<T>, x: T): (k: nat)
    requires x in s
    ensures k < |s| && s[k] == x
    ensures forall i :: 0 <= i < k ==> s[i] != x
    decreases |s|
  {
    if s[0] == x then 0 else 1 + FirstIndex(s[1..], x)
  }

  /** `Array.from(new Set(s))`: each value of `s` once, in the order a `Set` inserts them. */
  function Distinct<T(==)>(s: seq<T>): (r: seq<T>)
    ensures forall i :: 0 <= i < |r| ==> r[i] in s
    ensures forall i :: 0 <= i < |s| ==> s[i] in r
    ensures NoDuplicates(r)
    ensures |r| <= |s|
    decreases |s|
  {
    if s == [] then []
    else
      var d := Distinct(s[..|s| - 1]);
      if s[|s| - 1] in d then d else d + [s[|s| - 1]]
  }

  /** The first occurrence of a value in a prefix is its first occurrence in the whole list. */
  lemma {:induction false} FirstIndexOfPrefix<T>(s: seq<T>, n: nat, x: T)
    requires n <= |s| && x in s[..n]
    ensures FirstIndex(s, x) == FirstIndex(s[..n], x)
    decreases n
  {
    var p := s[..n];
    assert p[0] == s[0];
    if s[0] != x {
      assert p[1..] == s[1..][..n - 1];
      assert x in p[1..];
      FirstIndexOfPrefix(s[1..], n - 1, x);
    }
  }

  /** The values appear in the order of their first occurrence in `s`. */
  lemma {:induction false} DistinctOrder<T>(s: seq<T>)
    ensures forall i, j :: 0 <= i < j < |Distinct(s)| ==>
      FirstIndex(s, Distinct(s)[i]) < FirstIndex(s, Distinct(s)[j])
    decreases |s|
  {
    if s != [] {
      var p := s[..|s| - 1];
      var r := Distinct(s);
      DistinctOrder(p);
      forall i, j | 0 <= i < j < |r|
        ensures FirstIndex(s, r[i]) < FirstIndex(s, r[j])
      {
        DistinctOrderPair(s, p, i, j);
      }
    }
  }

  /** One step of `DistinctOrder`: a pair of values of `Distinct(s)`, given the order for the list without its last element. */
  lemma DistinctOrderPair<T>(s: seq<T>, p: seq<T>, i: nat, j: nat)
    requires s != [] && p == s[..|s| - 1]
    requires forall a, b :: 0 <= a < b < |Distinct(p)| ==>
      FirstIndex(p, Distinct(p)[a]) < FirstIndex(p, Distinct(p)[b])
    requires i < j < |Distinct(s)|
    ensures FirstIndex(s, Distinct(s)[i]) < FirstIndex(s, Distinct(s)[j])
  {
    var d := Distinct(p);
    var r := Distinct(s);
    var last := s[|s| - 1];
    assert r == if last in d then d else d + [last];
    assert i < |d| && r[i] == d[i];
    var x := d[i];
    assert x in p;
    FirstIndexOfInit(s, p, x);
    if j < |d| {
      var y := d[j];
      assert r[j] == y && y in p;
      FirstIndexOfInit(s, p, y);
      assert FirstIndex(p, x) < FirstIndex(p, y);
    } else {
      assert r[j] == last && last !in d;
      assert last !in p;
      FirstIndexOfNewLast(s);
    }
  }

  /** A value that occurs before the last element is first found where it is first found in that prefix. */
  lemma FirstIndexOfInit<T>(s: seq<T>, p: seq<T>, x: T)
    requires s != [] && p == s[..|s| - 1] && x in p
    ensures FirstIndex(s, x) == FirstIndex(p, x) < |s| - 1
  {
    FirstIndexOfPrefix(s, |s| - 1, x);
  }

  /** A last element that does not occur earlier is first found at the end. */
  lemma FirstIndexOfNewLast<T>(s: seq<T>)
    requires s != [] && s[|s| - 1] !in s[..|s| - 1]
    ensures FirstIndex(s, s[|s| - 1]) == |s| - 1
  {
  }

  /** The first value of a non-empty list is the first distinct value. */
  lemma {:induction false} DistinctHead<T>(s: seq<T>)
    requires s != []
    ensures Distinct(s) != [] && Distinct(s)[0] == s[0]
    decreases |s|
  {
    if |s| > 1 {
      var p := s[..|s| - 1];
      DistinctHead(p);
      assert p[0] == s[0];
    }
  }

  /** No two elements of `s` share a `key`. */
  ghost predicate UniqueKeys<T, K>(s: seq<T>, key: T -> K) {
    forall i, j :: 0 <= i < j < |s| ==> key(s[i]) != key(s[j])
  }

  /** Filtering never makes two elements share a key. */
  lemma {:induction false} FilterKeepsUniqueKeys<T, K>(s: seq<T>, p: T -> bool, key: T -> K)
    requires UniqueKeys(s, key)
    ensures UniqueKeys(Filter(s, p), key)
    decreases |s|
  {
    if s != [] {
      var tail := s[1..];
      assert UniqueKeys(tail, key) by {
        forall i, j | 0 <= i < j < |tail| ensures key(tail[i]) != key(tail[j]) {
          assert tail[i] == s[i + 1] && tail[j] == s[j + 1];
        }
      }
      FilterKeepsUniqueKeys(tail, p, key);
      var rest := Filter(tail, p);
      if p(s[0]) {
        forall j | 0 <= j < |rest| ensures key(rest[j]) != key(s[0]) {
          var k :| 0 <= k < |tail| && tail[k] == rest[j];
          assert tail[k] == s[k + 1];
        }
        var r := [s[0]] + rest;
        forall i, j | 0 <= i < j < |r| ensures key(r[i]) != key(r[j]) {
          assert r[j] == rest[j - 1];
          if i > 0 {
            assert r[i] == rest[i - 1];
          }
        }
      }
    }
  }
}
