/** Sequence helpers shared by the backend listings and the frontend list transforms:
    order-preserving filtering, sorting by an integer key, and the subsequence relation
    that states "in original order". */
module Seqs {

  /** `a` is obtained from `b` by deleting elements, keeping the others in order. */
  predicate IsSubseq<T(==)>(a: seq<T>, b: seq<T>)
    decreases |b|
  {
    if a == [] then true
    else if b == [] then false
    else if a[0] == b[0] then IsSubseq(a[1..], b[1..])
    else IsSubseq(a, b[1..])
  }

  lemma {:induction false} SubseqRefl<T>(s: seq<T>)
    ensures IsSubseq(s, s)
    decreases |s|
  {
    if s != [] { SubseqRefl(s[1..]); }
  }

  /** The elements of `s` that satisfy `p`, in their original order. */
  function Filter<T(==)>(s: seq<T>, p: T -> bool): (r: seq<T>)
    ensures |r| <= |s|
    ensures IsSubseq(r, s)
    ensures forall x :: x in r ==> x in s && p(x)
    ensures forall x :: x in s ==> multiset(r)[x] == if p(x) then multiset(s)[x] else 0
    decreases |s|
  {
    if s == [] then []
    else
      var rest := Filter(s[1..], p);
      assert s == [s[0]] + s[1..];
      if p(s[0]) then
        assert ([s[0]] + rest)[1..] == rest;
        [s[0]] + rest
      else
        assert rest == [] || rest[0] in rest;
        rest
  }

  /** Membership in a filtered sequence, both directions. */
  lemma FilterMember<T>(s: seq<T>, p: T -> bool, x: T)
    ensures x in Filter(s, p) <==> x in s && p(x)
  {
    var r := Filter(s, p);
    assert x in r <==> multiset(r)[x] > 0;
    assert x in s <==> multiset(s)[x] > 0;
  }

  /** Filtering with a predicate every element satisfies keeps everything. */
  lemma {:induction false} FilterAll<T>(s: seq<T>, p: T -> bool)
    requires forall x :: x in s ==> p(x)
    ensures Filter(s, p) == s
    decreases |s|
  {
    if s != [] {
      assert forall x :: x in s[1..] ==> x in s;
      FilterAll(s[1..], p);
    }
  }

  /** Number of elements of `s` satisfying `p`. */
  function Count<T>(s: seq<T>, p: T -> bool): (n: nat)
    ensures n <= |s|
    ensures n == 0 <==> forall i :: 0 <= i < |s| ==> !p(s[i])
    ensures n == |s| <==> forall i :: 0 <= i < |s| ==> p(s[i])
    decreases |s|
  {
    if s == [] then 0
    else (if p(s[0]) then 1 else 0) + Count(s[1..], p)
  }

  lemma {:induction false} CountIsFilterLength<T>(s: seq<T>, p: T -> bool)
    ensures Count(s, p) == |Filter(s, p)|
    decreases |s|
  {
    if s != [] { CountIsFilterLength(s[1..], p); }
  }

  /** Index of the first element whose key is `k`, or |s| when there is none. */
  function IndexOf<T, K(==)>(s: seq<T>, key: T -> K, k: K): (i: nat)
    ensures i <= |s|
    ensures forall j :: 0 <= j < i ==> key(s[j]) != k
    ensures i < |s| ==> key(s[i]) == k
    decreases |s|
  {
    if s == [] then 0
    else if key(s[0]) == k then 0
    else 1 + IndexOf(s[1..], key, k)
  }

  /** The first `n` elements of `s` (all of them when there are fewer). */
  function Take<T>(s: seq<T>, n: nat): (r: seq<T>)
    ensures |r| == if |s| < n then |s| else n
    ensures forall i :: 0 <= i < |r| ==> r[i] == s[i]
  {
    if |s| <= n then s else s[..n]
  }

  /** A prefix and the rest together hold every element of `s`, each as often as `s` does. */
  lemma TakeAndRest<T>(s: seq<T>, n: nat)
    ensures multiset(s) == multiset(Take(s, n)) + multiset(s[|Take(s, n)|..])
    ensures multiset(Take(s, n)) <= multiset(s)
    ensures |s| <= n ==> multiset(Take(s, n)) == multiset(s)
  {
    var k := |Take(s, n)|;
    assert Take(s, n) == s[..k];
    assert s == s[..k] + s[k..];
  }

  /** The elements of `s` past its first `n` are those the prefix does not account for. */
  lemma PastThePrefix<T>(s: seq<T>, n: nat)
    ensures multiset(s) - multiset(Take(s, n)) == multiset(s[|Take(s, n)|..])
  {
    TakeAndRest(s, n);
    var a, b := multiset(Take(s, n)), multiset(s[|Take(s, n)|..]);
    assert (a + b) - a == b;
  }

  /** In a sequence ascending by `key`, an element past the first `k` has no smaller key than
      the `i`-th. */
  lemma RestIsLater<T>(s: seq<T>, k: nat, key: T -> int, t: T, i: nat)
    requires SortedBy(s, key) && i < k <= |s| && t in s[k..]
    ensures key(s[i]) <= key(t)
  {
    var j :| 0 <= j < |s[k..]| && s[k..][j] == t;
    assert s[k + j] == t;
  }

  /** Of a sequence ascending by `key`, no element past a prefix has a smaller key than one in it. */
  lemma SortedTakeKeepsSmallest<T>(s: seq<T>, n: nat, key: T -> int)
    requires SortedBy(s, key)
    ensures forall t, i :: t in multiset(s) - multiset(Take(s, n)) && 0 <= i < |Take(s, n)| ==>
      key(Take(s, n)[i]) <= key(t)
  {
    var r := Take(s, n);
    var rest := s[|r|..];
    PastThePrefix(s, n);
    forall t, i | t in multiset(s) - multiset(r) && 0 <= i < |r| ensures key(r[i]) <= key(t) {
      RestIsLater(s, |r|, key, t, i);
    }
  }

  /** `s` is ascending by `key` (ties in any order). */
  predicate SortedBy<T>(s: seq<T>, key: T -> int)
  {
    forall i, j :: 0 <= i < j < |s| ==> key(s[i]) <= key(s[j])
  }

  /** Inserts `x` before the first element whose key is not smaller than its own. */
  function Insert<T>(x: T, s: seq<T>, key: T -> int): (r: seq<T>)
    requires SortedBy(s, key)
    ensures SortedBy(r, key)
    ensures multiset(r) == multiset(s) + multiset{x}
    ensures |r| == |s| + 1
    ensures forall k :: 0 <= k < |r| ==> r[k] == x || r[k] in s
    decreases |s|
  {
    if s == [] then [x]
    else if key(x) <= key(s[0]) then
      InsertFront(x, s, key);
      [x] + s
    else
      var rest := Insert(x, s[1..], key);
      InsertBehindHead(x, s, rest, key);
      [s[0]] + rest
  }

  /** Putting a key no larger than the head's in front keeps the order. */
  lemma InsertFront<T>(x: T, s: seq<T>, key: T -> int)
    requires s != [] && SortedBy(s, key) && key(x) <= key(s[0])
    ensures SortedBy([x] + s, key)
    ensures multiset([x] + s) == multiset(s) + multiset{x}
    ensures forall k :: 0 <= k < |[x] + s| ==> ([x] + s)[k] == x || ([x] + s)[k] in s
  {
    var r := [x] + s;
    forall i, j | 0 <= i < j < |r| ensures key(r[i]) <= key(r[j]) {
      assert r[j] == s[j - 1];
      if i > 0 { assert r[i] == s[i - 1]; }
    }
  }

  /** The head stays in front of the list the new element was inserted into. */
  lemma InsertBehindHead<T>(x: T, s: seq<T>, rest: seq<T>, key: T -> int)
    requires s != [] && SortedBy(s, key) && key(s[0]) < key(x)
    requires SortedBy(rest, key) && multiset(rest) == multiset(s[1..]) + multiset{x}
    requires forall k :: 0 <= k < |rest| ==> rest[k] == x || rest[k] in s[1..]
    ensures SortedBy([s[0]] + rest, key)
    ensures multiset([s[0]] + rest) == multiset(s) + multiset{x}
    ensures forall k :: 0 <= k < |[s[0]] + rest| ==> ([s[0]] + rest)[k] == x || ([s[0]] + rest)[k] in s
  {
    assert s == [s[0]] + s[1..];
    var r := [s[0]] + rest;
    forall k | 0 <= k < |rest| ensures key(s[0]) <= key(rest[k]) {
      if rest[k] != x {
        var j :| 0 <= j < |s[1..]| && s[1..][j] == rest[k];
        assert s[j + 1] == rest[k];
      }
    }
    forall i, j | 0 <= i < j < |r| ensures key(r[i]) <= key(r[j]) {
      assert r[j] == rest[j - 1];
      if i > 0 { assert r[i] == rest[i - 1]; }
    }
    forall k | 0 <= k < |r| ensures r[k] == x || r[k] in s {
      if k > 0 { assert r[k] == rest[k - 1]; }
    }
  }

  /** Two sequences with the same elements counted with multiplicity have the same members. */
  lemma SameMultisetMembers<T>(a: seq<T>, b: seq<T>)
    requires multiset(a) == multiset(b)
    ensures forall k :: 0 <= k < |a| ==> a[k] in b
  {
    forall k | 0 <= k < |a| ensures a[k] in b {
      assert a[k] in multiset(a);
    }
  }

  /** Insertion sort: a permutation of `s`, ascending by `key`. */
  function SortBy<T>(s: seq<T>, key: T -> int): (r: seq<T>)
    ensures SortedBy(r, key)
    ensures multiset(r) == multiset(s)
    ensures |r| == |s|
    decreases |s|
  {
    if s == [] then []
    else
      assert s == [s[0]] + s[1..];
      Insert(s[0], SortBy(s[1..], key), key)
  }
}
