/** Generic sequence operations used by the query pipelines: filtering (a
    store `find` with a filter document), reversal (a descending sort over a
    table kept in ascending key order) and ordering predicates. */
module Seqs {

  /** The elements of `s` that satisfy `p`, in their original order. */
  function Filter<T(!new)>(s: seq<T>, p: T -> bool): (r: seq<T>)
    ensures |r| <= |s|
    ensures forall x :: x in r <==> x in s && p(x)
    decreases |s|
  {
    if s == [] then []
    else
      assert s == [s[0]] + s[1..];
      (if p(s[0]) then [s[0]] else []) + Filter(s[1..], p)
  }

  /** `s` back to front. */
  function Reverse<T>(s: seq<T>): (r: seq<T>)
    ensures |r| == |s|
    ensures forall i :: 0 <= i < |s| ==> r[i] == s[|s| - 1 - i]
    ensures multiset(r) == multiset(s)
    decreases |s|
  {
    if s == [] then []
    else
      assert s == [s[0]] + s[1..];
      Reverse(s[1..]) + [s[0]]
  }

  /** `skip(n).limit(l)`: at most `l` elements of `s`, from index `n` on. */
  function Window<T>(s: seq<T>, n: nat, l: nat): (r: seq<T>)
    ensures |r| == if n >= |s| then 0 else if |s| - n < l then |s| - n else l
    ensures forall i :: 0 <= i < |r| ==> n + i < |s| && r[i] == s[n + i]
  {
    if n >= |s| then [] else s[n..if |s| - n < l then |s| else n + l]
  }

  ghost predicate StrictlyIncreasing<T>(s: seq<T>, key: T -> int)
  {
    forall i, j :: 0 <= i < j < |s| ==> key(s[i]) < key(s[j])
  }

  ghost predicate StrictlyDecreasing<T>(s: seq<T>, key: T -> int)
  {
    forall i, j :: 0 <= i < j < |s| ==> key(s[i]) > key(s[j])
  }

  /** Filtering keeps the relative order of what it keeps. */
  lemma {:induction false} FilterIncreasing<T(!new)>(s: seq<T>, p: T -> bool, key: T -> int)
    ensures StrictlyIncreasing(s, key) ==> StrictlyIncreasing(Filter(s, p), key)
    decreases |s|
  {
    if s != [] && StrictlyIncreasing(s, key) {
      assert StrictlyIncreasing(s[1..], key) by {
        assert forall k :: 0 <= k < |s[1..]| ==> s[1..][k] == s[k + 1];
      }
      FilterIncreasing(s[1..], p, key);
      HeadBelowRest(s, p, key);
      var head := if p(s[0]) then [s[0]] else [];
      assert Filter(s, p) == head + Filter(s[1..], p);
      ConcatIncreasing(head, Filter(s[1..], p), key);
    }
  }

  /** In an ascending sequence the head's key is below that of every
      element the filter keeps from the rest. */
  lemma HeadBelowRest<T(!new)>(s: seq<T>, p: T -> bool, key: T -> int)
    requires s != []
    requires StrictlyIncreasing(s, key)
    ensures forall y :: y in Filter(s[1..], p) ==> key(s[0]) < key(y)
  {
    forall y | y in Filter(s[1..], p)
      ensures key(s[0]) < key(y)
    {
      assert y in s[1..];
      var j :| 0 <= j < |s[1..]| && s[1..][j] == y;
      assert s[j + 1] == y;
    }
  }

  /** At most one element, below everything after it, ahead of an
      increasing sequence keeps it increasing. */
  lemma ConcatIncreasing<T>(a: seq<T>, b: seq<T>, key: T -> int)
    requires |a| <= 1 && StrictlyIncreasing(b, key)
    requires forall x, y :: x in a && y in b ==> key(x) < key(y)
    ensures StrictlyIncreasing(a + b, key)
  {
    var s := a + b;
    forall i, j | 0 <= i < j < |s|
      ensures key(s[i]) < key(s[j])
    {
      if i < |a| {
        assert s[i] in a && s[j] == b[j - |a|] && s[j] in b;
      } else {
        assert s[i] == b[i - |a|] && s[j] == b[j - |a|];
      }
    }
  }

  /** Reading an ascending sequence backwards gives a descending one. */
  lemma ReverseDecreasing<T>(s: seq<T>, key: T -> int)
    ensures StrictlyIncreasing(s, key) ==> StrictlyDecreasing(Reverse(s), key)
  {
  }

  /** Two sequences with the same elements that are both strictly
      descending are equal: a strict descending order is determined by its
      elements, so "newest first" leaves no freedom to the store. */
  lemma {:induction false} DecreasingUnique<T>(a: seq<T>, b: seq<T>, key: T -> int)
    requires multiset(a) == multiset(b)
    requires StrictlyDecreasing(a, key) && StrictlyDecreasing(b, key)
    ensures a == b
    decreases |a|
  {
    assert |a| == |multiset(a)| == |multiset(b)| == |b|;
    if a != [] {
      HeadsEqual(a, b, key);
      DropHead(a, key);
      DropHead(b, key);
      DecreasingUnique(a[1..], b[1..], key);
      SameHeadAndTail(a, b);
    }
  }

  lemma SameHeadAndTail<T>(a: seq<T>, b: seq<T>)
    requires a != [] && b != [] && a[0] == b[0] && a[1..] == b[1..]
    ensures a == b
  {
    assert a == [a[0]] + a[1..] && b == [b[0]] + b[1..];
  }

  /** Without its head a descending sequence stays descending and loses
      exactly that element. */
  lemma DropHead<T>(a: seq<T>, key: T -> int)
    requires a != [] && StrictlyDecreasing(a, key)
    ensures StrictlyDecreasing(a[1..], key)
    ensures multiset(a[1..]) == multiset(a) - multiset{a[0]}
  {
    assert a == [a[0]] + a[1..];
  }

  /** Both heads are the element with the greatest key. */
  lemma HeadsEqual<T>(a: seq<T>, b: seq<T>, key: T -> int)
    requires a != [] && b != []
    requires multiset(a) == multiset(b)
    requires StrictlyDecreasing(a, key) && StrictlyDecreasing(b, key)
    ensures a[0] == b[0]
  {
    assert a[0] in multiset(b);
    var j :| 0 <= j < |b| && b[j] == a[0];
    assert b[0] in multiset(a);
    var i :| 0 <= i < |a| && a[i] == b[0];
    assert key(b[0]) >= key(b[j]);
    assert key(a[0]) >= key(a[i]);
    assert j == 0;
  }
}
