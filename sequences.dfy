/** The LINQ operators the queries compose, over in-memory sequences: Where
    a stable OrderBy on an integer key, Select and FirstOrDefault. */
module Sequences {
  import opened Common

  /** Where(p): the elements satisfying p, in their original order. */
  function Filter<T>(s: seq<T>, p: T -> bool): (r: seq<T>)
    ensures |r| <= |s|
    ensures forall x | x in r :: p(x)
    ensures forall x | x in s :: x in r <==> p(x)
    ensures forall x | x in r :: x in s
  {
    if |s| == 0 then []
    else
      var rest := Filter(s[1..], p);
      assert s == [s[0]] + s[1..];
      if p(s[0]) then [s[0]] + rest else rest
  }

  /** Where keeps every satisfying element as many times as the source
      holds it, and drops the rest. */
  lemma {:induction false} FilterCounts<T>(s: seq<T>, p: T -> bool)
    ensures forall x | x in multiset(s) :: multiset(Filter(s, p))[x] == if p(x) then multiset(s)[x] else 0
  {
    if |s| > 0 {
      FilterCounts(s[1..], p);
      assert s == [s[0]] + s[1..];
      assert multiset(s) == multiset{s[0]} + multiset(s[1..]);
      var rest := Filter(s[1..], p);
      if p(s[0]) {
        assert Filter(s, p) == [s[0]] + rest;
        assert multiset(Filter(s, p)) == multiset{s[0]} + multiset(rest);
      } else {
        assert Filter(s, p) == rest;
      }
      forall x | x in multiset(s)
        ensures multiset(Filter(s, p))[x] == if p(x) then multiset(s)[x] else 0
      {
        if x !in multiset(s[1..]) {
          assert x !in rest;
        }
      }
    }
  }

  /** Where keeps the source's order: filtering a concatenation filters each
      part and keeps the parts in sequence. */
  lemma {:induction false} FilterAppend<T>(a: seq<T>, b: seq<T>, p: T -> bool)
    ensures Filter(a + b, p) == Filter(a, p) + Filter(b, p)
  {
    if |a| > 0 {
      assert (a + b)[1..] == a[1..] + b;
      FilterAppend(a[1..], b, p);
    } else {
      assert a + b == b;
    }
  }

  /** Filtering twice is filtering once by the conjunction: the optional
      filters of a query can be applied in any grouping. */
  lemma {:induction false} FilterFilter<T>(s: seq<T>, p: T -> bool, q: T -> bool, both: T -> bool)
    requires forall x :: both(x) == (p(x) && q(x))
    ensures Filter(Filter(s, p), q) == Filter(s, both)
  {
    if |s| > 0 {
      FilterFilter(s[1..], p, q, both);
      assert s == [s[0]] + s[1..];
    }
  }

  /** A Where applied only when c holds is a Where by "c implies p". */
  lemma {:induction false} FilterWhen<T>(s: seq<T>, c: bool, p: T -> bool, q: T -> bool)
    requires forall x :: q(x) == (c ==> p(x))
    ensures (if c then Filter(s, p) else s) == Filter(s, q)
  {
    if |s| > 0 {
      FilterWhen(s[1..], c, p, q);
      assert s == [s[0]] + s[1..];
    }
  }

  /** Every element's key is at most the next one's. */
  predicate SortedBy<T>(s: seq<T>, key: T -> int) {
    forall i, j | 0 <= i < j < |s| :: key(s[i]) <= key(s[j])
  }

  /** x goes before the first element whose key is not smaller, so it stays
      ahead of elements with an equal key. */
  function Insert<T>(x: T, s: seq<T>, key: T -> int): (r: seq<T>)
    requires SortedBy(s, key)
    ensures |r| == |s| + 1
    ensures multiset(r) == multiset(s) + multiset{x}
    ensures forall y | y in r :: y == x || y in s
    ensures SortedBy(r, key)
  {
    if |s| == 0 || key(x) <= key(s[0]) then [x] + s
    else
      var rest := Insert(x, s[1..], key);
      assert s == [s[0]] + s[1..];
      assert forall y | y in rest :: key(s[0]) <= key(y);
      [s[0]] + rest
  }

  /** OrderBy(key): a permutation of s whose keys never decrease. */
  function SortBy<T>(s: seq<T>, key: T -> int): (r: seq<T>)
    ensures |r| == |s|
    ensures multiset(r) == multiset(s)
    ensures SortedBy(r, key)
  {
    if |s| == 0 then []
    else
      assert s == [s[0]] + s[1..];
      Insert(s[0], SortBy(s[1..], key), key)
  }

  /** No two positions hold the same key. */
  predicate DistinctKeys<T>(s: seq<T>, key: T -> int) {
    forall i, j | 0 <= i < j < |s| :: key(s[i]) != key(s[j])
  }

  /** With distinct keys there is one sorted arrangement of a multiset, so
      SortBy's result does not depend on the order of its input. */
  lemma {:induction false} SortedPermutationUnique<T>(a: seq<T>, b: seq<T>, key: T -> int)
    requires multiset(a) == multiset(b)
    requires SortedBy(a, key) && SortedBy(b, key) && DistinctKeys(a, key)
    ensures a == b
    decreases |a|
  {
    assert |a| == |multiset(a)| == |b|;
    if |a| > 0 {
      HeadsAgree(a, b, key);
      TailMultiset(a);
      TailMultiset(b);
      assert SortedBy(a[1..], key) && SortedBy(b[1..], key);
      assert DistinctKeys(a[1..], key) by {
        forall x, y | 0 <= x < y < |a[1..]| ensures key(a[1..][x]) != key(a[1..][y]) {
          assert a[1..][x] == a[x + 1] && a[1..][y] == a[y + 1];
        }
      }
      SortedPermutationUnique(a[1..], b[1..], key);
    }
  }

  lemma TailMultiset<T>(s: seq<T>)
    requires |s| > 0
    ensures multiset(s[1..]) == multiset(s) - multiset{s[0]}
  {
    assert s == [s[0]] + s[1..];
  }

  lemma HeadsAgree<T>(a: seq<T>, b: seq<T>, key: T -> int)
    requires |a| > 0 && multiset(a) == multiset(b)
    requires SortedBy(a, key) && SortedBy(b, key) && DistinctKeys(a, key)
    ensures a[0] == b[0]
  {
    assert a[0] in multiset(b) && b[0] in multiset(a);
    var i :| 0 <= i < |b| && b[i] == a[0];
    var j :| 0 <= j < |a| && a[j] == b[0];
    assert key(b[0]) <= key(b[i]);
    assert key(a[0]) <= key(a[j]);
  }

  /** Select(f): f applied to every element, in order. */
  function Map<T, U>(s: seq<T>, f: T -> U): (r: seq<U>)
    ensures |r| == |s|
    ensures forall i | 0 <= i < |s| :: r[i] == f(s[i])
  {
    if |s| == 0 then [] else [f(s[0])] + Map(s[1..], f)
  }

  /** FirstOrDefault(p): the first element satisfying p, if any. */
  function FirstWhere<T>(s: seq<T>, p: T -> bool): (r: Option<T>)
    ensures r.None? <==> forall i | 0 <= i < |s| :: !p(s[i])
    ensures r.Some? ==> r.value in s && p(r.value)
    ensures r.Some? ==> exists i | 0 <= i < |s| :: s[i] == r.value && forall j | 0 <= j < i :: !p(s[j])
  {
    if |s| == 0 then None
    else if p(s[0]) then Some(s[0])
    else
      assert forall i | 1 <= i < |s| :: s[i] == s[1..][i - 1];
      var r := FirstWhere(s[1..], p);
      assert r.Some? ==> exists i | 0 <= i < |s| :: s[i] == r.value && forall j | 0 <= j < i :: !p(s[j]) by {
        if r.Some? {
          var i :| 0 <= i < |s[1..]| && s[1..][i] == r.value && forall j | 0 <= j < i :: !p(s[1..][j]);
          assert s[i + 1] == r.value && forall j | 0 <= j < i + 1 :: !p(s[j]);
        }
      }
      r
  }

  /** Inserting an element p rejects does not change the first element p accepts. */
  lemma {:induction false} FirstWhereSkipsInserted<T>(x: T, s: seq<T>, key: T -> int, p: T -> bool)
    requires SortedBy(s, key) && !p(x)
    ensures FirstWhere(Insert(x, s, key), p) == FirstWhere(s, p)
  {
    if |s| > 0 && key(x) > key(s[0]) {
      FirstWhereSkipsInserted(x, s[1..], key, p);
    }
  }

  /** An element p accepts, inserted where no earlier element has a key as
      large as its own, is the first one p accepts. */
  lemma {:induction false} FirstWhereFindsInserted<T>(x: T, s: seq<T>, key: T -> int, p: T -> bool)
    requires SortedBy(s, key) && p(x)
    requires forall y :: p(y) ==> key(x) <= key(y)
    ensures FirstWhere(Insert(x, s, key), p) == Some(x)
  {
    if |s| > 0 && key(x) > key(s[0]) {
      FirstWhereFindsInserted(x, s[1..], key, p);
    }
  }

  /** When p accepts exactly the elements of one key, the stable sort leaves
      the first element p accepts where it was. */
  lemma {:induction false} SortKeepsFirstOfKey<T>(s: seq<T>, key: T -> int, p: T -> bool)
    requires forall x, y :: p(x) ==> (p(y) <==> key(y) == key(x))
    ensures FirstWhere(SortBy(s, key), p) == FirstWhere(s, p)
  {
    if |s| > 0 {
      SortKeepsFirstOfKey(s[1..], key, p);
      if p(s[0]) {
        FirstWhereFindsInserted(s[0], SortBy(s[1..], key), key, p);
      } else {
        FirstWhereSkipsInserted(s[0], SortBy(s[1..], key), key, p);
      }
    }
  }
}
