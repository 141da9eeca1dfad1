/** Sequence helpers shared by the model: counting, filtering, duplicate
    freedom and the first-occurrence removal of a .NET `List<T>.Remove`. */
module Seqs {
  /** Number of elements of `s` that satisfy `p`. */
  function Count<T>(s: seq<T>, p: T -> bool): (n: nat)
    ensures n <= |s|
  {
    if |s| == 0 then 0 else Count(s[..|s| - 1], p) + (if p(s[|s| - 1]) then 1 else 0)
  }

  lemma {:induction false} CountAppend<T>(a: seq<T>, b: seq<T>, p: T -> bool)
    ensures Count(a + b, p) == Count(a, p) + Count(b, p)
  {
    if |b| == 0 {
      assert a + b == a;
    } else {
      assert (a + b)[..|a + b| - 1] == a + b[..|b| - 1];
      CountAppend(a, b[..|b| - 1], p);
    }
  }

  lemma CountThree<T>(s: seq<T>, p: T -> bool)
    requires |s| == 3
    ensures Count(s, p) == (if p(s[0]) then 1 else 0) + (if p(s[1]) then 1 else 0) + (if p(s[2]) then 1 else 0)
  {
    assert s[..2][..1][..0] == [];
    assert Count(s[..1], p) == if p(s[0]) then 1 else 0;
    assert Count(s[..2], p) == Count(s[..1], p) + if p(s[1]) then 1 else 0 by {
      assert s[..2][..1] == s[..1];
    }
    assert s[..2] == s[..|s| - 1];
  }

  /** Counting does not depend on the order of the elements: any
      rearrangement of `a` has the same count. */
  lemma {:induction false} CountPermutation<T>(a: seq<T>, b: seq<T>, p: T -> bool)
    requires multiset(a) == multiset(b)
    ensures Count(a, p) == Count(b, p)
  {
    if |a| == 0 {
      assert |b| == |multiset(b)| == 0;
    } else {
      var x := a[|a| - 1];
      var a' := a[..|a| - 1];
      assert a == a' + [x];
      assert x in multiset(b);
      var k :| 0 <= k < |b| && b[k] == x;
      var b' := b[..k] + b[k + 1..];
      assert b == b[..k] + [x] + b[k + 1..];
      assert multiset(b) == multiset(b[..k]) + multiset{x} + multiset(b[k + 1..]);
      assert multiset(b') == multiset(b[..k]) + multiset(b[k + 1..]);
      assert multiset(a) == multiset(a') + multiset{x};
      assert multiset(a') == multiset(a) - multiset{x};
      assert multiset(b') == multiset(b) - multiset{x};
      CountPermutation(a', b', p);
      CountAppend(a', [x], p);
      CountAppend(b[..k] + [x], b[k + 1..], p);
      CountAppend(b[..k], [x], p);
      CountAppend(b[..k], b[k + 1..], p);
    }
  }

  /** Elements counted by two predicates that never hold together are
      counted at most once between them. */
  lemma {:induction false} CountDisjoint<T>(s: seq<T>, p: T -> bool, q: T -> bool)
    requires forall x :: x in s ==> !(p(x) && q(x))
    ensures Count(s, p) + Count(s, q) <= |s|
  {
    if |s| > 0 {
      assert s[|s| - 1] in s;
      CountDisjoint(s[..|s| - 1], p, q);
    }
  }

  /** `f` applied to the first `n` pairs of elements at the same index. */
  function MapPairs<A, B, C>(a: seq<A>, b: seq<B>, f: (A, B) -> C, n: nat): (r: seq<C>)
    requires n <= |a| && n <= |b|
    ensures |r| == n
  {
    if n == 0 then [] else MapPairs(a, b, f, n - 1) + [f(a[n - 1], b[n - 1])]
  }

  lemma {:induction false} MapPairsAt<A, B, C>(a: seq<A>, b: seq<B>, f: (A, B) -> C, n: nat, i: nat)
    requires i < n <= |a| && n <= |b|
    ensures MapPairs(a, b, f, n)[i] == f(a[i], b[i])
  {
    if i < n - 1 {
      MapPairsAt(a, b, f, n - 1, i);
    }
  }

  /** The elements of `s` that satisfy `p`, in their original order. */
  function Filter<T>(s: seq<T>, p: T -> bool): (r: seq<T>)
    ensures |r| <= |s|
    ensures forall i :: 0 <= i < |r| ==> r[i] in s && p(r[i])
    ensures forall i :: 0 <= i < |s| && p(s[i]) ==> s[i] in r
  {
    if |s| == 0 then [] else (if p(s[0]) then [s[0]] else []) + Filter(s[1..], p)
  }

  lemma {:induction false} FilterAppend<T>(a: seq<T>, b: seq<T>, p: T -> bool)
    ensures Filter(a + b, p) == Filter(a, p) + Filter(b, p)
  {
    if |a| == 0 {
      assert a + b == b;
    } else {
      assert (a + b)[1..] == a[1..] + b;
      FilterAppend(a[1..], b, p);
    }
  }

  predicate NoDuplicates<T(==)>(s: seq<T>) {
    forall i, j :: 0 <= i < j < |s| ==> s[i] != s[j]
  }

  /** `List<T>.Remove`: drops the first occurrence of `x`, if any. */
  function RemoveFirst<T(==)>(s: seq<T>, x: T): (r: seq<T>)
    ensures x in s ==> |r| == |s| - 1
    ensures x !in s ==> r == s
  {
    if |s| == 0 then []
    else if s[0] == x then s[1..]
    else [s[0]] + RemoveFirst(s[1..], x)
  }

  /** A `foreach` over `xs` calling `Remove` on each, in order. */
  function RemoveEach<T(==)>(s: seq<T>, xs: seq<T>): (r: seq<T>)
    ensures |r| <= |s|
  {
    if |xs| == 0 then s else RemoveFirst(RemoveEach(s, xs[..|xs| - 1]), xs[|xs| - 1])
  }

  /** The elements of `s` that are not in `xs`, in their original order. */
  function Without<T(==)>(s: seq<T>, xs: seq<T>): (r: seq<T>)
    ensures forall i :: 0 <= i < |r| ==> r[i] in s && r[i] !in xs
    ensures forall i :: 0 <= i < |s| && s[i] !in xs ==> s[i] in r
  {
    if |s| == 0 then [] else (if s[0] in xs then [] else [s[0]]) + Without(s[1..], xs)
  }

  lemma {:induction false} WithoutNoDuplicates<T>(s: seq<T>, xs: seq<T>)
    requires NoDuplicates(s)
    ensures NoDuplicates(Without(s, xs))
  {
    if |s| > 0 {
      WithoutNoDuplicates(s[1..], xs);
      assert s[0] !in s[1..];
    }
  }

  lemma {:induction false} RemoveFirstDistinct<T>(s: seq<T>, x: T)
    requires NoDuplicates(s)
    ensures RemoveFirst(s, x) == Without(s, [x])
  {
    if |s| > 0 {
      if s[0] == x {
        assert x !in s[1..];
        WithoutNone(s[1..], [x]);
      } else {
        RemoveFirstDistinct(s[1..], x);
      }
    }
  }

  lemma {:induction false} WithoutNone<T>(s: seq<T>, xs: seq<T>)
    requires forall y :: y in s ==> y !in xs
    ensures Without(s, xs) == s
  {
    if |s| > 0 {
      WithoutNone(s[1..], xs);
    }
  }

  lemma {:induction false} WithoutTwice<T>(s: seq<T>, xs: seq<T>, x: T)
    ensures Without(Without(s, xs), [x]) == Without(s, xs + [x])
  {
    if |s| > 0 {
      WithoutTwice(s[1..], xs, x);
      var head := if s[0] in xs then [] else [s[0]];
      WithoutAppend(head, Without(s[1..], xs), [x]);
    }
  }

  lemma {:induction false} WithoutAppend<T>(a: seq<T>, b: seq<T>, xs: seq<T>)
    ensures Without(a + b, xs) == Without(a, xs) + Without(b, xs)
  {
    if |a| == 0 {
      assert a + b == b;
    } else {
      assert (a + b)[1..] == a[1..] + b;
      WithoutAppend(a[1..], b, xs);
    }
  }

  /** On a duplicate-free list, removing each of `xs` in turn keeps exactly
      the elements not in `xs`, in their original relative order. */
  lemma {:induction false} RemoveEachDistinct<T>(s: seq<T>, xs: seq<T>)
    requires NoDuplicates(s)
    ensures RemoveEach(s, xs) == Without(s, xs)
  {
    if |xs| == 0 {
      WithoutNone(s, xs);
    } else {
      var xs', x := xs[..|xs| - 1], xs[|xs| - 1];
      assert xs == xs' + [x];
      RemoveEachDistinct(s, xs');
      WithoutNoDuplicates(s, xs');
      RemoveFirstDistinct(Without(s, xs'), x);
      WithoutTwice(s, xs', x);
    }
  }
}
