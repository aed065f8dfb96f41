/** Iterator combinators the Rust code chains: `filter`, `flat_map` and the
    summing `fold(0, |acc, x| acc + f(x))`. */
module Seqs {

  function Last<T>(s: seq<T>): T
    requires s != []
  {
    s[|s| - 1]
  }

  /** `iter.filter(p).collect()`: the elements satisfying `p`, in order. */
  function Filter<T>(xs: seq<T>, p: T -> bool): seq<T> {
    if xs == [] then []
    else if p(xs[0]) then [xs[0]] + Filter(xs[1..], p)
    else Filter(xs[1..], p)
  }

  /** The filter keeps the elements satisfying `p` and only those, so it comes
      out empty exactly when no element satisfies `p`. */
  lemma {:induction false} FilterKeeps<T>(xs: seq<T>, p: T -> bool)
    ensures |Filter(xs, p)| <= |xs|
    ensures forall x | x in Filter(xs, p) :: x in xs && p(x)
    ensures forall i | 0 <= i < |xs| :: p(xs[i]) ==> xs[i] in Filter(xs, p)
    ensures Filter(xs, p) == [] <==> forall i | 0 <= i < |xs| :: !p(xs[i])
  {
    if xs != [] {
      FilterKeeps(xs[1..], p);
      assert forall i | 1 <= i < |xs| :: xs[i] == xs[1..][i - 1];
    }
  }

  /** `xs.iter().fold(0, |acc, x| acc + f(x))`: a left fold, element by element. */
  function SumBy<T>(xs: seq<T>, f: T -> nat): nat
  {
    if xs == [] then 0 else SumBy(xs[..|xs| - 1], f) + f(Last(xs))
  }

  lemma {:induction false} SumByAppend<T>(a: seq<T>, b: seq<T>, f: T -> nat)
    ensures SumBy(a + b, f) == SumBy(a, f) + SumBy(b, f)
  {
    if b == [] {
      assert a + b == a;
    } else {
      SumByAppend(a, b[..|b| - 1], f);
      assert (a + b)[..|a + b| - 1] == a + b[..|b| - 1];
    }
  }

  /** Taking one element out of a sum leaves the sum of the rest. */
  lemma {:induction false} SumByRemove<T>(b: seq<T>, i: nat, f: T -> nat)
    requires i < |b|
    ensures SumBy(b, f) == SumBy(b[..i] + b[i + 1..], f) + f(b[i])
  {
    assert b == b[..i] + ([b[i]] + b[i + 1..]);
    SumByAppend(b[..i], [b[i]] + b[i + 1..], f);
    SumByAppend([b[i]], b[i + 1..], f);
    SumByAppend(b[..i], b[i + 1..], f);
  }

  /** Summing does not depend on the order of the elements. */
  lemma {:induction false} SumByPermutation<T>(a: seq<T>, b: seq<T>, f: T -> nat)
    requires multiset(a) == multiset(b)
    ensures SumBy(a, f) == SumBy(b, f)
  {
    if a == [] {
      assert |b| == |multiset(b)| == 0;
    } else {
      var x := Last(a);
      var a' := a[..|a| - 1];
      assert x in multiset(b) by { assert a == a' + [x]; }
      var i :| 0 <= i < |b| && b[i] == x;
      var b' := b[..i] + b[i + 1..];
      RemoveMatching(a, b, i);
      assert SumBy(a', f) == SumBy(b', f) by { SumByPermutation(a', b', f); }
      assert SumBy(a, f) == SumBy(a', f) + f(x) by {
        assert a == a' + [x];
        SumByAppend(a', [x], f);
      }
      SumByRemove(b, i, f);
    }
  }

  /** Taking the last element off `a` and a matching one off its permutation
      `b` leaves permutations. */
  lemma {:induction false} RemoveMatching<T>(a: seq<T>, b: seq<T>, i: nat)
    requires multiset(a) == multiset(b) && a != [] && i < |b| && b[i] == Last(a)
    ensures multiset(a[..|a| - 1]) == multiset(b[..i] + b[i + 1..])
  {
    var x := Last(a);
    assert multiset(a) == multiset(a[..|a| - 1]) + multiset{x} by {
      assert a == a[..|a| - 1] + [x];
    }
    assert multiset(b) == multiset(b[..i] + b[i + 1..]) + multiset{x} by {
      assert b == b[..i] + [x] + b[i + 1..];
    }
    MultisetCancel(multiset(a[..|a| - 1]), multiset(b[..i] + b[i + 1..]), x);
  }

  lemma {:induction false} MultisetCancel<T>(m: multiset<T>, n: multiset<T>, x: T)
    requires m + multiset{x} == n + multiset{x}
    ensures m == n
  {
    forall y ensures m[y] == n[y] {
      assert (m + multiset{x})[y] == (n + multiset{x})[y];
    }
  }

  /** Sums whose terms agree position by position are equal. */
  lemma {:induction false} SumByPointwise<T, U>(xs: seq<T>, f: T -> nat, ys: seq<U>, g: U -> nat)
    requires |xs| == |ys|
    requires forall i | 0 <= i < |xs| :: f(xs[i]) == g(ys[i])
    ensures SumBy(xs, f) == SumBy(ys, g)
  {
    if xs != [] {
      SumByPointwise(xs[..|xs| - 1], f, ys[..|ys| - 1], g);
    }
  }

  /** A sum of terms that are each at most `k` is at most `k` times their number. */
  lemma {:induction false} SumByBound<T>(xs: seq<T>, f: T -> nat, k: nat)
    ensures (forall i | 0 <= i < |xs| :: f(xs[i]) <= k) ==> SumBy(xs, f) <= k * |xs|
  {
    if xs != [] {
      SumByBound(xs[..|xs| - 1], f, k);
      assert forall i | 0 <= i < |xs| - 1 :: xs[..|xs| - 1][i] == xs[i];
    }
  }

  /** Every term is at most the sum. */
  lemma {:induction false} SumByAtLeast<T>(xs: seq<T>, f: T -> nat)
    ensures forall i | 0 <= i < |xs| :: f(xs[i]) <= SumBy(xs, f)
  {
    if xs != [] {
      SumByAtLeast(xs[..|xs| - 1], f);
      assert forall i | 0 <= i < |xs| - 1 :: xs[..|xs| - 1][i] == xs[i];
    }
  }

  /** Summing the elements a filter keeps is summing over all of them with
      the rejected ones counted as zero. */
  lemma {:induction false} SumByFilter<T>(xs: seq<T>, p: T -> bool, f: T -> nat, masked: T -> nat)
    requires forall x :: masked(x) == if p(x) then f(x) else 0
    ensures SumBy(Filter(xs, p), f) == SumBy(xs, masked)
  {
    if xs != [] {
      var head := if p(xs[0]) then [xs[0]] else [];
      SumByFilter(xs[1..], p, f, masked);
      assert xs == [xs[0]] + xs[1..];
      SumByAppend([xs[0]], xs[1..], masked);
      SumByAppend(head, Filter(xs[1..], p), f);
      assert [xs[0]][..0] == [];
    }
  }

  /** A sum of smaller terms is smaller. */
  lemma {:induction false} SumByMonotone<T>(xs: seq<T>, f: T -> nat, g: T -> nat)
    requires forall x :: f(x) <= g(x)
    ensures SumBy(xs, f) <= SumBy(xs, g)
  {
    if xs != [] {
      SumByMonotone(xs[..|xs| - 1], f, g);
    }
  }
}
