/** Left-to-right sums of a real-valued measure over a sequence, the shape of
    the accumulation loops in the interpolator, and the fact that such a sum
    does not depend on the order of the elements. */
module Sums {

  /** `f(s[0]) + f(s[1]) + ... + f(s[|s|-1])`, accumulated from the left. */
  function Sum<T>(s: seq<T>, f: T -> real): real
  {
    if |s| == 0 then 0.0 else Sum(s[..|s| - 1], f) + f(s[|s| - 1])
  }

  lemma {:induction false} SumConcat<T>(a: seq<T>, b: seq<T>, f: T -> real)
    ensures Sum(a + b, f) == Sum(a, f) + Sum(b, f)
  {
    if |b| == 0 {
      assert a + b == a;
    } else {
      assert (a + b)[..|a + b| - 1] == a + b[..|b| - 1];
      assert (a + b)[|a + b| - 1] == b[|b| - 1];
      SumConcat(a, b[..|b| - 1], f);
    }
  }

  /** Taking one element out of the sum. */
  lemma {:induction false} SumRemove<T>(s: seq<T>, j: nat, f: T -> real)
    requires j < |s|
    ensures Sum(s, f) == Sum(s[..j] + s[j + 1..], f) + f(s[j])
  {
    var a, x, b := s[..j], s[j], s[j + 1..];
    assert s == (a + [x]) + b;
    SumConcat(a + [x], b, f);
    SumConcat(a, [x], f);
    SumConcat(a, b, f);
    assert Sum([x], f) == f(x) by {
      assert [x][..0] == [];
    }
  }

  /** A sum is the same for every ordering of the same elements. */
  lemma {:induction false} SumPermutation<T>(a: seq<T>, b: seq<T>, f: T -> real)
    requires multiset(a) == multiset(b)
    ensures Sum(a, f) == Sum(b, f)
  {
    if |a| == 0 {
      assert |multiset(b)| == 0;
    } else {
      var n := |a| - 1;
      var x := a[n];
      assert x in multiset(a);
      assert x in multiset(b);
      var j :| 0 <= j < |b| && b[j] == x;
      var rest := b[..j] + b[j + 1..];
      assert b == b[..j] + [x] + b[j + 1..];
      assert multiset(b) == multiset(rest) + multiset{x};
      assert a == a[..n] + [x];
      assert multiset(a) == multiset(a[..n]) + multiset{x};
      assert multiset(a[..n]) == multiset(a) - multiset{x};
      assert multiset(rest) == multiset(b) - multiset{x};
      SumPermutation(a[..n], rest, f);
      SumRemove(b, j, f);
    }
  }

  /** A sum whose terms vanish everywhere except at index `k` is that term. */
  lemma {:induction false} SumSingleSupport<T>(s: seq<T>, f: T -> real, k: nat)
    requires k < |s|
    requires forall i :: 0 <= i < |s| && i != k ==> f(s[i]) == 0.0
    ensures Sum(s, f) == f(s[k])
  {
    var n := |s| - 1;
    if k == n {
      SumZero(s[..n], f);
    } else {
      SumSingleSupport(s[..n], f, k);
    }
  }

  lemma {:induction false} SumZero<T>(s: seq<T>, f: T -> real)
    requires forall i :: 0 <= i < |s| ==> f(s[i]) == 0.0
    ensures Sum(s, f) == 0.0
  {
    if |s| > 0 {
      SumZero(s[..|s| - 1], f);
    }
  }
}
