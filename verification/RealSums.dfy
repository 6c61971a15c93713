/** Finite sums of reals over a sequence, and the exponential the kernels use, known only by its
  functional equation. */
module RealSums {
  function Sum<T>(f: T -> real, xs: seq<T>): real {
    if xs == [] then 0.0 else Sum(f, xs[..|xs| - 1]) + f(xs[|xs| - 1])
  }

  lemma {:induction false} SumAppend<T>(f: T -> real, a: seq<T>, b: seq<T>)
    ensures Sum(f, a + b) == Sum(f, a) + Sum(f, b)
  {
    if b == [] {
      assert a + b == a;
    } else {
      assert (a + b)[..|a + b| - 1] == a + b[..|b| - 1];
      SumAppend(f, a, b[..|b| - 1]);
    }
  }

  lemma {:induction false} SumScale<T>(f: T -> real, g: T -> real, c: real, xs: seq<T>)
    requires forall x :: x in xs ==> g(x) == c * f(x)
    ensures Sum(g, xs) == c * Sum(f, xs)
  {
    if xs != [] {
      SumScale(f, g, c, xs[..|xs| - 1]);
    }
  }

  lemma {:induction false} SumPositive<T>(f: T -> real, xs: seq<T>)
    requires forall x :: x in xs ==> f(x) >= 0.0
    ensures Sum(f, xs) >= 0.0
    ensures forall x :: x in xs ==> Sum(f, xs) >= f(x)
  {
    if xs != [] {
      SumPositive(f, xs[..|xs| - 1]);
    }
  }

  lemma SumOne<T>(f: T -> real, x: T)
    ensures Sum(f, [x]) == f(x)
  {
    assert [x][..0] == [];
  }

  lemma SumRemove<T>(f: T -> real, xs: seq<T>, i: nat)
    requires i < |xs|
    ensures Sum(f, xs) == Sum(f, xs[..i] + xs[i + 1..]) + f(xs[i])
  {
    hide Sum;
    var a, x, b := xs[..i], xs[i], xs[i + 1..];
    assert xs == a + [x] + b;
    SumOne(f, x);
    SumAppend(f, a, [x]);
    SumAppend(f, a + [x], b);
    SumAppend(f, a, b);
  }

  /** The order of the terms does not matter. */
  lemma {:induction false} SumReorder<T>(f: T -> real, a: seq<T>, b: seq<T>)
    requires multiset(a) == multiset(b)
    ensures Sum(f, a) == Sum(f, b)
    decreases |a|
  {
    if a == [] {
      assert |multiset(b)| == 0;
    } else {
      var x := a[|a| - 1];
      assert x in multiset(a);
      var i :| 0 <= i < |b| && b[i] == x;
      MultisetRemove(a, |a| - 1);
      MultisetRemove(b, i);
      assert a[..|a| - 1] + a[|a|..] == a[..|a| - 1];
      SumRemove(f, b, i);
      SumReorder(f, a[..|a| - 1], b[..i] + b[i + 1..]);
    }
  }

  lemma MultisetRemove<T>(xs: seq<T>, i: nat)
    requires i < |xs|
    ensures multiset(xs[..i] + xs[i + 1..]) == multiset(xs) - multiset{xs[i]}
  {
    assert xs == xs[..i] + [xs[i]] + xs[i + 1..];
  }

  ghost predicate ExpAt(exp: real -> real, x: real, y: real) {
    exp(x + y) == exp(x) * exp(y)
  }

  ghost predicate PositiveAt(exp: real -> real, x: real) {
    exp(x) > 0.0
  }

  /** All that the kernels' results rest on: exp is positive and turns sums into products. */
  ghost predicate IsExp(exp: real -> real) {
    (forall x :: PositiveAt(exp, x)) && (forall x, y :: ExpAt(exp, x, y))
  }

  lemma ExpShift(exp: real -> real, x: real, m: real, n: real)
    requires IsExp(exp)
    ensures exp(x - n) == exp(m - n) * exp(x - m)
    ensures exp(x - m) > 0.0
  {
    assert ExpAt(exp, m - n, x - m);
    assert (m - n) + (x - m) == x - n;
    assert PositiveAt(exp, x - m);
  }
}
