/** Sums of reals over index ranges, and how they split into tiles. */
module IndexSums {
  /** f(lo) + ... + f(lo + n - 1). */
  function Range(f: nat -> real, lo: nat, n: nat): real {
    if n == 0 then 0.0 else Range(f, lo, n - 1) + f(lo + n - 1)
  }

  lemma RangeEmpty(f: nat -> real)
    ensures Range(f, 0, 0) == 0.0
  {
  }

  lemma RangeNext(f: nat -> real, n: nat)
    ensures Range(f, 0, n + 1) == Range(f, 0, n) + f(n)
  {
  }

  lemma {:induction false} RangeSplit(f: nat -> real, lo: nat, a: nat, b: nat)
    ensures Range(f, lo, a + b) == Range(f, lo, a) + Range(f, lo + a, b)
  {
    if b > 0 {
      RangeSplit(f, lo, a, b - 1);
      assert lo + (a + b) - 1 == (lo + a) + b - 1;
    }
  }

  lemma {:induction false} RangeScale(f: nat -> real, g: nat -> real, c: real, lo: nat, n: nat)
    requires forall k: nat :: lo <= k < lo + n ==> g(k) == c * f(k)
    ensures Range(g, lo, n) == c * Range(f, lo, n)
  {
    if n > 0 {
      RangeScale(f, g, c, lo, n - 1);
    }
  }

  lemma RangeSame(f: nat -> real, g: nat -> real, lo: nat, n: nat)
    requires forall k: nat :: lo <= k < lo + n ==> g(k) == f(k)
    ensures Range(g, lo, n) == Range(f, lo, n)
  {
    RangeScale(f, g, 1.0, lo, n);
  }

  lemma {:induction false} RangeZero(f: nat -> real, lo: nat, n: nat)
    requires forall k: nat :: lo <= k < lo + n ==> f(k) == 0.0
    ensures Range(f, lo, n) == 0.0
  {
    if n > 0 {
      RangeZero(f, lo, n - 1);
    }
  }

  lemma {:induction false} RangeAdd(f: nat -> real, g: nat -> real, h: nat -> real, lo: nat, n: nat)
    requires forall k: nat :: lo <= k < lo + n ==> h(k) == f(k) + g(k)
    ensures Range(h, lo, n) == Range(f, lo, n) + Range(g, lo, n)
  {
    if n > 0 {
      RangeAdd(f, g, h, lo, n - 1);
    }
  }

  lemma {:induction false} RangeShift(f: nat -> real, g: nat -> real, lo: nat, d: nat, n: nat)
    requires forall k: nat :: lo <= k < lo + n ==> g(k) == f(k + d)
    ensures Range(g, lo, n) == Range(f, lo + d, n)
  {
    if n > 0 {
      RangeShift(f, g, lo, d, n - 1);
      assert lo + n - 1 + d == lo + d + n - 1;
    }
  }

  /** Sums of tiles of w indices are the sum of all. */
  lemma {:induction false} RangeTiles(f: nat -> real, tile: nat -> real, w: nat, n: nat)
    requires forall t: nat :: t < n ==> tile(t) == Range(f, t * w, w)
    ensures Range(tile, 0, n) == Range(f, 0, n * w)
  {
    if n > 0 {
      RangeTiles(f, tile, w, n - 1);
      RangeSplit(f, 0, (n - 1) * w, w);
      assert (n - 1) * w + w == n * w;
    }
  }

  /** The order of two sums can be exchanged. */
  lemma {:induction false} RangeSwap(f: (nat, nat) -> real, rows: nat -> real, cols: nat -> real, m: nat, n: nat)
    requires forall i: nat :: i < m ==> rows(i) == Range((j: nat) => f(i, j), 0, n)
    requires forall j: nat :: j < n ==> cols(j) == Range((i: nat) => f(i, j), 0, m)
    ensures Range(rows, 0, m) == Range(cols, 0, n)
  {
    if m == 0 {
      RangeZero(cols, 0, n);
    } else {
      var last := (j: nat) => f(m - 1, j);
      var cols' := (j: nat) => Range((i: nat) => f(i, j), 0, m - 1);
      RangeSwap(f, rows, cols', m - 1, n);
      RangeAdd(cols', last, cols, 0, n);
      RangeSame((j: nat) => f(m - 1, j), last, 0, n);
    }
  }
}
