/** The comb matrix of hc_split_sinkhorn_kernel
  (src/torchinferno/kernels/deepseek_v4_tilelang_definitions.py): a row softmax plus eps, then
  alternating row and column normalisation, in exact arithmetic. */
module Sinkhorn {
  import opened IndexSums
  import opened RealSums

  /** A square matrix as a function of row and column. */
  type Mat = (nat, nat) -> real

  function RowSum(m: Mat, hc: nat, j: nat): real {
    Range((k: nat) => m(j, k), 0, hc)
  }

  function ColSum(m: Mat, hc: nat, k: nat): real {
    Range((j: nat) => m(j, k), 0, hc)
  }

  ghost predicate Positive(m: Mat, hc: nat) {
    forall j: nat, k: nat :: j < hc && k < hc ==> m(j, k) > 0.0
  }

  /** m is m0 with row j multiplied by r(j) and column k by c(k), all factors positive. */
  ghost predicate Scaling(m0: Mat, m: Mat, hc: nat, r: nat -> real, c: nat -> real) {
    && (forall j: nat :: j < hc ==> r(j) > 0.0)
    && (forall k: nat :: k < hc ==> c(k) > 0.0)
    && (forall j: nat, k: nat :: j < hc && k < hc ==> m(j, k) == r(j) * m0(j, k) * c(k))
  }

  lemma {:induction false} PositiveSum(f: nat -> real, n: nat)
    requires forall i: nat :: i < n ==> f(i) > 0.0
    ensures Range(f, 0, n) >= 0.0 && (n > 0 ==> Range(f, 0, n) > 0.0)
    ensures forall i: nat :: i < n ==> f(i) <= Range(f, 0, n)
  {
    if n > 0 {
      PositiveSum(f, n - 1);
    }
  }

  /** All cross-ratios of a positive matrix survive row and column scaling. */
  lemma CrossRatios(m0: Mat, m: Mat, hc: nat, r: nat -> real, c: nat -> real, i: nat, j: nat, k: nat, l: nat)
    requires Scaling(m0, m, hc, r, c) && i < hc && j < hc && k < hc && l < hc
    ensures (m(i, k) * m(j, l)) * (m0(i, l) * m0(j, k)) == (m(i, l) * m(j, k)) * (m0(i, k) * m0(j, l))
  {
    var p := r(i) * r(j) * (c(k) * c(l));
    FourFactors(r(i), m0(i, k), c(k), r(j), m0(j, l), c(l));
    FourFactors(r(i), m0(i, l), c(l), r(j), m0(j, k), c(k));
    Swap(m0(i, k) * m0(j, l), m0(i, l) * m0(j, k), p);
  }

  lemma FourFactors(a: real, x: real, b: real, c: real, y: real, d: real)
    ensures (a * x * b) * (c * y * d) == (a * c * (b * d)) * (x * y)
  {
    assert (a * x * b) * (c * y * d) == ((a * x * b) * (c * y)) * d;
    assert (a * x * b) * (c * y) == (a * c) * ((x * y) * b);
    assert ((a * c) * ((x * y) * b)) * d == (a * c) * ((x * y) * (b * d));
  }

  lemma Swap(x: real, y: real, p: real)
    ensures (p * x) * y == (p * y) * x
  {
  }

  // ----- the steps -----

  ghost function RowStep(m: Mat, hc: nat, eps: real): Mat
    requires eps > 0.0 && Positive(m, hc)
  {
    (j: nat, k: nat) => if j < hc then RowSumPositive(m, hc, j); m(j, k) / (RowSum(m, hc, j) + eps) else 0.0
  }

  ghost function ColStep(m: Mat, hc: nat, eps: real): Mat
    requires eps > 0.0 && Positive(m, hc)
  {
    (j: nat, k: nat) => if k < hc then ColSumPositive(m, hc, k); m(j, k) / (ColSum(m, hc, k) + eps) else 0.0
  }

  /** No denominator is ever zero. */
  lemma RowSumPositive(m: Mat, hc: nat, j: nat)
    requires Positive(m, hc) && j < hc
    ensures RowSum(m, hc, j) > 0.0
  {
    PositiveSum((k: nat) => m(j, k), hc);
  }

  lemma ColSumPositive(m: Mat, hc: nat, k: nat)
    requires Positive(m, hc) && k < hc
    ensures ColSum(m, hc, k) > 0.0
  {
    PositiveSum((j: nat) => m(j, k), hc);
  }

  lemma StepsPositive(m: Mat, hc: nat, eps: real)
    requires eps > 0.0 && Positive(m, hc)
    ensures Positive(RowStep(m, hc, eps), hc) && Positive(ColStep(m, hc, eps), hc)
  {
    hide RowSum, ColSum;
    forall j: nat, k: nat | j < hc && k < hc
      ensures RowStep(m, hc, eps)(j, k) > 0.0 && ColStep(m, hc, eps)(j, k) > 0.0
    {
      RowSumPositive(m, hc, j);
      ColSumPositive(m, hc, k);
      Quotient(m(j, k), RowSum(m, hc, j) + eps);
      Quotient(m(j, k), ColSum(m, hc, k) + eps);
    }
  }

  lemma Quotient(x: real, d: real)
    requires x > 0.0 && d > 0.0
    ensures x / d > 0.0 && (x / d) * d == x
  {
  }

  /** The matrix after the first column step and n rounds of a row and a column step. */
  ghost function Iterate(m0: Mat, hc: nat, eps: real, n: nat): (m: Mat)
    requires eps > 0.0 && Positive(m0, hc)
    ensures Positive(m, hc)
  {
    StepsPositive(m0, hc, eps);
    if n == 0 then ColStep(m0, hc, eps)
    else
      var m := Iterate(m0, hc, eps, n - 1);
      StepsPositive(m, hc, eps);
      StepsPositive(RowStep(m, hc, eps), hc, eps);
      ColStep(RowStep(m, hc, eps), hc, eps)
  }

  lemma RowScaled(m0: Mat, m: Mat, hc: nat, eps: real, r: nat -> real, c: nat -> real) returns (r': nat -> real)
    requires eps > 0.0 && Positive(m, hc) && Scaling(m0, m, hc, r, c)
    ensures Scaling(m0, RowStep(m, hc, eps), hc, r', c)
  {
    hide RowSum;
    r' := (j: nat) => if j < hc then (RowSumPositive(m, hc, j); r(j) / (RowSum(m, hc, j) + eps)) else 1.0;
    forall j: nat | j < hc ensures r'(j) > 0.0 {
      RowSumPositive(m, hc, j);
      Quotient(r(j), RowSum(m, hc, j) + eps);
    }
    forall j: nat, k: nat | j < hc && k < hc
      ensures RowStep(m, hc, eps)(j, k) == r'(j) * m0(j, k) * c(k)
    {
      RowSumPositive(m, hc, j);
      DivideLeft(r(j), m0(j, k), c(k), RowSum(m, hc, j) + eps);
    }
  }

  lemma ColScaled(m0: Mat, m: Mat, hc: nat, eps: real, r: nat -> real, c: nat -> real) returns (c': nat -> real)
    requires eps > 0.0 && Positive(m, hc) && Scaling(m0, m, hc, r, c)
    ensures Scaling(m0, ColStep(m, hc, eps), hc, r, c')
  {
    hide ColSum;
    c' := (k: nat) => if k < hc then (ColSumPositive(m, hc, k); c(k) / (ColSum(m, hc, k) + eps)) else 1.0;
    forall k: nat | k < hc ensures c'(k) > 0.0 {
      ColSumPositive(m, hc, k);
      Quotient(c(k), ColSum(m, hc, k) + eps);
    }
    forall j: nat, k: nat | j < hc && k < hc
      ensures ColStep(m, hc, eps)(j, k) == r(j) * m0(j, k) * c'(k)
    {
      ColSumPositive(m, hc, k);
      DivideRight(r(j) * m0(j, k), c(k), ColSum(m, hc, k) + eps);
    }
  }

  lemma DivideRight(a: real, b: real, d: real)
    requires d > 0.0
    ensures (a * b) / d == a * (b / d)
  {
    var q := b / d;
    assert q * d == b;
    assert (a * q) * d == a * b;
  }

  lemma DivideLeft(a: real, x: real, b: real, d: real)
    requires d > 0.0
    ensures (a * x * b) / d == (a / d) * x * b
  {
    var q := a / d;
    assert q * d == a;
    var y := q * x * b;
    assert y * d == (q * d) * x * b;
  }

  /** However many rounds are run, the result is the starting matrix scaled by positive row and column
      factors. */
  lemma {:induction false} IterateScales(m0: Mat, hc: nat, eps: real, n: nat) returns (r: nat -> real, c: nat -> real)
    requires eps > 0.0 && Positive(m0, hc)
    ensures Scaling(m0, Iterate(m0, hc, eps, n), hc, r, c)
    decreases n
  {
    hide RowStep, ColStep, RowSum, ColSum;
    if n == 0 {
      r, c := (j: nat) => 1.0, (k: nat) => 1.0;
      assert Scaling(m0, m0, hc, r, c);
      c := ColScaled(m0, m0, hc, eps, r, c);
    } else {
      r, c := IterateScales(m0, hc, eps, n - 1);
      var m := Iterate(m0, hc, eps, n - 1);
      StepsPositive(m, hc, eps);
      r := RowScaled(m0, m, hc, eps, r, c);
      c := ColScaled(m0, RowStep(m, hc, eps), hc, eps, r, c);
    }
  }

  /** A column step leaves every column sum strictly between 0 and 1. */
  lemma ColumnSums(m: Mat, hc: nat, eps: real, k: nat)
    requires eps > 0.0 && Positive(m, hc) && k < hc
    ensures 0.0 < ColSum(ColStep(m, hc, eps), hc, k) < 1.0
  {
    ColSumPositive(m, hc, k);
    var s := ColSum(m, hc, k);
    var f, g := (j: nat) => m(j, k), (j: nat) => ColStep(m, hc, eps)(j, k);
    var inv := 1.0 / (s + eps);
    forall j: nat | j < hc ensures g(j) == inv * f(j) {
      ColStepAt(m, hc, eps, j, k);
      Reciprocal(f(j), s + eps);
    }
    RangeScale(f, g, inv, 0, hc);
    BelowOne(s, eps, inv * s);
  }

  lemma ColStepAt(m: Mat, hc: nat, eps: real, j: nat, k: nat)
    requires eps > 0.0 && Positive(m, hc) && k < hc
    ensures ColSum(m, hc, k) > 0.0 && ColStep(m, hc, eps)(j, k) == m(j, k) / (ColSum(m, hc, k) + eps)
  {
    ColSumPositive(m, hc, k);
  }

  lemma RowStepAt(m: Mat, hc: nat, eps: real, j: nat, k: nat)
    requires eps > 0.0 && Positive(m, hc) && j < hc
    ensures RowSum(m, hc, j) > 0.0 && RowStep(m, hc, eps)(j, k) == m(j, k) / (RowSum(m, hc, j) + eps)
  {
    RowSumPositive(m, hc, j);
  }

  lemma Reciprocal(x: real, d: real)
    requires d > 0.0
    ensures x / d == (1.0 / d) * x
  {
    DivideRight(x, 1.0, d);
  }

  lemma BelowOne(s: real, eps: real, y: real)
    requires s > 0.0 && eps > 0.0 && y == (1.0 / (s + eps)) * s
    ensures 0.0 < y < 1.0
  {
    Reciprocal(s, s + eps);
    Quotient(s, s + eps);
    var d := 1.0 - y;
    assert d * (s + eps) == (s + eps) - s;
    assert d <= 0.0 ==> d * (s + eps) <= 0.0;
  }

  lemma ReturnedColumnSums(m0: Mat, hc: nat, eps: real, n: nat, k: nat)
    requires eps > 0.0 && Positive(m0, hc) && k < hc
    ensures 0.0 < ColSum(Iterate(m0, hc, eps, n), hc, k) < 1.0
  {
    hide ColSum, RowSum, RowStep, ColStep;
    if n == 0 {
      ColumnSums(m0, hc, eps, k);
    } else {
      var m := Iterate(m0, hc, eps, n - 1);
      StepsPositive(m, hc, eps);
      ColumnSums(RowStep(m, hc, eps), hc, eps, k);
    }
  }

  /** A row step leaves every row sum strictly between 0 and 1. */
  lemma RowSums(m: Mat, hc: nat, eps: real, j: nat)
    requires eps > 0.0 && Positive(m, hc) && j < hc
    ensures 0.0 < RowSum(RowStep(m, hc, eps), hc, j) < 1.0
  {
    RowSumPositive(m, hc, j);
    var s := RowSum(m, hc, j);
    var f, g := (k: nat) => m(j, k), (k: nat) => RowStep(m, hc, eps)(j, k);
    var inv := 1.0 / (s + eps);
    forall k: nat | k < hc ensures g(k) == inv * f(k) {
      RowStepAt(m, hc, eps, j, k);
      Reciprocal(f(k), s + eps);
    }
    RangeScale(f, g, inv, 0, hc);
    BelowOne(s, eps, inv * s);
  }

  /** With more than one iteration, what the last column step works on has every row sum strictly between
      0 and 1. */
  lemma RowsBeforeLast(m0: Mat, hc: nat, eps: real, n: nat) returns (w: Mat)
    requires eps > 0.0 && Positive(m0, hc) && n > 0
    ensures Positive(w, hc) && Iterate(m0, hc, eps, n) == ColStep(w, hc, eps)
    ensures forall j: nat :: j < hc ==> 0.0 < RowSum(w, hc, j) < 1.0
  {
    hide ColSum, RowSum, RowStep, ColStep;
    var m := Iterate(m0, hc, eps, n - 1);
    StepsPositive(m, hc, eps);
    w := RowStep(m, hc, eps);
    forall j: nat | j < hc ensures 0.0 < RowSum(w, hc, j) < 1.0 {
      RowSums(m, hc, eps, j);
    }
  }

  // ----- the softmax -----

  /** The exponentials of a row, relative to x. */
  ghost function Exps(exp: real -> real, logits: Mat, x: real): Mat {
    (j: nat, k: nat) => exp(logits(j, k) - x)
  }

  lemma ExpsPositive(exp: real -> real, logits: Mat, x: real, hc: nat)
    requires IsExp(exp)
    ensures Positive(Exps(exp, logits, x), hc)
  {
    forall j: nat, k: nat ensures Exps(exp, logits, x)(j, k) > 0.0 {
      assert PositiveAt(exp, logits(j, k) - x);
    }
  }

  /** Row softmax plus eps, by the direct formula. */
  ghost function Softened(exp: real -> real, logits: Mat, hc: nat, eps: real): (m: Mat)
    requires IsExp(exp) && eps > 0.0
  {
    (j: nat, k: nat) =>
      ExpsPositive(exp, logits, 0.0, hc);
      if j < hc then
        RowSumPositive(Exps(exp, logits, 0.0), hc, j);
        Exps(exp, logits, 0.0)(j, k) / RowSum(Exps(exp, logits, 0.0), hc, j) + eps
      else eps
  }

  lemma SoftenedPositive(exp: real -> real, logits: Mat, hc: nat, eps: real)
    requires IsExp(exp) && eps > 0.0
    ensures Positive(Softened(exp, logits, hc, eps), hc)
  {
    ExpsPositive(exp, logits, 0.0, hc);
    forall j: nat, k: nat | j < hc && k < hc ensures Softened(exp, logits, hc, eps)(j, k) > 0.0 {
      RowSumPositive(Exps(exp, logits, 0.0), hc, j);
      Quotient(Exps(exp, logits, 0.0)(j, k), RowSum(Exps(exp, logits, 0.0), hc, j));
    }
  }

  lemma ExpsScale(exp: real -> real, logits: Mat, hc: nat, x: real, j: nat)
    requires IsExp(exp)
    ensures forall i: nat :: Exps(exp, logits, 0.0)(j, i) == exp(x - 0.0) * Exps(exp, logits, x)(j, i)
    ensures RowSum(Exps(exp, logits, 0.0), hc, j) == exp(x - 0.0) * RowSum(Exps(exp, logits, x), hc, j)
    ensures exp(x - 0.0) > 0.0
  {
    hide Range;
    var e, d := Exps(exp, logits, x), Exps(exp, logits, 0.0);
    assert PositiveAt(exp, x - 0.0);
    forall i: nat ensures d(j, i) == exp(x - 0.0) * e(j, i) {
      ExpShift(exp, logits(j, i), x, 0.0);
    }
    RangeScale((i: nat) => e(j, i), (i: nat) => d(j, i), exp(x - 0.0), 0, hc);
  }

  /** Subtracting any number from a row of logits, as the kernel does with their maximum, does not
      change its softmax. */
  lemma SoftmaxShift(exp: real -> real, logits: Mat, hc: nat, x: real, j: nat, k: nat)
    requires IsExp(exp) && j < hc && k < hc
    ensures var e, d := Exps(exp, logits, x), Exps(exp, logits, 0.0);
      RowSum(e, hc, j) > 0.0 && RowSum(d, hc, j) > 0.0
      && e(j, k) / RowSum(e, hc, j) == d(j, k) / RowSum(d, hc, j)
  {
    hide Range, Exps, RowSum, IsExp;
    var e, d := Exps(exp, logits, x), Exps(exp, logits, 0.0);
    ExpsPositive(exp, logits, x, hc);
    ExpsPositive(exp, logits, 0.0, hc);
    RowSumPositive(e, hc, j);
    RowSumPositive(d, hc, j);
    ExpsScale(exp, logits, hc, x, j);
    CancelFactor(exp(x - 0.0), e(j, k), RowSum(e, hc, j), d(j, k), RowSum(d, hc, j));
  }

  lemma CancelFactor(c: real, a: real, b: real, x: real, y: real)
    requires c > 0.0 && b > 0.0 && x == c * a && y == c * b && y > 0.0
    ensures x / y == a / b
  {
    var q := a / b;
    assert q * b == a;
    assert q * y == c * (q * b);
  }

  // ----- the kernel -----

  ghost predicate Holds(comb: array2<real>, hc: nat, m: Mat)
    reads comb
  {
    comb.Length0 == hc && comb.Length1 == hc && forall j: nat, k: nat :: j < hc && k < hc ==> comb[j, k] == m(j, k)
  }

  method SumRow(comb: array2<real>, hc: nat, ghost m: Mat, j: nat) returns (sum: real)
    requires Holds(comb, hc, m) && j < hc
    ensures sum == RowSum(m, hc, j)
  {
    sum := 0.0;
    for k := 0 to hc
      invariant sum == Range((i: nat) => m(j, i), 0, k)
    {
      sum := sum + comb[j, k];
    }
  }

  method SumCol(comb: array2<real>, hc: nat, ghost m: Mat, k: nat) returns (sum: real)
    requires Holds(comb, hc, m) && k < hc
    ensures sum == ColSum(m, hc, k)
  {
    sum := 0.0;
    for j := 0 to hc
      invariant sum == Range((i: nat) => m(i, k), 0, j)
    {
      sum := sum + comb[j, k];
    }
  }

  /** comb / (comb.sum(-1) + eps), in place. */
  method NormaliseRows(comb: array2<real>, hc: nat, eps: real, ghost m: Mat)
    requires eps > 0.0 && Positive(m, hc) && Holds(comb, hc, m)
    modifies comb
    ensures Holds(comb, hc, RowStep(m, hc, eps))
  {
    hide RowSum, RowStep;
    var sums := new real[hc](_ => 1.0);
    for j := 0 to hc
      invariant Holds(comb, hc, m)
      invariant forall i: nat :: i < j ==> sums[i] == RowSum(m, hc, i)
    {
      sums[j] := SumRow(comb, hc, m, j);
    }
    forall j: nat, k: nat | j < hc && k < hc
      ensures RowSum(m, hc, j) > 0.0 && RowStep(m, hc, eps)(j, k) == m(j, k) / (RowSum(m, hc, j) + eps)
    {
      RowStepAt(m, hc, eps, j, k);
    }
    if hc > 0 {
      forall j: nat | j < hc ensures sums[j] + eps != 0.0 {
        RowSumPositive(m, hc, j);
      }
      forall j, k | 0 <= j < hc && 0 <= k < hc {
        comb[j, k] := comb[j, k] / (sums[j] + eps);
      }
    }
  }

  /** comb / (comb.sum(-2) + eps), in place. */
  method NormaliseCols(comb: array2<real>, hc: nat, eps: real, ghost m: Mat)
    requires eps > 0.0 && Positive(m, hc) && Holds(comb, hc, m)
    modifies comb
    ensures Holds(comb, hc, ColStep(m, hc, eps))
  {
    hide ColSum, ColStep;
    var sums := new real[hc](_ => 1.0);
    for k := 0 to hc
      invariant Holds(comb, hc, m)
      invariant forall i: nat :: i < k ==> sums[i] == ColSum(m, hc, i)
    {
      sums[k] := SumCol(comb, hc, m, k);
    }
    forall j: nat, k: nat | j < hc && k < hc
      ensures ColSum(m, hc, k) > 0.0 && ColStep(m, hc, eps)(j, k) == m(j, k) / (ColSum(m, hc, k) + eps)
    {
      ColStepAt(m, hc, eps, j, k);
    }
    if hc > 0 {
      forall k: nat | k < hc ensures sums[k] + eps != 0.0 {
        ColSumPositive(m, hc, k);
      }
      forall j, k | 0 <= j < hc && 0 <= k < hc {
        comb[j, k] := comb[j, k] / (sums[k] + eps);
      }
    }
  }

  /** Rows before j hold the result, the others the logits. */
  ghost predicate RowsDone(exp: real -> real, comb: array2<real>, hc: nat, eps: real, logits: Mat, n: nat)
    requires IsExp(exp) && eps > 0.0 && comb.Length0 == hc && comb.Length1 == hc
    reads comb
  {
    forall j: nat, k: nat :: j < hc && k < hc ==>
      comb[j, k] == if j < n then Softened(exp, logits, hc, eps)(j, k) else logits(j, k)
  }

  /** The exponentials of row j, relative to its largest logit; returns their sum. */
  method ExpRow(exp: real -> real, comb: array2<real>, hc: nat, j: nat, ghost logits: Mat)
    returns (sum: real, ghost x: real)
    requires comb.Length0 == hc && comb.Length1 == hc && j < hc
    requires forall k: nat :: k < hc ==> comb[j, k] == logits(j, k)
    modifies comb
    ensures forall i: nat, k: nat :: i < hc && k < hc && i != j ==> comb[i, k] == old(comb[i, k])
    ensures forall k: nat :: k < hc ==> comb[j, k] == Exps(exp, logits, x)(j, k)
    ensures sum == RowSum(Exps(exp, logits, x), hc, j)
  {
    hide Range;
    var rowMax := comb[j, 0];
    for k := 0 to hc
      invariant forall i: nat, l: nat :: i < hc && l < hc ==> comb[i, l] == old(comb[i, l])
    {
      rowMax := if rowMax < comb[j, k] then comb[j, k] else rowMax;
    }
    x := rowMax;
    forall k | 0 <= k < hc {
      comb[j, k] := exp(comb[j, k] - rowMax);
    }
    ghost var row := (k: nat) => Exps(exp, logits, x)(j, k);
    sum := 0.0;
    RangeEmpty(row);
    for k := 0 to hc
      invariant sum == Range(row, 0, k)
      invariant forall i: nat, l: nat :: i < hc && l < hc && i != j ==> comb[i, l] == old(comb[i, l])
      invariant forall l: nat :: l < hc ==> comb[j, l] == Exps(exp, logits, x)(j, l)
    {
      RangeNext(row, k);
      sum := sum + comb[j, k];
    }
  }

  method SoftmaxPlusEps(exp: real -> real, comb: array2<real>, hc: nat, eps: real, ghost logits: Mat)
    requires IsExp(exp) && eps > 0.0 && Holds(comb, hc, logits)
    modifies comb
    ensures Holds(comb, hc, Softened(exp, logits, hc, eps))
  {
    hide RowSum, Softened, Exps, IsExp;
    for j := 0 to hc
      invariant RowsDone(exp, comb, hc, eps, logits, j)
    {
      var sum, x := ExpRow(exp, comb, hc, j, logits);
      forall k: nat | k < hc
        ensures sum > 0.0 && Exps(exp, logits, x)(j, k) / sum + eps == Softened(exp, logits, hc, eps)(j, k)
      {
        SoftenedAt(exp, logits, hc, eps, x, j, k);
      }
      forall k | 0 <= k < hc {
        comb[j, k] := comb[j, k] / sum + eps;
      }
    }
  }

  lemma SoftenedAt(exp: real -> real, logits: Mat, hc: nat, eps: real, x: real, j: nat, k: nat)
    requires IsExp(exp) && eps > 0.0 && j < hc && k < hc
    ensures RowSum(Exps(exp, logits, x), hc, j) > 0.0
    ensures Exps(exp, logits, x)(j, k) / RowSum(Exps(exp, logits, x), hc, j) + eps
         == Softened(exp, logits, hc, eps)(j, k)
  {
    SoftmaxShift(exp, logits, hc, x, j, k);
  }

  /** The whole comb computation for one token. */
  method HcSinkhorn(exp: real -> real, comb: array2<real>, hc: nat, iters: nat, eps: real, ghost logits: Mat)
    requires IsExp(exp) && eps > 0.0 && Holds(comb, hc, logits)
    modifies comb
    ensures Positive(Softened(exp, logits, hc, eps), hc)
    ensures Holds(comb, hc, Iterate(Softened(exp, logits, hc, eps), hc, eps, if iters == 0 then 0 else iters - 1))
  {
    hide RowStep, ColStep, Softened;
    ghost var m0 := Softened(exp, logits, hc, eps);
    SoftenedPositive(exp, logits, hc, eps);
    SoftmaxPlusEps(exp, comb, hc, eps, logits);
    NormaliseCols(comb, hc, eps, m0);
    var n := if iters == 0 then 0 else iters - 1;
    for i := 0 to n
      invariant Holds(comb, hc, Iterate(m0, hc, eps, i))
    {
      ghost var m := Iterate(m0, hc, eps, i);
      StepsPositive(m, hc, eps);
      NormaliseRows(comb, hc, eps, m);
      NormaliseCols(comb, hc, eps, RowStep(m, hc, eps));
    }
  }

  // ----- the gates -----

  function Sigmoid(exp: real -> real, x: real): real
    requires exp(-x) > 0.0
  {
    1.0 / (1.0 + exp(-x))
  }

  /** pre lies strictly between eps and 1 + eps, post strictly between 0 and 2. */
  lemma GatesInRange(exp: real -> real, x: real, eps: real)
    requires IsExp(exp)
    ensures exp(-x) > 0.0 && eps < Sigmoid(exp, x) + eps < 1.0 + eps && 0.0 < 2.0 * Sigmoid(exp, x) < 2.0
  {
    assert PositiveAt(exp, -x);
    var e := exp(-x);
    BelowOne(1.0, e, (1.0 / (1.0 + e)) * 1.0);
  }

  /** The gates grow with their input, as far as exp does. */
  lemma GatesGrow(exp: real -> real, x: real, y: real)
    requires IsExp(exp) && exp(-y) < exp(-x)
    ensures exp(-x) > 0.0 && exp(-y) > 0.0 && Sigmoid(exp, x) < Sigmoid(exp, y)
  {
    assert PositiveAt(exp, -x) && PositiveAt(exp, -y);
    Smaller(1.0 + exp(-y), 1.0 + exp(-x));
  }

  lemma Smaller(a: real, b: real)
    requires 0.0 < a < b
    ensures 1.0 / b < 1.0 / a
  {
    var x, y := 1.0 / a, 1.0 / b;
    assert x * a == 1.0 && y * b == 1.0;
    assert y * a < y * b;
    assert y >= x ==> y * a >= x * a;
  }
}
