/** The sparse attention kernel (src/torchinferno/kernels/deepseek_v4_tilelang_definitions.py):
  a blocked softmax with a running maximum, for one query position and one head.

  Arithmetic is exact, over the reals extended by the infinities and NaN with their IEEE-754 rules,
  because the kernel really computes with minus infinity: it masks with it and starts from it. */
module OnlineSoftmax {
  import opened RealSums
  import opened IntMath
  import opened IndexSums

  datatype F = Fin(r: real) | Inf | NegInf | NaN

  function Add(a: F, b: F): F {
    match (a, b)
    case (Fin(x), Fin(y)) => Fin(x + y)
    case (NaN, _) => NaN
    case (_, NaN) => NaN
    case (Inf, NegInf) => NaN
    case (NegInf, Inf) => NaN
    case (Fin(_), _) => b
    case (_, _) => a
  }

  function Neg(a: F): F {
    match a
    case Fin(x) => Fin(-x)
    case Inf => NegInf
    case NegInf => Inf
    case NaN => NaN
  }

  function Sub(a: F, b: F): F {
    Add(a, Neg(b))
  }

  function Mul(a: F, b: F): F {
    match (a, b)
    case (Fin(x), Fin(y)) => Fin(x * y)
    case (NaN, _) => NaN
    case (_, NaN) => NaN
    case (Fin(x), _) => if x == 0.0 then NaN else if x > 0.0 then b else Neg(b)
    case (_, Fin(y)) => if y == 0.0 then NaN else if y > 0.0 then a else Neg(a)
    case (_, _) => if a == b then Inf else NegInf
  }

  /** A zero denominator is an infinity or NaN in the code; it is never reached with one. */
  function Div(a: F, b: F): F {
    match (a, b)
    case (NaN, _) => NaN
    case (_, NaN) => NaN
    case (Fin(x), Fin(y)) => if y != 0.0 then Fin(x / y) else if x == 0.0 then NaN else if x > 0.0 then Inf else NegInf
    case (Fin(_), _) => Fin(0.0)
    case (_, Fin(y)) => if y < 0.0 then Neg(a) else a
    case (_, _) => NaN
  }

  function Max(a: F, b: F): F {
    match (a, b)
    case (Fin(x), Fin(y)) => if x < y then b else a
    case (NaN, _) => NaN
    case (_, NaN) => NaN
    case (Inf, _) => Inf
    case (_, Inf) => Inf
    case (NegInf, _) => b
    case (_, NegInf) => a
  }

  function Exp(exp: real -> real, a: F): F {
    match a
    case Fin(x) => Fin(exp(x))
    case Inf => Inf
    case NegInf => Fin(0.0)
    case NaN => NaN
  }

  // ----- the problem: one query row, the key-value rows, the gathered indices -----

  const BLOCK := 64

  datatype Head = Head(q: seq<real>, kv: seq<seq<real>>, scale: real, sink: real) {
    predicate Valid() {
      scale > 0.0 && forall r :: r in kv ==> |r| == |q|
    }
    /** An index selects a row, or is -1 and selects nothing. */
    predicate Index(i: int) {
      i == -1 || 0 <= i < |kv|
    }
  }

  function Dot(a: seq<real>, b: seq<real>): real
    requires |a| == |b|
  {
    if a == [] then 0.0 else Dot(a[..|a| - 1], b[..|b| - 1]) + a[|a| - 1] * b[|b| - 1]
  }

  lemma {:induction false} DotZero(a: seq<real>, b: seq<real>)
    requires |a| == |b| && forall k :: 0 <= k < |b| ==> b[k] == 0.0
    ensures Dot(a, b) == 0.0
  {
    if a != [] {
      DotZero(a[..|a| - 1], b[..|b| - 1]);
    }
  }

  /** The dot product is the sum over the indices. */
  lemma {:induction false} DotIs(a: seq<real>, b: seq<real>, f: nat -> real, n: nat)
    requires |a| == |b| && n <= |a| && forall k: nat :: k < |a| ==> f(k) == a[k] * b[k]
    ensures Dot(a[..n], b[..n]) == Range(f, 0, n)
  {
    if n > 0 {
      assert a[..n][..n - 1] == a[..n - 1] && b[..n][..n - 1] == b[..n - 1];
      DotIs(a, b, f, n - 1);
    }
  }

  /** The score of a valid index: the sum of the products of query and key, scaled. */
  lemma ScoreIs(hd: Head, i: nat, f: nat -> real)
    requires hd.Valid() && i < |hd.kv| && forall k: nat :: k < |hd.q| ==> f(k) == hd.q[k] * hd.kv[i][k]
    ensures Score(hd, i) == Range(f, 0, |hd.q|) * hd.scale
  {
    assert hd.kv[i] in hd.kv;
    DotIs(hd.q, hd.kv[i], f, |hd.q|);
    assert hd.q[..|hd.q|] == hd.q && hd.kv[i][..|hd.q|] == hd.kv[i];
  }

  function Score(hd: Head, i: int): real
    requires hd.Valid()
  {
    if 0 <= i < |hd.kv| then Dot(hd.q, hd.kv[i]) * hd.scale else 0.0
  }

  /** What column j of entry i contributes under the weight exp(score - m); nothing if masked. */
  function Weight(exp: real -> real, hd: Head, m: real): int -> real
    requires hd.Valid()
  {
    i => if i == -1 then 0.0 else exp(Score(hd, i) - m)
  }

  function Weighted(exp: real -> real, hd: Head, m: real, j: nat): int -> real
    requires hd.Valid()
  {
    i => if 0 <= i < |hd.kv| && j < |hd.kv[i]| then exp(Score(hd, i) - m) * hd.kv[i][j] else 0.0
  }

  /** The direct formula, over the valid entries in any order. */
  ghost function Attention(exp: real -> real, hd: Head, idxs: seq<int>, j: nat): real
    requires hd.Valid() && IsExp(exp)
  {
    var den := Sum(Weight(exp, hd, 0.0), idxs) + exp(hd.sink);
    DenominatorPositive(exp, hd, idxs, 0.0);
    Sum(Weighted(exp, hd, 0.0, j), idxs) / den
  }

  lemma DenominatorPositive(exp: real -> real, hd: Head, idxs: seq<int>, m: real)
    requires hd.Valid() && IsExp(exp)
    ensures Sum(Weight(exp, hd, m), idxs) + exp(hd.sink - m) > 0.0
    ensures m == 0.0 ==> hd.sink - m == hd.sink
  {
    var w := Weight(exp, hd, m);
    forall i | i in idxs ensures w(i) >= 0.0 {
      assert PositiveAt(exp, Score(hd, i) - m);
    }
    SumPositive(w, idxs);
    assert PositiveAt(exp, hd.sink - m);
  }

  // ----- one block -----

  /** The 64 indices of block t; past the end of the list they are masked. */
  function Gather(topk: seq<int>, t: nat): (idxs: seq<int>)
    ensures |idxs| == BLOCK
  {
    seq(BLOCK, i requires 0 <= i => if t * BLOCK + i < |topk| then topk[t * BLOCK + i] else -1)
  }

  /** The gathered row, zero where masked. */
  function KvRow(hd: Head, i: int): (r: seq<real>)
    requires hd.Valid() && hd.Index(i)
    ensures |r| == |hd.q|
  {
    if i != -1 then hd.kv[i] else seq(|hd.q|, _ => 0.0)
  }

  /** The masked score as the kernel builds it: mask, plus product, times scale. */
  function Mask(valid: bool, dot: real, scale: real): F {
    Mul(Add(if valid then Fin(0.0) else NegInf, Fin(dot)), Fin(scale))
  }

  lemma MaskIs(valid: bool, dot: real, scale: real)
    requires scale > 0.0
    ensures Mask(valid, dot, scale) == if valid then Fin(dot * scale) else NegInf
  {
  }

  function MaskedScore(hd: Head, i: int): F
    requires hd.Valid() && hd.Index(i)
  {
    Mask(i != -1, Dot(hd.q, KvRow(hd, i)), hd.scale)
  }

  lemma MaskedScoreIs(hd: Head, i: int)
    requires hd.Valid() && hd.Index(i)
    ensures MaskedScore(hd, i) == if i == -1 then NegInf else Fin(Score(hd, i))
  {
    hide Dot;
    MaskIs(i != -1, Dot(hd.q, KvRow(hd, i)), hd.scale);
  }

  /** The running maximum, sum and accumulator column. */
  datatype Running = Running(max: F, sum: F, acc: F)

  ghost predicate Indices(hd: Head, idxs: seq<int>) {
    hd.Valid() && forall k :: 0 <= k < |idxs| ==> hd.Index(idxs[k])
  }

  /** The maximum over a block, starting from the maximum so far. */
  ghost function RunMax(hd: Head, prev: F, idxs: seq<int>): F
    requires Indices(hd, idxs)
  {
    if idxs == [] then prev
    else Max(RunMax(hd, prev, idxs[..|idxs| - 1]), MaskedScore(hd, idxs[|idxs| - 1]))
  }

  /** The exponential of one masked score below the maximum m. */
  function EntryExp(exp: real -> real, hd: Head, m: F, i: int): F
    requires hd.Valid() && hd.Index(i)
  {
    Exp(exp, Sub(MaskedScore(hd, i), m))
  }

  ghost function ExpSum(exp: real -> real, hd: Head, m: F, idxs: seq<int>): F
    requires Indices(hd, idxs)
  {
    if idxs == [] then Fin(0.0)
    else Add(ExpSum(exp, hd, m, idxs[..|idxs| - 1]), EntryExp(exp, hd, m, idxs[|idxs| - 1]))
  }

  /** Column j of the block's product, added to what the accumulator held. */
  ghost function ExpDot(exp: real -> real, hd: Head, m: F, acc: F, idxs: seq<int>, j: nat): F
    requires Indices(hd, idxs) && j < |hd.q|
  {
    if idxs == [] then acc
    else
      var i := idxs[|idxs| - 1];
      Add(ExpDot(exp, hd, m, acc, idxs[..|idxs| - 1], j),
          Mul(EntryExp(exp, hd, m, i), Fin(KvRow(hd, i)[j])))
  }

  /** One pass of the block loop, for column j of the accumulator. */
  ghost function BlockStep(exp: real -> real, hd: Head, st: Running, idxs: seq<int>, j: nat): Running
    requires Indices(hd, idxs) && j < |hd.q|
  {
    var m := RunMax(hd, st.max, idxs);
    var rescale := Exp(exp, Sub(st.max, m));
    Running(m, Add(Mul(st.sum, rescale), ExpSum(exp, hd, m, idxs)),
            ExpDot(exp, hd, m, Mul(st.acc, rescale), idxs, j))
  }

  /** The division after the loop, with the sink in the denominator. */
  function Finish(exp: real -> real, hd: Head, st: Running): F {
    Div(st.acc, Add(st.sum, Exp(exp, Sub(Fin(hd.sink), st.max))))
  }

  // ----- what a pass keeps -----

  ghost predicate AnyValid(idxs: seq<int>) {
    exists i :: i in idxs && i != -1
  }

  /** m is the largest score of a valid entry. */
  ghost predicate Largest(hd: Head, idxs: seq<int>, m: real)
    requires hd.Valid()
  {
    (forall i :: i in idxs && i != -1 ==> Score(hd, i) <= m)
    && (exists i :: i in idxs && i != -1 && Score(hd, i) == m)
  }

  /** The state after the entries `done`: the true maximum, and both sums relative to it. */
  ghost predicate Good(exp: real -> real, hd: Head, st: Running, done: seq<int>, j: nat)
    requires hd.Valid()
  {
    && st.max.Fin? && Largest(hd, done, st.max.r)
    && st.sum == Fin(Sum(Weight(exp, hd, st.max.r), done))
    && st.acc == Fin(Sum(Weighted(exp, hd, st.max.r, j), done))
  }

  const START := Running(NegInf, Fin(0.0), Fin(0.0))

  ghost predicate Broken(st: Running) {
    st.sum == NaN && st.acc == NaN
  }

  /** m is the maximum of `prev` and the scores of the valid entries. */
  ghost predicate IsMax(hd: Head, prev: F, idxs: seq<int>, m: F)
    requires hd.Valid()
  {
    if m == NegInf then prev == NegInf && !AnyValid(idxs)
    else
      && m.Fin? && (prev == NegInf || (prev.Fin? && prev.r <= m.r))
      && (forall i :: i in idxs && i != -1 ==> Score(hd, i) <= m.r)
      && (m == prev || exists i :: i in idxs && i != -1 && Score(hd, i) == m.r)
  }

  lemma IsMaxAppend(hd: Head, prev: F, init: seq<int>, last: int, m: F)
    requires hd.Valid() && IsMax(hd, prev, init, m)
    ensures IsMax(hd, prev, init + [last], if last == -1 then m else Max(m, Fin(Score(hd, last))))
  {
    hide Score;
    assert forall i :: i in init + [last] <==> i in init || i == last;
    if last == -1 || (m.Fin? && Score(hd, last) <= m.r) {
      if m.Fin? && m != prev {
        var i :| i in init && i != -1 && Score(hd, i) == m.r;
        assert i in init + [last];
      }
    } else {
      assert last in init + [last];
    }
  }

  lemma {:induction false} RunMaxIs(hd: Head, prev: F, idxs: seq<int>)
    requires Indices(hd, idxs) && (prev.Fin? || prev == NegInf)
    ensures IsMax(hd, prev, idxs, RunMax(hd, prev, idxs))
  {
    hide Dot, MaskedScore, Score;
    if idxs != [] {
      hide IsMax;
      var init, last := idxs[..|idxs| - 1], idxs[|idxs| - 1];
      assert idxs == init + [last];
      RunMaxIs(hd, prev, init);
      MaskedScoreIs(hd, last);
      IsMaxAppend(hd, prev, init, last, RunMax(hd, prev, init));
      MaxNegInf(RunMax(hd, prev, init));
    }
  }

  lemma MaxNegInf(a: F)
    ensures Max(a, NegInf) == a
  {
  }

  /** The exponential of an entry, and its product with column j of its gathered row. */
  lemma EntryIs(exp: real -> real, hd: Head, m: real, i: int, j: nat)
    requires hd.Valid() && hd.Index(i) && j < |hd.q|
    ensures EntryExp(exp, hd, Fin(m), i) == Fin(Weight(exp, hd, m)(i))
    ensures Mul(EntryExp(exp, hd, Fin(m), i), Fin(KvRow(hd, i)[j])) == Fin(Weighted(exp, hd, m, j)(i))
  {
    hide Dot, MaskedScore, Score;
    MaskedScoreIs(hd, i);
  }

  lemma {:induction false} ExpSumIs(exp: real -> real, hd: Head, idxs: seq<int>, m: real, j: nat)
    requires Indices(hd, idxs) && j < |hd.q|
    ensures ExpSum(exp, hd, Fin(m), idxs) == Fin(Sum(Weight(exp, hd, m), idxs))
  {
    hide EntryExp, Weight, Weighted;
    if idxs != [] {
      ExpSumIs(exp, hd, idxs[..|idxs| - 1], m, j);
      EntryIs(exp, hd, m, idxs[|idxs| - 1], j);
    }
  }

  lemma {:induction false} ExpDotIs(exp: real -> real, hd: Head, idxs: seq<int>, m: real, acc: real, j: nat)
    requires Indices(hd, idxs) && j < |hd.q|
    ensures ExpDot(exp, hd, Fin(m), Fin(acc), idxs, j) == Fin(acc + Sum(Weighted(exp, hd, m, j), idxs))
  {
    hide EntryExp, Weight, Weighted, Mul;
    if idxs != [] {
      ExpDotIs(exp, hd, idxs[..|idxs| - 1], m, acc, j);
      EntryIs(exp, hd, m, idxs[|idxs| - 1], j);
    }
  }

  lemma EntryRescaled(exp: real -> real, hd: Head, m: real, n: real, i: int, j: nat)
    requires IsExp(exp) && hd.Valid()
    ensures Weight(exp, hd, n)(i) == exp(m - n) * Weight(exp, hd, m)(i)
    ensures Weighted(exp, hd, n, j)(i) == exp(m - n) * Weighted(exp, hd, m, j)(i)
  {
    hide Score;
    ExpShift(exp, Score(hd, i), m, n);
    if 0 <= i < |hd.kv| && j < |hd.kv[i]| {
      Associate(exp(m - n), exp(Score(hd, i) - m), hd.kv[i][j]);
    }
  }

  lemma Associate(a: real, b: real, c: real)
    ensures (a * b) * c == a * (b * c)
  {
  }

  /** The old sums, multiplied by exp(old max - new max), are the sums relative to the new max. */
  lemma Rescaled(exp: real -> real, hd: Head, done: seq<int>, m: real, n: real, j: nat)
    requires IsExp(exp) && hd.Valid()
    ensures Sum(Weight(exp, hd, n), done) == exp(m - n) * Sum(Weight(exp, hd, m), done)
    ensures Sum(Weighted(exp, hd, n, j), done) == exp(m - n) * Sum(Weighted(exp, hd, m, j), done)
  {
    hide Sum, Weight, Weighted, IsExp;
    forall i | i in done ensures Weight(exp, hd, n)(i) == exp(m - n) * Weight(exp, hd, m)(i)
      ensures Weighted(exp, hd, n, j)(i) == exp(m - n) * Weighted(exp, hd, m, j)(i)
    {
      EntryRescaled(exp, hd, m, n, i, j);
    }
    SumScale(Weight(exp, hd, m), Weight(exp, hd, n), exp(m - n), done);
    SumScale(Weighted(exp, hd, m, j), Weighted(exp, hd, n, j), exp(m - n), done);
  }

  lemma LargestAppend(hd: Head, done: seq<int>, idxs: seq<int>, m: real)
    requires Indices(hd, idxs) && Largest(hd, done, m)
    ensures var n := RunMax(hd, Fin(m), idxs); n.Fin? && Largest(hd, done + idxs, n.r)
  {
    hide Score, RunMax;
    RunMaxIs(hd, Fin(m), idxs);
  }

  lemma GoodStep(exp: real -> real, hd: Head, st: Running, done: seq<int>, idxs: seq<int>, j: nat)
    requires IsExp(exp) && Indices(hd, idxs) && j < |hd.q|
    requires Good(exp, hd, st, done, j)
    ensures Good(exp, hd, BlockStep(exp, hd, st, idxs, j), done + idxs, j)
  {
    hide Dot, Sum, Score, RunMax, ExpSum, ExpDot, Weight, Weighted, Largest, IsExp;
    var m := st.max.r;
    LargestAppend(hd, done, idxs, m);
    var n := RunMax(hd, st.max, idxs).r;
    var c := exp(m - n);
    Rescaled(exp, hd, done, m, n, j);
    ExpSumIs(exp, hd, idxs, n, j);
    ExpDotIs(exp, hd, idxs, n, c * Sum(Weighted(exp, hd, m, j), done), j);
    SumAppend(Weight(exp, hd, n), done, idxs);
    SumAppend(Weighted(exp, hd, n, j), done, idxs);
    var t := BlockStep(exp, hd, st, idxs, j);
    assert st.max == Fin(m);
    assert t.max == Fin(n);
    assert Largest(hd, done + idxs, n);
    assert Mul(st.acc, Exp(exp, Sub(st.max, Fin(n)))) == Fin(c * Sum(Weighted(exp, hd, m, j), done));
    assert t.sum == Fin(Sum(Weight(exp, hd, n), done + idxs));
    assert t.acc == Fin(Sum(Weighted(exp, hd, n, j), done + idxs));
  }

  lemma FirstStep(exp: real -> real, hd: Head, idxs: seq<int>, j: nat)
    requires IsExp(exp) && Indices(hd, idxs) && j < |hd.q| && |idxs| > 0
    ensures var st := BlockStep(exp, hd, START, idxs, j);
            if AnyValid(idxs) then Good(exp, hd, st, idxs, j) else Broken(st)
  {
    hide Dot, Sum, Score, RunMax, ExpSum, ExpDot, Weight, Weighted, IsExp, Mul, Sub, Div, Max;
    RunMaxIs(hd, NegInf, idxs);
    var m := RunMax(hd, NegInf, idxs);
    if AnyValid(idxs) {
      StartScale(exp, m);
      ExpSumIs(exp, hd, idxs, m.r, j);
      ExpDotIs(exp, hd, idxs, m.r, 0.0, j);
    } else {
      StartScale(exp, m);
      NoneValid(exp, hd, idxs, j);
      NaNDot(exp, hd, m, idxs, j);
      NaNAdd(NaN);
    }
  }

  lemma StartScale(exp: real -> real, m: F)
    requires m.Fin? || m == NegInf
    ensures Mul(Fin(0.0), Exp(exp, Sub(NegInf, m))) == if m.Fin? then Fin(0.0) else NaN
  {
    assert Sub(NegInf, m) == if m.Fin? then NegInf else NaN;
    hide Sub, Add;
    assert Exp(exp, Sub(NegInf, m)) == if m.Fin? then Fin(0.0) else NaN;
  }

  lemma NaNAdd(a: F)
    ensures Add(a, NaN) == NaN && Add(NaN, a) == NaN
  {
  }

  /** A first block without a valid entry subtracts an infinity from itself. */
  lemma NoneValid(exp: real -> real, hd: Head, idxs: seq<int>, j: nat)
    requires Indices(hd, idxs) && |idxs| > 0 && !AnyValid(idxs)
    ensures ExpSum(exp, hd, NegInf, idxs) == NaN
  {
    hide MaskedScore, ExpSum;
    var last := idxs[|idxs| - 1];
    assert last in idxs;
    MaskedScoreIs(hd, last);
    assert EntryExp(exp, hd, NegInf, last) == NaN;
    LastNaN(exp, hd, idxs);
  }

  lemma LastNaN(exp: real -> real, hd: Head, idxs: seq<int>)
    requires Indices(hd, idxs) && |idxs| > 0 && EntryExp(exp, hd, NegInf, idxs[|idxs| - 1]) == NaN
    ensures ExpSum(exp, hd, NegInf, idxs) == NaN
  {
    hide EntryExp;
  }

  lemma {:induction false} NaNDot(exp: real -> real, hd: Head, m: F, idxs: seq<int>, j: nat)
    requires Indices(hd, idxs) && j < |hd.q|
    ensures ExpDot(exp, hd, m, NaN, idxs, j) == NaN
  {
    hide EntryExp, Mul;
    if idxs != [] {
      NaNDot(exp, hd, m, idxs[..|idxs| - 1], j);
    }
  }

  lemma BrokenStep(exp: real -> real, hd: Head, st: Running, idxs: seq<int>, j: nat)
    requires Indices(hd, idxs) && j < |hd.q| && Broken(st)
    ensures Broken(BlockStep(exp, hd, st, idxs, j))
  {
    hide Dot, RunMax, ExpSum, ExpDot;
    NaNDot(exp, hd, RunMax(hd, st.max, idxs), idxs, j);
  }

  lemma FinishGood(exp: real -> real, hd: Head, st: Running, done: seq<int>, j: nat)
    requires IsExp(exp) && hd.Valid() && Good(exp, hd, st, done, j)
    ensures Finish(exp, hd, st) == Fin(Attention(exp, hd, done, j))
  {
    hide Dot, Sum;
    var m := st.max.r;
    Rescaled(exp, hd, done, m, 0.0, j);
    ExpShift(exp, hd.sink, m, 0.0);
    DenominatorPositive(exp, hd, done, m);
    var c, a, s := exp(m), Sum(Weighted(exp, hd, m, j), done), Sum(Weight(exp, hd, m), done);
    assert m - 0.0 == m && hd.sink - 0.0 == hd.sink;
    assert PositiveAt(exp, m);
    Cancel(c, a, s + exp(hd.sink - m));
  }

  lemma Cancel(c: real, a: real, b: real)
    requires c > 0.0 && b > 0.0
    ensures c * b > 0.0 && (c * a) / (c * b) == a / b
  {
    var x := a / b;
    assert x * b == a;
    assert (c * a) == x * (c * b);
  }

  // ----- the whole loop -----

  ghost function Fold(exp: real -> real, hd: Head, topk: seq<int>, t: nat, j: nat): Running
    requires Indices(hd, topk) && j < |hd.q|
  {
    if t == 0 then START
    else BlockStep(exp, hd, Fold(exp, hd, topk, t - 1, j), Gather(topk, t - 1), j)
  }

  /** The entries of the first t blocks: the list, masked past its end. */
  function Padded(topk: seq<int>, n: nat): (p: seq<int>)
    ensures |p| == n
  {
    seq(n, i requires 0 <= i < n => if i < |topk| then topk[i] else -1)
  }

  lemma PaddedGrows(topk: seq<int>, t: nat)
    ensures Padded(topk, (t + 1) * BLOCK) == Padded(topk, t * BLOCK) + Gather(topk, t)
  {
  }

  lemma GatherIndices(hd: Head, topk: seq<int>, t: nat)
    requires Indices(hd, topk)
    ensures Indices(hd, Gather(topk, t))
  {
  }

  lemma {:induction false} FoldIs(exp: real -> real, hd: Head, topk: seq<int>, t: nat, j: nat)
    requires IsExp(exp) && Indices(hd, topk) && j < |hd.q| && 1 <= t
    ensures var st := Fold(exp, hd, topk, t, j);
            if AnyValid(Gather(topk, 0)) then Good(exp, hd, st, Padded(topk, t * BLOCK), j) else Broken(st)
  {
    hide BlockStep, Good, Broken, AnyValid, IsExp, Gather;
    GatherIndices(hd, topk, t - 1);
    PaddedGrows(topk, t - 1);
    if t == 1 {
      assert Padded(topk, 0) + Gather(topk, 0) == Gather(topk, 0);
      FirstStep(exp, hd, Gather(topk, 0), j);
    } else {
      FoldIs(exp, hd, topk, t - 1, j);
      var st := Fold(exp, hd, topk, t - 1, j);
      if AnyValid(Gather(topk, 0)) {
        GoodStep(exp, hd, st, Padded(topk, (t - 1) * BLOCK), Gather(topk, t - 1), j);
      } else {
        BrokenStep(exp, hd, st, Gather(topk, t - 1), j);
      }
    }
  }

  lemma {:induction false} MaskedAddNothing(f: int -> real, n: nat)
    requires f(-1) == 0.0
    ensures Sum(f, seq(n, _ => -1)) == 0.0
  {
    if n > 0 {
      assert seq(n, _ => -1)[..n - 1] == seq(n - 1, _ => -1);
      MaskedAddNothing(f, n - 1);
    }
  }

  lemma AttentionPadded(exp: real -> real, hd: Head, topk: seq<int>, n: nat, j: nat)
    requires IsExp(exp) && hd.Valid() && |topk| <= n
    ensures Attention(exp, hd, Padded(topk, n), j) == Attention(exp, hd, topk, j)
  {
    hide Sum, Score, IsExp;
    var pad := seq(n - |topk|, _ => -1);
    assert Padded(topk, n) == topk + pad;
    var w, v := Weight(exp, hd, 0.0), Weighted(exp, hd, 0.0, j);
    SumAppend(w, topk, pad);
    SumAppend(v, topk, pad);
    MaskedAddNothing(w, n - |topk|);
    MaskedAddNothing(v, n - |topk|);
  }

  /** One of the first 64 entries is valid. */
  ghost predicate EarlyValid(topk: seq<int>) {
    exists i :: 0 <= i < 64 && i < |topk| && topk[i] != -1
  }

  lemma EarlyIsFirstBlock(topk: seq<int>)
    ensures AnyValid(Gather(topk, 0)) <==> EarlyValid(topk)
  {
    var g := Gather(topk, 0);
    assert forall i :: 0 <= i < 64 ==> g[i] == if i < |topk| then topk[i] else -1;
    if i :| 0 <= i < 64 && i < |topk| && topk[i] != -1 {
      assert g[i] in g && g[i] != -1;
      assert AnyValid(g);
    }
    if AnyValid(g) {
      var x :| x in g && x != -1;
      var i :| 0 <= i < |g| && g[i] == x;
      assert topk[i] != -1;
    }
  }

  /** The kernel returns the direct formula exactly when there is nothing to attend to or the first
      64 entries hold a valid index; in every other case every output is NaN. */
  ghost function Expected(exp: real -> real, hd: Head, topk: seq<int>, j: nat): F
    requires hd.Valid() && IsExp(exp)
  {
    if topk == [] || EarlyValid(topk) then Fin(Attention(exp, hd, topk, j)) else NaN
  }

  lemma KernelIsAttention(exp: real -> real, hd: Head, topk: seq<int>, j: nat)
    requires IsExp(exp) && Indices(hd, topk) && j < |hd.q|
    ensures Finish(exp, hd, Fold(exp, hd, topk, CeilDiv(|topk|, BLOCK), j)) == Expected(exp, hd, topk, j)
  {
    EarlyIsFirstBlock(topk);
    var n := CeilDiv(|topk|, BLOCK);
    var st := Fold(exp, hd, topk, n, j);
    if topk == [] {
      NothingToAttend(exp, hd, j);
    } else {
      hide Attention, Fold, Good, Padded, Score, Sum;
      FoldIs(exp, hd, topk, n, j);
      if AnyValid(Gather(topk, 0)) {
        FinishGood(exp, hd, st, Padded(topk, n * BLOCK), j);
        AttentionPadded(exp, hd, topk, n * BLOCK, j);
      }
    }
  }

  lemma NothingToAttend(exp: real -> real, hd: Head, j: nat)
    requires IsExp(exp) && hd.Valid()
    ensures Finish(exp, hd, START) == Fin(0.0) && Attention(exp, hd, [], j) == 0.0
  {
    DenominatorPositive(exp, hd, [], 0.0);
    assert Exp(exp, Sub(Fin(hd.sink), NegInf)) == Inf;
  }

  // ----- the kernel -----

  method BlockMax(hd: Head, prev: F, idxs: seq<int>) returns (m: F)
    requires Indices(hd, idxs)
    ensures m == RunMax(hd, prev, idxs)
  {
    hide Max, MaskedScore, Dot;
    m := prev;
    for k := 0 to |idxs|
      invariant m == RunMax(hd, prev, idxs[..k])
    {
      assert idxs[..k + 1][..k] == idxs[..k];
      m := Max(m, MaskedScore(hd, idxs[k]));
    }
    assert idxs[..|idxs|] == idxs;
  }

  method BlockSum(exp: real -> real, hd: Head, m: F, idxs: seq<int>) returns (sum: F)
    requires Indices(hd, idxs)
    ensures sum == ExpSum(exp, hd, m, idxs)
  {
    hide Add, EntryExp, Dot;
    sum := Fin(0.0);
    for k := 0 to |idxs|
      invariant sum == ExpSum(exp, hd, m, idxs[..k])
    {
      assert idxs[..k + 1][..k] == idxs[..k];
      sum := Add(sum, EntryExp(exp, hd, m, idxs[k]));
    }
    assert idxs[..|idxs|] == idxs;
  }

  method Column(exp: real -> real, hd: Head, m: F, acc: F, idxs: seq<int>, j: nat) returns (a: F)
    requires Indices(hd, idxs) && j < |hd.q|
    ensures a == ExpDot(exp, hd, m, acc, idxs, j)
  {
    hide Add, Mul, EntryExp, Dot;
    a := acc;
    for k := 0 to |idxs|
      invariant a == ExpDot(exp, hd, m, acc, idxs[..k], j)
    {
      assert idxs[..k + 1][..k] == idxs[..k];
      a := Add(a, Mul(EntryExp(exp, hd, m, idxs[k]), Fin(KvRow(hd, idxs[k])[j])));
    }
    assert idxs[..|idxs|] == idxs;
  }

  method SparseAttention(exp: real -> real, hd: Head, topk: seq<int>) returns (o: array<F>)
    requires IsExp(exp) && Indices(hd, topk)
    ensures o.Length == |hd.q|
    ensures forall j :: 0 <= j < |hd.q| ==> o[j] == Expected(exp, hd, topk, j)
  {
    hide BlockStep, Attention, IsExp, Score, RunMax, ExpSum, ExpDot, Add, Mul, Exp, Sub, Div;
    o := new F[|hd.q|](_ => Fin(0.0));
    var sumExp, scoresMax := Fin(0.0), NegInf;
    for t := 0 to CeilDiv(|topk|, BLOCK)
      invariant forall j :: 0 <= j < |hd.q| ==> Running(scoresMax, sumExp, o[j]) == Fold(exp, hd, topk, t, j)
    {
      var idxs := Gather(topk, t);
      GatherIndices(hd, topk, t);
      var m := BlockMax(hd, scoresMax, idxs);
      var rescale := Exp(exp, Sub(scoresMax, m));
      var blockSum := BlockSum(exp, hd, m, idxs);
      ghost var was := o[..];
      for j := 0 to |hd.q|
        invariant forall i :: j <= i < |hd.q| ==> o[i] == was[i]
        invariant forall i :: 0 <= i < j ==> o[i] == ExpDot(exp, hd, m, Mul(was[i], rescale), idxs, i)
      {
        o[j] := Column(exp, hd, m, Mul(o[j], rescale), idxs, j);
      }
      forall j | 0 <= j < |hd.q|
        ensures Running(m, Add(Mul(sumExp, rescale), blockSum), o[j]) == Fold(exp, hd, topk, t + 1, j)
      {
        StepUnfolds(exp, hd, Fold(exp, hd, topk, t, j), idxs, j);
      }
      sumExp, scoresMax := Add(Mul(sumExp, rescale), blockSum), m;
    }
    ghost var st := o[..];
    sumExp := Add(sumExp, Exp(exp, Sub(Fin(hd.sink), scoresMax)));
    for j := 0 to |hd.q|
      invariant forall i :: j <= i < |hd.q| ==> o[i] == st[i]
      invariant forall i :: 0 <= i < j ==> o[i] == Expected(exp, hd, topk, i)
    {
      KernelIsAttention(exp, hd, topk, j);
      FinishUnfolds(exp, hd, Fold(exp, hd, topk, CeilDiv(|topk|, BLOCK), j));
      o[j] := Div(o[j], sumExp);
    }
  }

  lemma StepUnfolds(exp: real -> real, hd: Head, st: Running, idxs: seq<int>, j: nat)
    requires Indices(hd, idxs) && j < |hd.q|
    ensures var m := RunMax(hd, st.max, idxs);
            var rescale := Exp(exp, Sub(st.max, m));
            BlockStep(exp, hd, st, idxs, j)
            == Running(m, Add(Mul(st.sum, rescale), ExpSum(exp, hd, m, idxs)),
                       ExpDot(exp, hd, m, Mul(st.acc, rescale), idxs, j))
  {
  }

  lemma FinishUnfolds(exp: real -> real, hd: Head, st: Running)
    ensures Finish(exp, hd, st) == Div(st.acc, Add(st.sum, Exp(exp, Sub(Fin(hd.sink), st.max))))
  {
  }

  /** The result does not depend on the order of the indices nor on where the masked ones stand,
      as long as the first block stays usable. */
  lemma OrderDoesNotMatter(exp: real -> real, hd: Head, a: seq<int>, b: seq<int>, j: nat)
    requires IsExp(exp) && hd.Valid() && multiset(a) == multiset(b)
    requires EarlyValid(a) && EarlyValid(b)
    ensures Expected(exp, hd, a, j) == Expected(exp, hd, b, j)
  {
    SumReorder(Weight(exp, hd, 0.0), a, b);
    SumReorder(Weighted(exp, hd, 0.0, j), a, b);
  }
}
