/** Symmetric four-bit weights: the group quantiser of src/torchinferno/kernels/marlin.py, and the
  packed quantiser and tiled product of scripts/bench_triton_int4.py, in exact arithmetic. */
module Int4 {
  import opened IndexSums
  import opened RealMath
  import opened Rounding
  import opened Nibbles
  import opened IntMath

  // ----- one group: the scale, the codes and the error -----

  function MaxOf(w: seq<real>): (r: real)
    requires w != []
    ensures r in w && forall k :: 0 <= k < |w| ==> w[k] <= r
  {
    if |w| == 1 then w[0] else var r := MaxOf(w[1..]); if w[0] > r then w[0] else r
  }

  function MinOf(w: seq<real>): (r: real)
    requires w != []
    ensures r in w && forall k :: 0 <= k < |w| ==> r <= w[k]
  {
    if |w| == 1 then w[0] else var r := MinOf(w[1..]); if w[0] < r then w[0] else r
  }

  /** max(|max / 7|, |min / -8|), at least 1e-8. */
  function GroupScale(w: seq<real>): (s: real)
    requires w != []
    ensures s > 0.0
  {
    Larger(Larger(Abs(MaxOf(w) / 7.0), Abs(MinOf(w) / -8.0)), 0.00000001)
  }

  /** The stored code of an element: rounded, clamped to [-8, 7] and biased by 8. */
  function Code(x: real, scale: real): (c: nat)
    requires scale > 0.0
    ensures c <= 15
  {
    Clamp(Round(x / scale), -8, 7) + 8
  }

  function Dequant(code: int, scale: real): real {
    (code - 8) as real * scale
  }

  /** The scale covers the whole group, so no rounded quotient leaves [-8, 7]. */
  lemma ScaleCovers(w: seq<real>, k: nat)
    requires k < |w|
    ensures -8.0 * GroupScale(w) <= w[k] <= 7.0 * GroupScale(w)
  {
    var s, hi, lo := GroupScale(w), MaxOf(w), MinOf(w);
    assert s >= Abs(hi / 7.0) && s >= Abs(lo / -8.0);
    assert 7.0 * (hi / 7.0) == hi && -8.0 * (lo / -8.0) == lo;
  }

  lemma HalfStep(q: real, x: real, s: real, n: int)
    requires s > 0.0 && q * s == x && n as real - 0.5 <= q <= n as real + 0.5
    ensures -(s / 2.0) <= n as real * s - x <= s / 2.0
  {
    var d := n as real - q;
    assert n as real * s - x == d * s;
    assert -0.5 <= d <= 0.5;
    ScaleBound(d, s);
  }

  lemma ScaleBound(d: real, s: real)
    requires s > 0.0 && -0.5 <= d <= 0.5
    ensures -(s / 2.0) <= d * s <= s / 2.0
  {
    var a, b := 0.5 - d, d + 0.5;
    assert a * s >= 0.0;
    assert b * s >= 0.0;
    assert a * s == 0.5 * s - d * s;
    assert b * s == d * s + 0.5 * s;
  }

  /** The clamp changes nothing, and an element comes back within half the scale. */
  lemma GroupQuantised(w: seq<real>, k: nat)
    requires k < |w|
    ensures var s := GroupScale(w);
      && Clamp(Round(w[k] / s), -8, 7) == Round(w[k] / s)
      && Abs(Dequant(Code(w[k], s), s) - w[k]) <= s / 2.0
  {
    hide GroupScale, Round;
    var s := GroupScale(w);
    ScaleCovers(w, k);
    QuotientWithin(w[k], s, -8.0, 7.0);
    RoundWithin(w[k] / s, -8, 7);
    HalfStep(w[k] / s, w[k], s, Round(w[k] / s));
  }

  /** The scale is no larger than the group needs, so for weights within a bound b that is not tiny every
      error is at most b / 14. */
  lemma GroupError(w: seq<real>, k: nat, b: real)
    requires k < |w| && b / 7.0 >= 0.00000001 && forall i :: 0 <= i < |w| ==> Abs(w[i]) <= b
    ensures var s := GroupScale(w); Abs(Dequant(Code(w[k], s), s) - w[k]) <= b / 14.0
  {
    hide Code, Dequant, MaxOf, MinOf;
    GroupQuantised(w, k);
    assert Abs(MaxOf(w)) <= b && Abs(MinOf(w)) <= b;
  }

  // ----- a whole weight matrix, as quantize_to_marlin_int4 does it -----

  /** The [groups, gs, N] view of a [K, N] matrix, permuted to [gs, groups * N]. */
  function Grouped(w: (nat, nat) -> real, gs: nat, cols: nat): (nat, nat) -> real
    requires gs > 0 && cols > 0
  {
    (r: nat, c: nat) => w((c / cols) * gs + r, c % cols)
  }

  /** Back from [gs, groups * N] to [K, N]. */
  function Restored(q: (nat, nat) -> int, gs: nat, cols: nat): (nat, nat) -> int
    requires gs > 0 && cols > 0
  {
    (k: nat, n: nat) => q(k % gs, (k / gs) * cols + n)
  }

  function Column(wg: (nat, nat) -> real, gs: nat, c: nat): (w: seq<real>)
    requires gs > 0
    ensures |w| == gs
  {
    seq(gs, (r: nat) => wg(r, c))
  }

  function ColumnScale(w: (nat, nat) -> real, gs: nat, cols: nat, c: nat): (s: real)
    requires gs > 0 && cols > 0
    ensures s > 0.0
  {
    GroupScale(Column(Grouped(w, gs, cols), gs, c))
  }

  /** The codes of the whole matrix, in its own layout. */
  function QuantisedMatrix(w: (nat, nat) -> real, gs: nat, cols: nat): (nat, nat) -> int
    requires gs > 0 && cols > 0
  {
    Restored((r: nat, c: nat) => Code(Grouped(w, gs, cols)(r, c), ColumnScale(w, gs, cols, c)), gs, cols)
  }

  lemma GroupIndex(k: nat, n: nat, gs: nat, cols: nat)
    requires gs > 0 && n < cols
    ensures ((k / gs) * cols + n) / cols == k / gs && ((k / gs) * cols + n) % cols == n
    ensures (k / gs) * gs + k % gs == k
  {
    DivMod(k / gs, n, cols);
  }

  /** Grouping and restoring cancel, so every element is coded with the scale of its own group and
      column, and an element comes back within half that scale. */
  lemma MatrixQuantised(w: (nat, nat) -> real, gs: nat, cols: nat, k: nat, n: nat)
    requires gs > 0 && n < cols
    ensures var c := (k / gs) * cols + n;
      var code, s := QuantisedMatrix(w, gs, cols)(k, n), ColumnScale(w, gs, cols, c);
      Abs(Dequant(code, s) - w(k, n)) <= s / 2.0
  {
    hide GroupScale, Code, Dequant;
    var c := (k / gs) * cols + n;
    GroupIndex(k, n, gs, cols);
    var col := Column(Grouped(w, gs, cols), gs, c);
    assert col[k % gs] == w(k, n);
    GroupQuantised(col, k % gs);
  }

  // ----- the packed form of quantize_int4 -----

  function RowScale(w: seq<real>): (s: real)
    ensures s > 0.0
  {
    Larger(AbsMax(w) / 7.0, 0.000001)
  }

  /** The group of row n that holds element k. */
  function RowGroup(w: (nat, nat) -> real, group: nat, n: nat, g: nat): seq<real> {
    seq(group, (i: nat) => w(n, g * group + i))
  }

  function RowCode(w: (nat, nat) -> real, group: nat, n: nat, k: nat): (c: nat)
    requires group > 0
    ensures c <= 15
  {
    Code(w(n, k), RowScale(RowGroup(w, group, n, k / group)))
  }

  lemma RowQuantised(w: (nat, nat) -> real, group: nat, n: nat, k: nat)
    requires group > 0
    ensures var s := RowScale(RowGroup(w, group, n, k / group));
      var code := RowCode(w, group, n, k);
      && Clamp(Round(w(n, k) / s), -8, 7) == Round(w(n, k) / s)
      && 1 <= code && Abs(Dequant(code, s) - w(n, k)) <= s / 2.0
  {
    hide Round, RowScale;
    var g := RowGroup(w, group, n, k / group);
    var s := RowScale(g);
    assert (k / group) * group + k % group == k;
    assert g[k % group] == w(n, k);
    RowScaleCovers(g, k % group);
    QuotientWithin(w(n, k), s, -7.0, 7.0);
    RoundWithin(w(n, k) / s, -7, 7);
    HalfStep(w(n, k) / s, w(n, k), s, Round(w(n, k) / s));
  }

  lemma RowError(w: (nat, nat) -> real, group: nat, n: nat, k: nat, b: real)
    requires group > 0 && b / 7.0 >= 0.000001
    requires forall i :: 0 <= i < group ==> Abs(RowGroup(w, group, n, k / group)[i]) <= b
    ensures var s := RowScale(RowGroup(w, group, n, k / group));
      Abs(Dequant(RowCode(w, group, n, k), s) - w(n, k)) <= b / 14.0
  {
    hide RowCode, Dequant, AbsMax;
    RowQuantised(w, group, n, k);
    AbsMaxAtMost(RowGroup(w, group, n, k / group), b);
  }

  lemma RowScaleCovers(w: seq<real>, k: nat)
    requires k < |w|
    ensures -7.0 * RowScale(w) <= w[k] <= 7.0 * RowScale(w)
  {
    assert Abs(w[k]) <= AbsMax(w);
    assert 7.0 * (AbsMax(w) / 7.0) == AbsMax(w);
  }

  // ----- the tiled product on packed weights -----

  /** a times a four-bit matrix stored as bytes [N, K / 2] with scales [N, groups]. */
  datatype W4 = W4(a: (nat, nat) -> real, bytes: (nat, nat) -> nat, scale: (nat, nat) -> real,
                     K: nat, group: nat, groups: nat) {
    /** Every block of K has a scale: with K / group scales a row, K is a multiple of the group. */
    predicate Valid() {
      K % 2 == 0 && group > 0 && group % 2 == 0 && CeilDiv(K, group) <= groups
    }
    /** Weight (n, k) dequantised from its own nibble and group. */
    function Weight(n: nat, k: nat): real
      requires group > 0
    {
      var b := bytes(n, k / 2);
      ((if k % 2 == 0 then Low(b) else High(b)) - 8) as real * scale(n, k / group)
    }
    function Product(m: nat, n: nat): nat -> real
      requires group > 0
    {
      (k: nat) => if k < K then a(m, k) * Weight(n, k) else 0.0
    }
    /** The masked loads of block kb: an activation, and a byte. */
    function LoadA(m: nat, k: nat): real {
      if k < K then a(m, k) else 0.0
    }
    function LoadByte(n: nat, j: nat): nat {
      if j < K / 2 then bytes(n, j) else 0
    }
  }

  /** With K / group scales a row, as quantize_int4 makes them, every block has its scale exactly when the
      group divides K. */
  lemma ScalesCoverIff(K: nat, group: nat)
    requires group > 0
    ensures CeilDiv(K, group) <= K / group <==> K % group == 0
  {
    hide CeilDiv;
    var c, q := CeilDiv(K, group), K / group;
    assert K == q * group + K % group;
    if c <= q {
      MulAtMost(c, q, group);
    }
    if K % group == 0 && c > q {
      MulAtMost(q + 1, c, group);
      Distribute(q, 1, group);
      assert false;
    }
  }

  /** Element i of the interleaved low and high halves of block kb. The load of the scale is not masked
      by the block, so the block must have one. */
  function Interleaved(p: W4, n: nat, kb: nat, i: nat): real
    requires p.Valid() && kb < p.groups
  {
    var b := p.LoadByte(n, kb * (p.group / 2) + i / 2);
    var sc := p.scale(n, kb);
    if i % 2 == 0 then (Low(b) - 8) as real * sc else (High(b) - 8) as real * sc
  }

  function BlockDot(p: W4, m: nat, n: nat, kb: nat): nat -> real
    requires p.Valid() && kb < p.groups
  {
    (i: nat) => p.LoadA(m, kb * p.group + i) * Interleaved(p, n, kb, i)
  }

  lemma InterleaveIndex(kb: nat, i: nat, group: nat)
    requires group > 0 && group % 2 == 0 && i < group
    ensures (kb * group + i) / 2 == kb * (group / 2) + i / 2
    ensures (kb * group + i) % 2 == i % 2
    ensures (kb * group + i) / group == kb
  {
    var h := group / 2;
    assert kb * group == 2 * (kb * h);
    DivMod(kb, i, group);
  }

  lemma InterleavedWeight(p: W4, n: nat, kb: nat, i: nat, k: nat)
    requires p.Valid() && kb < p.groups && i < p.group && k == kb * p.group + i && k < p.K
    ensures Interleaved(p, n, kb, i) == p.Weight(n, k)
  {
    hide Low, High;
    InterleaveIndex(kb, i, p.group);
    assert k / 2 < p.K / 2;
  }

  /** Reading the bytes of a block as low, high, low, high gives back its elements in order. */
  lemma BlockEntry(p: W4, m: nat, n: nat, kb: nat, i: nat)
    requires p.Valid() && i < p.group && kb < p.groups
    ensures BlockDot(p, m, n, kb)(i) == p.Product(m, n)(kb * p.group + i)
  {
    hide Interleaved, W4.Weight;
    var k := kb * p.group + i;
    if k < p.K {
      InterleavedWeight(p, n, kb, i, k);
    } else {
      assert p.LoadA(m, k) == 0.0;
    }
  }

  lemma BlockSum(p: W4, m: nat, n: nat, kb: nat)
    requires p.Valid() && kb < p.groups
    ensures Range(BlockDot(p, m, n, kb), 0, p.group) == Range(p.Product(m, n), kb * p.group, p.group)
  {
    hide BlockDot, W4.Product;
    forall i: nat | i < p.group ensures BlockDot(p, m, n, kb)(i) == p.Product(m, n)(i + kb * p.group) {
      BlockEntry(p, m, n, kb, i);
    }
    RangeShift(p.Product(m, n), BlockDot(p, m, n, kb), 0, kb * p.group, p.group);
  }

  /** One output of the kernel: a dot product per block of K, accumulated, is the plain product with
      the dequantised weights. */
  method W4A16(p: W4, m: nat, n: nat) returns (acc: real)
    requires p.Valid()
    ensures acc == Range(p.Product(m, n), 0, p.K)
  {
    hide Range, BlockDot, W4.Product, CeilDiv;
    acc := 0.0;
    var blocks := CeilDiv(p.K, p.group);
    RangeEmpty(p.Product(m, n));
    for kb := 0 to blocks
      invariant acc == Range(p.Product(m, n), 0, kb * p.group)
    {
      BlockSum(p, m, n, kb);
      RangeSplit(p.Product(m, n), 0, kb * p.group, p.group);
      assert kb * p.group + p.group == (kb + 1) * p.group;
      acc := acc + Range(BlockDot(p, m, n, kb), 0, p.group);
    }
    var total := blocks * p.group;
    RangeSplit(p.Product(m, n), 0, p.K, total - p.K);
    PastTheEnd(p, m, n, total - p.K);
  }

  lemma PastTheEnd(p: W4, m: nat, n: nat, d: nat)
    requires p.Valid()
    ensures Range(p.Product(m, n), p.K, d) == 0.0
  {
    RangeZero(p.Product(m, n), p.K, d);
  }

  lemma WeightFromCode(p: W4, n: nat, k: nat, code: nat)
    requires p.group > 0 && (if k % 2 == 0 then Low(p.bytes(n, k / 2)) else High(p.bytes(n, k / 2))) == code
    ensures p.Weight(n, k) == Dequant(code, p.scale(n, k / p.group))
  {
    hide Low, High;
  }

  lemma NibbleOfElement(w: (nat, nat) -> real, group: nat, n: nat, k: nat, b: nat)
    requires group > 0 && b == Byte(RowCode(w, group, n, 2 * (k / 2)), RowCode(w, group, n, 2 * (k / 2) + 1))
    ensures (if k % 2 == 0 then Low(b) else High(b)) == RowCode(w, group, n, k)
  {
    hide RowCode, Byte, Low, High;
    ByteRoundTrip(RowCode(w, group, n, 2 * (k / 2)), RowCode(w, group, n, 2 * (k / 2) + 1));
  }

  /** quantize_int4: the packed bytes and the scales of a weight matrix. */
  function PackInt4(a: (nat, nat) -> real, w: (nat, nat) -> real, K: nat, group: nat): (p: W4)
    requires group > 0
    ensures p.group == group && p.groups == K / group
  {
    W4(a, (n: nat, j: nat) => Byte(RowCode(w, group, n, 2 * j), RowCode(w, group, n, 2 * j + 1)),
       (n: nat, g: nat) => RowScale(RowGroup(w, group, n, g)), K, group, K / group)
  }

  lemma PackedNibble(a: (nat, nat) -> real, w: (nat, nat) -> real, K: nat, group: nat, n: nat, k: nat)
    requires group > 0
    ensures PackInt4(a, w, K, group).Weight(n, k)
         == Dequant(RowCode(w, group, n, k), RowScale(RowGroup(w, group, n, k / group)))
  {
    hide RowScale, RowGroup, RowCode, Byte, Low, High, Dequant;
    var p := PackInt4(a, w, K, group);
    NibbleOfElement(w, group, n, k, p.bytes(n, k / 2));
    WeightFromCode(p, n, k, RowCode(w, group, n, k));
  }

  /** The kernel multiplies packed weights with values within half a scale of the original weights. */
  lemma PackedWeight(a: (nat, nat) -> real, w: (nat, nat) -> real, K: nat, group: nat, n: nat, k: nat)
    requires group > 0
    ensures var s := RowScale(RowGroup(w, group, n, k / group));
      Abs(PackInt4(a, w, K, group).Weight(n, k) - w(n, k)) <= s / 2.0
  {
    hide *;
    RowQuantised(w, group, n, k);
    PackedNibble(a, w, K, group, n, k);
  }
}
