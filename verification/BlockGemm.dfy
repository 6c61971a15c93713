/** The tiled matrix products (src/torchinferno/kernels/deepseek_v4_tilelang_definitions.py and
  scripts/bench_triton_int4.py), in exact arithmetic.

  Loads outside a matrix give zero and stores outside are dropped, as the kernels' masked copies do. */
module BlockGemm {
  import opened IndexSums
  import opened IntMath

  datatype Matrix = Matrix(rows: nat, cols: nat, at: (nat, nat) -> real) {
    function Load(i: nat, j: nat): real {
      if i < rows && j < cols then at(i, j) else 0.0
    }
  }

  /** A tile's partial product times both its scales. */
  function Scaled(x: real, s: real, t: real): real {
    x * (s * t)
  }

  const BLOCK_M := 32
  const BLOCK_N := 128

  // ----- FP8 times FP8: one scale per 128 columns of A, one per 128 by 128 block of B -----

  datatype Fp8 = Fp8(a: Matrix, b: Matrix, scaleA: (nat, nat) -> real, scaleB: (nat, nat) -> real) {
    predicate Valid() {
      a.cols == b.cols
    }
    function K(): nat {
      a.cols
    }
    /** Product of entries, unscaled. */
    function Raw(m: nat, n: nat): nat -> real {
      (k: nat) => a.Load(m, k) * b.Load(n, k)
    }
    /** Product of the dequantised entries, each with the scale of its own group. */
    function Dequantised(m: nat, n: nat): nat -> real {
      (k: nat) => (a.at(m, k) * scaleA(m, k / 128)) * (b.at(n, k) * scaleB(n / 128, k / 128))
    }
    /** The same inside the matrices, and nothing outside. */
    function Padded(m: nat, n: nat): nat -> real {
      (k: nat) => if m < a.rows && n < b.rows && k < a.cols then Dequantised(m, n)(k) else 0.0
    }
    /** Output (m, n) of the product of the dequantised matrices. */
    function Total(m: nat, n: nat): real {
      if m < a.rows && n < b.rows then Range(Dequantised(m, n), 0, a.cols) else 0.0
    }
    /** The accumulator of one output after t tiles. */
    function Acc(m: nat, n: nat, t: nat): real {
      if t == 0 then 0.0
      else Acc(m, n, t - 1) + Scaled(Range(Raw(m, n), (t - 1) * 128, 128), scaleA(m, t - 1), scaleB(n / 128, t - 1))
    }
  }

  lemma Regroup(a: real, b: real, s: real, t: real)
    ensures (a * s) * (b * t) == (s * t) * (a * b)
  {
    assert (a * s) * (b * t) == a * (s * (b * t));
    assert s * (b * t) == (s * t) * b;
    assert a * ((s * t) * b) == (s * t) * (a * b);
  }

  lemma NoProduct(x: real, y: real, s: real)
    requires x == 0.0 || y == 0.0
    ensures s * (x * y) == 0.0
  {
  }

  lemma Fp8Entry(p: Fp8, m: nat, n: nat, k: nat)
    requires p.Valid()
    ensures p.Padded(m, n)(k) == (p.scaleA(m, k / 128) * p.scaleB(n / 128, k / 128)) * p.Raw(m, n)(k)
  {
    if m < p.a.rows && n < p.b.rows && k < p.a.cols {
      var x, y, u, v := p.a.at(m, k), p.b.at(n, k), p.scaleA(m, k / 128), p.scaleB(n / 128, k / 128);
      assert p.a.Load(m, k) == x && p.b.Load(n, k) == y;
      assert p.Dequantised(m, n)(k) == (x * u) * (y * v);
      Regroup(x, y, u, v);
    } else {
      NoProduct(p.a.Load(m, k), p.b.Load(n, k), p.scaleA(m, k / 128) * p.scaleB(n / 128, k / 128));
    }
  }

  lemma Fp8Tile(p: Fp8, m: nat, n: nat, t: nat)
    requires p.Valid()
    ensures Scaled(Range(p.Raw(m, n), t * 128, 128), p.scaleA(m, t), p.scaleB(n / 128, t))
         == Range(p.Padded(m, n), t * 128, 128)
  {
    hide Fp8.Padded, Fp8.Raw, Range;
    var c := p.scaleA(m, t) * p.scaleB(n / 128, t);
    forall k: nat | t * 128 <= k < t * 128 + 128 ensures p.Padded(m, n)(k) == c * p.Raw(m, n)(k) {
      assert k / 128 == t;
      Fp8Entry(p, m, n, k);
    }
    RangeScale(p.Raw(m, n), p.Padded(m, n), c, t * 128, 128);
  }

  lemma {:induction false} Fp8Accumulates(p: Fp8, m: nat, n: nat, t: nat)
    requires p.Valid()
    ensures p.Acc(m, n, t) == Range(p.Padded(m, n), 0, t * 128)
  {
    hide Fp8.Padded, Fp8.Raw, Range, Scaled;
    RangeEmpty(p.Padded(m, n));
    if t > 0 {
      Fp8Accumulates(p, m, n, t - 1);
      Fp8Tile(p, m, n, t - 1);
      RangeSplit(p.Padded(m, n), 0, (t - 1) * 128, 128);
    }
  }

  /** Accumulating scaled tile products gives the product of the dequantised matrices, for every K;
      the last tile may be partial. */
  lemma Fp8IsDequantised(p: Fp8, m: nat, n: nat)
    requires p.Valid()
    ensures p.Acc(m, n, CeilDiv(p.K(), 128)) == p.Total(m, n)
  {
    hide Range;
    var t := CeilDiv(p.K(), 128);
    Fp8Accumulates(p, m, n, t);
    RangeSplit(p.Padded(m, n), 0, p.K(), t * 128 - p.K());
    RangeZero(p.Padded(m, n), p.K(), t * 128 - p.K());
    if m < p.a.rows && n < p.b.rows {
      RangeSame(p.Dequantised(m, n), p.Padded(m, n), 0, p.K());
    } else {
      RangeZero(p.Padded(m, n), 0, p.K());
    }
  }

  // ----- FP8 times FP4: A has one scale per 128 columns, B one per 32 columns of each row -----

  datatype Fp4 = Fp4(a: Matrix, b: Matrix, scaleA: (nat, nat) -> real, scaleB: (nat, nat) -> real) {
    predicate Valid() {
      a.cols == b.cols
    }
    function K(): nat {
      a.cols
    }
    function Raw(m: nat, n: nat): nat -> real {
      (k: nat) => a.Load(m, k) * b.Load(n, k)
    }
    /** Product of the dequantised entries, each with the scale of its own group. */
    function Dequantised(m: nat, n: nat): nat -> real {
      (k: nat) => (a.at(m, k) * scaleA(m, k / 128)) * (b.at(n, k) * scaleB(n, k / 32))
    }
    /** The same inside the matrices, and nothing outside. */
    function Padded(m: nat, n: nat): nat -> real {
      (k: nat) => if m < a.rows && n < b.rows && k < a.cols then Dequantised(m, n)(k) else 0.0
    }
    /** Output (m, n) of the product of the dequantised matrices. */
    function Total(m: nat, n: nat): real {
      if m < a.rows && n < b.rows then Range(Dequantised(m, n), 0, a.cols) else 0.0
    }
    /** Tiles of 32; the scale of A is shared by four of them. */
    function Acc(m: nat, n: nat, t: nat): real {
      if t == 0 then 0.0
      else Acc(m, n, t - 1) + Scaled(Range(Raw(m, n), (t - 1) * 32, 32), scaleA(m, (t - 1) / 4), scaleB(n, t - 1))
    }
  }

  lemma Fp4Entry(p: Fp4, m: nat, n: nat, k: nat)
    requires p.Valid()
    ensures p.Padded(m, n)(k) == (p.scaleA(m, k / 128) * p.scaleB(n, k / 32)) * p.Raw(m, n)(k)
  {
    if m < p.a.rows && n < p.b.rows && k < p.a.cols {
      var x, y, u, v := p.a.at(m, k), p.b.at(n, k), p.scaleA(m, k / 128), p.scaleB(n, k / 32);
      assert p.a.Load(m, k) == x && p.b.Load(n, k) == y;
      assert p.Dequantised(m, n)(k) == (x * u) * (y * v);
      Regroup(x, y, u, v);
    } else {
      NoProduct(p.a.Load(m, k), p.b.Load(n, k), p.scaleA(m, k / 128) * p.scaleB(n, k / 32));
    }
  }

  lemma Fp4Tile(p: Fp4, m: nat, n: nat, t: nat)
    requires p.Valid()
    ensures Scaled(Range(p.Raw(m, n), t * 32, 32), p.scaleA(m, t / 4), p.scaleB(n, t))
         == Range(p.Padded(m, n), t * 32, 32)
  {
    hide Fp4.Padded, Fp4.Raw, Range;
    var c := p.scaleA(m, t / 4) * p.scaleB(n, t);
    forall k: nat | t * 32 <= k < t * 32 + 32 ensures p.Padded(m, n)(k) == c * p.Raw(m, n)(k) {
      assert k / 32 == t && k / 128 == t / 4;
      Fp4Entry(p, m, n, k);
    }
    RangeScale(p.Raw(m, n), p.Padded(m, n), c, t * 32, 32);
  }

  lemma {:induction false} Fp4Accumulates(p: Fp4, m: nat, n: nat, t: nat)
    requires p.Valid()
    ensures p.Acc(m, n, t) == Range(p.Padded(m, n), 0, t * 32)
  {
    hide Fp4.Padded, Fp4.Raw, Range, Scaled;
    RangeEmpty(p.Padded(m, n));
    if t > 0 {
      Fp4Accumulates(p, m, n, t - 1);
      Fp4Tile(p, m, n, t - 1);
      RangeSplit(p.Padded(m, n), 0, (t - 1) * 32, 32);
    }
  }

  lemma Fp4IsDequantised(p: Fp4, m: nat, n: nat)
    requires p.Valid()
    ensures p.Acc(m, n, CeilDiv(p.K(), 32)) == p.Total(m, n)
  {
    hide Range;
    var t := CeilDiv(p.K(), 32);
    Fp4Accumulates(p, m, n, t);
    RangeSplit(p.Padded(m, n), 0, p.K(), t * 32 - p.K());
    RangeZero(p.Padded(m, n), p.K(), t * 32 - p.K());
    if m < p.a.rows && n < p.b.rows {
      RangeSame(p.Dequantised(m, n), p.Padded(m, n), 0, p.K());
    } else {
      RangeZero(p.Padded(m, n), 0, p.K());
    }
  }

  // ----- the fragments of one thread block -----

  function Row(bm: nat, i: nat): nat {
    bm * BLOCK_M + i
  }

  function Col(bn: nat, j: nat): nat {
    bn * BLOCK_N + j
  }

  predicate Fragment(c: array2<real>) {
    c.Length0 == BLOCK_M && c.Length1 == BLOCK_N
  }

  method NewFragment() returns (c: array2<real>)
    ensures fresh(c) && Fragment(c)
    ensures forall i, j :: 0 <= i < BLOCK_M && 0 <= j < BLOCK_N ==> c[i, j] == 0.0
  {
    c := new real[BLOCK_M, BLOCK_N]((_, _) => 0.0);
  }

  method Clear(c: array2<real>)
    requires Fragment(c)
    modifies c
    ensures forall i, j :: 0 <= i < BLOCK_M && 0 <= j < BLOCK_N ==> c[i, j] == 0.0
  {
    forall i, j | 0 <= i < BLOCK_M && 0 <= j < BLOCK_N {
      c[i, j] := 0.0;
    }
  }

  /** The tensor-core product: adds dot(i, j) to every element. */
  method Gemm(c: array2<real>, dot: (nat, nat) -> real)
    requires Fragment(c)
    modifies c
    ensures forall i, j :: 0 <= i < BLOCK_M && 0 <= j < BLOCK_N ==> c[i, j] == old(c[i, j]) + dot(i, j)
  {
    forall i, j | 0 <= i < BLOCK_M && 0 <= j < BLOCK_N {
      c[i, j] := c[i, j] + dot(i, j);
    }
  }

  /** Adds the scaled partial products. */
  method AddScaled(acc: array2<real>, local: array2<real>, s: nat -> real, t: nat -> real)
    requires Fragment(acc) && Fragment(local) && acc != local
    modifies acc
    ensures forall i, j :: 0 <= i < BLOCK_M && 0 <= j < BLOCK_N ==>
      acc[i, j] == old(acc[i, j]) + Scaled(local[i, j], s(i), t(j))
  {
    hide Scaled;
    forall i, j | 0 <= i < BLOCK_M && 0 <= j < BLOCK_N {
      acc[i, j] := acc[i, j] + Scaled(local[i, j], s(i), t(j));
    }
  }

  /** One thread block: the accumulators of its 32 by 128 outputs. */
  method Fp8Block(p: Fp8, bm: nat, bn: nat) returns (acc: array2<real>)
    requires p.Valid()
    ensures fresh(acc) && Fragment(acc)
    ensures forall i, j :: 0 <= i < BLOCK_M && 0 <= j < BLOCK_N ==>
      acc[i, j] == p.Total(Row(bm, i), Col(bn, j))
  {
    hide Range, Fp8.Total, Fp8.Raw, Scaled, Row, Col;
    var local := NewFragment();
    acc := NewFragment();
    for k := 0 to CeilDiv(p.K(), 128)
      invariant forall i, j :: 0 <= i < BLOCK_M && 0 <= j < BLOCK_N ==> local[i, j] == 0.0
      invariant forall i, j :: 0 <= i < BLOCK_M && 0 <= j < BLOCK_N ==>
        acc[i, j] == p.Acc(Row(bm, i), Col(bn, j), k)
    {
      var scaleB := p.scaleB(bn * BLOCK_N / 128, k);
      Gemm(local, (i: nat, j: nat) => Range(p.Raw(Row(bm, i), Col(bn, j)), k * 128, 128));
      AddScaled(acc, local, (i: nat) => p.scaleA(Row(bm, i), k), (j: nat) => scaleB);
      Clear(local);
      ColumnBlock(bn);
    }
    forall i, j | 0 <= i < BLOCK_M && 0 <= j < BLOCK_N
      ensures acc[i, j] == p.Total(Row(bm, i), Col(bn, j))
    {
      Fp8IsDequantised(p, Row(bm, i), Col(bn, j));
    }
  }

  /** All columns of a thread block share one scale of B. */
  lemma ColumnBlock(bn: nat)
    ensures forall j :: 0 <= j < BLOCK_N ==> Col(bn, j) / 128 == bn * BLOCK_N / 128
  {
  }

  method Fp4Block(p: Fp4, bm: nat, bn: nat) returns (acc: array2<real>)
    requires p.Valid()
    ensures fresh(acc) && Fragment(acc)
    ensures forall i, j :: 0 <= i < BLOCK_M && 0 <= j < BLOCK_N ==>
      acc[i, j] == p.Total(Row(bm, i), Col(bn, j))
  {
    hide Range, Fp4.Total, Fp4.Raw, Scaled, Row, Col;
    var local := NewFragment();
    acc := NewFragment();
    for k := 0 to CeilDiv(p.K(), 32)
      invariant forall i, j :: 0 <= i < BLOCK_M && 0 <= j < BLOCK_N ==> local[i, j] == 0.0
      invariant forall i, j :: 0 <= i < BLOCK_M && 0 <= j < BLOCK_N ==>
        acc[i, j] == p.Acc(Row(bm, i), Col(bn, j), k)
    {
      Gemm(local, (i: nat, j: nat) => Range(p.Raw(Row(bm, i), Col(bn, j)), k * 32, 32));
      AddScaled(acc, local, (i: nat) => p.scaleA(Row(bm, i), k / 4), (j: nat) => p.scaleB(Col(bn, j), k));
      Clear(local);
    }
    forall i, j | 0 <= i < BLOCK_M && 0 <= j < BLOCK_N
      ensures acc[i, j] == p.Total(Row(bm, i), Col(bn, j))
    {
      Fp4IsDequantised(p, Row(bm, i), Col(bn, j));
    }
  }

  // ----- the grid of thread blocks -----

  datatype Product = Eight(fp8: Fp8) | Four(fp4: Fp4) {
    predicate Valid() {
      match this case Eight(p) => p.Valid() case Four(p) => p.Valid()
    }
    function Rows(): nat {
      match this case Eight(p) => p.a.rows case Four(p) => p.a.rows
    }
    function Cols(): nat {
      match this case Eight(p) => p.b.rows case Four(p) => p.b.rows
    }
    /** The product of the dequantised matrices at (m, n). */
    function Value(m: nat, n: nat): real {
      match this
      case Eight(p) => p.Total(m, n)
      case Four(p) => p.Total(m, n)
    }
  }

  method Block(p: Product, bm: nat, bn: nat) returns (acc: array2<real>)
    requires p.Valid()
    ensures fresh(acc) && Fragment(acc)
    ensures forall i, j :: 0 <= i < BLOCK_M && 0 <= j < BLOCK_N ==> acc[i, j] == p.Value(Row(bm, i), Col(bn, j))
  {
    hide Row, Col, Fp8.Total, Fp4.Total;
    match p
    case Eight(q) => acc := Fp8Block(q, bm, bn);
    case Four(q) => acc := Fp4Block(q, bm, bn);
  }

  lemma RowOf(m: nat, bm: nat)
    ensures m / BLOCK_M == bm <==> bm * BLOCK_M <= m < bm * BLOCK_M + BLOCK_M
    ensures m / BLOCK_M == bm ==> Row(bm, m % BLOCK_M) == m
  {
  }

  lemma ColOf(n: nat, bn: nat)
    ensures n / BLOCK_N == bn <==> bn * BLOCK_N <= n < bn * BLOCK_N + BLOCK_N
    ensures n / BLOCK_N == bn ==> Col(bn, n % BLOCK_N) == n
  {
  }

  /** Stores a block; what lies outside the output is dropped. */
  method Store(c: array2<real>, acc: array2<real>, bm: nat, bn: nat)
    requires Fragment(acc) && c != acc
    modifies c
    ensures forall m, n :: 0 <= m < c.Length0 && 0 <= n < c.Length1 ==>
      c[m, n] == if m / BLOCK_M == bm && n / BLOCK_N == bn then acc[m % BLOCK_M, n % BLOCK_N] else old(c[m, n])
  {
    forall m, n | 0 <= m < c.Length0 && 0 <= n < c.Length1 && m / BLOCK_M == bm && n / BLOCK_N == bn {
      c[m, n] := acc[m % BLOCK_M, n % BLOCK_N];
    }
  }

  predicate Stored(m: nat, n: nat, bm: nat, bn: nat) {
    n / BLOCK_N < bn || (n / BLOCK_N == bn && m / BLOCK_M < bm)
  }

  /** The whole kernel: every output is the product of the dequantised matrices. */
  method BlockScaledGemm(p: Product) returns (c: array2<real>)
    requires p.Valid()
    ensures p.Eight? ==> c.Length0 == p.fp8.a.rows && c.Length1 == p.fp8.b.rows
    ensures p.Four? ==> c.Length0 == p.fp4.a.rows && c.Length1 == p.fp4.b.rows
    ensures p.Eight? ==> forall m, n :: 0 <= m < c.Length0 && 0 <= n < c.Length1 ==>
      c[m, n] == Range(p.fp8.Dequantised(m, n), 0, p.fp8.a.cols)
    ensures p.Four? ==> forall m, n :: 0 <= m < c.Length0 && 0 <= n < c.Length1 ==>
      c[m, n] == Range(p.fp4.Dequantised(m, n), 0, p.fp4.a.cols)
  {
    c := Grid(p);
  }

  /** The grid of blocks, each stored once. */
  method Grid(p: Product) returns (c: array2<real>)
    requires p.Valid()
    ensures c.Length0 == p.Rows() && c.Length1 == p.Cols()
    ensures forall m, n :: 0 <= m < p.Rows() && 0 <= n < p.Cols() ==> c[m, n] == p.Value(m, n)
  {
    hide Product.Value, Row, Col;
    c := new real[p.Rows(), p.Cols()]((_, _) => 0.0);
    for bn := 0 to CeilDiv(p.Cols(), BLOCK_N)
      invariant forall m: nat, n: nat :: m < p.Rows() && n < p.Cols() && n / BLOCK_N < bn ==> c[m, n] == p.Value(m, n)
    {
      for bm := 0 to CeilDiv(p.Rows(), BLOCK_M)
        invariant forall m: nat, n: nat :: m < p.Rows() && n < p.Cols() && Stored(m, n, bm, bn) ==> c[m, n] == p.Value(m, n)
      {
        var acc := Block(p, bm, bn);
        Store(c, acc, bm, bn);
        forall m: nat, n: nat | m < p.Rows() && n < p.Cols() && Stored(m, n, bm + 1, bn)
          ensures c[m, n] == p.Value(m, n)
        {
          RowOf(m, bm);
          ColOf(n, bn);
        }
      }
      forall m: nat, n: nat | m < p.Rows() && n < p.Cols() && n / BLOCK_N < bn + 1
        ensures c[m, n] == p.Value(m, n)
      {
        assert m / BLOCK_M < CeilDiv(p.Rows(), BLOCK_M);
        assert Stored(m, n, CeilDiv(p.Rows(), BLOCK_M), bn);
      }
    }
    forall m, n | 0 <= m < p.Rows() && 0 <= n < p.Cols() ensures c[m, n] == p.Value(m, n) {
      assert n / BLOCK_N < CeilDiv(p.Cols(), BLOCK_N);
    }
  }
}
