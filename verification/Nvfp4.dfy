/** The NVFP4 reference quantiser (src/torchinferno/kernels/nvfp4.py) on finite inputs, in exact
  arithmetic: a flattened tensor, padded to whole blocks, one scale per block, two codes per byte. */
module Nvfp4 {
  import opened RealMath
  import opened Nibbles
  import opened IntMath

  const CODEBOOK: seq<real> :=
    [-6.0, -4.0, -3.0, -2.0, -1.5, -1.0, -0.5, 0.0, 0.0, 0.5, 1.0, 1.5, 2.0, 3.0, 4.0, 6.0]

  type Code = Nibble

  function CodeValue(c: Code): real {
    CODEBOOK[c]
  }

  const MAX_CODE := 6.0
  const MIN_SCALE := 0.000000000001

  // ----- one element -----

  /** c is a nearest code of v; on a tie there are several, and torch.argmin may return any of them. */
  ghost predicate IsNearest(v: real, c: Code) {
    forall d: Code :: Abs(v - CodeValue(c)) <= Abs(v - CodeValue(d))
  }

  /** The first nearest code among the first n. */
  function ArgMin(v: real, n: nat): (c: nat)
    requires 0 < n <= 16
    ensures c < n && forall d: nat :: d < n ==> Abs(v - CodeValue(c)) <= Abs(v - CodeValue(d))
  {
    if n == 1 then 0
    else
      var c := ArgMin(v, n - 1);
      if Abs(v - CodeValue(n - 1)) < Abs(v - CodeValue(c)) then n - 1 else c
  }

  function Nearest(v: real): (c: Code)
    ensures IsNearest(v, c)
  {
    ArgMin(v, 16)
  }

  /** A codebook value is its own nearest value. */
  lemma NearestExact(v: real, c: Code, d: Code)
    requires v == CodeValue(d) && IsNearest(v, c)
    ensures CodeValue(c) == v
  {
  }

  lemma NearestWithinOne(v: real, c: Code)
    requires -6.0 <= v <= 6.0 && IsNearest(v, c)
    ensures Abs(v - CodeValue(c)) <= 1.0
  {
    var d: Code := if v < -5.0 then 0 else if v < -3.5 then 1 else if v < -2.5 then 2 else if v < -1.75 then 3
      else if v < -1.25 then 4 else if v < -0.75 then 5 else if v < -0.25 then 6 else if v < 0.25 then 7
      else if v < 0.75 then 9 else if v < 1.25 then 10 else if v < 1.75 then 11 else if v < 2.5 then 12
      else if v < 3.5 then 13 else if v < 5.0 then 14 else 15;
    assert Abs(v - CodeValue(d)) <= 1.0;
  }

  /** The magnitude with the given three bits of E2M1: two of exponent, with bias 1, and one of mantissa. */
  function Magnitude(g: nat): real
    requires g < 8
  {
    var exponent, mantissa := g / 2, (g % 2) as real;
    if exponent == 0 then mantissa / 2.0
    else (1.0 + mantissa / 2.0) * (if exponent == 1 then 1.0 else if exponent == 2 then 2.0 else 4.0)
  }

  /** The codebook is the E2M1 values in order: the negative magnitudes downwards, then the positive. */
  lemma CodebookIs(c: Code)
    ensures CodeValue(c) == if c < 8 then -Magnitude(7 - c) else Magnitude(c - 8)
  {
    assert CODEBOOK[c] == if c < 8 then -Magnitude(7 - c) else Magnitude(c - 8);
  }

  lemma CodebookBounded(c: Code)
    ensures -6.0 <= CodeValue(c) <= 6.0
  {
  }

  // ----- one block -----

  function Scale(b: seq<real>): (s: real)
    ensures s > 0.0
  {
    Larger(AbsMax(b) / MAX_CODE, MIN_SCALE)
  }

  function Codes(b: seq<real>, s: real): (c: seq<Code>)
    requires s > 0.0
    ensures |c| == |b| && forall i :: 0 <= i < |b| ==> IsNearest(b[i] / s, c[i])
  {
    seq(|b|, i requires 0 <= i < |b| => Nearest(b[i] / s))
  }

  /** s times the code values. */
  function Values(c: seq<Code>, s: real): (v: seq<real>)
    ensures |v| == |c| && forall i :: 0 <= i < |c| ==> v[i] == CodeValue(c[i]) * s
  {
    seq(|c|, i requires 0 <= i < |c| => CodeValue(c[i]) * s)
  }

  /** What a block comes back as. */
  function Recovered(b: seq<real>): (v: seq<real>)
    ensures |v| == |b|
  {
    Values(Codes(b, Scale(b)), Scale(b))
  }

  lemma QuotientBound(x: real, s: real, y: real)
    requires s > 0.0 && y == 6.0 * s && -y <= x <= y
    ensures -6.0 <= x / s <= 6.0 && (x == y ==> x / s == 6.0) && (x == -y ==> x / s == -6.0)
  {
    var q := x / s;
    assert q * s == x;
    FactorBound(q, 6.0, s, x, y);
    FactorBound(-6.0, q, s, -y, x);
    FactorSame(q, 6.0, s, x, y);
    FactorSame(q, -6.0, s, x, -y);
  }

  lemma FactorSame(a: real, b: real, s: real, x: real, y: real)
    requires s > 0.0 && x == a * s && y == b * s
    ensures x == y ==> a == b
  {
    if x == y {
      FactorBound(a, b, s, x, y);
      FactorBound(b, a, s, y, x);
    }
  }

  lemma ScaleCovers(b: seq<real>, i: nat)
    requires i < |b|
    ensures -6.0 * Scale(b) <= b[i] <= 6.0 * Scale(b)
  {
    assert Abs(b[i]) <= AbsMax(b);
    assert 6.0 * (AbsMax(b) / MAX_CODE) == AbsMax(b);
  }

  /** Every element comes back within one block scale, whichever nearest code is taken. */
  lemma ElementError(b: seq<real>, i: nat, c: Code)
    requires i < |b| && IsNearest(b[i] / Scale(b), c)
    ensures Abs(CodeValue(c) * Scale(b) - b[i]) <= Scale(b)
  {
    hide Scale, CodeValue, IsNearest;
    var s := Scale(b);
    var v := b[i] / s;
    ScaleCovers(b, i);
    QuotientBound(b[i], s, 6.0 * s);
    NearestWithinOne(v, c);
    ErrorScaled(CodeValue(c), v, s, b[i], CodeValue(c) * s);
  }

  lemma ErrorScaled(k: real, v: real, s: real, x: real, y: real)
    requires s > 0.0 && x == v * s && y == k * s && -1.0 <= v - k <= 1.0
    ensures -s <= y - x <= s
  {
    var d := k - v;
    assert d * s == y - x;
    FactorAtMost(d, 1.0, s, y - x);
    FactorAtMost(-d, 1.0, s, x - y);
  }

  lemma FactorAtMost(d: real, m: real, s: real, y: real)
    requires s > 0.0 && d <= m && y == d * s
    ensures y <= m * s
  {
    var e := m - d;
    assert e * s >= 0.0;
    assert e * s == m * s - y;
  }

  /** Quantising what came back gives the same scale: either an element sits at six times the scale and
      keeps its place, or the scale is the smallest allowed and stays so. */
  lemma SameScale(b: seq<real>)
    ensures Scale(Recovered(b)) == Scale(b)
  {
    var v := Recovered(b);
    hide Scale, Codes, Values, CodeValue, IsNearest, AbsMax, Nearest;
    var s, c := Scale(b), Codes(b, Scale(b));
    forall i | 0 <= i < |v| ensures Abs(v[i]) <= 6.0 * s {
      CodebookBounded(c[i]);
      FactorAtMost(CodeValue(c[i]), 6.0, s, v[i]);
      FactorAtMost(-CodeValue(c[i]), 6.0, s, -v[i]);
    }
    AbsMaxAtMost(v, 6.0 * s);
    ScaleSmall(b);
    if AbsMax(b) == 6.0 * s && b != [] {
      var i :| 0 <= i < |b| && Abs(b[i]) == AbsMax(b);
      QuotientBound(b[i], s, 6.0 * s);
      EndCode(b[i] / s, c[i]);
      assert Abs(v[i]) == 6.0 * s;
      ScaleOf(v, s);
    } else {
      ScaleOf(v, s);
    }
  }

  lemma EndCode(v: real, c: Code)
    requires (v == 6.0 || v == -6.0) && IsNearest(v, c)
    ensures CodeValue(c) == v
  {
    NearestExact(v, c, if v == 6.0 then 15 else 0);
  }

  lemma ScaleSmall(b: seq<real>)
    ensures AbsMax(b) == 6.0 * Scale(b) || Scale(b) == MIN_SCALE
    ensures Scale(b) >= MIN_SCALE && AbsMax(b) <= 6.0 * Scale(b)
  {
  }

  lemma ScaleOf(v: seq<real>, s: real)
    requires s >= MIN_SCALE && AbsMax(v) <= 6.0 * s
    requires AbsMax(v) == 6.0 * s || s == MIN_SCALE
    ensures Scale(v) == s
  {
    assert AbsMax(v) / MAX_CODE <= s;
  }

  // ----- a whole tensor -----

  /** Padded with zeros to whole blocks. */
  function Pad(flat: seq<real>, block: nat): (p: seq<real>)
    requires block > 0
    ensures |p| == RoundUp(|flat|, block) && p[..|flat|] == flat
  {
    flat + seq(RoundUp(|flat|, block) - |flat|, _ => 0.0)
  }

  predicate Whole(n: nat, block: nat) {
    block > 0 && n % block == 0
  }

  lemma WholeRest(n: nat, block: nat)
    requires Whole(n, block) && n > 0
    ensures n >= block && Whole(n - block, block)
  {
    var q := n / block;
    assert n == q * block;
    if q > 0 {
      Distribute(q - 1, 1, block);
      DivMod(q - 1, 0, block);
    }
  }

  function Scales(p: seq<real>, block: nat): (s: seq<real>)
    requires Whole(|p|, block)
    decreases |p|
  {
    if p == [] then []
    else WholeRest(|p|, block); [Scale(p[..block])] + Scales(p[block..], block)
  }

  function AllCodes(p: seq<real>, block: nat): (c: seq<Code>)
    requires Whole(|p|, block)
    ensures |c| == |p|
    decreases |p|
  {
    if p == [] then []
    else WholeRest(|p|, block); Codes(p[..block], Scale(p[..block])) + AllCodes(p[block..], block)
  }

  /** Codebook values times the scale of their block. */
  function Decode(c: seq<Code>, scales: seq<real>, block: nat): (v: seq<real>)
    requires Whole(|c|, block) && |c| == |scales| * block
    ensures |v| == |c|
    decreases |c|
  {
    if c == [] then []
    else
      WholeRest(|c|, block);
      Distribute(|scales| - 1, 1, block);
      Values(c[..block], scales[0]) + Decode(c[block..], scales[1..], block)
  }

  // ----- two codes to a byte -----

  /** The buffer of codes, its even slots filled from the low nibbles and its odd ones from the high. */
  method UnpackInto(packed: seq<nat>) returns (codes: array<Code>)
    ensures codes[..] == Unpack(packed)
  {
    hide Low, High, Unpack;
    codes := new Code[2 * |packed|](_ => 0);
    for i := 0 to |packed|
      invariant forall k :: 0 <= k < i ==> codes[2 * k] == Low(packed[k])
    {
      codes[2 * i] := Low(packed[i]);
    }
    for i := 0 to |packed|
      invariant forall k :: 0 <= k < |packed| ==> codes[2 * k] == Low(packed[k])
      invariant forall k :: 0 <= k < i ==> codes[2 * k + 1] == High(packed[k])
    {
      codes[2 * i + 1] := High(packed[i]);
    }
    forall i | 0 <= i < codes.Length ensures codes[i] == Unpack(packed)[i] {
      var k := i / 2;
      UnpackAt(packed, k);
      assert i == 2 * k || i == 2 * k + 1;
      assert codes[2 * k] == Low(packed[k]) && codes[2 * k + 1] == High(packed[k]);
    }
  }

  // ----- quantise and dequantise -----

  datatype Tensor = Tensor(packed: seq<nat>, scale: seq<real>, numel: nat, block: nat)
  datatype Quantised = Ok(tensor: Tensor) | BlockSizeNotPositive

  function Even(c: seq<Code>): (e: seq<Code>)
    ensures |e| % 2 == 0 && c <= e && |e| <= |c| + 1
  {
    if |c| % 2 == 0 then c else c + [0]
  }

  function Quantise(flat: seq<real>, block: int): Quantised {
    if block < 1 then BlockSizeNotPositive
    else
      var p := Pad(flat, block);
      Ok(Tensor(PackPairs(Even(AllCodes(p, block))), Scales(p, block), |flat|, block))
  }

  /** A tensor whose parts have the sizes its shape and block size call for. */
  ghost predicate Sized(t: Tensor) {
    t.block > 0 && var n := RoundUp(t.numel, t.block); n <= 2 * |t.packed| && |t.scale| * t.block == n
  }

  function Dequantise(t: Tensor): (v: seq<real>)
    requires Sized(t)
    ensures |v| == t.numel
  {
    var total := RoundUp(t.numel, t.block);
    Decode(Unpack(t.packed)[..total], t.scale, t.block)[..t.numel]
  }

  lemma {:induction false} ScalesLength(p: seq<real>, block: nat)
    requires Whole(|p|, block)
    ensures |Scales(p, block)| * block == |p|
    decreases |p|
  {
    if p != [] {
      WholeRest(|p|, block);
      ScalesLength(p[block..], block);
      Distribute(|Scales(p[block..], block)|, 1, block);
    }
  }

  /** What quantising and dequantising makes of whole blocks. */
  function Blockwise(p: seq<real>, block: nat): (v: seq<real>)
    requires Whole(|p|, block)
    ensures |v| == |p|
    decreases |p|
  {
    if p == [] then []
    else
      WholeRest(|p|, block);
      Recovered(p[..block]) + Blockwise(p[block..], block)
  }

  lemma {:induction false} DecodeEncoded(p: seq<real>, block: nat)
    requires Whole(|p|, block)
    ensures |AllCodes(p, block)| == |Scales(p, block)| * block
    ensures Decode(AllCodes(p, block), Scales(p, block), block) == Blockwise(p, block)
    decreases |p|
  {
    ScalesLength(p, block);
    if p != [] {
      hide Codes, Values, Scale;
      WholeRest(|p|, block);
      ScalesLength(p[block..], block);
      DecodeEncoded(p[block..], block);
      var c := AllCodes(p, block);
      assert c[..block] == Codes(p[..block], Scale(p[..block]));
      assert c[block..] == AllCodes(p[block..], block);
      assert Scales(p, block)[1..] == Scales(p[block..], block);
    }
  }

  /** Packing, the padding of an odd count and the padding of the last block all come undone. */
  lemma RoundTripIs(flat: seq<real>, block: nat)
    requires block > 0
    ensures Sized(Quantise(flat, block).tensor)
    ensures Dequantise(Quantise(flat, block).tensor) == Blockwise(Pad(flat, block), block)[..|flat|]
  {
    hide Blockwise, AllCodes, Scales, PackPairs, Unpack, RoundUp;
    var p := Pad(flat, block);
    var c := AllCodes(p, block);
    ScalesLength(p, block);
    UnpackPacked(Even(c));
    DecodeEncoded(p, block);
    assert Even(c)[..|c|] == c;
  }

  lemma {:induction false} BlockwiseError(p: seq<real>, block: nat, i: nat, q: nat)
    requires Whole(|p|, block) && i < |p| && q == i / block
    ensures q < |Scales(p, block)|
    ensures Abs(Blockwise(p, block)[i] - p[i]) <= Scales(p, block)[q]
    decreases |p|
  {
    hide Scale, Values, CodeValue, IsNearest, Codes, Abs;
    WholeRest(|p|, block);
    var b := p[..block];
    if i < block {
      FirstBlock(i, block);
      ElementError(b, i, Codes(b, Scale(b))[i]);
      assert Blockwise(p, block)[i] == CodeValue(Codes(b, Scale(b))[i]) * Scale(b);
    } else {
      NextBlock(i, block);
      BlockwiseError(p[block..], block, i - block, q - 1);
    }
  }

  lemma FirstBlock(i: nat, block: nat)
    requires i < block
    ensures i / block == 0
  {
    DivMod(0, i, block);
  }

  lemma NextBlock(i: nat, block: nat)
    requires 0 < block <= i
    ensures (i - block) / block == i / block - 1
  {
    var q, r := i / block, i % block;
    assert i == q * block + r;
    if q > 0 {
      Distribute(q - 1, 1, block);
      DivMod(q - 1, r, block);
    }
  }

  /** Each element comes back within the scale of its block. */
  lemma ErrorBounded(flat: seq<real>, block: nat, i: nat, q: nat)
    requires block > 0 && i < |flat| && q == i / block
    ensures var t := Quantise(flat, block).tensor;
      Sized(t) && q < |t.scale| && Abs(Dequantise(t)[i] - flat[i]) <= t.scale[q]
  {
    hide Blockwise, Scales, AllCodes, PackPairs, Dequantise, Sized, Abs, RoundUp;
    RoundTripIs(flat, block);
    BlockwiseError(Pad(flat, block), block, i, q);
    assert Pad(flat, block)[i] == flat[i];
  }

  lemma {:induction false} BlockwiseTwice(p: seq<real>, block: nat)
    requires Whole(|p|, block)
    ensures Scales(Blockwise(p, block), block) == Scales(p, block)
    ensures Blockwise(Blockwise(p, block), block) == Blockwise(p, block)
    decreases |p|
  {
    if p != [] {
      hide Scale, Recovered;
      WholeRest(|p|, block);
      BlockwiseTwice(p[block..], block);
      var b := p[..block];
      var v := Recovered(b);
      SameScale(b);
      SameValues(b);
      var y := Blockwise(p, block);
      assert y[..block] == v && y[block..] == Blockwise(p[block..], block);
    }
  }

  lemma SameValues(b: seq<real>)
    ensures Recovered(Recovered(b)) == Recovered(b)
  {
    hide Scale, Codes, Values;
    SameScale(b);
    CodedBack(Codes(b, Scale(b)), Scale(b));
  }

  /** Code values times s are coded back to themselves with scale s. */
  lemma CodedBack(c: seq<Code>, s: real)
    requires s > 0.0
    ensures Values(Codes(Values(c, s), s), s) == Values(c, s)
  {
    hide Values, Codes, IsNearest, CodeValue;
    var v := Values(c, s);
    forall i | 0 <= i < |v| ensures Values(Codes(v, s), s)[i] == v[i] {
      var d := Codes(v, s);
      assert v[i] == CodeValue(c[i]) * s;
      assert IsNearest(v[i] / s, d[i]);
      CodedBackAt(c[i], s, v[i], d[i]);
    }
  }

  lemma CodedBackAt(c: Code, s: real, v: real, d: Code)
    requires s > 0.0 && v == CodeValue(c) * s && IsNearest(v / s, d)
    ensures CodeValue(d) * s == v
  {
    DivideBack(CodeValue(c), s, v);
    NearestExact(v / s, d, c);
  }

  lemma DivideBack(k: real, s: real, v: real)
    requires s > 0.0 && v == k * s
    ensures v / s == k
  {
    FactorSame(v / s, k, s, v, v);
  }

  lemma {:induction false} ZeroStays(p: seq<real>, block: nat, i: nat)
    requires Whole(|p|, block) && i < |p| && p[i] == 0.0
    ensures Blockwise(p, block)[i] == 0.0
    decreases |p|
  {
    hide Scale, IsNearest, Codes, Values;
    WholeRest(|p|, block);
    var b := p[..block];
    if i < block {
      var s := Scale(b);
      DivideBack(0.0, s, b[i]);
      NearestExact(b[i] / s, Codes(b, s)[i], 7);
    } else {
      ZeroStays(p[block..], block, i - block);
    }
  }

  /** Quantising what came back reproduces the same scales and, dequantised, the same values. */
  lemma Idempotent(flat: seq<real>, block: nat)
    requires block > 0
    ensures var t := Quantise(flat, block).tensor;
      Sized(t) &&
      var y := Dequantise(t);
      var u := Quantise(y, block).tensor;
      Sized(u) && u.scale == t.scale && Dequantise(u) == y
  {
    hide Blockwise, Scales, AllCodes, PackPairs, Dequantise, Sized, RoundUp;
    RoundTripIs(flat, block);
    var p := Pad(flat, block);
    var y := Dequantise(Quantise(flat, block).tensor);
    PadIsBlockwise(flat, block);
    RoundTripIs(y, block);
    BlockwiseTwice(p, block);
  }

  lemma PadIsBlockwise(flat: seq<real>, block: nat)
    requires block > 0
    ensures Pad(Blockwise(Pad(flat, block), block)[..|flat|], block) == Blockwise(Pad(flat, block), block)
  {
    hide Blockwise, RoundUp;
    var p := Pad(flat, block);
    forall i | |flat| <= i < |p| ensures Blockwise(p, block)[i] == 0.0 {
      ZeroStays(p, block, i);
    }
  }

  /** The number of elements of a shape. */
  function Product(shape: seq<nat>): nat {
    if shape == [] then 1 else Product(shape[..|shape| - 1]) * shape[|shape| - 1]
  }

  method Numel(shape: seq<nat>) returns (result: nat)
    ensures result == Product(shape)
  {
    result := 1;
    for i := 0 to |shape|
      invariant result == Product(shape[..i])
    {
      assert shape[..i + 1][..i] == shape[..i];
      result := result * shape[i];
    }
    assert shape[..|shape|] == shape;
  }
}
