/** The scale layouts of the Marlin kernels (src/torchinferno/kernels/deepseek_v4_marlin.py and
  marlin.py). */
module MarlinScales {
  import opened IntMath
  import opened MarlinLayout
  import opened MarlinRepack

  // ----- the permutations -----

  /** index + 8 * group, for index and then group from 0 to 7. */
  function ScaleEntry(s: nat): (v: nat)
    requires s < 64
    ensures v < 64
  {
    s / 8 + 8 * (s % 8)
  }

  const LANES: seq<nat> := [0, 1, 8, 9, 16, 17, 24, 25]

  /** 2 * i + j, for i from 0 to 3 and then j in LANES. */
  function SingleEntry(s: nat): (v: nat)
    requires s < 32
    ensures v < 32
  {
    2 * (s / 8) + LANES[s % 8]
  }

  function ScalePerm(): (perm: seq<nat>)
    ensures |perm| == 64 && forall s :: 0 <= s < 64 ==> perm[s] == ScaleEntry(s)
  {
    seq(64, s requires 0 <= s < 64 => ScaleEntry(s))
  }

  function SinglePerm(): (perm: seq<nat>)
    ensures |perm| == 32 && forall s :: 0 <= s < 32 ==> perm[s] == SingleEntry(s)
  {
    seq(32, s requires 0 <= s < 32 => SingleEntry(s))
  }

  function PairOrder(): (perm: seq<nat>)
    ensures |perm| == 4
  {
    [0, 2, 1, 3]
  }

  lemma ScaleEntryTwice(s: nat)
    requires s < 64
    ensures ScaleEntry(ScaleEntry(s)) == s
  {
  }

  lemma SingleDigits(i: nat, a: nat, b: nat)
    requires i < 4 && a < 4 && b < 2
    ensures SingleEntry(8 * i + 2 * a + b) == 8 * a + 2 * i + b
  {
    var p := 2 * a + b;
    assert LANES[p] == 8 * (p / 2) + p % 2;
    assert p / 2 == a && p % 2 == b;
    assert (8 * i + p) / 8 == i && (8 * i + p) % 8 == p;
  }

  lemma SingleEntryTwice(s: nat)
    requires s < 32
    ensures SingleEntry(SingleEntry(s)) == s
  {
    hide SingleEntry;
    var i, p := s / 8, s % 8;
    var a, b := p / 2, p % 2;
    assert s == 8 * i + 2 * a + b;
    SingleDigits(i, a, b);
    SingleDigits(a, i, b);
  }

  /** Each of the three permutations undoes itself. */
  lemma SelfInverse()
    ensures Inverse(ScalePerm(), ScalePerm())
    ensures Inverse(SinglePerm(), SinglePerm())
    ensures Inverse(PairOrder(), PairOrder())
  {
    hide ScaleEntry, SingleEntry;
    forall s: nat | s < 64 ensures ScaleEntry(ScaleEntry(s)) == s {
      ScaleEntryTwice(s);
    }
    forall s: nat | s < 32 ensures SingleEntry(SingleEntry(s)) == s {
      SingleEntryTwice(s);
    }
  }

  lemma ScaleRows(n: nat)
    requires n % 64 == 0
    ensures Gathers(n, ScalePerm()) && Gathers(n, PairOrder())
  {
    hide ScaleEntry;
    assert n % 4 == 0;
  }

  lemma SingleRows(n: nat)
    requires n % 32 == 0
    ensures Gathers(n, SinglePerm())
  {
    hide SingleEntry;
  }

  // ----- the scales of one MXFP4 expert -----

  function Scrambled<T>(x: seq<T>): (y: seq<T>)
    requires |x| % 64 == 0
    ensures |y| == |x|
  {
    ScaleRows(|x|);
    Gather(Gather(x, ScalePerm()), PairOrder())
  }

  function Unscrambled<T>(y: seq<T>): (x: seq<T>)
    requires |y| % 64 == 0
    ensures |x| == |y|
  {
    ScaleRows(|y|);
    Gather(Gather(y, PairOrder()), ScalePerm())
  }

  lemma ScrambleUndone<T>(x: seq<T>)
    requires |x| % 64 == 0
    ensures Unscrambled(Scrambled(x)) == x && Scrambled(Unscrambled(x)) == x
  {
    hide Gather, Inverse, ScalePerm, PairOrder;
    ScaleRows(|x|);
    SelfInverse();
    GatherInverse(x, ScalePerm(), ScalePerm());
    GatherInverse(Gather(x, ScalePerm()), PairOrder(), PairOrder());
    GatherInverse(x, PairOrder(), PairOrder());
    GatherInverse(Gather(x, PairOrder()), ScalePerm(), ScalePerm());
  }

  /** _prepare_one_scale. */
  function PrepareOneScale<T>(scale: Matrix<T>, K: nat, N: nat): (r: Outcome<T>)
    requires scale.Valid()
  {
    if scale.rows != N || scale.cols != K / 32 then Rejected
    else if |scale.data| % 64 != 0 || N == 0 then ReshapeFails
    else Done(Matrix(K / 32, N, Scrambled(Transpose(scale).data)))
  }

  /** Preparing scales loses nothing. */
  lemma PrepareUndone<T>(scale: Matrix<T>, K: nat, N: nat, r: Matrix<T>)
    requires scale.Valid() && PrepareOneScale(scale, K, N) == Done(r)
    ensures r.Valid() && |r.data| % 64 == 0
    ensures Transpose(Matrix(r.rows, r.cols, Unscrambled(r.data))) == scale
  {
    hide Scrambled, Unscrambled, TurnedData;
    ScrambleUndone(Transpose(scale).data);
    TransposeTwice(scale);
  }

  /** In each 64 scales, column 8 * a + b of the row-by-row [K / 32, N] scales goes to place 8 * b + a,
      with the middle two of every four exchanged. */
  lemma ScrambledAt<T>(x: seq<T>, row: nat, a: nat, b: nat, p: nat, q: nat)
    requires |x| % 64 == 0 && a < 8 && b < 8 && 64 * row + 64 <= |x|
    requires p == 64 * row + 8 * b + 4 * (a / 4) + 2 * (a % 2) + a % 4 / 2
    requires q == 64 * row + 8 * a + b
    ensures p < |x| && q < |x| && Scrambled(x)[p] == x[q]
  {
    hide Gather, ScaleEntry, ScalePerm, PairOrder, Source;
    ScaleRows(|x|);
    var u := 64 * row + 8 * b + a;
    assert p < |x| && q < |x|;
    PairSource(16 * row + 2 * b + a / 4, a % 4);
    ScaleSource(row, a, b);
    assert p == 4 * (16 * row + 2 * b + a / 4) + 2 * (a % 4 % 2) + a % 4 / 2;
    assert Source(p, PairOrder()) == u;
    GatherAt(x, ScalePerm(), u);
    GatherAt(Gather(x, ScalePerm()), PairOrder(), p);
  }

  lemma PairSource(quad: nat, s: nat)
    requires s < 4
    ensures Source(4 * quad + 2 * (s % 2) + s / 2, PairOrder()) == 4 * quad + s
  {
    DivMod(quad, 2 * (s % 2) + s / 2, 4);
  }

  lemma ScaleSource(row: nat, a: nat, b: nat)
    requires a < 8 && b < 8
    ensures Source(64 * row + 8 * b + a, ScalePerm()) == 64 * row + 8 * a + b
  {
    DivMod(row, 8 * b + a, 64);
    assert ScaleEntry(8 * b + a) == 8 * a + b;
  }

  lemma SingleSource(row: nat, i: nat, a: nat, b: nat)
    requires i < 4 && a < 4 && b < 2
    ensures Source(32 * row + 8 * i + 2 * a + b, SinglePerm()) == 32 * row + 8 * a + 2 * i + b
  {
    hide SingleEntry;
    DivMod(row, 8 * i + 2 * a + b, 32);
    SingleDigits(i, a, b);
  }

  // ----- the scales of a four-bit linear layer -----

  /** _marlin_permute_scales: one permutation for grouped scales, another for a single group. */
  function PermuteScales<T>(s: Matrix<T>, K: nat, N: nat, group: int): (r: Outcome<T>)
    requires s.Valid()
  {
    var grouped := 0 < group < K;
    if |s.data| % (if grouped then 64 else 32) != 0 || N == 0 || |s.data| % N != 0 then ReshapeFails
    else if grouped then
      ScaleRows(|s.data|);
      Done(Matrix(|s.data| / N, N, Gather(s.data, ScalePerm())))
    else
      SingleRows(|s.data|);
      Done(Matrix(|s.data| / N, N, Gather(s.data, SinglePerm())))
  }

  lemma RowsOf(rows: nat, N: nat, n: nat)
    requires N > 0 && n == rows * N
    ensures n % N == 0 && n / N == rows
  {
    DivMod(rows, 0, N);
  }

  /** Permuting the scales of [groups, N] twice gives them back. */
  lemma PermuteTwice<T>(s: Matrix<T>, K: nat, N: nat, group: int, r: Matrix<T>)
    requires s.Valid() && s.cols == N && PermuteScales(s, K, N, group) == Done(r)
    ensures r.Valid() && PermuteScales(r, K, N, group) == Done(s)
  {
    hide Gather, ScalePerm, SinglePerm, Inverse;
    RowsOf(s.rows, N, |s.data|);
    SelfInverse();
    if 0 < group < K {
      ScaleRows(|s.data|);
      GatherInverse(s.data, ScalePerm(), ScalePerm());
    } else {
      SingleRows(|s.data|);
      GatherInverse(s.data, SinglePerm(), SinglePerm());
    }
  }
}
