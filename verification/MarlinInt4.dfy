/** quantize_to_marlin_int4 (src/torchinferno/kernels/marlin.py) from end to end: group quantisation,
  layout, packing and the permuted scales. */
module MarlinInt4 {
  import opened Nibbles
  import opened IntMath
  import opened RealMath
  import opened Int4
  import opened MarlinLayout
  import opened MarlinWords
  import opened MarlinRepack
  import opened MarlinScales

  lemma CodeInRange(w: (nat, nat) -> real, gs: nat, cols: nat, k: nat, n: nat)
    requires gs > 0 && cols > 0
    ensures 0 <= QuantisedMatrix(w, gs, cols)(k, n) < 16
  {
    hide Code, ColumnScale, Grouped;
    var c := (k / gs) * cols + n;
    assert QuantisedMatrix(w, gs, cols)(k, n) == Code(Grouped(w, gs, cols)(k % gs, c), ColumnScale(w, gs, cols, c));
  }

  function CodeOf(w: (nat, nat) -> real, gs: nat, cols: nat, k: nat, n: nat): (c: Nibble)
    requires gs > 0 && cols > 0
    ensures c == QuantisedMatrix(w, gs, cols)(k, n)
  {
    CodeInRange(w, gs, cols, k, n);
    QuantisedMatrix(w, gs, cols)(k, n)
  }

  /** The stored codes of a [K, N] matrix, row by row. */
  function CodeMatrix(w: (nat, nat) -> real, gs: nat, K: nat, N: nat): (q: Matrix<Nibble>)
    requires gs > 0 && N > 0
    ensures q.Valid() && q.rows == K && q.cols == N
  {
    Matrix(K, N, seq(K * N, p requires 0 <= p < K * N => CodeOf(w, gs, N, p / N, p % N)))
  }

  /** The scales of its groups, one row a group. */
  function ScaleMatrix(w: (nat, nat) -> real, gs: nat, K: nat, N: nat): (s: Matrix<real>)
    requires gs > 0 && N > 0
    ensures s.Valid() && s.rows == K / gs && s.cols == N
  {
    Matrix(K / gs, N, seq((K / gs) * N, c requires 0 <= c < (K / gs) * N => ColumnScale(w, gs, N, c)))
  }

  lemma CodeAt(w: (nat, nat) -> real, gs: nat, K: nat, N: nat, k: nat, n: nat, p: nat)
    requires gs > 0 && k < K && n < N && p == k * N + n
    ensures p < |CodeMatrix(w, gs, K, N).data|
    ensures CodeMatrix(w, gs, K, N).data[p] == QuantisedMatrix(w, gs, N)(k, n)
  {
    hide QuantisedMatrix, CodeOf;
    Nest(k, K, n, N);
    DivMod(k, n, N);
  }

  /** Nibble t of word i, dequantised with s, is within half of s of x. */
  ghost predicate ReadsBack(words: seq<int>, i: nat, t: nat, s: real, x: real) {
    i < |words| && Abs(Dequant(NibbleOf(words[i], t), s) - x) <= s / 2.0
  }

  /** The words the four-bit codes of w are packed into. */
  ghost predicate PackedFrom(w: (nat, nat) -> real, gs: nat, K: nat, N: nat, words: seq<int>)
    requires gs > 0 && N > 0
  {
    MarlinWeightsOf(CodeMatrix(w, gs, K, N), K, N) == Done(Matrix(K / 16, 2 * N, words))
  }

  /** Weight (k, n) can be read from the packed words with the scale of its group and column. */
  lemma WordHoldsWeight(w: (nat, nat) -> real, gs: nat, K: nat, N: nat, k: nat, n: nat,
                        words: seq<int>, tile: nat, i: nat, t: nat, c: nat, s: real)
    requires gs > 0 && k < K && n < N
    requires tile == (k / 16) * (N / 16) + n / 16
    requires i == WordOf(tile, k % 16, n % 16) && t == NibbleIn(k % 16, n % 16)
    requires c == (k / gs) * N + n
    requires s == ColumnScale(w, gs, N, c)
    requires PackedFrom(w, gs, K, N, words)
    ensures ReadsBack(words, i, t, s, w(k, n))
  {
    hide *;
    var q := CodeMatrix(w, gs, K, N);
    assert MarlinWeightsOf(q, K, N) == Done(Matrix(K / 16, 2 * N, words)) by {
      PackedFromIs(w, gs, K, N, words);
    }
    MarlinWordsAre(q, K, N, words);
    RowMajor(K, N, k, n);
    LayoutAt(q.data, K / 16, N / 16, k / 16, n / 16, k % 16, n % 16, i, t, k * N + n);
    CodeAt(w, gs, K, N, k, n, k * N + n);
    MatrixQuantised(w, gs, N, k, n);
    IsReadBack(words, i, t, s, w(k, n));
  }

  lemma PackedFromIs(w: (nat, nat) -> real, gs: nat, K: nat, N: nat, words: seq<int>)
    requires gs > 0 && N > 0 && PackedFrom(w, gs, K, N, words)
    ensures MarlinWeightsOf(CodeMatrix(w, gs, K, N), K, N) == Done(Matrix(K / 16, 2 * N, words))
  {
    hide CodeMatrix, MarlinWeightsOf;
  }

  lemma IsReadBack(words: seq<int>, i: nat, t: nat, s: real, x: real)
    requires i < |words| && Abs(Dequant(NibbleOf(words[i], t), s) - x) <= s / 2.0
    ensures ReadsBack(words, i, t, s, x)
  {
    hide Abs, Dequant, NibbleOf;
  }

  lemma MarlinWordsAre(q: Matrix<Nibble>, K: nat, N: nat, words: seq<int>)
    requires q.Valid() && MarlinWeightsOf(q, K, N) == Done(Matrix(K / 16, 2 * N, words))
    ensures K % 16 == 0 && N % 16 == 0 && |q.data| % 1024 == 0 && Tileable(|q.data|, K / 16, N / 16)
    ensures words == LayoutWords(q.data, K / 16, N / 16)
  {
    hide LayoutWords, Permuted, OrWordsOf;
    SizesAgree(K, N);
    LayoutsAgree(q.data, K / 16, N / 16);
  }

  /** And its scale from the permuted scales: for grouped scales, in each 64 columns, that of column
      8 * a + b is at 8 * b + a. */
  lemma ScaleFound(w: (nat, nat) -> real, gs: nat, K: nat, N: nat, g: nat, row: nat, a: nat, b: nat,
                   r: Matrix<real>, c: nat)
    requires 0 < gs < K && N > 0 && g < K / gs && a < 8 && b < 8
    requires 64 * row + 64 <= (K / gs) * N && c == 64 * row + 8 * a + b
    requires PermuteScales(ScaleMatrix(w, gs, K, N), K, N, gs) == Done(r)
    ensures 64 * row + 8 * b + a < |r.data|
    ensures r.data[64 * row + 8 * b + a] == ColumnScale(w, gs, N, c)
  {
    hide Gather, ScalePerm, ColumnScale, Source;
    var s := ScaleMatrix(w, gs, K, N);
    ScaleRows(|s.data|);
    ScaleSource(row, a, b);
    GatherAt(s.data, ScalePerm(), 64 * row + 8 * b + a);
  }

  /** For a single group, in each 32 columns, that of column 8 * a + 2 * i + b is at 8 * i + 2 * a + b. */
  lemma SingleScaleFound(w: (nat, nat) -> real, gs: nat, K: nat, N: nat, row: nat, i: nat, a: nat, b: nat,
                         r: Matrix<real>, c: nat)
    requires 0 < K <= gs && N > 0 && i < 4 && a < 4 && b < 2
    requires 32 * row + 32 <= (K / gs) * N && c == 32 * row + 8 * a + 2 * i + b
    requires PermuteScales(ScaleMatrix(w, gs, K, N), K, N, gs) == Done(r)
    ensures 32 * row + 8 * i + 2 * a + b < |r.data|
    ensures r.data[32 * row + 8 * i + 2 * a + b] == ColumnScale(w, gs, N, c)
  {
    hide Gather, SinglePerm, ColumnScale, Source;
    var s := ScaleMatrix(w, gs, K, N);
    SingleRows(|s.data|);
    SingleSource(row, i, a, b);
    GatherAt(s.data, SinglePerm(), 32 * row + 8 * i + 2 * a + b);
  }
}
