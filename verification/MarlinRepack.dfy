/** Preparing weights and scales for the Marlin kernels: checks, transposition, tiling, permutation and
  packing together (src/torchinferno/kernels/deepseek_v4_marlin.py and marlin.py). */
module MarlinRepack {
  import opened Nibbles
  import opened IntMath
  import opened MarlinLayout
  import opened MarlinWords

  // ----- matrices, row by row -----

  datatype Matrix<T> = Matrix(rows: nat, cols: nat, data: seq<T>) {
    predicate Valid() {
      |data| == rows * cols
    }
  }

  /** Rejected: the shape checks raise. ReshapeFails: the tensor cannot be reshaped as asked. */
  datatype Outcome<T> = Done(value: Matrix<T>) | Rejected | ReshapeFails

  function Turned(j: nat, rows: nat, cols: nat): nat
    requires rows > 0
  {
    (j % rows) * cols + j / rows
  }

  lemma TurnedIn(j: nat, rows: nat, cols: nat)
    requires j < rows * cols
    ensures rows > 0 && cols > 0 && Turned(j, rows, cols) < rows * cols
    ensures Turned(Turned(j, rows, cols), cols, rows) == j
  {
    assert rows > 0;
    var r, c := j % rows, j / rows;
    assert j == c * rows + r;
    MulLess(c, cols, rows);
    Nest(r, rows, c, cols);
    DivMod(r, c, cols);
  }

  function TurnedData<T>(x: seq<T>, rows: nat, cols: nat): (y: seq<T>)
    requires |x| == rows * cols
    ensures |y| == |x|
  {
    seq(|x|, j requires 0 <= j < |x| => TurnedIn(j, rows, cols); x[Turned(j, rows, cols)])
  }

  function Transpose<T>(x: Matrix<T>): (y: Matrix<T>)
    requires x.Valid()
    ensures y.Valid() && y.rows == x.cols && y.cols == x.rows
  {
    Matrix(x.cols, x.rows, TurnedData(x.data, x.rows, x.cols))
  }

  lemma TransposeTwice<T>(x: Matrix<T>)
    requires x.Valid()
    ensures Transpose(Transpose(x)) == x
  {
    hide Turned;
    var y := Transpose(x);
    forall j | 0 <= j < |x.data| ensures Transpose(y).data[j] == x.data[j] {
      TurnedIn(j, x.cols, x.rows);
      TurnedIn(j, x.rows, x.cols);
    }
  }

  lemma TransposeAt<T>(x: Matrix<T>, i: nat, j: nat)
    requires x.Valid() && i < x.rows && j < x.cols
    ensures i * x.cols + j < |x.data| && j * x.rows + i < |x.data|
    ensures Transpose(x).data[j * x.rows + i] == x.data[i * x.cols + j]
  {
    Nest(i, x.rows, j, x.cols);
    Nest(j, x.cols, i, x.rows);
    DivMod(j, i, x.rows);
  }

  // ----- the layout of a whole matrix of nibbles -----

  lemma WeightPermGathers(n: nat)
    requires n % 1024 == 0
    ensures Gathers(n, WeightPerm()) && Gathers(n, WeightSlots())
  {
  }

  /** A [16 a, 16 m] matrix of nibbles, tiled and permuted. */
  function Permuted(x: seq<Nibble>, a: nat, m: nat): (y: seq<Nibble>)
    requires Tileable(|x|, a, m) && |x| % 1024 == 0
    ensures |y| == |x|
  {
    WeightPermGathers(|x|);
    Gather(Tiled(x, a, m), WeightPerm())
  }

  /** Its words. */
  function LayoutWords(x: seq<Nibble>, a: nat, m: nat): (w: seq<int>)
    requires Tileable(|x|, a, m) && |x| % 1024 == 0
    ensures 8 * |w| == |x|
  {
    WordsOf(Permuted(x, a, m))
  }

  /** The matrix of nibbles that some words hold. */
  function RestoreLayout(w: seq<int>, a: nat, m: nat): (x: seq<Nibble>)
    requires Tileable(8 * |w|, a, m) && 8 * |w| % 1024 == 0
    ensures |x| == 8 * |w|
  {
    WeightPermGathers(8 * |w|);
    Untiled(Gather(NibblesOf(w), WeightSlots()), a, m)
  }

  /** The layout loses nothing: the matrix can be read back from the words. */
  lemma LayoutRestored(x: seq<Nibble>, a: nat, m: nat)
    requires Tileable(|x|, a, m) && |x| % 1024 == 0
    ensures RestoreLayout(LayoutWords(x, a, m), a, m) == x
  {
    hide Tiled, Untiled, WordsOf, NibblesOf, Gather, Inverse;
    WeightPermGathers(|x|);
    WeightPermInverse();
    TilesUndone(x, a, m);
    GatherInverse(Tiled(x, a, m), WeightPerm(), WeightSlots());
    NibblesOfWords(Gather(Tiled(x, a, m), WeightPerm()));
  }

  /** And wastes nothing: every sequence of 32-bit words is the layout of the matrix it restores to. */
  lemma RestoredLayout(w: seq<int>, a: nat, m: nat)
    requires Tileable(8 * |w|, a, m) && 8 * |w| % 1024 == 0 && Int32s(w)
    ensures LayoutWords(RestoreLayout(w, a, m), a, m) == w
  {
    hide Tiled, Untiled, WordsOf, NibblesOf, Gather, Inverse;
    WeightPermGathers(8 * |w|);
    WeightPermInverse();
    GatherInverse(NibblesOf(w), WeightSlots(), WeightPerm());
    TilesUndone(Gather(NibblesOf(w), WeightSlots()), a, m);
    WordsOfNibbles(w);
  }

  /** Nibble t of word w of the layout holds row r and column c of tile (kt, nt), which is element p of
      the matrix. */
  lemma LayoutAt(x: seq<Nibble>, a: nat, m: nat, kt: nat, nt: nat, r: nat, c: nat, w: nat, t: nat, p: nat)
    requires Tileable(|x|, a, m) && |x| % 1024 == 0
    requires kt < a && nt < m && r < 16 && c < 16
    requires w == WordOf(kt * m + nt, r, c) && t == NibbleIn(r, c)
    requires p == (16 * kt + r) * (16 * m) + (16 * nt + c)
    ensures w < |LayoutWords(x, a, m)| && p < |x|
    ensures NibbleOf(LayoutWords(x, a, m)[w], t) == x[p]
  {
    hide *;
    assert Tileable(|x|, a, m) && |x| == 256 * (a * m) by {
      LayoutSize(x, a, m);
    }
    WordInRange(a, m, kt, nt, r, c);
    SlotSource(kt * m + nt, r, c);
    RowPlaceIs(m, kt, nt, r, c);
    TiledAt(x, a, m, kt, nt, r, c);
    PlainTilePlace(m, kt, nt, r, c);
    LayoutEntry(x, a, m, w, t, TilePlace(m, kt, nt, r, c));
  }

  lemma LayoutSize(x: seq<Nibble>, a: nat, m: nat)
    requires Tileable(|x|, a, m)
    ensures |x| == 256 * (a * m)
  {
  }

  lemma PlainTilePlace(m: nat, kt: nat, nt: nat, r: nat, c: nat)
    ensures TilePlace(m, kt, nt, r, c) == ((kt * m + nt) * 16 + r) * 16 + c
  {
  }

  lemma LayoutEntry(x: seq<Nibble>, a: nat, m: nat, w: nat, t: nat, q: nat)
    requires Tileable(|x|, a, m) && |x| % 1024 == 0 && 8 * w + 8 <= |x| && t < 8
    requires Source(8 * w + t, WeightPerm()) == q
    ensures w < |LayoutWords(x, a, m)| && q < |x|
    ensures NibbleOf(LayoutWords(x, a, m)[w], t) == Tiled(x, a, m)[q]
  {
    hide Tiled, NibbleOf, SumWord, Gather, Source;
    WeightPermGathers(|x|);
    var y := Gather(Tiled(x, a, m), WeightPerm());
    GatherAt(Tiled(x, a, m), WeightPerm(), 8 * w + t);
    NibbleOfSum(y, 8 * w, t);
  }

  lemma GatherAt<T>(x: seq<T>, perm: seq<nat>, q: nat)
    requires Gathers(|x|, perm) && q < |x|
    ensures Source(q, perm) < |x| && Gather(x, perm)[q] == x[Source(q, perm)]
  {
    SourceParts(|x|, q, perm);
  }

  function WordOf(tile: nat, r: nat, c: nat): nat {
    128 * (tile / 4) + 4 * (4 * (c % 8) + r % 8 / 2) + tile % 4
  }

  function NibbleIn(r: nat, c: nat): (t: nat)
    requires r < 16 && c < 16
    ensures t < 8
  {
    4 * (r % 2) + 2 * (c / 8) + r / 8
  }

  lemma WordInRange(a: nat, m: nat, kt: nat, nt: nat, r: nat, c: nat)
    requires kt < a && nt < m && r < 16 && c < 16 && 256 * (a * m) % 1024 == 0
    ensures WordOf(kt * m + nt, r, c) < 32 * (a * m)
  {
    Nest(kt, a, nt, m);
    var tile, n := kt * m + nt, a * m;
    assert n % 4 == 0;
    assert tile / 4 < n / 4;
    assert 4 * (c % 8) + r % 8 / 2 < 32;
  }

  lemma SlotSource(tile: nat, r: nat, c: nat)
    requires r < 16 && c < 16
    ensures Source(8 * WordOf(tile, r, c) + NibbleIn(r, c), WeightPerm()) == (tile * 16 + r) * 16 + c
  {
    hide Element.Slot, Element.Value, WordOf, NibbleIn, ElementAt;
    var x := ElementAt(tile, r, c);
    SlotIs(tile, r, c);
    AtSlotOf(x);
    DivMod(tile / 4, x.Slot(), 1024);
    ValueIs(tile, r, c);
  }

  function ElementAt(tile: nat, r: nat, c: nat): (x: Element)
    requires r < 16 && c < 16
    ensures x.Valid()
  {
    Element(tile % 4, r / 8, r % 8 / 2, r % 2, c / 8, c % 8)
  }

  lemma SlotIs(tile: nat, r: nat, c: nat)
    requires r < 16 && c < 16
    ensures 8 * WordOf(tile, r, c) + NibbleIn(r, c) == tile / 4 * 1024 + ElementAt(tile, r, c).Slot()
  {
  }

  lemma ValueIs(tile: nat, r: nat, c: nat)
    requires r < 16 && c < 16
    ensures (tile * 16 + r) * 16 + c == tile / 4 * 1024 + ElementAt(tile, r, c).Value()
  {
    var x := ElementAt(tile, r, c);
    assert tile == tile / 4 * 4 + x.tile;
    assert r == (x.h * 4 + x.g) * 2 + x.e;
    assert c == x.b * 8 + x.c;
  }

  lemma TiledAt(x: seq<Nibble>, a: nat, m: nat, kt: nat, nt: nat, r: nat, c: nat)
    requires Tileable(|x|, a, m) && kt < a && nt < m && r < 16 && c < 16
    ensures RowPlace(m, kt, nt, r, c) < |x| && TilePlace(m, kt, nt, r, c) < |x|
    ensures Tiled(x, a, m)[TilePlace(m, kt, nt, r, c)] == x[RowPlace(m, kt, nt, r, c)]
  {
    hide RowPlace, TilePlace, TileSource;
    InTiles(a, m, kt, nt, r, c);
    SourceOfPlace(m, kt, nt, r, c);
  }

  // ----- the two implementations -----

  lemma SizesAgree(K: nat, N: nat)
    requires K % 16 == 0 && N % 16 == 0
    ensures Tileable(K * N, K / 16, N / 16) && K / 16 * (2 * N) * 8 == K * N
  {
    var a, m := K / 16, N / 16;
    assert K == 16 * a && N == 16 * m;
    assert K * N == 256 * (a * m);
    assert a * (2 * N) == 32 * (a * m);
  }

  /** What _marlin_weights gives for a [K, N] matrix of stored codes: the or-ed words. */
  function MarlinWeightsOf(q: Matrix<Nibble>, K: nat, N: nat): (r: Outcome<int>)
    requires q.Valid()
  {
    if q.rows != K || q.cols != N || K % 16 != 0 || N % 16 != 0 then Rejected
    else if K * N % 1024 != 0 then ReshapeFails
    else
      SizesAgree(K, N);
      Done(Matrix(K / 16, 2 * N, OrWordsOf(Permuted(q.data, K / 16, N / 16))))
  }

  /** _marlin_weights. */
  method MarlinWeights(q: Matrix<Nibble>, K: nat, N: nat) returns (r: Outcome<int>)
    requires q.Valid()
    ensures r == MarlinWeightsOf(q, K, N)
  {
    hide Tiled, Gather, OrWordsOf, WeightPerm;
    if q.rows != K || q.cols != N || K % 16 != 0 || N % 16 != 0 {
      return Rejected;
    }
    if K * N % 1024 != 0 {
      return ReshapeFails;
    }
    SizesAgree(K, N);
    WeightPermGathers(|q.data|);
    var perm := WeightPermutation();
    var packed := OrPack(Gather(Tiled(q.data, K / 16, N / 16), perm));
    r := Done(Matrix(K / 16, 2 * N, packed[..]));
  }

  /** The logical [K, N] nibbles of an [N, K / 2] matrix of bytes. */
  function Logical(weight: Matrix<nat>, K: nat, N: nat): (q: Matrix<Nibble>)
    requires weight.Valid() && weight.rows == N && weight.cols == K / 2 && K % 2 == 0
    ensures q.Valid() && q.rows == K && q.cols == N
  {
    EvenCells(K, N);
    Transpose(Matrix(N, K, Unpack(weight.data)))
  }

  lemma EvenCells(K: nat, N: nat)
    requires K % 2 == 0
    ensures 2 * (N * (K / 2)) == N * K && N * K == K * N
  {
    var h := K / 2;
    assert K == 2 * h;
  }

  /** What _repack_one_mxfp4 gives: the summed words of the logical matrix. */
  function RepackOne(weight: Matrix<nat>, K: nat, N: nat): (r: Outcome<int>)
    requires weight.Valid()
  {
    if weight.rows != N || weight.cols != K / 2 then Rejected
    else if K % 2 != 0 && N > 0 then ReshapeFails
    else if K % 16 != 0 || N % 16 != 0 then Rejected
    else if K * N % 1024 != 0 || K == 0 then ReshapeFails
    else
      SizesAgree(K, N);
      Done(Matrix(K / 16, 2 * N, LayoutWords(Logical(weight, K, N).data, K / 16, N / 16)))
  }

  ghost predicate Repackable(weight: Matrix<nat>, K: nat, N: nat) {
    && weight.Valid() && weight.rows == N && weight.cols == K / 2
    && K > 0 && K % 16 == 0 && N % 16 == 0 && K * N % 1024 == 0
  }

  /** _repack_one_mxfp4: the bytes are taken apart, viewed as [N, K] and transposed; the matrix is tiled,
      gathered by the permutation its loops build, and summed into words. */
  method RepackOneMxfp4(weight: Matrix<nat>, K: nat, N: nat) returns (r: Outcome<int>)
    requires weight.Valid()
    ensures r == RepackOne(weight, K, N)
    ensures r.Done? <==> Repackable(weight, K, N)
  {
    hide LayoutWords, Unpack, TurnedData;
    if weight.rows != N || weight.cols != K / 2 {
      return Rejected;
    }
    var stacked := Unpack(weight.data);
    CellsFit(K, N);
    if |stacked| != N * K {
      return ReshapeFails;
    }
    var logical := Transpose(Matrix(N, K, stacked));
    if K % 16 != 0 || N % 16 != 0 {
      return Rejected;
    }
    if |logical.data| % 1024 != 0 || K == 0 {
      return ReshapeFails;
    }
    SizesAgree(K, N);
    var words := SumLayout(logical.data, K / 16, N / 16);
    r := Done(Matrix(K / 16, 2 * N, words));
  }

  /** Tiles, permutes and sums into words. */
  method SumLayout(x: seq<Nibble>, a: nat, m: nat) returns (words: seq<int>)
    requires Tileable(|x|, a, m) && |x| % 1024 == 0
    ensures words == LayoutWords(x, a, m)
  {
    hide Tiled, Gather, WordsOf, WeightPerm;
    WeightPermGathers(|x|);
    var perm := WeightPermutation();
    var tiled := Gather(Tiled(x, a, m), perm);
    words := WordsOf(tiled);
  }

  /** Two nibbles a byte fill [N, K] exactly when K is even or there is no row. */
  lemma CellsFit(K: nat, N: nat)
    ensures 2 * (N * (K / 2)) == N * K <==> K % 2 == 0 || N == 0
    ensures N * K == K * N
  {
    var h := K / 2;
    assert K == 2 * h + K % 2;
    Distribute(2 * h, K % 2, N);
    assert N * (2 * h) == 2 * (N * h);
  }

  lemma RepackParts(weight: Matrix<nat>, K: nat, N: nat, w: Matrix<int>)
    requires weight.Valid() && RepackOne(weight, K, N) == Done(w)
    ensures weight.rows == N && weight.cols == K / 2
    ensures K > 0 && K % 2 == 0 && K % 16 == 0 && N % 16 == 0 && K * N % 1024 == 0
  {
    hide LayoutWords, Logical;
  }

  /** What the repacked words are. */
  lemma RepackWords(weight: Matrix<nat>, K: nat, N: nat, w: Matrix<int>, q: seq<Nibble>)
    requires weight.Valid() && RepackOne(weight, K, N) == Done(w)
    requires weight.rows == N && weight.cols == K / 2 && K % 2 == 0 && q == Logical(weight, K, N).data
    ensures Tileable(|q|, K / 16, N / 16) && |q| % 1024 == 0
    ensures w == Matrix(K / 16, 2 * N, LayoutWords(q, K / 16, N / 16))
  {
    hide LayoutWords, Logical;
    SizesAgree(K, N);
  }

  lemma MarlinWeightsAre(q: Matrix<Nibble>, K: nat, N: nat)
    requires q.Valid() && q.rows == K && q.cols == N && K % 16 == 0 && N % 16 == 0 && K * N % 1024 == 0
    ensures Tileable(|q.data|, K / 16, N / 16) && |q.data| % 1024 == 0
    ensures MarlinWeightsOf(q, K, N) == Done(Matrix(K / 16, 2 * N, LayoutWords(q.data, K / 16, N / 16)))
  {
    hide LayoutWords, OrWordsOf, Permuted;
    SizesAgree(K, N);
    LayoutsAgree(q.data, K / 16, N / 16);
  }

  /** The two packers, one summing and one or-ing, make the same words of the same logical matrix. */
  lemma SameWords(weight: Matrix<nat>, K: nat, N: nat, w: Matrix<int>)
    requires weight.Valid() && RepackOne(weight, K, N) == Done(w)
    ensures weight.rows == N && weight.cols == K / 2 && K % 2 == 0
    ensures MarlinWeightsOf(Logical(weight, K, N), K, N) == Done(w)
  {
    hide RepackOne, MarlinWeightsOf, LayoutWords, Logical;
    RepackParts(weight, K, N, w);
    var q := Logical(weight, K, N);
    RepackWords(weight, K, N, w, q.data);
    MarlinWeightsAre(q, K, N);
  }

  lemma LayoutsAgree(x: seq<Nibble>, a: nat, m: nat)
    requires Tileable(|x|, a, m) && |x| % 1024 == 0
    ensures OrWordsOf(Permuted(x, a, m)) == LayoutWords(x, a, m)
  {
    hide Permuted, OrWordsOf, WordsOf;
    WordsAgree(Permuted(x, a, m));
  }

  /** Both implementations, each by its own steps, on one checkpoint weight: what the first repacks, the
      second packs into the same words. */
  method PackBothWays(weight: Matrix<nat>, K: nat, N: nat) returns (summed: Outcome<int>, ored: Outcome<int>)
    requires weight.Valid()
    ensures summed.Done? <==> Repackable(weight, K, N)
    ensures summed == ored
  {
    hide RepackOne, MarlinWeightsOf, Logical;
    summed := RepackOneMxfp4(weight, K, N);
    ored := summed;
    if summed.Done? {
      SameWords(weight, K, N, summed.value);
      ored := MarlinWeights(Logical(weight, K, N), K, N);
    }
  }

  /** The bytes that some words were made of. */
  function UnpackOne(w: Matrix<int>, K: nat, N: nat): (weight: Matrix<nat>)
    requires w.Valid() && w.rows == K / 16 && w.cols == 2 * N
    requires K % 16 == 0 && N % 16 == 0 && K * N % 1024 == 0
  {
    SizesAgree(K, N);
    EvenCells(K, N);
    var logical := Matrix(K, N, RestoreLayout(w.data, K / 16, N / 16));
    Matrix(N, K / 2, PackPairs(Transpose(logical).data))
  }

  /** Repacking loses nothing: the checkpoint's bytes can be read back from the words. */
  lemma RepackUndone(weight: Matrix<nat>, K: nat, N: nat, w: Matrix<int>)
    requires weight.Valid() && Bytes(weight.data) && RepackOne(weight, K, N) == Done(w)
    ensures w.Valid() && w.rows == K / 16 && w.cols == 2 * N
    ensures K % 16 == 0 && N % 16 == 0 && K * N % 1024 == 0
    ensures UnpackOne(w, K, N) == weight
  {
    hide RepackOne, LayoutWords, RestoreLayout, Bytes, Unpack, PackPairs, TurnedData;
    RepackParts(weight, K, N, w);
    SizesAgree(K, N);
    EvenCells(K, N);
    var q := Logical(weight, K, N);
    RepackWords(weight, K, N, w, q.data);
    LayoutRestored(q.data, K / 16, N / 16);
    TransposeTwice(Matrix(N, K, Unpack(weight.data)));
    PackUnpacked(weight.data);
  }

  /** Where weight (n, k) goes: its nibble of byte k / 2 of row n is nibble t of word w. */
  lemma RepackAt(weight: Matrix<nat>, K: nat, N: nat, k: nat, n: nat, w: nat, t: nat, i: nat, words: seq<int>)
    requires weight.Valid() && k < K && n < N
    requires RepackOne(weight, K, N) == Done(Matrix(K / 16, 2 * N, words))
    requires w == WordOf((k / 16) * (N / 16) + n / 16, k % 16, n % 16) && t == NibbleIn(k % 16, n % 16)
    requires i == n * (K / 2) + k / 2
    ensures w < |words| && i < |weight.data|
    ensures NibbleOf(words[w], t) == NibbleAt(weight.data[i], k)
  {
    hide *;
    RepackParts(weight, K, N, Matrix(K / 16, 2 * N, words));
    LogicalAt(weight, K, N, k, n);
    var q := Logical(weight, K, N);
    RepackWords(weight, K, N, Matrix(K / 16, 2 * N, words), q.data);
    RowMajor(K, N, k, n);
    LayoutAt(q.data, K / 16, N / 16, k / 16, n / 16, k % 16, n % 16, w, t, k * N + n);
  }

  function NibbleAt(byte: nat, k: nat): Nibble {
    if k % 2 == 0 then Low(byte) else High(byte)
  }

  lemma RowMajor(K: nat, N: nat, k: nat, n: nat)
    requires K % 16 == 0 && N % 16 == 0 && k < K && n < N
    ensures k / 16 < K / 16 && n / 16 < N / 16
    ensures (16 * (k / 16) + k % 16) * (16 * (N / 16)) + (16 * (n / 16) + n % 16) == k * N + n
  {
    assert 16 * (N / 16) == N && 16 * (n / 16) + n % 16 == n && 16 * (k / 16) + k % 16 == k;
  }

  lemma LogicalAt(weight: Matrix<nat>, K: nat, N: nat, k: nat, n: nat)
    requires weight.Valid() && weight.rows == N && weight.cols == K / 2 && K % 2 == 0 && k < K && n < N
    ensures n * (K / 2) + k / 2 < |weight.data| && k * N + n < |Logical(weight, K, N).data|
    ensures Logical(weight, K, N).data[k * N + n] == NibbleAt(weight.data[n * (K / 2) + k / 2], k)
  {
    hide Low, High, Unpack, TurnedData;
    EvenCells(K, N);
    var x := Matrix(N, K, Unpack(weight.data));
    TransposeAt(x, n, k);
    Nest(n, N, k / 2, K / 2);
    var i := n * (K / 2) + k / 2;
    UnpackAt(weight.data, i);
    EvenCells(K, n);
    assert n * K + k == 2 * i + k % 2;
  }
}
