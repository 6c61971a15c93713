/** The projection kernel hc_prenorm_gemm_kernel
  (src/torchinferno/kernels/deepseek_v4_tilelang_definitions.py): every thread sums a strided part of
  the row, every warp its 32 threads, and one warp the warps. Arithmetic is exact. */
module PrenormGemm {
  import opened IndexSums
  import opened IntMath
  import opened Options

  const WARP := 32

  /** What one thread accumulates: entries thread, thread + threads, ... */
  function ThreadSum(f: nat -> real, threads: nat, iters: nat, thread: nat): real {
    Range((it: nat) => f(it * threads + thread), 0, iters)
  }

  function WarpSum(f: nat -> real, threads: nat, iters: nat, warp: nat): real {
    Range((lane: nat) => ThreadSum(f, threads, iters, warp * WARP + lane), 0, WARP)
  }

  function BlockSum(f: nat -> real, threads: nat, iters: nat): real {
    Range((warp: nat) => WarpSum(f, threads, iters, warp), 0, threads / WARP)
  }

  /** The threads that count: those of the full warps. */
  function Counted(threads: nat): (n: nat)
    ensures n <= threads && n % WARP == 0 && (n == threads <==> threads % WARP == 0)
  {
    threads / WARP * WARP
  }

  /** The sum of the warps is that of the threads in full warps. */
  lemma WarpsAreThreads(f: nat -> real, threads: nat, iters: nat)
    ensures BlockSum(f, threads, iters) == Range((t: nat) => ThreadSum(f, threads, iters, t), 0, Counted(threads))
  {
    hide Range, ThreadSum;
    var g := (t: nat) => ThreadSum(f, threads, iters, t);
    var tile := (warp: nat) => WarpSum(f, threads, iters, warp);
    forall w: nat | w < threads / WARP ensures tile(w) == Range(g, w * WARP, WARP) {
      RangeShift(g, (lane: nat) => ThreadSum(f, threads, iters, w * WARP + lane), 0, w * WARP, WARP);
    }
    RangeTiles(g, tile, WARP, threads / WARP);
  }

  lemma ThreadsAreEntries(f: nat -> real, threads: nat, iters: nat)
    ensures Range((t: nat) => ThreadSum(f, threads, iters, t), 0, threads) == Range(f, 0, iters * threads)
  {
    hide Range;
    var F := (it: nat, t: nat) => f(it * threads + t);
    var rows := (it: nat) => Range(f, it * threads, threads);
    var cols := (t: nat) => ThreadSum(f, threads, iters, t);
    forall it: nat | it < iters ensures rows(it) == Range((j: nat) => F(it, j), 0, threads) {
      RangeShift(f, (j: nat) => F(it, j), 0, it * threads, threads);
    }
    forall t: nat | t < threads ensures cols(t) == Range((i: nat) => F(i, t), 0, iters) {
      RangeSame((it: nat) => f(it * threads + t), (i: nat) => F(i, t), 0, iters);
    }
    RangeSwap(F, rows, cols, iters, threads);
    RangeTiles(f, rows, threads, iters);
  }

  /** Whatever the row, threads, warps and block together sum each of the first
      (width / threads) * threads entries once. */
  lemma BlockSumIs(f: nat -> real, threads: nat, iters: nat)
    requires threads % WARP == 0
    ensures BlockSum(f, threads, iters) == Range(f, 0, iters * threads)
  {
    hide Range, BlockSum, ThreadSum;
    assert Counted(threads) == threads;
    WarpsAreThreads(f, threads, iters);
    ThreadsAreEntries(f, threads, iters);
  }

  function Dot(value: nat -> real, weight: nat -> real): nat -> real {
    (k: nat) => value(k) * weight(k)
  }

  /** The reduction of one accumulator, over iterations, lanes and warps. Lane 0 of every warp stores
      its sum in a shared array with a slot a full warp; `stray` says that a partial warp, whose slot
      is not there, stores as well. */
  method Reduce(f: nat -> real, threads: nat, iters: nat) returns (reduced: real, stray: bool)
    ensures reduced == BlockSum(f, threads, iters)
    ensures stray <==> threads % WARP != 0
  {
    hide Range, ThreadSum, WarpSum;
    var warps := threads / WARP;
    var warpOutput := new real[warps](_ => 0.0);
    stray := false;
    for warp := 0 to CeilDiv(threads, WARP)
      invariant forall w: nat :: w < warp && w < warps ==> warpOutput[w] == WarpSum(f, threads, iters, w)
      invariant stray <==> warp > warps
    {
      if warp < warps {
        warpOutput[warp] := WarpReduce(f, threads, iters, warp);
      } else {
        stray := true;
      }
    }
    ghost var sums := (w: nat) => WarpSum(f, threads, iters, w);
    RangeEmpty(sums);
    reduced := 0.0;
    for warp := 0 to warps
      invariant forall w: nat :: w < warps ==> warpOutput[w] == WarpSum(f, threads, iters, w)
      invariant reduced == Range(sums, 0, warp)
    {
      RangeNext(sums, warp);
      reduced := reduced + warpOutput[warp];
    }
    RangeSame((w: nat) => WarpSum(f, threads, iters, w), sums, 0, warps);
  }

  method ThreadReduce(f: nat -> real, threads: nat, iters: nat, thread: nat) returns (accumulator: real)
    ensures accumulator == ThreadSum(f, threads, iters, thread)
  {
    hide Range;
    var part := (it: nat) => f(it * threads + thread);
    accumulator := 0.0;
    RangeEmpty(part);
    for it := 0 to iters
      invariant accumulator == Range(part, 0, it)
    {
      RangeNext(part, it);
      accumulator := accumulator + f(it * threads + thread);
    }
    RangeSame((it: nat) => f(it * threads + thread), part, 0, iters);
  }

  method WarpReduce(f: nat -> real, threads: nat, iters: nat, warp: nat) returns (sum: real)
    ensures sum == WarpSum(f, threads, iters, warp)
  {
    hide Range, ThreadSum;
    sum := 0.0;
    var lanes := (lane: nat) => ThreadSum(f, threads, iters, warp * WARP + lane);
    RangeEmpty(lanes);
    for lane := 0 to WARP
      invariant sum == Range(lanes, 0, lane)
    {
      var accumulator := ThreadReduce(f, threads, iters, warp * WARP + lane);
      RangeNext(lanes, lane);
      sum := sum + accumulator;
    }
    RangeSame((lane: nat) => ThreadSum(f, threads, iters, warp * WARP + lane), lanes, 0, WARP);
  }

  // ----- what the grid stores -----

  /** The lanes of the first warp, which alone store outputs. */
  function Lanes(threads: nat): nat {
    if threads < WARP then threads else WARP
  }

  function Row(weight: (nat, nat) -> real, o: nat): nat -> real {
    (k: nat) => weight(o, k)
  }

  /** What the kernel leaves in output o, nothing when no lane is there to store it. */
  function OutputOf(value: nat -> real, weight: (nat, nat) -> real, width: nat, threads: nat, tile: nat, o: nat)
    : Option<real>
    requires threads > 0 && tile > 0
  {
    if o % tile < Lanes(threads) then Some(BlockSum(Dot(value, Row(weight, o)), threads, width / threads)) else None
  }

  /** And in the square sum, which the first tile stores. */
  function SquareOf(value: nat -> real, width: nat, outputs: nat, threads: nat): Option<real>
    requires threads > 0
  {
    if outputs > 0 then Some(BlockSum(Dot(value, value), threads, width / threads)) else None
  }

  /** Output o comes before lane `lane` of tile t, and some lane stores it. */
  predicate Reached(o: nat, tile: nat, lanes: nat, t: nat, lane: nat)
    requires tile > 0
  {
    o % tile < lanes && (o / tile < t || (o / tile == t && o % tile < lane))
  }

  lemma ReachedNext(o: nat, tile: nat, lanes: nat, t: nat, lane: nat)
    requires tile > 0 && lane < lanes
    ensures Reached(o, tile, lanes, t, lane + 1) <==>
      Reached(o, tile, lanes, t, lane) || (lane < tile && o == t * tile + lane)
  {
    assert o == o / tile * tile + o % tile;
    if lane < tile {
      DivMod(t, lane, tile);
    }
  }

  lemma ReachedTile(o: nat, tile: nat, lanes: nat, t: nat)
    requires tile > 0
    ensures Reached(o, tile, lanes, t + 1, 0) <==> Reached(o, tile, lanes, t, lanes)
  {
  }

  lemma ReachedAll(o: nat, tile: nat, lanes: nat, outputs: nat)
    requires tile > 0 && o < outputs
    ensures Reached(o, tile, lanes, CeilDiv(outputs, tile), 0) <==> o % tile < lanes
  {
    var c := CeilDiv(outputs, tile);
    assert o == o / tile * tile + o % tile;
    MulLess(o / tile, c, tile);
  }

  /** All outputs of one token, tile by tile, and its squared norm, with the kernel's guards: a lane
      stores its output if it is below the tile size, and the first tile stores the square. */
  method HcPrenorm(value: nat -> real, weight: (nat, nat) -> real, width: nat, outputs: nat,
                   threads: nat, outputTile: nat)
    returns (output: array<Option<real>>, square: Option<real>, stray: bool)
    requires threads > 0 && outputTile > 0
    ensures output.Length == outputs
    ensures forall o: nat :: o < outputs ==> output[o] == OutputOf(value, weight, width, threads, outputTile, o)
    ensures square == SquareOf(value, width, outputs, threads)
    ensures stray <==> outputs > 0 && threads % WARP != 0
  {
    hide Dot, BlockSum, Row, Reached, CeilDiv;
    var lanes, iters := Lanes(threads), width / threads;
    output := new Option<real>[outputs](_ => None);
    square, stray := None, false;
    assert forall o: nat :: o < outputs ==> !Reached(o, outputTile, lanes, 0, 0) by {
      NoneReached(outputs, outputTile, lanes);
    }
    for tile := 0 to CeilDiv(outputs, outputTile)
      invariant StoredSoFar(output, value, weight, width, threads, outputTile, tile, 0)
      invariant square == if tile > 0 then SquareOf(value, width, outputs, threads) else None
      invariant stray <==> tile > 0 && threads % WARP != 0
    {
      StoreTile(output, value, weight, width, threads, outputTile, tile);
      if tile == 0 {
        var sum, s := Reduce(Dot(value, value), threads, iters);
        square, stray := Some(sum), s;
      }
    }
    forall o: nat | o < outputs ensures output[o] == OutputOf(value, weight, width, threads, outputTile, o) {
      ReachedAll(o, outputTile, lanes, outputs);
    }
  }

  /** The outputs of one tile. */
  method StoreTile(output: array<Option<real>>, value: nat -> real, weight: (nat, nat) -> real, width: nat,
                   threads: nat, outputTile: nat, tile: nat)
    requires threads > 0 && outputTile > 0
    requires StoredSoFar(output, value, weight, width, threads, outputTile, tile, 0)
    modifies output
    ensures StoredSoFar(output, value, weight, width, threads, outputTile, tile + 1, 0)
  {
    hide Dot, BlockSum, Row, Reached, OutputOf;
    var lanes, iters := Lanes(threads), width / threads;
    for lane := 0 to lanes
      invariant StoredSoFar(output, value, weight, width, threads, outputTile, tile, lane)
    {
      var index := tile * outputTile + lane;
      forall o: nat {
        ReachedNext(o, outputTile, lanes, tile, lane);
      }
      if lane < outputTile && index < output.Length {
        var reduced, _ := Reduce(Dot(value, Row(weight, index)), threads, iters);
        output[index] := Some(reduced);
        OutputIs(value, weight, width, threads, outputTile, tile, lane, index);
      }
    }
    forall o: nat {
      ReachedTile(o, outputTile, lanes, tile);
    }
  }

  lemma OutputIs(value: nat -> real, weight: (nat, nat) -> real, width: nat, threads: nat, tile: nat, t: nat, lane: nat,
                 o: nat)
    requires threads > 0 && lane < tile && lane < Lanes(threads) && o == t * tile + lane
    ensures OutputOf(value, weight, width, threads, tile, o)
         == Some(BlockSum(Dot(value, Row(weight, o)), threads, width / threads))
  {
    hide BlockSum, Dot, Row;
    DivMod(t, lane, tile);
  }

  lemma NoneReached(outputs: nat, tile: nat, lanes: nat)
    requires tile > 0
    ensures forall o: nat :: o < outputs ==> !Reached(o, tile, lanes, 0, 0)
  {
  }

  /** Output o when the grid has come to lane `lane` of tile t. */
  function Expect(value: nat -> real, weight: (nat, nat) -> real, width: nat, threads: nat, tile: nat, t: nat,
                  lane: nat, o: nat): Option<real>
    requires threads > 0 && tile > 0
  {
    if Reached(o, tile, Lanes(threads), t, lane) then OutputOf(value, weight, width, threads, tile, o) else None
  }

  ghost predicate StoredSoFar(output: array<Option<real>>, value: nat -> real, weight: (nat, nat) -> real, width: nat,
                              threads: nat, tile: nat, t: nat, lane: nat)
    requires threads > 0 && tile > 0
    reads output
  {
    forall o: nat :: o < output.Length ==> output[o] == Expect(value, weight, width, threads, tile, t, lane, o)
  }

  // ----- when that is the projection -----

  /** The terms of output o, and of the square. */
  function Term(value: nat -> real, weight: (nat, nat) -> real, o: nat): nat -> real {
    (k: nat) => value(k) * weight(o, k)
  }

  function Square(value: nat -> real): nat -> real {
    (k: nat) => value(k) * value(k)
  }

  lemma TermsAre(value: nat -> real, weight: (nat, nat) -> real, o: nat, width: nat)
    ensures Range(Dot(value, Row(weight, o)), 0, width) == Range(Term(value, weight, o), 0, width)
    ensures Range(Dot(value, value), 0, width) == Range(Square(value), 0, width)
  {
    RangeSame(Term(value, weight, o), Dot(value, Row(weight, o)), 0, width);
    RangeSame(Square(value), Dot(value, value), 0, width);
  }

  /** Every output and the square are stored and are the dot products. */
  ghost predicate Computes(value: nat -> real, weight: (nat, nat) -> real, width: nat, outputs: nat, threads: nat,
                           tile: nat)
    requires threads > 0 && tile > 0
  {
    && (forall o: nat :: o < outputs ==>
      OutputOf(value, weight, width, threads, tile, o) == Some(Range(Term(value, weight, o), 0, width)))
    && SquareOf(value, width, outputs, threads) == Some(Range(Square(value), 0, width))
  }

  /** No thread stores past the shared array, and every row is projected right. */
  ghost predicate Correct(width: nat, outputs: nat, threads: nat, tile: nat)
    requires threads > 0 && tile > 0
  {
    && !(outputs > 0 && threads % WARP != 0)
    && forall value: nat -> real, weight: (nat, nat) -> real :: Computes(value, weight, width, outputs, threads, tile)
  }

  /** f is 1 at e and 0 elsewhere. */
  ghost predicate OnlyAt(f: nat -> real, e: nat) {
    forall k: nat :: f(k) == if k == e then 1.0 else 0.0
  }

  lemma {:induction false} IndicatorSum(f: nat -> real, e: nat, n: nat)
    requires OnlyAt(f, e)
    ensures Range(f, 0, n) == if e < n then 1.0 else 0.0
  {
    if n > 0 {
      IndicatorSum(f, e, n - 1);
    }
  }

  /** Entry e lies past the last full round, or belongs to a thread in a partial warp. */
  predicate Skipped(e: nat, iters: nat, threads: nat)
    requires threads > 0
  {
    e % threads >= Counted(threads) || e >= iters * threads
  }

  lemma NotSkipped(it: nat, t: nat, e: nat, iters: nat, threads: nat)
    requires threads > 0 && it < iters && t < Counted(threads) && Skipped(e, iters, threads)
    ensures it * threads + t != e
  {
    DivMod(it, t, threads);
    MulAtMost(it + 1, iters, threads);
    Distribute(it, 1, threads);
  }

  lemma ThreadMisses(f: nat -> real, e: nat, iters: nat, threads: nat, t: nat)
    requires threads > 0 && OnlyAt(f, e)
    requires t < Counted(threads) && Skipped(e, iters, threads)
    ensures ThreadSum(f, threads, iters, t) == 0.0
  {
    hide Range, Skipped, Counted;
    var part := (it: nat) => f(it * threads + t);
    forall it: nat | it < iters ensures part(it) == 0.0 {
      NotSkipped(it, t, e, iters, threads);
    }
    RangeZero(part, 0, iters);
    RangeSame((it: nat) => f(it * threads + t), part, 0, iters);
  }

  /** A skipped entry is not summed. */
  lemma Missed(f: nat -> real, e: nat, width: nat, threads: nat, iters: nat)
    requires threads > 0 && e < width && OnlyAt(f, e)
    requires Skipped(e, iters, threads)
    ensures BlockSum(f, threads, iters) == 0.0 && Range(f, 0, width) == 1.0
  {
    hide Range, BlockSum, Skipped, ThreadSum, Counted;
    var g := (t: nat) => ThreadSum(f, threads, iters, t);
    forall t: nat | t < Counted(threads) ensures g(t) == 0.0 {
      ThreadMisses(f, e, iters, threads, t);
    }
    RangeZero(g, 0, Counted(threads));
    WarpsAreThreads(f, threads, iters);
    RangeSame((t: nat) => ThreadSum(f, threads, iters, t), g, 0, Counted(threads));
    IndicatorSum(f, e, width);
  }

  /** The reduction is the dot product of every pair of rows exactly when there is nothing to sum, or
      every warp is full and the thread count divides the width. */
  lemma DotExactlyWhenDivides(width: nat, threads: nat)
    requires threads > 0
    ensures (forall f: nat -> real :: BlockSum(f, threads, width / threads) == Range(f, 0, width))
       <==> width == 0 || (threads % WARP == 0 && width % threads == 0)
  {
    hide Range, BlockSum;
    var iters := width / threads;
    assert iters * threads + width % threads == width;
    if width == 0 {
      forall f: nat -> real ensures BlockSum(f, threads, iters) == Range(f, 0, width) {
        NothingToSum(f, threads);
      }
    } else if threads % WARP == 0 && width % threads == 0 {
      forall f: nat -> real ensures BlockSum(f, threads, iters) == Range(f, 0, width) {
        BlockSumIs(f, threads, iters);
      }
    } else {
      var e := MissedEntry(width, threads);
      var f := (k: nat) => if k == e then 1.0 else 0.0;
      Missed(f, e, width, threads, width / threads);
      assert BlockSum(f, threads, iters) != Range(f, 0, width);
    }
  }

  lemma NothingToSum(f: nat -> real, threads: nat)
    ensures BlockSum(f, threads, 0) == Range(f, 0, 0)
  {
    hide Range, BlockSum;
    var g := (t: nat) => ThreadSum(f, threads, 0, t);
    forall t: nat | t < Counted(threads) ensures g(t) == 0.0 {
      RangeEmpty((it: nat) => f(it * threads + t));
    }
    RangeZero(g, 0, Counted(threads));
    WarpsAreThreads(f, threads, 0);
    RangeSame((t: nat) => ThreadSum(f, threads, 0, t), g, 0, Counted(threads));
    RangeEmpty(f);
  }

  lemma MissedEntry(width: nat, threads: nat) returns (e: nat)
    requires threads > 0 && width > 0 && !(threads % WARP == 0 && width % threads == 0)
    ensures e < width && Skipped(e, width / threads, threads)
  {
    var n := width / threads * threads;
    assert n + width % threads == width;
    if width % threads != 0 {
      e := width - 1;
      assert e >= n;
    } else {
      e := threads - 1;
      DivMod(0, e, threads);
      AtLeastOnce(width, threads);
      assert e >= Counted(threads);
    }
  }

  lemma AtLeastOnce(width: nat, threads: nat)
    requires threads > 0 && width > 0 && width % threads == 0
    ensures threads <= width
  {
    if width < threads {
      DivMod(0, width, threads);
    }
  }

  /** The kernel is correct for every value and weight exactly when every warp is full, the thread count
      divides the width, there is an output, and no tile has more outputs than a warp has lanes. */
  lemma CorrectIff(width: nat, outputs: nat, threads: nat, tile: nat)
    requires threads > 0 && tile > 0
    ensures Correct(width, outputs, threads, tile) <==>
      threads % WARP == 0 && width % threads == 0 && outputs > 0 && (outputs <= WARP || tile <= WARP)
  {
    hide Computes;
    var fits := outputs <= WARP || tile <= WARP;
    if threads % WARP == 0 && width % threads == 0 && outputs > 0 && fits {
      forall value: nat -> real, weight: (nat, nat) -> real ensures Computes(value, weight, width, outputs, threads, tile) {
        AllRight(value, weight, width, outputs, threads, tile);
      }
    } else if Correct(width, outputs, threads, tile) {
      var zero, zeros := (k: nat) => 0.0, (o: nat, k: nat) => 0.0;
      assert Computes(zero, zeros, width, outputs, threads, tile);
      if outputs == 0 || !fits {
        NotStored(zero, zeros, width, outputs, threads, tile);
      }
      if width > 0 && !(threads % WARP == 0 && width % threads == 0) {
        var e := MissedEntry(width, threads);
        var one := (k: nat) => if k == e then 1.0 else 0.0;
        assert Computes(one, zeros, width, outputs, threads, tile);
        SquareMissed(one, zeros, e, width, outputs, threads, tile);
      }
    }
  }

  lemma AllRight(value: nat -> real, weight: (nat, nat) -> real, width: nat, outputs: nat, threads: nat, tile: nat)
    requires threads > 0 && tile > 0 && threads % WARP == 0 && width % threads == 0 && outputs > 0
    requires outputs <= WARP || tile <= WARP
    ensures Computes(value, weight, width, outputs, threads, tile)
  {
    hide Range, BlockSum, Dot, Row, Term, Square;
    assert width / threads * threads == width;
    TermsAre(value, weight, 0, width);
    forall o: nat | o < outputs
      ensures OutputOf(value, weight, width, threads, tile, o) == Some(Range(Term(value, weight, o), 0, width))
    {
      TermsAre(value, weight, o, width);
      SmallRemainder(o, tile);
      BlockSumIs(Dot(value, Row(weight, o)), threads, width / threads);
    }
    BlockSumIs(Dot(value, value), threads, width / threads);
  }

  lemma SmallRemainder(o: nat, tile: nat)
    requires tile > 0
    ensures o % tile < tile && o % tile <= o
  {
    assert o == o / tile * tile + o % tile;
    assert o / tile * tile >= 0;
  }

  /** Output 32 of a tile with more than 32 outputs has no lane, and no grid stores the square without
      an output. */
  lemma NotStored(value: nat -> real, weight: (nat, nat) -> real, width: nat, outputs: nat, threads: nat, tile: nat)
    requires threads > 0 && tile > 0 && (outputs == 0 || (outputs > WARP && tile > WARP))
    ensures !Computes(value, weight, width, outputs, threads, tile)
  {
    hide Range, BlockSum, Dot, Row;
    if outputs > 0 {
      DivMod(0, WARP, tile);
      assert OutputOf(value, weight, width, threads, tile, WARP) == None;
    }
  }

  lemma SquareMissed(one: nat -> real, weight: (nat, nat) -> real, e: nat, width: nat, outputs: nat, threads: nat,
                     tile: nat)
    requires threads > 0 && tile > 0 && e < width && OnlyAt(one, e)
    requires Skipped(e, width / threads, threads)
    ensures !Computes(one, weight, width, outputs, threads, tile)
  {
    hide Range, BlockSum, Skipped;
    var f := Dot(one, one);
    assert OnlyAt(f, e) by {
      SquareOfOne(one, e);
    }
    Missed(f, e, width, threads, width / threads);
    hide *;
    SquareIs(one, width, outputs, threads, f);
    NoSquare(one, weight, width, outputs, threads, tile, f);
  }

  lemma SquareOfOne(one: nat -> real, e: nat)
    requires OnlyAt(one, e)
    ensures OnlyAt(Dot(one, one), e)
  {
  }

  lemma SquareIs(value: nat -> real, width: nat, outputs: nat, threads: nat, f: nat -> real)
    requires threads > 0 && f == Dot(value, value) && BlockSum(f, threads, width / threads) == 0.0
    ensures SquareOf(value, width, outputs, threads) == None || SquareOf(value, width, outputs, threads) == Some(0.0)
  {
    hide BlockSum, Dot;
  }

  lemma NoSquare(value: nat -> real, weight: (nat, nat) -> real, width: nat, outputs: nat, threads: nat, tile: nat,
                 f: nat -> real)
    requires threads > 0 && tile > 0 && f == Dot(value, value)
    requires SquareOf(value, width, outputs, threads) != Some(Range(f, 0, width))
    ensures !Computes(value, weight, width, outputs, threads, tile)
  {
    hide Range, Dot, SquareOf, OutputOf, Row, Term, Square;
    TermsAre(value, weight, 0, width);
  }

  /** With the kernel's own thread count and tile, and a width its caller lets through, an empty list of
      outputs is the only failure. */
  lemma DefaultsCorrectIff(width: nat, outputs: nat)
    requires width % 1024 == 0
    ensures Correct(width, outputs, 1024, 4) <==> outputs > 0
  {
    CorrectIff(width, outputs, 1024, 4);
  }
}
