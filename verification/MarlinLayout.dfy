/** The layouts the Marlin kernels read (src/torchinferno/kernels/marlin.py and
  deepseek_v4_marlin.py): 16 by 16 tiles, a permutation of every four tiles, eight nibbles to a
  32-bit word, and the permuted scales. Tensors are flat, row by row. */
module MarlinLayout {
  import opened Nibbles
  import opened IntMath

  // ----- gathering by a permutation -----

  predicate Gathers(n: nat, perm: seq<nat>) {
    |perm| > 0 && n % |perm| == 0 && forall i :: 0 <= i < |perm| ==> perm[i] < |perm|
  }

  function Source(q: nat, perm: seq<nat>): nat
    requires |perm| > 0
  {
    (q / |perm|) * |perm| + perm[q % |perm|]
  }

  lemma SourceParts(n: nat, q: nat, perm: seq<nat>)
    requires Gathers(n, perm) && q < n
    ensures var s := Source(q, perm);
      s < n && s / |perm| == q / |perm| && s % |perm| == perm[q % |perm|]
  {
    var d, a := |perm|, q / |perm|;
    DivMod(a, perm[q % d], d);
    assert q == a * d + q % d && n == (n / d) * d;
    MulLess(a, n / d, d);
    MulAtMost(a + 1, n / d, d);
    Distribute(a, 1, d);
  }

  /** x seen as rows of |perm| elements, each row gathered by perm. */
  function Gather<T>(x: seq<T>, perm: seq<nat>): (y: seq<T>)
    requires Gathers(|x|, perm)
    ensures |y| == |x|
  {
    seq(|x|, q requires 0 <= q < |x| => SourceParts(|x|, q, perm); x[Source(q, perm)])
  }

  ghost predicate Inverse(perm: seq<nat>, inv: seq<nat>) {
    |perm| == |inv| &&
    forall i :: 0 <= i < |perm| ==> inv[i] < |perm| && perm[inv[i]] == i
  }

  lemma GatherInverse<T>(x: seq<T>, perm: seq<nat>, inv: seq<nat>)
    requires Gathers(|x|, perm) && Inverse(perm, inv)
    ensures Gathers(|x|, inv) && Gather(Gather(x, perm), inv) == x
  {
    hide Source;
    forall q | 0 <= q < |x| ensures Gather(Gather(x, perm), inv)[q] == x[q] {
      SourceParts(|x|, q, inv);
      SourceParts(|x|, Source(q, inv), perm);
      Recompose(Source(Source(q, inv), perm), q, |perm|);
    }
  }

  lemma Recompose(a: nat, b: nat, d: nat)
    requires d > 0 && a / d == b / d && a % d == b % d
    ensures a == b
  {
    assert a == (a / d) * d + a % d;
    assert b == (b / d) * d + b % d;
  }

  // ----- the permutation of 1024 weights -----

  /** An element of four tiles: its tile, and its row 8 * h + 2 * g + e and column 8 * b + c in it. */
  datatype Element = Element(tile: nat, h: nat, g: nat, e: nat, b: nat, c: nat) {
    predicate Valid() {
      tile < 4 && h < 2 && g < 4 && e < 2 && b < 2 && c < 8
    }
    function Row(): nat {
      (h * 4 + g) * 2 + e
    }
    function Column(): nat {
      b * 8 + c
    }
    /** Its place in the four tiles, row by row. */
    function Value(): nat {
      ((((tile * 2 + h) * 4 + g) * 2 + e) * 2 + b) * 8 + c
    }
    /** Its place in the permuted order: thread 4 * c + g, then the tile, then the nibble of a word. */
    function Slot(): nat {
      ((((c * 4 + g) * 4 + tile) * 2 + e) * 2 + b) * 2 + h
    }
  }

  function AtSlot(i: nat): Element {
    var w1 := i / 2;
    var w2 := w1 / 2;
    var w3 := w2 / 2;
    var w4 := w3 / 4;
    Element(w3 % 4, i % 2, w4 % 4, w2 % 2, w1 % 2, w4 / 4)
  }

  function AtValue(v: nat): Element {
    var w1 := v / 8;
    var w2 := w1 / 2;
    var w3 := w2 / 2;
    var w4 := w3 / 4;
    Element(w4 / 2, w4 % 2, w3 % 4, w2 % 2, w1 % 2, v % 8)
  }

  lemma SlotOfAtSlot(i: nat)
    requires i < 1024
    ensures AtSlot(i).Valid() && AtSlot(i).Slot() == i
  {
  }

  lemma ValueOfAtValue(v: nat)
    requires v < 1024
    ensures AtValue(v).Valid() && AtValue(v).Value() == v
  {
  }

  lemma AtSlotOf(x: Element)
    requires x.Valid()
    ensures x.Slot() < 1024 && AtSlot(x.Slot()) == x
  {
    var w4 := x.c * 4 + x.g;
    var w3 := w4 * 4 + x.tile;
    var w2 := w3 * 2 + x.e;
    var w1 := w2 * 2 + x.b;
    assert w1 / 2 == w2 && w2 / 2 == w3 && w3 / 4 == w4;
    assert (w1 * 2 + x.h) / 2 == w1;
  }

  lemma AtValueOf(x: Element)
    requires x.Valid()
    ensures x.Value() < 1024 && AtValue(x.Value()) == x
  {
    var w4 := x.tile * 2 + x.h;
    var w3 := w4 * 4 + x.g;
    var w2 := w3 * 2 + x.e;
    var w1 := w2 * 2 + x.b;
    assert w1 / 2 == w2 && w2 / 2 == w3 && w3 / 4 == w4;
    assert (w1 * 8 + x.c) / 8 == w1;
  }

  function WeightEntry(i: nat): (v: nat)
    requires i < 1024
    ensures v < 1024
  {
    SlotOfAtSlot(i);
    AtSlot(i).Value()
  }

  function WeightSlot(v: nat): (i: nat)
    requires v < 1024
    ensures i < 1024
  {
    ValueOfAtValue(v);
    AtValue(v).Slot()
  }

  function WeightPerm(): (perm: seq<nat>)
    ensures |perm| == 1024 && forall i :: 0 <= i < 1024 ==> perm[i] == WeightEntry(i)
  {
    seq(1024, i requires 0 <= i < 1024 => WeightEntry(i))
  }

  function WeightSlots(): (inv: seq<nat>)
    ensures |inv| == 1024 && forall v :: 0 <= v < 1024 ==> inv[v] == WeightSlot(v)
  {
    seq(1024, v requires 0 <= v < 1024 => WeightSlot(v))
  }

  lemma EntryOfSlot(v: nat)
    requires v < 1024
    ensures WeightEntry(WeightSlot(v)) == v
  {
    hide AtValue, AtSlot, Element.Slot, Element.Value;
    ValueOfAtValue(v);
    AtSlotOf(AtValue(v));
  }

  lemma SlotOfEntry(i: nat)
    requires i < 1024
    ensures WeightSlot(WeightEntry(i)) == i
  {
    hide AtValue, AtSlot, Element.Slot, Element.Value;
    SlotOfAtSlot(i);
    AtValueOf(AtSlot(i));
  }

  lemma WeightPermInverse()
    ensures Inverse(WeightPerm(), WeightSlots()) && Inverse(WeightSlots(), WeightPerm())
  {
    hide WeightEntry, WeightSlot;
    forall v: nat | v < 1024 ensures WeightEntry(WeightSlot(v)) == v && WeightSlot(WeightEntry(v)) == v {
      EntryOfSlot(v);
      SlotOfEntry(v);
    }
  }

  // ----- building the permutation -----

  function RowOf(index: nat, r: nat): nat {
    2 * (index % 4 + 4 * ((r / 2) % 2)) + r % 2
  }

  function TileEntry(index: nat, p: nat): nat {
    16 * RowOf(index, p % 4) + index / 4 + 8 * (p / 4)
  }

  /** Entry x of the list before its eights are interleaved. */
  function Raw(x: nat): nat {
    TileEntry(x / 32, x % 8) + 256 * ((x / 8) % 4)
  }

  const INTERLEAVE: seq<nat> := [0, 2, 4, 6, 1, 3, 5, 7]

  lemma InterleaveParts(t: nat)
    requires t < 8
    ensures var p := INTERLEAVE[t];
      p / 4 == t / 2 % 2 && p % 4 / 2 % 2 == t % 2 && p % 4 % 2 == t / 4 && p < 8
  {
    if t < 4 {
      assert INTERLEAVE[t] == 2 * t;
    } else {
      assert INTERLEAVE[t] == 2 * (t - 4) + 1;
    }
  }

  /** Interleaving takes the entry of thread w / 4 and tile w % 4 that belongs in nibble t. */
  lemma InterleavedEntry(w: nat, t: nat)
    requires w < 128 && t < 8
    ensures Raw(8 * w + INTERLEAVE[t]) == WeightEntry(8 * w + t)
  {
    hide Raw, WeightEntry;
    InterleaveParts(t);
    RawParts(w, INTERLEAVE[t]);
    EntryParts(w, t);
  }

  lemma RawParts(w: nat, p: nat)
    requires w < 128 && p < 8
    ensures Raw(8 * w + p) == TileEntry(w / 4, p) + 256 * (w % 4)
  {
    var x := 8 * w + p;
    assert x / 8 == w && x % 8 == p;
    assert x / 32 == w / 4;
  }

  lemma EntryParts(w: nat, t: nat)
    requires w < 128 && t < 8
    ensures WeightEntry(8 * w + t)
         == 256 * (w % 4) + 16 * (2 * (w / 4 % 4 + 4 * (t % 2)) + t / 4) + w / 4 / 4 + 8 * (t / 2 % 2)
  {
    hide AtSlot;
    var index, t1 := w / 4, t / 2;
    var x := Element(w % 4, t % 2, index % 4, t / 4, t1 % 2, index / 4);
    assert t == 4 * x.e + 2 * x.b + x.h;
    assert w == 16 * x.c + 4 * x.g + x.tile;
    assert x.Slot() == 8 * w + t;
    AtSlotOf(x);
  }

  method TileOf(index: nat) returns (tile: seq<nat>)
    ensures |tile| == 8 && forall p :: 0 <= p < 8 ==> tile[p] == TileEntry(index, p)
  {
    var column := index / 4;
    tile := [];
    for block := 0 to 2
      invariant |tile| == 4 * block && forall p :: 0 <= p < |tile| ==> tile[p] == TileEntry(index, p)
    {
      var rows := [2 * (index % 4), 2 * (index % 4) + 1, 2 * (index % 4 + 4), 2 * (index % 4 + 4) + 1];
      for r := 0 to 4
        invariant |tile| == 4 * block + r && forall p :: 0 <= p < |tile| ==> tile[p] == TileEntry(index, p)
      {
        assert rows[r] == RowOf(index, r);
        assert (4 * block + r) / 4 == block && (4 * block + r) % 4 == r;
        tile := tile + [16 * rows[r] + column + 8 * block];
      }
    }
  }

  /** The nested loops of _weight_permutation and _get_weight_perm build the permutation. */
  method WeightPermutation() returns (perm: seq<nat>)
    ensures perm == WeightPerm()
  {
    hide TileEntry, WeightEntry, Raw;
    var values: seq<nat> := [];
    for index := 0 to 32
      invariant |values| == 32 * index && forall x :: 0 <= x < |values| ==> values[x] == Raw(x)
    {
      var tile := TileOf(index);
      for group := 0 to 4
        invariant |values| == 32 * index + 8 * group && forall x :: 0 <= x < |values| ==> values[x] == Raw(x)
      {
        var shifted := seq(8, p requires 0 <= p < 8 => tile[p] + 256 * group);
        forall p | 0 <= p < 8 ensures shifted[p] == Raw(|values| + p) {
          var w := 4 * index + group;
          RawParts(w, p);
          assert w / 4 == index && w % 4 == group;
        }
        values := values + shifted;
      }
    }
    perm := seq(1024, i requires 0 <= i < 1024 => values[8 * (i / 8) + INTERLEAVE[i % 8]]);
    forall i | 0 <= i < 1024 ensures perm[i] == WeightEntry(i) {
      InterleavedEntry(i / 8, i % 8);
    }
  }

  // ----- tiles of 16 by 16 -----

  /** n is the size of a tiles by m tiles. */
  predicate Tileable(n: nat, a: nat, m: nat) {
    n == 256 * (a * m)
  }

  /** Place of row r and column c of tile (kt, nt) in tile order. */
  function TilePlace(m: nat, kt: nat, nt: nat, r: nat, c: nat): nat {
    ((kt * m + nt) * 16 + r) * 16 + c
  }

  /** The same element's place in the matrix of m * 16 columns. */
  function RowPlace(m: nat, kt: nat, nt: nat, r: nat, c: nat): nat {
    ((kt * 16 + r) * m + nt) * 16 + c
  }

  lemma RowPlaceIs(m: nat, kt: nat, nt: nat, r: nat, c: nat)
    ensures RowPlace(m, kt, nt, r, c) == (16 * kt + r) * (16 * m) + (16 * nt + c)
  {
  }

  /** Where the permuted view takes its element q from. */
  function TileSource(q: nat, m: nat): nat
    requires m > 0
  {
    RowPlace(m, q / 256 / m, q / 256 % m, q / 16 % 16, q % 16)
  }

  /** Where element p of the matrix goes. */
  function TileTarget(p: nat, m: nat): nat
    requires m > 0
  {
    TilePlace(m, p / 16 / m / 16, p / 16 % m, p / 16 / m % 16, p % 16)
  }

  lemma SourceOfPlace(m: nat, kt: nat, nt: nat, r: nat, c: nat)
    requires nt < m && r < 16 && c < 16
    ensures TileSource(TilePlace(m, kt, nt, r, c), m) == RowPlace(m, kt, nt, r, c)
  {
    hide RowPlace;
    DivMod(kt, nt, m);
    TileDigits(kt * m + nt, r, c);
  }

  lemma TargetOfPlace(m: nat, kt: nat, nt: nat, r: nat, c: nat)
    requires nt < m && r < 16 && c < 16
    ensures TileTarget(RowPlace(m, kt, nt, r, c), m) == TilePlace(m, kt, nt, r, c)
  {
    hide TilePlace, RowPlace;
    var u := (kt * 16 + r) * m + nt;
    PlainRow(m, kt, nt, r, c);
    DivMod(kt * 16 + r, nt, m);
    DivMod(u, c, 16);
    DivMod(kt, r, 16);
  }

  lemma PlainRow(m: nat, kt: nat, nt: nat, r: nat, c: nat)
    ensures RowPlace(m, kt, nt, r, c) == ((kt * 16 + r) * m + nt) * 16 + c
  {
  }

  lemma TileDigits(tile: nat, r: nat, c: nat)
    requires r < 16 && c < 16
    ensures var q := (tile * 16 + r) * 16 + c;
      q / 256 == tile && q / 16 == tile * 16 + r && q / 16 % 16 == r && q % 16 == c
  {
  }

  lemma Nest(u: nat, n: nat, c: nat, k: nat)
    requires u < n && c < k
    ensures u * k + c < n * k
  {
    MulAtMost(u + 1, n, k);
    Distribute(u, 1, k);
  }

  lemma InTiles(a: nat, m: nat, kt: nat, nt: nat, r: nat, c: nat)
    requires kt < a && nt < m && r < 16 && c < 16
    ensures RowPlace(m, kt, nt, r, c) < 256 * (a * m) && TilePlace(m, kt, nt, r, c) < 256 * (a * m)
  {
    Nest(kt, a, nt, m);
    Nest(kt * 16 + r, a * 16, nt, m);
    Sixteens(a, m);
  }

  lemma Sixteens(a: nat, m: nat)
    ensures (a * 16) * m == 16 * (a * m)
  {
  }

  /** Every place is the place of one element, in either order. */
  lemma TileParts(a: nat, m: nat, q: nat)
    requires q < 256 * (a * m)
    ensures m > 0 && var kt, nt := q / 256 / m, q / 256 % m;
      kt < a && nt < m && q == TilePlace(m, kt, nt, q / 16 % 16, q % 16)
  {
    var t := q / 256;
    assert m > 0;
    assert t == (t / m) * m + t % m;
    MulLess(t / m, a, m);
    assert q == (t * 16 + q / 16 % 16) * 16 + q % 16;
  }

  lemma RowParts(a: nat, m: nat, q: nat)
    requires q < 256 * (a * m)
    ensures m > 0 && var u := q / 16;
      u / m / 16 < a && u % m < m && q == RowPlace(m, u / m / 16, u % m, u / m % 16, q % 16)
  {
    var u := q / 16;
    assert m > 0;
    var k := u / m;
    assert u == k * m + u % m;
    Sixteens(a, m);
    MulLess(k, a * 16, m);
    hide RowPlace;
    PlainRow(m, k / 16, u % m, k % 16, q % 16);
    assert k / 16 * 16 + k % 16 == k;
    assert q == u * 16 + q % 16;
  }

  function Tiled(x: seq<Nibble>, a: nat, m: nat): (y: seq<Nibble>)
    requires Tileable(|x|, a, m)
    ensures |y| == |x|
  {
    seq(|x|, q requires 0 <= q < |x| => TileSourceIn(a, m, q); x[TileSource(q, m)])
  }

  function Untiled(y: seq<Nibble>, a: nat, m: nat): (x: seq<Nibble>)
    requires Tileable(|y|, a, m)
    ensures |x| == |y|
  {
    seq(|y|, p requires 0 <= p < |y| => TileSourceIn(a, m, p); y[TileTarget(p, m)])
  }

  lemma TileSourceIn(a: nat, m: nat, q: nat)
    requires q < 256 * (a * m)
    ensures m > 0 && TileSource(q, m) < 256 * (a * m) && TileTarget(q, m) < 256 * (a * m)
    ensures TileTarget(TileSource(q, m), m) == q && TileSource(TileTarget(q, m), m) == q
  {
    hide *;
    SourceIn(a, m, q);
    TargetIn(a, m, q);
  }

  lemma SourceIn(a: nat, m: nat, q: nat)
    requires q < 256 * (a * m)
    ensures m > 0 && TileSource(q, m) < 256 * (a * m) && TileTarget(TileSource(q, m), m) == q
  {
    hide *;
    TileParts(a, m, q);
    var kt, nt, r, c := q / 256 / m, q / 256 % m, q / 16 % 16, q % 16;
    InTiles(a, m, kt, nt, r, c);
    SourceOfPlace(m, kt, nt, r, c);
    TargetOfPlace(m, kt, nt, r, c);
  }

  lemma TargetIn(a: nat, m: nat, q: nat)
    requires q < 256 * (a * m)
    ensures m > 0 && TileTarget(q, m) < 256 * (a * m) && TileSource(TileTarget(q, m), m) == q
  {
    hide *;
    RowParts(a, m, q);
    var u := q / 16;
    var kt, nt, r, c := u / m / 16, u % m, u / m % 16, q % 16;
    InTiles(a, m, kt, nt, r, c);
    SourceOfPlace(m, kt, nt, r, c);
    TargetOfPlace(m, kt, nt, r, c);
  }

  lemma TilesUndone(x: seq<Nibble>, a: nat, m: nat)
    requires Tileable(|x|, a, m)
    ensures Untiled(Tiled(x, a, m), a, m) == x && Tiled(Untiled(x, a, m), a, m) == x
  {
    hide TileSource, TileTarget;
    forall q | 0 <= q < |x|
      ensures Untiled(Tiled(x, a, m), a, m)[q] == x[q] && Tiled(Untiled(x, a, m), a, m)[q] == x[q]
    {
      TileSourceIn(a, m, q);
    }
  }
}
