/** Eight nibbles to a 32-bit word, by shift-and-sum on signed words
  (src/torchinferno/kernels/deepseek_v4_marlin.py) and by shift-and-or on unsigned ones
  (src/torchinferno/kernels/marlin.py). */
module MarlinWords {
  import opened Nibbles
  import opened IntMath

  const TWO31 := 0x8000_0000
  const TWO32 := 0x1_0000_0000

  /** The signed 32-bit value of x, keeping its low 32 bits. */
  function AsInt32(x: int): (r: int)
    ensures -TWO31 <= r < TWO31 && (r - x) % TWO32 == 0
  {
    (x + TWO31) % TWO32 - TWO31
  }

  /** The unsigned 32-bit value of x. */
  function AsUint32(x: int): (r: nat)
    ensures r < TWO32 && (r - x) % TWO32 == 0
  {
    x % TWO32
  }

  function Shift(t: nat): (p: nat)
    ensures p > 0
  {
    Pow2(4 * t)
  }

  lemma ShiftNext(t: nat)
    ensures Shift(t + 1) == 16 * Shift(t)
  {
    var i := 4 * t;
    assert Pow2(i + 2) == 4 * Pow2(i) && Pow2(i + 4) == 4 * Pow2(i + 2);
  }

  lemma Shifts()
    ensures Shift(0) == 1 && Shift(7) == 0x1000_0000 && Shift(8) == TWO32
  {
    Pow2Nibbles();
    ShiftNext(7);
    assert Shift(0) == Pow2(0) && Shift(7) == Pow2(28);
  }

  lemma ShiftGrows(t: nat, u: nat)
    requires t <= u
    ensures Shift(t) <= Shift(u)
  {
    hide Shift;
    if t < u {
      ShiftGrows(t, u - 1);
      ShiftNext(u - 1);
    }
  }

  // ----- one word: nibbles b, .., b + n - 1 of a sequence -----

  /** The value whose digits are the nibbles. */
  function Plain(c: seq<Nibble>, b: nat, n: nat): (v: nat)
    requires b + n <= |c|
  {
    if n == 0 then 0 else Plain(c, b, n - 1) + c[b + n - 1] * Shift(n - 1)
  }

  /** The sum of the signed shifted nibbles. */
  function ShiftedSum(c: seq<Nibble>, b: nat, n: nat): int
    requires b + n <= |c|
  {
    if n == 0 then 0 else ShiftedSum(c, b, n - 1) + AsInt32(c[b + n - 1] * Shift(n - 1))
  }

  /** The word as the sum of eight shifted nibbles, cast back to 32 bits. */
  function SumWord(c: seq<Nibble>, b: nat): (w: int)
    requires b + 8 <= |c|
    ensures -TWO31 <= w < TWO31
  {
    AsInt32(ShiftedSum(c, b, 8))
  }

  /** The unsigned shifted nibbles, or-ed together. */
  function OrUpTo(c: seq<Nibble>, b: nat, n: nat): nat
    requires b + n <= |c|
  {
    if n == 0 then 0 else Or(OrUpTo(c, b, n - 1), AsUint32(c[b + n - 1] * Shift(n - 1)))
  }

  lemma {:induction false} PlainBelow(c: seq<Nibble>, b: nat, n: nat)
    requires b + n <= |c|
    ensures Plain(c, b, n) < Shift(n)
  {
    hide Shift;
    if n > 0 {
      PlainBelow(c, b, n - 1);
      ShiftNext(n - 1);
      MulAtMost(c[b + n - 1], 15, Shift(n - 1));
    } else {
      Shifts();
    }
  }

  lemma TermFits(v: Nibble, t: nat)
    requires t < 8
    ensures AsUint32(v * Shift(t)) == v * Shift(t)
    ensures t < 7 ==> AsInt32(v * Shift(t)) == v * Shift(t)
  {
    hide Shift;
    Shifts();
    MulAtMost(v, 15, Shift(t));
    ShiftNext(t);
    ShiftGrows(t + 1, 8);
    if t < 7 {
      ShiftGrows(t + 1, 7);
    }
  }

  lemma {:induction false} OrIsPlain(c: seq<Nibble>, b: nat, n: nat)
    requires b + n <= |c| && n <= 8
    ensures OrUpTo(c, b, n) == Plain(c, b, n)
  {
    if n > 0 {
      hide Or, Pow2, AsUint32;
      OrIsPlain(c, b, n - 1);
      PlainBelow(c, b, n - 1);
      TermFits(c[b + n - 1], n - 1);
      OrAbove(Plain(c, b, n - 1), c[b + n - 1], 4 * (n - 1));
    }
  }

  lemma {:induction false} SumIsPlain(c: seq<Nibble>, b: nat, n: nat)
    requires b + n <= |c| && n <= 7
    ensures ShiftedSum(c, b, n) == Plain(c, b, n)
  {
    hide Shift, AsInt32;
    if n > 0 {
      SumIsPlain(c, b, n - 1);
      TermFits(c[b + n - 1], n - 1);
    }
  }

  /** Both packers make the same 32 bits: the or-ed word read as a signed one is the summed word,
      though the sum goes negative when the top nibble is 8 or more. */
  lemma PackersAgree(c: seq<Nibble>, b: nat)
    requires b + 8 <= |c|
    ensures SumWord(c, b) == AsInt32(OrUpTo(c, b, 8))
    ensures AsUint32(SumWord(c, b)) == Plain(c, b, 8) == OrUpTo(c, b, 8)
  {
    hide Shift, Plain, OrUpTo, ShiftedSum, AsInt32, AsUint32;
    OrIsPlain(c, b, 8);
    PlainBelow(c, b, 8);
    Shifts();
    LastTerm(c, b);
    SameBits(ShiftedSum(c, b, 8), Plain(c, b, 8));
  }

  lemma SameBits(x: int, y: nat)
    requires y < TWO32 && (x == y || x == y - TWO32)
    ensures AsInt32(x) == AsInt32(y) && AsUint32(AsInt32(x)) == y
  {
  }

  lemma LastTerm(c: seq<Nibble>, b: nat)
    requires b + 8 <= |c|
    ensures ShiftedSum(c, b, 8) == Plain(c, b, 8) || ShiftedSum(c, b, 8) == Plain(c, b, 8) - TWO32
  {
    hide Shift;
    SumIsPlain(c, b, 7);
    Shifts();
    assert Plain(c, b, 8) == Plain(c, b, 7) + c[b + 7] * Shift(7);
    assert ShiftedSum(c, b, 8) == ShiftedSum(c, b, 7) + AsInt32(c[b + 7] * Shift(7));
  }

  // ----- taking a word apart -----

  function NibbleOf(w: int, t: nat): Nibble {
    AsUint32(w) / Shift(t) % 16
  }

  lemma Sixteenfold(q: nat, j: nat)
    ensures (q + 16 * j) % 16 == q % 16
  {
  }

  lemma ThreeFactors(v: nat, p: nat, k: nat)
    ensures v * (p * (16 * k)) == (16 * (v * k)) * p
  {
    Regroup(v, p, 16 * k);
    Regroup(v, 16, k);
  }

  lemma QuotientShift(x: nat, p: nat, c: nat, high: nat)
    requires p > 0 && high == c * p
    ensures (x + high) / p == x / p + c
  {
    var q, r := x / p, x % p;
    var qp := q * p;
    assert x == qp + r;
    Distribute(q, c, p);
    DivMod(q + c, r, p);
  }

  /** Adding a multiple of p * 16 does not change the digit at p. */
  lemma DigitKept(x: nat, p: nat, j: nat, high: nat)
    requires p > 0 && high == (16 * j) * p
    ensures (x + high) / p % 16 == x / p % 16
  {
    QuotientShift(x, p, 16 * j, high);
    Sixteenfold(x / p, j);
  }

  lemma Regroup(v: nat, p: nat, k: nat)
    ensures v * (p * k) == (v * k) * p
  {
  }

  lemma {:induction false} ShiftFactor(t: nat, u: nat)
    requires t < u
    ensures exists k: nat :: Shift(u) == Shift(t) * (16 * k)
  {
    hide Shift;
    ShiftNext(u - 1);
    if u == t + 1 {
      assert Shift(u) == Shift(t) * (16 * 1);
    } else {
      ShiftFactor(t, u - 1);
      var k: nat :| Shift(u - 1) == Shift(t) * (16 * k);
      Regroup(16, Shift(t), 16 * k);
      assert Shift(u) == Shift(t) * (16 * (16 * k));
    }
  }

  lemma TopDigit(x: nat, p: nat, d: Nibble)
    requires x < p
    ensures (x + d * p) / p % 16 == d
  {
    DivMod(d, x, p);
  }

  lemma PlainNext(c: seq<Nibble>, b: nat, n: nat)
    requires b + n < |c|
    ensures Plain(c, b, n + 1) == Plain(c, b, n) + c[b + n] * Shift(n)
  {
  }

  lemma {:induction false} DigitOfPlain(c: seq<Nibble>, b: nat, n: nat, t: nat)
    requires t < n && b + n <= |c|
    ensures Plain(c, b, n) / Shift(t) % 16 == c[b + t]
  {
    hide Shift, Plain;
    PlainNext(c, b, n - 1);
    if t == n - 1 {
      PlainBelow(c, b, t);
      TopDigit(Plain(c, b, t), Shift(t), c[b + t]);
    } else {
      DigitOfPlain(c, b, n - 1, t);
      ShiftFactor(t, n - 1);
      var k: nat :| Shift(n - 1) == Shift(t) * (16 * k);
      var v := c[b + n - 1];
      ThreeFactors(v, Shift(t), k);
      DigitKept(Plain(c, b, n - 1), Shift(t), v * k, v * Shift(n - 1));
    }
  }

  /** Nibble t of the word is the t-th of the nibbles packed into it. */
  lemma NibbleOfSum(c: seq<Nibble>, b: nat, t: nat)
    requires b + 8 <= |c| && t < 8
    ensures NibbleOf(SumWord(c, b), t) == c[b + t]
  {
    hide Shift, Plain, SumWord, AsUint32;
    PackersAgree(c, b);
    DigitOfPlain(c, b, 8, t);
  }

  // ----- all the words of a tensor -----

  function WordsOf(c: seq<Nibble>): (w: seq<int>)
    requires |c| % 8 == 0
    ensures 8 * |w| == |c|
    ensures forall i :: 0 <= i < |w| ==> w[i] == SumWord(c, 8 * i)
  {
    seq(|c| / 8, i requires 0 <= i < |c| / 8 => SumWord(c, 8 * i))
  }

  function NibblesOf(w: seq<int>): (c: seq<Nibble>)
    ensures |c| == 8 * |w|
  {
    seq(8 * |w|, q requires 0 <= q < 8 * |w| => NibbleOf(w[q / 8], q % 8))
  }

  lemma NibblesAt(w: seq<int>, i: nat, t: nat)
    requires i < |w| && t < 8
    ensures NibblesOf(w)[8 * i + t] == NibbleOf(w[i], t)
  {
    hide NibbleOf;
    var q := 8 * i + t;
    assert q / 8 == i && q % 8 == t;
  }

  lemma NibblesOfWords(c: seq<Nibble>)
    requires |c| % 8 == 0
    ensures NibblesOf(WordsOf(c)) == c
  {
    hide NibbleOf, SumWord;
    forall q | 0 <= q < |c| ensures NibblesOf(WordsOf(c))[q] == c[q] {
      var i, t := q / 8, q % 8;
      assert q == 8 * i + t;
      NibblesAt(WordsOf(c), i, t);
      NibbleOfSum(c, 8 * i, t);
    }
  }

  predicate Int32s(w: seq<int>) {
    forall i :: 0 <= i < |w| ==> -TWO31 <= w[i] < TWO31
  }

  lemma {:induction false} PlainOfDigits(w: int, c: seq<Nibble>, b: nat, n: nat)
    requires b + n <= |c| && forall t :: 0 <= t < n ==> c[b + t] == NibbleOf(w, t)
    ensures Plain(c, b, n) == AsUint32(w) % Shift(n)
  {
    hide Shift, AsUint32;
    if n > 0 {
      PlainOfDigits(w, c, b, n - 1);
      var t := n - 1;
      assert c[b + t] == NibbleOf(w, t);
      ShiftNext(n - 1);
      NextDigit(AsUint32(w), Shift(n - 1), Shift(n));
    } else {
      Shifts();
    }
  }

  lemma TwoDigits(a: nat, b: nat, p: nat)
    ensures (a * 16 + b) * p == a * (p * 16) + b * p
  {
    Distribute(a * 16, b, p);
    Regroup(a, p, 16);
  }

  lemma NextDigit(u: nat, p: nat, s: nat)
    requires p > 0 && s == p * 16
    ensures u % s == u % p + (u / p % 16) * p
  {
    var q, r := u / p, u % p;
    var a, b := q / 16, q % 16;
    TwoDigits(a, b, p);
    MulAtMost(b, 15, p);
    LowDigits(u, s, a, b * p + r);
  }

  lemma LowDigits(u: nat, s: nat, a: nat, low: nat)
    requires low < s && u == a * s + low
    ensures u % s == low
  {
    DivMod(a, low, s);
  }

  lemma SumOfDigits(w: int, c: seq<Nibble>, b: nat)
    requires -TWO31 <= w < TWO31 && b + 8 <= |c| && forall t :: 0 <= t < 8 ==> c[b + t] == NibbleOf(w, t)
    ensures SumWord(c, b) == w
  {
    hide Shift, Plain, SumWord, NibbleOf, AsUint32, OrUpTo;
    PlainOfDigits(w, c, b, 8);
    Shifts();
    BelowMod(AsUint32(w), Shift(8));
    PackersAgree(c, b);
    SameInt32(SumWord(c, b), w);
  }

  lemma BelowMod(u: nat, s: nat)
    requires u < s
    ensures u % s == u
  {
    DivMod(0, u, s);
  }

  lemma SameInt32(v: int, w: int)
    requires -TWO31 <= v < TWO31 && -TWO31 <= w < TWO31 && AsUint32(v) == AsUint32(w)
    ensures v == w
  {
  }

  lemma WordsOfNibbles(w: seq<int>)
    requires Int32s(w)
    ensures WordsOf(NibblesOf(w)) == w
  {
    hide SumWord, NibbleOf;
    var c := NibblesOf(w);
    forall i | 0 <= i < |w| ensures WordsOf(c)[i] == w[i] {
      forall t: nat | t < 8 ensures c[8 * i + t] == NibbleOf(w[i], t) {
        NibblesAt(w, i, t);
      }
      SumOfDigits(w[i], c, 8 * i);
    }
  }

  /** The words as _marlin_weights makes them: or-ed together unsigned, then read as signed. */
  function OrWordsOf(c: seq<Nibble>): (w: seq<int>)
    requires |c| % 8 == 0
    ensures 8 * |w| == |c|
    ensures forall i :: 0 <= i < |w| ==> w[i] == AsInt32(OrUpTo(c, 8 * i, 8))
  {
    seq(|c| / 8, i requires 0 <= i < |c| / 8 => AsInt32(OrUpTo(c, 8 * i, 8)))
  }

  lemma WordsAgree(c: seq<Nibble>)
    requires |c| % 8 == 0
    ensures OrWordsOf(c) == WordsOf(c)
  {
    hide SumWord, OrUpTo, AsInt32, Plain;
    forall i | 0 <= i < |c| / 8 ensures OrWordsOf(c)[i] == WordsOf(c)[i] {
      PackersAgree(c, 8 * i);
    }
  }

  /** The packer of _marlin_weights: nibble i of every word is or-ed in place, for i from 0 to 7. */
  method OrPack(c: seq<Nibble>) returns (packed: array<int>)
    requires |c| % 8 == 0
    ensures fresh(packed) && packed[..] == OrWordsOf(c)
  {
    hide Or, Shift, AsUint32, AsInt32;
    var words := new nat[|c| / 8](_ => 0);
    for i := 0 to 8
      invariant forall w :: 0 <= w < words.Length ==> words[w] == OrUpTo(c, 8 * w, i)
    {
      for w := 0 to words.Length
        invariant forall v :: 0 <= v < w ==> words[v] == OrUpTo(c, 8 * v, i + 1)
        invariant forall v :: w <= v < words.Length ==> words[v] == OrUpTo(c, 8 * v, i)
      {
        words[w] := Or(words[w], AsUint32(c[8 * w + i] * Shift(i)));
      }
    }
    packed := new int[words.Length](w requires 0 <= w < words.Length reads words => AsInt32(words[w]));
  }
}
