/** Power-of-two scales by bit manipulation, and the quantisers that use them
  (src/torchinferno/kernels/deepseek_v4_tilelang_definitions.py). A float is its 32 bits, read as
  section 3.4 of IEEE 754-2019 says; integers wrap as the machine's do. */
module RoundScale {
  import opened RealMath

  const TWO31 := 0x8000_0000
  const TWO32 := 0x1_0000_0000
  const TWO23 := 0x80_0000

  type Bits = b: nat | b < TWO32

  function Power(k: int): (p: real)
    ensures p > 0.0
    decreases if k < 0 then -k else k
  {
    if k == 0 then 1.0 else if k > 0 then 2.0 * Power(k - 1) else Power(k + 1) / 2.0
  }

  /** 2 to an integer power. */
  function Pow2(k: int): (p: real)
    ensures p > 0.0
  {
    Power(k)
  }

  /** The smallest normal float, and the largest power of two that is a float. */
  function MinNormal(): (p: real)
    ensures p > 0.0
  {
    Pow2(-126)
  }

  function MaxPower(): (p: real)
    ensures p > 0.0
  {
    Pow2(127)
  }

  function Exponent(b: Bits): nat {
    (b / TWO23) % 256
  }

  function Mantissa(b: Bits): nat {
    b % TWO23
  }

  function Fraction(b: Bits): (f: real)
    ensures 0.0 <= f < 1.0 && (f == 0.0 <==> Mantissa(b) == 0)
  {
    Mantissa(b) as real / TWO23 as real
  }

  predicate Negative(b: Bits) {
    b >= TWO31
  }

  /** Finite: the exponent field is not all ones. */
  predicate Finite(b: Bits) {
    Exponent(b) != 255
  }

  /** The magnitude of a finite float: normal, or subnormal when the exponent field is zero. */
  function Magnitude(b: Bits): real
    requires Finite(b)
  {
    if Exponent(b) == 0 then Fraction(b) * MinNormal()
    else (1.0 + Fraction(b)) * Pow2(Exponent(b) - 127)
  }

  function Value(b: Bits): real
    requires Finite(b)
  {
    if Negative(b) then -Magnitude(b) else Magnitude(b)
  }

  // ----- the code -----

  function ToInt32(u: int): (i: int)
    ensures -TWO31 <= i < TWO31
  {
    var w := u % TWO32;
    if w < TWO31 then w else w - TWO32
  }

  /** fast_log2_ceil: unsigned arithmetic on the fields, then a cast to int32. */
  function Log2Ceil(b: Bits): int {
    var field := Exponent(b);
    var u := (field - 127 + if Mantissa(b) != 0 then 1 else 0) % TWO32;
    ToInt32(u)
  }

  /** fast_pow2: the bits of 2^x. */
  function Pow2Bits(x: int): (b: Bits) {
    ((x + 127) * TWO23) % TWO32
  }

  function RoundScaleBits(p: Bits): Bits {
    Pow2Bits(Log2Ceil(p))
  }

  // ----- powers of two -----

  lemma Pow2Next(k: int)
    ensures Pow2(k + 1) == 2.0 * Pow2(k)
  {
  }

  lemma {:induction false} Pow2Up(j: int, k: int)
    requires j <= k
    ensures Pow2(j) <= Pow2(k)
    ensures j < k ==> 2.0 * Pow2(j) <= Pow2(k)
    decreases k - j
  {
    if j < k {
      Pow2Up(j, k - 1);
      Pow2Next(k - 1);
    }
  }

  // ----- what the bits compute -----

  /** The unsigned detour does not show: the result is the exponent, plus one if the mantissa is not 0. */
  lemma Log2CeilIs(b: Bits)
    ensures Log2Ceil(b) == Exponent(b) - 127 + if Mantissa(b) != 0 then 1 else 0
  {
  }

  lemma Pow2BitsFields(k: int)
    requires -126 <= k <= 127
    ensures Exponent(Pow2Bits(k)) == k + 127 && Mantissa(Pow2Bits(k)) == 0 && !Negative(Pow2Bits(k))
  {
    var b := (k + 127) * TWO23;
    assert 0 <= b < TWO31;
    assert b / TWO23 == k + 127 && b % TWO23 == 0;
  }

  lemma Pow2BitsIs(k: int)
    requires -126 <= k <= 127
    ensures Finite(Pow2Bits(k)) && !Negative(Pow2Bits(k)) && Value(Pow2Bits(k)) == Pow2(k)
  {
    hide Pow2Bits, Exponent, Mantissa, Negative, Pow2;
    Pow2BitsFields(k);
  }

  /** 2^k is the least power of two that is not below p. */
  ghost predicate LeastPower(k: int, p: real) {
    Pow2(k - 1) < p <= Pow2(k)
  }

  lemma NormalIs(b: Bits)
    requires Finite(b) && Exponent(b) != 0
    ensures LeastPower(Log2Ceil(b), Magnitude(b))
    ensures Pow2(Exponent(b) - 127) <= Magnitude(b) < Pow2(Exponent(b) - 127 + 1)
  {
    Log2CeilIs(b);
    NormalMagnitude(b);
    hide Exponent, Mantissa, Log2Ceil, Magnitude;
    Band(Exponent(b) - 127, Magnitude(b));
  }

  lemma NormalMagnitude(b: Bits)
    requires Finite(b) && Exponent(b) != 0
    ensures Pow2(Exponent(b) - 127) <= Magnitude(b)
    ensures Magnitude(b) < 2.0 * Pow2(Exponent(b) - 127)
    ensures Magnitude(b) == Pow2(Exponent(b) - 127) <==> Mantissa(b) == 0
  {
    hide Exponent, Mantissa, Pow2, Fraction;
    Stretch(Fraction(b), Pow2(Exponent(b) - 127), Magnitude(b));
  }

  lemma Band(e: int, y: real)
    requires Pow2(e) <= y < 2.0 * Pow2(e)
    ensures y < Pow2(e + 1)
    ensures LeastPower(if y == Pow2(e) then e else e + 1, y)
  {
    Pow2Next(e);
    Pow2Next(e - 1);
  }

  lemma Stretch(f: real, p: real, y: real)
    requires 0.0 <= f < 1.0 && p > 0.0 && y == (1.0 + f) * p
    ensures p <= y < 2.0 * p && (y == p <==> f == 0.0)
  {
    Shrink(f, p, f * p);
    assert y == p + f * p;
  }

  lemma SubnormalIs(b: Bits)
    requires Exponent(b) == 0
    ensures 0.0 <= Magnitude(b) < MinNormal()
    ensures Log2Ceil(b) == if Mantissa(b) != 0 then -126 else -127
    ensures Mantissa(b) == 0 <==> Magnitude(b) == 0.0
  {
    Log2CeilIs(b);
    SubnormalMagnitude(b);
  }

  lemma SubnormalMagnitude(b: Bits)
    requires Exponent(b) == 0
    ensures 0.0 <= Magnitude(b)
    ensures Magnitude(b) < MinNormal()
    ensures Mantissa(b) == 0 <==> Magnitude(b) == 0.0
  {
    hide Exponent, Mantissa, MinNormal, Fraction;
    Shrink(Fraction(b), MinNormal(), Magnitude(b));
  }

  lemma Shrink(f: real, p: real, y: real)
    requires 0.0 <= f < 1.0 && p > 0.0 && y == f * p
    ensures 0.0 <= y < p && (y == 0.0 <==> f == 0.0)
  {
    var g := 1.0 - f;
    assert g * p > 0.0;
    assert g * p == p - y;
    assert f > 0.0 ==> y > 0.0;
  }

  lemma Pow2Injective(j: int, k: int)
    requires Pow2(j) == Pow2(k)
    ensures j == k
  {
    if j < k {
      Pow2Up(j, k);
    } else if k < j {
      Pow2Up(k, j);
    }
  }

  lemma OverflowBits()
    ensures !Finite(Pow2Bits(128))
  {
    assert (128 + 127) * TWO23 == 255 * TWO23 < TWO32;
  }

  /** For a positive finite float p the bit manipulation gives the least power of two not below p
      exactly when 2^-127 < p <= 2^127: below that the result is not the least, above it overflows. */
  lemma RoundScaleIff(p: Bits)
    requires Finite(p) && !Negative(p) && Value(p) > 0.0
    ensures var s := RoundScaleBits(p);
      (Finite(s) && !Negative(s) && (exists k :: Value(s) == Pow2(k) && LeastPower(k, Value(p))))
      <==> MinNormal() / 2.0 < Value(p) <= MaxPower()
  {
    hide Pow2Bits, Log2Ceil, Pow2, Exponent, Mantissa, MinNormal, MaxPower, Magnitude, LeastPower;
    if Exponent(p) == 0 {
      SubnormalScale(p);
    } else {
      NormalScale(p);
    }
  }

  lemma Edges()
    ensures MinNormal() == Pow2(-126) && MinNormal() / 2.0 == Pow2(-127) && MinNormal() <= MaxPower() == Pow2(127)
  {
    Pow2Next(-127);
    Pow2Up(-126, 127);
    hide Pow2;
  }

  lemma SubnormalScale(p: Bits)
    requires Exponent(p) == 0 && Magnitude(p) > 0.0
    ensures Finite(RoundScaleBits(p)) && !Negative(RoundScaleBits(p)) && Magnitude(p) <= MaxPower()
    ensures (exists k :: Value(RoundScaleBits(p)) == Pow2(k) && LeastPower(k, Magnitude(p)))
       <==> MinNormal() / 2.0 < Magnitude(p)
  {
    hide Pow2Bits, Log2Ceil, Magnitude, MinNormal, MaxPower, Value;
    SubnormalIs(p);
    Pow2BitsIs(-126);
    Edges();
    hide Pow2;
    var s := RoundScaleBits(p);
    if k :| Value(s) == Pow2(k) && LeastPower(k, Magnitude(p)) {
      Pow2Injective(-126, k);
    }
    if MinNormal() / 2.0 < Magnitude(p) {
      assert Value(s) == Pow2(-126) && LeastPower(-126, Magnitude(p));
    }
  }

  lemma NormalScale(p: Bits)
    requires Finite(p) && Exponent(p) != 0
    ensures MinNormal() / 2.0 < Magnitude(p)
    ensures Magnitude(p) <= MaxPower() ==> Finite(RoundScaleBits(p)) && !Negative(RoundScaleBits(p))
    ensures Magnitude(p) <= MaxPower() ==> Value(RoundScaleBits(p)) == Pow2(Log2Ceil(p))
    ensures Magnitude(p) <= MaxPower() ==> LeastPower(Log2Ceil(p), Magnitude(p))
    ensures Magnitude(p) > MaxPower() ==> !Finite(RoundScaleBits(p))
  {
    hide Pow2Bits, Magnitude, MinNormal, MaxPower, Value;
    NormalIs(p);
    Log2CeilIs(p);
    Edges();
    var k := Log2Ceil(p);
    Pow2Up(-127, Exponent(p) - 127);
    hide Pow2;
    if k <= 127 {
      Pow2BitsIs(k);
      Pow2Up(k, 127);
    } else {
      assert k == 128;
      OverflowBits();
    }
  }

  // ----- the quantisers -----

  function Clamp(x: real, bound: real): real {
    if x < -bound then -bound else if x > bound then bound else x
  }

  /** The largest magnitude of a group over the format's largest code; `floor` keeps it off zero. */
  function Ratio(row: seq<real>, floor: real, most: real): real
    requires most > 0.0
  {
    Larger(AbsMax(row), floor) / most
  }

  lemma DivBound(x: real, s: real, bound: real, y: real)
    requires s > 0.0 && y == bound * s && -y <= x <= y
    ensures -bound <= x / s <= bound
  {
    var q := x / s;
    assert q * s == x;
    FactorBound(q, bound, s, x, y);
    FactorBound(-bound, q, s, -y, x);
  }

  /** With a scale that is not below the ratio - the ratio itself, or the power of two above it - no
      element of the group is clamped. */
  lemma ClampNeverBites(row: seq<real>, k: nat, floor: real, most: real, scale: real)
    requires k < |row| && most > 0.0 && floor > 0.0 && scale >= Ratio(row, floor, most)
    ensures scale > 0.0 && Clamp(row[k] / scale, most) == row[k] / scale
  {
    hide Clamp, AbsMax;
    var m := Larger(AbsMax(row), floor);
    assert Abs(row[k]) <= AbsMax(row);
    ClampWithin(row[k], m, most, scale);
  }

  lemma ClampWithin(x: real, m: real, most: real, scale: real)
    requires m > 0.0 && most > 0.0 && -m <= x <= m && scale >= m / most
    ensures scale > 0.0 && Clamp(x / scale, most) == x / scale
  {
    hide Clamp;
    Positive(m, most);
    Times(m, most);
    Covered(scale, m / most, most, m, most * scale);
    DivBound(x, scale, most, most * scale);
    ClampInside(x / scale, most);
  }

  lemma Times(m: real, most: real)
    requires most > 0.0
    ensures (m / most) * most == m
  {
  }

  lemma ClampInside(x: real, bound: real)
    requires -bound <= x <= bound
    ensures Clamp(x, bound) == x
  {
  }

  lemma Positive(m: real, most: real)
    requires m > 0.0 && most > 0.0
    ensures m / most > 0.0
  {
  }

  lemma Covered(scale: real, ratio: real, most: real, m: real, y: real)
    requires scale >= ratio && most > 0.0 && ratio * most == m && y == most * scale
    ensures y >= m
  {
    var d := scale - ratio;
    assert d * most >= 0.0;
    assert d * most == y - m;
  }

  const FP8_MAX := 448.0
  const FP8_FLOOR := 0.0001
  const FP4_MAX := 6.0

  /** The scale of an FP8 or FP4 group whose entries are finite BF16 values: the bits of the ratio,
      rounded up to a power of two. `p` is the float the ratio is held in; it may be rounded up. */
  lemma RoundedScaleCovers(row: seq<real>, floor: real, most: real, p: Bits)
    requires most > 0.0 && floor > 0.0 && floor / most >= MinNormal()
    requires Finite(p) && !Negative(p) && Ratio(row, floor, most) <= Value(p) <= MaxPower()
    ensures var s := RoundScaleBits(p);
      && Finite(s) && !Negative(s) && Value(p) <= Value(s) < 2.0 * Value(p)
      && forall k :: 0 <= k < |row| ==> Clamp(row[k] / Value(s), most) == row[k] / Value(s)
  {
    hide RoundScaleBits, Value, Pow2, Ratio, Clamp, MinNormal, MaxPower;
    RatioAtLeast(row, floor, most);
    RoundScaleIff(p);
    var s := RoundScaleBits(p);
    var j :| Value(s) == Pow2(j) && LeastPower(j, Value(p));
    Pow2Next(j - 1);
    forall k | 0 <= k < |row| ensures Clamp(row[k] / Value(s), most) == row[k] / Value(s) {
      ClampNeverBites(row, k, floor, most, Value(s));
    }
  }

  /** No group of finite BF16 values, all below 2^128, overflows the rounded scale. */
  lemma RatioInRange(row: seq<real>, floor: real, most: real)
    requires most >= 2.0 && floor <= 2.0 * MaxPower()
    requires forall k :: 0 <= k < |row| ==> Abs(row[k]) <= 2.0 * MaxPower()
    ensures Ratio(row, floor, most) <= MaxPower()
  {
    hide MaxPower, AbsMax;
    AbsMaxAtMost(row, 2.0 * MaxPower());
    var m := Larger(AbsMax(row), floor);
    Times(m, most);
    TwiceAtMost(m / most, most, MaxPower(), m);
  }

  lemma TwiceAtLeast(h: real, most: real, y: real)
    requires most >= 2.0 && h > 0.0 && y == h * most
    ensures y >= 2.0 * h
  {
    var d := most - 2.0;
    assert d * h >= 0.0;
    assert d * h == y - 2.0 * h;
  }

  lemma TwiceAtMost(q: real, most: real, h: real, x: real)
    requires most >= 2.0 && h > 0.0 && x == q * most && x <= 2.0 * h
    ensures q <= h
  {
    TwiceAtLeast(h, most, h * most);
    FactorBound(q, h, most, x, h * most);
  }

  lemma RatioAtLeast(row: seq<real>, floor: real, most: real)
    requires most > 0.0
    ensures Ratio(row, floor, most) >= floor / most
  {
    hide AbsMax;
    var m := Larger(AbsMax(row), floor);
    Times(m, most);
    Times(floor, most);
    FactorBound(floor / most, m / most, most, floor, m);
  }

  /** Both quantisers' floors keep the ratio normal: 1e-4 over 448, and 6 * 2^-126 over 6. */
  lemma FloorsAreNormal()
    ensures FP8_FLOOR / FP8_MAX >= MinNormal()
    ensures (6.0 * MinNormal()) / FP4_MAX >= MinNormal()
  {
    SmallPower();
    Edges();
    Pow2Up(-126, -23);
    hide Pow2, MinNormal;
    SixOverSix(MinNormal());
  }

  lemma SixOverSix(x: real)
    ensures (6.0 * x) / 6.0 == x
  {
  }

  lemma SmallPower()
    ensures Pow2(-23) == 1.0 / 8388608.0
  {
    assert Pow2(-4) == 1.0 / 16.0;
    assert Pow2(-8) == 1.0 / 256.0;
    assert Pow2(-12) == 1.0 / 4096.0;
    assert Pow2(-16) == 1.0 / 65536.0;
    assert Pow2(-20) == 1.0 / 1048576.0;
  }
}
