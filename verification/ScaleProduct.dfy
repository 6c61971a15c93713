/** The scale of a quantised group from its bits on (act_quant_kernel and fp4_quant_kernel in
  src/torchinferno/kernels/deepseek_v4_tilelang_definitions.py): the largest magnitude, its product in
  single precision with the reciprocal of the largest code, rounded to the nearest float, and the power
  of two above that. */
module ScaleProduct {
  import opened RealMath
  import opened IntMath
  import Rounding
  import opened RoundScale

  const TWO47 := 0x8000_0000_0000

  // ----- normal floats as integers times powers of two -----

  predicate PositiveNormal(b: Bits) {
    0 < Exponent(b) < 255 && !Negative(b)
  }

  function Significand(b: Bits): (a: nat)
    ensures TWO23 <= a < 2 * TWO23
  {
    TWO23 + Mantissa(b)
  }

  lemma Pow2Four(k: int)
    ensures Pow2(k + 4) == 16.0 * Pow2(k)
  {
    hide Pow2;
    Pow2Next(k);
    Pow2Next(k + 1);
    Pow2Next(k + 2);
    Pow2Next(k + 3);
  }

  lemma Pow2By23(k: int)
    ensures Pow2(k + 23) == 8388608.0 * Pow2(k)
  {
    hide Pow2;
    Pow2Four(k);
    Pow2Four(k + 4);
    Pow2Four(k + 8);
    Pow2Four(k + 12);
    Pow2Four(k + 16);
    Pow2Next(k + 20);
    Pow2Next(k + 21);
    Pow2Next(k + 22);
  }

  lemma ValueIs(b: Bits)
    requires PositiveNormal(b)
    ensures Finite(b) && Value(b) == Significand(b) as real * Pow2(Exponent(b) - 150)
  {
    hide Pow2, Exponent, Mantissa, Negative;
    Pow2By23(Exponent(b) - 150);
    Scaled(Mantissa(b), Pow2(Exponent(b) - 150));
  }

  lemma Scaled(m: nat, p: real)
    ensures (1.0 + m as real / TWO23 as real) * (8388608.0 * p) == (TWO23 + m) as real * p
  {
    var f := m as real / TWO23 as real;
    assert f * 8388608.0 == m as real;
    assert (1.0 + f) * (8388608.0 * p) == ((1.0 + f) * 8388608.0) * p;
  }

  /** The bits of a float from its exponent field and its significand, which may have just reached 2^24. */
  function Encode(e: int, q: int): int {
    e * TWO23 + (q - TWO23)
  }

  lemma EncodeFields(e: int, q: int)
    requires 1 <= e <= 253 && TWO23 <= q <= 2 * TWO23
    ensures 0 <= Encode(e, q) < TWO31
    ensures var b := Encode(e, q);
      if q < 2 * TWO23 then Exponent(b) == e && Mantissa(b) == q - TWO23 else Exponent(b) == e + 1 && Mantissa(b) == 0
  {
    var b := Encode(e, q);
    if q < 2 * TWO23 {
      assert b / TWO23 == e;
    } else {
      assert b == (e + 1) * TWO23;
      assert b / TWO23 == e + 1;
    }
  }

  lemma EncodeIs(e: int, q: int)
    requires 1 <= e <= 253 && TWO23 <= q <= 2 * TWO23
    ensures 0 <= Encode(e, q) < TWO31 && PositiveNormal(Encode(e, q)) && Exponent(Encode(e, q)) <= e + 1
    ensures Value(Encode(e, q)) == q as real * Pow2(e - 150)
  {
    hide Pow2, Encode, Exponent, Mantissa, Value, Finite;
    EncodeFields(e, q);
    ValueIs(Encode(e, q));
    Pow2Next(e - 150);
    hide *;
  }

  // ----- the product -----

  /** How many bits of the product of two significands are rounded off. */
  function Dropped(p: nat): (s: nat)
    ensures s == 23 || s == 24
  {
    if p < TWO47 then 23 else 24
  }

  function Unit(s: nat): (u: nat)
    ensures u > 0
  {
    if s == 23 then TWO23 else 2 * TWO23
  }

  /** The significand of the product, rounded to nearest, halves to even. */
  function RoundedProduct(p: nat): int {
    Rounding.Round(p as real / Unit(Dropped(p)) as real)
  }

  function ProductExponent(a: Bits, b: Bits): int {
    Exponent(a) + Exponent(b) - 150 + Dropped(Significand(a) * Significand(b))
  }

  /** The product of two positive normal floats (section 4.3.1 of IEEE 754-2019), where it is normal. */
  function Times32(a: Bits, b: Bits): Bits {
    Encode(ProductExponent(a, b), RoundedProduct(Significand(a) * Significand(b))) % TWO32
  }

  lemma RoundedProductIs(p: nat)
    requires TWO23 * TWO23 <= p < 4 * TWO23 * TWO23
    ensures TWO23 <= RoundedProduct(p) <= 2 * TWO23
    ensures 2 * RoundedProduct(p) * Unit(Dropped(p)) >= 2 * p - Unit(Dropped(p))
    ensures 2 * RoundedProduct(p) * Unit(Dropped(p)) <= 2 * p + Unit(Dropped(p))
  {
    hide Rounding.Round;
    var u := Unit(Dropped(p));
    var x := p as real / u as real;
    assert x * u as real == p as real;
    assert TWO23 as real <= x <= (2 * TWO23) as real;
    Rounding.RoundWithin(x, TWO23, 2 * TWO23);
    var q := RoundedProduct(p);
    assert q == Rounding.Round(x);
    assert q as real - 0.5 <= x <= q as real + 0.5;
  }

  lemma {:induction false} Pow2Sum(j: int, k: int)
    ensures Pow2(j) * Pow2(k) == Pow2(j + k)
    decreases if k < 0 then -k else k
  {
    if k > 0 {
      Pow2Sum(j, k - 1);
      Pow2Next(k - 1);
      Pow2Next(j + k - 1);
    } else if k < 0 {
      Pow2Sum(j, k + 1);
      Pow2Next(k);
      Pow2Next(j + k);
    }
  }

  lemma SignificandProduct(a: Bits, b: Bits)
    ensures TWO23 * TWO23 <= Significand(a) * Significand(b) < 4 * TWO23 * TWO23
  {
    ProductRange(Significand(a), Significand(b), TWO23);
  }

  lemma ProductRange(a: nat, b: nat, n: nat)
    requires n <= a < 2 * n && n <= b < 2 * n
    ensures n * n <= a * b < 4 * n * n
  {
    MulAtMost(n, a, n);
    MulAtMost(n, b, a);
    MulAtMost(a + 1, 2 * n, b);
    Distribute(a, 1, b);
    MulAtMost(b, 2 * n, 2 * n);
    assert (2 * n) * (2 * n) == 4 * n * n;
  }

  lemma TimesIs(a: Bits, b: Bits)
    requires PositiveNormal(a) && PositiveNormal(b) && 1 <= ProductExponent(a, b) <= 253
    ensures PositiveNormal(Times32(a, b)) && Exponent(Times32(a, b)) <= ProductExponent(a, b) + 1
    ensures Value(Times32(a, b))
         == RoundedProduct(Significand(a) * Significand(b)) as real * Pow2(ProductExponent(a, b) - 150)
  {
    hide Pow2, Encode, RoundedProduct, Significand, Value, PositiveNormal, ProductExponent;
    SignificandProduct(a, b);
    var p := Significand(a) * Significand(b);
    RoundedProductIs(p);
    EncodeIs(ProductExponent(a, b), RoundedProduct(p));
  }

  /** The product is the exact one rounded to the nearest float: it is off by at most half a unit in the
      last place. */
  lemma TimesIsRounded(a: Bits, b: Bits)
    requires PositiveNormal(a) && PositiveNormal(b) && 1 <= ProductExponent(a, b) <= 253
    ensures PositiveNormal(Times32(a, b))
    ensures Abs(Value(Times32(a, b)) - Value(a) * Value(b)) <= Pow2(ProductExponent(a, b) - 150) / 2.0
  {
    hide Pow2, Times32, RoundedProduct, Significand, Value, Exponent, Unit;
    TimesIs(a, b);
    ValueIs(a);
    ValueIs(b);
    SignificandProduct(a, b);
    var p := Significand(a) * Significand(b);
    RoundedProductIs(p);
    var s := Dropped(p);
    var e, f := Exponent(a) - 150, Exponent(b) - 150;
    Pow2Sum(e, f);
    UnitIs(s, e + f);
    hide *;
    Assemble(Significand(a), Significand(b), Pow2(e), Pow2(f), Pow2(e + f), p);
    HalfUnit(p, RoundedProduct(p), Unit(s), Pow2(e + f), Pow2(ProductExponent(a, b) - 150));
  }

  lemma UnitIs(s: nat, k: int)
    requires s == 23 || s == 24
    ensures Pow2(k + s) == Unit(s) as real * Pow2(k)
  {
    hide Pow2;
    Pow2By23(k);
    Pow2Next(k + 23);
  }

  lemma Assemble(a: nat, b: nat, x: real, y: real, z: real, p: nat)
    requires x * y == z && p == a * b
    ensures (a as real * x) * (b as real * y) == p as real * z
  {
    assert (a as real * x) * (b as real * y) == (a as real * b as real) * (x * y);
    assert p as real == a as real * b as real;
  }

  lemma HalfUnit(p: nat, q: int, u: nat, z: real, w: real)
    requires z > 0.0 && w == u as real * z && 2 * p - u <= 2 * q * u <= 2 * p + u
    ensures Abs(q as real * w - p as real * z) <= w / 2.0
  {
    var d := q * u - p;
    assert d as real * z == q as real * w - p as real * z by {
      assert (q * u) as real == q as real * u as real;
      assert q as real * w == (q as real * u as real) * z;
    }
    assert -(u as real) <= 2.0 * d as real <= u as real;
    assert (u as real - 2.0 * d as real) * z >= 0.0;
    assert (u as real + 2.0 * d as real) * z >= 0.0;
  }

  // ----- the two reciprocals -----

  /** 1 / 448 and 1 / 6 in single precision, both a little too large. */
  const INV448: Bits := 0x3B12_4925
  const INV6: Bits := 0x3E2A_AAAB

  lemma Reciprocals()
    ensures PositiveNormal(INV448) && Exponent(INV448) == 118 && Significand(INV448) == 9586981
    ensures PositiveNormal(INV6) && Exponent(INV6) == 124 && Significand(INV6) == 11184811
  {
    assert INV448 / TWO23 == 118 && INV6 / TWO23 == 124;
  }

  /** Each is the float nearest to the reciprocal: less than half a unit in the last place away. */
  lemma ReciprocalsNearest()
    ensures Finite(INV448) && 0.0 < Value(INV448) - 1.0 / 448.0 < Pow2(118 - 150) / 2.0
    ensures Finite(INV6) && 0.0 < Value(INV6) - 1.0 / 6.0 < Pow2(124 - 150) / 2.0
  {
    Reciprocals();
    ValueIs(INV448);
    ValueIs(INV6);
    SmallPower();
    assert Pow2(-24) == Pow2(-23) / 2.0 && Pow2(-25) == Pow2(-24) / 2.0 && Pow2(-26) == Pow2(-25) / 2.0;
    assert Pow2(-28) == Pow2(-26) / 4.0 && Pow2(-30) == Pow2(-28) / 4.0 && Pow2(-32) == Pow2(-30) / 4.0;
  }

  /** However the product with 1 / 448 is rounded, it does not fall below a 448th. */
  lemma RoundedUp448(a: nat, q: int)
    requires TWO23 <= a < 2 * TWO23
    requires var u := Unit(Dropped(9586981 * a)); 2 * q * u >= 2 * 9586981 * a - u
    ensures 7 * q >= if Dropped(9586981 * a) == 23 then 8 * a else 4 * a
  {
  }

  lemma RoundedUp6(a: nat, q: int)
    requires TWO23 <= a < 2 * TWO23
    requires var u := Unit(Dropped(11184811 * a)); 2 * q * u >= 2 * 11184811 * a - u
    ensures 3 * q >= if Dropped(11184811 * a) == 23 then 4 * a else 2 * a
  {
  }

  // ----- one group -----

  datatype Format = Fp8 | Fp4 {
    function Most(): real {
      if this == Fp8 then FP8_MAX else FP4_MAX
    }
    function Reciprocal(): Bits {
      if this == Fp8 then INV448 else INV6
    }
    /** 1e-4 as a float, and 6 * 2^-126. */
    function Floor(): Bits {
      if this == Fp8 then 0x38D1_B717 else 0x01C0_0000
    }
  }

  lemma Floors()
    ensures PositiveNormal(Fp8.Floor()) && Exponent(Fp8.Floor()) == 113 && Significand(Fp8.Floor()) == 13743895
    ensures PositiveNormal(Fp4.Floor()) && Exponent(Fp4.Floor()) == 3 && Significand(Fp4.Floor()) == 12582912
  {
    assert Fp8.Floor() / TWO23 == 113 && Fp4.Floor() / TWO23 == 3;
  }

  lemma FloorsNearest()
    ensures Finite(Fp8.Floor()) && Abs(Value(Fp8.Floor()) - FP8_FLOOR) < Pow2(113 - 150) / 2.0
    ensures Finite(Fp4.Floor()) && Value(Fp4.Floor()) == 6.0 * MinNormal()
  {
    Floors();
    ValueIs(Fp8.Floor());
    ValueIs(Fp4.Floor());
    Pow2By23(-149);
    SmallPower();
    assert Pow2(-25) == Pow2(-23) / 4.0 && Pow2(-29) == Pow2(-25) / 16.0;
    assert Pow2(-33) == Pow2(-29) / 16.0 && Pow2(-37) == Pow2(-33) / 16.0;
    assert Pow2(-147) == 4.0 * Pow2(-149);
  }

  predicate AllFinite(row: seq<Bits>) {
    forall i :: 0 <= i < |row| ==> Finite(row[i])
  }

  function Values(row: seq<Bits>): (v: seq<real>)
    requires AllFinite(row)
    ensures |v| == |row| && forall i :: 0 <= i < |row| ==> v[i] == Value(row[i])
  {
    seq(|row|, i requires 0 <= i < |row| => Value(row[i]))
  }

  /** The bits of the magnitude. */
  function AbsBits(b: Bits): Bits {
    b % TWO31
  }

  lemma AbsBitsIs(b: Bits)
    requires Finite(b)
    ensures Finite(AbsBits(b)) && !Negative(AbsBits(b)) && Value(AbsBits(b)) == Abs(Value(b))
  {
    var a := AbsBits(b);
    assert Exponent(a) == Exponent(b) && Mantissa(a) == Mantissa(b);
    MagnitudePositive(b);
    hide Exponent, Mantissa, Magnitude;
  }

  lemma MagnitudePositive(b: Bits)
    requires Finite(b)
    ensures Magnitude(b) >= 0.0
  {
    hide Exponent, Mantissa, Fraction, Pow2, MinNormal;
    if Exponent(b) == 0 {
      SubnormalMagnitude(b);
    } else {
      NormalMagnitude(b);
    }
  }

  /** The largest magnitude, not below the floor. */
  function Amax(row: seq<Bits>, floor: Bits): (m: Bits)
    requires AllFinite(row) && Finite(floor)
    ensures Finite(m)
  {
    if row == [] then floor
    else
      var m := Amax(row[..|row| - 1], floor);
      var a := AbsBits(row[|row| - 1]);
      AbsBitsIs(row[|row| - 1]);
      if Value(m) < Value(a) then a else m
  }

  lemma {:induction false} AmaxIs(row: seq<Bits>, floor: Bits)
    requires AllFinite(row) && Finite(floor) && !Negative(floor)
    ensures !Negative(Amax(row, floor)) && Value(Amax(row, floor)) == Larger(AbsMax(Values(row)), Value(floor))
  {
    hide Value, Negative, Finite, AbsBits;
    if row == [] {
      FloorPositive(floor);
    } else {
      var init := row[..|row| - 1];
      AmaxIs(init, floor);
      AbsBitsIs(row[|row| - 1]);
      assert Values(row)[..|row| - 1] == Values(init);
    }
  }

  lemma FloorPositive(floor: Bits)
    requires Finite(floor) && !Negative(floor)
    ensures Value(floor) >= 0.0
  {
    MagnitudePositive(floor);
  }

  lemma ExponentBelow(b: Bits)
    ensures Exponent(b) < 256
  {
  }

  /** A float that is at least a normal one is normal, and its fields say so. */
  lemma AtLeastFloor(x: Bits, floor: Bits)
    requires Finite(x) && !Negative(x) && PositiveNormal(floor) && Value(x) >= Value(floor)
    ensures PositiveNormal(x) && Exponent(x) >= Exponent(floor)
    ensures Exponent(x) == Exponent(floor) ==> Significand(x) >= Significand(floor)
  {
    hide Pow2, Exponent, Mantissa, Magnitude, MinNormal, Significand;
    NormalMagnitude(floor);
    ExponentBelow(x);
    Pow2Up(-126, Exponent(floor) - 127);
    assert MinNormal() == Pow2(-126) by {
      Edges();
    }
    if Exponent(x) == 0 {
      SubnormalMagnitude(x);
    } else {
      NormalMagnitude(x);
      if Exponent(x) < Exponent(floor) {
        Pow2Up(Exponent(x) - 127, Exponent(floor) - 127);
      }
      ValueIs(x);
      ValueIs(floor);
      if Exponent(x) == Exponent(floor) {
        FactorBound(Significand(floor) as real, Significand(x) as real, Pow2(Exponent(x) - 150), Value(floor), Value(x));
      }
    }
  }

  lemma ProductInRange(x: Bits, f: Format)
    requires PositiveNormal(x) && Exponent(x) >= Exponent(f.Floor())
    requires Exponent(x) == Exponent(f.Floor()) ==> Significand(x) >= Significand(f.Floor())
    ensures PositiveNormal(f.Reciprocal()) && 1 <= ProductExponent(x, f.Reciprocal()) <= 252
  {
    hide Exponent, Significand, Format.Floor, Format.Reciprocal;
    Floors();
    Reciprocals();
    assert f == Fp8 || f == Fp4;
    assert f.Reciprocal() == (if f == Fp8 then INV448 else INV6) by {
      ReciprocalIs(f);
    }
  }

  lemma ReciprocalIs(f: Format)
    ensures f.Reciprocal() == if f == Fp8 then INV448 else INV6
  {
  }

  /** A product w times q covers a times v when v is c parts of w and q has enough of them. */
  lemma Parts(a: nat, q: int, most: real, c: real, v: real, w: real)
    requires w > 0.0 && most > 0.0 && v == c * w && c * a as real <= most * q as real
    ensures a as real * v / most <= q as real * w
  {
    var d := most * q as real - c * a as real;
    assert d * w >= 0.0;
    assert d * w == most * (q as real * w) - a as real * v;
    FactorBound(a as real * v / most, q as real * w, most, a as real * v, most * (q as real * w));
  }


  lemma PowerBelow(e: int)
    ensures Pow2(e) == 4.0 * Pow2(e - 2) == 8.0 * Pow2(e - 3) == 256.0 * Pow2(e - 8) == 512.0 * Pow2(e - 9)
  {
    hide Pow2;
    Pow2Next(e - 1);
    Pow2Next(e - 2);
    Pow2Next(e - 3);
    Pow2Four(e - 4);
    Pow2Four(e - 8);
    Pow2Next(e - 9);
  }

  lemma Covers448(a: nat, e: int, q: int)
    requires TWO23 <= a < 2 * TWO23
    requires var u := Unit(Dropped(9586981 * a)); 2 * q * u >= 2 * 9586981 * a - u
    ensures a as real * Pow2(e) / 448.0 <= q as real * Pow2(e + 118 - 150 + Dropped(9586981 * a))
  {
    hide Pow2, Dropped, Unit;
    RoundedUp448(a, q);
    PowerBelow(e);
    if Dropped(9586981 * a) == 23 {
      Parts(a, q, 448.0, 512.0, Pow2(e), Pow2(e - 9));
    } else {
      Parts(a, q, 448.0, 256.0, Pow2(e), Pow2(e - 8));
    }
  }

  lemma Covers6(a: nat, e: int, q: int)
    requires TWO23 <= a < 2 * TWO23
    requires var u := Unit(Dropped(11184811 * a)); 2 * q * u >= 2 * 11184811 * a - u
    ensures a as real * Pow2(e) / 6.0 <= q as real * Pow2(e + 124 - 150 + Dropped(11184811 * a))
  {
    hide Pow2, Dropped, Unit;
    RoundedUp6(a, q);
    PowerBelow(e);
    if Dropped(11184811 * a) == 23 {
      Parts(a, q, 6.0, 8.0, Pow2(e), Pow2(e - 3));
    } else {
      Parts(a, q, 6.0, 4.0, Pow2(e), Pow2(e - 2));
    }
  }

  /** x lies at or above the floor of its format. */
  predicate AboveFloor(x: Bits, f: Format) {
    && PositiveNormal(x) && Exponent(x) >= Exponent(f.Floor())
    && (Exponent(x) == Exponent(f.Floor()) ==> Significand(x) >= Significand(f.Floor()))
  }

  lemma ProductNotBelow(x: Bits, r: Bits, m: nat, n: int, most: real)
    requires PositiveNormal(x) && PositiveNormal(r) && 1 <= ProductExponent(x, r) <= 252
    requires (r, m, n, most) == (INV448, 9586981, 118, 448.0) || (r, m, n, most) == (INV6, 11184811, 124, 6.0)
    ensures PositiveNormal(Times32(x, r)) && Value(x) / most <= Value(Times32(x, r))
  {
    hide Times32, Value, Exponent, Significand, Pow2, RoundedProduct, Dropped, Unit;
    Reciprocals();
    TimesIs(x, r);
    SignificandProduct(x, r);
    ValueIs(x);
    var a, e := Significand(x), Exponent(x) - 150;
    assert a * Significand(r) == m * a;
    RoundedProductIs(m * a);
    if m == 9586981 {
      Covers448(a, e, RoundedProduct(m * a));
    } else {
      Covers6(a, e, RoundedProduct(m * a));
    }
  }

  /** The rounded product is not below the exact quotient, and does not overflow the scale. */
  lemma ProductCovers(x: Bits, f: Format)
    requires AboveFloor(x, f)
    ensures var p := Times32(x, f.Reciprocal());
      PositiveNormal(p) && Value(x) / f.Most() <= Value(p) <= MaxPower()
  {
    hide Times32, Value, Exponent, Significand, Pow2, Format.Floor;
    ProductInRange(x, f);
    if f == Fp8 {
      ProductNotBelow(x, INV448, 9586981, 118, 448.0);
    } else {
      ProductNotBelow(x, INV6, 11184811, 124, 6.0);
    }
    TimesIs(x, f.Reciprocal());
    var p := Times32(x, f.Reciprocal());
    BelowMaxPower(p);
  }

  lemma BelowMaxPower(p: Bits)
    requires PositiveNormal(p) && Exponent(p) <= 253
    ensures Value(p) <= MaxPower()
  {
    hide Exponent, Magnitude, Pow2;
    NormalMagnitude(p);
    Pow2Up(Exponent(p) - 127, 127);
    Edges();
  }

  lemma FloorValues()
    ensures PositiveNormal(Fp8.Floor()) && Value(Fp8.Floor()) == 13743895.0 * Pow2(-37)
    ensures PositiveNormal(Fp4.Floor()) && Value(Fp4.Floor()) == 6.0 * MinNormal()
  {
    hide Pow2, MinNormal, Exponent, Significand, Value, Format.Floor;
    Floors();
    FloorsNearest();
    ValueIs(Fp8.Floor());
  }

  lemma FloorCovers(f: Format)
    ensures PositiveNormal(f.Floor()) && Value(f.Floor()) > 0.0 && Value(f.Floor()) / f.Most() >= MinNormal()
  {
    hide Exponent, Negative, Pow2, MinNormal, Value, Format.Floor;
    FloorValues();
    Edges();
    Pow2Up(-126, -37);
    if f == Fp8 {
      FactorBound(MinNormal(), Value(f.Floor()) / 448.0, 448.0, MinNormal() * 448.0, Value(f.Floor()));
    } else {
      SixOverSix(MinNormal());
    }
  }

  /** The float the kernel rounds up to a power of two. */
  function Quotient32(row: seq<Bits>, f: Format): Bits
    requires AllFinite(row) && Finite(f.Floor())
  {
    Times32(Amax(row, f.Floor()), f.Reciprocal())
  }

  lemma QuotientCovers(row: seq<Bits>, f: Format)
    requires AllFinite(row)
    ensures PositiveNormal(f.Floor()) && PositiveNormal(Quotient32(row, f))
    ensures Ratio(Values(row), Value(f.Floor()), f.Most()) <= Value(Quotient32(row, f)) <= MaxPower()
  {
    hide Value, Times32, MaxPower, AbsMax, Exponent, Significand, Amax, Values;
    FloorCovers(f);
    var x := Amax(row, f.Floor());
    AmaxIs(row, f.Floor());
    AtLeastFloor(x, f.Floor());
    ProductCovers(x, f);
  }

  ghost predicate Unclamped(row: seq<Bits>, scale: real, most: real)
    requires AllFinite(row)
  {
    scale > 0.0 &&
    forall k :: 0 <= k < |row| ==> Clamp(Value(row[k]) / scale, most) == Value(row[k]) / scale
  }

  /** For every group of finite floats and both formats, with every step of the scale in single precision:
      the rounded scale is the least power of two that is not below the quotient, and no element divided
      by it, or by the quotient itself where that is the scale, is clamped. */
  lemma GroupNeverClamped(row: seq<Bits>, f: Format)
    requires AllFinite(row)
    ensures Finite(f.Floor()) && Finite(Quotient32(row, f)) && Finite(RoundScaleBits(Quotient32(row, f)))
    ensures var p := Quotient32(row, f);
      var s := RoundScaleBits(p);
      && (exists k :: Value(s) == Pow2(k) && LeastPower(k, Value(p)))
      && Unclamped(row, Value(s), f.Most()) && Unclamped(row, Value(p), f.Most())
  {
    hide Value, Quotient32, Ratio, MaxPower, MinNormal, Clamp, Pow2, RoundScaleBits, Exponent, Format.Most, LeastPower;
    FloorCovers(f);
    QuotientCovers(row, f);
    var p, v, floor := Quotient32(row, f), Values(row), Value(f.Floor());
    MostPositive(f);
    RatioAtLeast(v, floor, f.Most());
    RoundedScaleCovers(v, floor, f.Most(), p);
    HalfBelow(MinNormal());
    RoundScaleIff(p);
    forall k | 0 <= k < |row|
      ensures Clamp(Value(row[k]) / Value(p), f.Most()) == Value(row[k]) / Value(p)
    {
      ClampNeverBites(v, k, floor, f.Most(), Value(p));
    }
    forall k | 0 <= k < |row|
      ensures Clamp(Value(row[k]) / Value(RoundScaleBits(p)), f.Most()) == Value(row[k]) / Value(RoundScaleBits(p))
    {
      assert v[k] == Value(row[k]);
    }
  }

  lemma MostPositive(f: Format)
    ensures f.Most() > 0.0
  {
  }

  lemma HalfBelow(x: real)
    requires x > 0.0
    ensures 0.0 < x / 2.0 < x
  {
  }
}
