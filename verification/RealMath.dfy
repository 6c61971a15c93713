/** Magnitudes, and quotients by a positive scale. */
module RealMath {
  function Abs(x: real): (r: real)
    ensures r >= 0.0 && (r == x || r == -x)
  {
    if x < 0.0 then -x else x
  }

  function Larger(a: real, b: real): real {
    if a < b then b else a
  }

  /** The largest magnitude of a row. */
  function AbsMax(row: seq<real>): (r: real)
    ensures r >= 0.0 && forall i :: 0 <= i < |row| ==> Abs(row[i]) <= r
    ensures row != [] ==> exists i :: 0 <= i < |row| && Abs(row[i]) == r
  {
    if row == [] then 0.0
    else
      var r := AbsMax(row[..|row| - 1]);
      if r < Abs(row[|row| - 1]) then Abs(row[|row| - 1]) else r
  }

  lemma AbsMaxAtMost(row: seq<real>, bound: real)
    requires bound >= 0.0 && forall i :: 0 <= i < |row| ==> Abs(row[i]) <= bound
    ensures AbsMax(row) <= bound
  {
  }

  lemma FactorBound(a: real, b: real, s: real, x: real, y: real)
    requires s > 0.0 && x == a * s && y == b * s && x <= y
    ensures a <= b
  {
    var d := b - a;
    assert d * s == y - x;
    assert d < 0.0 ==> d * s < 0.0;
  }

  lemma QuotientWithin(x: real, s: real, lo: real, hi: real)
    requires s > 0.0 && lo * s <= x <= hi * s
    ensures lo <= x / s <= hi
  {
    var q := x / s;
    assert q * s == x;
    FactorBound(lo, q, s, lo * s, x);
    FactorBound(q, hi, s, x, hi * s);
  }
}
