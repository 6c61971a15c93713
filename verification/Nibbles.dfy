/** Four-bit codes in machine words: shifting, or-ing and taking them out again. */
module Nibbles {
  import opened IntMath

  function Pow2(i: nat): (p: nat)
    ensures p > 0
  {
    if i == 0 then 1 else 2 * Pow2(i - 1)
  }

  /** Bitwise or. */
  function Or(a: nat, b: nat): nat
    decreases a + b
  {
    if a == 0 && b == 0 then 0
    else 2 * Or(a / 2, b / 2) + if a % 2 == 1 || b % 2 == 1 then 1 else 0
  }

  /** Bit i of a number. */
  predicate Bit(a: nat, i: nat) {
    a / Pow2(i) % 2 == 1
  }

  lemma BitOfHalf(a: nat, i: nat)
    requires i > 0
    ensures Bit(a, i) <==> Bit(a / 2, i - 1)
  {
    HalfQuotient(a, Pow2(i - 1));
  }

  lemma HalfQuotient(a: nat, p: nat)
    requires p > 0
    ensures a / (2 * p) == a / 2 / p
  {
    var q, r := a / 2 / p, a / 2 % p;
    assert a / 2 == q * p + r && a == 2 * (a / 2) + a % 2;
    var low := 2 * r + a % 2;
    assert a == q * (2 * p) + low by {
      assert q * (2 * p) == 2 * (q * p);
    }
    DivMod(q, low, 2 * p);
  }

  /** Every bit of the result is the or of the bits. */
  lemma {:induction false} OrBits(a: nat, b: nat, i: nat)
    ensures Bit(Or(a, b), i) <==> Bit(a, i) || Bit(b, i)
    decreases i
  {
    if i == 0 {
      assert Pow2(i) == 1;
    } else {
      hide Bit;
      OrHalf(a, b);
      BitOfHalf(Or(a, b), i);
      BitOfHalf(a, i);
      BitOfHalf(b, i);
      OrBits(a / 2, b / 2, i - 1);
    }
  }

  lemma OrHalf(a: nat, b: nat)
    ensures Or(a, b) / 2 == Or(a / 2, b / 2)
  {
  }

  lemma {:induction false} OrZero(b: nat)
    ensures Or(0, b) == b
  {
    if b > 0 {
      OrZero(b / 2);
    }
  }

  /** Or-ing a value into bits above all bits of a adds it. */
  lemma {:induction false} OrAbove(a: nat, v: nat, i: nat)
    requires a < Pow2(i)
    ensures Or(a, v * Pow2(i)) == a + v * Pow2(i)
  {
    if i == 0 {
      OrZero(v);
    } else {
      var h := v * Pow2(i - 1);
      assert v * Pow2(i) == 2 * h;
      OrAbove(a / 2, v, i - 1);
      if a == 0 && h == 0 {
      } else {
        assert Or(a, 2 * h) == 2 * Or(a / 2, h) + a % 2;
      }
    }
  }

  lemma Pow2Nibbles()
    ensures Pow2(4) == 16 && Pow2(8) == 256 && Pow2(12) == 4096 && Pow2(16) == 65536
    ensures Pow2(20) == 1048576 && Pow2(24) == 16777216 && Pow2(28) == 268435456
  {
    assert Pow2(4) == 16;
    assert Pow2(8) == 256;
    assert Pow2(12) == 4096;
    assert Pow2(16) == 65536;
    assert Pow2(20) == 1048576;
    assert Pow2(24) == 16777216;
  }

  type Nibble = c: nat | c < 16

  /** One byte: lo in the low nibble, hi in the high nibble. */
  function Byte(lo: nat, hi: nat): nat {
    Or(lo, hi * 16)
  }

  function Low(b: nat): Nibble {
    b % 16
  }

  function High(b: nat): Nibble {
    (b / 16) % 16
  }

  lemma ByteRoundTrip(lo: Nibble, hi: Nibble)
    ensures Byte(lo, hi) < 256 && Low(Byte(lo, hi)) == lo && High(Byte(lo, hi)) == hi
  {
    hide Or;
    Pow2Nibbles();
    OrAbove(lo, hi, 4);
  }

  lemma ByteOfNibbles(b: nat)
    requires b < 256
    ensures Byte(Low(b), High(b)) == b
  {
    hide Or;
    Pow2Nibbles();
    OrAbove(Low(b), High(b), 4);
  }

  /** Nibbles in pairs, the first of each pair in the low half of its byte. */
  function PackPairs(c: seq<Nibble>): (p: seq<nat>)
    requires |c| % 2 == 0
    ensures |p| * 2 == |c|
  {
    if c == [] then [] else [Byte(c[0], c[1])] + PackPairs(c[2..])
  }

  function Unpack(p: seq<nat>): (c: seq<Nibble>)
    ensures |c| == 2 * |p|
  {
    seq(2 * |p|, i requires 0 <= i < 2 * |p| => if i % 2 == 0 then Low(p[i / 2]) else High(p[i / 2]))
  }

  lemma UnpackAt(p: seq<nat>, i: nat)
    requires i < |p|
    ensures Unpack(p)[2 * i] == Low(p[i]) && Unpack(p)[2 * i + 1] == High(p[i])
  {
    hide Low, High;
    assert (2 * i) / 2 == i && (2 * i + 1) / 2 == i;
  }

  lemma UnpackFirst(b: nat, rest: seq<nat>)
    ensures Unpack([b] + rest) == [Low(b), High(b)] + Unpack(rest)
  {
    hide Low, High, Unpack;
    var p := [b] + rest;
    UnpackAt(p, 0);
    forall i | 2 <= i < 2 * |p| ensures Unpack(p)[i] == Unpack(rest)[i - 2] {
      var k := i / 2 - 1;
      assert i == 2 * (k + 1) || i == 2 * (k + 1) + 1;
      assert p[k + 1] == rest[k];
      UnpackAt(p, k + 1);
      UnpackAt(rest, k);
    }
  }

  lemma {:induction false} UnpackPacked(c: seq<Nibble>)
    requires |c| % 2 == 0
    ensures Unpack(PackPairs(c)) == c
  {
    if c != [] {
      UnpackPacked(c[2..]);
      var b, rest := Byte(c[0], c[1]), PackPairs(c[2..]);
      assert PackPairs(c) == [b] + rest;
      hide *;
      ByteRoundTrip(c[0], c[1]);
      UnpackFirst(b, rest);
      assert c == [c[0], c[1]] + c[2..];
    } else {
      assert Unpack([]) == [];
    }
  }

  lemma PackFirst(lo: Nibble, hi: Nibble, rest: seq<Nibble>)
    requires |rest| % 2 == 0
    ensures PackPairs([lo, hi] + rest) == [Byte(lo, hi)] + PackPairs(rest)
  {
    assert ([lo, hi] + rest)[2..] == rest;
  }

  predicate Bytes(p: seq<nat>) {
    forall i :: 0 <= i < |p| ==> p[i] < 256
  }

  lemma {:induction false} PackUnpacked(p: seq<nat>)
    requires Bytes(p)
    ensures PackPairs(Unpack(p)) == p
  {
    if p == [] {
      assert Unpack(p) == [];
    } else {
      var b, rest := p[0], p[1..];
      PackUnpacked(rest);
      var u := Unpack(rest);
      hide *;
      UnpackFirst(b, rest);
      PackFirst(Low(b), High(b), u);
      ByteOfNibbles(b);
      assert [b] + rest == p;
    }
  }
}
