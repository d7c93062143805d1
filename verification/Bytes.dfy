/** Bytes, little-endian and big-endian numbers, shared by every component. */
module Bytes {

  type Byte = x: int | 0 <= x < 256

  function Power256(n: nat): (r: nat)
    ensures r > 0
  {
    if n == 0 then 1 else 256 * Power256(n - 1)
  }

  function LittleEndian(b: seq<Byte>): nat
  {
    if b == [] then 0 else b[0] + 256 * LittleEndian(b[1..])
  }

  function BigEndian(b: seq<Byte>): nat
  {
    if b == [] then 0 else 256 * BigEndian(b[..|b| - 1]) + b[|b| - 1]
  }

  function Reversed(b: seq<Byte>): (r: seq<Byte>)
    ensures |r| == |b| && forall i :: 0 <= i < |b| ==> r[i] == b[|b| - 1 - i]
  {
    seq(|b|, i requires 0 <= i < |b| => b[|b| - 1 - i])
  }

  lemma {:induction false} ReversedIsBigEndian(b: seq<Byte>)
    ensures BigEndian(Reversed(b)) == LittleEndian(b)
  {
    if b != [] {
      ReversedIsBigEndian(b[1..]);
      assert Reversed(b)[..|b| - 1] == Reversed(b[1..]);
    }
  }

  /** A big-endian number is its first i bytes scaled, plus the rest. */
  lemma {:induction false} BigEndianSplit(b: seq<Byte>, i: nat)
    requires i <= |b|
    ensures BigEndian(b[i..]) < Power256(|b| - i)
    ensures BigEndian(b) == BigEndian(b[..i]) * Power256(|b| - i) + BigEndian(b[i..])
    decreases |b| - i
  {
    if i == |b| {
      assert b[..i] == b && b[i..] == [];
    } else {
      var c := b[..|b| - 1];
      BigEndianSplit(c, i);
      assert c[..i] == b[..i] && c[i..] == b[i..][..|b[i..]| - 1];
      assert BigEndian(b[i..]) == 256 * BigEndian(c[i..]) + b[|b| - 1];
      ScaleStep(BigEndian(b[..i]), Power256(|c| - i), BigEndian(c[i..]), b[|b| - 1]);
    }
  }

  lemma ScaleStep(x: nat, p: nat, y: nat, last: nat)
    ensures 256 * (x * p + y) + last == x * (256 * p) + (256 * y + last)
  {
  }

  lemma LastByte(x: seq<Byte>, i: nat)
    requires i < |x|
    ensures BigEndian(x[..i + 1]) == 256 * BigEndian(x[..i]) + x[i]
  {
    assert x[..i + 1][..i] == x[..i];
  }

  // The first differing byte decides the numeric order.
  lemma FirstDifferenceDecides(x: seq<Byte>, y: seq<Byte>, i: nat)
    requires |x| == |y| && i < |x| && x[..i] == y[..i] && x[i] < y[i]
    ensures BigEndian(x) < BigEndian(y)
  {
    hide BigEndian, Power256;
    BigEndianSplit(x, i + 1);
    BigEndianSplit(y, i + 1);
    LastByte(x, i);
    LastByte(y, i);
    BelowNext(BigEndian(x[..i + 1]), BigEndian(y[..i + 1]), Power256(|x| - i - 1), BigEndian(x[i + 1..]));
  }

  lemma MultiplyMonotone(d: nat, p: nat)
    ensures d * p >= 0
  {
  }

  lemma BelowNext(x: nat, y: nat, p: nat, rest: nat)
    requires x < y && rest < p
    ensures x * p + rest < y * p
  {
    MultiplyMonotone(y - x - 1, p);
    assert y * p == (y - x - 1) * p + x * p + p;
  }

  function Zeros(n: nat): (r: seq<Byte>)
    ensures |r| == n && forall i :: 0 <= i < n ==> r[i] == 0
  {
    seq(n, i => 0)
  }
}
