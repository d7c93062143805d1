/** Compact targets, retargeting and chain work (src/lib.rs). */
module Difficulty {
  import opened Arithmetic
  import opened Bytes
  import opened Outcome
  import opened Wire

  // ---- Compact targets ---------------------------------------------------------------------

  function Exponent(bits: U32): nat { bits / 0x100_0000 }
  function Mantissa(bits: U32): nat { bits % 0x80_0000 }
  predicate Negative(bits: U32) { bits / 0x80_0000 % 2 == 1 }

  /** target_from_compact: 32 big-endian bytes. */
  function TargetFromCompact(bits: U32): (r: Result<seq<Byte>>)
    ensures r.Ok? ==> |r.value| == 32
  {
    var e, m := Exponent(bits), Mantissa(bits);
    if m == 0 || Negative(bits) then Err
    else if e > 32 then Err
    else
      var out :=
        if e <= 3 then
          var v := m / Power256(3 - e);
          Zeros(29) + [if v > 0xffff then v / 256 / 256 % 256 else 0, if v > 0xff then v / 256 % 256 else 0, v % 256]
        else Zeros(32 - e) + [m / 256 / 256 % 256, m / 256 % 256, m % 256] + Zeros(e - 3);
      if BigEndian(out) == 0 then Err else Ok(out)
  }

  /** The number a compact target stands for. */
  function CompactValue(bits: U32): nat
  {
    var e, m := Exponent(bits), Mantissa(bits);
    if e <= 3 then Quotient(m, Power256(3 - e)) else Times(m, Power256(e - 3))
  }

  predicate Decodable(bits: U32)
  {
    !Negative(bits) && Exponent(bits) <= 32 && CompactValue(bits) > 0
  }

  lemma {:induction false} BigEndianZeros(n: nat)
    ensures BigEndian(Zeros(n)) == 0
  {
    if n > 0 {
      BigEndianZeros(n - 1);
      assert Zeros(n)[..n - 1] == Zeros(n - 1);
    }
  }

  lemma ThreeBytes(x: Byte, y: Byte, z: Byte)
    ensures BigEndian([x, y, z]) == 256 * (256 * x + y) + z
  {
    assert [x, y, z][..2] == [x, y] && [x, y][..1] == [x] && [x][..0] == [];
    assert BigEndian([x]) == x && BigEndian([x, y]) == 256 * x + y;
  }

  lemma BigEndianShifted(a: nat, mid: seq<Byte>, b: nat)
    ensures BigEndian(Zeros(a) + mid + Zeros(b)) == BigEndian(mid) * Power256(b)
  {
    var all := Zeros(a) + mid + Zeros(b);
    BigEndianSplit(all, a + |mid|);
    assert all[..a + |mid|] == Zeros(a) + mid && all[a + |mid|..] == Zeros(b);
    BigEndianZeros(b);
    BigEndianSplit(Zeros(a) + mid, a);
    assert (Zeros(a) + mid)[..a] == Zeros(a) && (Zeros(a) + mid)[a..] == mid;
    BigEndianZeros(a);
  }

  // Three bytes of a number below 2^24, written as the decoder does for small exponents.
  lemma SmallBytes(v: nat)
    requires v < 0x80_0000
    ensures var x, y, z := if v > 0xffff then v / 256 / 256 % 256 else 0, if v > 0xff then v / 256 % 256 else 0, v % 256;
      256 * (256 * x + y) + z == v && v / 256 / 256 % 256 == x && v / 256 % 256 == y
  {
    assert v == 256 * (v / 256) + v % 256;
    assert v / 256 == 256 * (v / 256 / 256) + v / 256 % 256;
  }

  /** The bytes decoded from a compact target are the number it stands for, and exactly the rest is rejected. */
  lemma TargetFromCompactIs(bits: U32)
    ensures TargetFromCompact(bits).Ok? <==> Decodable(bits)
    ensures TargetFromCompact(bits).Ok? ==> BigEndian(TargetFromCompact(bits).value) == CompactValue(bits)
  {
    var e, m := Exponent(bits), Mantissa(bits);
    if e <= 3 {
      SmallExponent(m, e);
    } else if e <= 32 {
      LargeExponent(m, e);
      Product(m, Power256(e - 3));
    }
    if m == 0 {
      ZeroMantissa(e);
    }
  }

  lemma ZeroMantissa(e: nat)
    ensures e <= 3 ==> 0 / Power256(3 - e) == 0
    ensures e > 3 ==> 0 * Power256(e - 3) == 0
  {
  }

  lemma SmallExponent(m: nat, e: nat)
    requires m < 0x80_0000 && e <= 3
    ensures 0 <= m / Power256(3 - e) <= m
    ensures var v := m / Power256(3 - e);
      BigEndian(Zeros(29) + [if v > 0xffff then v / 256 / 256 % 256 else 0, if v > 0xff then v / 256 % 256 else 0, v % 256]) == v
  {
    QuotientBelow(m, Power256(3 - e));
    SmallBytesValue(m / Power256(3 - e));
  }

  lemma SmallBytesValue(v: nat)
    requires v < 0x80_0000
    ensures BigEndian(Zeros(29) + [if v > 0xffff then v / 256 / 256 % 256 else 0, if v > 0xff then v / 256 % 256 else 0, v % 256]) == v
  {
    hide BigEndian, Power256, Zeros;
    SmallBytes(v);
    var x, y, z := if v > 0xffff then v / 256 / 256 % 256 else 0, if v > 0xff then v / 256 % 256 else 0, v % 256;
    ThreeBytes(x, y, z);
    BigEndianShifted(29, [x, y, z], 0);
    SmallPowers();
    assert Zeros(29) + [x, y, z] + Zeros(0) == Zeros(29) + [x, y, z];
  }

  lemma LargeExponent(m: nat, e: nat)
    requires m < 0x80_0000 && 3 < e <= 32
    ensures BigEndian(Zeros(32 - e) + [m / 256 / 256 % 256, m / 256 % 256, m % 256] + Zeros(e - 3)) == m * Power256(e - 3)
  {
    SmallBytes(m);
    ThreeBytes(m / 256 / 256 % 256, m / 256 % 256, m % 256);
    BigEndianShifted(32 - e, [m / 256 / 256 % 256, m / 256 % 256, m % 256], e - 3);
  }

  // ---- Encoding ----------------------------------------------------------------------------

  /** to_bytes_be: no leading zero byte. */
  function ToBytes(n: nat): (r: seq<Byte>)
    ensures n > 0 ==> r != [] && r[0] > 0
  {
    if n == 0 then [] else ToBytes(n / 256) + [n % 256]
  }

  lemma {:induction false} ToBytesValue(n: nat)
    ensures BigEndian(ToBytes(n)) == n
    ensures n < Power256(|ToBytes(n)|) && (n > 0 ==> Power256(|ToBytes(n)| - 1) <= n)
  {
    if n > 0 {
      ToBytesValue(n / 256);
      var r := ToBytes(n / 256);
      assert (r + [n % 256])[..|r|] == r;
      if n / 256 == 0 {
        assert Power256(0) == 1 && Power256(1) == 256;
      } else {
        assert Power256(|r|) == 256 * Power256(|r| - 1);
      }
    }
  }

  lemma {:induction false} PowerMonotone(a: nat, b: nat)
    requires a <= b
    ensures Power256(a) <= Power256(b)
  {
    if a < b {
      PowerMonotone(a, b - 1);
    }
  }

  lemma SizeBound(n: nat, k: nat)
    requires n < Power256(k) && n > 0
    ensures 0 < |ToBytes(n)| <= k
  {
    ToBytesValue(n);
    if |ToBytes(n)| > k {
      PowerMonotone(k, |ToBytes(n)| - 1);
    }
  }

  /** The first three bytes as a number, missing ones counting as zero. */
  function Leading(b: seq<Byte>): (r: nat)
    requires b != []
    ensures b[0] > 0 ==> 0x1_0000 <= r
    ensures r < 0x100_0000
  {
    var x: int, y: int, z: int := b[0], if |b| > 1 then b[1] else 0, if |b| > 2 then b[2] else 0;
    256 * (256 * x + y) + z
  }

  /** biguint_to_compact. */
  function Compact(target: nat): U32
    requires target < Power256(32)
  {
    if target == 0 then 0
    else
      SizeBound(target, 32);
      var size, top := |ToBytes(target)|, Leading(ToBytes(target));
      if top >= 0x80_0000 then (size + 1) * 0x100_0000 + top / 256 else size * 0x100_0000 + top
  }

  lemma SmallPowers()
    ensures Power256(0) == 1 && Power256(1) == 256 && Power256(2) == 0x1_0000 && Power256(3) == 0x100_0000
  {
    assert Power256(1) == 256 * Power256(0) && Power256(2) == 256 * Power256(1) && Power256(3) == 256 * Power256(2);
  }

  lemma LeadingSmall(n: nat)
    requires n > 0 && |ToBytes(n)| <= 3
    ensures Leading(ToBytes(n)) == n * Power256(3 - |ToBytes(n)|)
  {
    var b := ToBytes(n);
    ToBytesValue(n);
    SmallPowers();
    if |b| == 1 {
      assert b == [b[0]] && b[..0] == [];
    } else if |b| == 2 {
      assert b == [b[0], b[1]] && b[..1] == [b[0]] && b[..1][..0] == [];
    } else {
      assert b == [b[0], b[1], b[2]];
      ThreeBytes(b[0], b[1], b[2]);
    }
  }

  lemma LeadingLarge(n: nat) returns (rest: nat)
    requires |ToBytes(n)| >= 3
    ensures n == Leading(ToBytes(n)) * Power256(|ToBytes(n)| - 3) + rest && rest < Power256(|ToBytes(n)| - 3)
  {
    var b := ToBytes(n);
    ToBytesValue(n);
    BigEndianSplit(b, 3);
    ThreeBytes(b[0], b[1], b[2]);
    assert b[..3] == [b[0], b[1], b[2]];
    rest := BigEndian(b[3..]);
  }

  // What the encoder drops, with p the weight of the last byte it keeps.
  lemma Truncated(n: nat, kept: nat, p: nat, rest: nat)
    requires n == kept * p + rest && rest < p && 0x8000 <= kept
    ensures (n - kept * p) * 0x8000 < n
  {
    ScaleMonotone(0x8000, kept, p);
  }

  lemma DropLastByte(top: nat, p: nat, rest: nat)
    requires rest < p
    ensures top * p + rest == top / 256 * (256 * p) + (top % 256 * p + rest) && top % 256 * p + rest < 256 * p
  {
    var q, r := top / 256, top % 256;
    assert top == 256 * q + r;
    assert (256 * q + r) * p == q * (256 * p) + r * p;
    ScaleMonotone(r, 255, p);
  }

  lemma HalfOfTop()
    ensures 0x8000 * Power256(30) == Power256(32) / 2
  {
    assert Power256(31) == 256 * Power256(30) && Power256(32) == 256 * Power256(31);
  }

  // A full first byte of a 32-byte number would be at least 2^255.
  lemma TopSize(n: nat, size: nat, top: nat, p: nat)
    requires n < Power256(32) / 2 && 3 <= size <= 32 && p == Power256(size - 3) && top * p <= n && top >= 0x80_0000
    ensures size < 32
  {
    hide Power256;
    if size == 32 {
      HalfOfTop();
      PowerStep(29);
      ScaleMonotone(0x80_0000, top, p);
    }
  }

  lemma EncodedParts(size: nat, top: nat)
    requires size <= 255 && top < 0x80_0000
    ensures var bits: U32 := size * 0x100_0000 + top;
      Exponent(bits) == size && Mantissa(bits) == top && !Negative(bits)
  {
    var bits := size * 0x100_0000 + top;
    DivideUnique(bits, 0x100_0000, size, top);
    DivideUnique(bits, 0x80_0000, 2 * size, top);
  }

  // Exponent and mantissa of an encoding; the mantissa is shortened when its top bit is set.
  lemma CompactParts(n: nat)
    requires 0 < n < Power256(32)
    ensures var size, top, bits := |ToBytes(n)|, Leading(ToBytes(n)), Compact(n);
      && 0 < size <= 32 && 0x1_0000 <= top < 0x100_0000 && !Negative(bits)
      && (top >= 0x80_0000 ==> Exponent(bits) == size + 1 && Mantissa(bits) == top / 256)
      && (top < 0x80_0000 ==> Exponent(bits) == size && Mantissa(bits) == top)
  {
    hide Exponent, Mantissa, Negative, Leading, ToBytes, Power256;
    SizeBound(n, 32);
    FirstByte(n);
    var size, top := |ToBytes(n)|, Leading(ToBytes(n));
    if top >= 0x80_0000 {
      EncodedParts(size + 1, top / 256);
    } else {
      EncodedParts(size, top);
    }
  }

  lemma FirstByte(n: nat)
    requires n > 0
    ensures ToBytes(n)[0] > 0 && 0x1_0000 <= Leading(ToBytes(n))
  {
  }

  // A value with no bytes below its weight decodes to itself.
  lemma SmallValue(bits: U32, n: nat, e: nat)
    requires 0 < e <= 3 && Exponent(bits) == e && Mantissa(bits) == n * Power256(3 - e)
    ensures CompactValue(bits) == n
  {
    DivideUnique(n * Power256(3 - e), Power256(3 - e), n, 0);
  }

  lemma OneByteLess(n: nat, size: nat, top: nat)
    requires 0 < size < 3 && top == n * Power256(3 - size)
    ensures top / 256 == n * Power256(2 - size)
  {
    SmallPowers();
    DivideUnique(top, 256, n * Power256(2 - size), 0);
  }

  lemma CompactSmall(n: nat)
    requires 0 < n < Power256(32) && |ToBytes(n)| < 3
    ensures Decodable(Compact(n)) && CompactValue(Compact(n)) == n
  {
    hide Compact, Exponent, Mantissa, Negative, Leading, ToBytes, CompactValue, Power256;
    CompactParts(n);
    LeadingSmall(n);
    var size, top := |ToBytes(n)|, Leading(ToBytes(n));
    if top >= 0x80_0000 {
      OneByteLess(n, size, top);
      SmallValue(Compact(n), n, size + 1);
    } else {
      SmallValue(Compact(n), n, size);
    }
  }

  /** What the encoder keeps: a number of at least 15 bits, unless it keeps everything, times a power of 256. */
  lemma CompactShape(n: nat) returns (kept: nat, k: nat, rest: nat)
    requires 0 < n < Power256(32) / 2
    ensures kept * Power256(k) >= 0 && n == kept * Power256(k) + rest && rest < Power256(k) && kept > 0 && (k == 0 || 0x8000 <= kept)
    ensures Decodable(Compact(n)) && CompactValue(Compact(n)) == kept * Power256(k)
  {
    hide Compact, Exponent, Mantissa, Negative, Leading, ToBytes, CompactValue, Power256;
    var size, top := |ToBytes(n)|, Leading(ToBytes(n));
    CompactParts(n);
    SmallPowers();
    if size < 3 {
      CompactSmall(n);
      kept, k, rest := n, 0, 0;
    } else {
      rest := LeadingLarge(n);
      k := size - 3;
      var p := Power256(k);
      if top >= 0x80_0000 {
        DropLastByte(top, p, rest);
        TopSize(n, size, top, p);
        PowerStep(k);
        kept, k, rest := top / 256, k + 1, top % 256 * p + rest;
        LargeValue(Compact(n), size + 1, kept);
      } else {
        kept := top;
        LargeValue(Compact(n), size, top);
      }
      ScaleMonotone(1, kept, Power256(k));
    }
  }

  /** Encoding keeps the number up to one part in 2^15 and always yields a decodable target. */
  lemma CompactTruncates(n: nat)
    requires 0 < n < Power256(32) / 2
    ensures Decodable(Compact(n))
    ensures CompactValue(Compact(n)) <= n && (n - CompactValue(Compact(n))) * 0x8000 < n
  {
    hide Compact, CompactValue, Power256;
    SmallPowers();
    var kept, k, rest := CompactShape(n);
    if k > 0 {
      Truncated(n, kept, Power256(k), rest);
    }
  }

  // What a compact word stands for: fewer than 23 bits times a power of 256.
  lemma ValueShape(bits: U32) returns (m: nat, j: nat)
    requires Decodable(bits)
    ensures m < 0x80_0000 && CompactValue(bits) == m * Power256(j)
  {
    SmallPowers();
    if Exponent(bits) <= 3 {
      m, j := CompactValue(bits), 0;
      QuotientBelow(Mantissa(bits), Power256(3 - Exponent(bits)));
    } else {
      m, j := Mantissa(bits), Exponent(bits) - 3;
    }
  }

  lemma MultipleBelow(v: nat, q: nat, kept: nat, p: nat, rest: nat)
    requires v == q * p && v <= kept * p + rest && rest < p
    ensures v <= kept * p
  {
    assert (kept + 1) * p == kept * p + p;
    CompareScaled(q, kept + 1, p);
    ScaleMonotone(q, kept, p);
  }

  lemma CoarserIsBelow(v: nat, m: nat, j: nat, kept: nat, k: nat)
    requires m < 0x80_0000 && v == m * Power256(j) && j < k && 0x8000 <= kept
    ensures v <= kept * Power256(k)
  {
    hide Power256;
    PowerMonotone(j + 1, k);
    PowerStep(j);
    ScaleMonotone(m, 0x80_0000, Power256(j));
    ScaleMonotone(Power256(j + 1), Power256(k), 0x8000);
    ScaleMonotone(0x8000, kept, Power256(k));
  }

  /** The encoder rounds down to the nearest target that can be written at all. */
  lemma CompactIsFloor(n: nat, bits: U32)
    requires 0 < n < Power256(32) / 2 && Decodable(bits) && CompactValue(bits) <= n
    ensures CompactValue(bits) <= CompactValue(Compact(n)) <= n
  {
    hide Compact, CompactValue, Power256, Decodable;
    var kept, k, rest := CompactShape(n);
    var m, j := ValueShape(bits);
    var v := CompactValue(bits);
    if j >= k {
      PowerProduct(k, j);
      MulAssociates(m, Power256(j - k), Power256(k));
      Product(m, Power256(j - k));
      MultipleBelow(v, m * Power256(j - k), kept, Power256(k), rest);
    } else {
      CoarserIsBelow(v, m, j, kept, k);
    }
  }

  lemma CompactMonotone(a: nat, b: nat)
    requires 0 < a <= b < Power256(32) / 2
    ensures CompactValue(Compact(a)) <= CompactValue(Compact(b))
  {
    hide Compact, CompactValue, Power256;
    CompactTruncates(a);
    CompactIsFloor(b, Compact(a));
  }

  lemma LargeValue(bits: U32, e: nat, m: nat)
    requires Exponent(bits) == e && Mantissa(bits) == m && e >= 3
    ensures CompactValue(bits) == m * Power256(e - 3)
    ensures e > 3 ==> CompactValue(bits) == m * (256 * Power256(e - 4))
  {
    SmallPowers();
    assert m / 1 == m;
    if e > 3 {
      assert Power256(e - 3) == 256 * Power256(e - 4);
    }
  }

  /** The largest target a compact word can stand for is below 2^255. */
  lemma DecodableBound(bits: U32)
    requires Decodable(bits)
    ensures 0 < CompactValue(bits) < Power256(32) / 2
  {
    hide Power256;
    var e, m := Exponent(bits), Mantissa(bits);
    HalfOfTop();
    SmallPowers();
    PowerMonotone(3, 29);
    PowerStep(29);
    if e <= 3 {
      QuotientBelow(m, Power256(3 - e));
    } else {
      PowerMonotone(e - 3, 29);
      ScaleMonotone(m, 0x7f_ffff, Power256(e - 3));
    }
  }

  lemma {:induction false} PowerProduct(k: nat, j: nat)
    requires k <= j
    ensures Power256(j) == Power256(j - k) * Power256(k)
  {
    if k < j {
      PowerProduct(k, j - 1);
      assert Power256(j - k) == 256 * Power256(j - k - 1);
      assert 256 * (Power256(j - k - 1) * Power256(k)) == 256 * Power256(j - k - 1) * Power256(k);
    } else {
      SmallPowers();
    }
  }

  lemma PowerStep(k: nat)
    ensures Power256(k + 1) == 256 * Power256(k)
  {
  }

  /** Decoding, encoding and decoding again gives the same target. */
  lemma CompactIsExactOnDecodable(bits: U32)
    requires Decodable(bits)
    ensures CompactValue(bits) < Power256(32)
    ensures Decodable(Compact(CompactValue(bits))) && CompactValue(Compact(CompactValue(bits))) == CompactValue(bits)
  {
    hide Compact, CompactValue, Decodable, Power256;
    DecodableBound(bits);
    CompactTruncates(CompactValue(bits));
    CompactIsFloor(CompactValue(bits), bits);
  }

  // ---- Retargeting -------------------------------------------------------------------------

  const DAA_V2_WINDOW_BLOCKS: nat := 20
  const DAA_V2_MAX_ADJUSTMENT_FACTOR: nat := 4

  /** The settings that matter to the work requirement; `daaV2From` is None on networks without it. */
  datatype WorkSettings = WorkSettings(
    genesisBits: U32, powBits: U32, spacing: U32, interval: U32, maxFactor: U32, daaV2From: Option<nat>)
  {
    /** What configuration loading insists on, and a usable proof-of-work limit. */
    predicate Valid() { Decodable(powBits) && interval > 0 && maxFactor >= 2 }

    predicate DaaV2Active(height: nat) { daaV2From.Some? && height >= daaV2From.value }

    function MaxFactor(height: nat): nat
    {
      if DaaV2Active(height) then DAA_V2_MAX_ADJUSTMENT_FACTOR else maxFactor
    }
  }

  function Clamp(x: nat, lo: nat, hi: nat): nat
    requires lo <= hi
  {
    if x < lo then lo else if x > hi then hi else x
  }

  /** The time the window took, clamped; multiplication saturates at 2^64 - 1. */
  function ActualTimespan(firstTime: nat, lastTime: nat, targetTimespan: nat, maxFactor: nat): nat
    requires maxFactor >= 2 && targetTimespan < TWO_64
  {
    var lo := Max(Quotient(targetTimespan, maxFactor), 1);
    var hi := Max(Min(targetTimespan * maxFactor, TWO_64 - 1), 1);
    QuotientBelow(targetTimespan, maxFactor);
    ScaleMonotone(1, maxFactor, targetTimespan);
    Clamp(if lastTime < firstTime then 0 else lastTime - firstTime, lo, hi)
  }

  lemma TimespanFits(spacing: U32, window: nat)
    requires window < TWO_32
    ensures 0 <= spacing * window < TWO_64
  {
    Product(spacing, window);
    ScaleMonotone(spacing, TWO_32 - 1, window);
  }

  function FirstOf(blocks: seq<Block>, window: nat): (r: nat)
    requires blocks != []
    ensures r < |blocks|
  {
    if |blocks| - 1 < window then 0 else |blocks| - 1 - window
  }

  function RetargetBits(s: WorkSettings, blocks: seq<Block>, window: nat, factor: nat): Result<U32>
    requires blocks != [] && s.Valid() && window < TWO_32
  {
    var last := |blocks| - 1;
    var first := FirstOf(blocks, window);
    var targetTimespan := s.spacing * window;
    TimespanFits(s.spacing, window);
    var maxFactor := Max(factor, 2);
    var actual := ActualTimespan(blocks[first].header.time, blocks[last].header.time, targetTimespan, maxFactor);
    var prevBits := blocks[last].header.bits;
    if !Decodable(prevBits) then Err
    else
      DecodableBound(s.powBits);
      Ok(Compact(NextTarget(CompactValue(prevBits), actual, targetTimespan, CompactValue(s.powBits))))
  }

  /** The old target scaled by actual over wanted time, between one and the limit. */
  function NextTarget(oldTarget: nat, actual: nat, targetTimespan: nat, powLimit: nat): nat
  {
    Min(Max(Scaled(oldTarget, actual, Max(targetTimespan, 1)), 1), powLimit)
  }

  lemma SlowerTarget(oldTarget: nat, firstTime: nat, early: nat, late: nat, timespan: nat, factor: nat, powLimit: nat)
    requires factor >= 2 && timespan < TWO_64 && early <= late
    ensures NextTarget(oldTarget, ActualTimespan(firstTime, early, timespan, factor), timespan, powLimit)
         <= NextTarget(oldTarget, ActualTimespan(firstTime, late, timespan, factor), timespan, powLimit)
  {
    hide ActualTimespan, Scaled;
    TimespanMonotone(firstTime, early, late, timespan, factor);
    ScaledMonotone(oldTarget, ActualTimespan(firstTime, early, timespan, factor), ActualTimespan(firstTime, late, timespan, factor), Max(timespan, 1));
  }

  lemma TimespanMonotone(firstTime: nat, early: nat, late: nat, timespan: nat, factor: nat)
    requires factor >= 2 && timespan < TWO_64 && early <= late
    ensures ActualTimespan(firstTime, early, timespan, factor) <= ActualTimespan(firstTime, late, timespan, factor)
  {
    hide Quotient;
    QuotientIs(timespan, factor);
    ScaleMonotone(1, factor, timespan);
    assert timespan * factor == factor * timespan;
  }

  lemma ScaledMonotone(target: nat, a: nat, b: nat, t: nat)
    requires t > 0 && a <= b
    ensures Scaled(target, a, t) <= Scaled(target, b, t)
  {
    Product(target, a);
    Product(target, b);
    ScaleMonotone(a, b, target);
    assert a * target == target * a && b * target == target * b;
    DivMod(target * a, t);
    DivideAtLeast(target * b, t, target * a / t);
  }

  lemma OnTimeTarget(oldTarget: nat, firstTime: nat, timespan: nat, factor: nat, powLimit: nat)
    requires factor >= 2 && 0 < timespan < TWO_64 && 1 <= oldTarget <= powLimit
    ensures NextTarget(oldTarget, ActualTimespan(firstTime, firstTime + timespan, timespan, factor), timespan, powLimit) == oldTarget
  {
    hide Quotient;
    QuotientIs(timespan, factor);
    ScaleMonotone(1, factor, timespan);
    assert timespan * factor == factor * timespan;
    assert ActualTimespan(firstTime, firstTime + timespan, timespan, factor) == timespan;
    Product(oldTarget, timespan);
    DivideUnique(oldTarget * timespan, timespan, oldTarget, 0);
  }

  /** A later last block makes the next required bits stand for no harder a target. */
  lemma SlowerIsNoHarder(s: WorkSettings, fast: seq<Block>, slow: seq<Block>, window: nat, factor: nat)
    requires s.Valid() && window < TWO_32 && fast != [] && |fast| == |slow|
    requires fast[FirstOf(fast, window)].header.time == slow[FirstOf(slow, window)].header.time
    requires fast[|fast| - 1].header.time <= slow[|slow| - 1].header.time
    requires fast[|fast| - 1].header.bits == slow[|slow| - 1].header.bits && Decodable(fast[|fast| - 1].header.bits)
    ensures RetargetBits(s, fast, window, factor).Ok? && RetargetBits(s, slow, window, factor).Ok?
    ensures CompactValue(RetargetBits(s, fast, window, factor).value) <= CompactValue(RetargetBits(s, slow, window, factor).value)
  {
    hide ActualTimespan, Compact, CompactValue, NextTarget, Power256;
    var old', limit, first := CompactValue(fast[|fast| - 1].header.bits), CompactValue(s.powBits), fast[FirstOf(fast, window)].header.time;
    TimespanFits(s.spacing, window);
    var timespan, f := s.spacing * window, Max(factor, 2);
    var (early, late) := (ActualTimespan(first, fast[|fast| - 1].header.time, timespan, f), ActualTimespan(first, slow[|slow| - 1].header.time, timespan, f));
    SlowerTarget(old', first, fast[|fast| - 1].header.time, slow[|slow| - 1].header.time, timespan, f, limit);
    DecodableBound(s.powBits);
    NextTargetBounds(old', early, timespan, limit);
    NextTargetBounds(old', late, timespan, limit);
    CompactMonotone(NextTarget(old', early, timespan, limit), NextTarget(old', late, timespan, limit));
  }

  lemma NextTargetBounds(oldTarget: nat, actual: nat, timespan: nat, powLimit: nat)
    requires powLimit >= 1
    ensures 1 <= NextTarget(oldTarget, actual, timespan, powLimit) <= powLimit
  {
    hide Scaled;
  }

  /** A window that took exactly the wanted time leaves a target within the limit as it was. */
  lemma OnTimeKeepsTarget(s: WorkSettings, blocks: seq<Block>, window: nat, factor: nat)
    requires s.Valid() && window < TWO_32 && blocks != [] && s.spacing * window > 0
    requires blocks[|blocks| - 1].header.time == blocks[FirstOf(blocks, window)].header.time + s.spacing * window
    requires WithinLimit(s, blocks[|blocks| - 1].header.bits)
    ensures RetargetBits(s, blocks, window, factor).Ok?
    ensures CompactValue(RetargetBits(s, blocks, window, factor).value) == CompactValue(blocks[|blocks| - 1].header.bits)
  {
    hide ActualTimespan, Compact, CompactValue, NextTarget, Power256;
    var bits := blocks[|blocks| - 1].header.bits;
    TimespanFits(s.spacing, window);
    DecodableBound(s.powBits);
    OnTimeTarget(CompactValue(bits), blocks[FirstOf(blocks, window)].header.time, s.spacing * window, Max(factor, 2), CompactValue(s.powBits));
    CompactIsExactOnDecodable(bits);
  }

  function Scaled(target: nat, actual: nat, timespan: nat): nat
    requires timespan > 0
  {
    Product(target, actual);
    target * actual / timespan
  }

  function RequiredWorkBits(s: WorkSettings, blocks: seq<Block>, nextHeight: nat): Result<U32>
    requires s.Valid()
  {
    if nextHeight == 0 || blocks == [] then Ok(s.genesisBits)
    else if nextHeight <= 1 then Ok(s.powBits)
    else
      var prevBits := blocks[|blocks| - 1].header.bits;
      if s.DaaV2Active(nextHeight) then
        var available := |blocks| - 1;
        if available < 2 then Ok(prevBits)
        else RetargetBits(s, blocks, Max(Min(DAA_V2_WINDOW_BLOCKS, available), 2), DAA_V2_MAX_ADJUSTMENT_FACTOR)
      else if s.interval <= 1 || (nextHeight - 1) % s.interval != 0 || |blocks| <= s.interval then Ok(prevBits)
      else RetargetBits(s, blocks, s.interval, s.maxFactor)
  }

  /** The retarget rule: the old target in proportion to the time the window took, that time held within the factor of the wanted one. */
  lemma RetargetMeans(s: WorkSettings, blocks: seq<Block>, window: nat, factor: nat)
    requires s.Valid() && window < TWO_32 && blocks != [] && factor >= 2
    requires factor <= s.spacing * window && s.spacing * window * factor < TWO_64
    ensures RetargetBits(s, blocks, window, factor).Ok? <==> Decodable(blocks[|blocks| - 1].header.bits)
    ensures RetargetBits(s, blocks, window, factor).Ok? ==>
              var (wanted, first, last) := (s.spacing * window, blocks[if |blocks| <= window then 0 else |blocks| - 1 - window], blocks[|blocks| - 1]);
              var (least, most) := (Quotient(wanted, factor), wanted * factor);
              var span := if last.header.time < first.header.time then 0 else last.header.time - first.header.time;
              var used := if span < least then least else if span > most then most else span;
              var (scaled, limit) := (Quotient(Times(CompactValue(last.header.bits), used), wanted), CompactValue(s.powBits));
              var target := if scaled == 0 then 1 else if scaled > limit then limit else scaled;
              target < Power256(32) && RetargetBits(s, blocks, window, factor) == Ok(Compact(target))
  {
    hide Compact, CompactValue, Power256, Decodable;
    TimespanFits(s.spacing, window);
    DecodableBound(s.powBits);
    DivideAtLeast(s.spacing * window, factor, 1);
  }

  /**
    When the bits change. Under the first rule only behind every full interval; under the second with every
    block, over the last twenty blocks or as many as there are; the first blocks have fixed bits.
   */
  lemma RequiredBitsMean(s: WorkSettings, blocks: seq<Block>)
    requires s.Valid()
    ensures blocks == [] ==> RequiredWorkBits(s, blocks, |blocks|) == Ok(s.genesisBits)
    ensures |blocks| == 1 ==> RequiredWorkBits(s, blocks, |blocks|) == Ok(s.powBits)
    ensures |blocks| >= 2 ==>
              var (height, kept) := (|blocks|, Ok(blocks[|blocks| - 1].header.bits));
              RequiredWorkBits(s, blocks, height) ==
                if s.daaV2From.Some? && height >= s.daaV2From.value then
                  (if height == 2 then kept else RetargetBits(s, blocks, if height > 20 then 20 else height - 1, 4))
                else if s.interval > 1 && height > s.interval && (height - 1) % s.interval == 0 then RetargetBits(s, blocks, s.interval, s.maxFactor)
                else kept
  {
    hide RetargetBits;
  }

  /** A chain whose blocks carry the bits that were required of them (validate_block). */
  ghost predicate WorkChecked(s: WorkSettings, blocks: seq<Block>)
    requires s.Valid()
  {
    forall i :: 1 <= i < |blocks| ==> RequiredWorkBits(s, blocks[..i], i) == Ok(blocks[i].header.bits)
  }

  ghost predicate WithinLimit(s: WorkSettings, bits: U32)
  {
    Decodable(bits) && 1 <= CompactValue(bits) <= CompactValue(s.powBits)
  }

  lemma TimespanBounded(firstTime: nat, lastTime: nat, t: nat, factor: nat)
    requires factor >= 2 && t < TWO_64
    ensures ActualTimespan(firstTime, lastTime, t, factor) <= factor * Max(t, 1)
  {
    hide Quotient;
    var lo, hi := Max(Quotient(t, factor), 1), Max(Min(t * factor, TWO_64 - 1), 1);
    QuotientIs(t, factor);
    ScaleMonotone(1, factor, t);
    assert t * factor == factor * t;
    assert lo <= hi <= factor * Max(t, 1);
  }

  lemma QuotientIs(n: nat, d: nat)
    requires d > 0
    ensures Quotient(n, d) == n / d && Quotient(n, d) <= n
  {
    QuotientBelow(n, d);
  }

  lemma NextTargetBounded(prior: nat, actual: nat, t: nat, factor: nat, limit: nat)
    requires prior >= 1 && factor >= 2 && actual <= factor * Max(t, 1) && limit >= 1
    ensures 1 <= NextTarget(prior, actual, t, limit) <= limit && NextTarget(prior, actual, t, limit) <= factor * prior
  {
    hide Scaled;
    ScaledBounded(prior, actual, Max(t, 1), factor);
  }

  lemma EncodedWithin(s: WorkSettings, target: nat)
    requires s.Valid() && 1 <= target <= CompactValue(s.powBits)
    ensures target < Power256(32) && WithinLimit(s, Compact(target)) && CompactValue(Compact(target)) <= target
  {
    hide Compact, Decodable, CompactValue, Power256;
    DecodableBound(s.powBits);
    CompactTruncates(target);
    CompactPositive(Compact(target));
  }

  lemma RetargetBounded(s: WorkSettings, blocks: seq<Block>, window: nat, factor: nat)
    requires s.Valid() && blocks != [] && Decodable(blocks[|blocks| - 1].header.bits) && factor >= 2 && window < TWO_32
    ensures RetargetBits(s, blocks, window, factor).Ok?
    ensures var bits := RetargetBits(s, blocks, window, factor).value;
      WithinLimit(s, bits) && CompactValue(bits) <= factor * CompactValue(blocks[|blocks| - 1].header.bits)
  {
    hide Compact, Decodable, CompactValue, ActualTimespan, NextTarget, WithinLimit, Power256;
    var last := |blocks| - 1;
    var first := FirstOf(blocks, window);
    var t := s.spacing * window;
    TimespanFits(s.spacing, window);
    var actual := ActualTimespan(blocks[first].header.time, blocks[last].header.time, t, factor);
    TimespanBounded(blocks[first].header.time, blocks[last].header.time, t, factor);
    CompactPositive(blocks[last].header.bits);
    CompactPositive(s.powBits);
    NextTargetBounded(CompactValue(blocks[last].header.bits), actual, t, factor, CompactValue(s.powBits));
    EncodedWithin(s, NextTarget(CompactValue(blocks[last].header.bits), actual, t, CompactValue(s.powBits)));
  }

  lemma CompactPositive(bits: U32)
    requires Decodable(bits)
    ensures CompactValue(bits) >= 1
  {
  }

  lemma ScaledBounded(prior: nat, actual: nat, t: nat, factor: nat)
    requires prior >= 1 && t > 0 && actual <= factor * t && factor >= 1
    ensures Max(Scaled(prior, actual, t), 1) <= factor * prior
  {
    ScaledRatio(prior, actual, t, factor);
    ScaleMonotone(1, factor, prior);
    assert prior * factor == factor * prior;
  }

  lemma RequiredStep(s: WorkSettings, blocks: seq<Block>)
    requires s.Valid() && |blocks| >= 2 && WithinLimit(s, blocks[|blocks| - 1].header.bits)
    ensures RequiredWorkBits(s, blocks, |blocks|).Ok?
    ensures var bits := RequiredWorkBits(s, blocks, |blocks|).value;
      WithinLimit(s, bits) && CompactValue(bits) <= s.MaxFactor(|blocks|) * CompactValue(blocks[|blocks| - 1].header.bits)
  {
    hide Decodable, CompactValue, RetargetBits;
    var prev := CompactValue(blocks[|blocks| - 1].header.bits);
    ScaleMonotone(1, s.MaxFactor(|blocks|), prev);
    if s.DaaV2Active(|blocks|) {
      if |blocks| - 1 >= 2 {
        RetargetBounded(s, blocks, Max(Min(DAA_V2_WINDOW_BLOCKS, |blocks| - 1), 2), DAA_V2_MAX_ADJUSTMENT_FACTOR);
      }
    } else if s.interval > 1 && (|blocks| - 1) % s.interval == 0 && |blocks| > s.interval {
      RetargetBounded(s, blocks, s.interval, s.maxFactor);
    }
  }

  /** On every checked chain all required bits decode to a target in [1, pow limit]. */
  lemma {:induction false} CheckedChainWithinLimit(s: WorkSettings, blocks: seq<Block>, i: nat)
    requires s.Valid() && WorkChecked(s, blocks) && 1 <= i < |blocks|
    ensures WithinLimit(s, blocks[i].header.bits)
  {
    hide RequiredWorkBits, Decodable, CompactValue;
    if i == 1 {
      FirstBits(s, blocks[..1]);
    } else {
      CheckedChainWithinLimit(s, blocks, i - 1);
      RequiredStep(s, blocks[..i]);
    }
  }

  lemma FirstBits(s: WorkSettings, blocks: seq<Block>)
    requires s.Valid() && |blocks| == 1
    ensures RequiredWorkBits(s, blocks, 1) == Ok(s.powBits) && WithinLimit(s, s.powBits)
  {
  }

  /** The next requirement on a reachable chain: decodable, within the limit, and at most the factor easier. */
  lemma RequiredBitsBounded(s: WorkSettings, blocks: seq<Block>)
    requires s.Valid() && WorkChecked(s, blocks) && blocks != []
    ensures RequiredWorkBits(s, blocks, |blocks|).Ok?
    ensures var bits := RequiredWorkBits(s, blocks, |blocks|).value;
      && WithinLimit(s, bits)
      && (|blocks| >= 2 ==> CompactValue(bits) <= s.MaxFactor(|blocks|) * CompactValue(blocks[|blocks| - 1].header.bits))
  {
    hide RequiredWorkBits, Decodable, CompactValue;
    if |blocks| == 1 {
      FirstBits(s, blocks);
    } else {
      CheckedChainWithinLimit(s, blocks, |blocks| - 1);
      RequiredStep(s, blocks);
    }
  }

  // ---- Work --------------------------------------------------------------------------------

  function BlockWork(bits: U32): (r: Result<nat>)
    ensures r.Ok? <==> Decodable(bits)
  {
    if !Decodable(bits) then Err else Ok(Quotient(Power256(32), CompactValue(bits) + 1))
  }

  function ChainWork(blocks: seq<Block>): Result<nat>
  {
    if |blocks| <= 1 then Ok(0)
    else
      var before :- ChainWork(blocks[..|blocks| - 1]);
      var last :- BlockWork(blocks[|blocks| - 1].header.bits);
      Ok(before + last)
  }

  /** Every block adds work, so extending a chain strictly increases it. */
  lemma ExtendingAddsWork(s: WorkSettings, blocks: seq<Block>, next: Block)
    requires s.Valid() && blocks != [] && WorkChecked(s, blocks + [next])
    ensures ChainWork(blocks).Ok? && ChainWork(blocks + [next]).Ok?
    ensures BlockWork(next.header.bits).Ok? && ChainWork(blocks + [next]).value == ChainWork(blocks).value + BlockWork(next.header.bits).value
    ensures ChainWork(blocks + [next]).value > ChainWork(blocks).value
  {
    hide Decodable, CompactValue, RequiredWorkBits;
    var all := blocks + [next];
    assert all[..|all| - 1] == blocks;
    CheckedChainWithinLimit(s, all, |blocks|);
    CheckedChainHasWork(s, all, |blocks|);
    assert all[..|blocks|] == blocks;
    PositiveWork(next.header.bits);
  }

  lemma PositiveWork(bits: U32)
    requires Decodable(bits)
    ensures BlockWork(bits).Ok? && BlockWork(bits).value >= 1
  {
    DecodableBound(bits);
    DivideAtLeast(Power256(32), CompactValue(bits) + 1, 1);
  }

  lemma {:induction false} CheckedChainHasWork(s: WorkSettings, blocks: seq<Block>, n: nat)
    requires s.Valid() && WorkChecked(s, blocks) && n <= |blocks|
    ensures ChainWork(blocks[..n]).Ok?
  {
    hide Decodable, CompactValue, RequiredWorkBits;
    if n > 1 {
      CheckedChainHasWork(s, blocks, n - 1);
      CheckedChainWithinLimit(s, blocks, n - 1);
      assert blocks[..n][..n - 1] == blocks[..n - 1];
    }
  }

  /** A block's work is how many hashes its target takes on average: 2^256 over one more than the target, rounded down. */
  lemma BlockWorkMeans(bits: U32)
    requires Decodable(bits)
    ensures var (work, cost) := (BlockWork(bits).value, CompactValue(bits) + 1);
            Times(work, cost) <= Power256(32) < Times(work + 1, cost)
  {
    hide Power256, CompactValue;
    var cost := CompactValue(bits) + 1;
    DivMod(Power256(32), cost);
    assert (Power256(32) / cost + 1) * cost == Power256(32) / cost * cost + cost;
  }

  /** A harder target never counts for less. */
  lemma HarderIsNoLessWork(hard: U32, easy: U32)
    requires Decodable(hard) && Decodable(easy) && CompactValue(hard) <= CompactValue(easy)
    ensures BlockWork(hard).value >= BlockWork(easy).value
  {
    hide Power256, CompactValue;
    BlockWorkMeans(easy);
    var (cost, work) := (CompactValue(hard) + 1, BlockWork(easy).value);
    ScaleMonotone(cost, CompactValue(easy) + 1, work);
    assert cost * work == work * cost && (CompactValue(easy) + 1) * work == work * (CompactValue(easy) + 1);
    DivideAtLeast(Power256(32), cost, work);
  }
}
