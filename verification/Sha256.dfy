/**
  Sections 5.1.1 and 6.2.2 of FIPS 180-4: the hash computation over byte messages, written with
  the 64-word message schedule. The constants and the six logical functions are parameters, so
  every result below holds for any choice of them; Sha256Functions gives the standard's choice.
 */
module Sha256Spec {
  import opened Bytes

  type Word = x: int | 0 <= x < 0x1_0000_0000

  /** Addition modulo 2^32. */
  function Add(x: Word, y: Word): Word
  {
    var s := x + y;
    if s < 0x1_0000_0000 then s else s - 0x1_0000_0000
  }

  /** Round constants, initial hash value and logical functions (sections 4.1.2, 4.2.2, 5.3.3). */
  datatype Functions = Functions(
    k: seq<Word>, h0: seq<Word>,
    ch: (Word, Word, Word) -> Word, maj: (Word, Word, Word) -> Word,
    bigSigma0: Word -> Word, bigSigma1: Word -> Word,
    smallSigma0: Word -> Word, smallSigma1: Word -> Word)
  {
    predicate Valid() { |k| == 64 && |h0| == 8 }
  }

  /** The message schedule: word t of the 64-word expansion of a 16-word block. */
  function W(fn: Functions, block: seq<Word>, t: nat): Word
    requires |block| == 16
  {
    if t < 16 then block[t]
    else Add(Add(Add(fn.smallSigma1(W(fn, block, t - 2)), W(fn, block, t - 7)), fn.smallSigma0(W(fn, block, t - 15))),
             W(fn, block, t - 16))
  }

  /** The eight working variables. */
  datatype Working = Working(a: Word, b: Word, c: Word, d: Word, e: Word, f: Word, g: Word, h: Word)

  function FromState(s: seq<Word>): Working
    requires |s| == 8
  {
    Working(s[0], s[1], s[2], s[3], s[4], s[5], s[6], s[7])
  }

  function Round(fn: Functions, v: Working, k: Word, w: Word): Working
  {
    var t1 := Add(Add(Add(Add(v.h, fn.bigSigma1(v.e)), fn.ch(v.e, v.f, v.g)), k), w);
    var t2 := Add(fn.bigSigma0(v.a), fn.maj(v.a, v.b, v.c));
    Working(Add(t1, t2), v.a, v.b, v.c, Add(v.d, t1), v.e, v.f, v.g)
  }

  /** Working variables after the first n rounds on one block. */
  function Rounds(fn: Functions, s: seq<Word>, block: seq<Word>, n: nat): Working
    requires |s| == 8 && |block| == 16 && n <= |fn.k|
  {
    if n == 0 then FromState(s)
    else Round(fn, Rounds(fn, s, block, n - 1), fn.k[n - 1], W(fn, block, n - 1))
  }

  function AddInto(s: seq<Word>, v: Working): (r: seq<Word>)
    requires |s| == 8
    ensures |r| == 8
  {
    [Add(s[0], v.a), Add(s[1], v.b), Add(s[2], v.c), Add(s[3], v.d),
     Add(s[4], v.e), Add(s[5], v.f), Add(s[6], v.g), Add(s[7], v.h)]
  }

  function Compress(fn: Functions, s: seq<Word>, block: seq<Word>): (r: seq<Word>)
    requires |s| == 8 && |block| == 16
    ensures |r| == 8
  {
    AddInto(s, Rounds(fn, s, block, |fn.k|))
  }

  function WordOf(b0: Byte, b1: Byte, b2: Byte, b3: Byte): Word
  {
    256 * (256 * (256 * b0 + b1) + b2) + b3
  }

  /** Big-endian words of a byte string whose length is a multiple of four. */
  function WordsOf(m: seq<Byte>): (r: seq<Word>)
    requires |m| % 4 == 0
    ensures |r| == |m| / 4
    ensures forall i :: 0 <= i < |r| ==> r[i] == WordOf(m[4 * i], m[4 * i + 1], m[4 * i + 2], m[4 * i + 3])
  {
    seq(|m| / 4, i requires 0 <= i < |m| / 4 => WordOf(m[4 * i], m[4 * i + 1], m[4 * i + 2], m[4 * i + 3]))
  }

  function BytesOfWord(w: Word): (r: seq<Byte>)
    ensures |r| == 4
  {
    [w / 256 / 256 / 256, w / 256 / 256 % 256, w / 256 % 256, w % 256]
  }

  function BytesOf(s: seq<Word>): (r: seq<Byte>)
    ensures |r| == 4 * |s|
  {
    if s == [] then [] else BytesOfWord(s[0]) + BytesOf(s[1..])
  }

  /** The 64-bit big-endian length in bits, section 5.1.1. */
  function LengthField(bits: nat): (r: seq<Byte>)
    ensures |r| == 8
  {
    [ByteAt(bits, 0x100_0000_0000_0000), ByteAt(bits, 0x1_0000_0000_0000),
     ByteAt(bits, 0x100_0000_0000), ByteAt(bits, 0x1_0000_0000),
     ByteAt(bits, 0x100_0000), ByteAt(bits, 0x1_0000), ByteAt(bits, 0x100), ByteAt(bits, 1)]
  }

  function ByteAt(n: nat, unit: nat): Byte
    requires unit > 0
  {
    n / unit % 256
  }

  lemma PadFills(n: nat)
    ensures (119 - n % 64) % 64 >= 0 && (n + 1 + (119 - n % 64) % 64 + 8) % 64 == 0
  {
    var q, r := n / 64, n % 64;
    assert n == 64 * q + r && 0 <= r < 64;
    if r <= 55 {
      assert (119 - r) % 64 == 55 - r;
    } else {
      assert (119 - r) % 64 == 119 - r;
    }
  }

  /** Section 5.1.1: a one bit, zeros up to 448 modulo 512, then the length. */
  function Pad(m: seq<Byte>): (r: seq<Byte>)
    ensures |r| % 64 == 0
  {
    PadFills(|m|);
    m + [0x80] + Zeros((119 - |m| % 64) % 64) + LengthField(8 * |m|)
  }

  function HashBlocks(fn: Functions, s: seq<Word>, m: seq<Byte>): (r: seq<Word>)
    requires |s| == 8 && |m| % 64 == 0
    ensures |r| == 8
    decreases |m|
  {
    if m == [] then s else HashBlocks(fn, Compress(fn, s, WordsOf(m[..64])), m[64..])
  }

  function Sha256(fn: Functions, m: seq<Byte>): (r: seq<Byte>)
    requires fn.Valid()
    ensures |r| == 32
  {
    BytesOf(HashBlocks(fn, fn.h0, Pad(m)))
  }

  function DoubleSha256(fn: Functions, m: seq<Byte>): (r: seq<Byte>)
    requires fn.Valid()
    ensures |r| == 32
  {
    Sha256(fn, Sha256(fn, m))
  }

  // ---- Other implementations of the functions ----------------------------------------------

  /** Same constants and, argument by argument, same results. */
  ghost predicate Agree(a: Functions, b: Functions)
  {
    && a.k == b.k && a.h0 == b.h0
    && (forall x, y, z :: a.ch(x, y, z) == b.ch(x, y, z))
    && (forall x, y, z :: a.maj(x, y, z) == b.maj(x, y, z))
    && (forall x :: a.bigSigma0(x) == b.bigSigma0(x))
    && (forall x :: a.bigSigma1(x) == b.bigSigma1(x))
    && (forall x :: a.smallSigma0(x) == b.smallSigma0(x))
    && (forall x :: a.smallSigma1(x) == b.smallSigma1(x))
  }

  lemma {:induction false} SameSchedule(a: Functions, b: Functions, block: seq<Word>, t: nat)
    requires Agree(a, b) && |block| == 16
    ensures W(a, block, t) == W(b, block, t)
  {
    hide Add;
    if t >= 16 {
      SameSchedule(a, b, block, t - 2);
      SameSchedule(a, b, block, t - 7);
      SameSchedule(a, b, block, t - 15);
      SameSchedule(a, b, block, t - 16);
    }
  }

  lemma {:induction false} SameRounds(a: Functions, b: Functions, s: seq<Word>, block: seq<Word>, n: nat)
    requires Agree(a, b) && |s| == 8 && |block| == 16 && n <= |a.k|
    ensures Rounds(a, s, block, n) == Rounds(b, s, block, n)
  {
    hide Add, W;
    if n > 0 {
      SameRounds(a, b, s, block, n - 1);
      SameSchedule(a, b, block, n - 1);
    }
  }

  lemma {:induction false} SameHash(a: Functions, b: Functions, s: seq<Word>, m: seq<Byte>)
    requires Agree(a, b) && |s| == 8 && |m| % 64 == 0
    ensures HashBlocks(a, s, m) == HashBlocks(b, s, m)
    decreases |m|
  {
    hide Rounds, WordsOf, Agree;
    if m != [] {
      SameCompression(a, b, s, WordsOf(m[..64]));
      SameHash(a, b, Compress(b, s, WordsOf(m[..64])), m[64..]);
    }
  }

  lemma SameCompression(a: Functions, b: Functions, s: seq<Word>, block: seq<Word>)
    requires Agree(a, b) && |s| == 8 && |block| == 16
    ensures Compress(a, s, block) == Compress(b, s, block)
  {
    SameRounds(a, b, s, block, |a.k|);
  }

  /** Functions that agree hash alike. */
  lemma SameDoubleHash(a: Functions, b: Functions, m: seq<Byte>)
    requires Agree(a, b) && a.Valid() && b.Valid()
    ensures DoubleSha256(a, m) == DoubleSha256(b, m)
  {
    hide HashBlocks, Pad, BytesOf;
    SameHash(a, b, a.h0, Pad(m));
    SameHash(a, b, a.h0, Pad(Sha256(b, m)));
  }
}
