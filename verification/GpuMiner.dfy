/**
  The GPU hash pipeline of src/gpu_miner.rs: the host midstate over the first 64 header bytes,
  the kernel's compression with a 16-word rolling schedule kept in place, the second pass over
  the first digest, and the byte loop that compares a digest with a target.
 */
module GpuMiner {
  import opened Bytes
  import opened Sha256Spec

  // ---- Message schedules -------------------------------------------------------------------

  // The kernel and the host add the four schedule terms in another order than FIPS 180-4.
  lemma ScheduleStep(fn: Functions, block: seq<Word>, t: nat)
    requires |block| == 16 && 16 <= t
    ensures W(fn, block, t)
         == Add(Add(Add(W(fn, block, t - 16), fn.smallSigma0(W(fn, block, t - 15))), W(fn, block, t - 7)), fn.smallSigma1(W(fn, block, t - 2)))
  {
    AddReorder(fn.smallSigma1(W(fn, block, t - 2)), W(fn, block, t - 7), fn.smallSigma0(W(fn, block, t - 15)), W(fn, block, t - 16));
  }

  lemma ScheduleHead(fn: Functions, block: seq<Word>, t: nat)
    requires |block| == 16 && t < 16
    ensures W(fn, block, t) == block[t]
  {
  }

  lemma AddReorder(p: Word, q: Word, r: Word, s: Word)
    ensures Add(Add(Add(p, q), r), s) == Add(Add(Add(s, r), q), p)
  {
  }

  /** w holds words n-16 .. n-1 of the schedule, word t in cell t modulo 16. */
  ghost predicate Rolling(fn: Functions, w: seq<Word>, block: seq<Word>, n: nat)
    requires |block| == 16
  {
    |w| == 16 && 16 <= n && forall t :: n - 16 <= t < n ==> w[t % 16] == W(fn, block, t)
  }

  lemma RollingStart(fn: Functions, block: seq<Word>)
    requires |block| == 16
    ensures Rolling(fn, block, block, 16)
  {
  }

  lemma CellArithmetic(n: nat)
    requires 16 <= n
    ensures (n - 16) % 16 == n % 16 && (n - 15) % 16 == (n + 1) % 16
    ensures (n - 7) % 16 == (n + 9) % 16 && (n - 2) % 16 == (n + 14) % 16
    ensures forall t :: n - 16 < t < n ==> t % 16 != n % 16
  {
  }

  lemma RollingStep(fn: Functions, w: seq<Word>, block: seq<Word>, n: nat, x: Word)
    requires |block| == 16 && Rolling(fn, w, block, n)
    requires x == Add(Add(Add(w[n % 16], fn.smallSigma0(w[(n + 1) % 16])), w[(n + 9) % 16]), fn.smallSigma1(w[(n + 14) % 16]))
    ensures x == W(fn, block, n) && Rolling(fn, w[n % 16 := x], block, n + 1)
  {
    hide Add, W;
    CellArithmetic(n);
    assert w[n % 16] == W(fn, block, n - 16) && w[(n + 1) % 16] == W(fn, block, n - 15);
    assert w[(n + 9) % 16] == W(fn, block, n - 7) && w[(n + 14) % 16] == W(fn, block, n - 2);
    ScheduleStep(fn, block, n);
  }

  /** Kernel: word i of the schedule, taken or made in place. */
  method NextWord(fn: Functions, w: array<Word>, i: nat, ghost block: seq<Word>) returns (wi: Word)
    requires w.Length == 16 && |block| == 16 && Rolling(fn, w[..], block, if i < 16 then 16 else i)
    modifies w
    ensures wi == W(fn, block, i) && Rolling(fn, w[..], block, if i + 1 < 16 then 16 else i + 1)
  {
    hide W, Add;
    if i < 16 {
      wi := w[i];
      assert w[..][i % 16] == W(fn, block, i);
    } else {
      var idx := i % 16;
      wi := Add(Add(Add(w[idx], fn.smallSigma0(w[(i + 1) % 16])), w[(i + 9) % 16]), fn.smallSigma1(w[(i + 14) % 16]));
      RollingStep(fn, w[..], block, i, wi);
      w[idx] := wi;
    }
  }

  lemma NoRounds(fn: Functions, state: seq<Word>, block: seq<Word>)
    requires |state| == 8 && |block| == 16
    ensures Rounds(fn, state, block, 0) == Working(state[0], state[1], state[2], state[3], state[4], state[5], state[6], state[7])
  {
  }

  lemma OneRound(fn: Functions, state: seq<Word>, block: seq<Word>, n: nat, v: Working, t1: Word)
    requires |state| == 8 && |block| == 16 && n < |fn.k| && v == Rounds(fn, state, block, n)
    requires t1 == Add(Add(Add(Add(v.h, fn.bigSigma1(v.e)), fn.ch(v.e, v.f, v.g)), fn.k[n]), W(fn, block, n))
    ensures Rounds(fn, state, block, n + 1)
         == Working(Add(t1, Add(fn.bigSigma0(v.a), fn.maj(v.a, v.b, v.c))), v.a, v.b, v.c, Add(v.d, t1), v.e, v.f, v.g)
  {
    hide W, Add;
  }

  /** Kernel: one compression, the schedule overwritten in place. */
  method Compress16(fn: Functions, s: array<Word>, w: array<Word>)
    requires fn.Valid()
    requires s != w && s.Length == 8 && w.Length == 16
    modifies s, w
    ensures s[..] == Compress(fn, old(s[..]), old(w[..]))
  {
    hide W, Add, Rolling, Rounds, Round;
    ghost var state, block := s[..], w[..];
    NoRounds(fn, state, block);
    var a, b, c, d, e, f, g, h := s[0], s[1], s[2], s[3], s[4], s[5], s[6], s[7];
    RollingStart(fn, block);
    for i := 0 to 64
      invariant s[..] == state
      invariant Rolling(fn, w[..], block, if i < 16 then 16 else i)
      invariant Working(a, b, c, d, e, f, g, h) == Rounds(fn, state, block, i)
    {
      var wi := NextWord(fn, w, i, block);
      var t1 := Add(Add(Add(Add(h, fn.bigSigma1(e)), fn.ch(e, f, g)), fn.k[i]), wi);
      var t2 := Add(fn.bigSigma0(a), fn.maj(a, b, c));
      OneRound(fn, state, block, i, Working(a, b, c, d, e, f, g, h), t1);
      h, g, f, e, d, c, b, a := g, f, e, Add(d, t1), c, b, a, Add(t1, t2);
    }
    s[0], s[1], s[2], s[3] := Add(s[0], a), Add(s[1], b), Add(s[2], c), Add(s[3], d);
    s[4], s[5], s[6], s[7] := Add(s[4], e), Add(s[5], f), Add(s[6], g), Add(s[7], h);
  }

  /** Host: the whole schedule expanded from the first 64 bytes of the header. */
  method ExpandSchedule(fn: Functions, prefix: array<Byte>, w: array<Word>)
    requires prefix.Length == 76 && w.Length == 64
    modifies w
    ensures forall t :: 0 <= t < 64 ==> w[t] == W(fn, WordsOf(prefix[..64]), t)
  {
    hide Add, W, WordOf;
    ghost var block := WordsOf(prefix[..64]);
    for i := 0 to 16
      invariant forall t :: 0 <= t < i ==> w[t] == W(fn, block, t)
    {
      var off := 4 * i;
      w[i] := WordOf(prefix[off], prefix[off + 1], prefix[off + 2], prefix[off + 3]);
      ScheduleHead(fn, block, i);
    }
    for i := 16 to 64
      invariant forall t :: 0 <= t < i ==> w[t] == W(fn, block, t)
    {
      var s0 := fn.smallSigma0(w[i - 15]);
      var s1 := fn.smallSigma1(w[i - 2]);
      ScheduleStep(fn, block, i);
      w[i] := Add(Add(Add(w[i - 16], s0), w[i - 7]), s1);
    }
  }

  /** Host: the state after the first 64 bytes of the header. */
  method MidstateFirst64(fn: Functions, prefix: array<Byte>) returns (state: seq<Word>)
    requires fn.Valid()
    requires prefix.Length == 76
    ensures |state| == 8 && state == Compress(fn, fn.h0, WordsOf(prefix[..64]))
  {
    hide WordsOf, W, Add, Rounds, Round;
    ghost var block := WordsOf(prefix[..64]);
    NoRounds(fn, fn.h0, block);
    var w := new Word[64](_ => 0);
    ExpandSchedule(fn, prefix, w);
    assert block == WordsOf(prefix[..64]);
    var v := FromState(fn.h0);
    var a, b, c, d, e, f, g, h := v.a, v.b, v.c, v.d, v.e, v.f, v.g, v.h;
    for i := 0 to 64
      invariant Working(a, b, c, d, e, f, g, h) == Rounds(fn, fn.h0, block, i)
      invariant forall t :: 0 <= t < 64 ==> w[t] == W(fn, block, t)
    {
      var t1 := Add(Add(Add(Add(h, fn.bigSigma1(e)), fn.ch(e, f, g)), fn.k[i]), w[i]);
      var t2 := Add(fn.bigSigma0(a), fn.maj(a, b, c));
      OneRound(fn, fn.h0, block, i, Working(a, b, c, d, e, f, g, h), t1);
      h, g, f, e, d, c, b, a := g, f, e, Add(d, t1), c, b, a, Add(t1, t2);
    }
    state := AddInto(fn.h0, Working(a, b, c, d, e, f, g, h));
  }

  // ---- Padding -----------------------------------------------------------------------------

  /** The four header bytes of a nonce, least significant first. */
  function NonceBytes(nonce: Word): (r: seq<Byte>)
    ensures |r| == 4
  {
    [nonce % 256, nonce / 256 % 256, nonce / 256 / 256 % 256, nonce / 256 / 256 / 256]
  }

  function NonceHeaderWord(nonce: Word): Word
  {
    256 * (256 * (256 * (nonce % 256) + nonce / 256 % 256) + nonce / 256 / 256 % 256) + nonce / 256 / 256 / 256
  }

  lemma NonceWordIsBigEndianLoad(nonce: Word)
    ensures var b := NonceBytes(nonce); WordOf(b[0], b[1], b[2], b[3]) == NonceHeaderWord(nonce)
  {
  }

  /** The second block of the padded header as the kernel lays it out. */
  function TailBlock(tail: seq<Byte>, nonce: Word): (r: seq<Word>)
    requires |tail| == 12
    ensures |r| == 16
  {
    [WordOf(tail[0], tail[1], tail[2], tail[3]), WordOf(tail[4], tail[5], tail[6], tail[7]),
     WordOf(tail[8], tail[9], tail[10], tail[11]), NonceHeaderWord(nonce), 0x80000000,
     0, 0, 0, 0, 0, 0, 0, 0, 0, 0, 640]
  }

  /** The padded first digest as the kernel lays it out. */
  function SecondBlock(first: seq<Word>): (r: seq<Word>)
    requires |first| == 8
    ensures |r| == 16
  {
    first + [0x80000000, 0, 0, 0, 0, 0, 0, 256]
  }

  lemma LengthFields()
    ensures LengthField(640) == [0, 0, 0, 0, 0, 0, 2, 0x80]
    ensures LengthField(256) == [0, 0, 0, 0, 0, 0, 1, 0]
  {
  }

  lemma PaddingWords()
    ensures WordOf(0x80, 0, 0, 0) == 0x80000000 && WordOf(0, 0, 0, 0) == 0
  {
  }

  lemma LengthWords()
    ensures WordOf(0, 0, 2, 0x80) == 640 && WordOf(0, 0, 1, 0) == 256
  {
  }

  lemma PaddedHeaderShape(prefix: seq<Byte>, nonce: Word)
    requires |prefix| == 76
    ensures var p := Pad(prefix + NonceBytes(nonce));
      |p| == 128 && p[..64] == prefix[..64]
      && p[64..] == prefix[64..] + NonceBytes(nonce) + [0x80] + Zeros(39) + [0, 0, 0, 0, 0, 0, 2, 0x80]
  {
    var m := prefix + NonceBytes(nonce);
    LengthFields();
    assert Pad(m) == m + [0x80] + Zeros(39) + [0, 0, 0, 0, 0, 0, 2, 0x80];
  }

  lemma TailWords(tail: seq<Byte>, nonce: Word, q: seq<Byte>)
    requires |tail| == 12
    requires q == tail + NonceBytes(nonce) + [0x80] + Zeros(39) + [0, 0, 0, 0, 0, 0, 2, 0x80]
    ensures WordsOf(q) == TailBlock(tail, nonce)
  {
    hide NonceBytes, NonceHeaderWord, WordOf;
    NonceWordIsBigEndianLoad(nonce);
    PaddingWords();
    LengthWords();
    var r, t := WordsOf(q), TailBlock(tail, nonce);
    assert q[..12] == tail && q[12..16] == NonceBytes(nonce);
    assert r[0] == t[0] && r[1] == t[1] && r[2] == t[2] && r[3] == t[3] && r[4] == t[4];
    assert r[15] == t[15];
    forall i | 5 <= i < 15
      ensures r[i] == 0
    {
      assert q[4 * i] == 0 && q[4 * i + 1] == 0 && q[4 * i + 2] == 0 && q[4 * i + 3] == 0;
    }
  }

  lemma WordRoundTrip(w: Word)
    ensures var b := BytesOfWord(w); WordOf(b[0], b[1], b[2], b[3]) == w
  {
  }

  lemma {:induction false} BytesOfAt(s: seq<Word>, i: nat)
    requires i < |s|
    ensures BytesOf(s)[4 * i .. 4 * i + 4] == BytesOfWord(s[i])
  {
    if i == 0 {
    } else {
      BytesOfAt(s[1..], i - 1);
      assert BytesOf(s)[4 * i .. 4 * i + 4] == BytesOf(s[1..])[4 * (i - 1) .. 4 * (i - 1) + 4];
    }
  }

  lemma PaddedDigest(first: seq<Word>)
    requires |first| == 8
    ensures var p := Pad(BytesOf(first)); |p| == 64 && WordsOf(p) == SecondBlock(first)
  {
    var m := BytesOf(first);
    LengthFields();
    var p := m + [0x80] + Zeros(23) + [0, 0, 0, 0, 0, 0, 1, 0];
    assert Pad(m) == p by {
    }
    DigestWords(first, p);
  }

  lemma DigestWords(first: seq<Word>, p: seq<Byte>)
    requires |first| == 8 && p == BytesOf(first) + [0x80] + Zeros(23) + [0, 0, 0, 0, 0, 0, 1, 0]
    ensures WordsOf(p) == SecondBlock(first)
  {
    hide BytesOf, WordOf;
    PaddingWords();
    LengthWords();
    var r, t := WordsOf(p), SecondBlock(first);
    forall i | 0 <= i < 8
      ensures r[i] == first[i]
    {
      assert p[..32] == BytesOf(first);
      DigestWord(first, i, p);
    }
    assert r[8] == t[8] && r[15] == t[15];
    forall i | 9 <= i < 15
      ensures r[i] == 0
    {
      assert p[4 * i] == 0 && p[4 * i + 1] == 0 && p[4 * i + 2] == 0 && p[4 * i + 3] == 0;
    }
  }

  lemma DigestWord(first: seq<Word>, i: nat, p: seq<Byte>)
    requires |first| == 8 && i < 8 && |p| == 64 && p[..32] == BytesOf(first)
    ensures WordsOf(p)[i] == first[i]
  {
    BytesOfAt(first, i);
    WordRoundTrip(first[i]);
    var b := p[..32][4 * i .. 4 * i + 4];
    assert b[0] == p[4 * i] && b[1] == p[4 * i + 1] && b[2] == p[4 * i + 2] && b[3] == p[4 * i + 3];
  }

  lemma TwoBlocks(fn: Functions, m: seq<Byte>)
    requires fn.Valid()
    requires |m| == 128
    ensures HashBlocks(fn, fn.h0, m) == Compress(fn, Compress(fn, fn.h0, WordsOf(m[..64])), WordsOf(m[64..]))
  {
    var mid := Compress(fn, fn.h0, WordsOf(m[..64]));
    assert HashBlocks(fn, fn.h0, m) == HashBlocks(fn, mid, m[64..]);
    var last := m[64..];
    assert last[..64] == last && last[64..] == [];
    assert HashBlocks(fn, mid, last) == HashBlocks(fn, Compress(fn, mid, WordsOf(last)), []);
  }

  lemma OneBlock(fn: Functions, m: seq<Byte>)
    requires fn.Valid()
    requires |m| == 64
    ensures HashBlocks(fn, fn.h0, m) == Compress(fn, fn.h0, WordsOf(m))
  {
    assert m[..64] == m && m[64..] == [];
    assert HashBlocks(fn, fn.h0, m) == HashBlocks(fn, Compress(fn, fn.h0, WordsOf(m)), []);
  }

  /** Section 6.2.2 of FIPS 180-4 applied twice equals midstate, tail block and second pass. */
  lemma DoubleHashFromMidstate(fn: Functions, prefix: seq<Byte>, nonce: Word)
    requires fn.Valid()
    requires |prefix| == 76
    ensures DoubleSha256(fn, prefix + NonceBytes(nonce))
         == BytesOf(Compress(fn, fn.h0, SecondBlock(Compress(fn, Compress(fn, fn.h0, WordsOf(prefix[..64])), TailBlock(prefix[64..], nonce)))))
  {
    hide Compress, WordsOf, Pad, NonceBytes, TailBlock, SecondBlock, BytesOf, HashBlocks;
    var p := Pad(prefix + NonceBytes(nonce));
    PaddedHeaderShape(prefix, nonce);
    TailWords(prefix[64..], nonce, p[64..]);
    TwoBlocks(fn, p);
    var first := HashBlocks(fn, fn.h0, p);
    PaddedDigest(first);
    OneBlock(fn, Pad(BytesOf(first)));
  }

  // ---- Target comparison -------------------------------------------------------------------

  /** A right shift by 8 * n bits. */
  function ShiftBytes(w: Word, n: nat): Word
  {
    if n == 0 then w else ShiftBytes(w / 256, n - 1)
  }

  function DigestReversedByte(digest: seq<Word>, targetIndex: nat): Byte
    requires |digest| == 8 && targetIndex < 32
  {
    var beIndex := 31 - targetIndex;
    var word := beIndex / 4;
    var off := beIndex - word * 4;
    ShiftBytes(digest[word], 3 - off) % 256
  }

  lemma ShiftIsByte(w: Word, k: nat)
    requires k < 4
    ensures BytesOfWord(w)[k] == ShiftBytes(w, 3 - k) % 256
  {
    assert ShiftBytes(w, 0) == w && ShiftBytes(w, 1) == ShiftBytes(w / 256, 0) == w / 256;
    assert ShiftBytes(w, 2) == ShiftBytes(w / 256, 1) == ShiftBytes(w / 256 / 256, 0);
    assert ShiftBytes(w, 3) == ShiftBytes(w / 256, 2) == ShiftBytes(w / 256 / 256, 1) == ShiftBytes(w / 256 / 256 / 256, 0);
  }

  lemma DigestReversedByteIs(digest: seq<Word>, i: nat)
    requires |digest| == 8 && i < 32
    ensures DigestReversedByte(digest, i) == Reversed(BytesOf(digest))[i]
  {
    var be := 31 - i;
    BytesOfAt(digest, be / 4);
    assert BytesOf(digest)[4 * (be / 4) .. 4 * (be / 4) + 4][be % 4] == BytesOf(digest)[be];
    ShiftIsByte(digest[be / 4], be % 4);
  }

  /** Kernel: the digest read as a little-endian number against the big-endian target. */
  method DigestMeetsTarget(digest: seq<Word>, target: seq<Byte>) returns (ok: bool)
    requires |digest| == 8 && |target| == 32
    ensures ok <==> LittleEndian(BytesOf(digest)) <= BigEndian(target)
  {
    ghost var hash := Reversed(BytesOf(digest));
    ReversedIsBigEndian(BytesOf(digest));
    for i := 0 to 32
      invariant hash[..i] == target[..i]
    {
      var h := DigestReversedByte(digest, i);
      DigestReversedByteIs(digest, i);
      if h < target[i] {
        FirstDifferenceDecides(hash, target, i);
        return true;
      }
      if h > target[i] {
        FirstDifferenceDecides(target, hash, i);
        return false;
      }
      assert hash[..i + 1] == hash[..i] + [hash[i]] && target[..i + 1] == target[..i] + [target[i]];
    }
    assert hash[..32] == hash && target[..32] == target;
    return true;
  }

  /** Kernel: one work item. The result says whether the double hash of the full header meets the target. */
  method ScanNonce(fn: Functions, midstate: seq<Word>, tail: seq<Byte>, target: seq<Byte>, nonce: Word, ghost prefix: seq<Byte>)
    returns (found: bool)
    requires fn.Valid()
    requires |prefix| == 76 && |target| == 32
    requires midstate == Compress(fn, fn.h0, WordsOf(prefix[..64])) && tail == prefix[64..]
    ensures found <==> LittleEndian(DoubleSha256(fn, prefix + NonceBytes(nonce))) <= BigEndian(target)
  {
    hide Compress, WordsOf, DoubleSha256, BytesOf, NonceHeaderWord, WordOf, NonceBytes;
    var s := new Word[8](i requires 0 <= i < 8 => midstate[i]);
    assert s[..] == midstate;
    var w := TailWindow(tail, nonce);
    Compress16(fn, s, w);
    var second := SecondFromFirstState(fn, s);
    DoubleHashFromMidstate(fn, prefix, nonce);
    found := DigestMeetsTarget(second, target);
  }

  method TailWindow(tail: seq<Byte>, nonce: Word) returns (w: array<Word>)
    requires |tail| == 12
    ensures fresh(w) && w[..] == TailBlock(tail, nonce)
  {
    hide NonceHeaderWord, WordOf;
    var a := WordOf(tail[0], tail[1], tail[2], tail[3]);
    var b := WordOf(tail[4], tail[5], tail[6], tail[7]);
    var c := WordOf(tail[8], tail[9], tail[10], tail[11]);
    var block: seq<Word> := [a, b, c, NonceHeaderWord(nonce), 0x80000000, 0, 0, 0, 0, 0, 0, 0, 0, 0, 0, 640];
    w := new Word[16](i requires 0 <= i < 16 => block[i]);
    assert w[..] == block;
  }

  method SecondFromFirstState(fn: Functions, first: array<Word>) returns (out: seq<Word>)
    requires fn.Valid()
    requires first.Length == 8
    ensures |out| == 8 && out == Compress(fn, fn.h0, SecondBlock(first[..]))
  {
    hide Compress;
    var s := new Word[8](i requires 0 <= i < 8 => fn.h0[i]);
    var w := new Word[16](_ => 0);
    assert s[..] == fn.h0;
    for i := 0 to 8
      invariant s[..] == fn.h0 && w[..i] == first[..i] && forall k :: 8 <= k < 16 ==> w[k] == 0
    {
      w[i] := first[i];
    }
    w[8] := 0x80000000;
    w[15] := 256;
    assert w[..8] == first[..];
    assert w[..] == SecondBlock(first[..]);
    Compress16(fn, s, w);
    out := s[..];
  }
}
