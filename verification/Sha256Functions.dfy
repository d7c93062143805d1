/**
  The constants and logical functions of SHA-256 (FIPS 180-4, sections 4.1.2, 4.2.2 and 5.3.3), and the
  kernel's own (src/gpu_miner.rs), which write a rotation as two shifts.
 */
module Sha256Functions {
  import opened Bytes
  import opened Sha256Spec
  import GpuMiner

  function Ch(x: bv32, y: bv32, z: bv32): bv32 { (x & y) ^ ((!x) & z) }
  function Maj(x: bv32, y: bv32, z: bv32): bv32 { (x & y) ^ (x & z) ^ (y & z) }
  function Xor3(x: bv32, y: bv32, z: bv32): bv32 { x ^ y ^ z }
  function BigSigma0(x: bv32): bv32 { Xor3(x.RotateRight(2), x.RotateRight(13), x.RotateRight(22)) }
  function BigSigma1(x: bv32): bv32 { Xor3(x.RotateRight(6), x.RotateRight(11), x.RotateRight(25)) }
  function SmallSigma0(x: bv32): bv32 { Xor3(x.RotateRight(7), x.RotateRight(18), x >> 3) }
  function SmallSigma1(x: bv32): bv32 { Xor3(x.RotateRight(17), x.RotateRight(19), x >> 10) }

  const STANDARD: Functions := Functions(
    [
     0x428a2f98, 0x71374491, 0xb5c0fbcf, 0xe9b5dba5, 0x3956c25b, 0x59f111f1, 0x923f82a4, 0xab1c5ed5,
     0xd807aa98, 0x12835b01, 0x243185be, 0x550c7dc3, 0x72be5d74, 0x80deb1fe, 0x9bdc06a7, 0xc19bf174,
     0xe49b69c1, 0xefbe4786, 0x0fc19dc6, 0x240ca1cc, 0x2de92c6f, 0x4a7484aa, 0x5cb0a9dc, 0x76f988da,
     0x983e5152, 0xa831c66d, 0xb00327c8, 0xbf597fc7, 0xc6e00bf3, 0xd5a79147, 0x06ca6351, 0x14292967,
     0x27b70a85, 0x2e1b2138, 0x4d2c6dfc, 0x53380d13, 0x650a7354, 0x766a0abb, 0x81c2c92e, 0x92722c85,
     0xa2bfe8a1, 0xa81a664b, 0xc24b8b70, 0xc76c51a3, 0xd192e819, 0xd6990624, 0xf40e3585, 0x106aa070,
     0x19a4c116, 0x1e376c08, 0x2748774c, 0x34b0bcb5, 0x391c0cb3, 0x4ed8aa4a, 0x5b9cca4f, 0x682e6ff3,
     0x748f82ee, 0x78a5636f, 0x84c87814, 0x8cc70208, 0x90befffa, 0xa4506ceb, 0xbef9a3f7, 0xc67178f2],
    [
     0x6a09e667, 0xbb67ae85, 0x3c6ef372, 0xa54ff53a, 0x510e527f, 0x9b05688c, 0x1f83d9ab, 0x5be0cd19],
    (x: Word, y: Word, z: Word) => Ch(x as bv32, y as bv32, z as bv32) as Word,
    (x: Word, y: Word, z: Word) => Maj(x as bv32, y as bv32, z as bv32) as Word,
    (x: Word) => BigSigma0(x as bv32) as Word,
    (x: Word) => BigSigma1(x as bv32) as Word,
    (x: Word) => SmallSigma0(x as bv32) as Word,
    (x: Word) => SmallSigma1(x as bv32) as Word)

  lemma StandardIsValid()
    ensures STANDARD.Valid()
  {
  }

  // The kernel writes a rotation as two shifts.
  function KernelRotr(x: bv32, n: bv32): bv32
    requires n <= 32
  {
    (x >> n) | (x << (32 - n))
  }

  lemma KernelRotrIsRotateRight(x: bv32)
    ensures KernelRotr(x, 2) == x.RotateRight(2) && KernelRotr(x, 13) == x.RotateRight(13)
    ensures KernelRotr(x, 22) == x.RotateRight(22) && KernelRotr(x, 6) == x.RotateRight(6)
    ensures KernelRotr(x, 11) == x.RotateRight(11) && KernelRotr(x, 25) == x.RotateRight(25)
    ensures KernelRotr(x, 7) == x.RotateRight(7) && KernelRotr(x, 18) == x.RotateRight(18)
    ensures KernelRotr(x, 17) == x.RotateRight(17) && KernelRotr(x, 19) == x.RotateRight(19)
  {
  }

  function KernelBsig0(x: bv32): bv32 { Xor3(KernelRotr(x, 2), KernelRotr(x, 13), KernelRotr(x, 22)) }
  function KernelBsig1(x: bv32): bv32 { Xor3(KernelRotr(x, 6), KernelRotr(x, 11), KernelRotr(x, 25)) }
  function KernelSsig0(x: bv32): bv32 { Xor3(KernelRotr(x, 7), KernelRotr(x, 18), x >> 3) }
  function KernelSsig1(x: bv32): bv32 { Xor3(KernelRotr(x, 17), KernelRotr(x, 19), x >> 10) }

  const KERNEL: Functions := Functions(
    STANDARD.k, STANDARD.h0, STANDARD.ch, STANDARD.maj,
    (x: Word) => KernelBsig0(x as bv32) as Word,
    (x: Word) => KernelBsig1(x as bv32) as Word,
    (x: Word) => KernelSsig0(x as bv32) as Word,
    (x: Word) => KernelSsig1(x as bv32) as Word)

  lemma KernelBigSigmas(x: bv32)
    ensures KernelBsig0(x) == BigSigma0(x) && KernelBsig1(x) == BigSigma1(x)
  {
    hide KernelRotr, Xor3;
    KernelRotrIsRotateRight(x);
  }

  lemma KernelSmallSigmas(x: bv32)
    ensures KernelSsig0(x) == SmallSigma0(x) && KernelSsig1(x) == SmallSigma1(x)
  {
    hide KernelRotr, Xor3;
    KernelRotrIsRotateRight(x);
  }

  lemma KernelAgrees()
    ensures Agree(KERNEL, STANDARD)
  {
    hide KernelBsig0, KernelBsig1, KernelSsig0, KernelSsig1, BigSigma0, BigSigma1, SmallSigma0, SmallSigma1;
    forall x: Word
      ensures KERNEL.bigSigma0(x) == STANDARD.bigSigma0(x) && KERNEL.bigSigma1(x) == STANDARD.bigSigma1(x)
      ensures KERNEL.smallSigma0(x) == STANDARD.smallSigma0(x) && KERNEL.smallSigma1(x) == STANDARD.smallSigma1(x)
    {
      KernelBigSigmas(x as bv32);
      KernelSmallSigmas(x as bv32);
    }
  }

  /** A work item run with the kernel's functions reports exactly the nonces whose header meets the target under SHA-256. */
  method ScanQub(midstate: seq<Word>, tail: seq<Byte>, target: seq<Byte>, nonce: Word, ghost prefix: seq<Byte>) returns (found: bool)
    requires |prefix| == 76 && |target| == 32 && tail == prefix[64..]
    requires midstate == Compress(STANDARD, STANDARD.h0, WordsOf(prefix[..64]))
    ensures found <==> LittleEndian(DoubleSha256(STANDARD, prefix + GpuMiner.NonceBytes(nonce))) <= BigEndian(target)
  {
    hide Compress, WordsOf, DoubleSha256, Agree, GpuMiner.NonceBytes;
    StandardIsValid();
    KernelAgrees();
    KernelIsValid();
    SameCompression(KERNEL, STANDARD, STANDARD.h0, WordsOf(prefix[..64]));
    SameDoubleHash(KERNEL, STANDARD, prefix + GpuMiner.NonceBytes(nonce));
    found := GpuMiner.ScanNonce(KERNEL, midstate, tail, target, nonce, prefix);
  }

  lemma KernelIsValid()
    ensures KERNEL.Valid() && KERNEL.h0 == STANDARD.h0
  {
  }
}
