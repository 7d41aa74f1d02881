/**
  Model of `murmur_hash_x86_32` in src/hash_table.c: MurmurHash3, the x86
  32-bit variant published with SMHasher. The rotation it uses is in module
  Rotation and the renderers `bit_at`, `bin` and `hex` are in module Render.

  Buffers are sequences of bytes. The platform is little-endian
  (src/hash_table.h:7), so a 4-byte block is loaded as the word
  `b0 | b1 << 8 | b2 << 16 | b3 << 24`.
 */
module HashTable {

  import opened Rotation

  /** One byte of a buffer, as stored in memory. */
  type Byte = bv8

  const C1: bv32 := 0xcc9e2d51
  const C2: bv32 := 0x1b873593
  const C3: bv32 := 0xe6546b64
  const C4: bv32 := 0x85ebca6b
  const C5: bv32 := 0xc2b2ae35

  // ---------------------------------------------------------------------
  // murmur_hash_x86_32: the mixing steps
  // ---------------------------------------------------------------------

  /** The 32-bit word a little-endian machine loads from four consecutive
      bytes: `b0 | b1 << 8 | b2 << 16 | b3 << 24`. */
  function LeWord(b0: Byte, b1: Byte, b2: Byte, b3: Byte): bv32 {
    (b0 as bv32) | ((b1 as bv32) << 8) | ((b2 as bv32) << 16) | ((b3 as bv32) << 24)
  }

  /** Byte j of the buffer lands in bits 8j to 8j + 7 of the word. */
  lemma LeWordBytes(b0: Byte, b1: Byte, b2: Byte, b3: Byte)
    ensures var w := LeWord(b0, b1, b2, b3);
            w & 0xff == b0 as bv32 && (w >> 8) & 0xff == b1 as bv32 &&
            (w >> 16) & 0xff == b2 as bv32 && w >> 24 == b3 as bv32
  {
  }

  /** The scrambling of one block: `rotl_32(k * C1, 15) * C2`. */
  function MixBlock(k: bv32): bv32 {
    Rotl32(k * C1, 15) * C2
  }

  /** The update of the running hash by a scrambled block:
      `rotl_32(h ^ k, 13) * 5 + C3`. */
  function MixHash(h: bv32, k: bv32): bv32 {
    Rotl32(h ^ k, 13) * 5 + C3
  }

  /** fmix32, the final avalanche: xor-shift, multiply, xor-shift, multiply,
      xor-shift. */
  function Fmix32(h: bv32): bv32 {
    var h1 := h ^ (h >> 16);
    var h2 := h1 * C4;
    var h3 := h2 ^ (h2 >> 13);
    var h4 := h3 * C5;
    h4 ^ (h4 >> 16)
  }

  /** The 0 to 3 trailing bytes, zero-padded and read as a little-endian word. */
  function TailWord(tail: seq<Byte>): bv32
    requires |tail| < 4
  {
    LeWord(if |tail| > 0 then tail[0] else 0, if |tail| > 1 then tail[1] else 0,
           if |tail| > 2 then tail[2] else 0, 0)
  }

  /** One step of the tail switch: `k1 ^= tail[j] << shift`. */
  function XorByte(acc: bv32, b: Byte, shift: bv32): bv32
    requires shift <= 24
  {
    acc ^ ((b as bv32) << shift)
  }

  lemma TailBitsRaw(b0: Byte, b1: Byte, b2: Byte)
    ensures (b0 as bv32) | ((b1 as bv32) << 8) | ((b2 as bv32) << 16) | ((0 as bv32) << 24)
         == ((0 ^ ((b2 as bv32) << 16)) ^ ((b1 as bv32) << 8)) ^ ((b0 as bv32) << 0)
  {
  }

  lemma TailBits1(b0: Byte)
    ensures LeWord(b0, 0, 0, 0) == XorByte(0, b0, 0)
  {
    TailBitsRaw(b0, 0, 0);
  }

  lemma TailBits2(b0: Byte, b1: Byte)
    ensures LeWord(b0, b1, 0, 0) == XorByte(XorByte(0, b1, 8), b0, 0)
  {
    TailBitsRaw(b0, b1, 0);
  }

  lemma TailBits3(b0: Byte, b1: Byte, b2: Byte)
    ensures LeWord(b0, b1, b2, 0) == XorByte(XorByte(XorByte(0, b2, 16), b1, 8), b0, 0)
  {
    TailBitsRaw(b0, b1, b2);
  }

  /** The tail switch, entered at case `len & 3` and falling through to
      case 1, xors the tail bytes into the zero-padded little-endian word. */
  lemma TailFallthrough(tail: seq<Byte>)
    requires 0 < |tail| < 4
    ensures TailWord(tail) ==
      if |tail| == 3 then XorByte(XorByte(XorByte(0, tail[2], 16), tail[1], 8), tail[0], 0)
      else if |tail| == 2 then XorByte(XorByte(0, tail[1], 8), tail[0], 0)
      else XorByte(0, tail[0], 0)
  {
    if |tail| == 3 {
      TailBits3(tail[0], tail[1], tail[2]);
    } else if |tail| == 2 {
      TailBits2(tail[0], tail[1]);
    } else {
      TailBits1(tail[0]);
    }
  }

  /** The running hash with a scrambled partial block xored in: `h ^= k1`
      after `k1` has gone through the block scrambling. */
  function TailStep(h: bv32, k: bv32): bv32 {
    h ^ MixBlock(k)
  }

  /** The running hash after the tail bytes, if any, are scrambled and
      xored in. */
  function TailMix(h: bv32, tail: seq<Byte>): bv32
    requires |tail| < 4
  {
    if tail == [] then h else TailStep(h, TailWord(tail))
  }

  /** The low 32 bits of a byte count: the `size_t` length converted to
      `uint32_t`. */
  function Low32(n: nat): bv32 {
    if n < 0x1_0000_0000 then n as bv32 else Low32(n - 0x1_0000_0000)
  }

  /** `h ^= len`: the byte count, truncated to 32 bits, folded into the hash. */
  function AddLength(h: bv32, len: nat): bv32 {
    h ^ Low32(len)
  }

  // ---------------------------------------------------------------------
  // murmur_hash_x86_32: the whole hash
  // ---------------------------------------------------------------------

  /** The running hash after every byte of key has been absorbed into h:
      each full 4-byte block, read as a little-endian word, is scrambled and
      mixed in, front to back; the 0 to 3 remaining bytes form the tail. */
  function Digest(h: bv32, key: seq<Byte>): bv32
    decreases |key|
  {
    if |key| < 4 then TailMix(h, key)
    else Digest(MixHash(h, MixBlock(LeWord(key[0], key[1], key[2], key[3]))), key[4..])
  }

  /** MurmurHash3_x86_32 of key with the given seed. */
  function Murmur3(key: seq<Byte>, seed: bv32): bv32 {
    Fmix32(AddLength(Digest(seed, key), |key|))
  }

  /** One block step of the fold, with the block word and the updated
      running hash named. */
  lemma DigestBlock(h: bv32, key: seq<Byte>, w: bv32, h2: bv32, rest: seq<Byte>)
    requires |key| >= 4 && key[4..] == rest
    requires LeWord(key[0], key[1], key[2], key[3]) == w && MixHash(h, MixBlock(w)) == h2
    ensures Digest(h, key) == Digest(h2, rest)
  {
  }

  /** The last step of the fold: fewer than four bytes are all tail. */
  lemma DigestTail(h: bv32, tail: seq<Byte>, h2: bv32)
    requires |tail| < 4 && TailMix(h, tail) == h2
    ensures Digest(h, tail) == h2
  {
  }

  /** The tail switch of a whole buffer, entered at case `len & 3`. */
  lemma TailSwitch(key: seq<Byte>, tail: nat)
    requires tail == |key| / 4 * 4
    ensures |key| - tail == |key| % 4
    ensures |key| % 4 == 0 ==> key[tail..] == []
    ensures |key| % 4 == 1 ==> TailWord(key[tail..]) == XorByte(0, key[tail], 0)
    ensures |key| % 4 == 2 ==> TailWord(key[tail..]) == XorByte(XorByte(0, key[tail + 1], 8), key[tail], 0)
    ensures |key| % 4 == 3 ==>
      TailWord(key[tail..]) == XorByte(XorByte(XorByte(0, key[tail + 2], 16), key[tail + 1], 8), key[tail], 0)
  {
    if |key| % 4 != 0 {
      TailFallthrough(key[tail..]);
    }
  }

  /** `murmur_hash_x86_32(key, len, seed)`: the block loop over little-endian
      words, the tail switch with its fallthrough, the length and fmix32. */
  method MurmurHashX86_32(key: seq<Byte>, seed: bv32) returns (hash: bv32)
    ensures hash == Murmur3(key, seed)
  {
    var blockLen := |key| / 4;
    hash := seed;
    for i := 0 to blockLen
      invariant Digest(hash, key[4 * i..]) == Digest(seed, key)
    {
      var block := LeWord(key[4 * i], key[4 * i + 1], key[4 * i + 2], key[4 * i + 3]);
      ghost var word, before := block, hash;
      block := MixBlock(block);
      hash := MixHash(hash, block);
      DigestBlock(before, key[4 * i..], word, hash, key[4 * i + 4..]);
    }

    var tail := blockLen * 4;
    ghost var body := hash;
    TailSwitch(key, tail);
    var tailBlock: bv32 := 0;
    var rem := |key| % 4;
    if rem == 3 {
      tailBlock := XorByte(tailBlock, key[tail + 2], 16);
    }
    if rem >= 2 {
      tailBlock := XorByte(tailBlock, key[tail + 1], 8);
    }
    if rem >= 1 {
      tailBlock := XorByte(tailBlock, key[tail], 0);
      hash := TailStep(hash, tailBlock);
    }
    DigestTail(body, key[tail..], hash);
    hash := AddLength(hash, |key|);
    hash := Fmix32(hash);
  }

  // ---------------------------------------------------------------------
  // murmur_hash_x86_32: properties
  // ---------------------------------------------------------------------

  /** An empty buffer skips the block loop and the tail, and its length
      is 0: the hash is the avalanche of the seed alone. */
  lemma MurmurEmpty(seed: bv32)
    ensures Murmur3([], seed) == Fmix32(seed)
  {
    DigestTail(seed, [], seed);
    assert AddLength(seed, 0) == seed;
  }

  /** Blocks are absorbed front to back: hashing a + b, where a is a whole
      number of blocks, continues from the running hash that a leaves. */
  lemma {:induction false} DigestAppend(h: bv32, a: seq<Byte>, b: seq<Byte>)
    requires |a| % 4 == 0
    ensures Digest(h, a + b) == Digest(Digest(h, a), b)
    decreases |a|
  {
    if a == [] {
      assert a + b == b;
    } else {
      var h2 := MixHash(h, MixBlock(LeWord(a[0], a[1], a[2], a[3])));
      assert (a + b)[4..] == a[4..] + b;
      DigestAppend(h2, a[4..], b);
    }
  }

  /** The three empty-buffer entries of the test table. */
  lemma VectorEmpty()
    ensures Murmur3([], 0) == 0
    ensures Murmur3([], 1) == 0x514e28b7
    ensures Murmur3([], 0xffffffff) == 0x81f16f39
  {
    MurmurEmpty(0);
    MurmurEmpty(1);
    MurmurEmpty(0xffffffff);
  }

  /** Four 0xff bytes, seed 0. */
  lemma VectorFfFfFfFf(key: seq<Byte>)
    requires key == [0xff, 0xff, 0xff, 0xff]
    ensures Murmur3(key, 0x00000000) == 0x76293b50
  {
    var k1: seq<Byte> := [];
    assert key[4..] == k1;
    assert MixHash(0x00000000, MixBlock(0xffffffff)) == 0x145ee0d5;
    DigestBlock(0x00000000, key, 0xffffffff, 0x145ee0d5, k1);
    DigestTail(0x145ee0d5, k1, 0x145ee0d5);
    assert AddLength(0x145ee0d5, 4) == 0x145ee0d1;
    assert Fmix32(0x145ee0d1) == 0x76293b50;
  }

  /** The block 0x87654321 under seeds 0 and 0x5082edee. */
  lemma Vector21436587(key: seq<Byte>)
    requires key == [0x21, 0x43, 0x65, 0x87]
    ensures Murmur3(key, 0x00000000) == 0xf55b516b
    ensures Murmur3(key, 0x5082edee) == 0x2362f9de
  {
    var k1: seq<Byte> := [];
    assert key[4..] == k1;
    assert MixHash(0x00000000, MixBlock(0x87654321)) == 0xbb095db4;
    DigestBlock(0x00000000, key, 0x87654321, 0xbb095db4, k1);
    DigestTail(0xbb095db4, k1, 0xbb095db4);
    assert AddLength(0xbb095db4, 4) == 0xbb095db0;
    assert Fmix32(0xbb095db0) == 0xf55b516b;
    assert MixHash(0x5082edee, MixBlock(0x87654321)) == 0xe6546b64;
    DigestBlock(0x5082edee, key, 0x87654321, 0xe6546b64, k1);
    DigestTail(0xe6546b64, k1, 0xe6546b64);
    assert AddLength(0xe6546b64, 4) == 0xe6546b60;
    assert Fmix32(0xe6546b60) == 0x2362f9de;
  }

  /** Three tail bytes and no block. */
  lemma Vector214365(key: seq<Byte>)
    requires key == [0x21, 0x43, 0x65]
    ensures Murmur3(key, 0x00000000) == 0x7e4a8634
  {
    assert TailWord(key) == 0x00654321;
    assert TailStep(0x00000000, 0x00654321) == 0x17a6636e;
    DigestTail(0x00000000, key, 0x17a6636e);
    assert AddLength(0x17a6636e, 3) == 0x17a6636d;
    assert Fmix32(0x17a6636d) == 0x7e4a8634;
  }

  /** Two tail bytes. */
  lemma Vector2143(key: seq<Byte>)
    requires key == [0x21, 0x43]
    ensures Murmur3(key, 0x00000000) == 0xa0f7b07a
  {
    assert TailWord(key) == 0x00004321;
    assert TailStep(0x00000000, 0x00004321) == 0xec900b60;
    DigestTail(0x00000000, key, 0xec900b60);
    assert AddLength(0xec900b60, 2) == 0xec900b62;
    assert Fmix32(0xec900b62) == 0xa0f7b07a;
  }

  /** One tail byte. */
  lemma Vector21(key: seq<Byte>)
    requires key == [0x21]
    ensures Murmur3(key, 0x00000000) == 0x72661cf4
  {
    assert TailWord(key) == 0x00000021;
    assert TailStep(0x00000000, 0x00000021) == 0xac5e5123;
    DigestTail(0x00000000, key, 0xac5e5123);
    assert AddLength(0xac5e5123, 1) == 0xac5e5122;
    assert Fmix32(0xac5e5122) == 0x72661cf4;
  }

  /** Four zero bytes: one block, no tail. */
  lemma VectorZeros4(key: seq<Byte>)
    requires key == [0x00, 0x00, 0x00, 0x00]
    ensures Murmur3(key, 0x00000000) == 0x2362f9de
  {
    var k1: seq<Byte> := [];
    assert key[4..] == k1;
    assert MixHash(0x00000000, MixBlock(0x00000000)) == 0xe6546b64;
    DigestBlock(0x00000000, key, 0x00000000, 0xe6546b64, k1);
    DigestTail(0xe6546b64, k1, 0xe6546b64);
    assert AddLength(0xe6546b64, 4) == 0xe6546b60;
    assert Fmix32(0xe6546b60) == 0x2362f9de;
  }

  /** Three zero bytes. */
  lemma VectorZeros3(key: seq<Byte>)
    requires key == [0x00, 0x00, 0x00]
    ensures Murmur3(key, 0x00000000) == 0x85f0b427
  {
    assert TailWord(key) == 0x00000000;
    assert TailStep(0x00000000, 0x00000000) == 0x00000000;
    DigestTail(0x00000000, key, 0x00000000);
    assert AddLength(0x00000000, 3) == 0x00000003;
    assert Fmix32(0x00000003) == 0x85f0b427;
  }

  /** Two zero bytes. */
  lemma VectorZeros2(key: seq<Byte>)
    requires key == [0x00, 0x00]
    ensures Murmur3(key, 0x00000000) == 0x30f4c306
  {
    assert TailWord(key) == 0x00000000;
    assert TailStep(0x00000000, 0x00000000) == 0x00000000;
    DigestTail(0x00000000, key, 0x00000000);
    assert AddLength(0x00000000, 2) == 0x00000002;
    assert Fmix32(0x00000002) == 0x30f4c306;
  }

  /** One zero byte. */
  lemma VectorZeros1(key: seq<Byte>)
    requires key == [0x00]
    ensures Murmur3(key, 0x00000000) == 0x514e28b7
  {
    assert TailWord(key) == 0x00000000;
    assert TailStep(0x00000000, 0x00000000) == 0x00000000;
    DigestTail(0x00000000, key, 0x00000000);
    assert AddLength(0x00000000, 1) == 0x00000001;
    assert Fmix32(0x00000001) == 0x514e28b7;
  }

  /** "Hello, world!" (13 bytes: three blocks and a one-byte tail), seed 1234. */
  lemma VectorHelloWorld1234(key: seq<Byte>)
    requires key == [0x48, 0x65, 0x6c, 0x6c, 0x6f, 0x2c, 0x20, 0x77, 0x6f, 0x72, 0x6c, 0x64, 0x21]
    ensures Murmur3(key, 0x000004d2) == 0xfaf6cdb3
  {
    var k1: seq<Byte> := [0x6f, 0x2c, 0x20, 0x77, 0x6f, 0x72, 0x6c, 0x64, 0x21];
    var k2: seq<Byte> := [0x6f, 0x72, 0x6c, 0x64, 0x21];
    var k3: seq<Byte> := [0x21];
    assert key[4..] == k1;
    assert k1[4..] == k2;
    assert k2[4..] == k3;
    assert MixHash(0x000004d2, MixBlock(0x6c6c6548)) == 0xce5f2c36;
    DigestBlock(0x000004d2, key, 0x6c6c6548, 0xce5f2c36, k1);
    assert MixHash(0xce5f2c36, MixBlock(0x77202c6f)) == 0xcab5bb8f;
    DigestBlock(0xce5f2c36, k1, 0x77202c6f, 0xcab5bb8f, k2);
    assert MixHash(0xcab5bb8f, MixBlock(0x646c726f)) == 0xa2fce949;
    DigestBlock(0xcab5bb8f, k2, 0x646c726f, 0xa2fce949, k3);
    assert TailWord(k3) == 0x00000021;
    assert TailStep(0xa2fce949, 0x00000021) == 0x0ea2b86a;
    DigestTail(0xa2fce949, k3, 0x0ea2b86a);
    assert AddLength(0x0ea2b86a, 13) == 0x0ea2b867;
    assert Fmix32(0x0ea2b867) == 0xfaf6cdb3;
  }

  /** "Hello, world!", seed 4321. */
  lemma VectorHelloWorld4321(key: seq<Byte>)
    requires key == [0x48, 0x65, 0x6c, 0x6c, 0x6f, 0x2c, 0x20, 0x77, 0x6f, 0x72, 0x6c, 0x64, 0x21]
    ensures Murmur3(key, 0x000010e1) == 0xbf505788
  {
    var k1: seq<Byte> := [0x6f, 0x2c, 0x20, 0x77, 0x6f, 0x72, 0x6c, 0x64, 0x21];
    var k2: seq<Byte> := [0x6f, 0x72, 0x6c, 0x64, 0x21];
    var k3: seq<Byte> := [0x21];
    assert key[4..] == k1;
    assert k1[4..] == k2;
    assert k2[4..] == k3;
    assert MixHash(0x000010e1, MixBlock(0x6c6c6548)) == 0xd5e88c36;
    DigestBlock(0x000010e1, key, 0x6c6c6548, 0xd5e88c36, k1);
    assert MixHash(0xd5e88c36, MixBlock(0x77202c6f)) == 0xc6b5b4e1;
    DigestBlock(0xd5e88c36, k1, 0x77202c6f, 0xc6b5b4e1, k2);
    assert MixHash(0xc6b5b4e1, MixBlock(0x646c726f)) == 0x9c0530c9;
    DigestBlock(0xc6b5b4e1, k2, 0x646c726f, 0x9c0530c9, k3);
    assert TailWord(k3) == 0x00000021;
    assert TailStep(0x9c0530c9, 0x00000021) == 0x305b61ea;
    DigestTail(0x9c0530c9, k3, 0x305b61ea);
    assert AddLength(0x305b61ea, 13) == 0x305b61e7;
    assert Fmix32(0x305b61e7) == 0xbf505788;
  }

  /** Zero bytes of lengths 1 to 4 hash apart under seed 0: the tail length
      and the xored-in length keep them distinct. */
  lemma ZerosDistinct(z1: seq<Byte>, z2: seq<Byte>, z3: seq<Byte>, z4: seq<Byte>)
    requires z1 == [0] && z2 == [0, 0] && z3 == [0, 0, 0] && z4 == [0, 0, 0, 0]
    ensures Murmur3(z1, 0) != Murmur3(z2, 0) && Murmur3(z1, 0) != Murmur3(z3, 0)
    ensures Murmur3(z1, 0) != Murmur3(z4, 0) && Murmur3(z2, 0) != Murmur3(z3, 0)
    ensures Murmur3(z2, 0) != Murmur3(z4, 0) && Murmur3(z3, 0) != Murmur3(z4, 0)
  {
    VectorZeros1(z1);
    VectorZeros2(z2);
    VectorZeros3(z3);
    VectorZeros4(z4);
  }
}
