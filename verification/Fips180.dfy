/**
 * SHA-256 as FIPS 180-4 defines it: functions and constants (section 4), preprocessing
 * (section 5) and hash computation with the 64-word message schedule (section 6.2).
 */
module Fips180 {
  import opened ByteNumbers
  import opened Octets

  type word = bv32

  // --------------------------------------------------------------------------
  // Words (sections 2.2.2 and 3)
  // --------------------------------------------------------------------------

  function Add(x: word, y: word): word {
    x + y
  }

  function FromBytes(b0: byte, b1: byte, b2: byte, b3: byte): word {
    (b0 as word << 24) | (b1 as word << 16) | (b2 as word << 8) | b3 as word
  }

  function ToBytes(x: word): (r: seq<byte>)
    ensures |r| == 4
  {
    [((x >> 24) & 0xff) as byte, ((x >> 16) & 0xff) as byte, ((x >> 8) & 0xff) as byte, (x & 0xff) as byte]
  }

  // --------------------------------------------------------------------------
  // Functions and constants (sections 4.1.2 and 4.2.2)
  // --------------------------------------------------------------------------

  function Xor3(x: word, y: word, z: word): word { x ^ y ^ z }

  function Ch(x: word, y: word, z: word): word { (x & y) ^ (!x & z) }
  function Maj(x: word, y: word, z: word): word { Xor3(x & y, x & z, y & z) }
  function UpperSigma0(x: word): word { Xor3(x.RotateRight(2), x.RotateRight(13), x.RotateRight(22)) }
  function UpperSigma1(x: word): word { Xor3(x.RotateRight(6), x.RotateRight(11), x.RotateRight(25)) }
  function LowerSigma0(x: word): word { Xor3(x.RotateRight(7), x.RotateRight(18), x >> 3) }
  function LowerSigma1(x: word): word { Xor3(x.RotateRight(17), x.RotateRight(19), x >> 10) }

  /** Under any mask whose bits `x` has, and so for any single bit that is 1 in `x`, it is `y` that counts; else `z`. */
  lemma ChSelects(x: word, y: word, z: word, mask: word)
    ensures x & mask == mask ==> Ch(x, y, z) & mask == y & mask
    ensures x & mask == 0 ==> Ch(x, y, z) & mask == z & mask
  {}

  /** What the first two arguments agree on is the result, and by symmetry what any two agree on. */
  lemma MajFollowsTwo(x: word, y: word, z: word, mask: word)
    requires x & mask == y & mask
    ensures Maj(x, y, z) & mask == x & mask
  {}

  lemma MajSymmetric(x: word, y: word, z: word)
    ensures Maj(x, y, z) == Maj(x, z, y) && Maj(x, y, z) == Maj(y, z, x)
  {}

  // The round constants, eight to a row.
  function ConstantRow(i: nat): (row: seq<word>)
    requires i < 8
    ensures |row| == 8
  {
    if i == 0 then
      [0x428a2f98, 0x71374491, 0xb5c0fbcf, 0xe9b5dba5, 0x3956c25b, 0x59f111f1, 0x923f82a4, 0xab1c5ed5]
    else if i == 1 then
      [0xd807aa98, 0x12835b01, 0x243185be, 0x550c7dc3, 0x72be5d74, 0x80deb1fe, 0x9bdc06a7, 0xc19bf174]
    else if i == 2 then
      [0xe49b69c1, 0xefbe4786, 0x0fc19dc6, 0x240ca1cc, 0x2de92c6f, 0x4a7484aa, 0x5cb0a9dc, 0x76f988da]
    else if i == 3 then
      [0x983e5152, 0xa831c66d, 0xb00327c8, 0xbf597fc7, 0xc6e00bf3, 0xd5a79147, 0x06ca6351, 0x14292967]
    else if i == 4 then
      [0x27b70a85, 0x2e1b2138, 0x4d2c6dfc, 0x53380d13, 0x650a7354, 0x766a0abb, 0x81c2c92e, 0x92722c85]
    else if i == 5 then
      [0xa2bfe8a1, 0xa81a664b, 0xc24b8b70, 0xc76c51a3, 0xd192e819, 0xd6990624, 0xf40e3585, 0x106aa070]
    else if i == 6 then
      [0x19a4c116, 0x1e376c08, 0x2748774c, 0x34b0bcb5, 0x391c0cb3, 0x4ed8aa4a, 0x5b9cca4f, 0x682e6ff3]
    else
      [0x748f82ee, 0x78a5636f, 0x84c87814, 0x8cc70208, 0x90befffa, 0xa4506ceb, 0xbef9a3f7, 0xc67178f2]
  }

  function K(t: nat): word
    requires t < 64
  {
    ConstantRow(t / 8)[t % 8]
  }

  // --------------------------------------------------------------------------
  // Hash computation (section 6.2.2)
  // --------------------------------------------------------------------------

  /** The eight words of a hash value, or the eight working variables. */
  datatype Hash = Hash(a: word, b: word, c: word, d: word, e: word, f: word, g: word, h: word)

  // Section 5.3.3
  const INITIAL := Hash(0x6a09e667, 0xbb67ae85, 0x3c6ef372, 0xa54ff53a, 0x510e527f, 0x9b05688c, 0x1f83d9ab, 0x5be0cd19)

  type Chunk = s: seq<byte> | |s| == 64 witness seq(64, _ => 0 as byte)

  /** Word `t` of the message schedule of a chunk. */
  function Schedule(m: Chunk, t: nat): word
  {
    if t < 16 then
      FromBytes(m[4 * t], m[4 * t + 1], m[4 * t + 2], m[4 * t + 3])
    else
      Add(Add(Add(LowerSigma1(Schedule(m, t - 2)), Schedule(m, t - 7)), LowerSigma0(Schedule(m, t - 15))),
          Schedule(m, t - 16))
  }

  function Round(v: Hash, k: word, w: word): Hash {
    var t1 := Add(Add(Add(Add(v.h, UpperSigma1(v.e)), Ch(v.e, v.f, v.g)), k), w);
    var t2 := Add(UpperSigma0(v.a), Maj(v.a, v.b, v.c));
    Hash(Add(t1, t2), v.a, v.b, v.c, Add(v.d, t1), v.e, v.f, v.g)
  }

  /** The working variables after `t` rounds. */
  function Rounds(v: Hash, m: Chunk, t: nat): Hash
    requires t <= 64
  {
    if t == 0 then v else Round(Rounds(v, m, t - 1), K(t - 1), Schedule(m, t - 1))
  }

  function AddHashes(x: Hash, y: Hash): Hash {
    Hash(Add(x.a, y.a), Add(x.b, y.b), Add(x.c, y.c), Add(x.d, y.d),
         Add(x.e, y.e), Add(x.f, y.f), Add(x.g, y.g), Add(x.h, y.h))
  }

  function Compress(x: Hash, m: Chunk): Hash {
    AddHashes(x, Rounds(x, m, 64))
  }

  /** The hash value after all the chunks of `m`. */
  function HashChunks(x: Hash, m: seq<byte>): Hash
    requires |m| % 64 == 0
    decreases |m|
  {
    if m == [] then x else Compress(HashChunks(x, m[..|m| - 64]), m[|m| - 64..])
  }

  // --------------------------------------------------------------------------
  // Preprocessing (section 5.1.1)
  // --------------------------------------------------------------------------

  function LowByte(n: nat): byte {
    (n % 256) as byte
  }

  /** The low `count` bytes of `n`, the most significant first. */
  function BigEndian(n: nat, count: nat): (r: seq<byte>)
    ensures |r| == count
  {
    if count == 0 then [] else BigEndian(n / 256, count - 1) + [LowByte(n)]
  }

  function ZeroBytes(n: nat): (z: seq<byte>)
    ensures |z| == n
  {
    seq(n, _ => 0 as byte)
  }

  /** How many zero bytes follow the one bit: as few as make whole chunks with the length field. */
  function ZeroCount(length: nat): (n: nat)
    ensures n < 64 && (length + 1 + n + 8) % 64 == 0
  {
    if length % 64 <= 55 then 55 - length % 64 else 119 - length % 64
  }

  function Padding(length: nat): (p: seq<byte>)
    ensures (length + |p|) % 64 == 0
  {
    [0x80] + ZeroBytes(ZeroCount(length)) + BigEndian(8 * length, 8)
  }

  function WordBytes(words: seq<word>): (r: seq<byte>)
    ensures |r| == 4 * |words|
  {
    if words == [] then [] else WordBytes(words[..|words| - 1]) + ToBytes(words[|words| - 1])
  }

  function Digest(x: Hash): (r: seq<byte>)
    ensures |r| == 32
  {
    WordBytes([x.a, x.b, x.c, x.d, x.e, x.f, x.g, x.h])
  }

  function Sha256(m: seq<byte>): (r: seq<byte>)
    ensures |r| == 32
  {
    Digest(HashChunks(INITIAL, m + Padding(|m|)))
  }

  // --------------------------------------------------------------------------
  // Properties of the preprocessing
  // --------------------------------------------------------------------------

  function Power256(count: nat): nat {
    if count == 0 then 1 else 256 * Power256(count - 1)
  }

  function ValueOf(bytes: seq<byte>): nat {
    if bytes == [] then 0 else 256 * ValueOf(bytes[..|bytes| - 1]) + bytes[|bytes| - 1] as nat
  }

  lemma ValueAppends(high: seq<byte>, low: byte)
    ensures ValueOf(high + [low]) == 256 * ValueOf(high) + low as nat
  {
    assert (high + [low])[..|high|] == high;
  }

  lemma LowByteValue(n: nat)
    ensures LowByte(n) as nat == n % 256
  {
    ByteValue(n % 256);
  }

  lemma {:induction false} BigEndianValue(n: nat, count: nat)
    requires n < Power256(count)
    ensures ValueOf(BigEndian(n, count)) == n
    decreases count
  {
    hide LowByte;
    if count > 0 {
      assert n / 256 < Power256(count - 1);
      BigEndianValue(n / 256, count - 1);
      ValueAppends(BigEndian(n / 256, count - 1), LowByte(n));
      LowByteValue(n);
    }
  }

  // Only the low `count` bytes of a number are written.
  lemma {:induction false} BigEndianWraps(n: nat, q: nat, count: nat)
    ensures BigEndian(n + q * Power256(count), count) == BigEndian(n, count)
    decreases count
  {
    hide LowByte, Power256, BigEndian;
    if count == 0 {
      NoBytes(n);
      NoBytes(n + q * Power256(count));
    } else {
      PowerStep(q, count - 1);
      LowByteStays(n, q * Power256(count - 1));
      BigEndianStep(n, count);
      BigEndianStep(n + q * Power256(count), count);
      BigEndianWraps(n / 256, q, count - 1);
    }
  }

  lemma NoBytes(n: nat)
    ensures BigEndian(n, 0) == []
  {}

  lemma PowerStep(q: nat, count: nat)
    ensures q * Power256(count + 1) == 256 * (q * Power256(count))
  {}

  lemma BigEndianStep(n: nat, count: nat)
    requires count > 0
    ensures BigEndian(n, count) == BigEndian(n / 256, count - 1) + [LowByte(n)]
  {
    hide LowByte;
  }

  lemma LowByteStays(n: nat, r: nat)
    ensures (n + 256 * r) / 256 == n / 256 + r && LowByte(n + 256 * r) == LowByte(n)
  {
    assert (n + 256 * r) % 256 == n % 256;
  }

  /** `zeros` zero bytes leave room for exactly the length field at the end of a chunk. */
  predicate FillsChunks(length: nat, zeros: nat) {
    (length + 1 + zeros + 8) % 64 == 0
  }

  lemma ZeroCountLeast(length: nat)
    ensures FillsChunks(length, ZeroCount(length))
    ensures forall n: nat :: FillsChunks(length, n) ==> ZeroCount(length) <= n
  {}

  lemma LengthField(length: nat)
    requires length < 0x2000_0000_0000_0000
    ensures var p := Padding(length); |p| >= 8 && ValueOf(p[|p| - 8..]) == 8 * length
  {
    var p := Padding(length);
    assert p[|p| - 8..] == BigEndian(8 * length, 8);
    assert Power256(8) == 0x1_0000_0000_0000_0000;
    hide BigEndian, ValueOf;
    BigEndianValue(8 * length, 8);
  }

  /** Section 5.1.1: a one bit, the fewest zero bits that fit, and the bit length as a 64-bit number. */
  lemma PaddingShape(length: nat)
    ensures var p := Padding(length);
      && |p| >= 9
      && p[0] == 0x80
      && (forall k :: 1 <= k < |p| - 8 ==> p[k] == 0)
      && FillsChunks(length, |p| - 9)
      && (forall n: nat :: FillsChunks(length, n) ==> |p| - 9 <= n)
      && (length < 0x2000_0000_0000_0000 ==> ValueOf(p[|p| - 8..]) == 8 * length)
  {
    hide BigEndian, ValueOf;
    ZeroCountLeast(length);
    if length < 0x2000_0000_0000_0000 {
      LengthField(length);
    }
  }

  /** Padding loses nothing: messages whose length fits the field pad to different chunks. */
  lemma PaddingInjective(m: seq<byte>, n: seq<byte>)
    requires |m| < 0x2000_0000_0000_0000 && |n| < 0x2000_0000_0000_0000
    requires m + Padding(|m|) == n + Padding(|n|)
    ensures m == n
  {
    LengthField(|m|);
    LengthField(|n|);
    hide Padding, ValueOf;
    FieldFixesMessage(m, n, Padding(|m|), Padding(|n|));
  }

  lemma FieldFixesMessage(m: seq<byte>, n: seq<byte>, p: seq<byte>, q: seq<byte>)
    requires |p| >= 8 && |q| >= 8 && m + p == n + q
    requires ValueOf(p[|p| - 8..]) == 8 * |m| && ValueOf(q[|q| - 8..]) == 8 * |n|
    ensures m == n
  {
    hide ValueOf;
    LastEight(m, p);
    LastEight(n, q);
    assert m == (m + p)[..|m|] && n == (n + q)[..|n|];
  }

  lemma LastEight(m: seq<byte>, p: seq<byte>)
    requires |p| >= 8
    ensures (m + p)[|m + p| - 8..] == p[|p| - 8..]
  {}

  // --------------------------------------------------------------------------
  // Properties of the hash computation
  // --------------------------------------------------------------------------

  /** Hashing may stop and resume at any chunk boundary. */
  lemma {:induction false} HashChunksSplits(x: Hash, m: seq<byte>, n: seq<byte>)
    requires |m| % 64 == 0 && |n| % 64 == 0
    ensures |m + n| % 64 == 0
    ensures HashChunks(x, m + n) == HashChunks(HashChunks(x, m), n)
    decreases |n|
  {
    hide Compress;
    if n == [] {
      assert m + n == m;
    } else {
      var rest, last := n[..|n| - 64], n[|n| - 64..];
      assert |rest| % 64 == 0;
      assert (m + n)[..|m + n| - 64] == m + rest && (m + n)[|m + n| - 64..] == last;
      HashChunksSplits(x, m, rest);
    }
  }

  lemma HashOneChunk(x: Hash, m: Chunk)
    ensures HashChunks(x, m) == Compress(x, m)
  {
    hide Compress;
    assert m[..0] == [] && m[0..] == m;
  }
}
