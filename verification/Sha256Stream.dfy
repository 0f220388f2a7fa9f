/**
 * The streaming context of SHA-256: a message is written in pieces of any length, and closing
 * the context delivers the hash of all that was written.
 */
module Sha256Stream {
  import opened Octets
  import opened Fips180
  import opened Sha256Compress

  const UINT64_LIMIT := 0x1_0000_0000_0000_0000

  // --------------------------------------------------------------------------
  // What a context has absorbed
  // --------------------------------------------------------------------------

  // All full chunks of `m` are folded into `x`, and the rest is at the front of the buffer.
  ghost predicate Absorbed(x: Hash, buffer: seq<byte>, pos: nat, m: seq<byte>)
    requires |buffer| == CHUNK_LEN
  {
    && pos < CHUNK_LEN && pos <= |m|
    && (|m| - pos) % CHUNK_LEN == 0
    && x == HashChunks(INITIAL, m[..|m| - pos])
    && buffer[..pos] == m[|m| - pos..]
  }

  lemma AbsorbsPart(x: Hash, before: seq<byte>, after: seq<byte>, pos: nat, m: seq<byte>, d: seq<byte>)
    requires |before| == |after| == CHUNK_LEN
    requires Absorbed(x, before, pos, m)
    requires pos + |d| < CHUNK_LEN
    requires after[..pos + |d|] == before[..pos] + d
    ensures Absorbed(x, after, pos + |d|, m + d)
  {
    hide HashChunks;
    assert (m + d)[..|m| - pos] == m[..|m| - pos];
    assert (m + d)[|m| - pos..] == m[|m| - pos..] + d;
  }

  lemma AbsorbsChunk(x: Hash, before: seq<byte>, after: seq<byte>, pos: nat, m: seq<byte>, d: seq<byte>, chunk: Chunk)
    requires |before| == |after| == CHUNK_LEN
    requires Absorbed(x, before, pos, m)
    requires chunk == before[..pos] + d
    ensures Absorbed(Compress(x, chunk), after, 0, m + d)
  {
    hide HashChunks, Compress;
    var head := m[..|m| - pos];
    assert m + d == head + chunk;
    HashChunksSplits(INITIAL, head, chunk);
    HashOneChunk(x, chunk);
    assert (m + d)[..|m + d|] == m + d;
  }

  // --------------------------------------------------------------------------
  // Filling part of a buffer
  // --------------------------------------------------------------------------

  method CopyInto(dst: array<byte>, pos: nat, src: seq<byte>)
    requires pos + |src| <= dst.Length
    modifies dst
    ensures dst[..] == old(dst[..pos]) + src + old(dst[pos + |src|..])
  {
    forall k | 0 <= k < |src| {
      dst[pos + k] := src[k];
    }
  }

  method SetZero(dst: array<byte>, pos: nat, n: nat)
    requires pos + n <= dst.Length
    modifies dst
    ensures dst[..] == old(dst[..pos]) + ZeroBytes(n) + old(dst[pos + n..])
  {
    forall k | 0 <= k < n {
      dst[pos + k] := 0;
    }
  }

  // Shifts of a 64-bit unsigned number.
  function ShiftLeft3(n: nat): nat { n * 8 % UINT64_LIMIT }
  function ShiftRight5(n: nat): nat { n / 32 }
  function ShiftRight8(n: nat): nat { n / 256 }

  /** The end of `sha_256_close`: the bit length in the last eight bytes of the chunk at `pos`. */
  method WriteLength(chunk: array<byte>, pos: nat, totalLen: nat)
    requires pos + 8 <= chunk.Length && totalLen < UINT64_LIMIT
    modifies chunk
    ensures chunk[..] == Splice(old(chunk[..]), pos, BigEndian(8 * totalLen, 8))
  {
    hide LowByte, BigEndian, ShiftLeft3, ShiftRight5, ShiftRight8;
    ghost var before := chunk[..];
    ghost var field := BigEndian(8 * totalLen, 8);
    var len: nat := totalLen;
    chunk[pos + 7] := LowByte(ShiftLeft3(len));
    len := ShiftRight5(len);
    LengthFieldSplits(totalLen);
    var i := 6;
    while i >= 0
      invariant -1 <= i <= 6
      invariant forall m :: 0 <= m < chunk.Length ==>
        chunk[m] == if pos + i < m < pos + 8 then field[m - pos] else before[m]
      invariant field[..i + 1] == BigEndian(len, i + 1)
    {
      FieldStep(len, i);
      chunk[pos + i] := LowByte(len);
      assert field[..i + 1][i] == LowByte(len) && field[..i] == field[..i + 1][..i];
      len := ShiftRight8(len);
      i := i - 1;
    }
    SpliceByElement(before, chunk[..], pos, field);
  }

  lemma FieldStep(n: nat, count: nat)
    ensures BigEndian(n, count + 1) == BigEndian(ShiftRight8(n), count) + [LowByte(n)]
  {
    hide LowByte;
  }

  // Shifting left by three and taking a byte, then shifting right by five, drops one byte of 8n.
  lemma LengthFieldSplits(n: nat)
    requires n < UINT64_LIMIT
    ensures BigEndian(8 * n, 8) == BigEndian(ShiftRight5(n), 7) + [LowByte(ShiftLeft3(n))]
  {
    assert 8 * n / 256 == n / 32;
    LowByteWraps(8 * n);
    hide LowByte;
  }

  lemma LowByteWraps(n: nat)
    ensures LowByte(n % UINT64_LIMIT) == LowByte(n)
  {
    ModuloInSteps(n);
  }

  lemma ModuloInSteps(n: nat)
    ensures n % UINT64_LIMIT % 256 == n % 256
  {
    assert n == n % UINT64_LIMIT + 256 * (72057594037927936 * (n / UINT64_LIMIT));
  }

  // --------------------------------------------------------------------------
  // Padding, in one chunk or in two
  // --------------------------------------------------------------------------

  lemma RestOfChunk(length: nat, pos: nat)
    requires pos <= length && pos < CHUNK_LEN && (length - pos) % CHUNK_LEN == 0
    ensures length % CHUNK_LEN == pos
    ensures ZeroCount(length) == if pos <= 55 then 55 - pos else 119 - pos
  {
    assert length == CHUNK_LEN * ((length - pos) / CHUNK_LEN) + pos;
  }

  lemma ConcatRegroups(head: seq<byte>, tail: seq<byte>, one: seq<byte>, z: seq<byte>, z': seq<byte>, field: seq<byte>)
    ensures (head + tail) + (one + (z + z') + field) == head + ((tail + one + z) + (z' + field))
  {}

  // The padded message, when `head` holds its full chunks and `tail` the bytes after them.
  lemma PaddedMessage(head: seq<byte>, tail: seq<byte>, z: nat, z': nat)
    requires |head| % CHUNK_LEN == 0 && |tail| < CHUNK_LEN
    requires z + z' == if |tail| <= 55 then 55 - |tail| else 119 - |tail|
    ensures head + tail + Padding(|head + tail|)
         == head + ((tail + [0x80] + ZeroBytes(z)) + (ZeroBytes(z') + BigEndian(8 * |head + tail|, 8)))
  {
    hide BigEndian, ZeroCount;
    RestOfChunk(|head + tail|, |tail|);
    assert ZeroBytes(z + z') == ZeroBytes(z) + ZeroBytes(z');
    ConcatRegroups(head, tail, [0x80], ZeroBytes(z), ZeroBytes(z'), BigEndian(8 * |head + tail|, 8));
  }

  // There is room for the length field behind the one bit.
  lemma ClosesInOneChunk(x: Hash, buffer: seq<byte>, pos: nat, m: seq<byte>, last: Chunk)
    requires |buffer| == CHUNK_LEN && Absorbed(x, buffer, pos, m) && pos <= 55
    requires last == (buffer[..pos] + [0x80]) + (ZeroBytes(55 - pos) + BigEndian(8 * |m|, 8))
    ensures Digest(Compress(x, last)) == Sha256(m)
  {
    hide HashChunks, Compress, Digest, BigEndian, Padding;
    var head, tail := m[..|m| - pos], m[|m| - pos..];
    assert m == head + tail;
    PaddedMessage(head, tail, 0, 55 - pos);
    assert tail + [0x80] + ZeroBytes(0) == buffer[..pos] + [0x80];
    HashChunksSplits(INITIAL, head, last);
    HashOneChunk(x, last);
  }

  // There is not: the one bit and zeros fill a chunk, and zeros and the length field another.
  lemma ClosesInTwoChunks(x: Hash, buffer: seq<byte>, pos: nat, m: seq<byte>, first: Chunk, last: Chunk)
    requires |buffer| == CHUNK_LEN && Absorbed(x, buffer, pos, m) && pos > 55
    requires first == buffer[..pos] + [0x80] + ZeroBytes(63 - pos)
    requires last == ZeroBytes(56) + BigEndian(8 * |m|, 8)
    ensures Digest(Compress(Compress(x, first), last)) == Sha256(m)
  {
    hide HashChunks, Compress, Digest, BigEndian, Padding;
    var head, tail := m[..|m| - pos], m[|m| - pos..];
    assert m == head + tail;
    PaddedMessage(head, tail, 63 - pos, 56);
    HashChunksSplits(INITIAL, head, first + last);
    HashChunksSplits(x, first, last);
    HashOneChunk(x, first);
    HashOneChunk(Compress(x, first), last);
  }

  // The length field holds the low 64 bits of the bit length, so a counter that wraps at 2^64 will do.
  lemma FieldOfWrappedLength(n: nat)
    ensures BigEndian(8 * (n % UINT64_LIMIT), 8) == BigEndian(8 * n, 8)
  {
    hide BigEndian;
    assert Power256(8) == UINT64_LIMIT;
    var q := n / UINT64_LIMIT;
    assert 8 * n == 8 * (n % UINT64_LIMIT) + (8 * q) * UINT64_LIMIT;
    BigEndianWraps(8 * (n % UINT64_LIMIT), 8 * q, 8);
  }

  // --------------------------------------------------------------------------
  // The context
  // --------------------------------------------------------------------------

  class Context {
    const hash: array<byte>
    const chunk: array<byte>
    const h: array<word>
    var chunkPos: nat
    var spaceLeft: nat
    var totalLen: nat
    ghost var written: seq<byte>

    ghost predicate Separate()
      reads this
    {
      hash.Length >= HASH_LEN && chunk.Length == CHUNK_LEN && h.Length == 8 && hash != chunk
    }

    /** The buffer and the running hash stand for everything in `written`. */
    ghost predicate Loaded()
      reads this, chunk, h
    {
      && Separate()
      && 1 <= spaceLeft <= CHUNK_LEN && chunkPos == CHUNK_LEN - spaceLeft
      && Absorbed(HashOf(h[..]), chunk[..], chunkPos, written)
    }

    ghost predicate Valid()
      reads this, chunk, h
    {
      Loaded() && totalLen == |written| % UINT64_LIMIT
    }

    /** `sha_256_init`: an empty message, whose hash will be delivered in `output`. */
    constructor (output: array<byte>)
      requires output.Length >= HASH_LEN
      ensures Valid() && written == []
      ensures hash == output && fresh(chunk) && fresh(h)
    {
      hash := output;
      chunk := new byte[CHUNK_LEN];
      h := new word[8] [0x6a09e667, 0xbb67ae85, 0x3c6ef372, 0xa54ff53a, 0x510e527f, 0x9b05688c, 0x1f83d9ab, 0x5be0cd19];
      chunkPos := 0;
      spaceLeft := CHUNK_LEN;
      totalLen := 0;
      written := [];
    }

    /** The general case of the loop of `sha_256_write`: bytes that fit into the buffer. */
    method Fill(d: seq<byte>)
      requires Loaded() && |d| <= spaceLeft
      modifies this`chunkPos, this`spaceLeft, this`written, chunk, h
      ensures Loaded() && written == old(written) + d
    {
      hide Absorbed, Compress, HashOf;
      ghost var before, x := chunk[..], HashOf(h[..]);
      CopyInto(chunk, chunkPos, d);
      spaceLeft := spaceLeft - |d|;
      if spaceLeft == 0 {
        AbsorbsChunk(x, before, chunk[..], chunkPos, written, d, chunk[..]);
        ConsumeChunk(h, chunk[..]);
        chunkPos := 0;
        spaceLeft := CHUNK_LEN;
      } else {
        AbsorbsPart(x, before, chunk[..], chunkPos, written, d);
        chunkPos := chunkPos + |d|;
      }
      written := written + d;
    }

    /** The fast case of the loop of `sha_256_write`: a whole chunk while the buffer is empty. */
    method TakeChunk(block: Chunk)
      requires Loaded() && spaceLeft == CHUNK_LEN
      modifies this`written, h
      ensures Loaded() && written == old(written) + block
    {
      hide Absorbed, Compress, HashOf;
      assert block == chunk[..0] + block;
      AbsorbsChunk(HashOf(h[..]), chunk[..], chunk[..], 0, written, block, block);
      ConsumeChunk(h, block);
      written := written + block;
    }

    /** `sha_256_write`: the message grows by `data`. */
    method Write(data: seq<byte>)
      requires Valid()
      modifies this, chunk, h
      ensures Valid() && written == old(written) + data
    {
      hide Absorbed, HashOf;
      totalLen := (totalLen + |data|) % UINT64_LIMIT;
      LengthsAdd(|written|, |data|);
      var p: nat, len: nat := 0, |data|;
      while len > 0
        invariant p + len == |data|
        invariant Loaded() && written == old(written) + data[..p]
        invariant totalLen == (|old(written)| + |data|) % UINT64_LIMIT
        decreases len
      {
        if spaceLeft == CHUNK_LEN && len >= CHUNK_LEN {
          TakeChunk(data[p..p + CHUNK_LEN]);
          assert data[..p] + data[p..p + CHUNK_LEN] == data[..p + CHUNK_LEN];
          len := len - CHUNK_LEN;
          p := p + CHUNK_LEN;
          continue;
        }
        var consumed := if len < spaceLeft then len else spaceLeft;
        Fill(data[p..p + consumed]);
        assert data[..p] + data[p..p + consumed] == data[..p + consumed];
        len := len - consumed;
        p := p + consumed;
      }
    }

    /** `sha_256_close`: pads the message and delivers its hash; the context is then spent. */
    method Close()
      requires Valid()
      modifies hash, chunk, h
      ensures hash[..] == Fips180.Sha256(written) + old(hash[HASH_LEN..])
    {
      hide Absorbed, Compress, HashOf, HashChunks, BigEndian, Digest;
      ghost var x, buffer, m := HashOf(h[..]), chunk[..], written;
      FieldOfWrappedLength(|m|);
      var pos, space := chunkPos, spaceLeft;
      chunk[pos] := 0x80;
      pos := pos + 1;
      space := space - 1;
      ghost var first := chunk[..];
      if space < TOTAL_LEN_LEN {
        SetZero(chunk, pos, space);
        first := chunk[..];
        ConsumeChunk(h, chunk[..]);
        pos := 0;
        space := CHUNK_LEN;
      }
      var left := space - TOTAL_LEN_LEN;
      SetZero(chunk, pos, left);
      pos := pos + left;
      WriteLength(chunk, pos, totalLen);
      if chunkPos > 55 {
        ClosesInTwoChunks(x, buffer, chunkPos, m, first, chunk[..]);
      } else {
        ClosesInOneChunk(x, buffer, chunkPos, m, chunk[..]);
      }
      ConsumeChunk(h, chunk[..]);
      Deliver(h, hash);
    }
  }

  lemma LengthsAdd(m: nat, n: nat)
    ensures (m % UINT64_LIMIT + n) % UINT64_LIMIT == (m + n) % UINT64_LIMIT
  {
    var q := m / UINT64_LIMIT;
    assert m + n == (m % UINT64_LIMIT + n) + UINT64_LIMIT * q;
  }

  /** One word, most significant byte first. */
  method StoreWord(hash: array<byte>, j: nat, x: word)
    requires j + 4 <= hash.Length
    modifies hash
    ensures hash[..] == old(hash[..j]) + ToBytes(x) + old(hash[j + 4..])
  {
    hash[j] := ((x >> 24) & 0xff) as byte;
    hash[j + 1] := ((x >> 16) & 0xff) as byte;
    hash[j + 2] := ((x >> 8) & 0xff) as byte;
    hash[j + 3] := (x & 0xff) as byte;
  }

  /** The last loop of `sha_256_close`: the hash value, word by word. */
  method Deliver(h: array<word>, hash: array<byte>)
    requires h.Length == 8 && hash.Length >= HASH_LEN
    modifies hash
    ensures hash[..] == Digest(HashOf(h[..])) + old(hash[HASH_LEN..])
  {
    hide ToBytes, WordBytes;
    var i: nat, j: nat := 0, 0;
    NoWords();
    while i < 8
      invariant i <= 8 && j == 4 * i
      invariant hash[..] == WordBytes(h[..i]) + old(hash[j..])
    {
      StoreWord(hash, j, h[i]);
      NextWord(h[..], i);
      j := j + 4;
      i := i + 1;
    }
    assert h[..8] == [h[0], h[1], h[2], h[3], h[4], h[5], h[6], h[7]];
  }

  lemma NoWords()
    ensures WordBytes([]) == []
  {}

  lemma NextWord(h: seq<word>, i: nat)
    requires i < |h|
    ensures WordBytes(h[..i + 1]) == WordBytes(h[..i]) + ToBytes(h[i])
  {
    hide ToBytes;
    assert h[..i + 1][..i] == h[..i];
  }

  /** One write for each piece, in order, gives the hash of the pieces joined together. */
  method HashPieces(pieces: seq<seq<byte>>, output: array<byte>)
    requires output.Length >= HASH_LEN
    modifies output
    ensures output[..] == Fips180.Sha256(Concat(pieces)) + old(output[HASH_LEN..])
  {
    hide Fips180.Sha256, Concat, Absorbed, HashOf;
    var sha := new Context(output);
    var i: nat := 0;
    NothingWritten(pieces);
    while i < |pieces|
      invariant i <= |pieces|
      invariant sha.Valid() && sha.hash == output && fresh(sha) && fresh(sha.chunk) && fresh(sha.h)
      invariant sha.written == Concat(pieces[..i])
      invariant output[..] == old(output[..])
    {
      ConcatAppends(pieces[..i], pieces[i]);
      assert pieces[..i + 1] == pieces[..i] + [pieces[i]];
      sha.Write(pieces[i]);
      i := i + 1;
    }
    assert pieces[..i] == pieces;
    sha.Close();
  }

  lemma NothingWritten(pieces: seq<seq<byte>>)
    ensures Concat(pieces[..0]) == []
  {}
}
