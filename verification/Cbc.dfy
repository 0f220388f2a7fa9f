/**
 * Cipher block chaining (section 6.2 of NIST SP 800-38A) over the cipher of FIPS 197, on
 * messages of whole blocks.
 */
module Cbc {
  import opened Octets
  import opened Fips197

  predicate WholeBlocks(m: seq<byte>) {
    |m| % 16 == 0
  }

  /** The chaining value after the ciphertext `c`: its last block, or the IV when there is none. */
  function LastBlock(iv: Block, c: seq<byte>): Block
    requires WholeBlocks(c)
  {
    if c == [] then iv else c[|c| - 16..]
  }

  function Encrypt(w: Schedule, iv: Block, m: seq<byte>): (c: seq<byte>)
    requires WholeBlocks(m)
    ensures |c| == |m|
    decreases |m|
  {
    if m == [] then [] else
    var block := Cipher(w, AddBlocks(m[..16], iv));
    block + Encrypt(w, block, m[16..])
  }

  function Decrypt(w: Schedule, iv: Block, c: seq<byte>): (m: seq<byte>)
    requires WholeBlocks(c)
    ensures |m| == |c|
    decreases |c|
  {
    if c == [] then [] else
    AddBlocks(InvCipher(w, c[..16]), iv) + Decrypt(w, c[..16], c[16..])
  }

  lemma DecryptNothing(w: Schedule, iv: Block)
    ensures Decrypt(w, iv, []) == [] && LastBlock(iv, []) == iv
  {}

  /** Decryption undoes encryption, for every schedule, IV and number of blocks. */
  lemma {:induction false} DecryptUndoesEncrypt(w: Schedule, iv: Block, m: seq<byte>)
    requires WholeBlocks(m)
    ensures Decrypt(w, iv, Encrypt(w, iv, m)) == m
    decreases |m|
  {
    hide Cipher, InvCipher, AddBlocks;
    if m != [] {
      var block := Cipher(w, AddBlocks(m[..16], iv));
      var c := Encrypt(w, iv, m);
      assert c[..16] == block && c[16..] == Encrypt(w, block, m[16..]);
      InvCipherUndoesCipher(w, AddBlocks(m[..16], iv));
      AddBlocksCancels(m[..16], iv);
      DecryptUndoesEncrypt(w, block, m[16..]);
    }
  }

  /** Encryption undoes decryption: no two ciphertexts decrypt to the same message. */
  lemma {:induction false} EncryptUndoesDecrypt(w: Schedule, iv: Block, c: seq<byte>)
    requires WholeBlocks(c)
    ensures Encrypt(w, iv, Decrypt(w, iv, c)) == c
    decreases |c|
  {
    hide Cipher, InvCipher, AddBlocks;
    if c != [] {
      var block := InvCipher(w, c[..16]);
      var m := Decrypt(w, iv, c);
      assert m[..16] == AddBlocks(block, iv) && m[16..] == Decrypt(w, c[..16], c[16..]);
      AddBlocksCancels(block, iv);
      CipherUndoesInvCipher(w, c[..16]);
      EncryptUndoesDecrypt(w, c[..16], c[16..]);
    }
  }

  lemma LastBlockSplits(iv: Block, c: seq<byte>, d: seq<byte>)
    requires WholeBlocks(c) && WholeBlocks(d)
    ensures WholeBlocks(c + d)
    ensures LastBlock(iv, c + d) == LastBlock(LastBlock(iv, c), d)
  {
    if d == [] {
      assert c + d == c;
    } else {
      assert |d| >= 16;
      assert (c + d)[|c| + |d| - 16..] == d[|d| - 16..];
    }
  }

  lemma DecryptFirst(w: Schedule, iv: Block, first: Block, rest: seq<byte>)
    requires WholeBlocks(rest)
    ensures WholeBlocks(first + rest)
    ensures Decrypt(w, iv, first + rest) == AddBlocks(InvCipher(w, first), iv) + Decrypt(w, first, rest)
  {
    hide InvCipher, AddBlocks;
    assert (first + rest)[..16] == first && (first + rest)[16..] == rest;
  }

  /** A message may be cut at any block boundary if the chaining value is carried over. */
  lemma {:induction false} DecryptSplits(w: Schedule, iv: Block, c: seq<byte>, d: seq<byte>)
    requires WholeBlocks(c) && WholeBlocks(d)
    ensures WholeBlocks(c + d)
    ensures Decrypt(w, iv, c + d) == Decrypt(w, iv, c) + Decrypt(w, LastBlock(iv, c), d)
    ensures LastBlock(iv, c + d) == LastBlock(LastBlock(iv, c), d)
    decreases |c|
  {
    hide InvCipher, AddBlocks, Decrypt, LastBlock, WholeBlocks;
    LastBlockSplits(iv, c, d);
    if c == [] {
      DecryptNothing(w, iv);
      assert c + d == d && [] + Decrypt(w, iv, d) == Decrypt(w, iv, d);
    } else {
      FirstBlock(c);
      var first, rest := c[..16], c[16..];
      LastOfFirst(iv, first, rest);
      DecryptSplits(w, first, rest, d);
      DecryptFirst(w, iv, first, rest);
      DecryptFirst(w, iv, first, rest + d);
      assert c + d == first + (rest + d);
      Reassociate(AddBlocks(InvCipher(w, first), iv), Decrypt(w, first, rest), Decrypt(w, LastBlock(first, rest), d));
    }
  }

  lemma FirstBlock(c: seq<byte>)
    requires WholeBlocks(c) && c != []
    ensures |c| >= 16 && WholeBlocks(c[16..]) && c == c[..16] + c[16..]
  {}

  lemma Reassociate(a: seq<byte>, b: seq<byte>, c: seq<byte>)
    ensures a + (b + c) == (a + b) + c
  {}

  lemma LastOfFirst(iv: Block, first: Block, rest: seq<byte>)
    requires WholeBlocks(rest)
    ensures WholeBlocks(first + rest)
    ensures LastBlock(iv, first + rest) == LastBlock(first, rest)
  {
    LastBlockSplits(iv, first, rest);
    assert first[0..] == first;
  }

  /** What is decrypted, block by block: the schedule, the cipher block and the one before it. */
  lemma {:induction false} DecryptByBlock(w: Schedule, iv: Block, c: seq<byte>, i: nat)
    requires WholeBlocks(c) && 16 * i + 16 <= |c|
    ensures Decrypt(w, iv, c)[16 * i..16 * i + 16]
         == AddBlocks(InvCipher(w, c[16 * i..16 * i + 16]), if i == 0 then iv else c[16 * i - 16..16 * i])
  {
    hide InvCipher, AddBlocks;
    var before, block, after := c[..16 * i], c[16 * i..16 * i + 16], c[16 * i + 16..];
    assert c == before + (block + after);
    DecryptSplits(w, iv, before, block + after);
    assert (block + after)[..16] == block;
  }

  /** Byte j of the IV is added to byte j of the first block of the message, and to nothing else. */
  lemma IvMasksFirstBlock(w: Schedule, iv: Block, other: Block, c: seq<byte>, k: nat)
    requires WholeBlocks(c) && k < |c|
    ensures Decrypt(w, other, c)[k] ==
      if k < 16 then Xor(Xor(Decrypt(w, iv, c)[k], iv[k]), other[k]) else Decrypt(w, iv, c)[k]
  {
    hide InvCipher, Xor;
    FirstBlock(c);
    if k < 16 {
      XorReplaces(InvCipher(w, c[..16])[k], iv[k], other[k]);
    }
  }
}
