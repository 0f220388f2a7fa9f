/**
 * HMAC-SHA-256: the definition of section 2 of RFC 2104 and the routine of the boot loader.
 */
module Hmac {
  import opened Octets
  import opened Fips180
  import opened Sha256Compress
  import Sha256Stream

  function XorAll(s: seq<byte>, pad: byte): (r: seq<byte>)
    ensures |r| == |s|
  {
    seq(|s|, i requires 0 <= i < |s| => Xor(s[i], pad))
  }

  /** The key as a whole block: hashed if it is longer than a block, then filled with zeros. */
  function BlockKey(key: seq<byte>): (r: seq<byte>)
    ensures |r| == CHUNK_LEN
  {
    if |key| > CHUNK_LEN then Sha256(key) + ZeroBytes(CHUNK_LEN - HASH_LEN) else key + ZeroBytes(CHUNK_LEN - |key|)
  }

  function HmacSha256(key: seq<byte>, text: seq<byte>): (r: seq<byte>)
    ensures |r| == HASH_LEN
  {
    var k := BlockKey(key);
    Sha256(XorAll(k, 0x5c) + Sha256(XorAll(k, 0x36) + text))
  }

  /** A key longer than a block and its digest authenticate alike. */
  lemma LongKeyActsAsDigest(key: seq<byte>, text: seq<byte>)
    requires |key| > CHUNK_LEN
    ensures HmacSha256(key, text) == HmacSha256(Sha256(key), text)
  {
    hide Sha256;
  }

  /** Zero bytes at the end of a key, up to the block length, change nothing. */
  lemma ZeroExtendedKeyActsAlike(key: seq<byte>, n: nat, text: seq<byte>)
    requires |key| + n <= CHUNK_LEN
    ensures HmacSha256(key + ZeroBytes(n), text) == HmacSha256(key, text)
  {
    hide Sha256;
    assert key + ZeroBytes(n) + ZeroBytes(CHUNK_LEN - |key| - n) == key + ZeroBytes(CHUNK_LEN - |key|);
  }

  /** The definition of section 2 of RFC 2104 with both pads written out byte by byte. */
  lemma HmacByBytes(key: seq<byte>, text: seq<byte>, inner: seq<byte>, outer: seq<byte>)
    requires |key| <= CHUNK_LEN && |inner| == |outer| == 64
    requires forall j :: 0 <= j < 64 ==> inner[j] == Xor(if j < |key| then key[j] else 0, 0x36)
    requires forall j :: 0 <= j < 64 ==> outer[j] == Xor(if j < |key| then key[j] else 0, 0x5c)
    ensures HmacSha256(key, text) == Sha256(outer + Sha256(inner + text))
  {
    hide Sha256, Xor;
    var k := BlockKey(key);
    assert forall j :: 0 <= j < 64 ==> k[j] == if j < |key| then key[j] else 0;
    assert inner == XorAll(k, 0x36) && outer == XorAll(k, 0x5c);
  }

  method CalcSha256(hash: array<byte>, input: seq<byte>)
    requires hash.Length >= HASH_LEN
    modifies hash
    ensures hash[..] == Sha256(input) + old(hash[HASH_LEN..])
  {
    hide Sha256, HashOf, Sha256Stream.Absorbed;
    var sha := new Sha256Stream.Context(hash);
    sha.Write(input);
    assert [] + input == input;
    sha.Close();
  }

  method H(x: seq<byte>, y: seq<byte>, out: array<byte>)
    requires out.Length >= HASH_LEN
    modifies out
    ensures out[..] == Sha256(x + y) + old(out[HASH_LEN..])
  {
    hide Sha256, HashOf, Sha256Stream.Absorbed;
    var sha := new Sha256Stream.Context(out);
    sha.Write(x);
    sha.Write(y);
    assert [] + x + y == x + y;
    sha.Close();
  }

  /** The loop of `hmac_sha256`: both pads at once. */
  method XorPads(k: array<byte>, ipad: array<byte>, opad: array<byte>)
    requires k.Length == ipad.Length == opad.Length == CHUNK_LEN
    requires k != ipad && k != opad && ipad != opad
    requires forall j :: 0 <= j < CHUNK_LEN ==> ipad[j] == 0x36 && opad[j] == 0x5c
    modifies ipad, opad
    ensures ipad[..] == XorAll(k[..], 0x36) && opad[..] == XorAll(k[..], 0x5c)
  {
    hide Xor;
    var i: nat := 0;
    while i < CHUNK_LEN
      invariant i <= CHUNK_LEN
      invariant forall j :: 0 <= j < i ==> ipad[j] == Xor(k[j], 0x36) && opad[j] == Xor(k[j], 0x5c)
      invariant forall j :: i <= j < CHUNK_LEN ==> ipad[j] == 0x36 && opad[j] == 0x5c
    {
      XorCommutes(0x36, k[i]);
      XorCommutes(0x5c, k[i]);
      ipad[i] := Xor(ipad[i], k[i]);
      opad[i] := Xor(opad[i], k[i]);
      i := i + 1;
    }
  }

  /** `hmac_sha256`. */
  method ComputeHmac(key: seq<byte>, data: seq<byte>, out: array<byte>)
    requires out.Length >= HASH_LEN
    modifies out
    ensures out[..] == HmacSha256(key, data) + old(out[HASH_LEN..])
  {
    hide Sha256, XorAll;
    var k := new byte[CHUNK_LEN](_ => 0);
    var ipad := new byte[CHUNK_LEN](_ => 0x36);
    var opad := new byte[CHUNK_LEN](_ => 0x5c);
    var ihash := new byte[HASH_LEN];
    var ohash := new byte[HASH_LEN];

    if |key| > CHUNK_LEN {
      CalcSha256(k, key);
    } else {
      forall i | 0 <= i < |key| {
        k[i] := key[i];
      }
    }
    assert k[..] == BlockKey(key);
    XorPads(k, ipad, opad);

    H(ipad[..], data, ihash);
    assert ihash[..] == Sha256(ipad[..] + data);
    H(opad[..], ihash[..], ohash);
    assert ohash[..] == HmacSha256(key, data);
    hide HmacSha256;
    forall j | 0 <= j < HASH_LEN {
      out[j] := ohash[j];
    }
    assert out[..HASH_LEN] == ohash[..];
  }
}
