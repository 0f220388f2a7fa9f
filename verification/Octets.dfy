/** The numbers that fit into a byte. */
module ByteNumbers {

  lemma ByteValue(x: nat)
    requires x < 256
    ensures (x as bv8) as nat == x
  {}
}

/** Eight-bit bytes, as every routine of the boot loader handles them. */
module Octets {

  type byte = bv8

  function Xor(x: byte, y: byte): byte {
    x ^ y
  }

  function Concat(pieces: seq<seq<byte>>): seq<byte> {
    if pieces == [] then [] else pieces[0] + Concat(pieces[1..])
  }

  lemma {:induction false} ConcatAppends(pieces: seq<seq<byte>>, last: seq<byte>)
    ensures Concat(pieces + [last]) == Concat(pieces) + last
  {
    if pieces == [] {
      assert [last][1..] == [];
    } else {
      assert (pieces + [last])[1..] == pieces[1..] + [last];
      ConcatAppends(pieces[1..], last);
    }
  }

  lemma XorCommutes(a: byte, b: byte)
    ensures Xor(a, b) == Xor(b, a)
  {}

  // --------------------------------------------------------------------------
  // Overwriting part of a buffer
  // --------------------------------------------------------------------------

  function Splice<T>(s: seq<T>, at: nat, block: seq<T>): (r: seq<T>)
    requires at + |block| <= |s|
    ensures |r| == |s|
  {
    s[..at] + block + s[at + |block|..]
  }

  lemma SpliceByElement(before: seq<byte>, after: seq<byte>, at: nat, block: seq<byte>)
    requires at + |block| <= |before| == |after|
    requires forall m :: 0 <= m < |after| ==> after[m] == if at <= m < at + |block| then block[m - at] else before[m]
    ensures after == Splice(before, at, block)
  {}

  lemma SpliceReplaces(s: seq<byte>, at: nat, b: seq<byte>, c: seq<byte>)
    requires at + |b| <= |s| && |b| == |c|
    ensures Splice(s, at, b)[at..at + |b|] == b
    ensures Splice(Splice(s, at, b), at, c) == Splice(s, at, c)
  {}

  lemma SpliceNothing(s: seq<byte>, at: nat)
    requires at <= |s|
    ensures Splice(s, at, []) == s
  {}

  lemma SpliceAppends(s: seq<byte>, at: nat, a: seq<byte>, b: seq<byte>)
    requires at + |a| + |b| <= |s|
    ensures Splice(Splice(s, at, a), at + |a|, b) == Splice(s, at, a + b)
    ensures Splice(s, at, a)[at + |a|..] == s[at + |a|..]
  {
    assert Splice(s, at, a)[at + |a|..] == s[at + |a|..];
  }

  lemma SliceOfSlice(s: seq<byte>, at: nat, n: nat, i: nat, k: nat)
    requires at + n <= |s| && i + k <= n
    ensures s[at..at + n][i..i + k] == s[at + i..at + i + k]
  {
    var a, b := s[at..at + n][i..i + k], s[at + i..at + i + k];
    assert |a| == |b|;
    forall j | 0 <= j < k ensures a[j] == b[j] {
      assert a[j] == s[at..at + n][i + j];
    }
  }

  lemma SliceOfTail(s: seq<byte>, at: nat, k: nat)
    requires at + k <= |s|
    ensures s[at..][..k] == s[at..at + k]
  {
    assert s[at..][..k] == s[at..at + k];
  }

  /** The firmware's `CopyMem` between two separate buffers. */
  method CopyMem(dst: array<byte>, to: nat, src: array<byte>, from: nat, n: nat)
    requires to + n <= dst.Length && from + n <= src.Length && dst != src
    modifies dst
    ensures dst[..] == Splice(old(dst[..]), to, src[from..from + n])
    ensures n == dst.Length ==> dst[..] == src[from..from + n]
  {
    forall k | 0 <= k < n {
      dst[to + k] := src[from + k];
    }
    assert dst[to..to + n] == src[from..from + n];
  }
}
