/**
 * The decryption context and the in-place decryption of a buffer of whole blocks.
 */
module AesCbc {
  import opened Octets
  import opened Aes
  import Fips197
  import Cbc

  const REPORT_INTERVAL := 4194304

  // --------------------------------------------------------------------------
  // Progress reports
  // --------------------------------------------------------------------------

  /** The places reported before the block at offset `i`: every multiple of 2^22 below it. */
  function ReportsBefore(i: nat): (r: seq<nat>)
    decreases i
  {
    if i == 0 then []
    else if (i - 1) % REPORT_INTERVAL == 0 then ReportsBefore(i - 1) + [i - 1]
    else ReportsBefore(i - 1)
  }

  /** All the places reported for a buffer of `length` bytes. */
  function Reports(length: nat): seq<nat> {
    ReportsBefore(length) + [length]
  }

  lemma {:induction false} ReportsBeforeBounded(i: nat)
    ensures forall k :: 0 <= k < |ReportsBefore(i)| ==> ReportsBefore(i)[k] < i
    ensures forall j, k :: 0 <= j < k < |ReportsBefore(i)| ==> ReportsBefore(i)[j] < ReportsBefore(i)[k]
  {
    if i > 0 {
      ReportsBeforeBounded(i - 1);
    }
  }

  /** Reports strictly increase, and only the last one is the full length. */
  lemma ReportsIncrease(length: nat)
    ensures forall j, k :: 0 <= j < k < |Reports(length)| ==> Reports(length)[j] < Reports(length)[k]
    ensures forall k :: 0 <= k < |Reports(length)| ==>
      (Reports(length)[k] == length <==> k == |Reports(length)| - 1)
  {
    ReportsBeforeBounded(length);
  }

  /** What is reported is the multiples of 2^22 below the length, and the length itself. */
  lemma ReportsExactly(length: nat, n: nat)
    ensures n in Reports(length) <==> n == length || (n < length && n % 4194304 == 0)
  {
    ReportsBeforeExactly(length, n);
  }

  lemma {:induction false} ReportsBeforeExactly(i: nat, n: nat)
    ensures n in ReportsBefore(i) <==> n < i && n % 4194304 == 0
  {
    if i > 0 {
      ReportsBeforeExactly(i - 1, n);
    }
  }

  lemma IntervalIsWholeBlocks(x: int)
    ensures x % REPORT_INTERVAL == 0 ==> x % 16 == 0
  {
    assert x % REPORT_INTERVAL == 0 ==> x == 16 * (262144 * (x / REPORT_INTERVAL));
  }

  lemma NotAnInterval(i: nat, m: nat)
    requires i % 16 == 0 && 1 <= m < 16
    ensures (i + m) % REPORT_INTERVAL != 0
  {
    IntervalIsWholeBlocks(i + m);
    assert (i + m) % 16 == m;
  }

  lemma ReportsStep(i: nat)
    ensures ReportsBefore(i + 1) == if i % REPORT_INTERVAL == 0 then ReportsBefore(i) + [i] else ReportsBefore(i)
  {}

  // Between two block boundaries only the first offset can be a multiple of 2^22.
  lemma {:induction false} ReportsOverBlock(i: nat, n: nat)
    requires i % 16 == 0 && 1 <= n <= 16
    ensures ReportsBefore(i + n) == if i % REPORT_INTERVAL == 0 then ReportsBefore(i) + [i] else ReportsBefore(i)
    decreases n
  {
    hide ReportsBefore;
    ReportsStep(i + n - 1);
    if n > 1 {
      ReportsOverBlock(i, n - 1);
      NotAnInterval(i, n - 1);
    }
  }

  // --------------------------------------------------------------------------
  // The context
  // --------------------------------------------------------------------------

  method XorWithIv(buf: array<byte>, at: nat, iv: array<byte>)
    requires at + BLOCK_LEN <= buf.Length && iv.Length == BLOCK_LEN && iv != buf
    modifies buf
    ensures buf[..] == Splice(old(buf[..]), at, Fips197.AddBlocks(BlockAt(old(buf[..]), at), iv[..]))
    ensures forall m :: at <= m < at + BLOCK_LEN ==> buf[m] == Xor(old(buf[m]), iv[m - at])
  {
    hide Xor;
    ghost var before := buf[..];
    ghost var added := Fips197.AddBlocks(BlockAt(before, at), iv[..]);
    var i: nat := 0;
    while i < BLOCK_LEN
      invariant i <= BLOCK_LEN
      invariant forall m :: 0 <= m < buf.Length ==> buf[m] == if at <= m < at + i then added[m - at] else before[m]
    {
      buf[at + i] := Xor(buf[at + i], iv[i]);
      i := i + 1;
    }
    SpliceByElement(before, buf[..], at, added);
  }

  // Decrypting the block at offset `i` extends what has been decrypted by one block.
  lemma NextBlock(before: seq<byte>, at: nat, c: seq<byte>, i: nat, w: Fips197.Schedule, iv: Fips197.Block)
    requires at + |c| <= |before| && c == before[at..at + |c|]
    requires |c| % BLOCK_LEN == 0 && i % BLOCK_LEN == 0 && i < |c|
    ensures i + BLOCK_LEN <= |c| && (i + BLOCK_LEN) % BLOCK_LEN == 0
    ensures var done, next := Splice(before, at, Cbc.Decrypt(w, iv, c[..i])), c[..i + BLOCK_LEN];
      var block, chain := c[i..i + BLOCK_LEN], Cbc.LastBlock(iv, c[..i]);
      && BlockAt(done, at + i) == block
      && Splice(done, at + i, Fips197.AddBlocks(Fips197.InvCipher(w, block), chain))
         == Splice(before, at, Cbc.Decrypt(w, iv, next))
      && Cbc.LastBlock(iv, next) == block
  {
    hide Fips197.InvCipher, Fips197.AddBlocks;
    var head, block := c[..i], c[i..i + BLOCK_LEN];
    assert c[..i + BLOCK_LEN] == head + block;
    Cbc.DecryptSplits(w, iv, head, block);
    assert block[..16] == block;
    var m, x := Cbc.Decrypt(w, iv, head), Fips197.AddBlocks(Fips197.InvCipher(w, block), Cbc.LastBlock(iv, head));
    assert Cbc.Decrypt(w, iv, head + block) == m + x;
    SpliceAppends(before, at, m, x);
    hide Splice;
    SliceOfSlice(before, at, |c|, i, BLOCK_LEN);
    SliceOfTail(before, at + i, BLOCK_LEN);
    SliceOfTail(Splice(before, at, m), at + i, BLOCK_LEN);
  }

  class Context {
    const roundKey: array<byte>
    const iv: array<byte>

    ghost predicate Valid()
      reads this
    {
      roundKey.Length == KEY_EXP_SIZE && iv.Length == BLOCK_LEN && roundKey != iv
    }

    ghost function Schedule(): Fips197.Schedule
      requires Valid()
      reads this, roundKey
    {
      ScheduleOf(roundKey[..])
    }

    /** `AES_init_ctx_iv` on a fresh context. */
    constructor (key: Fips197.Key, initial: Fips197.Block)
      ensures Valid() && fresh(roundKey) && fresh(iv)
      ensures Schedule() == Fips197.ExpandedKey(key)
      ensures iv[..] == initial
    {
      roundKey := new byte[KEY_EXP_SIZE];
      iv := new byte[BLOCK_LEN](i requires 0 <= i < BLOCK_LEN => initial[i]);
      new;
      assert iv[..] == initial;
      KeyExpansion(roundKey, key);
      HeldWordsAreSchedule(roundKey[..], key);
    }

    /**
     * `AES_CBC_decrypt_buffer`: decrypts `buf[at..at + length]` in place, carries the chaining
     * value over to the next call, and lists what the progress hook is told, if there is one.
     */
    method DecryptBuffer(buf: array<byte>, at: nat, length: nat, progress: bool) returns (reports: seq<nat>)
      requires Valid() && buf != roundKey && buf != iv
      requires length % BLOCK_LEN == 0 && at + length <= buf.Length
      modifies buf, iv
      ensures buf[..] == Splice(old(buf[..]), at, Cbc.Decrypt(old(Schedule()), old(iv[..]), old(buf[at..at + length])))
      ensures iv[..] == Cbc.LastBlock(old(iv[..]), old(buf[at..at + length]))
      ensures reports == if progress then Reports(length) else []
    {
      hide Fips197.InvCipher, Fips197.AddBlocks, ScheduleOf, Splice;
      ghost var before := buf[..];
      ghost var w, iv0 := Schedule(), iv[..];
      ghost var c := before[at..at + length];
      var storeNextIv := new byte[BLOCK_LEN];
      reports := [];
      SpliceNothing(before, at);
      var i: nat := 0;
      while i < length
        invariant i <= length && i % BLOCK_LEN == 0
        invariant roundKey[..] == old(roundKey[..])
        invariant storeNextIv.Length == BLOCK_LEN && fresh(storeNextIv)
        invariant buf[..] == Splice(before, at, Cbc.Decrypt(w, iv0, c[..i]))
        invariant iv[..] == Cbc.LastBlock(iv0, c[..i])
        invariant reports == if progress then ReportsBefore(i) else []
      {
        if progress && i % REPORT_INTERVAL == 0 {
          reports := reports + [i];
        }
        ReportsOverBlock(i, 16);
        NextBlock(before, at, c, i, w, iv0);
        ghost var done, block: Fips197.Block := buf[..], c[i..i + BLOCK_LEN];
        ghost var plain := Fips197.InvCipher(w, block);

        CopyMem(storeNextIv, 0, buf, at + i, BLOCK_LEN);
        Aes.InvCipher(buf, at + i, roundKey);
        SpliceReplaces(done, at + i, plain, Fips197.AddBlocks(plain, iv[..]));
        XorWithIv(buf, at + i, iv);
        CopyMem(iv, 0, storeNextIv, 0, BLOCK_LEN);
        i := i + BLOCK_LEN;
      }
      assert c[..length] == c;
      if progress {
        reports := reports + [length];
      }
    }
  }

  // --------------------------------------------------------------------------
  // A buffer in pieces, and a whole buffer
  // --------------------------------------------------------------------------

  function Total(lengths: seq<nat>): nat {
    if lengths == [] then 0 else Total(lengths[..|lengths| - 1]) + lengths[|lengths| - 1]
  }

  lemma NoTotal(lengths: seq<nat>)
    ensures Total(lengths[..0]) == 0
  {}

  lemma {:induction false} TotalIsWholeBlocks(lengths: seq<nat>)
    requires forall k :: 0 <= k < |lengths| ==> lengths[k] % BLOCK_LEN == 0
    ensures Total(lengths) % BLOCK_LEN == 0
  {
    if lengths != [] {
      TotalIsWholeBlocks(lengths[..|lengths| - 1]);
    }
  }

  lemma {:induction false} TotalGrows(lengths: seq<nat>, k: nat)
    requires k <= |lengths|
    ensures Total(lengths[..k]) <= Total(lengths)
    ensures k < |lengths| ==> Total(lengths[..k + 1]) == Total(lengths[..k]) + lengths[k]
  {
    if k < |lengths| {
      var rest := lengths[..|lengths| - 1];
      assert lengths[..k] == rest[..k] && lengths[..k + 1][..k] == lengths[..k];
      TotalGrows(rest, k);
    } else {
      assert lengths[..k] == lengths;
    }
  }

  // Decrypting the piece at offset `i` extends what has been decrypted by that piece.
  lemma NextPiece(before: seq<byte>, at: nat, c: seq<byte>, i: nat, n: nat, w: Fips197.Schedule, iv: Fips197.Block)
    requires at + |c| <= |before| && c == before[at..at + |c|]
    requires i % BLOCK_LEN == 0 && n % BLOCK_LEN == 0 && i + n <= |c|
    ensures (i + n) % BLOCK_LEN == 0
    ensures var done, chain := Splice(before, at, Cbc.Decrypt(w, iv, c[..i])), Cbc.LastBlock(iv, c[..i]);
      && done[at + i..at + i + n] == c[i..i + n]
      && Splice(done, at + i, Cbc.Decrypt(w, chain, c[i..i + n])) == Splice(before, at, Cbc.Decrypt(w, iv, c[..i + n]))
      && Cbc.LastBlock(chain, c[i..i + n]) == Cbc.LastBlock(iv, c[..i + n])
  {
    hide Cbc.Decrypt, Cbc.LastBlock, Splice;
    var head, piece := c[..i], c[i..i + n];
    assert c[..i + n] == head + piece;
    Cbc.DecryptSplits(w, iv, head, piece);
    SpliceAppends(before, at, Cbc.Decrypt(w, iv, head), Cbc.Decrypt(w, Cbc.LastBlock(iv, head), piece));
    SliceOfSlice(before, at, |c|, i, n);
    SliceOfTail(before, at + i, n);
    SliceOfTail(Splice(before, at, Cbc.Decrypt(w, iv, head)), at + i, n);
  }

  /** Any cut of a buffer at block boundaries, one call for each piece, acts as one call on the whole. */
  method DecryptInPieces(ctx: Context, buf: array<byte>, at: nat, lengths: seq<nat>)
    requires ctx.Valid() && buf != ctx.roundKey && buf != ctx.iv
    requires forall k :: 0 <= k < |lengths| ==> lengths[k] % BLOCK_LEN == 0
    requires at + Total(lengths) <= buf.Length
    modifies buf, ctx.iv
    ensures Total(lengths) % BLOCK_LEN == 0
    ensures var c := old(buf[at..at + Total(lengths)]);
      && buf[..] == Splice(old(buf[..]), at, Cbc.Decrypt(old(ctx.Schedule()), old(ctx.iv[..]), c))
      && ctx.iv[..] == Cbc.LastBlock(old(ctx.iv[..]), c)
  {
    hide Cbc.Decrypt, Cbc.LastBlock, ScheduleOf, Splice, Total;
    TotalIsWholeBlocks(lengths);
    TotalGrows(lengths, 0);
    NoTotal(lengths);
    ghost var before, w, iv0 := buf[..], ctx.Schedule(), ctx.iv[..];
    ghost var c := before[at..at + Total(lengths)];
    Cbc.DecryptNothing(w, iv0);
    SpliceNothing(before, at);
    var done: nat, k: nat := 0, 0;
    while k < |lengths|
      invariant k <= |lengths| && done == Total(lengths[..k]) <= |c| && done % BLOCK_LEN == 0
      invariant ctx.roundKey[..] == old(ctx.roundKey[..])
      invariant buf[..] == Splice(before, at, Cbc.Decrypt(w, iv0, c[..done]))
      invariant ctx.iv[..] == Cbc.LastBlock(iv0, c[..done])
    {
      TotalGrows(lengths, k);
      TotalGrows(lengths, k + 1);
      NextPiece(before, at, c, done, lengths[k], w, iv0);
      var _ := ctx.DecryptBuffer(buf, at + done, lengths[k], false);
      done := done + lengths[k];
      k := k + 1;
    }
    assert lengths[..k] == lengths && c[..done] == c;
  }

  /**
   * What a worker runs for its order: a context of its own, set up with the order's key and IV,
   * and one decryption of the order's bytes. A CBC encryption is restored to its plaintext.
   */
  method CryptOrder(buf: array<byte>, at: nat, length: nat, key: Fips197.Key, iv: Fips197.Block, progress: bool)
    returns (reports: seq<nat>)
    requires length % BLOCK_LEN == 0 && at + length <= buf.Length
    modifies buf
    ensures buf[..] == Splice(old(buf[..]), at, Cbc.Decrypt(Fips197.ExpandedKey(key), iv, old(buf[at..at + length])))
    ensures forall m ::
      Cbc.WholeBlocks(m) && old(buf[at..at + length]) == Cbc.Encrypt(Fips197.ExpandedKey(key), iv, m) ==>
      buf[..] == Splice(old(buf[..]), at, m)
    ensures reports == if progress then Reports(length) else []
  {
    hide Cbc.Decrypt, Cbc.Encrypt, Fips197.ExpandedKey, Splice;
    var ctx := new Context(key, iv);
    reports := ctx.DecryptBuffer(buf, at, length, progress);
    forall m | Cbc.WholeBlocks(m) {
      Cbc.DecryptUndoesEncrypt(Fips197.ExpandedKey(key), iv, m);
    }
  }
}
