/**
 * The decryption half of AES-256 as the boot loader runs it: the state is sixteen bytes of
 * the caller's buffer and every transformation changes them in place.
 */
module Aes {
  import opened Octets
  import opened Galois
  import opened Columns
  import opened SubstitutionBox
  import Fips197

  const BLOCK_LEN := 16
  const KEY_EXP_SIZE := 240

  const RCON: seq<byte> := [0x8d, 0x01, 0x02, 0x04, 0x08, 0x10, 0x20, 0x40, 0x80, 0x1b, 0x36]

  // --------------------------------------------------------------------------
  // Writing one block into a buffer
  // --------------------------------------------------------------------------

  function BlockAt(s: seq<byte>, at: nat): Fips197.Block
    requires at + BLOCK_LEN <= |s|
  {
    s[at..at + BLOCK_LEN]
  }

  // --------------------------------------------------------------------------
  // Key schedule
  // --------------------------------------------------------------------------

  lemma RconIsRoundConstant(j: nat)
    requires 1 <= j <= 7
    ensures RCON[j] == Fips197.RoundConstant(j)
  {
    assert Fips197.RoundConstant(1) == 0x01;
    assert Fips197.RoundConstant(2) == 0x02;
    assert Fips197.RoundConstant(3) == 0x04;
    assert Fips197.RoundConstant(4) == 0x08;
    assert Fips197.RoundConstant(5) == 0x10;
    assert Fips197.RoundConstant(6) == 0x20;
    assert Fips197.RoundConstant(7) == 0x40;
  }

  /** The bytes hold the first `n` words of the key schedule. */
  ghost predicate HoldsWords(s: seq<byte>, key: Fips197.Key, n: nat)
    requires 4 * n <= |s|
  {
    forall i: nat :: i < n ==> Fips197.WordAt(s, i) == Fips197.KeyWord(key, i)
  }

  /** The middle of the loop of `KeyExpansion`: what happens to the previous word. */
  method StepTemp(tempa: Word, i: nat) returns (r: Word)
    requires 8 <= i < 60
    ensures r == Fips197.KeyStep(tempa, i)
  {
    hide SBox, XTime;
    r := tempa;
    if i % 8 == 0 {
      r := Word(r.b1, r.b2, r.b3, r.b0);
      r := Word(SBox(r.b0), SBox(r.b1), SBox(r.b2), SBox(r.b3));
      RconIsRoundConstant(i / 8);
      XorZero(r.b1);
      XorZero(r.b2);
      XorZero(r.b3);
      r := r.(b0 := Xor(r.b0, RCON[i / 8]));
    }
    if i % 8 == 4 {
      r := Word(SBox(r.b0), SBox(r.b1), SBox(r.b2), SBox(r.b3));
    }
  }

  /** The first loop of `KeyExpansion`: the first words of the schedule are the key itself. */
  method CopyKey(roundKey: array<byte>, key: seq<byte>)
    requires roundKey.Length == KEY_EXP_SIZE && |key| == 32
    modifies roundKey
    ensures HoldsWords(roundKey[..], key, 8)
  {
    hide Fips197.KeyWord;
    var i: nat := 0;
    while i < 8
      invariant i <= 8
      invariant forall k :: 0 <= k < 4 * i ==> roundKey[k] == key[k]
    {
      roundKey[i * 4 + 0] := key[i * 4 + 0];
      roundKey[i * 4 + 1] := key[i * 4 + 1];
      roundKey[i * 4 + 2] := key[i * 4 + 2];
      roundKey[i * 4 + 3] := key[i * 4 + 3];
      i := i + 1;
    }
    KeyIsFirstWords(roundKey[..], key);
  }

  method KeyExpansion(roundKey: array<byte>, key: seq<byte>)
    requires roundKey.Length == KEY_EXP_SIZE && |key| == 32
    modifies roundKey
    ensures HoldsWords(roundKey[..], key, 60)
    ensures forall k :: 0 <= k < 32 ==> roundKey[k] == key[k]
    ensures forall i: nat, r: nat :: 8 <= i < 60 && r < 4 ==> ByteRecurs(roundKey[..], i, r)
  {
    hide Xor, Fips197.KeyWord, Fips197.KeyStep, ByteRecurs;
    CopyKey(roundKey, key);
    var i: nat := 8;
    while i < 60
      invariant 8 <= i <= 60
      invariant HoldsWords(roundKey[..], key, i)
    {
      ghost var before := roundKey[..];
      var k := (i - 1) * 4;
      var tempa := Word(roundKey[k + 0], roundKey[k + 1], roundKey[k + 2], roundKey[k + 3]);
      assert tempa == Fips197.WordAt(before, i - 1);
      tempa := StepTemp(tempa, i);
      NextWord(key, i);
      assert Fips197.KeyWord(key, i) == Fips197.XorWords(Fips197.WordAt(before, i - 8), tempa);
      var j;
      j, k := i * 4, (i - 8) * 4;
      roundKey[j + 0], roundKey[j + 1], roundKey[j + 2], roundKey[j + 3] :=
        Xor(roundKey[k + 0], tempa.b0), Xor(roundKey[k + 1], tempa.b1),
        Xor(roundKey[k + 2], tempa.b2), Xor(roundKey[k + 3], tempa.b3);
      WordsExtend(before, roundKey[..], key, i);
      i := i + 1;
    }
    ScheduleByBytes(roundKey[..], key);
  }

  /**
   * The recurrence of section 5.2 on the bytes themselves: byte `r` of word `i` is byte `r` of the
   * word eight places back, plus a byte of the previous word. At a multiple of 8 that byte is the next
   * one around the word, substituted, and the first one has a power of x added; four places later
   * it is the same byte substituted; elsewhere it is the same byte as it is.
   */
  predicate ByteRecurs(s: seq<byte>, i: nat, r: nat)
    requires |s| == KEY_EXP_SIZE && 8 <= i < 60 && r < 4
  {
    var back, previous := s[4 * (i - 8) + r], 4 * (i - 1);
    s[4 * i + r] == Xor(back,
      if i % 8 == 0 then
        if r == 0 then Xor(SBox(s[previous + 1]), 1 << (i / 8 - 1)) else SBox(s[previous + (r + 1) % 4])
      else if i % 8 == 4 then SBox(s[previous + r])
      else s[previous + r])
  }

  lemma PowersOfX(j: nat)
    requires 1 <= j <= 7
    ensures Fips197.RoundConstant(j) == 1 << (j - 1)
  {
    RconIsRoundConstant(j);
  }

  lemma WordRecursByBytes(s: seq<byte>, i: nat)
    requires |s| == KEY_EXP_SIZE && 8 <= i < 60
    ensures Fips197.WordAt(s, i)
         == Fips197.XorWords(Fips197.WordAt(s, i - 8), Fips197.KeyStep(Fips197.WordAt(s, i - 1), i))
       <==> forall r: nat :: r < 4 ==> ByteRecurs(s, i, r)
  {
    hide SBox, Xor, Fips197.RoundConstant;
    if i % 8 == 0 {
      PowersOfX(i / 8);
    }
    var w := Fips197.WordAt(s, i - 1);
    XorZero(SBox(w.b2));
    XorZero(SBox(w.b3));
    XorZero(SBox(w.b0));
    assert (forall r: nat :: r < 4 ==> ByteRecurs(s, i, r))
        <==> ByteRecurs(s, i, 0) && ByteRecurs(s, i, 1) && ByteRecurs(s, i, 2) && ByteRecurs(s, i, 3);
  }

  /** The bytes are the key schedule exactly when they begin with the key and satisfy the recurrence. */
  lemma ScheduleByBytes(s: seq<byte>, key: Fips197.Key)
    requires |s| == KEY_EXP_SIZE
    ensures HoldsWords(s, key, 60) <==>
      && (forall k :: 0 <= k < 32 ==> s[k] == key[k])
      && (forall i: nat, r: nat :: 8 <= i < 60 && r < 4 ==> ByteRecurs(s, i, r))
  {
    hide ByteRecurs, Fips197.KeyWord, Fips197.KeyStep, Fips197.XorWords;
    if HoldsWords(s, key, 60) {
      WordsAreKey(s, key);
      forall i: nat, r: nat | 8 <= i < 60 && r < 4 ensures ByteRecurs(s, i, r) {
        NextWord(key, i);
        WordRecursByBytes(s, i);
      }
    }
    if (forall k :: 0 <= k < 32 ==> s[k] == key[k])
      && (forall i: nat, r: nat :: 8 <= i < 60 && r < 4 ==> ByteRecurs(s, i, r))
    {
      RecurrenceHoldsWords(s, key, 60);
    }
  }

  lemma WordsAreKey(s: seq<byte>, key: Fips197.Key)
    requires |s| == KEY_EXP_SIZE && HoldsWords(s, key, 60)
    ensures forall k :: 0 <= k < 32 ==> s[k] == key[k]
  {
    forall k: nat | k < 32 ensures s[k] == key[k] {
      FirstWordIsKey(key, k / 4);
      assert Fips197.WordAt(s, k / 4) == Fips197.WordAt(key, k / 4);
      hide Fips197.KeyWord;
      assert k == 4 * (k / 4) + k % 4;
    }
  }

  lemma FirstWordIsKey(key: Fips197.Key, i: nat)
    requires i < 8
    ensures Fips197.KeyWord(key, i) == Fips197.WordAt(key, i)
  {}

  lemma {:induction false} RecurrenceHoldsWords(s: seq<byte>, key: Fips197.Key, n: nat)
    requires |s| == KEY_EXP_SIZE && n <= 60
    requires forall k :: 0 <= k < 32 ==> s[k] == key[k]
    requires forall i: nat, r: nat :: 8 <= i < 60 && r < 4 ==> ByteRecurs(s, i, r)
    ensures HoldsWords(s, key, n)
    decreases n
  {
    hide ByteRecurs, Fips197.KeyWord, Fips197.KeyStep, Fips197.XorWords;
    if n > 0 {
      var i := n - 1;
      RecurrenceHoldsWords(s, key, i);
      if i < 8 {
        FirstWordIsKey(key, i);
      } else {
        NextWord(key, i);
        WordRecursByBytes(s, i);
      }
      assert Fips197.WordAt(s, i) == Fips197.KeyWord(key, i);
    }
  }

  // A write to word `n` that leaves the words before it alone.
  lemma WordsExtend(before: seq<byte>, after: seq<byte>, key: Fips197.Key, n: nat)
    requires 4 * n + 4 <= |before| == |after|
    requires HoldsWords(before, key, n)
    requires forall k :: 0 <= k < 4 * n ==> after[k] == before[k]
    requires Fips197.WordAt(after, n) == Fips197.KeyWord(key, n)
    ensures HoldsWords(after, key, n + 1)
  {
    hide Fips197.KeyWord;
    forall i: nat | i < n ensures Fips197.WordAt(after, i) == Fips197.KeyWord(key, i) {
      assert Fips197.WordAt(after, i) == Fips197.WordAt(before, i);
    }
  }

  lemma XorZero(x: byte)
    ensures Xor(x, 0) == x
  {}

  lemma KeyIsFirstWords(s: seq<byte>, key: Fips197.Key)
    requires |s| >= 32 && forall k :: 0 <= k < 32 ==> s[k] == key[k]
    ensures HoldsWords(s, key, 8)
  {
    hide SBox, XTime;
    forall i: nat | i < 8 ensures Fips197.WordAt(s, i) == Fips197.KeyWord(key, i) {}
  }

  lemma NextWord(key: Fips197.Key, i: nat)
    requires i >= 8
    ensures Fips197.KeyWord(key, i)
         == Fips197.XorWords(Fips197.KeyWord(key, i - 8), Fips197.KeyStep(Fips197.KeyWord(key, i - 1), i))
  {
    hide SBox, XTime;
  }

  // --------------------------------------------------------------------------
  // Transformations of the state, in place
  // --------------------------------------------------------------------------

  /** The round keys that the bytes of a filled `RoundKey` array stand for. */
  function ScheduleOf(roundKey: seq<byte>): Fips197.Schedule
    requires |roundKey| == KEY_EXP_SIZE
  {
    seq(15, r requires 0 <= r < 15 => BlockAt(roundKey, 16 * r))
  }

  method AddRoundKey(round: nat, state: array<byte>, at: nat, roundKey: array<byte>)
    requires round <= 14 && at + BLOCK_LEN <= state.Length
    requires roundKey.Length == KEY_EXP_SIZE && roundKey != state
    modifies state
    ensures state[..] == Splice(old(state[..]), at,
      Fips197.AddBlocks(BlockAt(old(state[..]), at), ScheduleOf(roundKey[..])[round]))
    ensures forall m :: at <= m < at + 16 ==> state[m] == Xor(old(state[m]), roundKey[16 * round + m - at])
  {
    hide Xor;
    ghost var before := state[..];
    ghost var w := ScheduleOf(roundKey[..])[round];
    ghost var added := Fips197.AddBlocks(BlockAt(before, at), w);
    var i: nat := 0;
    while i < 4
      invariant i <= 4
      invariant forall m :: 0 <= m < state.Length ==>
        state[m] == if at <= m < at + 4 * i then added[m - at] else before[m]
    {
      var j: nat := 0;
      while j < 4
        invariant j <= 4
        invariant forall m :: 0 <= m < state.Length ==>
          state[m] == if at <= m < at + 4 * i + j then added[m - at] else before[m]
      {
        assert w[4 * i + j] == roundKey[round * 16 + i * 4 + j];
        state[at + 4 * i + j] := Xor(state[at + 4 * i + j], roundKey[round * 16 + i * 4 + j]);
        j := j + 1;
      }
      i := i + 1;
    }
    SpliceByElement(before, state[..], at, added);
  }

  method InvSubBytes(state: array<byte>, at: nat)
    requires at + BLOCK_LEN <= state.Length
    modifies state
    ensures state[..] == Splice(old(state[..]), at, Fips197.InvSubBytes(BlockAt(old(state[..]), at)))
    ensures forall m :: at <= m < at + 16 ==> state[m] == InvSBox(old(state[m]))
  {
    hide InvSBox;
    ghost var before := state[..];
    ghost var substituted := Fips197.InvSubBytes(BlockAt(before, at));
    var i: nat := 0;
    while i < 4
      invariant i <= 4
      invariant forall m :: 0 <= m < state.Length ==>
        state[m] == if at <= m < at + 16 && (m - at) % 4 < i then substituted[m - at] else before[m]
    {
      var j: nat := 0;
      while j < 4
        invariant j <= 4
        invariant forall m :: 0 <= m < state.Length ==>
          state[m] == if at <= m < at + 16 && ((m - at) % 4 < i || ((m - at) % 4 == i && (m - at) / 4 < j))
            then substituted[m - at] else before[m]
      {
        state[at + 4 * j + i] := InvSBox(state[at + 4 * j + i]);
        j := j + 1;
      }
      i := i + 1;
    }
    SpliceByElement(before, state[..], at, substituted);
  }

  function Around(n: nat): nat {
    if n < 16 then n else n - 16
  }

  // Row `r` of the state at `at` has been rotated right by r columns, and nothing else has changed.
  ghost predicate RowRotated(before: seq<byte>, after: seq<byte>, at: nat, r: nat)
    requires at + BLOCK_LEN <= |before| == |after| && 1 <= r < 4
  {
    && after[at + r] == before[at + Around(16 - 3 * r)]
    && after[at + r + 4] == before[at + Around(20 - 3 * r)]
    && after[at + r + 8] == before[at + Around(24 - 3 * r)]
    && after[at + r + 12] == before[at + Around(28 - 3 * r)]
    && forall m :: 0 <= m < |after| && m != at + r && m != at + r + 4 && m != at + r + 8 && m != at + r + 12
        ==> after[m] == before[m]
  }

  lemma RowOfFour(k: nat, r: nat)
    requires k < BLOCK_LEN && k % 4 == r
    ensures k == r || k == r + 4 || k == r + 8 || k == r + 12
  {}

  lemma RowKept(before: seq<byte>, after: seq<byte>, at: nat, r: nat, k: nat)
    requires at + BLOCK_LEN <= |before| == |after| && 1 <= r < 4
    requires RowRotated(before, after, at, r)
    requires k < BLOCK_LEN && k % 4 != r
    ensures after[at + k] == before[at + k]
  {
    assert (r + 4) % 4 == r && (r + 8) % 4 == r && (r + 12) % 4 == r;
  }

  lemma RotatedFrom(before: seq<byte>, after: seq<byte>, at: nat, r: nat, k: nat)
    requires at + BLOCK_LEN <= |before| == |after| && 1 <= r < 4
    requires RowRotated(before, after, at, r)
    requires k < BLOCK_LEN && k % 4 == r
    ensures after[at + k] == before[at + Fips197.RightOf(k)]
  {
    RowOfFour(k, r);
  }

  method RotateRow1(state: array<byte>, at: nat)
    requires at + BLOCK_LEN <= state.Length
    modifies state
    ensures RowRotated(old(state[..]), state[..], at, 1)
  {
    var temp := state[at + 13];
    state[at + 13] := state[at + 9];
    state[at + 9] := state[at + 5];
    state[at + 5] := state[at + 1];
    state[at + 1] := temp;
  }

  method RotateRow2(state: array<byte>, at: nat)
    requires at + BLOCK_LEN <= state.Length
    modifies state
    ensures RowRotated(old(state[..]), state[..], at, 2)
  {
    var temp := state[at + 2];
    state[at + 2] := state[at + 10];
    state[at + 10] := temp;

    temp := state[at + 6];
    state[at + 6] := state[at + 14];
    state[at + 14] := temp;
  }

  method RotateRow3(state: array<byte>, at: nat)
    requires at + BLOCK_LEN <= state.Length
    modifies state
    ensures RowRotated(old(state[..]), state[..], at, 3)
  {
    var temp := state[at + 3];
    state[at + 3] := state[at + 7];
    state[at + 7] := state[at + 11];
    state[at + 11] := state[at + 15];
    state[at + 15] := temp;
  }

  method InvShiftRows(state: array<byte>, at: nat)
    requires at + BLOCK_LEN <= state.Length
    modifies state
    ensures state[..] == Splice(old(state[..]), at, Fips197.InvShiftRows(BlockAt(old(state[..]), at)))
  {
    ghost var s0 := state[..];
    RotateRow1(state, at);
    ghost var s1 := state[..];
    RotateRow2(state, at);
    ghost var s2 := state[..];
    RotateRow3(state, at);
    RowsRotated(s0, s1, s2, state[..], at);
  }

  lemma RowsRotated(s0: seq<byte>, s1: seq<byte>, s2: seq<byte>, s3: seq<byte>, at: nat)
    requires at + BLOCK_LEN <= |s0| == |s1| == |s2| == |s3|
    requires RowRotated(s0, s1, at, 1) && RowRotated(s1, s2, at, 2) && RowRotated(s2, s3, at, 3)
    ensures s3 == Splice(s0, at, Fips197.InvShiftRows(BlockAt(s0, at)))
  {
    hide RowRotated, Fips197.RightOf;
    forall m | at <= m < at + BLOCK_LEN ensures s3[m] == s0[at + Fips197.RightOf(m - at)] {
      ByteRotated(s0, s1, s2, s3, at, m - at);
    }
    forall m | 0 <= m < |s0| && !(at <= m < at + BLOCK_LEN) ensures s3[m] == s0[m] {
      ByteUntouched(s0, s1, s2, s3, at, m);
    }
    SpliceByElement(s0, s3, at, Fips197.InvShiftRows(BlockAt(s0, at)));
  }

  lemma ByteUntouched(s0: seq<byte>, s1: seq<byte>, s2: seq<byte>, s3: seq<byte>, at: nat, m: nat)
    requires at + BLOCK_LEN <= |s0| == |s1| == |s2| == |s3|
    requires RowRotated(s0, s1, at, 1) && RowRotated(s1, s2, at, 2) && RowRotated(s2, s3, at, 3)
    requires m < |s0| && !(at <= m < at + BLOCK_LEN)
    ensures s3[m] == s0[m]
  {}

  lemma ByteRotated(s0: seq<byte>, s1: seq<byte>, s2: seq<byte>, s3: seq<byte>, at: nat, k: nat)
    requires at + BLOCK_LEN <= |s0| == |s1| == |s2| == |s3| && k < BLOCK_LEN
    requires RowRotated(s0, s1, at, 1) && RowRotated(s1, s2, at, 2) && RowRotated(s2, s3, at, 3)
    ensures s3[at + k] == s0[at + Fips197.RightOf(k)]
  {
    hide RowRotated;
    Fips197.Coordinates(k);
    var from := Fips197.RightOf(k);
    if k % 4 == 0 {
      assert from == k;
      RowKept(s0, s1, at, 1, k);
      RowKept(s1, s2, at, 2, k);
      RowKept(s2, s3, at, 3, k);
    } else if k % 4 == 1 {
      RotatedFrom(s0, s1, at, 1, k);
      RowKept(s1, s2, at, 2, k);
      RowKept(s2, s3, at, 3, k);
    } else if k % 4 == 2 {
      RowKept(s0, s1, at, 1, from);
      RotatedFrom(s1, s2, at, 2, k);
      RowKept(s2, s3, at, 3, k);
    } else {
      RowKept(s0, s1, at, 1, from);
      RowKept(s1, s2, at, 2, from);
      RotatedFrom(s2, s3, at, 3, k);
    }
  }

  /** The body of the loop of `InvMixColumns`, for the column at `p`. */
  method InvMixColumn(state: array<byte>, p: nat)
    requires p + 4 <= state.Length
    modifies state
    ensures Word(state[p], state[p + 1], state[p + 2], state[p + 3])
         == Times(UNMIX, Word(old(state[p]), old(state[p + 1]), old(state[p + 2]), old(state[p + 3])))
    ensures var a, b, c, d := old(state[p]), old(state[p + 1]), old(state[p + 2]), old(state[p + 3]);
      && state[p] == Sum4(Product(a, 0x0e), Product(b, 0x0b), Product(c, 0x0d), Product(d, 0x09))
      && state[p + 1] == Sum4(Product(a, 0x09), Product(b, 0x0e), Product(c, 0x0b), Product(d, 0x0d))
      && state[p + 2] == Sum4(Product(a, 0x0d), Product(b, 0x09), Product(c, 0x0e), Product(d, 0x0b))
      && state[p + 3] == Sum4(Product(a, 0x0b), Product(b, 0x0d), Product(c, 0x09), Product(d, 0x0e))
    ensures forall m :: 0 <= m < state.Length && !(p <= m < p + 4) ==> state[m] == old(state[m])
  {
    hide Multiply, Xor, Times, Product, Sum4;
    var a, b, c, d := state[p], state[p + 1], state[p + 2], state[p + 3];
    ColumnUnmixes(a, b, c, d);
    UnmixByProducts(Word(a, b, c, d));
    state[p + 0] := Xor(Xor(Xor(Multiply(a, 0x0e), Multiply(b, 0x0b)), Multiply(c, 0x0d)), Multiply(d, 0x09));
    state[p + 1] := Xor(Xor(Xor(Multiply(a, 0x09), Multiply(b, 0x0e)), Multiply(c, 0x0b)), Multiply(d, 0x0d));
    state[p + 2] := Xor(Xor(Xor(Multiply(a, 0x0d), Multiply(b, 0x09)), Multiply(c, 0x0e)), Multiply(d, 0x0b));
    state[p + 3] := Xor(Xor(Xor(Multiply(a, 0x0b), Multiply(b, 0x0d)), Multiply(c, 0x09)), Multiply(d, 0x0e));
  }

  method InvMixColumns(state: array<byte>, at: nat)
    requires at + BLOCK_LEN <= state.Length
    modifies state
    ensures state[..] == Splice(old(state[..]), at, Fips197.InvMixColumns(BlockAt(old(state[..]), at)))
  {
    hide Times, Fips197.TimesColumns;
    ghost var before := state[..];
    ghost var block := BlockAt(before, at);
    ghost var mixed := Fips197.TimesColumns(UNMIX, block);
    var i: nat := 0;
    while i < 4
      invariant i <= 4
      invariant forall m :: 0 <= m < state.Length ==>
        state[m] == if at <= m < at + 4 * i then mixed[m - at] else before[m]
    {
      assert Fips197.WordAt(block, i)
          == Word(state[at + 4 * i], state[at + 4 * i + 1], state[at + 4 * i + 2], state[at + 4 * i + 3]);
      InvMixColumn(state, at + 4 * i);
      Fips197.ColumnOfTimes(UNMIX, block, i);
      assert Fips197.WordAt(mixed, i)
          == Word(state[at + 4 * i], state[at + 4 * i + 1], state[at + 4 * i + 2], state[at + 4 * i + 3]);
      i := i + 1;
    }
    SpliceByElement(before, state[..], at, mixed);
  }

  // Section 5.3.3, byte by byte.
  lemma UnmixByProducts(w: Word)
    ensures Times(UNMIX, w) == Word(
      Sum4(Product(w.b0, 0x0e), Product(w.b1, 0x0b), Product(w.b2, 0x0d), Product(w.b3, 0x09)),
      Sum4(Product(w.b0, 0x09), Product(w.b1, 0x0e), Product(w.b2, 0x0b), Product(w.b3, 0x0d)),
      Sum4(Product(w.b0, 0x0d), Product(w.b1, 0x09), Product(w.b2, 0x0e), Product(w.b3, 0x0b)),
      Sum4(Product(w.b0, 0x0b), Product(w.b1, 0x0d), Product(w.b2, 0x09), Product(w.b3, 0x0e)))
  {
    hide Product, Sum4;
  }

  lemma RowUnmixes(w: Word, k: Word)
    requires k.b0 < 32 && k.b1 < 32 && k.b2 < 32 && k.b3 < 32
    ensures Xor(Xor(Xor(Multiply(w.b0, k.b0), Multiply(w.b1, k.b1)), Multiply(w.b2, k.b2)), Multiply(w.b3, k.b3))
         == Dot(w, k)
  {
    hide Multiply, Product, Xor;
    MultiplyIsProduct(w.b0, k.b0);
    MultiplyIsProduct(w.b1, k.b1);
    MultiplyIsProduct(w.b2, k.b2);
    MultiplyIsProduct(w.b3, k.b3);
    XorAssociates(Xor(Product(w.b0, k.b0), Product(w.b1, k.b1)), Product(w.b2, k.b2), Product(w.b3, k.b3));
  }

  lemma ColumnUnmixes(a: byte, b: byte, c: byte, d: byte)
    ensures Times(UNMIX, Word(a, b, c, d)) == Word(
      Xor(Xor(Xor(Multiply(a, 0x0e), Multiply(b, 0x0b)), Multiply(c, 0x0d)), Multiply(d, 0x09)),
      Xor(Xor(Xor(Multiply(a, 0x09), Multiply(b, 0x0e)), Multiply(c, 0x0b)), Multiply(d, 0x0d)),
      Xor(Xor(Xor(Multiply(a, 0x0d), Multiply(b, 0x09)), Multiply(c, 0x0e)), Multiply(d, 0x0b)),
      Xor(Xor(Xor(Multiply(a, 0x0b), Multiply(b, 0x0d)), Multiply(c, 0x09)), Multiply(d, 0x0e)))
  {
    hide Multiply, Xor, Dot;
    var w := Word(a, b, c, d);
    RowUnmixes(w, Row0(UNMIX));
    RowUnmixes(w, Row1(UNMIX));
    RowUnmixes(w, Row2(UNMIX));
    RowUnmixes(w, Row3(UNMIX));
  }

  // --------------------------------------------------------------------------
  // Inverse cipher
  // --------------------------------------------------------------------------

  method InvCipher(state: array<byte>, at: nat, roundKey: array<byte>)
    requires at + BLOCK_LEN <= state.Length
    requires roundKey.Length == KEY_EXP_SIZE && roundKey != state
    modifies state
    ensures state[..] == Splice(old(state[..]), at,
      Fips197.InvCipher(ScheduleOf(roundKey[..]), BlockAt(old(state[..]), at)))
  {
    hide Fips197.AddBlocks, Fips197.InvSubBytes, Fips197.InvShiftRows, Fips197.InvMixColumns, ScheduleOf, Splice;
    ghost var before := state[..];
    ghost var w := ScheduleOf(roundKey[..]);
    ghost var x: Fips197.Block := BlockAt(before, at);
    ghost var y := Fips197.AddBlocks(x, w[14]);
    AddRoundKey(14, state, at, roundKey);

    var round: nat := 13;
    while true
      invariant round <= 13
      invariant state[..] == Splice(before, at, y)
      invariant Fips197.InvRoundsFrom(w, y, round) == Fips197.InvCipher(w, x)
      decreases round
    {
      ghost var y1, y2 := Fips197.InvShiftRows(y), Fips197.InvSubBytes(Fips197.InvShiftRows(y));
      ghost var y3 := Fips197.AddBlocks(y2, w[round]);
      ghost var y4 := Fips197.InvMixColumns(y3);
      SpliceReplaces(before, at, y, y1);
      InvShiftRows(state, at);
      SpliceReplaces(before, at, y1, y2);
      InvSubBytes(state, at);
      SpliceReplaces(before, at, y2, y3);
      AddRoundKey(round, state, at, roundKey);
      if round == 0 {
        y := y3;
        break;
      }
      SpliceReplaces(before, at, y3, y4);
      InvMixColumns(state, at);
      y := y4;
      round := round - 1;
    }
  }

  lemma HeldWordsAreSchedule(roundKey: seq<byte>, key: Fips197.Key)
    requires |roundKey| == KEY_EXP_SIZE && HoldsWords(roundKey, key, 60)
    ensures ScheduleOf(roundKey) == Fips197.ExpandedKey(key)
  {
    hide Fips197.KeyWord, HoldsWords;
    forall r | 0 <= r < 15 ensures ScheduleOf(roundKey)[r] == Fips197.RoundKey(key, r) {
      forall k | 0 <= k < 16 ensures ScheduleOf(roundKey)[r][k] == Fips197.RoundKey(key, r)[k] {
        HeldByte(roundKey, key, r, k);
      }
    }
  }

  lemma HeldByte(roundKey: seq<byte>, key: Fips197.Key, r: nat, k: nat)
    requires |roundKey| == KEY_EXP_SIZE && HoldsWords(roundKey, key, 60)
    requires r < 15 && k < 16
    ensures roundKey[16 * r + k] == Fips197.ByteOf(Fips197.KeyWord(key, 4 * r + k / 4), k % 4)
  {
    hide Fips197.KeyWord;
    var i := 4 * r + k / 4;
    assert 4 * i + k % 4 == 16 * r + k;
    assert Fips197.WordAt(roundKey, i) == Fips197.KeyWord(key, i);
  }
}
