/**
 * The cipher of FIPS 197 with a 256-bit key: the forward transformations and the key
 * schedule (sections 5.1 and 5.2), the inverse transformations (section 5.3), and the
 * proof that each undoes the other.
 */
module Fips197 {
  import opened Octets
  import opened Galois
  import opened Columns
  import opened SubstitutionBox

  // Byte r + 4c of a block is the entry in row r and column c of the state (section 3.4).
  type Block = s: seq<byte> | |s| == 16 witness seq(16, _ => 0 as byte)
  type Key = s: seq<byte> | |s| == 32 witness seq(32, _ => 0 as byte)

  const ZERO_BLOCK: Block := seq(16, _ => 0 as byte)

  // The round keys, one block for the initial addition and one for each round.
  type Schedule = w: seq<Block> | |w| == ROUNDS + 1 witness seq(15, _ => ZERO_BLOCK)

  const ROUNDS := 14
  const KEY_WORDS := 8

  function WordAt(s: seq<byte>, i: nat): Word
    requires 4 * i + 4 <= |s|
  {
    Word(s[4 * i], s[4 * i + 1], s[4 * i + 2], s[4 * i + 3])
  }

  function ByteOf(w: Word, r: nat): byte
    requires r < 4
  {
    if r == 0 then w.b0 else if r == 1 then w.b1 else if r == 2 then w.b2 else w.b3
  }

  // --------------------------------------------------------------------------
  // Key schedule (section 5.2)
  // --------------------------------------------------------------------------

  function SubWord(w: Word): Word {
    Word(SBox(w.b0), SBox(w.b1), SBox(w.b2), SBox(w.b3))
  }

  function RotWord(w: Word): Word {
    Word(w.b1, w.b2, w.b3, w.b0)
  }

  function XorWords(v: Word, w: Word): Word {
    Word(Xor(v.b0, w.b0), Xor(v.b1, w.b1), Xor(v.b2, w.b2), Xor(v.b3, w.b3))
  }

  /** The field element x^(j-1). */
  function RoundConstant(j: nat): byte
    requires j > 0
  {
    if j == 1 then 0x01 else XTime(RoundConstant(j - 1))
  }

  function KeyStep(temp: Word, i: nat): Word {
    if i % KEY_WORDS == 0 && i > 0 then
      XorWords(SubWord(RotWord(temp)), Word(RoundConstant(i / KEY_WORDS), 0, 0, 0))
    else if i % KEY_WORDS == 4 then
      SubWord(temp)
    else
      temp
  }

  function KeyWord(key: Key, i: nat): Word {
    if i < KEY_WORDS then
      WordAt(key, i)
    else
      XorWords(KeyWord(key, i - KEY_WORDS), KeyStep(KeyWord(key, i - 1), i))
  }

  function RoundKey(key: Key, round: nat): Block {
    seq(16, k requires 0 <= k < 16 => ByteOf(KeyWord(key, 4 * round + k / 4), k % 4))
  }

  function ExpandedKey(key: Key): Schedule {
    seq(ROUNDS + 1, round requires 0 <= round < ROUNDS + 1 => RoundKey(key, round))
  }

  // --------------------------------------------------------------------------
  // Transformations (sections 5.1.1 to 5.1.4 and 5.3.1 to 5.3.3)
  // --------------------------------------------------------------------------

  function AddBlocks(s: Block, t: Block): Block {
    seq(16, k requires 0 <= k < 16 => Xor(s[k], t[k]))
  }

  function SubBytes(s: Block): Block {
    seq(16, k requires 0 <= k < 16 => SBox(s[k]))
  }

  function InvSubBytes(s: Block): Block {
    seq(16, k requires 0 <= k < 16 => InvSBox(s[k]))
  }

  // Where the byte that ends up at `k` comes from when row r = k % 4 is rotated left, or
  // right, by r columns: 4r bytes further on, or back, wrapping around the block.
  function LeftOf(k: nat): (from: nat)
    requires k < 16
    ensures from < 16
  {
    var n := k + 4 * (k % 4);
    if n < 16 then n else n - 16
  }

  function RightOf(k: nat): (from: nat)
    requires k < 16
    ensures from < 16
  {
    var n := k - 4 * (k % 4);
    if n >= 0 then n else n + 16
  }

  function ShiftRows(s: Block): Block {
    seq(16, k requires 0 <= k < 16 => s[LeftOf(k)])
  }

  function InvShiftRows(s: Block): Block {
    seq(16, k requires 0 <= k < 16 => s[RightOf(k)])
  }

  function TimesColumns(a: Word, s: Block): Block {
    seq(16, k requires 0 <= k < 16 => ByteOf(Times(a, WordAt(s, k / 4)), k % 4))
  }

  function MixColumns(s: Block): Block {
    TimesColumns(MIX, s)
  }

  function InvMixColumns(s: Block): Block {
    TimesColumns(UNMIX, s)
  }

  // --------------------------------------------------------------------------
  // Cipher and inverse cipher
  // --------------------------------------------------------------------------

  /** The state after the first `round` rounds of the cipher, all of them full rounds. */
  function AfterRounds(w: Schedule, input: Block, round: nat): Block
    requires round < ROUNDS
  {
    if round == 0 then
      AddBlocks(input, w[0])
    else
      AddBlocks(MixColumns(ShiftRows(SubBytes(AfterRounds(w, input, round - 1)))), w[round])
  }

  function Cipher(w: Schedule, input: Block): Block {
    AddBlocks(ShiftRows(SubBytes(AfterRounds(w, input, ROUNDS - 1))), w[ROUNDS])
  }

  /** What remains of the inverse cipher when `round` is the next round to be undone. */
  function InvRoundsFrom(w: Schedule, s: Block, round: nat): Block
    requires round < ROUNDS
    decreases round
  {
    var t := AddBlocks(InvSubBytes(InvShiftRows(s)), w[round]);
    if round == 0 then t else InvRoundsFrom(w, InvMixColumns(t), round - 1)
  }

  function InvCipher(w: Schedule, input: Block): Block {
    InvRoundsFrom(w, AddBlocks(input, w[ROUNDS]), ROUNDS - 1)
  }

  // --------------------------------------------------------------------------
  // Each transformation is undone by its inverse
  // --------------------------------------------------------------------------

  lemma AddBlocksCancels(s: Block, t: Block)
    ensures AddBlocks(AddBlocks(s, t), t) == s
  {
    forall k | 0 <= k < 16 ensures AddBlocks(AddBlocks(s, t), t)[k] == s[k] {
      XorCancels(s[k], t[k]);
    }
  }

  lemma SubBytesInverse(s: Block)
    ensures InvSubBytes(SubBytes(s)) == s && SubBytes(InvSubBytes(s)) == s
  {
    forall k | 0 <= k < 16
      ensures InvSubBytes(SubBytes(s))[k] == s[k] && SubBytes(InvSubBytes(s))[k] == s[k]
    {
      InvSBoxUndoesSBox(s[k]);
      SBoxUndoesInvSBox(s[k]);
    }
  }

  lemma Coordinates(k: nat)
    requires k < 16
    ensures LeftOf(k) % 4 == k % 4 && RightOf(k) % 4 == k % 4
    ensures k == 4 * (k / 4) + k % 4
  {
    var r, c := k % 4, k / 4;
    assert (4 * (c + r) + r) % 4 == r && (4 * (c - r) + r) % 4 == r;
    assert (4 * (c + r - 4) + r) % 4 == r && (4 * (c - r + 4) + r) % 4 == r;
  }

  lemma RotationsCancel(k: nat)
    requires k < 16
    ensures LeftOf(RightOf(k)) == k && RightOf(LeftOf(k)) == k
  {
    Coordinates(k);
  }

  /** The form of sections 5.1.2 and 5.3.1: the byte in row r, column c moves to another column of its row. */
  lemma ShiftRowsByCoordinates(s: Block, r: nat, c: nat)
    requires r < 4 && c < 4
    ensures ShiftRows(s)[r + 4 * c] == s[r + 4 * ((c + r) % 4)]
    ensures InvShiftRows(s)[r + 4 * ((c + r) % 4)] == s[r + 4 * c]
  {
    assert (r + 4 * c) % 4 == r;
    var d := if c + r < 4 then c + r else c + r - 4;
    assert d == (c + r) % 4;
    assert (r + 4 * d) % 4 == r;
  }

  lemma ShiftRowsInverse(s: Block)
    ensures InvShiftRows(ShiftRows(s)) == s && ShiftRows(InvShiftRows(s)) == s
  {
    hide LeftOf, RightOf;
    forall k | 0 <= k < 16
      ensures InvShiftRows(ShiftRows(s))[k] == s[k] && ShiftRows(InvShiftRows(s))[k] == s[k]
    {
      RotationsCancel(k);
    }
  }

  lemma ColumnOfTimes(a: Word, s: Block, c: nat)
    requires c < 4
    ensures WordAt(TimesColumns(a, s), c) == Times(a, WordAt(s, c))
  {
    hide Times;
    assert (4 * c) / 4 == (4 * c + 1) / 4 == (4 * c + 2) / 4 == (4 * c + 3) / 4 == c;
    assert (4 * c) % 4 == 0 && (4 * c + 1) % 4 == 1 && (4 * c + 2) % 4 == 2 && (4 * c + 3) % 4 == 3;
  }

  lemma TimesColumnsCancels(a: Word, b: Word, s: Block)
    requires forall w :: Times(a, Times(b, w)) == w
    ensures TimesColumns(a, TimesColumns(b, s)) == s
  {
    hide Times;
    var t := TimesColumns(b, s);
    forall k | 0 <= k < 16 ensures TimesColumns(a, t)[k] == s[k] {
      ColumnOfTimes(b, s, k / 4);
      assert Times(a, Times(b, WordAt(s, k / 4))) == WordAt(s, k / 4);
      ByteOfWordAt(s, k);
    }
  }

  lemma ByteOfWordAt(s: Block, k: nat)
    requires k < 16
    ensures ByteOf(WordAt(s, k / 4), k % 4) == s[k]
  {
    assert 4 * (k / 4) + k % 4 == k;
  }

  lemma MixColumnsInverse(s: Block)
    ensures InvMixColumns(MixColumns(s)) == s && MixColumns(InvMixColumns(s)) == s
  {
    hide Times;
    forall w ensures Times(UNMIX, Times(MIX, w)) == w && Times(MIX, Times(UNMIX, w)) == w {
      UnmixUndoesMix(w);
    }
    TimesColumnsCancels(UNMIX, MIX, s);
    TimesColumnsCancels(MIX, UNMIX, s);
  }

  // --------------------------------------------------------------------------
  // The inverse cipher undoes the cipher
  // --------------------------------------------------------------------------

  // Undoing rounds `round` to 0 from the state that round `round + 1` substituted and shifted.
  lemma {:induction false} RoundsPeelOff(w: Schedule, input: Block, round: nat)
    requires round < ROUNDS
    ensures InvRoundsFrom(w, ShiftRows(SubBytes(AfterRounds(w, input, round))), round) == input
    decreases round
  {
    hide SubBytes, InvSubBytes, ShiftRows, InvShiftRows, MixColumns, InvMixColumns, AddBlocks;
    var s := AfterRounds(w, input, round);
    ShiftRowsInverse(SubBytes(s));
    SubBytesInverse(s);
    if round == 0 {
      AddBlocksCancels(input, w[0]);
    } else {
      var before := ShiftRows(SubBytes(AfterRounds(w, input, round - 1)));
      AddBlocksCancels(MixColumns(before), w[round]);
      MixColumnsInverse(before);
      RoundsPeelOff(w, input, round - 1);
    }
  }

  lemma InvCipherUndoesCipher(w: Schedule, input: Block)
    ensures InvCipher(w, Cipher(w, input)) == input
  {
    AddBlocksCancels(ShiftRows(SubBytes(AfterRounds(w, input, ROUNDS - 1))), w[ROUNDS]);
    RoundsPeelOff(w, input, ROUNDS - 1);
  }

  // Redoing rounds 0 to `round` on what the inverse rounds produced.
  lemma {:induction false} RoundsStackUp(w: Schedule, s: Block, round: nat)
    requires round < ROUNDS
    ensures ShiftRows(SubBytes(AfterRounds(w, InvRoundsFrom(w, s, round), round))) == s
    decreases round
  {
    hide SubBytes, InvSubBytes, ShiftRows, InvShiftRows, MixColumns, InvMixColumns, AddBlocks;
    var u := InvSubBytes(InvShiftRows(s));
    var t := AddBlocks(u, w[round]);
    AddBlocksCancels(u, w[round]);
    SubBytesInverse(InvShiftRows(s));
    ShiftRowsInverse(s);
    if round > 0 {
      RoundsStackUp(w, InvMixColumns(t), round - 1);
      MixColumnsInverse(t);
    }
  }

  lemma CipherUndoesInvCipher(w: Schedule, input: Block)
    ensures Cipher(w, InvCipher(w, input)) == input
  {
    RoundsStackUp(w, AddBlocks(input, w[ROUNDS]), ROUNDS - 1);
    AddBlocksCancels(input, w[ROUNDS]);
  }

  // --------------------------------------------------------------------------
  // Where the bytes of the first and the last round key end up
  // --------------------------------------------------------------------------

  lemma XorReplaces(x: byte, y: byte, z: byte)
    ensures Xor(Xor(Xor(x, y), y), z) == Xor(x, z)
    ensures Xor(Xor(Xor(x, y), z), z) == Xor(x, y)
  {
    hide Xor;
    XorCancels(x, y);
    XorCancels(Xor(x, y), z);
  }

  lemma {:induction false} RoundsMaskOutput(w: Schedule, k: Block, s: Block, round: nat, j: nat)
    requires round < ROUNDS && j < 16
    ensures InvRoundsFrom(w[0 := k], s, round)[j] == Xor(Xor(InvRoundsFrom(w, s, round)[j], w[0][j]), k[j])
    decreases round
  {
    hide Xor, InvSubBytes, InvShiftRows, InvMixColumns;
    var u := InvSubBytes(InvShiftRows(s));
    if round == 0 {
      XorReplaces(u[j], w[0][j], k[j]);
    } else {
      RoundsMaskOutput(w, k, InvMixColumns(AddBlocks(u, w[round])), round - 1, j);
    }
  }

  lemma {:induction false} RoundsIgnoreLastKey(w: Schedule, k: Block, s: Block, round: nat)
    requires round < ROUNDS
    ensures InvRoundsFrom(w[ROUNDS := k], s, round) == InvRoundsFrom(w, s, round)
    decreases round
  {
    hide AddBlocks, InvSubBytes, InvShiftRows, InvMixColumns;
    if round > 0 {
      RoundsIgnoreLastKey(w, k, InvMixColumns(AddBlocks(InvSubBytes(InvShiftRows(s)), w[round])), round - 1);
    }
  }

  /** Byte j of the first round key is added to byte j of what the inverse cipher gives, and to no other. */
  lemma FirstKeyMasksOutput(w: Schedule, k: Block, input: Block, j: nat)
    requires j < 16
    ensures InvCipher(w[0 := k], input)[j] == Xor(Xor(InvCipher(w, input)[j], w[0][j]), k[j])
  {
    hide InvRoundsFrom, Xor;
    RoundsMaskOutput(w, k, AddBlocks(input, w[ROUNDS]), ROUNDS - 1, j);
  }

  /** Byte j of the last round key is added to byte j of what the inverse cipher is given, and to no other. */
  lemma LastKeyMasksInput(w: Schedule, k: Block, input: Block, other: Block)
    requires forall j :: 0 <= j < 16 ==> other[j] == Xor(Xor(input[j], w[ROUNDS][j]), k[j])
    ensures InvCipher(w[ROUNDS := k], other) == InvCipher(w, input)
  {
    hide InvRoundsFrom, Xor;
    forall j | 0 <= j < 16 ensures AddBlocks(other, k)[j] == AddBlocks(input, w[ROUNDS])[j] {
      XorReplaces(input[j], w[ROUNDS][j], k[j]);
    }
    assert AddBlocks(other, k) == AddBlocks(input, w[ROUNDS]);
    RoundsIgnoreLastKey(w, k, AddBlocks(input, w[ROUNDS]), ROUNDS - 1);
  }
}
