/**
 * The example of appendix C.3 of FIPS 197: what the definitions give for one key and one block,
 * which ties them to the published cipher and not only to each other. A block is written as the
 * four columns of its state.
 */
module Fips197Example {
  import opened Octets
  import opened Galois
  import opened Columns
  import opened SubstitutionBox
  import opened Fips197

  datatype Quad = Quad(c0: Word, c1: Word, c2: Word, c3: Word)

  function QuadOf(s: Block): Quad {
    Quad(WordAt(s, 0), WordAt(s, 1), WordAt(s, 2), WordAt(s, 3))
  }

  function KeyQuad(key: Key, round: nat): Quad {
    Quad(KeyWord(key, 4 * round), KeyWord(key, 4 * round + 1), KeyWord(key, 4 * round + 2), KeyWord(key, 4 * round + 3))
  }

  function State(key: Key, input: Block, round: nat): Quad
    requires round < ROUNDS
  {
    QuadOf(AfterRounds(ExpandedKey(key), input, round))
  }

  // --------------------------------------------------------------------------
  // One round on columns
  // --------------------------------------------------------------------------

  // The bytes that a row shift brings into one column, substituted.
  function Gathered(a: Word, b: Word, c: Word, d: Word): Word {
    Word(SBox(a.b0), SBox(b.b1), SBox(c.b2), SBox(d.b3))
  }

  function Mixed(w: Word): Word {
    Word(Sum4(XTime(w.b0), Xor(w.b1, XTime(w.b1)), w.b2, w.b3),
         Sum4(w.b0, XTime(w.b1), Xor(w.b2, XTime(w.b2)), w.b3),
         Sum4(w.b0, w.b1, XTime(w.b2), Xor(w.b3, XTime(w.b3))),
         Sum4(Xor(w.b0, XTime(w.b0)), w.b1, w.b2, XTime(w.b3)))
  }

  function AddQuads(s: Quad, k: Quad): Quad {
    Quad(XorWords(s.c0, k.c0), XorWords(s.c1, k.c1), XorWords(s.c2, k.c2), XorWords(s.c3, k.c3))
  }

  function Shifted(s: Quad): Quad {
    Quad(Gathered(s.c0, s.c1, s.c2, s.c3), Gathered(s.c1, s.c2, s.c3, s.c0),
         Gathered(s.c2, s.c3, s.c0, s.c1), Gathered(s.c3, s.c0, s.c1, s.c2))
  }

  function FullRound(s: Quad, k: Quad): Quad {
    var u := Shifted(s);
    AddQuads(Quad(Mixed(u.c0), Mixed(u.c1), Mixed(u.c2), Mixed(u.c3)), k)
  }

  lemma AddByQuads(s: Block, t: Block)
    ensures QuadOf(AddBlocks(s, t)) == AddQuads(QuadOf(s), QuadOf(t))
  {
    hide Xor;
  }

  lemma ShiftByQuads(s: Block)
    ensures QuadOf(ShiftRows(SubBytes(s))) == Shifted(QuadOf(s))
  {
    hide SBox;
  }

  lemma MixByQuads(s: Block)
    ensures QuadOf(MixColumns(s))
         == Quad(Mixed(WordAt(s, 0)), Mixed(WordAt(s, 1)), Mixed(WordAt(s, 2)), Mixed(WordAt(s, 3)))
  {
    hide XTime, Xor, Sum4, Times;
    forall c | 0 <= c < 4 ensures WordAt(MixColumns(s), c) == Mixed(WordAt(s, c)) {
      MixByBytes(WordAt(s, c));
      ColumnOfTimes(MIX, s, c);
    }
  }

  lemma KeyByQuads(key: Key, round: nat)
    requires round <= ROUNDS
    ensures QuadOf(ExpandedKey(key)[round]) == KeyQuad(key, round)
  {
    hide KeyWord, WordAt, RoundKey;
    KeyColumn(key, round, 0);
    KeyColumn(key, round, 1);
    KeyColumn(key, round, 2);
    KeyColumn(key, round, 3);
  }

  lemma KeyColumn(key: Key, round: nat, c: nat)
    requires c < 4
    ensures WordAt(RoundKey(key, round), c) == KeyWord(key, 4 * round + c)
  {
    hide KeyWord;
    assert (4 * c) / 4 == c && (4 * c + 1) / 4 == c && (4 * c + 2) / 4 == c && (4 * c + 3) / 4 == c;
    assert (4 * c) % 4 == 0 && (4 * c + 1) % 4 == 1 && (4 * c + 2) % 4 == 2 && (4 * c + 3) % 4 == 3;
  }

  lemma NextState(key: Key, input: Block, round: nat)
    requires 0 < round < ROUNDS
    ensures State(key, input, round) == FullRound(State(key, input, round - 1), KeyQuad(key, round))
  {
    hide ExpandedKey, KeyQuad, QuadOf, AddQuads, Shifted, Mixed, AddBlocks, MixColumns, ShiftRows, SubBytes, WordAt;
    var w := ExpandedKey(key);
    var s := AfterRounds(w, input, round - 1);
    KeyByQuads(key, round);
    ShiftByQuads(s);
    MixByQuads(ShiftRows(SubBytes(s)));
    QuadColumns(ShiftRows(SubBytes(s)));
    AddByQuads(MixColumns(ShiftRows(SubBytes(s))), w[round]);
  }

  lemma QuadColumns(s: Block)
    ensures QuadOf(s) == Quad(WordAt(s, 0), WordAt(s, 1), WordAt(s, 2), WordAt(s, 3))
  {}

  lemma FirstState(key: Key, input: Block)
    ensures State(key, input, 0) == AddQuads(QuadOf(input), KeyQuad(key, 0))
  {
    hide ExpandedKey, KeyQuad, QuadOf, AddBlocks, AddQuads;
    KeyByQuads(key, 0);
    AddByQuads(input, ExpandedKey(key)[0]);
  }

  lemma LastState(key: Key, input: Block)
    ensures QuadOf(Cipher(ExpandedKey(key), input))
         == AddQuads(Shifted(State(key, input, ROUNDS - 1)), KeyQuad(key, ROUNDS))
  {
    hide ExpandedKey, KeyQuad, QuadOf, AddBlocks, AddQuads, Shifted, ShiftRows, SubBytes, AfterRounds;
    var w := ExpandedKey(key);
    var s := AfterRounds(w, input, ROUNDS - 1);
    KeyByQuads(key, ROUNDS);
    ShiftByQuads(s);
    AddByQuads(ShiftRows(SubBytes(s)), w[ROUNDS]);
  }

  // --------------------------------------------------------------------------
  // The key 00 01 02 ... 1f and its schedule
  // --------------------------------------------------------------------------

  predicate IsExampleKey(key: Key) {
    && WordAt(key, 0) == Word(0x00, 0x01, 0x02, 0x03)
    && WordAt(key, 1) == Word(0x04, 0x05, 0x06, 0x07)
    && WordAt(key, 2) == Word(0x08, 0x09, 0x0a, 0x0b)
    && WordAt(key, 3) == Word(0x0c, 0x0d, 0x0e, 0x0f)
    && WordAt(key, 4) == Word(0x10, 0x11, 0x12, 0x13)
    && WordAt(key, 5) == Word(0x14, 0x15, 0x16, 0x17)
    && WordAt(key, 6) == Word(0x18, 0x19, 0x1a, 0x1b)
    && WordAt(key, 7) == Word(0x1c, 0x1d, 0x1e, 0x1f)
  }

  predicate IsExampleBlock(input: Block) {
    QuadOf(input) == Quad(Word(0x00, 0x11, 0x22, 0x33), Word(0x44, 0x55, 0x66, 0x77),
         Word(0x88, 0x99, 0xaa, 0xbb), Word(0xcc, 0xdd, 0xee, 0xff))
  }

  // Four words of the schedule from those eight places back and the transformed word before them.
  function NextQuad(back: Quad, temp: Word): Quad {
    var c0 := XorWords(back.c0, temp);
    var c1 := XorWords(back.c1, c0);
    var c2 := XorWords(back.c2, c1);
    Quad(c0, c1, c2, XorWords(back.c3, c2))
  }

  lemma NextKey(key: Key, round: nat)
    requires round >= 2
    ensures KeyQuad(key, round)
         == NextQuad(KeyQuad(key, round - 2), KeyStep(KeyQuad(key, round - 1).c3, 4 * round))
  {
    hide KeyWord, KeyStep, XorWords;
    WordRecurs(key, 4 * round);
    WordRecurs(key, 4 * round + 1);
    WordRecurs(key, 4 * round + 2);
    WordRecurs(key, 4 * round + 3);
    PlainStep(KeyWord(key, 4 * round), 4 * round + 1);
    PlainStep(KeyWord(key, 4 * round + 1), 4 * round + 2);
    PlainStep(KeyWord(key, 4 * round + 2), 4 * round + 3);
  }

  lemma WordRecurs(key: Key, i: nat)
    requires i >= KEY_WORDS
    ensures KeyWord(key, i) == XorWords(KeyWord(key, i - KEY_WORDS), KeyStep(KeyWord(key, i - 1), i))
  {
    hide KeyStep, XorWords;
  }

  lemma PlainStep(temp: Word, i: nat)
    requires i % 4 != 0
    ensures KeyStep(temp, i) == temp
  {
    hide SubWord, RotWord, RoundConstant;
  }

  lemma Constants()
    ensures RoundConstant(1) == 0x01 && RoundConstant(2) == 0x02 && RoundConstant(3) == 0x04
    ensures RoundConstant(4) == 0x08 && RoundConstant(5) == 0x10
    ensures RoundConstant(6) == 0x20 && RoundConstant(7) == 0x40
  {
    assert RoundConstant(1) == 0x01;
    assert RoundConstant(2) == 0x02;
    assert RoundConstant(3) == 0x04;
    assert RoundConstant(4) == 0x08;
    assert RoundConstant(5) == 0x10;
    assert RoundConstant(6) == 0x20;
  }

  lemma Temp2()
    ensures KeyStep(Word(0x1c, 0x1d, 0x1e, 0x1f), 8) == Word(0xa5, 0x72, 0xc0, 0x9c)
  {
    hide RoundConstant;
    Constants();
  }

  lemma Temp3()
    ensures KeyStep(Word(0xa5, 0x72, 0xc0, 0x9c), 12) == Word(0x06, 0x40, 0xba, 0xde)
  {
    hide RoundConstant;
  }

  lemma Temp4()
    ensures KeyStep(Word(0x06, 0x40, 0xba, 0xde), 16) == Word(0x0b, 0xf4, 0x1d, 0x6f)
  {
    hide RoundConstant;
    Constants();
  }

  lemma Temp5()
    ensures KeyStep(Word(0x03, 0xfc, 0x15, 0x67), 20) == Word(0x7b, 0xb0, 0x59, 0x85)
  {
    hide RoundConstant;
  }

  lemma Temp6()
    ensures KeyStep(Word(0x73, 0xb8, 0x51, 0x8d), 24) == Word(0x68, 0xd1, 0x5d, 0x8f)
  {
    hide RoundConstant;
    Constants();
  }

  lemma Temp7()
    ensures KeyStep(Word(0x6c, 0xd5, 0x59, 0x8b), 28) == Word(0x50, 0x03, 0xcb, 0x3d)
  {
    hide RoundConstant;
  }

  lemma Temp8()
    ensures KeyStep(Word(0x54, 0x07, 0xcf, 0x39), 32) == Word(0xcd, 0x8a, 0x12, 0x20)
  {
    hide RoundConstant;
    Constants();
  }

  lemma Temp9()
    ensures KeyStep(Word(0xc1, 0x87, 0x1c, 0x2f), 36) == Word(0x78, 0x17, 0x9c, 0x15)
  {
    hide RoundConstant;
  }

  lemma Temp10()
    ensures KeyStep(Word(0x64, 0x0a, 0x82, 0x0a), 40) == Word(0x77, 0x13, 0x67, 0x43)
  {
    hide RoundConstant;
    Constants();
  }

  lemma Temp11()
    ensures KeyStep(Word(0xd2, 0x61, 0xa7, 0xdf), 44) == Word(0xb5, 0xef, 0x5c, 0x9e)
  {
    hide RoundConstant;
  }

  lemma Temp12()
    ensures KeyStep(Word(0xb3, 0xaf, 0xe6, 0x40), 48) == Word(0x59, 0x8e, 0x09, 0x6d)
  {
    hide RoundConstant;
    Constants();
  }

  lemma Temp13()
    ensures KeyStep(Word(0x5a, 0x72, 0x1c, 0x0a), 52) == Word(0xbe, 0x40, 0x9c, 0x67)
  {
    hide RoundConstant;
  }

  lemma Temp14()
    ensures KeyStep(Word(0xcd, 0xf8, 0xcd, 0xea), 56) == Word(0x01, 0xbd, 0x87, 0xbd)
  {
    hide RoundConstant;
    Constants();
  }

  lemma Key0(key: Key)
    requires IsExampleKey(key)
    ensures KeyQuad(key, 0) == Quad(Word(0x00, 0x01, 0x02, 0x03), Word(0x04, 0x05, 0x06, 0x07),
         Word(0x08, 0x09, 0x0a, 0x0b), Word(0x0c, 0x0d, 0x0e, 0x0f))
  {
  }

  lemma Key1(key: Key)
    requires IsExampleKey(key)
    ensures KeyQuad(key, 1) == Quad(Word(0x10, 0x11, 0x12, 0x13), Word(0x14, 0x15, 0x16, 0x17),
         Word(0x18, 0x19, 0x1a, 0x1b), Word(0x1c, 0x1d, 0x1e, 0x1f))
  {
  }

  lemma Key2(key: Key)
    requires IsExampleKey(key)
    ensures KeyQuad(key, 2) == Quad(Word(0xa5, 0x73, 0xc2, 0x9f), Word(0xa1, 0x76, 0xc4, 0x98),
         Word(0xa9, 0x7f, 0xce, 0x93), Word(0xa5, 0x72, 0xc0, 0x9c))
  {
    hide KeyQuad, IsExampleKey, KeyStep;
    Key0(key);
    Key1(key);
    NextKey(key, 2);
    Temp2();
  }

  lemma Key3(key: Key)
    requires IsExampleKey(key)
    ensures KeyQuad(key, 3) == Quad(Word(0x16, 0x51, 0xa8, 0xcd), Word(0x02, 0x44, 0xbe, 0xda),
         Word(0x1a, 0x5d, 0xa4, 0xc1), Word(0x06, 0x40, 0xba, 0xde))
  {
    hide KeyQuad, IsExampleKey, KeyStep;
    Key1(key);
    Key2(key);
    NextKey(key, 3);
    Temp3();
  }

  lemma Key4(key: Key)
    requires IsExampleKey(key)
    ensures KeyQuad(key, 4) == Quad(Word(0xae, 0x87, 0xdf, 0xf0), Word(0x0f, 0xf1, 0x1b, 0x68),
         Word(0xa6, 0x8e, 0xd5, 0xfb), Word(0x03, 0xfc, 0x15, 0x67))
  {
    hide KeyQuad, IsExampleKey, KeyStep;
    Key2(key);
    Key3(key);
    NextKey(key, 4);
    Temp4();
  }

  lemma Key5(key: Key)
    requires IsExampleKey(key)
    ensures KeyQuad(key, 5) == Quad(Word(0x6d, 0xe1, 0xf1, 0x48), Word(0x6f, 0xa5, 0x4f, 0x92),
         Word(0x75, 0xf8, 0xeb, 0x53), Word(0x73, 0xb8, 0x51, 0x8d))
  {
    hide KeyQuad, IsExampleKey, KeyStep;
    Key3(key);
    Key4(key);
    NextKey(key, 5);
    Temp5();
  }

  lemma Key6(key: Key)
    requires IsExampleKey(key)
    ensures KeyQuad(key, 6) == Quad(Word(0xc6, 0x56, 0x82, 0x7f), Word(0xc9, 0xa7, 0x99, 0x17),
         Word(0x6f, 0x29, 0x4c, 0xec), Word(0x6c, 0xd5, 0x59, 0x8b))
  {
    hide KeyQuad, IsExampleKey, KeyStep;
    Key4(key);
    Key5(key);
    NextKey(key, 6);
    Temp6();
  }

  lemma Key7(key: Key)
    requires IsExampleKey(key)
    ensures KeyQuad(key, 7) == Quad(Word(0x3d, 0xe2, 0x3a, 0x75), Word(0x52, 0x47, 0x75, 0xe7),
         Word(0x27, 0xbf, 0x9e, 0xb4), Word(0x54, 0x07, 0xcf, 0x39))
  {
    hide KeyQuad, IsExampleKey, KeyStep;
    Key5(key);
    Key6(key);
    NextKey(key, 7);
    Temp7();
  }

  lemma Key8(key: Key)
    requires IsExampleKey(key)
    ensures KeyQuad(key, 8) == Quad(Word(0x0b, 0xdc, 0x90, 0x5f), Word(0xc2, 0x7b, 0x09, 0x48),
         Word(0xad, 0x52, 0x45, 0xa4), Word(0xc1, 0x87, 0x1c, 0x2f))
  {
    hide KeyQuad, IsExampleKey, KeyStep;
    Key6(key);
    Key7(key);
    NextKey(key, 8);
    Temp8();
  }

  lemma Key9(key: Key)
    requires IsExampleKey(key)
    ensures KeyQuad(key, 9) == Quad(Word(0x45, 0xf5, 0xa6, 0x60), Word(0x17, 0xb2, 0xd3, 0x87),
         Word(0x30, 0x0d, 0x4d, 0x33), Word(0x64, 0x0a, 0x82, 0x0a))
  {
    hide KeyQuad, IsExampleKey, KeyStep;
    Key7(key);
    Key8(key);
    NextKey(key, 9);
    Temp9();
  }

  lemma Key10(key: Key)
    requires IsExampleKey(key)
    ensures KeyQuad(key, 10) == Quad(Word(0x7c, 0xcf, 0xf7, 0x1c), Word(0xbe, 0xb4, 0xfe, 0x54),
         Word(0x13, 0xe6, 0xbb, 0xf0), Word(0xd2, 0x61, 0xa7, 0xdf))
  {
    hide KeyQuad, IsExampleKey, KeyStep;
    Key8(key);
    Key9(key);
    NextKey(key, 10);
    Temp10();
  }

  lemma Key11(key: Key)
    requires IsExampleKey(key)
    ensures KeyQuad(key, 11) == Quad(Word(0xf0, 0x1a, 0xfa, 0xfe), Word(0xe7, 0xa8, 0x29, 0x79),
         Word(0xd7, 0xa5, 0x64, 0x4a), Word(0xb3, 0xaf, 0xe6, 0x40))
  {
    hide KeyQuad, IsExampleKey, KeyStep;
    Key9(key);
    Key10(key);
    NextKey(key, 11);
    Temp11();
  }

  lemma Key12(key: Key)
    requires IsExampleKey(key)
    ensures KeyQuad(key, 12) == Quad(Word(0x25, 0x41, 0xfe, 0x71), Word(0x9b, 0xf5, 0x00, 0x25),
         Word(0x88, 0x13, 0xbb, 0xd5), Word(0x5a, 0x72, 0x1c, 0x0a))
  {
    hide KeyQuad, IsExampleKey, KeyStep;
    Key10(key);
    Key11(key);
    NextKey(key, 12);
    Temp12();
  }

  lemma Key13(key: Key)
    requires IsExampleKey(key)
    ensures KeyQuad(key, 13) == Quad(Word(0x4e, 0x5a, 0x66, 0x99), Word(0xa9, 0xf2, 0x4f, 0xe0),
         Word(0x7e, 0x57, 0x2b, 0xaa), Word(0xcd, 0xf8, 0xcd, 0xea))
  {
    hide KeyQuad, IsExampleKey, KeyStep;
    Key11(key);
    Key12(key);
    NextKey(key, 13);
    Temp13();
  }

  lemma Key14(key: Key)
    requires IsExampleKey(key)
    ensures KeyQuad(key, 14) == Quad(Word(0x24, 0xfc, 0x79, 0xcc), Word(0xbf, 0x09, 0x79, 0xe9),
         Word(0x37, 0x1a, 0xc2, 0x3c), Word(0x6d, 0x68, 0xde, 0x36))
  {
    hide KeyQuad, IsExampleKey, KeyStep;
    Key12(key);
    Key13(key);
    NextKey(key, 14);
    Temp14();
  }

  // --------------------------------------------------------------------------
  // The rounds
  // --------------------------------------------------------------------------

  lemma Round0(key: Key, input: Block)
    requires IsExampleKey(key) && IsExampleBlock(input)
    ensures State(key, input, 0) == Quad(Word(0x00, 0x10, 0x20, 0x30), Word(0x40, 0x50, 0x60, 0x70),
         Word(0x80, 0x90, 0xa0, 0xb0), Word(0xc0, 0xd0, 0xe0, 0xf0))
  {
    hide KeyQuad, IsExampleKey, State;
    FirstState(key, input);
    Key0(key);
  }

  lemma Round1(key: Key, input: Block)
    requires IsExampleKey(key) && IsExampleBlock(input)
    ensures State(key, input, 1) == Quad(Word(0x4f, 0x63, 0x76, 0x06), Word(0x43, 0xe0, 0xaa, 0x85),
         Word(0xef, 0xa7, 0x21, 0x32), Word(0x01, 0xa4, 0xe7, 0x05))
  {
    hide KeyQuad, IsExampleKey, State;
    Round0(key, input);
    Key1(key);
    NextState(key, input, 1);
  }

  lemma Round2(key: Key, input: Block)
    requires IsExampleKey(key) && IsExampleBlock(input)
    ensures State(key, input, 2) == Quad(Word(0x18, 0x59, 0xfb, 0xc2), Word(0x8a, 0x1c, 0x00, 0xa0),
         Word(0x78, 0xed, 0x8a, 0xad), Word(0xc4, 0x2f, 0x61, 0x09))
  {
    hide KeyQuad, IsExampleKey, State;
    Round1(key, input);
    Key2(key);
    NextState(key, input, 2);
  }

  lemma Round3(key: Key, input: Block)
    requires IsExampleKey(key) && IsExampleBlock(input)
    ensures State(key, input, 3) == Quad(Word(0x97, 0x5c, 0x66, 0xc1), Word(0xcb, 0x9f, 0x3f, 0xa8),
         Word(0xa9, 0x3a, 0x28, 0xdf), Word(0x8e, 0xe1, 0x0f, 0x63))
  {
    hide KeyQuad, IsExampleKey, State;
    Round2(key, input);
    Key3(key);
    NextState(key, input, 3);
  }

  lemma Round4(key: Key, input: Block)
    requires IsExampleKey(key) && IsExampleBlock(input)
    ensures State(key, input, 4) == Quad(Word(0x1c, 0x05, 0xf2, 0x71), Word(0xa4, 0x17, 0xe0, 0x4f),
         Word(0xf9, 0x21, 0xc5, 0xc1), Word(0x04, 0x70, 0x15, 0x54))
  {
    hide KeyQuad, IsExampleKey, State;
    Round3(key, input);
    Key4(key);
    NextState(key, input, 4);
  }

  lemma Round5(key: Key, input: Block)
    requires IsExampleKey(key) && IsExampleBlock(input)
    ensures State(key, input, 5) == Quad(Word(0xc3, 0x57, 0xaa, 0xe1), Word(0x1b, 0x45, 0xb7, 0xb0),
         Word(0xa2, 0xc7, 0xbd, 0x28), Word(0xa8, 0xdc, 0x99, 0xfa))
  {
    hide KeyQuad, IsExampleKey, State;
    Round4(key, input);
    Key5(key);
    NextState(key, input, 5);
  }

  lemma Round6(key: Key, input: Block)
    requires IsExampleKey(key) && IsExampleBlock(input)
    ensures State(key, input, 6) == Quad(Word(0x7f, 0x07, 0x41, 0x43), Word(0xcb, 0x4e, 0x24, 0x3e),
         Word(0xc1, 0x0c, 0x81, 0x5d), Word(0x83, 0x75, 0xd5, 0x4c))
  {
    hide KeyQuad, IsExampleKey, State;
    Round5(key, input);
    Key6(key);
    NextState(key, input, 6);
  }

  lemma Round7(key: Key, input: Block)
    requires IsExampleKey(key) && IsExampleBlock(input)
    ensures State(key, input, 7) == Quad(Word(0xd6, 0x53, 0xa4, 0x69), Word(0x6c, 0xa0, 0xbc, 0x0f),
         Word(0x5a, 0xca, 0xab, 0x5d), Word(0xb9, 0x6c, 0x5e, 0x7d))
  {
    hide KeyQuad, IsExampleKey, State;
    Round6(key, input);
    Key7(key);
    NextState(key, input, 7);
  }

  lemma Round8(key: Key, input: Block)
    requires IsExampleKey(key) && IsExampleBlock(input)
    ensures State(key, input, 8) == Quad(Word(0x5a, 0xa8, 0x58, 0x39), Word(0x5f, 0xd2, 0x8d, 0x7d),
         Word(0x05, 0xe1, 0xa3, 0x88), Word(0x68, 0xf3, 0xb9, 0xc5))
  {
    hide KeyQuad, IsExampleKey, State;
    Round7(key, input);
    Key8(key);
    NextState(key, input, 8);
  }

  lemma Round9(key: Key, input: Block)
    requires IsExampleKey(key) && IsExampleBlock(input)
    ensures State(key, input, 9) == Quad(Word(0x4a, 0x82, 0x48, 0x51), Word(0xc5, 0x7e, 0x7e, 0x47),
         Word(0x64, 0x3d, 0xe5, 0x0c), Word(0x2a, 0xf3, 0xe8, 0xc9))
  {
    hide KeyQuad, IsExampleKey, State;
    Round8(key, input);
    Key9(key);
    NextState(key, input, 9);
  }

  lemma Round10(key: Key, input: Block)
    requires IsExampleKey(key) && IsExampleBlock(input)
    ensures State(key, input, 10) == Quad(Word(0xc1, 0x49, 0x07, 0xf6), Word(0xca, 0x3b, 0x3a, 0xa0),
         Word(0x70, 0xe9, 0xaa, 0x31), Word(0x3b, 0x52, 0xb5, 0xec))
  {
    hide KeyQuad, IsExampleKey, State;
    Round9(key, input);
    Key10(key);
    NextState(key, input, 10);
  }

  lemma Round11(key: Key, input: Block)
    requires IsExampleKey(key) && IsExampleBlock(input)
    ensures State(key, input, 11) == Quad(Word(0x5f, 0x9c, 0x6a, 0xbf), Word(0xba, 0xc6, 0x34, 0xaa),
         Word(0x50, 0x40, 0x9f, 0xa7), Word(0x66, 0x67, 0x76, 0x53))
  {
    hide KeyQuad, IsExampleKey, State;
    Round10(key, input);
    Key11(key);
    NextState(key, input, 11);
  }

  lemma Round12(key: Key, input: Block)
    requires IsExampleKey(key) && IsExampleBlock(input)
    ensures State(key, input, 12) == Quad(Word(0x51, 0x66, 0x04, 0x95), Word(0x43, 0x53, 0x95, 0x03),
         Word(0x14, 0xfb, 0x86, 0xe4), Word(0x01, 0x92, 0x25, 0x21))
  {
    hide KeyQuad, IsExampleKey, State;
    Round11(key, input);
    Key12(key);
    NextState(key, input, 12);
  }

  lemma Round13(key: Key, input: Block)
    requires IsExampleKey(key) && IsExampleBlock(input)
    ensures State(key, input, 13) == Quad(Word(0x62, 0x7b, 0xce, 0xb9), Word(0x99, 0x9d, 0x5a, 0xaa),
         Word(0xc9, 0x45, 0xec, 0xf4), Word(0x23, 0xf5, 0x6d, 0xa5))
  {
    hide KeyQuad, IsExampleKey, State;
    Round12(key, input);
    Key13(key);
    NextState(key, input, 13);
  }

  /** The cipher gives the published ciphertext, and the inverse cipher takes it back. */
  lemma PublishedExample(key: Key, input: Block)
    requires IsExampleKey(key) && IsExampleBlock(input)
    ensures QuadOf(Cipher(ExpandedKey(key), input)) == Quad(Word(0x8e, 0xa2, 0xb7, 0xca), Word(0x51, 0x67, 0x45, 0xbf),
         Word(0xea, 0xfc, 0x49, 0x90), Word(0x4b, 0x49, 0x60, 0x89))
    ensures InvCipher(ExpandedKey(key), Cipher(ExpandedKey(key), input)) == input
  {
    hide KeyQuad, IsExampleKey, State, Cipher, InvCipher, ExpandedKey, QuadOf;
    Round13(key, input);
    Key14(key);
    LastState(key, input);
    InvCipherUndoesCipher(ExpandedKey(key), input);
  }
}
