/**
 * Columns of the state as polynomials over GF(2^8) modulo x^4 + 1 (section 4.3 of FIPS 197).
 * Their product is associative, which is what makes InvMixColumns undo MixColumns.
 */
module Columns {
  import opened Octets
  import opened Galois

  /** A column of the state, or a word of the key schedule. */
  datatype Word = Word(b0: byte, b1: byte, b2: byte, b3: byte)

  function Dot(c: Word, k: Word): byte {
    Sum4(Product(c.b0, k.b0), Product(c.b1, k.b1), Product(c.b2, k.b2), Product(c.b3, k.b3))
  }

  // The rows of the circulant matrix of `a`.
  function Row0(a: Word): Word { Word(a.b0, a.b3, a.b2, a.b1) }
  function Row1(a: Word): Word { Word(a.b1, a.b0, a.b3, a.b2) }
  function Row2(a: Word): Word { Word(a.b2, a.b1, a.b0, a.b3) }
  function Row3(a: Word): Word { Word(a.b3, a.b2, a.b1, a.b0) }

  /** The product of the polynomials `a` and `c` modulo x^4 + 1, in the matrix form of section 4.3. */
  function Times(a: Word, c: Word): Word {
    Word(Dot(c, Row0(a)), Dot(c, Row1(a)), Dot(c, Row2(a)), Dot(c, Row3(a)))
  }

  // {03}x^3 + {01}x^2 + {01}x + {02}, its inverse {0b}x^3 + {0d}x^2 + {09}x + {0e}, and {01}
  const MIX := Word(0x02, 0x01, 0x01, 0x03)
  const UNMIX := Word(0x0e, 0x09, 0x0d, 0x0b)
  const UNIT := Word(0x01, 0x00, 0x00, 0x00)

  function Scaled(c: Word, m: Word, k: byte): Word {
    Word(Product(c.b0, Product(m.b0, k)), Product(c.b1, Product(m.b1, k)),
         Product(c.b2, Product(m.b2, k)), Product(c.b3, Product(m.b3, k)))
  }

  function Sum(w: Word): byte {
    Sum4(w.b0, w.b1, w.b2, w.b3)
  }

  lemma DotScales(c: Word, m: Word, k: byte)
    ensures Product(Dot(c, m), k) == Sum(Scaled(c, m, k))
  {
    var p0, p1, p2, p3 := Product(c.b0, m.b0), Product(c.b1, m.b1), Product(c.b2, m.b2), Product(c.b3, m.b3);
    ProductAdditiveLeft(Xor(p0, p1), Xor(p2, p3), k);
    ProductAdditiveLeft(p0, p1, k);
    ProductAdditiveLeft(p2, p3, k);
    ProductAssociates(c.b0, m.b0, k);
    ProductAssociates(c.b1, m.b1, k);
    ProductAssociates(c.b2, m.b2, k);
    ProductAssociates(c.b3, m.b3, k);
  }

  lemma ProductBySum(x: byte, w: Word)
    ensures Product(x, Sum(w)) == Sum4(Product(x, w.b0), Product(x, w.b1), Product(x, w.b2), Product(x, w.b3))
  {
    ProductAdditiveRight(x, Xor(w.b0, w.b1), Xor(w.b2, w.b3));
    ProductAdditiveRight(x, w.b0, w.b1);
    ProductAdditiveRight(x, w.b2, w.b3);
  }

  lemma Transpose(r0: Word, r1: Word, r2: Word, r3: Word)
    ensures Sum4(Sum(r0), Sum(r1), Sum(r2), Sum(r3))
         == Sum4(Sum4(r0.b0, r1.b0, r2.b0, r3.b0), Sum4(r0.b1, r1.b1, r2.b1, r3.b1),
                 Sum4(r0.b2, r1.b2, r2.b2, r3.b2), Sum4(r0.b3, r1.b3, r2.b3, r3.b3))
  {
    SumsAdd(r0.b0, r0.b1, r0.b2, r0.b3, r1.b0, r1.b1, r1.b2, r1.b3);
    SumsAdd(r2.b0, r2.b1, r2.b2, r2.b3, r3.b0, r3.b1, r3.b2, r3.b3);
    SumsAdd(Xor(r0.b0, r1.b0), Xor(r0.b1, r1.b1), Xor(r0.b2, r1.b2), Xor(r0.b3, r1.b3),
            Xor(r2.b0, r3.b0), Xor(r2.b1, r3.b1), Xor(r2.b2, r3.b2), Xor(r2.b3, r3.b3));
  }

  // Matrix times matrix times column: the inner sum may be taken first on either side.
  lemma DotExchanges(c: Word, k: Word, m0: Word, m1: Word, m2: Word, m3: Word)
    ensures Dot(Word(Dot(c, m0), Dot(c, m1), Dot(c, m2), Dot(c, m3)), k)
         == Dot(c, Word(Dot(Word(m0.b0, m1.b0, m2.b0, m3.b0), k), Dot(Word(m0.b1, m1.b1, m2.b1, m3.b1), k),
                        Dot(Word(m0.b2, m1.b2, m2.b2, m3.b2), k), Dot(Word(m0.b3, m1.b3, m2.b3, m3.b3), k)))
  {
    DotScales(c, m0, k.b0);
    DotScales(c, m1, k.b1);
    DotScales(c, m2, k.b2);
    DotScales(c, m3, k.b3);
    Transpose(Scaled(c, m0, k.b0), Scaled(c, m1, k.b1), Scaled(c, m2, k.b2), Scaled(c, m3, k.b3));
    ProductBySum(c.b0, Word(Product(m0.b0, k.b0), Product(m1.b0, k.b1), Product(m2.b0, k.b2), Product(m3.b0, k.b3)));
    ProductBySum(c.b1, Word(Product(m0.b1, k.b0), Product(m1.b1, k.b1), Product(m2.b1, k.b2), Product(m3.b1, k.b3)));
    ProductBySum(c.b2, Word(Product(m0.b2, k.b0), Product(m1.b2, k.b1), Product(m2.b2, k.b2), Product(m3.b2, k.b3)));
    ProductBySum(c.b3, Word(Product(m0.b3, k.b0), Product(m1.b3, k.b1), Product(m2.b3, k.b2), Product(m3.b3, k.b3)));
  }

  function Turn(w: Word): Word {
    Word(w.b3, w.b0, w.b1, w.b2)
  }

  lemma DotTurns(c: Word, k: Word)
    ensures Dot(Turn(c), Turn(k)) == Dot(c, k)
  {
    var p0, p1, p2, p3 := Product(c.b0, k.b0), Product(c.b1, k.b1), Product(c.b2, k.b2), Product(c.b3, k.b3);
    XorCommutes(Xor(p0, p1), Xor(p2, p3));
    XorSwapsMiddle(p3, p0, p1, p2);
    XorSwapsMiddle(p0, p1, p2, p3);
    XorCommutes(p0, p2);
    XorCommutes(p1, p3);
    XorSwapsMiddle(p1, p3, p2, p0);
    XorCommutes(p3, p0);
    XorCommutes(Xor(p3, p1), Xor(p0, p2));
  }

  // Row k of a matrix times the circulant of `b` is the row (k . b, k . b turned, ...).
  lemma DotOfTimes(b: Word, c: Word, k: Word)
    ensures Dot(Times(b, c), k)
         == Dot(c, Word(Dot(b, k), Dot(Turn(b), k), Dot(Turn(Turn(b)), k), Dot(Turn(Turn(Turn(b))), k)))
  {
    DotExchanges(c, k, Row0(b), Row1(b), Row2(b), Row3(b));
  }

  lemma TimesAssociates(a: Word, b: Word, c: Word)
    ensures Times(a, Times(b, c)) == Times(Times(a, b), c)
  {
    RowAssociates(a, b, c, Row0(a), Row3(a), Row2(a), Row1(a));
    RowAssociates(a, b, c, Row1(a), Row0(a), Row3(a), Row2(a));
    RowAssociates(a, b, c, Row2(a), Row1(a), Row0(a), Row3(a));
    RowAssociates(a, b, c, Row3(a), Row2(a), Row1(a), Row0(a));
  }

  lemma RowAssociates(a: Word, b: Word, c: Word, k: Word, k1: Word, k2: Word, k3: Word)
    requires k == Turn(k1) && k1 == Turn(k2) && k2 == Turn(k3)
    ensures Dot(Times(b, c), k) == Dot(c, Word(Dot(b, k), Dot(b, k1), Dot(b, k2), Dot(b, k3)))
  {
    DotOfTimes(b, c, k);
    DotTurns(b, k1);
    DotTurns(Turn(b), k1);
    DotTurns(b, k2);
    DotTurns(Turn(Turn(b)), k1);
    DotTurns(Turn(b), k2);
    DotTurns(b, k3);
  }

  lemma UnitTimes(c: Word)
    ensures Times(UNIT, c) == c
  {
    ProductOne(c.b0);
    ProductOne(c.b1);
    ProductOne(c.b2);
    ProductOne(c.b3);
  }

  // Products of the coefficients of the two polynomials.
  lemma MixTimesUnmix()
    ensures Product(0x02, 0x0e) == 0x1c
    ensures Product(0x02, 0x09) == 0x12
    ensures Product(0x02, 0x0d) == 0x1a
    ensures Product(0x02, 0x0b) == 0x16
    ensures Product(0x03, 0x0e) == 0x12
    ensures Product(0x03, 0x09) == 0x1b
    ensures Product(0x03, 0x0d) == 0x17
    ensures Product(0x03, 0x0b) == 0x1d
  {}

  lemma UnmixTimesMix()
    ensures Product(0x0e, 0x02) == 0x1c
    ensures Product(0x09, 0x02) == 0x12
    ensures Product(0x0d, 0x02) == 0x1a
    ensures Product(0x0b, 0x02) == 0x16
    ensures Product(0x0e, 0x03) == 0x12
    ensures Product(0x09, 0x03) == 0x1b
    ensures Product(0x0d, 0x03) == 0x17
    ensures Product(0x0b, 0x03) == 0x1d
  {}

  lemma MixingCancels()
    ensures Times(UNMIX, MIX) == UNIT
    ensures Times(MIX, UNMIX) == UNIT
  {
    MixTimesUnmix();
    UnmixTimesMix();
    OneTimes(0x0e);
    OneTimes(0x09);
    OneTimes(0x0d);
    OneTimes(0x0b);
    ProductOne(0x0e);
    ProductOne(0x09);
    ProductOne(0x0d);
    ProductOne(0x0b);
  }

  /** The two fixed polynomials of MixColumns and InvMixColumns are inverse to each other. */
  lemma UnmixUndoesMix(c: Word)
    ensures Times(UNMIX, Times(MIX, c)) == c
    ensures Times(MIX, Times(UNMIX, c)) == c
  {
    TimesAssociates(UNMIX, MIX, c);
    TimesAssociates(MIX, UNMIX, c);
    MixingCancels();
    UnitTimes(c);
  }

  /** MixColumns as section 5.1.3 writes it out: a byte twice, the next one three times, and the other two. */
  lemma MixByBytes(w: Word)
    ensures Times(MIX, w) == Word(
      Sum4(XTime(w.b0), Xor(w.b1, XTime(w.b1)), w.b2, w.b3),
      Sum4(w.b0, XTime(w.b1), Xor(w.b2, XTime(w.b2)), w.b3),
      Sum4(w.b0, w.b1, XTime(w.b2), Xor(w.b3, XTime(w.b3))),
      Sum4(Xor(w.b0, XTime(w.b0)), w.b1, w.b2, XTime(w.b3)))
  {
    hide Sum4, XTime, Xor, Product;
    ProductSmall(w.b0);
    ProductSmall(w.b1);
    ProductSmall(w.b2);
    ProductSmall(w.b3);
  }

  lemma ProductSmall(x: byte)
    ensures Product(x, 1) == x && Product(x, 2) == XTime(x) && Product(x, 3) == Xor(x, XTime(x))
  {
    ProductOne(x);
    ProductOne(XTime(x));
    ProductEven(x, 2);
    ProductOdd(x, 3);
  }
}
