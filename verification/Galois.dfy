/**
 * Arithmetic in GF(2^8), section 4 of FIPS 197: bytes are polynomials over GF(2)
 * modulo x^8 + x^4 + x^3 + x + 1.
 *
 * `XTime` and `Multiply` are the routines the cipher runs. `Product` is the field
 * multiplication they are measured against, and its ring laws carry the proof that
 * MixColumns is invertible.
 */
module Galois {
  import opened Octets

  // --------------------------------------------------------------------------
  // Addition: the abelian group of bytes under exclusive or
  // --------------------------------------------------------------------------

  function Sum4(a: byte, b: byte, c: byte, d: byte): byte {
    Xor(Xor(a, b), Xor(c, d))
  }

  lemma XorAssociates(a: byte, b: byte, c: byte)
    ensures Xor(Xor(a, b), c) == Xor(a, Xor(b, c))
  {}

  lemma XorCancels(a: byte, b: byte)
    ensures Xor(Xor(a, b), b) == a
  {}

  lemma XorSwapsMiddle(a: byte, b: byte, c: byte, d: byte)
    ensures Xor(Xor(a, b), Xor(c, d)) == Xor(Xor(a, c), Xor(b, d))
  {
    XorAssociates(a, b, Xor(c, d));
    XorAssociates(b, c, d);
    XorCommutes(b, c);
    XorAssociates(c, b, d);
    XorAssociates(a, c, Xor(b, d));
  }

  // Adding two 4-term sums adds them term by term.
  lemma SumsAdd(a: byte, b: byte, c: byte, d: byte, a': byte, b': byte, c': byte, d': byte)
    ensures Xor(Sum4(a, b, c, d), Sum4(a', b', c', d'))
         == Sum4(Xor(a, a'), Xor(b, b'), Xor(c, c'), Xor(d, d'))
  {
    XorSwapsMiddle(Xor(a, b), Xor(c, d), Xor(a', b'), Xor(c', d'));
    XorSwapsMiddle(a, b, a', b');
    XorSwapsMiddle(c, d, c', d');
  }

  // --------------------------------------------------------------------------
  // Multiplication
  // --------------------------------------------------------------------------

  function XTime(x: byte): byte {
    (x << 1) ^ (((x >> 7) & 1) * 0x1b)
  }

  /** `x`, if the lowest bit of `y` is set. */
  function Bit(x: byte, y: byte): (r: byte)
    ensures r == if y & 1 == 1 then x else 0
  {
    assert y & 1 == 0 || y & 1 == 1;
    (y & 1) * x
  }

  /** Section 4.2.1 of FIPS 197: repeated multiplication by x, adding the terms that y selects. */
  function Product(x: byte, y: byte): byte
    decreases y
  {
    if y == 0 then 0 else Xor(Bit(x, y), Product(XTime(x), y >> 1))
  }

  function Multiply(x: byte, y: byte): byte {
    Xor(Xor(Xor(Xor(
      Bit(x, y),
      Bit(XTime(x), y >> 1)),
      Bit(XTime(XTime(x)), y >> 2)),
      Bit(XTime(XTime(XTime(x))), y >> 3)),
      Bit(XTime(XTime(XTime(XTime(x)))), y >> 4))
  }

  // `XTime` is multiplication by the polynomial x followed by reduction: the shifted
  // polynomial, minus the modulus when it has degree 8.
  lemma XTimeReduces(x: byte)
    ensures XTime(x) as bv16 == if (x as bv16) << 1 >= 0x100 then ((x as bv16) << 1) ^ 0x11b else (x as bv16) << 1
  {}

  lemma XTimeAdditive(x: byte, y: byte)
    ensures XTime(Xor(x, y)) == Xor(XTime(x), XTime(y))
  {}

  lemma BitAdditive(x: byte, x': byte, y: byte)
    ensures Bit(Xor(x, x'), y) == Xor(Bit(x, y), Bit(x', y))
  {}

  lemma BitAdditiveRight(x: byte, y: byte, y': byte)
    ensures Bit(x, Xor(y, y')) == Xor(Bit(x, y), Bit(x, y'))
    ensures Xor(y, y') >> 1 == Xor(y >> 1, y' >> 1)
  {}

  lemma ProductUnfolds(x: byte, y: byte)
    ensures Product(x, y) == Xor(Bit(x, y), Product(XTime(x), y >> 1))
  {
    if y == 0 {
      assert y >> 1 == 0;
    }
  }

  lemma ProductEven(x: byte, y: byte)
    requires y & 1 == 0
    ensures Product(x, y) == Product(XTime(x), y >> 1)
  {
    ProductUnfolds(x, y);
  }

  lemma ProductOdd(x: byte, y: byte)
    requires y & 1 == 1
    ensures Product(x, y) == Xor(x, Product(XTime(x), y >> 1))
  {}

  lemma ProductOne(x: byte)
    ensures Product(x, 1) == x
  {
    ProductOdd(x, 1);
  }

  lemma {:induction false} ProductAdditiveLeft(x: byte, x': byte, y: byte)
    ensures Product(Xor(x, x'), y) == Xor(Product(x, y), Product(x', y))
    decreases y
  {
    if y != 0 {
      XTimeAdditive(x, x');
      BitAdditive(x, x', y);
      ProductAdditiveLeft(XTime(x), XTime(x'), y >> 1);
      XorSwapsMiddle(Bit(x, y), Bit(x', y), Product(XTime(x), y >> 1), Product(XTime(x'), y >> 1));
    }
  }

  lemma HalfIsSmaller(y: byte)
    ensures y == 0 ==> y >> 1 == 0
    ensures y != 0 ==> y >> 1 < y
  {}

  lemma {:induction false} ProductAdditiveRight(x: byte, y: byte, y': byte)
    ensures Product(x, Xor(y, y')) == Xor(Product(x, y), Product(x, y'))
    decreases y, y'
  {
    if y == 0 && y' == 0 {
      assert Xor(y, y') == 0;
    } else {
      HalfIsSmaller(y);
      HalfIsSmaller(y');
      ProductAdditiveRight(XTime(x), y >> 1, y' >> 1);
      ProductUnfolds(x, y);
      ProductUnfolds(x, y');
      ProductUnfolds(x, Xor(y, y'));
      BitAdditiveRight(x, y, y');
      XorSwapsMiddle(Bit(x, y), Bit(x, y'), Product(XTime(x), y >> 1), Product(XTime(x), y' >> 1));
    }
  }

  lemma {:induction false} DoubleLeft(x: byte, y: byte)
    ensures Product(XTime(x), y) == XTime(Product(x, y))
    decreases y
  {
    if y != 0 {
      DoubleLeft(XTime(x), y >> 1);
      XTimeAdditive(Bit(x, y), Product(XTime(x), y >> 1));
      assert XTime(Bit(x, y)) == Bit(XTime(x), y);
    }
  }

  lemma EighthDoubling(x: byte)
    ensures XTime(XTime(XTime(XTime(XTime(XTime(XTime(XTime(x))))))))
         == Xor(x, Xor(XTime(x), Xor(XTime(XTime(XTime(x))), XTime(XTime(XTime(XTime(x)))))))
  {}

  // x^8 and x^4 + x^3 + x + 1 are the same field element.
  lemma ModulusVanishes(x: byte)
    ensures Product(XTime(x), 0x80) == Product(x, 0x1b)
  {
    var x1 := XTime(x);
    var x2 := XTime(x1);
    var x3 := XTime(x2);
    var x4 := XTime(x3);
    var x5 := XTime(x4);
    var x6 := XTime(x5);
    var x7 := XTime(x6);
    ProductEven(x1, 0x80);
    ProductEven(x2, 0x40);
    ProductEven(x3, 0x20);
    ProductEven(x4, 0x10);
    ProductEven(x5, 0x08);
    ProductEven(x6, 0x04);
    ProductEven(x7, 0x02);
    ProductOne(XTime(x7));
    ProductOdd(x, 0x1b);
    ProductOdd(x1, 0x0d);
    ProductEven(x2, 0x06);
    ProductOdd(x3, 0x03);
    ProductOne(x4);
    EighthDoubling(x);
  }

  lemma SplitTopBit(y: byte)
    ensures y == Xor(y & 0x7f, y & 0x80)
    ensures XTime(y & 0x7f) & 1 == 0 && XTime(y & 0x7f) >> 1 == y & 0x7f
    ensures if y & 0x80 == 0 then XTime(y & 0x80) == 0 else y & 0x80 == 0x80 && XTime(y & 0x80) == 0x1b
  {}

  lemma DoubleRight(x: byte, y: byte)
    ensures Product(x, XTime(y)) == XTime(Product(x, y))
  {
    var low, high := y & 0x7f, y & 0x80;
    SplitTopBit(y);
    XTimeAdditive(low, high);
    ProductAdditiveRight(XTime(x), low, high);
    ProductAdditiveRight(x, XTime(low), XTime(high));
    ProductEven(x, XTime(low));
    ModulusVanishes(x);
    DoubleLeft(x, y);
  }

  lemma {:induction false} ProductAssociates(x: byte, y: byte, z: byte)
    ensures Product(Product(x, y), z) == Product(x, Product(y, z))
    decreases z
  {
    if z != 0 {
      DoubleRight(x, y);
      ProductAssociates(x, XTime(y), z >> 1);
      ProductAdditiveRight(x, Bit(y, z), Product(XTime(y), z >> 1));
    }
  }

  // The five terms of a product by a multiplier below 32, nested to the right.
  lemma ProductOfFiveBits(x: byte, y: byte)
    requires y < 32
    ensures var x1 := XTime(x); var x2 := XTime(x1); var x3 := XTime(x2); var x4 := XTime(x3);
      Product(x, y)
         == Xor(Bit(x, y), Xor(Bit(x1, y >> 1), Xor(Bit(x2, y >> 2), Xor(Bit(x3, y >> 3), Bit(x4, y >> 4)))))
  {
    var y1, y2, y3, y4 := y >> 1, y >> 2, y >> 3, y >> 4;
    assert y1 >> 1 == y2 && y2 >> 1 == y3 && y3 >> 1 == y4 && y4 >> 1 == 0;
    var x4 := XTime(XTime(XTime(XTime(x))));
    ProductUnfolds(x, y);
    ProductUnfolds(XTime(x), y1);
    ProductUnfolds(XTime(XTime(x)), y2);
    ProductUnfolds(XTime(XTime(XTime(x))), y3);
    ProductUnfolds(x4, y4);
    assert Xor(Bit(x4, y4), 0) == Bit(x4, y4);
  }

  lemma XorNestsRight(a: byte, b: byte, c: byte, d: byte, e: byte)
    ensures Xor(Xor(Xor(Xor(a, b), c), d), e) == Xor(a, Xor(b, Xor(c, Xor(d, e))))
  {
    XorAssociates(Xor(Xor(a, b), c), d, e);
    XorAssociates(Xor(a, b), c, Xor(d, e));
    XorAssociates(a, b, Xor(c, Xor(d, e)));
  }

  lemma MultiplyIsProduct(x: byte, y: byte)
    requires y < 32
    ensures Multiply(x, y) == Product(x, y)
  {
    var x1 := XTime(x); var x2 := XTime(x1); var x3 := XTime(x2); var x4 := XTime(x3);
    ProductOfFiveBits(x, y);
    XorNestsRight(Bit(x, y), Bit(x1, y >> 1), Bit(x2, y >> 2), Bit(x3, y >> 3), Bit(x4, y >> 4));
  }

  lemma SplitLowBit(y: byte)
    ensures Xor(Bit(1, y), XTime(y >> 1)) == y
  {}

  lemma {:induction false} OneTimes(y: byte)
    ensures Product(1, y) == y
    decreases y
  {
    if y != 0 {
      OneTimes(y >> 1);
      DoubleLeft(1, y >> 1);
      SplitLowBit(y);
    }
  }

  /** The macro multiplies in the field exactly for multipliers of at most five bits. */
  lemma MultiplyExact(y: byte)
    ensures (forall x :: Multiply(x, y) == Product(x, y)) <==> y < 32
  {
    if y < 32 {
      forall x ensures Multiply(x, y) == Product(x, y) { MultiplyIsProduct(x, y); }
    } else {
      assert Multiply(1, y) == y & 31;
      OneTimes(y);
    }
  }
}
