/**
 * Where the substitution table comes from: section 5.1.1 of FIPS 197 defines it as the inverse
 * in GF(2^8) followed by an affine transformation over GF(2).
 */
module AffineBox {
  import opened Octets
  import opened Galois
  import opened SubstitutionBox

  /** Bit i of the result adds bits i, i+4, i+5, i+6 and i+7 of `b`, and bit i of {63}. */
  function Affine(b: byte): byte {
    b ^ b.RotateLeft(1) ^ b.RotateLeft(2) ^ b.RotateLeft(3) ^ b.RotateLeft(4) ^ 0x63
  }

  function UndoAffine(b: byte): byte {
    b.RotateLeft(1) ^ b.RotateLeft(3) ^ b.RotateLeft(6) ^ 0x05
  }

  lemma AffineUndone(b: byte)
    ensures Affine(UndoAffine(b)) == b
  {}

  // The product with its eight terms side by side.
  function EightTerms(x: byte, y: byte): byte {
    var x1 := XTime(x); var x2 := XTime(x1); var x3 := XTime(x2); var x4 := XTime(x3);
    var x5 := XTime(x4); var x6 := XTime(x5); var x7 := XTime(x6);
    Xor(Bit(x, y), Xor(Bit(x1, y >> 1), Xor(Bit(x2, y >> 2), Xor(Bit(x3, y >> 3),
      Xor(Bit(x4, y >> 4), Xor(Bit(x5, y >> 5), Xor(Bit(x6, y >> 6), Bit(x7, y >> 7))))))))
  }

  lemma ProductIsEightTerms(x: byte, y: byte)
    ensures Product(x, y) == EightTerms(x, y)
  {
    hide Product, XTime, Xor, Bit;
    var x1 := XTime(x); var x2 := XTime(x1); var x3 := XTime(x2); var x4 := XTime(x3);
    var x5 := XTime(x4); var x6 := XTime(x5); var x7 := XTime(x6);
    var y1, y2, y3, y4, y5, y6, y7 := y >> 1, y >> 2, y >> 3, y >> 4, y >> 5, y >> 6, y >> 7;
    ShiftsAddUp(y);
    ProductUnfolds(x, y);
    ProductUnfolds(x1, y1);
    ProductUnfolds(x2, y2);
    ProductUnfolds(x3, y3);
    ProductUnfolds(x4, y4);
    ProductUnfolds(x5, y5);
    ProductUnfolds(x6, y6);
    LastTerm(x7, y7);
  }

  lemma ShiftsAddUp(y: byte)
    ensures (y >> 1) >> 1 == y >> 2 && (y >> 2) >> 1 == y >> 3 && (y >> 3) >> 1 == y >> 4
    ensures (y >> 4) >> 1 == y >> 5 && (y >> 5) >> 1 == y >> 6 && (y >> 6) >> 1 == y >> 7 && y >> 7 <= 1
  {}

  lemma LastTerm(x: byte, y: byte)
    requires y <= 1
    ensures Product(x, y) == Bit(x, y)
  {
    if y == 1 {
      ProductOne(x);
    }
  }

  function Term(x: byte, y: byte, mask: byte): byte {
    if y & mask == 0 then 0 else x
  }

  // The same sum, its terms picked by masks.
  function Masked(x: byte, y: byte): byte {
    var x1 := XTime(x); var x2 := XTime(x1); var x3 := XTime(x2); var x4 := XTime(x3);
    var x5 := XTime(x4); var x6 := XTime(x5); var x7 := XTime(x6);
    Xor(Term(x, y, 1), Xor(Term(x1, y, 2), Xor(Term(x2, y, 4), Xor(Term(x3, y, 8),
      Xor(Term(x4, y, 0x10), Xor(Term(x5, y, 0x20), Xor(Term(x6, y, 0x40), Term(x7, y, 0x80))))))))
  }

  lemma BitsAreTerms(x: byte, y: byte)
    ensures Bit(x, y) == Term(x, y, 1) && Bit(x, y >> 1) == Term(x, y, 2)
    ensures Bit(x, y >> 2) == Term(x, y, 4) && Bit(x, y >> 3) == Term(x, y, 8)
    ensures Bit(x, y >> 4) == Term(x, y, 0x10) && Bit(x, y >> 5) == Term(x, y, 0x20)
    ensures Bit(x, y >> 6) == Term(x, y, 0x40) && Bit(x, y >> 7) == Term(x, y, 0x80)
  {}

  lemma MaskedIsEightTerms(x: byte, y: byte)
    ensures Masked(x, y) == EightTerms(x, y)
  {
    hide XTime, Bit, Term, Xor;
    var x1 := XTime(x); var x2 := XTime(x1); var x3 := XTime(x2); var x4 := XTime(x3);
    var x5 := XTime(x4); var x6 := XTime(x5); var x7 := XTime(x6);
    BitsAreTerms(x, y);
    BitsAreTerms(x1, y);
    BitsAreTerms(x2, y);
    BitsAreTerms(x3, y);
    BitsAreTerms(x4, y);
    BitsAreTerms(x5, y);
    BitsAreTerms(x6, y);
    BitsAreTerms(x7, y);
  }

  // The 255 products of a table entry's preimage with its element, half of the table at a time.
  lemma LowerHalf(x: byte, z: byte)
    requires x != 0 && x & 0x80 == 0 && z == UndoAffine(SBox(x))
    ensures Masked(z, x) == 1
  {}

  lemma UpperHalf(x: byte, z: byte)
    requires x & 0x80 != 0 && z == UndoAffine(SBox(x))
    ensures Masked(z, x) == 1
  {}

  lemma MaskedInverse(x: byte)
    requires x != 0
    ensures Masked(UndoAffine(SBox(x)), x) == 1
  {
    hide Masked, UndoAffine, SBox;
    if x & 0x80 == 0 {
      LowerHalf(x, UndoAffine(SBox(x)));
    } else {
      UpperHalf(x, UndoAffine(SBox(x)));
    }
  }

  /** A field element has at most one inverse. */
  lemma InverseIsUnique(x: byte, y: byte, z: byte)
    requires Product(x, y) == 1 && Product(z, x) == 1
    ensures y == z
  {
    hide Product;
    OneTimes(y);
    ProductAssociates(z, x, y);
    ProductOne(z);
  }

  // What the table holds for `x`, seen through the affine transformation, is a left inverse of `x`.
  lemma LeftInverse(x: byte)
    requires x != 0
    ensures UndoAffine(SBox(x)) != 0 && Product(UndoAffine(SBox(x)), x) == 1
  {
    hide Product, EightTerms, Masked;
    MaskedInverse(x);
    MaskedIsEightTerms(UndoAffine(SBox(x)), x);
    ProductIsEightTerms(UndoAffine(SBox(x)), x);
  }

  /** Every field element but zero has an inverse. */
  lemma InverseExists(x: byte) returns (y: byte)
    requires x != 0
    ensures Product(x, y) == 1 && Product(y, x) == 1
  {
    hide Product, SBox, UndoAffine;
    y := UndoAffine(SBox(x));
    LeftInverse(x);
    LeftInverse(y);
    var z := UndoAffine(SBox(y));
    InverseIsUnique(y, x, z);
  }

  /** The table entry of `x` is the affine image of its inverse `y`, or of zero when `x` is zero. */
  lemma SBoxIsAffineOfInverse(x: byte, y: byte)
    requires if x == 0 then y == 0 else Product(x, y) == 1
    ensures SBox(x) == Affine(y)
  {
    hide Product;
    if x == 0 {
      assert SBox(0) == 0x63;
    } else {
      LeftInverse(x);
      InverseIsUnique(x, y, UndoAffine(SBox(x)));
      AffineUndone(SBox(x));
    }
  }
}
