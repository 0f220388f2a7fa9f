/**
 * Where the constants of SHA-256 come from: sections 4.2.2 and 5.3.3 of FIPS 180-4 define them as
 * the first 32 bits of the fractional parts of the cube roots, and the square roots, of the first primes.
 */
module Fips180Roots {
  import opened Fips180

  const TWO32 := 0x1_0000_0000

  // --------------------------------------------------------------------------
  // The first primes
  // --------------------------------------------------------------------------

  ghost predicate IsPrime(p: nat) {
    p > 1 && forall d :: 1 < d < p ==> p % d != 0
  }

  predicate Survives(p: nat, r: nat)
    requires r > 0
  {
    p == r || p % r != 0
  }

  // Passes trial division by the primes up to 17.
  predicate Sieved(p: nat) {
    && p > 1
    && Survives(p, 2) && Survives(p, 3) && Survives(p, 5) && Survives(p, 7)
    && Survives(p, 11) && Survives(p, 13) && Survives(p, 17)
  }

  lemma Regroups(r: nat, k: nat, e: nat)
    ensures (r * k) * e == r * (k * e)
  {}

  lemma MultipleFails(p: nat, r: nat, m: nat)
    requires (r == 2 || r == 3 || r == 5 || r == 7 || r == 11 || r == 13 || r == 17) && m > 1 && p == r * m
    ensures !Sieved(p)
  {
    hide Survives;
    if r == 2 { TwiceFails(p, m); }
    if r == 3 { ThriceFails(p, m); }
    if r == 5 { FiveTimesFails(p, m); }
    if r == 7 { SevenTimesFails(p, m); }
    if r == 11 { ElevenTimesFails(p, m); }
    if r == 13 { ThirteenTimesFails(p, m); }
    if r == 17 { SeventeenTimesFails(p, m); }
  }

  lemma TwiceFails(p: nat, m: nat)
    requires p == 2 * m && m > 1
    ensures !Survives(p, 2)
  {}

  lemma ThriceFails(p: nat, m: nat)
    requires p == 3 * m && m > 1
    ensures !Survives(p, 3)
  {}

  lemma FiveTimesFails(p: nat, m: nat)
    requires p == 5 * m && m > 1
    ensures !Survives(p, 5)
  {}

  lemma SevenTimesFails(p: nat, m: nat)
    requires p == 7 * m && m > 1
    ensures !Survives(p, 7)
  {}

  lemma ElevenTimesFails(p: nat, m: nat)
    requires p == 11 * m && m > 1
    ensures !Survives(p, 11)
  {}

  lemma ThirteenTimesFails(p: nat, m: nat)
    requires p == 13 * m && m > 1
    ensures !Survives(p, 13)
  {}

  lemma SeventeenTimesFails(p: nat, m: nat)
    requires p == 17 * m && m > 1
    ensures !Survives(p, 17)
  {}

  // A divisor of at most 17 has one of the seven primes for a factor.
  lemma SmallDivisor(p: nat, d: nat, e: nat)
    requires 1 < d <= 17 && p == d * e && e > 1
    ensures !Sieved(p)
  {
    hide Sieved;
    if d % 2 == 0 {
      Regroups(2, d / 2, e);
      PositiveTimes(d / 2, e);
      MultipleFails(p, 2, (d / 2) * e);
    } else if d % 3 == 0 {
      Regroups(3, d / 3, e);
      PositiveTimes(d / 3, e);
      MultipleFails(p, 3, (d / 3) * e);
    } else {
      MultipleFails(p, d, e);
    }
  }

  lemma PositiveTimes(k: nat, e: nat)
    requires k >= 1 && e > 1
    ensures k * e > 1
  {}

  lemma ProductTooLarge(d: nat, e: nat)
    requires d >= 18 && e >= 18
    ensures d * e >= 324
  {}

  lemma DivisorFails(p: nat, d: nat)
    requires p < 324 && 1 < d < p && p % d == 0
    ensures !Sieved(p)
  {
    hide Sieved;
    var e := p / d;
    Quotient(p, d);
    if d <= 17 {
      SmallDivisor(p, d, e);
    } else {
      if e >= 18 {
        ProductTooLarge(d, e);
      }
      SmallDivisor(p, e, d);
    }
  }

  lemma Quotient(p: nat, d: nat)
    requires 1 < d < p && p % d == 0
    ensures p == d * (p / d) == (p / d) * d && p / d > 1
  {
    var e := p / d;
    assert p == d * e;
    assert e <= 1 ==> d * e <= d;
  }

  lemma PrimeSurvives(p: nat, r: nat)
    requires IsPrime(p) && 1 < r
    ensures Survives(p, r)
  {}

  /** Below 324 trial division by the seven primes decides. */
  lemma SievedIsPrime(p: nat)
    requires p < 324
    ensures Sieved(p) <==> IsPrime(p)
  {
    hide Survives;
    if IsPrime(p) {
      PrimeSurvives(p, 2);
      PrimeSurvives(p, 3);
      PrimeSurvives(p, 5);
      PrimeSurvives(p, 7);
      PrimeSurvives(p, 11);
      PrimeSurvives(p, 13);
      PrimeSurvives(p, 17);
    }
    if Sieved(p) {
      forall d | 1 < d < p ensures p % d != 0 {
        if p % d == 0 {
          DivisorFails(p, d);
        }
      }
    }
  }

  /** The first number from `r` on that is a prime, as long as it is below 324. */
  function PrimeFrom(r: nat): (p: nat)
    ensures p >= r && forall q :: r <= q < p ==> !Sieved(q)
    ensures p < 324 ==> Sieved(p)
    decreases 324 - r
  {
    if r >= 324 || Sieved(r) then r else PrimeFrom(r + 1)
  }

  /** The prime with number `t`, counted from 0. */
  function Prime(t: nat): nat {
    if t == 0 then 2 else PrimeFrom(Prime(t - 1) + 1)
  }

  lemma NextPrime(r: nat, q: nat)
    requires r <= q < 324 && Sieved(q) && forall x :: r <= x < q ==> !Sieved(x)
    ensures PrimeFrom(r) == q
  {}

  // None of `n` numbers from `from` on passes.
  predicate NoneSieved(from: nat, n: nat)
    decreases n
  {
    n == 0 || (!Sieved(from) && NoneSieved(from + 1, n - 1))
  }

  lemma {:induction false} NoneSievedAt(from: nat, n: nat, x: nat)
    requires NoneSieved(from, n) && from <= x < from + n
    ensures !Sieved(x)
    decreases n
  {
    hide Sieved;
    if from < x {
      NoneSievedAt(from + 1, n - 1, x);
    }
  }

  // A prime and the next one, which is its successor in the list of primes.
  lemma Successor(t: nat, p: nat, q: nat)
    requires t > 0 && Prime(t - 1) == p < q < 324 && Sieved(q) && NoneSieved(p + 1, q - p - 1)
    ensures Prime(t) == q
  {
    hide Sieved, NoneSieved;
    forall x: nat | p < x < q ensures !Sieved(x) {
      NoneSievedAt(p + 1, q - p - 1, x);
    }
    NextPrime(p + 1, q);
  }

  lemma Primes0()
    ensures Prime(0) == 2 && Prime(1) == 3 && Prime(2) == 5 && Prime(3) == 7
  {
    Successor(1, 2, 3);
    assert NoneSieved(4, 1);
    Successor(2, 3, 5);
    assert NoneSieved(6, 1);
    Successor(3, 5, 7);
  }

  lemma Primes1()
    ensures Prime(4) == 11 && Prime(5) == 13 && Prime(6) == 17 && Prime(7) == 19
  {
    hide Prime, PrimeFrom;
    Primes0();
    assert NoneSieved(8, 3);
    Successor(4, 7, 11);
    assert NoneSieved(12, 1);
    Successor(5, 11, 13);
    assert NoneSieved(14, 3);
    Successor(6, 13, 17);
    assert NoneSieved(18, 1);
    Successor(7, 17, 19);
  }

  lemma Primes2()
    ensures Prime(8) == 23 && Prime(9) == 29 && Prime(10) == 31 && Prime(11) == 37
  {
    hide Prime, PrimeFrom;
    Primes1();
    assert NoneSieved(20, 3);
    Successor(8, 19, 23);
    assert NoneSieved(24, 5);
    Successor(9, 23, 29);
    assert NoneSieved(30, 1);
    Successor(10, 29, 31);
    assert NoneSieved(32, 5);
    Successor(11, 31, 37);
  }

  lemma Primes3()
    ensures Prime(12) == 41 && Prime(13) == 43 && Prime(14) == 47 && Prime(15) == 53
  {
    hide Prime, PrimeFrom;
    Primes2();
    assert NoneSieved(38, 3);
    Successor(12, 37, 41);
    assert NoneSieved(42, 1);
    Successor(13, 41, 43);
    assert NoneSieved(44, 3);
    Successor(14, 43, 47);
    assert NoneSieved(48, 5);
    Successor(15, 47, 53);
  }

  lemma Primes4()
    ensures Prime(16) == 59 && Prime(17) == 61 && Prime(18) == 67 && Prime(19) == 71
  {
    hide Prime, PrimeFrom;
    Primes3();
    assert NoneSieved(54, 5);
    Successor(16, 53, 59);
    assert NoneSieved(60, 1);
    Successor(17, 59, 61);
    assert NoneSieved(62, 5);
    Successor(18, 61, 67);
    assert NoneSieved(68, 3);
    Successor(19, 67, 71);
  }

  lemma Primes5()
    ensures Prime(20) == 73 && Prime(21) == 79 && Prime(22) == 83 && Prime(23) == 89
  {
    hide Prime, PrimeFrom;
    Primes4();
    assert NoneSieved(72, 1);
    Successor(20, 71, 73);
    assert NoneSieved(74, 5);
    Successor(21, 73, 79);
    assert NoneSieved(80, 3);
    Successor(22, 79, 83);
    assert NoneSieved(84, 5);
    Successor(23, 83, 89);
  }

  lemma Primes6()
    ensures Prime(24) == 97 && Prime(25) == 101 && Prime(26) == 103 && Prime(27) == 107
  {
    hide Prime, PrimeFrom;
    Primes5();
    assert NoneSieved(90, 7);
    Successor(24, 89, 97);
    assert NoneSieved(98, 3);
    Successor(25, 97, 101);
    assert NoneSieved(102, 1);
    Successor(26, 101, 103);
    assert NoneSieved(104, 3);
    Successor(27, 103, 107);
  }

  lemma Primes7()
    ensures Prime(28) == 109 && Prime(29) == 113 && Prime(30) == 127 && Prime(31) == 131
  {
    hide Prime, PrimeFrom;
    Primes6();
    assert NoneSieved(108, 1);
    Successor(28, 107, 109);
    assert NoneSieved(110, 3);
    Successor(29, 109, 113);
    assert NoneSieved(114, 13);
    Successor(30, 113, 127);
    assert NoneSieved(128, 3);
    Successor(31, 127, 131);
  }

  lemma Primes8()
    ensures Prime(32) == 137 && Prime(33) == 139 && Prime(34) == 149 && Prime(35) == 151
  {
    hide Prime, PrimeFrom;
    Primes7();
    assert NoneSieved(132, 5);
    Successor(32, 131, 137);
    assert NoneSieved(138, 1);
    Successor(33, 137, 139);
    assert NoneSieved(140, 9);
    Successor(34, 139, 149);
    assert NoneSieved(150, 1);
    Successor(35, 149, 151);
  }

  lemma Primes9()
    ensures Prime(36) == 157 && Prime(37) == 163 && Prime(38) == 167 && Prime(39) == 173
  {
    hide Prime, PrimeFrom;
    Primes8();
    assert NoneSieved(152, 5);
    Successor(36, 151, 157);
    assert NoneSieved(158, 5);
    Successor(37, 157, 163);
    assert NoneSieved(164, 3);
    Successor(38, 163, 167);
    assert NoneSieved(168, 5);
    Successor(39, 167, 173);
  }

  lemma Primes10()
    ensures Prime(40) == 179 && Prime(41) == 181 && Prime(42) == 191 && Prime(43) == 193
  {
    hide Prime, PrimeFrom;
    Primes9();
    assert NoneSieved(174, 5);
    Successor(40, 173, 179);
    assert NoneSieved(180, 1);
    Successor(41, 179, 181);
    assert NoneSieved(182, 9);
    Successor(42, 181, 191);
    assert NoneSieved(192, 1);
    Successor(43, 191, 193);
  }

  lemma Primes11()
    ensures Prime(44) == 197 && Prime(45) == 199 && Prime(46) == 211 && Prime(47) == 223
  {
    hide Prime, PrimeFrom;
    Primes10();
    assert NoneSieved(194, 3);
    Successor(44, 193, 197);
    assert NoneSieved(198, 1);
    Successor(45, 197, 199);
    assert NoneSieved(200, 11);
    Successor(46, 199, 211);
    assert NoneSieved(212, 11);
    Successor(47, 211, 223);
  }

  lemma Primes12()
    ensures Prime(48) == 227 && Prime(49) == 229 && Prime(50) == 233 && Prime(51) == 239
  {
    hide Prime, PrimeFrom;
    Primes11();
    assert NoneSieved(224, 3);
    Successor(48, 223, 227);
    assert NoneSieved(228, 1);
    Successor(49, 227, 229);
    assert NoneSieved(230, 3);
    Successor(50, 229, 233);
    assert NoneSieved(234, 5);
    Successor(51, 233, 239);
  }

  lemma Primes13()
    ensures Prime(52) == 241 && Prime(53) == 251 && Prime(54) == 257 && Prime(55) == 263
  {
    hide Prime, PrimeFrom;
    Primes12();
    assert NoneSieved(240, 1);
    Successor(52, 239, 241);
    assert NoneSieved(242, 9);
    Successor(53, 241, 251);
    assert NoneSieved(252, 5);
    Successor(54, 251, 257);
    assert NoneSieved(258, 5);
    Successor(55, 257, 263);
  }

  lemma Primes14()
    ensures Prime(56) == 269 && Prime(57) == 271 && Prime(58) == 277 && Prime(59) == 281
  {
    hide Prime, PrimeFrom;
    Primes13();
    assert NoneSieved(264, 5);
    Successor(56, 263, 269);
    assert NoneSieved(270, 1);
    Successor(57, 269, 271);
    assert NoneSieved(272, 5);
    Successor(58, 271, 277);
    assert NoneSieved(278, 3);
    Successor(59, 277, 281);
  }

  lemma Primes15()
    ensures Prime(60) == 283 && Prime(61) == 293 && Prime(62) == 307 && Prime(63) == 311
  {
    hide Prime, PrimeFrom;
    Primes14();
    assert NoneSieved(282, 1);
    Successor(60, 281, 283);
    assert NoneSieved(284, 9);
    Successor(61, 283, 293);
    assert NoneSieved(294, 13);
    Successor(62, 293, 307);
    assert NoneSieved(308, 3);
    Successor(63, 307, 311);
  }

  /** The numbers with which `Prime` counts are the primes, in order and without a gap. */
  lemma PrimesInOrder(t: nat)
    requires t < 64
    ensures IsPrime(Prime(t)) && Prime(t) < 324
    ensures if t == 0 then Prime(t) == 2
            else Prime(t - 1) < Prime(t) && forall q :: Prime(t - 1) < q < Prime(t) ==> !IsPrime(q)
  {
    hide Prime, IsPrime, Sieved;
    PrimeBounded(t);
    PrimeUnfolds(t);
    SievedIsPrime(Prime(t));
    if t > 0 {
      forall q: nat | Prime(t - 1) < q < Prime(t) ensures !IsPrime(q) {
        SievedIsPrime(q);
      }
    }
  }

  lemma PrimeUnfolds(t: nat)
    ensures t == 0 ==> Prime(t) == 2 && Sieved(2)
    ensures t > 0 ==> Prime(t) == PrimeFrom(Prime(t - 1) + 1)
  {}

  lemma {:induction false} PrimesGrow(t: nat, u: nat)
    requires t <= u
    ensures Prime(t) <= Prime(u)
    decreases u
  {
    if t < u {
      PrimesGrow(t, u - 1);
    }
  }

  lemma PrimeBounded(t: nat)
    requires t < 64
    ensures Prime(t) <= 311
  {
    hide Prime;
    Primes15();
    PrimesGrow(t, 63);
  }

  // --------------------------------------------------------------------------
  // Roots to 32 binary places
  // --------------------------------------------------------------------------

  /** `n` is the cube root of `p`, in units of 2^-32, rounded down. */
  predicate IsCubeRoot(n: nat, p: nat) {
    n * n * n <= p * 0x1_0000_0000_0000_0000_0000_0000 < (n + 1) * (n + 1) * (n + 1)
  }

  /** `n` is the square root of `p`, in units of 2^-32, rounded down. */
  predicate IsSquareRoot(n: nat, p: nat) {
    n * n <= p * 0x1_0000_0000_0000_0000 < (n + 1) * (n + 1)
  }

  /** The constant is the fractional part of the root: its first 32 binary places. */
  predicate IsFraction(k: word, n: nat) {
    n % TWO32 == k as nat
  }

  lemma RootFits(t: nat, p: nat, k: word, n: nat)
    requires t < 64 && Prime(t) == p && K(t) == k && IsFraction(k, n) && IsCubeRoot(n, p)
    ensures IsFraction(K(t), n) && IsCubeRoot(n, Prime(t))
  {
    hide IsCubeRoot, IsFraction, Prime, K;
  }

  lemma CubeRoots0(t: nat) returns (n: nat)
    requires 0 <= t < 8
    ensures IsFraction(K(t), n) && IsCubeRoot(n, Prime(t))
  {
    hide Prime;
    Primes0();
    Primes1();
    n := 0;
    if t == 0 { n := 0x1_428a2f98; RootFits(0, 2, 0x428a2f98, 0x1_428a2f98); }
    if t == 1 { n := 0x1_71374491; RootFits(1, 3, 0x71374491, 0x1_71374491); }
    if t == 2 { n := 0x1_b5c0fbcf; RootFits(2, 5, 0xb5c0fbcf, 0x1_b5c0fbcf); }
    if t == 3 { n := 0x1_e9b5dba5; RootFits(3, 7, 0xe9b5dba5, 0x1_e9b5dba5); }
    if t == 4 { n := 0x2_3956c25b; RootFits(4, 11, 0x3956c25b, 0x2_3956c25b); }
    if t == 5 { n := 0x2_59f111f1; RootFits(5, 13, 0x59f111f1, 0x2_59f111f1); }
    if t == 6 { n := 0x2_923f82a4; RootFits(6, 17, 0x923f82a4, 0x2_923f82a4); }
    if t == 7 { n := 0x2_ab1c5ed5; RootFits(7, 19, 0xab1c5ed5, 0x2_ab1c5ed5); }
  }

  lemma CubeRoots1(t: nat) returns (n: nat)
    requires 8 <= t < 16
    ensures IsFraction(K(t), n) && IsCubeRoot(n, Prime(t))
  {
    hide Prime;
    Primes2();
    Primes3();
    n := 0;
    if t == 8 { n := 0x2_d807aa98; RootFits(8, 23, 0xd807aa98, 0x2_d807aa98); }
    if t == 9 { n := 0x3_12835b01; RootFits(9, 29, 0x12835b01, 0x3_12835b01); }
    if t == 10 { n := 0x3_243185be; RootFits(10, 31, 0x243185be, 0x3_243185be); }
    if t == 11 { n := 0x3_550c7dc3; RootFits(11, 37, 0x550c7dc3, 0x3_550c7dc3); }
    if t == 12 { n := 0x3_72be5d74; RootFits(12, 41, 0x72be5d74, 0x3_72be5d74); }
    if t == 13 { n := 0x3_80deb1fe; RootFits(13, 43, 0x80deb1fe, 0x3_80deb1fe); }
    if t == 14 { n := 0x3_9bdc06a7; RootFits(14, 47, 0x9bdc06a7, 0x3_9bdc06a7); }
    if t == 15 { n := 0x3_c19bf174; RootFits(15, 53, 0xc19bf174, 0x3_c19bf174); }
  }

  lemma CubeRoots2(t: nat) returns (n: nat)
    requires 16 <= t < 24
    ensures IsFraction(K(t), n) && IsCubeRoot(n, Prime(t))
  {
    hide Prime;
    Primes4();
    Primes5();
    n := 0;
    if t == 16 { n := 0x3_e49b69c1; RootFits(16, 59, 0xe49b69c1, 0x3_e49b69c1); }
    if t == 17 { n := 0x3_efbe4786; RootFits(17, 61, 0xefbe4786, 0x3_efbe4786); }
    if t == 18 { n := 0x4_0fc19dc6; RootFits(18, 67, 0x0fc19dc6, 0x4_0fc19dc6); }
    if t == 19 { n := 0x4_240ca1cc; RootFits(19, 71, 0x240ca1cc, 0x4_240ca1cc); }
    if t == 20 { n := 0x4_2de92c6f; RootFits(20, 73, 0x2de92c6f, 0x4_2de92c6f); }
    if t == 21 { n := 0x4_4a7484aa; RootFits(21, 79, 0x4a7484aa, 0x4_4a7484aa); }
    if t == 22 { n := 0x4_5cb0a9dc; RootFits(22, 83, 0x5cb0a9dc, 0x4_5cb0a9dc); }
    if t == 23 { n := 0x4_76f988da; RootFits(23, 89, 0x76f988da, 0x4_76f988da); }
  }

  lemma CubeRoots3(t: nat) returns (n: nat)
    requires 24 <= t < 32
    ensures IsFraction(K(t), n) && IsCubeRoot(n, Prime(t))
  {
    hide Prime;
    Primes6();
    Primes7();
    n := 0;
    if t == 24 { n := 0x4_983e5152; RootFits(24, 97, 0x983e5152, 0x4_983e5152); }
    if t == 25 { n := 0x4_a831c66d; RootFits(25, 101, 0xa831c66d, 0x4_a831c66d); }
    if t == 26 { n := 0x4_b00327c8; RootFits(26, 103, 0xb00327c8, 0x4_b00327c8); }
    if t == 27 { n := 0x4_bf597fc7; RootFits(27, 107, 0xbf597fc7, 0x4_bf597fc7); }
    if t == 28 { n := 0x4_c6e00bf3; RootFits(28, 109, 0xc6e00bf3, 0x4_c6e00bf3); }
    if t == 29 { n := 0x4_d5a79147; RootFits(29, 113, 0xd5a79147, 0x4_d5a79147); }
    if t == 30 { n := 0x5_06ca6351; RootFits(30, 127, 0x06ca6351, 0x5_06ca6351); }
    if t == 31 { n := 0x5_14292967; RootFits(31, 131, 0x14292967, 0x5_14292967); }
  }

  lemma CubeRoots4(t: nat) returns (n: nat)
    requires 32 <= t < 40
    ensures IsFraction(K(t), n) && IsCubeRoot(n, Prime(t))
  {
    hide Prime;
    Primes8();
    Primes9();
    n := 0;
    if t == 32 { n := 0x5_27b70a85; RootFits(32, 137, 0x27b70a85, 0x5_27b70a85); }
    if t == 33 { n := 0x5_2e1b2138; RootFits(33, 139, 0x2e1b2138, 0x5_2e1b2138); }
    if t == 34 { n := 0x5_4d2c6dfc; RootFits(34, 149, 0x4d2c6dfc, 0x5_4d2c6dfc); }
    if t == 35 { n := 0x5_53380d13; RootFits(35, 151, 0x53380d13, 0x5_53380d13); }
    if t == 36 { n := 0x5_650a7354; RootFits(36, 157, 0x650a7354, 0x5_650a7354); }
    if t == 37 { n := 0x5_766a0abb; RootFits(37, 163, 0x766a0abb, 0x5_766a0abb); }
    if t == 38 { n := 0x5_81c2c92e; RootFits(38, 167, 0x81c2c92e, 0x5_81c2c92e); }
    if t == 39 { n := 0x5_92722c85; RootFits(39, 173, 0x92722c85, 0x5_92722c85); }
  }

  lemma CubeRoots5(t: nat) returns (n: nat)
    requires 40 <= t < 48
    ensures IsFraction(K(t), n) && IsCubeRoot(n, Prime(t))
  {
    hide Prime;
    Primes10();
    Primes11();
    n := 0;
    if t == 40 { n := 0x5_a2bfe8a1; RootFits(40, 179, 0xa2bfe8a1, 0x5_a2bfe8a1); }
    if t == 41 { n := 0x5_a81a664b; RootFits(41, 181, 0xa81a664b, 0x5_a81a664b); }
    if t == 42 { n := 0x5_c24b8b70; RootFits(42, 191, 0xc24b8b70, 0x5_c24b8b70); }
    if t == 43 { n := 0x5_c76c51a3; RootFits(43, 193, 0xc76c51a3, 0x5_c76c51a3); }
    if t == 44 { n := 0x5_d192e819; RootFits(44, 197, 0xd192e819, 0x5_d192e819); }
    if t == 45 { n := 0x5_d6990624; RootFits(45, 199, 0xd6990624, 0x5_d6990624); }
    if t == 46 { n := 0x5_f40e3585; RootFits(46, 211, 0xf40e3585, 0x5_f40e3585); }
    if t == 47 { n := 0x6_106aa070; RootFits(47, 223, 0x106aa070, 0x6_106aa070); }
  }

  lemma CubeRoots6(t: nat) returns (n: nat)
    requires 48 <= t < 56
    ensures IsFraction(K(t), n) && IsCubeRoot(n, Prime(t))
  {
    hide Prime;
    Primes12();
    Primes13();
    n := 0;
    if t == 48 { n := 0x6_19a4c116; RootFits(48, 227, 0x19a4c116, 0x6_19a4c116); }
    if t == 49 { n := 0x6_1e376c08; RootFits(49, 229, 0x1e376c08, 0x6_1e376c08); }
    if t == 50 { n := 0x6_2748774c; RootFits(50, 233, 0x2748774c, 0x6_2748774c); }
    if t == 51 { n := 0x6_34b0bcb5; RootFits(51, 239, 0x34b0bcb5, 0x6_34b0bcb5); }
    if t == 52 { n := 0x6_391c0cb3; RootFits(52, 241, 0x391c0cb3, 0x6_391c0cb3); }
    if t == 53 { n := 0x6_4ed8aa4a; RootFits(53, 251, 0x4ed8aa4a, 0x6_4ed8aa4a); }
    if t == 54 { n := 0x6_5b9cca4f; RootFits(54, 257, 0x5b9cca4f, 0x6_5b9cca4f); }
    if t == 55 { n := 0x6_682e6ff3; RootFits(55, 263, 0x682e6ff3, 0x6_682e6ff3); }
  }

  lemma CubeRoots7(t: nat) returns (n: nat)
    requires 56 <= t < 64
    ensures IsFraction(K(t), n) && IsCubeRoot(n, Prime(t))
  {
    hide Prime;
    Primes14();
    Primes15();
    n := 0;
    if t == 56 { n := 0x6_748f82ee; RootFits(56, 269, 0x748f82ee, 0x6_748f82ee); }
    if t == 57 { n := 0x6_78a5636f; RootFits(57, 271, 0x78a5636f, 0x6_78a5636f); }
    if t == 58 { n := 0x6_84c87814; RootFits(58, 277, 0x84c87814, 0x6_84c87814); }
    if t == 59 { n := 0x6_8cc70208; RootFits(59, 281, 0x8cc70208, 0x6_8cc70208); }
    if t == 60 { n := 0x6_90befffa; RootFits(60, 283, 0x90befffa, 0x6_90befffa); }
    if t == 61 { n := 0x6_a4506ceb; RootFits(61, 293, 0xa4506ceb, 0x6_a4506ceb); }
    if t == 62 { n := 0x6_bef9a3f7; RootFits(62, 307, 0xbef9a3f7, 0x6_bef9a3f7); }
    if t == 63 { n := 0x6_c67178f2; RootFits(63, 311, 0xc67178f2, 0x6_c67178f2); }
  }

  /** Section 4.2.2: round constant `t` is the fraction of the cube root of the prime with number `t`. */
  lemma RoundConstantIsCubeRoot(t: nat) returns (n: nat)
    requires t < 64
    ensures IsFraction(K(t), n) && IsCubeRoot(n, Prime(t))
  {
    hide Prime, IsCubeRoot, IsFraction, K;
    if t < 8 { n := CubeRoots0(t); }
    else if t < 16 { n := CubeRoots1(t); }
    else if t < 24 { n := CubeRoots2(t); }
    else if t < 32 { n := CubeRoots3(t); }
    else if t < 40 { n := CubeRoots4(t); }
    else if t < 48 { n := CubeRoots5(t); }
    else if t < 56 { n := CubeRoots6(t); }
    else { n := CubeRoots7(t); }
  }

  function InitialWord(i: nat): word
    requires i < 8
  {
    [INITIAL.a, INITIAL.b, INITIAL.c, INITIAL.d, INITIAL.e, INITIAL.f, INITIAL.g, INITIAL.h][i]
  }

  lemma InitialFits(i: nat, p: nat, k: word, n: nat)
    requires i < 8 && Prime(i) == p && InitialWord(i) == k && IsFraction(k, n) && IsSquareRoot(n, p)
    ensures IsFraction(InitialWord(i), n) && IsSquareRoot(n, Prime(i))
  {
    hide IsSquareRoot, IsFraction, Prime, InitialWord;
  }

  /** Section 5.3.3: initial word `i` is the fraction of the square root of the prime with number `i`. */
  lemma InitialWordIsSquareRoot(i: nat) returns (n: nat)
    requires i < 8
    ensures IsFraction(InitialWord(i), n) && IsSquareRoot(n, Prime(i))
  {
    hide Prime;
    Primes0();
    Primes1();
    n := 0;
    if i == 0 { n := 0x1_6a09e667; InitialFits(0, 2, 0x6a09e667, 0x1_6a09e667); }
    if i == 1 { n := 0x1_bb67ae85; InitialFits(1, 3, 0xbb67ae85, 0x1_bb67ae85); }
    if i == 2 { n := 0x2_3c6ef372; InitialFits(2, 5, 0x3c6ef372, 0x2_3c6ef372); }
    if i == 3 { n := 0x2_a54ff53a; InitialFits(3, 7, 0xa54ff53a, 0x2_a54ff53a); }
    if i == 4 { n := 0x3_510e527f; InitialFits(4, 11, 0x510e527f, 0x3_510e527f); }
    if i == 5 { n := 0x3_9b05688c; InitialFits(5, 13, 0x9b05688c, 0x3_9b05688c); }
    if i == 6 { n := 0x4_1f83d9ab; InitialFits(6, 17, 0x1f83d9ab, 0x4_1f83d9ab); }
    if i == 7 { n := 0x4_5be0cd19; InitialFits(7, 19, 0x5be0cd19, 0x4_5be0cd19); }
  }
}
