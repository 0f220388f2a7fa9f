/**
 * The one-block example that is published with FIPS 180-4: what the definitions give for the
 * message "abc", which ties them to the published hash and not only to the routine.
 */
module Fips180Example {
  import opened Octets
  import opened Fips180

  const MESSAGE: seq<byte> := [0x61, 0x62, 0x63]

  // --------------------------------------------------------------------------
  // The padded message
  // --------------------------------------------------------------------------

  /** The chunk, as the first sixteen words of its message schedule. */
  predicate IsExampleChunk(p: Chunk) {
    && Schedule(p, 0) == 0x61626380 && Schedule(p, 15) == 0x00000018
    && forall t :: 1 <= t < 15 ==> Schedule(p, t) == 0
  }

  lemma LastBytes()
    ensures BigEndian(24, 8)[7] == 0x18 && forall k :: 0 <= k < 7 ==> BigEndian(24, 8)[k] == 0
  {
    assert BigEndian(24, 8) == BigEndian(0, 7) + [LowByte(24)];
    ZeroField(7);
  }

  lemma {:induction false} ZeroField(count: nat)
    ensures forall k :: 0 <= k < count ==> BigEndian(0, count)[k] == 0
  {
    if count > 0 {
      ZeroField(count - 1);
    }
  }

  lemma ZeroAt(n: nat)
    ensures forall k :: 0 <= k < n ==> ZeroBytes(n)[k] == 0
  {}

  lemma PaddedBytes()
    ensures var p := MESSAGE + Padding(3);
      && |p| == 64 && p[0] == 0x61 && p[1] == 0x62 && p[2] == 0x63 && p[3] == 0x80 && p[63] == 0x18
      && forall k :: 4 <= k < 63 ==> p[k] == 0
  {
    hide BigEndian, ZeroBytes, LowByte;
    LastBytes();
    ZeroAt(52);
    assert Padding(3) == [0x80] + ZeroBytes(52) + BigEndian(24, 8);
  }

  lemma PaddedWords()
    ensures |MESSAGE + Padding(3)| == 64 && IsExampleChunk(MESSAGE + Padding(3))
  {
    PaddedBytes();
    var p: Chunk := MESSAGE + Padding(3);
    hide Padding;
    forall t | 1 <= t < 15 ensures Schedule(p, t) == 0 {
      assert p[4 * t] == 0 && p[4 * t + 1] == 0 && p[4 * t + 2] == 0 && p[4 * t + 3] == 0;
    }
  }

  // --------------------------------------------------------------------------
  // The message schedule
  // --------------------------------------------------------------------------

  lemma NextWord(p: Chunk, t: nat, back2: word, back7: word, back15: word, back16: word, w: word)
    requires t >= 16 && Schedule(p, t - 2) == back2 && Schedule(p, t - 7) == back7
    requires Schedule(p, t - 15) == back15 && Schedule(p, t - 16) == back16
    requires w == Add(Add(Add(LowerSigma1(back2), back7), LowerSigma0(back15)), back16)
    ensures Schedule(p, t) == w
  {
    hide Add, LowerSigma0, LowerSigma1;
  }

  lemma Words1(p: Chunk)
    requires IsExampleChunk(p)
    ensures Schedule(p, 8) == 0x00000000 && Schedule(p, 9) == 0x00000000
    ensures Schedule(p, 10) == 0x00000000 && Schedule(p, 11) == 0x00000000
    ensures Schedule(p, 12) == 0x00000000 && Schedule(p, 13) == 0x00000000
    ensures Schedule(p, 14) == 0x00000000 && Schedule(p, 15) == 0x00000018
  {
    hide Schedule;
  }

  lemma Words2(p: Chunk)
    requires IsExampleChunk(p)
    ensures Schedule(p, 16) == 0x61626380 && Schedule(p, 17) == 0x000f0000
    ensures Schedule(p, 18) == 0x7da86405 && Schedule(p, 19) == 0x600003c6
    ensures Schedule(p, 20) == 0x3e9d7b78 && Schedule(p, 21) == 0x0183fc00
    ensures Schedule(p, 22) == 0x12dcbfdb && Schedule(p, 23) == 0xe2e2c38e
  {
    hide Schedule, IsExampleChunk;
    Words1(p);
    FirstWords(p);
    NextWord(p, 16, 0x00000000, 0x00000000, 0x00000000, 0x61626380, 0x61626380);
    NextWord(p, 17, 0x00000018, 0x00000000, 0x00000000, 0x00000000, 0x000f0000);
    NextWord(p, 18, 0x61626380, 0x00000000, 0x00000000, 0x00000000, 0x7da86405);
    NextWord(p, 19, 0x000f0000, 0x00000000, 0x00000000, 0x00000000, 0x600003c6);
    NextWord(p, 20, 0x7da86405, 0x00000000, 0x00000000, 0x00000000, 0x3e9d7b78);
    NextWord(p, 21, 0x600003c6, 0x00000000, 0x00000000, 0x00000000, 0x0183fc00);
    NextWord(p, 22, 0x3e9d7b78, 0x00000018, 0x00000000, 0x00000000, 0x12dcbfdb);
    NextWord(p, 23, 0x0183fc00, 0x61626380, 0x00000000, 0x00000000, 0xe2e2c38e);
  }

  lemma Words3(p: Chunk)
    requires IsExampleChunk(p)
    ensures Schedule(p, 24) == 0xc8215c1a && Schedule(p, 25) == 0xb73679a2
    ensures Schedule(p, 26) == 0xe5bc3909 && Schedule(p, 27) == 0x32663c5b
    ensures Schedule(p, 28) == 0x9d209d67 && Schedule(p, 29) == 0xec8726cb
    ensures Schedule(p, 30) == 0x702138a4 && Schedule(p, 31) == 0xd3b7973b
  {
    hide Schedule, IsExampleChunk;
    Words2(p);
    Words1(p);
    NextWord(p, 24, 0x12dcbfdb, 0x000f0000, 0x00000000, 0x00000000, 0xc8215c1a);
    NextWord(p, 25, 0xe2e2c38e, 0x7da86405, 0x00000000, 0x00000000, 0xb73679a2);
    NextWord(p, 26, 0xc8215c1a, 0x600003c6, 0x00000000, 0x00000000, 0xe5bc3909);
    NextWord(p, 27, 0xb73679a2, 0x3e9d7b78, 0x00000000, 0x00000000, 0x32663c5b);
    NextWord(p, 28, 0xe5bc3909, 0x0183fc00, 0x00000000, 0x00000000, 0x9d209d67);
    NextWord(p, 29, 0x32663c5b, 0x12dcbfdb, 0x00000000, 0x00000000, 0xec8726cb);
    NextWord(p, 30, 0x9d209d67, 0xe2e2c38e, 0x00000018, 0x00000000, 0x702138a4);
    NextWord(p, 31, 0xec8726cb, 0xc8215c1a, 0x61626380, 0x00000018, 0xd3b7973b);
  }

  lemma Words4(p: Chunk)
    requires IsExampleChunk(p)
    ensures Schedule(p, 32) == 0x93f5997f && Schedule(p, 33) == 0x3b68ba73
    ensures Schedule(p, 34) == 0xaff4ffc1 && Schedule(p, 35) == 0xf10a5c62
    ensures Schedule(p, 36) == 0x0a8b3996 && Schedule(p, 37) == 0x72af830a
    ensures Schedule(p, 38) == 0x9409e33e && Schedule(p, 39) == 0x24641522
  {
    hide Schedule, IsExampleChunk;
    Words3(p);
    Words2(p);
    NextWord(p, 32, 0x702138a4, 0xb73679a2, 0x000f0000, 0x61626380, 0x93f5997f);
    NextWord(p, 33, 0xd3b7973b, 0xe5bc3909, 0x7da86405, 0x000f0000, 0x3b68ba73);
    NextWord(p, 34, 0x93f5997f, 0x32663c5b, 0x600003c6, 0x7da86405, 0xaff4ffc1);
    NextWord(p, 35, 0x3b68ba73, 0x9d209d67, 0x3e9d7b78, 0x600003c6, 0xf10a5c62);
    NextWord(p, 36, 0xaff4ffc1, 0xec8726cb, 0x0183fc00, 0x3e9d7b78, 0x0a8b3996);
    NextWord(p, 37, 0xf10a5c62, 0x702138a4, 0x12dcbfdb, 0x0183fc00, 0x72af830a);
    NextWord(p, 38, 0x0a8b3996, 0xd3b7973b, 0xe2e2c38e, 0x12dcbfdb, 0x9409e33e);
    NextWord(p, 39, 0x72af830a, 0x93f5997f, 0xc8215c1a, 0xe2e2c38e, 0x24641522);
  }

  lemma Words5(p: Chunk)
    requires IsExampleChunk(p)
    ensures Schedule(p, 40) == 0x9f47bf94 && Schedule(p, 41) == 0xf0a64f5a
    ensures Schedule(p, 42) == 0x3e246a79 && Schedule(p, 43) == 0x27333ba3
    ensures Schedule(p, 44) == 0x0c4763f2 && Schedule(p, 45) == 0x840abf27
    ensures Schedule(p, 46) == 0x7a290d5d && Schedule(p, 47) == 0x065c43da
  {
    hide Schedule, IsExampleChunk;
    Words4(p);
    Words3(p);
    NextWord(p, 40, 0x9409e33e, 0x3b68ba73, 0xb73679a2, 0xc8215c1a, 0x9f47bf94);
    NextWord(p, 41, 0x24641522, 0xaff4ffc1, 0xe5bc3909, 0xb73679a2, 0xf0a64f5a);
    NextWord(p, 42, 0x9f47bf94, 0xf10a5c62, 0x32663c5b, 0xe5bc3909, 0x3e246a79);
    NextWord(p, 43, 0xf0a64f5a, 0x0a8b3996, 0x9d209d67, 0x32663c5b, 0x27333ba3);
    NextWord(p, 44, 0x3e246a79, 0x72af830a, 0xec8726cb, 0x9d209d67, 0x0c4763f2);
    NextWord(p, 45, 0x27333ba3, 0x9409e33e, 0x702138a4, 0xec8726cb, 0x840abf27);
    NextWord(p, 46, 0x0c4763f2, 0x24641522, 0xd3b7973b, 0x702138a4, 0x7a290d5d);
    NextWord(p, 47, 0x840abf27, 0x9f47bf94, 0x93f5997f, 0xd3b7973b, 0x065c43da);
  }

  lemma Words6(p: Chunk)
    requires IsExampleChunk(p)
    ensures Schedule(p, 48) == 0xfb3e89cb && Schedule(p, 49) == 0xcc7617db
    ensures Schedule(p, 50) == 0xb9e66c34 && Schedule(p, 51) == 0xa9993667
    ensures Schedule(p, 52) == 0x84badedd && Schedule(p, 53) == 0xc21462bc
    ensures Schedule(p, 54) == 0x1487472c && Schedule(p, 55) == 0xb20f7a99
  {
    hide Schedule, IsExampleChunk;
    Words5(p);
    Words4(p);
    NextWord(p, 48, 0x7a290d5d, 0xf0a64f5a, 0x3b68ba73, 0x93f5997f, 0xfb3e89cb);
    NextWord(p, 49, 0x065c43da, 0x3e246a79, 0xaff4ffc1, 0x3b68ba73, 0xcc7617db);
    NextWord(p, 50, 0xfb3e89cb, 0x27333ba3, 0xf10a5c62, 0xaff4ffc1, 0xb9e66c34);
    NextWord(p, 51, 0xcc7617db, 0x0c4763f2, 0x0a8b3996, 0xf10a5c62, 0xa9993667);
    NextWord(p, 52, 0xb9e66c34, 0x840abf27, 0x72af830a, 0x0a8b3996, 0x84badedd);
    NextWord(p, 53, 0xa9993667, 0x7a290d5d, 0x9409e33e, 0x72af830a, 0xc21462bc);
    NextWord(p, 54, 0x84badedd, 0x065c43da, 0x24641522, 0x9409e33e, 0x1487472c);
    NextWord(p, 55, 0xc21462bc, 0xfb3e89cb, 0x9f47bf94, 0x24641522, 0xb20f7a99);
  }

  lemma Words7(p: Chunk)
    requires IsExampleChunk(p)
    ensures Schedule(p, 56) == 0xef57b9cd && Schedule(p, 57) == 0xebe6b238
    ensures Schedule(p, 58) == 0x9fe3095e && Schedule(p, 59) == 0x78bc8d4b
    ensures Schedule(p, 60) == 0xa43fcf15 && Schedule(p, 61) == 0x668b2ff8
    ensures Schedule(p, 62) == 0xeeaba2cc && Schedule(p, 63) == 0x12b1edeb
  {
    hide Schedule, IsExampleChunk;
    Words6(p);
    Words5(p);
    NextWord(p, 56, 0x1487472c, 0xcc7617db, 0xf0a64f5a, 0x9f47bf94, 0xef57b9cd);
    NextWord(p, 57, 0xb20f7a99, 0xb9e66c34, 0x3e246a79, 0xf0a64f5a, 0xebe6b238);
    NextWord(p, 58, 0xef57b9cd, 0xa9993667, 0x27333ba3, 0x3e246a79, 0x9fe3095e);
    NextWord(p, 59, 0xebe6b238, 0x84badedd, 0x0c4763f2, 0x27333ba3, 0x78bc8d4b);
    NextWord(p, 60, 0x9fe3095e, 0xc21462bc, 0x840abf27, 0x0c4763f2, 0xa43fcf15);
    NextWord(p, 61, 0x78bc8d4b, 0x1487472c, 0x7a290d5d, 0x840abf27, 0x668b2ff8);
    NextWord(p, 62, 0xa43fcf15, 0xb20f7a99, 0x065c43da, 0x7a290d5d, 0xeeaba2cc);
    NextWord(p, 63, 0x668b2ff8, 0xef57b9cd, 0xfb3e89cb, 0x065c43da, 0x12b1edeb);
  }

  lemma FirstWords(p: Chunk)
    requires IsExampleChunk(p)
    ensures Schedule(p, 0) == 0x61626380 && Schedule(p, 1) == 0 && Schedule(p, 2) == 0 && Schedule(p, 3) == 0
    ensures Schedule(p, 4) == 0 && Schedule(p, 5) == 0 && Schedule(p, 6) == 0 && Schedule(p, 7) == 0
  {
    hide Schedule;
  }

  // --------------------------------------------------------------------------
  // The rounds
  // --------------------------------------------------------------------------

  lemma NextRound(p: Chunk, t: nat, v: Hash, k: word, w: word)
    requires t < 64 && Rounds(INITIAL, p, t) == v && K(t) == k && Schedule(p, t) == w
    ensures Rounds(INITIAL, p, t + 1) == Round(v, k, w)
  {
    hide Round, K, Schedule;
  }

  lemma Rounds4(p: Chunk)
    requires IsExampleChunk(p)
    ensures Rounds(INITIAL, p, 4) == Hash(0xd550f666, 0xc8c347a7, 0x5a6ad9ad, 0x5d6aebcd,
      0x24e00850, 0xf92939eb, 0x78ce7989, 0xfa2a4622)
  {
    hide Schedule, Rounds, IsExampleChunk;
    FirstWords(p);
    NoRounds(p);
    NextRound(p, 0, Hash(0x6a09e667, 0xbb67ae85, 0x3c6ef372, 0xa54ff53a,
      0x510e527f, 0x9b05688c, 0x1f83d9ab, 0x5be0cd19),
      0x428a2f98, 0x61626380);
    NextRound(p, 1, Hash(0x5d6aebcd, 0x6a09e667, 0xbb67ae85, 0x3c6ef372,
      0xfa2a4622, 0x510e527f, 0x9b05688c, 0x1f83d9ab),
      0x71374491, 0x00000000);
    NextRound(p, 2, Hash(0x5a6ad9ad, 0x5d6aebcd, 0x6a09e667, 0xbb67ae85,
      0x78ce7989, 0xfa2a4622, 0x510e527f, 0x9b05688c),
      0xb5c0fbcf, 0x00000000);
    NextRound(p, 3, Hash(0xc8c347a7, 0x5a6ad9ad, 0x5d6aebcd, 0x6a09e667,
      0xf92939eb, 0x78ce7989, 0xfa2a4622, 0x510e527f),
      0xe9b5dba5, 0x00000000);
  }

  lemma Rounds8(p: Chunk)
    requires IsExampleChunk(p)
    ensures Rounds(INITIAL, p, 8) == Hash(0x85a07b5f, 0xe5030380, 0x2b4209f5, 0x04409a6a,
      0x0c657a79, 0x9b27a401, 0x714260ad, 0x43ada245)
  {
    hide Schedule, Rounds, IsExampleChunk;
    FirstWords(p);
    Rounds4(p);
    NextRound(p, 4, Hash(0xd550f666, 0xc8c347a7, 0x5a6ad9ad, 0x5d6aebcd,
      0x24e00850, 0xf92939eb, 0x78ce7989, 0xfa2a4622),
      0x3956c25b, 0x00000000);
    NextRound(p, 5, Hash(0x04409a6a, 0xd550f666, 0xc8c347a7, 0x5a6ad9ad,
      0x43ada245, 0x24e00850, 0xf92939eb, 0x78ce7989),
      0x59f111f1, 0x00000000);
    NextRound(p, 6, Hash(0x2b4209f5, 0x04409a6a, 0xd550f666, 0xc8c347a7,
      0x714260ad, 0x43ada245, 0x24e00850, 0xf92939eb),
      0x923f82a4, 0x00000000);
    NextRound(p, 7, Hash(0xe5030380, 0x2b4209f5, 0x04409a6a, 0xd550f666,
      0x9b27a401, 0x714260ad, 0x43ada245, 0x24e00850),
      0xab1c5ed5, 0x00000000);
  }

  lemma Rounds12(p: Chunk)
    requires IsExampleChunk(p)
    ensures Rounds(INITIAL, p, 12) == Hash(0xf71fc5a9, 0x4798a3f4, 0x8c87346b, 0x8e04ecb9,
      0x816fd6e9, 0x436b23e8, 0x1cc92596, 0x32ca2d8c)
  {
    hide Schedule, Rounds, IsExampleChunk;
    Words1(p);
    Rounds8(p);
    NextRound(p, 8, Hash(0x85a07b5f, 0xe5030380, 0x2b4209f5, 0x04409a6a,
      0x0c657a79, 0x9b27a401, 0x714260ad, 0x43ada245),
      0xd807aa98, 0x00000000);
    NextRound(p, 9, Hash(0x8e04ecb9, 0x85a07b5f, 0xe5030380, 0x2b4209f5,
      0x32ca2d8c, 0x0c657a79, 0x9b27a401, 0x714260ad),
      0x12835b01, 0x00000000);
    NextRound(p, 10, Hash(0x8c87346b, 0x8e04ecb9, 0x85a07b5f, 0xe5030380,
      0x1cc92596, 0x32ca2d8c, 0x0c657a79, 0x9b27a401),
      0x243185be, 0x00000000);
    NextRound(p, 11, Hash(0x4798a3f4, 0x8c87346b, 0x8e04ecb9, 0x85a07b5f,
      0x436b23e8, 0x1cc92596, 0x32ca2d8c, 0x0c657a79),
      0x550c7dc3, 0x00000000);
  }

  lemma Rounds16(p: Chunk)
    requires IsExampleChunk(p)
    ensures Rounds(INITIAL, p, 16) == Hash(0xb0fa238e, 0xc0645fde, 0xd932eb16, 0x87912990,
      0x07590dcd, 0x0b92f20c, 0x745a48de, 0x1e578218)
  {
    hide Schedule, Rounds, IsExampleChunk;
    Words1(p);
    Rounds12(p);
    NextRound(p, 12, Hash(0xf71fc5a9, 0x4798a3f4, 0x8c87346b, 0x8e04ecb9,
      0x816fd6e9, 0x436b23e8, 0x1cc92596, 0x32ca2d8c),
      0x72be5d74, 0x00000000);
    NextRound(p, 13, Hash(0x87912990, 0xf71fc5a9, 0x4798a3f4, 0x8c87346b,
      0x1e578218, 0x816fd6e9, 0x436b23e8, 0x1cc92596),
      0x80deb1fe, 0x00000000);
    NextRound(p, 14, Hash(0xd932eb16, 0x87912990, 0xf71fc5a9, 0x4798a3f4,
      0x745a48de, 0x1e578218, 0x816fd6e9, 0x436b23e8),
      0x9bdc06a7, 0x00000000);
    NextRound(p, 15, Hash(0xc0645fde, 0xd932eb16, 0x87912990, 0xf71fc5a9,
      0x0b92f20c, 0x745a48de, 0x1e578218, 0x816fd6e9),
      0xc19bf174, 0x00000018);
  }

  lemma Rounds20(p: Chunk)
    requires IsExampleChunk(p)
    ensures Rounds(INITIAL, p, 20) == Hash(0xe1f20c33, 0xfe777bbf, 0xc2fbd9d1, 0x21da9a9b,
      0xb0638179, 0xcc899961, 0x846ee454, 0x8034229c)
  {
    hide Schedule, Rounds, IsExampleChunk;
    Words2(p);
    Rounds16(p);
    NextRound(p, 16, Hash(0xb0fa238e, 0xc0645fde, 0xd932eb16, 0x87912990,
      0x07590dcd, 0x0b92f20c, 0x745a48de, 0x1e578218),
      0xe49b69c1, 0x61626380);
    NextRound(p, 17, Hash(0x21da9a9b, 0xb0fa238e, 0xc0645fde, 0xd932eb16,
      0x8034229c, 0x07590dcd, 0x0b92f20c, 0x745a48de),
      0xefbe4786, 0x000f0000);
    NextRound(p, 18, Hash(0xc2fbd9d1, 0x21da9a9b, 0xb0fa238e, 0xc0645fde,
      0x846ee454, 0x8034229c, 0x07590dcd, 0x0b92f20c),
      0x0fc19dc6, 0x7da86405);
    NextRound(p, 19, Hash(0xfe777bbf, 0xc2fbd9d1, 0x21da9a9b, 0xb0fa238e,
      0xcc899961, 0x846ee454, 0x8034229c, 0x07590dcd),
      0x240ca1cc, 0x600003c6);
  }

  lemma Rounds24(p: Chunk)
    requires IsExampleChunk(p)
    ensures Rounds(INITIAL, p, 24) == Hash(0xc5d53d8d, 0xa7a3623f, 0xc2606d6d, 0x9dc68b63,
      0xaa47c347, 0x49f5114a, 0xe1257970, 0x8ada8930)
  {
    hide Schedule, Rounds, IsExampleChunk;
    Words2(p);
    Rounds20(p);
    NextRound(p, 20, Hash(0xe1f20c33, 0xfe777bbf, 0xc2fbd9d1, 0x21da9a9b,
      0xb0638179, 0xcc899961, 0x846ee454, 0x8034229c),
      0x2de92c6f, 0x3e9d7b78);
    NextRound(p, 21, Hash(0x9dc68b63, 0xe1f20c33, 0xfe777bbf, 0xc2fbd9d1,
      0x8ada8930, 0xb0638179, 0xcc899961, 0x846ee454),
      0x4a7484aa, 0x0183fc00);
    NextRound(p, 22, Hash(0xc2606d6d, 0x9dc68b63, 0xe1f20c33, 0xfe777bbf,
      0xe1257970, 0x8ada8930, 0xb0638179, 0xcc899961),
      0x5cb0a9dc, 0x12dcbfdb);
    NextRound(p, 23, Hash(0xa7a3623f, 0xc2606d6d, 0x9dc68b63, 0xe1f20c33,
      0x49f5114a, 0xe1257970, 0x8ada8930, 0xb0638179),
      0x76f988da, 0xe2e2c38e);
  }

  lemma Rounds28(p: Chunk)
    requires IsExampleChunk(p)
    ensures Rounds(INITIAL, p, 28) == Hash(0x77d37528, 0xb62ec4bc, 0xcde8037d, 0x1c2c2838,
      0xedffbff8, 0xc74c6516, 0x14383d8e, 0x2823ef91)
  {
    hide Schedule, Rounds, IsExampleChunk;
    Words3(p);
    Rounds24(p);
    NextRound(p, 24, Hash(0xc5d53d8d, 0xa7a3623f, 0xc2606d6d, 0x9dc68b63,
      0xaa47c347, 0x49f5114a, 0xe1257970, 0x8ada8930),
      0x983e5152, 0xc8215c1a);
    NextRound(p, 25, Hash(0x1c2c2838, 0xc5d53d8d, 0xa7a3623f, 0xc2606d6d,
      0x2823ef91, 0xaa47c347, 0x49f5114a, 0xe1257970),
      0xa831c66d, 0xb73679a2);
    NextRound(p, 26, Hash(0xcde8037d, 0x1c2c2838, 0xc5d53d8d, 0xa7a3623f,
      0x14383d8e, 0x2823ef91, 0xaa47c347, 0x49f5114a),
      0xb00327c8, 0xe5bc3909);
    NextRound(p, 27, Hash(0xb62ec4bc, 0xcde8037d, 0x1c2c2838, 0xc5d53d8d,
      0xc74c6516, 0x14383d8e, 0x2823ef91, 0xaa47c347),
      0xbf597fc7, 0x32663c5b);
  }

  lemma Rounds32(p: Chunk)
    requires IsExampleChunk(p)
    ensures Rounds(INITIAL, p, 32) == Hash(0x73b33bf5, 0xea992a22, 0xa0060b30, 0x363482c9,
      0xba591112, 0x0109ab3a, 0xade79437, 0x6112a3b7)
  {
    hide Schedule, Rounds, IsExampleChunk;
    Words3(p);
    Rounds28(p);
    NextRound(p, 28, Hash(0x77d37528, 0xb62ec4bc, 0xcde8037d, 0x1c2c2838,
      0xedffbff8, 0xc74c6516, 0x14383d8e, 0x2823ef91),
      0xc6e00bf3, 0x9d209d67);
    NextRound(p, 29, Hash(0x363482c9, 0x77d37528, 0xb62ec4bc, 0xcde8037d,
      0x6112a3b7, 0xedffbff8, 0xc74c6516, 0x14383d8e),
      0xd5a79147, 0xec8726cb);
    NextRound(p, 30, Hash(0xa0060b30, 0x363482c9, 0x77d37528, 0xb62ec4bc,
      0xade79437, 0x6112a3b7, 0xedffbff8, 0xc74c6516),
      0x06ca6351, 0x702138a4);
    NextRound(p, 31, Hash(0xea992a22, 0xa0060b30, 0x363482c9, 0x77d37528,
      0x0109ab3a, 0xade79437, 0x6112a3b7, 0xedffbff8),
      0x14292967, 0xd3b7973b);
  }

  lemma Rounds36(p: Chunk)
    requires IsExampleChunk(p)
    ensures Rounds(INITIAL, p, 36) == Hash(0x65a0cfe4, 0xa9a7738c, 0xfe604df5, 0x98e12507,
      0xf4b002d6, 0x085f3833, 0x59249dd3, 0x9cd9f5f6)
  {
    hide Schedule, Rounds, IsExampleChunk;
    Words4(p);
    Rounds32(p);
    NextRound(p, 32, Hash(0x73b33bf5, 0xea992a22, 0xa0060b30, 0x363482c9,
      0xba591112, 0x0109ab3a, 0xade79437, 0x6112a3b7),
      0x27b70a85, 0x93f5997f);
    NextRound(p, 33, Hash(0x98e12507, 0x73b33bf5, 0xea992a22, 0xa0060b30,
      0x9cd9f5f6, 0xba591112, 0x0109ab3a, 0xade79437),
      0x2e1b2138, 0x3b68ba73);
    NextRound(p, 34, Hash(0xfe604df5, 0x98e12507, 0x73b33bf5, 0xea992a22,
      0x59249dd3, 0x9cd9f5f6, 0xba591112, 0x0109ab3a),
      0x4d2c6dfc, 0xaff4ffc1);
    NextRound(p, 35, Hash(0xa9a7738c, 0xfe604df5, 0x98e12507, 0x73b33bf5,
      0x085f3833, 0x59249dd3, 0x9cd9f5f6, 0xba591112),
      0x53380d13, 0xf10a5c62);
  }

  lemma Rounds40(p: Chunk)
    requires IsExampleChunk(p)
    ensures Rounds(INITIAL, p, 40) == Hash(0x79ea687a, 0x6dc57a8a, 0x34df1604, 0x41a65cb1,
      0x1efbc0a0, 0xf0781bc8, 0xa507a53d, 0x0772a26b)
  {
    hide Schedule, Rounds, IsExampleChunk;
    Words4(p);
    Rounds36(p);
    NextRound(p, 36, Hash(0x65a0cfe4, 0xa9a7738c, 0xfe604df5, 0x98e12507,
      0xf4b002d6, 0x085f3833, 0x59249dd3, 0x9cd9f5f6),
      0x650a7354, 0x0a8b3996);
    NextRound(p, 37, Hash(0x41a65cb1, 0x65a0cfe4, 0xa9a7738c, 0xfe604df5,
      0x0772a26b, 0xf4b002d6, 0x085f3833, 0x59249dd3),
      0x766a0abb, 0x72af830a);
    NextRound(p, 38, Hash(0x34df1604, 0x41a65cb1, 0x65a0cfe4, 0xa9a7738c,
      0xa507a53d, 0x0772a26b, 0xf4b002d6, 0x085f3833),
      0x81c2c92e, 0x9409e33e);
    NextRound(p, 39, Hash(0x6dc57a8a, 0x34df1604, 0x41a65cb1, 0x65a0cfe4,
      0xf0781bc8, 0xa507a53d, 0x0772a26b, 0xf4b002d6),
      0x92722c85, 0x24641522);
  }

  lemma Rounds44(p: Chunk)
    requires IsExampleChunk(p)
    ensures Rounds(INITIAL, p, 44) == Hash(0x9d4baf93, 0x17aa0dfe, 0xdf46652f, 0xd6670766,
      0xfda24c2e, 0xdecd4715, 0x838b2711, 0x26352d63)
  {
    hide Schedule, Rounds, IsExampleChunk;
    Words5(p);
    Rounds40(p);
    NextRound(p, 40, Hash(0x79ea687a, 0x6dc57a8a, 0x34df1604, 0x41a65cb1,
      0x1efbc0a0, 0xf0781bc8, 0xa507a53d, 0x0772a26b),
      0xa2bfe8a1, 0x9f47bf94);
    NextRound(p, 41, Hash(0xd6670766, 0x79ea687a, 0x6dc57a8a, 0x34df1604,
      0x26352d63, 0x1efbc0a0, 0xf0781bc8, 0xa507a53d),
      0xa81a664b, 0xf0a64f5a);
    NextRound(p, 42, Hash(0xdf46652f, 0xd6670766, 0x79ea687a, 0x6dc57a8a,
      0x838b2711, 0x26352d63, 0x1efbc0a0, 0xf0781bc8),
      0xc24b8b70, 0x3e246a79);
    NextRound(p, 43, Hash(0x17aa0dfe, 0xdf46652f, 0xd6670766, 0x79ea687a,
      0xdecd4715, 0x838b2711, 0x26352d63, 0x1efbc0a0),
      0xc76c51a3, 0x27333ba3);
  }

  lemma Rounds48(p: Chunk)
    requires IsExampleChunk(p)
    ensures Rounds(INITIAL, p, 48) == Hash(0x4172328d, 0xa14c14b0, 0x72ab4b91, 0x26628815,
      0xfecf0bc6, 0xd57b94a9, 0xb7755da1, 0xa80f11f0)
  {
    hide Schedule, Rounds, IsExampleChunk;
    Words5(p);
    Rounds44(p);
    NextRound(p, 44, Hash(0x9d4baf93, 0x17aa0dfe, 0xdf46652f, 0xd6670766,
      0xfda24c2e, 0xdecd4715, 0x838b2711, 0x26352d63),
      0xd192e819, 0x0c4763f2);
    NextRound(p, 45, Hash(0x26628815, 0x9d4baf93, 0x17aa0dfe, 0xdf46652f,
      0xa80f11f0, 0xfda24c2e, 0xdecd4715, 0x838b2711),
      0xd6990624, 0x840abf27);
    NextRound(p, 46, Hash(0x72ab4b91, 0x26628815, 0x9d4baf93, 0x17aa0dfe,
      0xb7755da1, 0xa80f11f0, 0xfda24c2e, 0xdecd4715),
      0xf40e3585, 0x7a290d5d);
    NextRound(p, 47, Hash(0xa14c14b0, 0x72ab4b91, 0x26628815, 0x9d4baf93,
      0xd57b94a9, 0xb7755da1, 0xa80f11f0, 0xfda24c2e),
      0x106aa070, 0x065c43da);
  }

  lemma Rounds52(p: Chunk)
    requires IsExampleChunk(p)
    ensures Rounds(INITIAL, p, 52) == Hash(0x886e7a22, 0x7a0508a1, 0xf11bfaa8, 0x05757ceb,
      0x49231c1e, 0x52f1ccf7, 0x6e5c390c, 0xbd714038)
  {
    hide Schedule, Rounds, IsExampleChunk;
    Words6(p);
    Rounds48(p);
    NextRound(p, 48, Hash(0x4172328d, 0xa14c14b0, 0x72ab4b91, 0x26628815,
      0xfecf0bc6, 0xd57b94a9, 0xb7755da1, 0xa80f11f0),
      0x19a4c116, 0xfb3e89cb);
    NextRound(p, 49, Hash(0x05757ceb, 0x4172328d, 0xa14c14b0, 0x72ab4b91,
      0xbd714038, 0xfecf0bc6, 0xd57b94a9, 0xb7755da1),
      0x1e376c08, 0xcc7617db);
    NextRound(p, 50, Hash(0xf11bfaa8, 0x05757ceb, 0x4172328d, 0xa14c14b0,
      0x6e5c390c, 0xbd714038, 0xfecf0bc6, 0xd57b94a9),
      0x2748774c, 0xb9e66c34);
    NextRound(p, 51, Hash(0x7a0508a1, 0xf11bfaa8, 0x05757ceb, 0x4172328d,
      0x52f1ccf7, 0x6e5c390c, 0xbd714038, 0xfecf0bc6),
      0x34b0bcb5, 0xa9993667);
  }

  lemma Rounds56(p: Chunk)
    requires IsExampleChunk(p)
    ensures Rounds(INITIAL, p, 56) == Hash(0x38cc9913, 0x3ec45cdb, 0xf5702fdb, 0x101fd28f,
      0x54cb266b, 0xe50e1b4f, 0x9f4787c3, 0x529e7d00)
  {
    hide Schedule, Rounds, IsExampleChunk;
    Words6(p);
    Rounds52(p);
    NextRound(p, 52, Hash(0x886e7a22, 0x7a0508a1, 0xf11bfaa8, 0x05757ceb,
      0x49231c1e, 0x52f1ccf7, 0x6e5c390c, 0xbd714038),
      0x391c0cb3, 0x84badedd);
    NextRound(p, 53, Hash(0x101fd28f, 0x886e7a22, 0x7a0508a1, 0xf11bfaa8,
      0x529e7d00, 0x49231c1e, 0x52f1ccf7, 0x6e5c390c),
      0x4ed8aa4a, 0xc21462bc);
    NextRound(p, 54, Hash(0xf5702fdb, 0x101fd28f, 0x886e7a22, 0x7a0508a1,
      0x9f4787c3, 0x529e7d00, 0x49231c1e, 0x52f1ccf7),
      0x5b9cca4f, 0x1487472c);
    NextRound(p, 55, Hash(0x3ec45cdb, 0xf5702fdb, 0x101fd28f, 0x886e7a22,
      0xe50e1b4f, 0x9f4787c3, 0x529e7d00, 0x49231c1e),
      0x682e6ff3, 0xb20f7a99);
  }

  lemma Rounds60(p: Chunk)
    requires IsExampleChunk(p)
    ensures Rounds(INITIAL, p, 60) == Hash(0xb6ae8fff, 0xffb70472, 0xc062d46f, 0xfcd1887b,
      0xb21bad3d, 0x6d83bfc6, 0x7e44008e, 0x9b5e906c)
  {
    hide Schedule, Rounds, IsExampleChunk;
    Words7(p);
    Rounds56(p);
    NextRound(p, 56, Hash(0x38cc9913, 0x3ec45cdb, 0xf5702fdb, 0x101fd28f,
      0x54cb266b, 0xe50e1b4f, 0x9f4787c3, 0x529e7d00),
      0x748f82ee, 0xef57b9cd);
    NextRound(p, 57, Hash(0xfcd1887b, 0x38cc9913, 0x3ec45cdb, 0xf5702fdb,
      0x9b5e906c, 0x54cb266b, 0xe50e1b4f, 0x9f4787c3),
      0x78a5636f, 0xebe6b238);
    NextRound(p, 58, Hash(0xc062d46f, 0xfcd1887b, 0x38cc9913, 0x3ec45cdb,
      0x7e44008e, 0x9b5e906c, 0x54cb266b, 0xe50e1b4f),
      0x84c87814, 0x9fe3095e);
    NextRound(p, 59, Hash(0xffb70472, 0xc062d46f, 0xfcd1887b, 0x38cc9913,
      0x6d83bfc6, 0x7e44008e, 0x9b5e906c, 0x54cb266b),
      0x8cc70208, 0x78bc8d4b);
  }

  lemma Rounds64(p: Chunk)
    requires IsExampleChunk(p)
    ensures Rounds(INITIAL, p, 64) == Hash(0x506e3058, 0xd39a2165, 0x04d24d6c, 0xb85e2ce9,
      0x5ef50f24, 0xfb121210, 0x948d25b6, 0x961f4894)
  {
    hide Schedule, Rounds, IsExampleChunk;
    Words7(p);
    Rounds60(p);
    NextRound(p, 60, Hash(0xb6ae8fff, 0xffb70472, 0xc062d46f, 0xfcd1887b,
      0xb21bad3d, 0x6d83bfc6, 0x7e44008e, 0x9b5e906c),
      0x90befffa, 0xa43fcf15);
    NextRound(p, 61, Hash(0xb85e2ce9, 0xb6ae8fff, 0xffb70472, 0xc062d46f,
      0x961f4894, 0xb21bad3d, 0x6d83bfc6, 0x7e44008e),
      0xa4506ceb, 0x668b2ff8);
    NextRound(p, 62, Hash(0x04d24d6c, 0xb85e2ce9, 0xb6ae8fff, 0xffb70472,
      0x948d25b6, 0x961f4894, 0xb21bad3d, 0x6d83bfc6),
      0xbef9a3f7, 0xeeaba2cc);
    NextRound(p, 63, Hash(0xd39a2165, 0x04d24d6c, 0xb85e2ce9, 0xb6ae8fff,
      0xfb121210, 0x948d25b6, 0x961f4894, 0xb21bad3d),
      0xc67178f2, 0x12b1edeb);
  }

  lemma NoRounds(p: Chunk)
    ensures Rounds(INITIAL, p, 0) == INITIAL
  {}

  /** The hash of "abc" is the published one. */
  lemma PublishedHash()
    ensures Sha256(MESSAGE) == [
      0xba, 0x78, 0x16, 0xbf, 0x8f, 0x01, 0xcf, 0xea,
      0x41, 0x41, 0x40, 0xde, 0x5d, 0xae, 0x22, 0x23,
      0xb0, 0x03, 0x61, 0xa3, 0x96, 0x17, 0x7a, 0x9c,
      0xb4, 0x10, 0xff, 0x61, 0xf2, 0x00, 0x15, 0xad]
  {
    hide Padding, Rounds, Schedule, WordBytes, HashChunks, IsExampleChunk;
    var p := MESSAGE + Padding(3);
    PaddedWords();
    HashOneChunk(INITIAL, p);
    Rounds64(p);
    DigestBytes();
  }

  lemma EightWords(a: word, b: word, c: word, d: word, e: word, f: word, g: word, h: word)
    ensures Digest(Hash(a, b, c, d, e, f, g, h))
         == ToBytes(a) + ToBytes(b) + ToBytes(c) + ToBytes(d) + ToBytes(e) + ToBytes(f) + ToBytes(g) + ToBytes(h)
  {
    hide ToBytes, WordBytes;
    NoWords();
    WordAppends([], a);
    WordAppends([a], b);
    WordAppends([a, b], c);
    WordAppends([a, b, c], d);
    WordAppends([a, b, c, d], e);
    WordAppends([a, b, c, d, e], f);
    WordAppends([a, b, c, d, e, f], g);
    WordAppends([a, b, c, d, e, f, g], h);
    assert [] + [a] == [a] && [a] + [b] == [a, b] && [a, b] + [c] == [a, b, c] && [a, b, c] + [d] == [a, b, c, d];
    assert [a, b, c, d] + [e] == [a, b, c, d, e] && [a, b, c, d, e] + [f] == [a, b, c, d, e, f];
    assert [a, b, c, d, e, f] + [g] == [a, b, c, d, e, f, g];
    assert [a, b, c, d, e, f, g] + [h] == [a, b, c, d, e, f, g, h];
    assert [] + ToBytes(a) == ToBytes(a);
  }

  lemma NoWords()
    ensures WordBytes([]) == []
  {}

  lemma WordAppends(words: seq<word>, x: word)
    ensures WordBytes(words + [x]) == WordBytes(words) + ToBytes(x)
  {
    hide ToBytes;
    assert (words + [x])[..|words|] == words;
  }

  lemma DigestBytes()
    ensures Digest(Hash(0xba7816bf, 0x8f01cfea, 0x414140de, 0x5dae2223,
        0xb00361a3, 0x96177a9c, 0xb410ff61, 0xf20015ad)) == [
      0xba, 0x78, 0x16, 0xbf, 0x8f, 0x01, 0xcf, 0xea,
      0x41, 0x41, 0x40, 0xde, 0x5d, 0xae, 0x22, 0x23,
      0xb0, 0x03, 0x61, 0xa3, 0x96, 0x17, 0x7a, 0x9c,
      0xb4, 0x10, 0xff, 0x61, 0xf2, 0x00, 0x15, 0xad]
  {
    EightWords(0xba7816bf, 0x8f01cfea, 0x414140de, 0x5dae2223, 0xb00361a3, 0x96177a9c, 0xb410ff61, 0xf20015ad);
  }
}
