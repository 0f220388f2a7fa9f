/**
 * The compression routine of the boot loader's SHA-256: one chunk at a time, with a window of
 * sixteen words in place of the 64-word message schedule.
 */
module Sha256Compress {
  import opened Fips180

  const CHUNK_LEN := 64
  const HASH_LEN := 32
  const TOTAL_LEN_LEN := 8

  // --------------------------------------------------------------------------
  // Compression
  // --------------------------------------------------------------------------

  function RightRot(value: word, count: nat): word
    requires 0 < count < 32
  {
    (value >> count) | (value << (32 - count))
  }

  lemma RightRotRotates(x: word)
    ensures RightRot(x, 2) == x.RotateRight(2) && RightRot(x, 13) == x.RotateRight(13)
    ensures RightRot(x, 22) == x.RotateRight(22)
    ensures RightRot(x, 6) == x.RotateRight(6) && RightRot(x, 11) == x.RotateRight(11)
    ensures RightRot(x, 25) == x.RotateRight(25)
    ensures RightRot(x, 7) == x.RotateRight(7) && RightRot(x, 18) == x.RotateRight(18)
    ensures RightRot(x, 17) == x.RotateRight(17) && RightRot(x, 19) == x.RotateRight(19)
  {}

  lemma AddCommutes(a: word, b: word)
    ensures Add(a, b) == Add(b, a)
  {}

  lemma AddUnfolds(a: word, b: word, c: word)
    ensures Add(a, b) == a + b
    ensures Add(a + b, c) == a + b + c && Add(a, b + c) == a + b + c
  {}

  lemma AddAssociates(a: word, b: word, c: word)
    ensures Add(Add(a, b), c) == Add(a, Add(b, c))
  {
    hide Add;
    AddUnfolds(a, b, c);
    AddUnfolds(b, c, 0);
    assert Add(Add(a, b), c) == Add(a + b, c);
    assert Add(a, Add(b, c)) == Add(a, b + c);
  }

  lemma AddReorders(a: word, b: word, c: word, d: word)
    ensures Add(Add(Add(a, b), c), d) == Add(Add(Add(d, c), b), a)
  {
    hide Add;
    AddCommutes(Add(Add(a, b), c), d);
    AddCommutes(Add(a, b), c);
    AddCommutes(a, b);
    AddAssociates(d, c, Add(b, a));
    AddAssociates(Add(d, c), b, a);
  }

  ghost function HashOf(s: seq<word>): Hash
    requires |s| == 8
  {
    Hash(s[0], s[1], s[2], s[3], s[4], s[5], s[6], s[7])
  }

  // The sixteen words kept at step (i, j): slots below `j` hold words of group `i` of the
  // schedule, and the others still hold words of the group before.
  ghost predicate Window(w: seq<word>, p: Chunk, i: nat, j: nat)
    requires |w| == 16
  {
    && (forall s: nat :: s < j && s < 16 ==> w[s] == Schedule(p, 16 * i + s))
    && (i > 0 ==> forall s: nat :: j <= s < 16 ==> w[s] == Schedule(p, 16 * i + s - 16))
  }

  // The word `back` places behind the current one is in the window, in its slot modulo 16.
  lemma WindowLooksBack(w: seq<word>, p: Chunk, i: nat, j: nat, back: nat)
    requires |w| == 16 && i > 0 && j < 16 && 1 <= back <= 16
    requires Window(w, p, i, j)
    ensures w[(j + 16 - back) % 16] == Schedule(p, 16 * i + j - back)
  {
    hide Schedule;
    if j >= back {
      assert (j + 16 - back) % 16 == j - back;
    } else {
      assert (j + 16 - back) % 16 == j + 16 - back;
    }
  }

  lemma ScheduleUnfolds(p: Chunk, t: nat)
    requires t >= 16
    ensures Schedule(p, t)
         == Add(Add(Add(LowerSigma1(Schedule(p, t - 2)), Schedule(p, t - 7)), LowerSigma0(Schedule(p, t - 15))),
                Schedule(p, t - 16))
  {
    hide Add, LowerSigma0, LowerSigma1;
  }

  lemma FirstWords(p: Chunk, t: nat)
    requires t < 16
    ensures Schedule(p, t) == FromBytes(p[4 * t], p[4 * t + 1], p[4 * t + 2], p[4 * t + 3])
  {
    hide FromBytes;
  }

  /** A word of the chunk itself, read at byte `at`. */
  method LoadWord(w: array<word>, j: nat, p: Chunk, at: nat)
    requires w.Length == 16 && j < 16 && at == 4 * j
    requires Window(w[..], p, 0, j)
    modifies w
    ensures Window(w[..], p, 0, j + 1)
    ensures w[j] == Schedule(p, j)
  {
    hide FromBytes, Schedule;
    FirstWords(p, j);
    WindowSlides(w[..], w[..][j := Schedule(p, j)], p, 0, j);
    w[j] := FromBytes(p[at], p[at + 1], p[at + 2], p[at + 3]);
    assert w[..] == old(w[..])[j := Schedule(p, j)];
  }

  /** The extension of the message schedule by one word, in place. */
  method ExtendSchedule(w: array<word>, j: nat, ghost p: Chunk, ghost i: nat)
    requires w.Length == 16 && j < 16 && i > 0
    requires Window(w[..], p, i, j)
    modifies w
    ensures Window(w[..], p, i, j + 1)
    ensures w[j] == Schedule(p, 16 * i + j)
  {
    hide Add, Xor3, LowerSigma0, LowerSigma1, RightRot, Schedule;
    ghost var t := 16 * i + j;
    ghost var before := w[..];
    WindowLooksBack(before, p, i, j, 2);
    WindowLooksBack(before, p, i, j, 7);
    WindowLooksBack(before, p, i, j, 15);
    WindowLooksBack(before, p, i, j, 16);
    var w1, w14 := w[(j + 1) % 16], w[(j + 14) % 16];
    var s0 := Xor3(RightRot(w1, 7), RightRot(w1, 18), w1 >> 3);
    var s1 := Xor3(RightRot(w14, 17), RightRot(w14, 19), w14 >> 10);
    LowerSigmasByRotation(w1, w14);
    AddReorders(w[j], s0, w[(j + 9) % 16], s1);
    ScheduleUnfolds(p, t);
    w[j] := Add(Add(Add(w[j], s0), w[(j + 9) % 16]), s1);
    WindowSlides(before, w[..], p, i, j);
  }

  lemma WindowSlides(before: seq<word>, after: seq<word>, p: Chunk, i: nat, j: nat)
    requires |before| == 16 && j < 16
    requires Window(before, p, i, j)
    requires after == before[j := Schedule(p, 16 * i + j)]
    ensures Window(after, p, i, j + 1)
  {
    hide Schedule;
  }

  lemma LowerSigmasByRotation(x: word, y: word)
    ensures Xor3(RightRot(x, 7), RightRot(x, 18), x >> 3) == LowerSigma0(x)
    ensures Xor3(RightRot(y, 17), RightRot(y, 19), y >> 10) == LowerSigma1(y)
  {
    hide Xor3, RightRot;
    RightRotRotates(x);
    RightRotRotates(y);
  }

  lemma UpperSigmasByRotation(x: word, y: word)
    ensures Xor3(RightRot(x, 2), RightRot(x, 13), RightRot(x, 22)) == UpperSigma0(x)
    ensures Xor3(RightRot(y, 6), RightRot(y, 11), RightRot(y, 25)) == UpperSigma1(y)
  {
    hide Xor3, RightRot;
    RightRotRotates(x);
    RightRotRotates(y);
  }

  lemma RoundUnfolds(v: Hash, k: word, w: word)
    ensures var t1 := Add(Add(Add(Add(v.h, UpperSigma1(v.e)), Ch(v.e, v.f, v.g)), k), w);
      var t2 := Add(UpperSigma0(v.a), Maj(v.a, v.b, v.c));
      Round(v, k, w) == Hash(Add(t1, t2), v.a, v.b, v.c, Add(v.d, t1), v.e, v.f, v.g)
  {}

  /** One round of the compression function, in place on the eight working variables. */
  method StepRound(ah: array<word>, k: word, w: word)
    requires ah.Length == 8
    modifies ah
    ensures HashOf(ah[..]) == Round(old(HashOf(ah[..])), k, w)
  {
    hide Add, Ch, Maj, Xor3, UpperSigma0, UpperSigma1, RightRot, Round;
    ghost var v := HashOf(ah[..]);
    RoundUnfolds(v, k, w);
    UpperSigmasByRotation(ah[0], ah[4]);
    var s1 := Xor3(RightRot(ah[4], 6), RightRot(ah[4], 11), RightRot(ah[4], 25));
    var ch := Ch(ah[4], ah[5], ah[6]);
    var temp1 := Add(Add(Add(Add(ah[7], s1), ch), k), w);
    var s0 := Xor3(RightRot(ah[0], 2), RightRot(ah[0], 13), RightRot(ah[0], 22));
    var maj := Maj(ah[0], ah[1], ah[2]);
    var temp2 := Add(s0, maj);

    ah[7] := ah[6];
    ah[6] := ah[5];
    ah[5] := ah[4];
    ah[4] := Add(ah[3], temp1);
    ah[3] := ah[2];
    ah[2] := ah[1];
    ah[1] := ah[0];
    ah[0] := Add(temp1, temp2);
  }

  /** The first loop of the compression: the working variables start as the hash value. */
  method CopyWords(ah: array<word>, h: array<word>)
    requires ah.Length == h.Length && ah != h
    modifies ah
    ensures ah[..] == h[..]
  {
    var i: nat := 0;
    while i < ah.Length
      invariant i <= ah.Length
      invariant forall k :: 0 <= k < i ==> ah[k] == h[k]
    {
      ah[i] := h[i];
      i := i + 1;
    }
  }

  /** `consume_chunk`: the window of sixteen words gives the hash of the 64-word schedule. */
  method ConsumeChunk(h: array<word>, p: Chunk)
    requires h.Length == 8
    modifies h
    ensures HashOf(h[..]) == Compress(old(HashOf(h[..])), p)
  {
    hide Add, Round, Rounds, K, FromBytes, Window, Schedule;
    ghost var start := HashOf(h[..]);
    var ah := new word[8];
    CopyWords(ah, h);

    var w := new word[16];
    var at: nat := 0;
    var i: nat := 0;
    WindowStarts(w[..], p);
    NoRounds(start, p);
    while i < 4
      invariant i <= 4
      invariant i == 0 ==> at == 0
      invariant Window(w[..], p, i, 0)
      invariant HashOf(ah[..]) == Rounds(start, p, 16 * i)
      invariant h[..] == old(h[..])
    {
      var j: nat := 0;
      while j < 16
        invariant j <= 16
        invariant i == 0 ==> at == 4 * j
        invariant Window(w[..], p, i, j)
        invariant HashOf(ah[..]) == Rounds(start, p, 16 * i + j)
        invariant h[..] == old(h[..])
      {
        if i == 0 {
          LoadWord(w, j, p, at);
          at := at + 4;
        } else {
          ExtendSchedule(w, j, p, i);
        }
        StepRound(ah, K(16 * i + j), w[j]);
        NextRound(start, p, 16 * i + j);
        j := j + 1;
      }
      WindowTurns(w[..], p, i);
      i := i + 1;
    }

    AddInto(h, ah);
  }

  lemma NoRounds(v: Hash, p: Chunk)
    ensures Rounds(v, p, 0) == v
  {}

  lemma NextRound(v: Hash, p: Chunk, t: nat)
    requires t < 64
    ensures Rounds(v, p, t + 1) == Round(Rounds(v, p, t), K(t), Schedule(p, t))
  {
    hide Round, K, Schedule;
  }

  lemma WindowStarts(w: seq<word>, p: Chunk)
    requires |w| == 16
    ensures Window(w, p, 0, 0)
  {}

  lemma WindowTurns(w: seq<word>, p: Chunk, i: nat)
    requires |w| == 16 && Window(w, p, i, 16)
    ensures Window(w, p, i + 1, 0)
  {
    hide Schedule;
  }

  /** The last loop of the compression: adds the working variables to the hash value. */
  method AddInto(h: array<word>, ah: array<word>)
    requires h.Length == 8 && ah.Length == 8 && h != ah
    modifies h
    ensures HashOf(h[..]) == AddHashes(old(HashOf(h[..])), HashOf(ah[..]))
  {
    hide Add;
    var i: nat := 0;
    while i < 8
      invariant i <= 8
      invariant forall k :: 0 <= k < 8 ==> h[k] == if k < i then Add(old(h[k]), ah[k]) else old(h[k])
    {
      h[i] := Add(h[i], ah[i]);
      i := i + 1;
    }
  }
}
