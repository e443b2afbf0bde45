/** A known answer: the digest of "abc" is the one that appendix A.5 of RFC 1321 gives. It
    depends on every entry of the sine table, every rotation and index, the initial state,
    the padding and the order of the bytes. */
module Md5Answer {
  import opened Md5Spec
  import opened WordBits
  import opened Words

  const MESSAGE: seq<Byte> := [0x61, 0x62, 0x63]  // "abc"

  // The padded message as the words of its one block.
  const ABC: seq<Word> := [0x80636261, 0, 0, 0, 0, 0, 0, 0, 0, 0, 0, 0, 0, 0, 0x18, 0]

  // ----- steps on the bits of the words

  function Image(a: bv32, b: bv32, c: bv32, d: bv32): State {
    State(FromBits(a), FromBits(b), FromBits(c), FromBits(d))
  }

  function AbcBits(k: nat): bv32 {
    if k == 0 then 0x80636261 else if k == 14 then 0x18 else 0
  }

  function StepBits(i: nat, s: nat, a: bv32, b: bv32, c: bv32, d: bv32, m: bv32, t: bv32): bv32
    requires i < 64 && 0 < s < 32
  {
    PlusBits(b, RotateBits(PlusBits(PlusBits(PlusBits(a, AuxBits(i, b, c, d)), m), t), s))
  }

  lemma StepIsBits(i: nat, a: bv32, b: bv32, c: bv32, d: bv32, m: bv32, t: bv32, x: seq<Word>)
    requires i < 64 && |x| == 16 && FromBits(m) == x[Index(i)] && FromBits(t) == SineTable(i)
    ensures Step(Image(a, b, c, d), i, x) == Image(d, StepBits(i, Shift(i), a, b, c, d, m, t), b, c)
  {
    hide ToBits, FromBits, AuxBits, RotateBits, Plus, PlusBits, SineTable, Shift, Index;
    BitsBack(b);
    BitsBack(c);
    BitsBack(d);
    var f := AuxBits(i, b, c, d);
    PlusIsBits(a, f);
    PlusIsBits(PlusBits(a, f), m);
    PlusIsBits(PlusBits(PlusBits(a, f), m), t);
    BitsBack(PlusBits(PlusBits(PlusBits(a, f), m), t));
    PlusIsBits(b, RotateBits(PlusBits(PlusBits(PlusBits(a, f), m), t), Shift(i)));
  }

  // Step i, with table entry t and rotation s, takes the registers a to d to the new one r.
  lemma NextRound(i: nat, a: bv32, b: bv32, c: bv32, d: bv32, t: bv32, s: nat, r: bv32)
    requires i < 64 && Rounds(INITIAL, i, ABC) == Image(a, b, c, d)
    requires FromBits(t) == SineTable(i) && Shift(i) == s
    requires StepBits(i, s, a, b, c, d, AbcBits(Index(i)), t) == r
    ensures Rounds(INITIAL, i + 1, ABC) == Image(d, r, b, c)
  {
    AbcWords(Index(i));
    hide ToBits, FromBits, StepBits, SineTable, Shift, Index, Step, Image, AbcBits;
    StepIsBits(i, a, b, c, d, AbcBits(Index(i)), t, ABC);
  }

  lemma AbcWords(k: nat)
    requires k < 16
    ensures FromBits(AbcBits(k)) == ABC[k]
  {
  }

  lemma NoRounds()
    ensures Rounds(INITIAL, 0, ABC) == Image(0x67452301, 0xefcdab89, 0x98badcfe, 0x10325476)
  {
  }

  lemma Sines0()
    ensures SineTable(0) == FromBits(0xd76aa478) && SineTable(1) == FromBits(0xe8c7b756)
    ensures SineTable(2) == FromBits(0x242070db) && SineTable(3) == FromBits(0xc1bdceee)
    ensures SineTable(4) == FromBits(0xf57c0faf) && SineTable(5) == FromBits(0x4787c62a)
    ensures SineTable(6) == FromBits(0xa8304613) && SineTable(7) == FromBits(0xfd469501)
  {
  }

  lemma Sines8()
    ensures SineTable(8) == FromBits(0x698098d8) && SineTable(9) == FromBits(0x8b44f7af)
    ensures SineTable(10) == FromBits(0xffff5bb1) && SineTable(11) == FromBits(0x895cd7be)
    ensures SineTable(12) == FromBits(0x6b901122) && SineTable(13) == FromBits(0xfd987193)
    ensures SineTable(14) == FromBits(0xa679438e) && SineTable(15) == FromBits(0x49b40821)
  {
  }

  lemma Sines16()
    ensures SineTable(16) == FromBits(0xf61e2562) && SineTable(17) == FromBits(0xc040b340)
    ensures SineTable(18) == FromBits(0x265e5a51) && SineTable(19) == FromBits(0xe9b6c7aa)
    ensures SineTable(20) == FromBits(0xd62f105d) && SineTable(21) == FromBits(0x02441453)
    ensures SineTable(22) == FromBits(0xd8a1e681) && SineTable(23) == FromBits(0xe7d3fbc8)
  {
  }

  lemma Sines24()
    ensures SineTable(24) == FromBits(0x21e1cde6) && SineTable(25) == FromBits(0xc33707d6)
    ensures SineTable(26) == FromBits(0xf4d50d87) && SineTable(27) == FromBits(0x455a14ed)
    ensures SineTable(28) == FromBits(0xa9e3e905) && SineTable(29) == FromBits(0xfcefa3f8)
    ensures SineTable(30) == FromBits(0x676f02d9) && SineTable(31) == FromBits(0x8d2a4c8a)
  {
  }

  lemma Sines32()
    ensures SineTable(32) == FromBits(0xfffa3942) && SineTable(33) == FromBits(0x8771f681)
    ensures SineTable(34) == FromBits(0x6d9d6122) && SineTable(35) == FromBits(0xfde5380c)
    ensures SineTable(36) == FromBits(0xa4beea44) && SineTable(37) == FromBits(0x4bdecfa9)
    ensures SineTable(38) == FromBits(0xf6bb4b60) && SineTable(39) == FromBits(0xbebfbc70)
  {
  }

  lemma Sines40()
    ensures SineTable(40) == FromBits(0x289b7ec6) && SineTable(41) == FromBits(0xeaa127fa)
    ensures SineTable(42) == FromBits(0xd4ef3085) && SineTable(43) == FromBits(0x04881d05)
    ensures SineTable(44) == FromBits(0xd9d4d039) && SineTable(45) == FromBits(0xe6db99e5)
    ensures SineTable(46) == FromBits(0x1fa27cf8) && SineTable(47) == FromBits(0xc4ac5665)
  {
  }

  lemma Sines48()
    ensures SineTable(48) == FromBits(0xf4292244) && SineTable(49) == FromBits(0x432aff97)
    ensures SineTable(50) == FromBits(0xab9423a7) && SineTable(51) == FromBits(0xfc93a039)
    ensures SineTable(52) == FromBits(0x655b59c3) && SineTable(53) == FromBits(0x8f0ccc92)
    ensures SineTable(54) == FromBits(0xffeff47d) && SineTable(55) == FromBits(0x85845dd1)
  {
  }

  lemma Sines56()
    ensures SineTable(56) == FromBits(0x6fa87e4f) && SineTable(57) == FromBits(0xfe2ce6e0)
    ensures SineTable(58) == FromBits(0xa3014314) && SineTable(59) == FromBits(0x4e0811a1)
    ensures SineTable(60) == FromBits(0xf7537e82) && SineTable(61) == FromBits(0xbd3af235)
    ensures SineTable(62) == FromBits(0x2ad7d2bb) && SineTable(63) == FromBits(0xeb86d391)
  {
  }

  lemma Rounds8()
    ensures Rounds(INITIAL, 8, ABC) == Image(0xc73741ef, 0x928d99f6, 0x207dc67b, 0x8bac3051)
  {
    hide Rounds, Image, SineTable, FromBits;
    NoRounds();
    Sines0();
    NextRound(0, 0x67452301, 0xefcdab89, 0x98badcfe, 0x10325476, 0xd76aa478, 7, 0xd6d117b4);
    NextRound(1, 0x10325476, 0xd6d117b4, 0xefcdab89, 0x98badcfe, 0xe8c7b756, 12, 0x344a8432);
    NextRound(2, 0x98badcfe, 0x344a8432, 0xd6d117b4, 0xefcdab89, 0x242070db, 17, 0x2f6fbd72);
    NextRound(3, 0xefcdab89, 0x2f6fbd72, 0x344a8432, 0xd6d117b4, 0xc1bdceee, 22, 0x7ad956f2);
    NextRound(4, 0xd6d117b4, 0x7ad956f2, 0x2f6fbd72, 0x344a8432, 0xf57c0faf, 7, 0xc73741ef);
    NextRound(5, 0x344a8432, 0xc73741ef, 0x7ad956f2, 0x2f6fbd72, 0x4787c62a, 12, 0x8bac3051);
    NextRound(6, 0x2f6fbd72, 0x8bac3051, 0xc73741ef, 0x7ad956f2, 0xa8304613, 17, 0x207dc67b);
    NextRound(7, 0x7ad956f2, 0x207dc67b, 0x8bac3051, 0xc73741ef, 0xfd469501, 22, 0x928d99f6);
  }

  lemma Rounds16()
    ensures Rounds(INITIAL, 16, ABC) == Image(0xdda9b9a6, 0x72aff2e0, 0xe396856b, 0xa1051895)
  {
    hide Rounds, Image, SineTable, FromBits;
    Rounds8();
    Sines8();
    NextRound(8, 0xc73741ef, 0x928d99f6, 0x207dc67b, 0x8bac3051, 0x698098d8, 7, 0x854b3712);
    NextRound(9, 0x8bac3051, 0x854b3712, 0x928d99f6, 0x207dc67b, 0x8b44f7af, 12, 0x74e2f284);
    NextRound(10, 0x207dc67b, 0x74e2f284, 0x854b3712, 0x928d99f6, 0xffff5bb1, 17, 0x3020401c);
    NextRound(11, 0x928d99f6, 0x3020401c, 0x74e2f284, 0x854b3712, 0x895cd7be, 22, 0x5ed49596);
    NextRound(12, 0x854b3712, 0x5ed49596, 0x3020401c, 0x74e2f284, 0x6b901122, 7, 0xdda9b9a6);
    NextRound(13, 0x74e2f284, 0xdda9b9a6, 0x5ed49596, 0x3020401c, 0xfd987193, 12, 0xa1051895);
    NextRound(14, 0x3020401c, 0xa1051895, 0xdda9b9a6, 0x5ed49596, 0xa679438e, 17, 0xe396856b);
    NextRound(15, 0x5ed49596, 0xe396856b, 0xa1051895, 0xdda9b9a6, 0x49b40821, 22, 0x72aff2e0);
  }

  lemma Rounds24()
    ensures Rounds(INITIAL, 24, ABC) == Image(0x59a8ffda, 0x47092c07, 0xabfc7920, 0x6d002f1e)
  {
    hide Rounds, Image, SineTable, FromBits;
    Rounds16();
    Sines16();
    NextRound(16, 0xdda9b9a6, 0x72aff2e0, 0xe396856b, 0xa1051895, 0xf61e2562, 5, 0x3e9e9126);
    NextRound(17, 0xa1051895, 0x3e9e9126, 0x72aff2e0, 0xe396856b, 0xc040b340, 9, 0x4a1d804e);
    NextRound(18, 0xe396856b, 0x4a1d804e, 0x3e9e9126, 0x72aff2e0, 0x265e5a51, 14, 0xe25e1652);
    NextRound(19, 0x72aff2e0, 0xe25e1652, 0x4a1d804e, 0x3e9e9126, 0xe9b6c7aa, 20, 0xb5b204e4);
    NextRound(20, 0x3e9e9126, 0xb5b204e4, 0xe25e1652, 0x4a1d804e, 0xd62f105d, 5, 0x59a8ffda);
    NextRound(21, 0x4a1d804e, 0x59a8ffda, 0xb5b204e4, 0xe25e1652, 0x02441453, 9, 0x6d002f1e);
    NextRound(22, 0xe25e1652, 0x6d002f1e, 0x59a8ffda, 0xb5b204e4, 0xd8a1e681, 14, 0xabfc7920);
    NextRound(23, 0xb5b204e4, 0xabfc7920, 0x6d002f1e, 0x59a8ffda, 0xe7d3fbc8, 20, 0x47092c07);
  }

  lemma Rounds32()
    ensures Rounds(INITIAL, 32, ABC) == Image(0x790a77fb, 0x726342d3, 0xa62884aa, 0x9f47e4f8)
  {
    hide Rounds, Image, SineTable, FromBits;
    Rounds24();
    Sines24();
    NextRound(24, 0x59a8ffda, 0x47092c07, 0xabfc7920, 0x6d002f1e, 0x21e1cde6, 5, 0xb7f268cf);
    NextRound(25, 0x6d002f1e, 0xb7f268cf, 0x47092c07, 0xabfc7920, 0xc33707d6, 9, 0x09388eff);
    NextRound(26, 0xabfc7920, 0x09388eff, 0xb7f268cf, 0x47092c07, 0xf4d50d87, 14, 0xfe1623b1);
    NextRound(27, 0x47092c07, 0xfe1623b1, 0x09388eff, 0xb7f268cf, 0x455a14ed, 20, 0x786acb8f);
    NextRound(28, 0xb7f268cf, 0x786acb8f, 0xfe1623b1, 0x09388eff, 0xa9e3e905, 5, 0x790a77fb);
    NextRound(29, 0x09388eff, 0x790a77fb, 0x786acb8f, 0xfe1623b1, 0xfcefa3f8, 9, 0x9f47e4f8);
    NextRound(30, 0xfe1623b1, 0x9f47e4f8, 0x790a77fb, 0x786acb8f, 0x676f02d9, 14, 0xa62884aa);
    NextRound(31, 0x786acb8f, 0xa62884aa, 0x9f47e4f8, 0x790a77fb, 0x8d2a4c8a, 20, 0x726342d3);
  }

  lemma Rounds40()
    ensures Rounds(INITIAL, 40, ABC) == Image(0x21b117b9, 0x5a2f5ea5, 0x3575227e, 0x6e7429d5)
  {
    hide Rounds, Image, SineTable, FromBits;
    Rounds32();
    Sines32();
    NextRound(32, 0x790a77fb, 0x726342d3, 0xa62884aa, 0x9f47e4f8, 0xfffa3942, 4, 0xb3707ebf);
    NextRound(33, 0x9f47e4f8, 0xb3707ebf, 0x726342d3, 0xa62884aa, 0x8771f681, 11, 0x60127b2e);
    NextRound(34, 0xa62884aa, 0x60127b2e, 0xb3707ebf, 0x726342d3, 0x6d9d6122, 16, 0x8d212ff5);
    NextRound(35, 0x726342d3, 0x8d212ff5, 0x60127b2e, 0xb3707ebf, 0xfde5380c, 23, 0x3b0875c7);
    NextRound(36, 0xb3707ebf, 0x3b0875c7, 0x8d212ff5, 0x60127b2e, 0xa4beea44, 4, 0x21b117b9);
    NextRound(37, 0x60127b2e, 0x21b117b9, 0x3b0875c7, 0x8d212ff5, 0x4bdecfa9, 11, 0x6e7429d5);
    NextRound(38, 0x8d212ff5, 0x6e7429d5, 0x21b117b9, 0x3b0875c7, 0xf6bb4b60, 16, 0x3575227e);
    NextRound(39, 0x3b0875c7, 0x3575227e, 0x6e7429d5, 0x21b117b9, 0xbebfbc70, 23, 0x5a2f5ea5);
  }

  lemma Rounds48()
    ensures Rounds(INITIAL, 48, ABC) == Image(0x7f2e507b, 0x7beb9700, 0x8fae6399, 0x99d9679d)
  {
    hide Rounds, Image, SineTable, FromBits;
    Rounds40();
    Sines40();
    NextRound(40, 0x21b117b9, 0x5a2f5ea5, 0x3575227e, 0x6e7429d5, 0x289b7ec6, 4, 0x11de1779);
    NextRound(41, 0x6e7429d5, 0x11de1779, 0x5a2f5ea5, 0x3575227e, 0xeaa127fa, 11, 0xfadcaa38);
    NextRound(42, 0x3575227e, 0xfadcaa38, 0x11de1779, 0x5a2f5ea5, 0xd4ef3085, 16, 0x31c465ca);
    NextRound(43, 0x5a2f5ea5, 0x31c465ca, 0xfadcaa38, 0x11de1779, 0x04881d05, 23, 0x4c6124f4);
    NextRound(44, 0x11de1779, 0x4c6124f4, 0x31c465ca, 0xfadcaa38, 0xd9d4d039, 4, 0x7f2e507b);
    NextRound(45, 0xfadcaa38, 0x7f2e507b, 0x4c6124f4, 0x31c465ca, 0xe6db99e5, 11, 0x99d9679d);
    NextRound(46, 0x31c465ca, 0x99d9679d, 0x7f2e507b, 0x4c6124f4, 0x1fa27cf8, 16, 0x8fae6399);
    NextRound(47, 0x4c6124f4, 0x8fae6399, 0x99d9679d, 0x7f2e507b, 0xc4ac5665, 23, 0x7beb9700);
  }

  lemma Rounds56()
    ensures Rounds(INITIAL, 56, ABC) == Image(0x06cc5e8a, 0x3bfa2c27, 0x7d632dd0, 0x5b0d97aa)
  {
    hide Rounds, Image, SineTable, FromBits;
    Rounds48();
    Sines48();
    NextRound(48, 0x7f2e507b, 0x7beb9700, 0x8fae6399, 0x99d9679d, 0xf4292244, 6, 0x7b201df8);
    NextRound(49, 0x99d9679d, 0x7b201df8, 0x7beb9700, 0x8fae6399, 0x432aff97, 10, 0xf4e8e96e);
    NextRound(50, 0x8fae6399, 0xf4e8e96e, 0x7b201df8, 0x7beb9700, 0xab9423a7, 15, 0xb298cefd);
    NextRound(51, 0x7beb9700, 0xb298cefd, 0xf4e8e96e, 0x7b201df8, 0xfc93a039, 21, 0x8bf025c4);
    NextRound(52, 0x7b201df8, 0x8bf025c4, 0xb298cefd, 0xf4e8e96e, 0x655b59c3, 6, 0x06cc5e8a);
    NextRound(53, 0xf4e8e96e, 0x06cc5e8a, 0x8bf025c4, 0xb298cefd, 0x8f0ccc92, 10, 0x5b0d97aa);
    NextRound(54, 0xb298cefd, 0x5b0d97aa, 0x06cc5e8a, 0x8bf025c4, 0xffeff47d, 15, 0x7d632dd0);
    NextRound(55, 0x8bf025c4, 0x7d632dd0, 0x5b0d97aa, 0x06cc5e8a, 0x85845dd1, 21, 0x3bfa2c27);
  }

  lemma Rounds64()
    ensures Rounds(INITIAL, 64, ABC) == Image(0x310ade8f, 0xc08226b3, 0xe484b9d8, 0x624d8cb2)
  {
    hide Rounds, Image, SineTable, FromBits;
    Rounds56();
    Sines56();
    NextRound(56, 0x06cc5e8a, 0x3bfa2c27, 0x7d632dd0, 0x5b0d97aa, 0x6fa87e4f, 6, 0x7f81cc35);
    NextRound(57, 0x5b0d97aa, 0x7f81cc35, 0x3bfa2c27, 0x7d632dd0, 0xfe2ce6e0, 10, 0x094454ab);
    NextRound(58, 0x7d632dd0, 0x094454ab, 0x7f81cc35, 0x3bfa2c27, 0xa3014314, 15, 0x4f9dbe3f);
    NextRound(59, 0x3bfa2c27, 0x4f9dbe3f, 0x094454ab, 0x7f81cc35, 0x4e0811a1, 21, 0x7327d604);
    NextRound(60, 0x7f81cc35, 0x7327d604, 0x4f9dbe3f, 0x094454ab, 0xf7537e82, 6, 0x310ade8f);
    NextRound(61, 0x094454ab, 0x310ade8f, 0x7327d604, 0x4f9dbe3f, 0xbd3af235, 10, 0x624d8cb2);
    NextRound(62, 0x4f9dbe3f, 0x624d8cb2, 0x310ade8f, 0x7327d604, 0x2ad7d2bb, 15, 0xe484b9d8);
    NextRound(63, 0x7327d604, 0xe484b9d8, 0x624d8cb2, 0x310ade8f, 0xeb86d391, 21, 0xc08226b3);
  }

  // ----- the digest

  lemma AbcPadded()
    ensures Padded(MESSAGE) == [0x61, 0x62, 0x63, 0x80] + Zeros(52) + [0x18, 0, 0, 0, 0, 0, 0, 0]
  {
    hide ByteOfInt;
    forall j: nat | j < 8
      ensures ByteOfInt(24, j) == if j == 0 then 0x18 else 0
    {
      ByteOfSmall(24, j);
    }
    assert LengthBytes(24) == [0x18, 0, 0, 0, 0, 0, 0, 0];
    hide LengthBytes;
  }

  lemma AbcBlock()
    ensures |Padded(MESSAGE)| == 64 && BlockWords(Padded(MESSAGE)) == ABC
  {
    AbcPadded();
    var block := Padded(MESSAGE);
    hide Padded;
    forall k | 0 <= k < 16
      ensures WordOfLE(block[4 * k..4 * k + 4]) == ABC[k]
    {
      assert block[4 * k..4 * k + 4] == [block[4 * k], block[4 * k + 1], block[4 * k + 2], block[4 * k + 3]];
    }
  }

  lemma OneBlock(block: seq<Byte>)
    requires |block| == 64
    ensures Fold(block) == Compress(INITIAL, BlockWords(block))
  {
    assert block[..0] == [] && block[0..] == block;
    hide Compress;
  }

  lemma AbcFold()
    ensures Fold(Padded(MESSAGE)) == State(0x98500190, 0xb04fd23c, 0x7d3f96d6, 0x727fe128)
  {
    hide Rounds, Padded, BlockWords, Fold;
    AbcBlock();
    OneBlock(Padded(MESSAGE));
    Rounds64();
  }

  lemma WordsOfDigest()
    ensures LEOfWord(0x98500190) == [0x90, 0x01, 0x50, 0x98]
    ensures LEOfWord(0xb04fd23c) == [0x3c, 0xd2, 0x4f, 0xb0]
    ensures LEOfWord(0x7d3f96d6) == [0xd6, 0x96, 0x3f, 0x7d]
    ensures LEOfWord(0x727fe128) == [0x28, 0xe1, 0x7f, 0x72]
  {
  }

  /** MD5 ("abc") = 900150983cd24fb0d6963f7d28e17f72 */
  lemma DigestOfAbc()
    ensures Digest(MESSAGE)
         == [0x90, 0x01, 0x50, 0x98, 0x3c, 0xd2, 0x4f, 0xb0,
             0xd6, 0x96, 0x3f, 0x7d, 0x28, 0xe1, 0x7f, 0x72]
  {
    hide Fold, Padded, LEOfWord;
    AbcFold();
    WordsOfDigest();
  }
}
