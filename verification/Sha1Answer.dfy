/** A known answer: the digest of "abc" is the one of section A.1 of FIPS 180-2. It depends on
    the constants, the rotations, the logical functions, the message schedule, the initial
    state, the padding and the order of the bytes. */
module Sha1Answer {
  import opened Sha1Spec
  import opened WordBits
  import opened Words

  const MESSAGE: seq<Byte> := [0x61, 0x62, 0x63]  // "abc"

  // ----- the padded message

  lemma AbcPadded()
    ensures Padded(MESSAGE) == [0x61, 0x62, 0x63, 0x80] + Zeros(52) + [0, 0, 0, 0, 0, 0, 0, 0x18]
  {
    hide ByteOfInt;
    forall j: nat | j < 8
      ensures ByteOfInt(24, j) == if j == 0 then 0x18 else 0
    {
      ByteOfSmall(24, j);
    }
    assert LengthBytes(24) == [0, 0, 0, 0, 0, 0, 0, 0x18];
    hide LengthBytes;
  }

  // ----- the message schedule, on the bits of the words

  ghost predicate IsWord(t: nat, w: bv32) {
    t < 80 && |Padded(MESSAGE)| == 64 && Schedule(Padded(MESSAGE), t) == FromBits(w)
  }

  lemma FirstWords()
    ensures IsWord(0, 0x61626380) && IsWord(15, 0x18) && forall k | 0 < k < 15 :: IsWord(k, 0)
  {
    hide IsWord, FromBits, WordOfBE;
    FewWords();
    AbcWord(0, 0x61626380, 0x61, 0x62, 0x63, 0x80);
    AbcWord(15, 0x18, 0, 0, 0, 0x18);
    forall k | 0 < k < 15
      ensures IsWord(k, 0)
    {
      AbcWord(k, 0, 0, 0, 0, 0);
    }
  }

  lemma FewWords()
    ensures FromBits(0x61626380) == WordOfBE([0x61, 0x62, 0x63, 0x80])
    ensures FromBits(0x18) == WordOfBE([0, 0, 0, 0x18]) && FromBits(0) == WordOfBE([0, 0, 0, 0])
  {
  }

  lemma AbcWord(k: nat, w: bv32, b0: Byte, b1: Byte, b2: Byte, b3: Byte)
    requires k < 16 && FromBits(w) == WordOfBE([b0, b1, b2, b3])
    requires var block := [0x61, 0x62, 0x63, 0x80] + Zeros(52) + [0, 0, 0, 0, 0, 0, 0, 0x18];
      block[4 * k] == b0 && block[4 * k + 1] == b1 && block[4 * k + 2] == b2 && block[4 * k + 3] == b3
    ensures IsWord(k, w)
  {
    AbcPadded();
    var block := Padded(MESSAGE);
    hide Padded, FromBits;
    assert block[4 * k..4 * k + 4] == [b0, b1, b2, b3];
  }

  lemma NextWord(t: nat, w3: bv32, w8: bv32, w14: bv32, w16: bv32, w: bv32)
    requires 16 <= t < 80 && IsWord(t - 3, w3) && IsWord(t - 8, w8) && IsWord(t - 14, w14) && IsWord(t - 16, w16)
    requires RotateBits(XorBits(w3, w8, w14, w16), 1) == w
    ensures IsWord(t, w)
  {
    hide ToBits, FromBits, XorBits, RotateBits, Padded;
    BitsBack(w3);
    BitsBack(w8);
    BitsBack(w14);
    BitsBack(w16);
    BitsBack(XorBits(w3, w8, w14, w16));
  }

  lemma Words16()
    ensures IsWord(16, 0xc2c4c700) && IsWord(17, 0x00000000) && IsWord(18, 0x00000030) && IsWord(19, 0x85898e01)
    ensures IsWord(20, 0x00000000) && IsWord(21, 0x00000060) && IsWord(22, 0x0b131c03) && IsWord(23, 0x00000030)
  {
    hide Schedule, FromBits;
    FirstWords();
    NextWord(16, 0x00000000, 0x00000000, 0x00000000, 0x61626380, 0xc2c4c700);
    NextWord(17, 0x00000000, 0x00000000, 0x00000000, 0x00000000, 0x00000000);
    NextWord(18, 0x00000018, 0x00000000, 0x00000000, 0x00000000, 0x00000030);
    NextWord(19, 0xc2c4c700, 0x00000000, 0x00000000, 0x00000000, 0x85898e01);
    NextWord(20, 0x00000000, 0x00000000, 0x00000000, 0x00000000, 0x00000000);
    NextWord(21, 0x00000030, 0x00000000, 0x00000000, 0x00000000, 0x00000060);
    NextWord(22, 0x85898e01, 0x00000000, 0x00000000, 0x00000000, 0x0b131c03);
    NextWord(23, 0x00000000, 0x00000018, 0x00000000, 0x00000000, 0x00000030);
  }

  lemma Words24()
    ensures IsWord(24, 0x85898ec1) && IsWord(25, 0x16263806) && IsWord(26, 0x00000000) && IsWord(27, 0x00000180)
    ensures IsWord(28, 0x2c4c700c) && IsWord(29, 0x000000f0) && IsWord(30, 0x93afb507) && IsWord(31, 0x5898e048)
  {
    hide Schedule, FromBits;
    FirstWords();
    Words16();
    NextWord(24, 0x00000060, 0xc2c4c700, 0x00000000, 0x00000000, 0x85898ec1);
    NextWord(25, 0x0b131c03, 0x00000000, 0x00000000, 0x00000000, 0x16263806);
    NextWord(26, 0x00000030, 0x00000030, 0x00000000, 0x00000000, 0x00000000);
    NextWord(27, 0x85898ec1, 0x85898e01, 0x00000000, 0x00000000, 0x00000180);
    NextWord(28, 0x16263806, 0x00000000, 0x00000000, 0x00000000, 0x2c4c700c);
    NextWord(29, 0x00000000, 0x00000060, 0x00000018, 0x00000000, 0x000000f0);
    NextWord(30, 0x00000180, 0x0b131c03, 0xc2c4c700, 0x00000000, 0x93afb507);
    NextWord(31, 0x2c4c700c, 0x00000030, 0x00000000, 0x00000018, 0x5898e048);
  }

  lemma Words32()
    ensures IsWord(32, 0x8e9a9202) && IsWord(33, 0x00000600) && IsWord(34, 0xb131c0f0) && IsWord(35, 0x16263bc6)
    ensures IsWord(36, 0x4ebed41e) && IsWord(37, 0x626380a1) && IsWord(38, 0x16263806) && IsWord(39, 0x000018c0)
  {
    hide Schedule, FromBits;
    Words16();
    Words24();
    NextWord(32, 0x000000f0, 0x85898ec1, 0x00000030, 0xc2c4c700, 0x8e9a9202);
    NextWord(33, 0x93afb507, 0x16263806, 0x85898e01, 0x00000000, 0x00000600);
    NextWord(34, 0x5898e048, 0x00000000, 0x00000000, 0x00000030, 0xb131c0f0);
    NextWord(35, 0x8e9a9202, 0x00000180, 0x00000060, 0x85898e01, 0x16263bc6);
    NextWord(36, 0x00000600, 0x2c4c700c, 0x0b131c03, 0x00000000, 0x4ebed41e);
    NextWord(37, 0xb131c0f0, 0x000000f0, 0x00000030, 0x00000060, 0x626380a1);
    NextWord(38, 0x16263bc6, 0x93afb507, 0x85898ec1, 0x0b131c03, 0x16263806);
    NextWord(39, 0x4ebed41e, 0x5898e048, 0x16263806, 0x00000030, 0x000018c0);
  }

  lemma Words40()
    ensures IsWord(40, 0xd2e138c4) && IsWord(41, 0x00000f00) && IsWord(42, 0x3afb5079) && IsWord(43, 0x898e04e5)
    ensures IsWord(44, 0xe2ba3c2b) && IsWord(45, 0x000060c0) && IsWord(46, 0x053a37cd) && IsWord(47, 0x74458547)
  {
    hide Schedule, FromBits;
    Words24();
    Words32();
    NextWord(40, 0x626380a1, 0x8e9a9202, 0x00000000, 0x85898ec1, 0xd2e138c4);
    NextWord(41, 0x16263806, 0x00000600, 0x00000180, 0x16263806, 0x00000f00);
    NextWord(42, 0x000018c0, 0xb131c0f0, 0x2c4c700c, 0x00000000, 0x3afb5079);
    NextWord(43, 0xd2e138c4, 0x16263bc6, 0x000000f0, 0x00000180, 0x898e04e5);
    NextWord(44, 0x00000f00, 0x4ebed41e, 0x93afb507, 0x2c4c700c, 0xe2ba3c2b);
    NextWord(45, 0x3afb5079, 0x626380a1, 0x5898e048, 0x000000f0, 0x000060c0);
    NextWord(46, 0x898e04e5, 0x16263806, 0x8e9a9202, 0x93afb507, 0x053a37cd);
    NextWord(47, 0xe2ba3c2b, 0x000018c0, 0x00000600, 0x5898e048, 0x74458547);
  }

  lemma Words48()
    ensures IsWord(48, 0xda9415ed) && IsWord(49, 0x26380a16) && IsWord(50, 0x626383a1) && IsWord(51, 0x4ebf54de)
    ensures IsWord(52, 0x3835b44b) && IsWord(53, 0x0000f600) && IsWord(54, 0x1e84c7a3) && IsWord(55, 0x98e04d98)
  {
    hide Schedule, FromBits;
    Words32();
    Words40();
    NextWord(48, 0x000060c0, 0xd2e138c4, 0xb131c0f0, 0x8e9a9202, 0xda9415ed);
    NextWord(49, 0x053a37cd, 0x00000f00, 0x16263bc6, 0x00000600, 0x26380a16);
    NextWord(50, 0x74458547, 0x3afb5079, 0x4ebed41e, 0xb131c0f0, 0x626383a1);
    NextWord(51, 0xda9415ed, 0x898e04e5, 0x626380a1, 0x16263bc6, 0x4ebf54de);
    NextWord(52, 0x26380a16, 0xe2ba3c2b, 0x16263806, 0x4ebed41e, 0x3835b44b);
    NextWord(53, 0x626383a1, 0x000060c0, 0x000018c0, 0x626380a1, 0x0000f600);
    NextWord(54, 0x4ebf54de, 0x053a37cd, 0xd2e138c4, 0x16263806, 0x1e84c7a3);
    NextWord(55, 0x3835b44b, 0x74458547, 0x00000f00, 0x000018c0, 0x98e04d98);
  }

  lemma Words56()
    ensures IsWord(56, 0x651d16a0) && IsWord(57, 0x62658ca1) && IsWord(58, 0x458544d6) && IsWord(59, 0x44584cb7)
    ensures IsWord(60, 0x7ba06619) && IsWord(61, 0x6380aea2) && IsWord(62, 0x0ae55269) && IsWord(63, 0x627b49a1)
  {
    hide Schedule, FromBits;
    Words40();
    Words48();
    NextWord(56, 0x0000f600, 0xda9415ed, 0x3afb5079, 0xd2e138c4, 0x651d16a0);
    NextWord(57, 0x1e84c7a3, 0x26380a16, 0x898e04e5, 0x00000f00, 0x62658ca1);
    NextWord(58, 0x98e04d98, 0x626383a1, 0xe2ba3c2b, 0x3afb5079, 0x458544d6);
    NextWord(59, 0x651d16a0, 0x4ebf54de, 0x000060c0, 0x898e04e5, 0x44584cb7);
    NextWord(60, 0x62658ca1, 0x3835b44b, 0x053a37cd, 0xe2ba3c2b, 0x7ba06619);
    NextWord(61, 0x458544d6, 0x0000f600, 0x74458547, 0x000060c0, 0x6380aea2);
    NextWord(62, 0x44584cb7, 0x1e84c7a3, 0xda9415ed, 0x053a37cd, 0x0ae55269);
    NextWord(63, 0x7ba06619, 0x98e04d98, 0x26380a16, 0x74458547, 0x627b49a1);
  }

  lemma Words64()
    ensures IsWord(64, 0x7cd45c9d) && IsWord(65, 0x000f0000) && IsWord(66, 0xfb50753a) && IsWord(67, 0xec6765e8)
    ensures IsWord(68, 0xba3c2be2) && IsWord(69, 0x0060c000) && IsWord(70, 0x3a37cd05) && IsWord(71, 0x458546f4)
  {
    hide Schedule, FromBits;
    Words48();
    Words56();
    NextWord(64, 0x6380aea2, 0x651d16a0, 0x626383a1, 0xda9415ed, 0x7cd45c9d);
    NextWord(65, 0x0ae55269, 0x62658ca1, 0x4ebf54de, 0x26380a16, 0x000f0000);
    NextWord(66, 0x627b49a1, 0x458544d6, 0x3835b44b, 0x626383a1, 0xfb50753a);
    NextWord(67, 0x7cd45c9d, 0x44584cb7, 0x0000f600, 0x4ebf54de, 0xec6765e8);
    NextWord(68, 0x000f0000, 0x7ba06619, 0x1e84c7a3, 0x3835b44b, 0xba3c2be2);
    NextWord(69, 0xfb50753a, 0x6380aea2, 0x98e04d98, 0x0000f600, 0x0060c000);
    NextWord(70, 0xec6765e8, 0x0ae55269, 0x651d16a0, 0x1e84c7a3, 0x3a37cd05);
    NextWord(71, 0xba3c2be2, 0x627b49a1, 0x62658ca1, 0x98e04d98, 0x458546f4);
  }

  lemma Words72()
    ensures IsWord(72, 0xb8599dd6) && IsWord(73, 0x380a1a26) && IsWord(74, 0x01e02203) && IsWord(75, 0xe7cc3456)
    ensures IsWord(76, 0xe6e60b69) && IsWord(77, 0x00f60a00) && IsWord(78, 0x5795ef4f) && IsWord(79, 0x822e0879)
  {
    hide Schedule, FromBits;
    Words56();
    Words64();
    NextWord(72, 0x0060c000, 0x7cd45c9d, 0x458544d6, 0x651d16a0, 0xb8599dd6);
    NextWord(73, 0x3a37cd05, 0x000f0000, 0x44584cb7, 0x62658ca1, 0x380a1a26);
    NextWord(74, 0x458546f4, 0xfb50753a, 0x7ba06619, 0x458544d6, 0x01e02203);
    NextWord(75, 0xb8599dd6, 0xec6765e8, 0x6380aea2, 0x44584cb7, 0xe7cc3456);
    NextWord(76, 0x380a1a26, 0xba3c2be2, 0x0ae55269, 0x7ba06619, 0xe6e60b69);
    NextWord(77, 0x01e02203, 0x0060c000, 0x627b49a1, 0x6380aea2, 0x00f60a00);
    NextWord(78, 0xe7cc3456, 0x3a37cd05, 0x7cd45c9d, 0x0ae55269, 0x5795ef4f);
    NextWord(79, 0xe6e60b69, 0x458546f4, 0x000f0000, 0x627b49a1, 0x822e0879);
  }

  // ----- the 80 steps

  function Image(a: bv32, b: bv32, c: bv32, d: bv32, e: bv32): State {
    State(FromBits(a), FromBits(b), FromBits(c), FromBits(d), FromBits(e))
  }

  function StepBits(t: nat, a: bv32, b: bv32, c: bv32, d: bv32, e: bv32, k: bv32, w: bv32): bv32
    requires t < 80
  {
    PlusBits(PlusBits(PlusBits(PlusBits(RotateBits(a, 5), LogicalBits(t, b, c, d)), e), k), w)
  }

  lemma StepIsBits(t: nat, a: bv32, b: bv32, c: bv32, d: bv32, e: bv32, k: bv32, w: bv32)
    requires t < 80 && Constant(t) == FromBits(k)
    ensures Step(Image(a, b, c, d, e), t, FromBits(w))
         == Image(StepBits(t, a, b, c, d, e, k, w), a, RotateBits(b, 30), c, d)
  {
    hide ToBits, FromBits, LogicalBits, RotateBits, Plus, PlusBits, Constant;
    BitsBack(a);
    BitsBack(b);
    BitsBack(c);
    BitsBack(d);
    var r, f := RotateBits(a, 5), LogicalBits(t, b, c, d);
    PlusIsBits(r, f);
    PlusIsBits(PlusBits(r, f), e);
    PlusIsBits(PlusBits(PlusBits(r, f), e), k);
    PlusIsBits(PlusBits(PlusBits(PlusBits(r, f), e), k), w);
  }

  function ConstantBits(t: nat): bv32 {
    if t < 20 then 0x5a827999 else if t < 40 then 0x6ed9eba1 else if t < 60 then 0x8f1bbcdc else 0xca62c1d6
  }

  lemma Constants(t: nat)
    requires t < 80
    ensures Constant(t) == FromBits(ConstantBits(t))
  {
  }

  // Step t, with word w, takes the registers a to e to the new one r.
  lemma NextRound(t: nat, a: bv32, b: bv32, c: bv32, d: bv32, e: bv32, w: bv32, r: bv32)
    requires IsWord(t, w) && Rounds(INITIAL, t, Padded(MESSAGE)) == Image(a, b, c, d, e)
    requires StepBits(t, a, b, c, d, e, ConstantBits(t), w) == r
    ensures Rounds(INITIAL, t + 1, Padded(MESSAGE)) == Image(r, a, RotateBits(b, 30), c, d)
  {
    hide ToBits, FromBits, StepBits, Constant, ConstantBits, Step, Image, RotateBits, Padded, Schedule;
    Constants(t);
    StepIsBits(t, a, b, c, d, e, ConstantBits(t), w);
  }

  lemma NoRounds()
    ensures |Padded(MESSAGE)| == 64
    ensures Rounds(INITIAL, 0, Padded(MESSAGE))
         == Image(0x67452301, 0xefcdab89, 0x98badcfe, 0x10325476, 0xc3d2e1f0)
  {
  }

  lemma Rounds8()
    ensures Rounds(INITIAL, 8, Padded(MESSAGE)) == Image(0x9e8c07d4, 0x993e30c1, 0x0ff1f290, 0xb3f52677, 0xf3763846)
  {
    hide Rounds, Image, Schedule, FromBits;
    NoRounds();
    FirstWords();
    NextRound(0, 0x67452301, 0xefcdab89, 0x98badcfe, 0x10325476, 0xc3d2e1f0, 0x61626380, 0x0116fc33);
    NextRound(1, 0x0116fc33, 0x67452301, 0x7bf36ae2, 0x98badcfe, 0x10325476, 0x00000000, 0x8990536d);
    NextRound(2, 0x8990536d, 0x0116fc33, 0x59d148c0, 0x7bf36ae2, 0x98badcfe, 0x00000000, 0xa1390f08);
    NextRound(3, 0xa1390f08, 0x8990536d, 0xc045bf0c, 0x59d148c0, 0x7bf36ae2, 0x00000000, 0xcdd8e11b);
    NextRound(4, 0xcdd8e11b, 0xa1390f08, 0x626414db, 0xc045bf0c, 0x59d148c0, 0x00000000, 0xcfd499de);
    NextRound(5, 0xcfd499de, 0xcdd8e11b, 0x284e43c2, 0x626414db, 0xc045bf0c, 0x00000000, 0x3fc7ca40);
    NextRound(6, 0x3fc7ca40, 0xcfd499de, 0xf3763846, 0x284e43c2, 0x626414db, 0x00000000, 0x993e30c1);
    NextRound(7, 0x993e30c1, 0x3fc7ca40, 0xb3f52677, 0xf3763846, 0x284e43c2, 0x00000000, 0x9e8c07d4);
  }

  lemma Rounds16()
    ensures Rounds(INITIAL, 16, Padded(MESSAGE)) == Image(0x20bdd62f, 0x196bee77, 0x644a3da5, 0x1181ed99, 0x18c623f9)
  {
    hide Rounds, Image, Schedule, FromBits;
    Rounds8();
    FirstWords();
    NextRound(8, 0x9e8c07d4, 0x993e30c1, 0x0ff1f290, 0xb3f52677, 0xf3763846, 0x00000000, 0x4b6ae328);
    NextRound(9, 0x4b6ae328, 0x9e8c07d4, 0x664f8c30, 0x0ff1f290, 0xb3f52677, 0x00000000, 0x8351f929);
    NextRound(10, 0x8351f929, 0x4b6ae328, 0x27a301f5, 0x664f8c30, 0x0ff1f290, 0x00000000, 0xfbda9e89);
    NextRound(11, 0xfbda9e89, 0x8351f929, 0x12dab8ca, 0x27a301f5, 0x664f8c30, 0x00000000, 0x63188fe4);
    NextRound(12, 0x63188fe4, 0xfbda9e89, 0x60d47e4a, 0x12dab8ca, 0x27a301f5, 0x00000000, 0x4607b664);
    NextRound(13, 0x4607b664, 0x63188fe4, 0x7ef6a7a2, 0x60d47e4a, 0x12dab8ca, 0x00000000, 0x9128f695);
    NextRound(14, 0x9128f695, 0x4607b664, 0x18c623f9, 0x7ef6a7a2, 0x60d47e4a, 0x00000000, 0x196bee77);
    NextRound(15, 0x196bee77, 0x9128f695, 0x1181ed99, 0x18c623f9, 0x7ef6a7a2, 0x00000018, 0x20bdd62f);
  }

  lemma Rounds24()
    ensures Rounds(INITIAL, 24, Padded(MESSAGE)) == Image(0xd541f12d, 0x21283486, 0x0ce88eff, 0x868dec32, 0x7f67875f)
  {
    hide Rounds, Image, Schedule, FromBits;
    Rounds16();
    Words16();
    NextRound(16, 0x20bdd62f, 0x196bee77, 0x644a3da5, 0x1181ed99, 0x18c623f9, 0xc2c4c700, 0x4e925823);
    NextRound(17, 0x4e925823, 0x20bdd62f, 0xc65afb9d, 0x644a3da5, 0x1181ed99, 0x00000000, 0x82aa6728);
    NextRound(18, 0x82aa6728, 0x4e925823, 0xc82f758b, 0xc65afb9d, 0x644a3da5, 0x00000030, 0xdc64901d);
    NextRound(19, 0xdc64901d, 0x82aa6728, 0xd3a49608, 0xc82f758b, 0xc65afb9d, 0x85898e01, 0xfd9e1d7d);
    NextRound(20, 0xfd9e1d7d, 0xdc64901d, 0x20aa99ca, 0xd3a49608, 0xc82f758b, 0x00000000, 0x1a37b0ca);
    NextRound(21, 0x1a37b0ca, 0xfd9e1d7d, 0x77192407, 0x20aa99ca, 0xd3a49608, 0x00000060, 0x33a23bfc);
    NextRound(22, 0x33a23bfc, 0x1a37b0ca, 0x7f67875f, 0x77192407, 0x20aa99ca, 0x0b131c03, 0x21283486);
    NextRound(23, 0x21283486, 0x33a23bfc, 0x868dec32, 0x7f67875f, 0x77192407, 0x00000030, 0xd541f12d);
  }

  lemma Rounds32()
    ensures Rounds(INITIAL, 32, Padded(MESSAGE)) == Image(0x3b845d33, 0x1267b407, 0x717eebd7, 0xa0dc2d4b, 0xd2aa1365)
  {
    hide Rounds, Image, Schedule, FromBits;
    Rounds24();
    Words24();
    NextRound(24, 0xd541f12d, 0x21283486, 0x0ce88eff, 0x868dec32, 0x7f67875f, 0x85898ec1, 0xc7567dc6);
    NextRound(25, 0xc7567dc6, 0xd541f12d, 0x884a0d21, 0x0ce88eff, 0x868dec32, 0x16263806, 0x48413ba4);
    NextRound(26, 0x48413ba4, 0xc7567dc6, 0x75507c4b, 0x884a0d21, 0x0ce88eff, 0x00000000, 0xbe35fbd5);
    NextRound(27, 0xbe35fbd5, 0x48413ba4, 0xb1d59f71, 0x75507c4b, 0x884a0d21, 0x00000180, 0x4aa84d97);
    NextRound(28, 0x4aa84d97, 0xbe35fbd5, 0x12104ee9, 0xb1d59f71, 0x75507c4b, 0x2c4c700c, 0x8370b52e);
    NextRound(29, 0x8370b52e, 0x4aa84d97, 0x6f8d7ef5, 0x12104ee9, 0xb1d59f71, 0x000000f0, 0xc5fbaf5d);
    NextRound(30, 0xc5fbaf5d, 0x8370b52e, 0xd2aa1365, 0x6f8d7ef5, 0x12104ee9, 0x93afb507, 0x1267b407);
    NextRound(31, 0x1267b407, 0xc5fbaf5d, 0xa0dc2d4b, 0xd2aa1365, 0x6f8d7ef5, 0x5898e048, 0x3b845d33);
  }

  lemma Rounds40()
    ensures Rounds(INITIAL, 40, Padded(MESSAGE)) == Image(0x32de1cba, 0x4c986405, 0xf718e5cf, 0x03d447f6, 0xf72eec32)
  {
    hide Rounds, Image, Schedule, FromBits;
    Rounds32();
    Words32();
    NextRound(32, 0x3b845d33, 0x1267b407, 0x717eebd7, 0xa0dc2d4b, 0xd2aa1365, 0x8e9a9202, 0x046faa0a);
    NextRound(33, 0x046faa0a, 0x3b845d33, 0xc499ed01, 0x717eebd7, 0xa0dc2d4b, 0x00000600, 0x2c0ebc11);
    NextRound(34, 0x2c0ebc11, 0x046faa0a, 0xcee1174c, 0xc499ed01, 0x717eebd7, 0xb131c0f0, 0x21796ad4);
    NextRound(35, 0x21796ad4, 0x2c0ebc11, 0x811bea82, 0xcee1174c, 0xc499ed01, 0x16263bc6, 0xdcbbb0cb);
    NextRound(36, 0xdcbbb0cb, 0x21796ad4, 0x4b03af04, 0x811bea82, 0xcee1174c, 0x4ebed41e, 0x0f511fd8);
    NextRound(37, 0x0f511fd8, 0xdcbbb0cb, 0x085e5ab5, 0x4b03af04, 0x811bea82, 0x626380a1, 0xdc63973f);
    NextRound(38, 0xdc63973f, 0x0f511fd8, 0xf72eec32, 0x085e5ab5, 0x4b03af04, 0x16263806, 0x4c986405);
    NextRound(39, 0x4c986405, 0xdc63973f, 0x03d447f6, 0xf72eec32, 0x085e5ab5, 0x000018c0, 0x32de1cba);
  }

  lemma Rounds48()
    ensures Rounds(INITIAL, 48, Padded(MESSAGE)) == Image(0xbead02ca, 0xa01b846c, 0x8714787c, 0x503ca382, 0xfb86c6ab)
  {
    hide Rounds, Image, Schedule, FromBits;
    Rounds40();
    Words40();
    NextRound(40, 0x32de1cba, 0x4c986405, 0xf718e5cf, 0x03d447f6, 0xf72eec32, 0xd2e138c4, 0xfc87dedf);
    NextRound(41, 0xfc87dedf, 0x32de1cba, 0x53261901, 0xf718e5cf, 0x03d447f6, 0x00000f00, 0x970a0d5c);
    NextRound(42, 0x970a0d5c, 0xfc87dedf, 0x8cb7872e, 0x53261901, 0xf718e5cf, 0x3afb5079, 0x7f193dc5);
    NextRound(43, 0x7f193dc5, 0x970a0d5c, 0xff21f7b7, 0x8cb7872e, 0x53261901, 0x898e04e5, 0xee1b1aaf);
    NextRound(44, 0xee1b1aaf, 0x7f193dc5, 0x25c28357, 0xff21f7b7, 0x8cb7872e, 0xe2ba3c2b, 0x40f28e09);
    NextRound(45, 0x40f28e09, 0xee1b1aaf, 0x5fc64f71, 0x25c28357, 0xff21f7b7, 0x000060c0, 0x1c51e1f2);
    NextRound(46, 0x1c51e1f2, 0x40f28e09, 0xfb86c6ab, 0x5fc64f71, 0x25c28357, 0x053a37cd, 0xa01b846c);
    NextRound(47, 0xa01b846c, 0x1c51e1f2, 0x503ca382, 0xfb86c6ab, 0x5fc64f71, 0x74458547, 0xbead02ca);
  }

  lemma Rounds56()
    ensures Rounds(INITIAL, 56, Padded(MESSAGE)) == Image(0x5e6456af, 0x7b71f76d, 0x09fa7c76, 0x792410db, 0x8e11eb59)
  {
    hide Rounds, Image, Schedule, FromBits;
    Rounds48();
    Words48();
    NextRound(48, 0xbead02ca, 0xa01b846c, 0x8714787c, 0x503ca382, 0xfb86c6ab, 0xda9415ed, 0xbaf39337);
    NextRound(49, 0xbaf39337, 0xbead02ca, 0x2806e11b, 0x8714787c, 0x503ca382, 0x26380a16, 0x120731c5);
    NextRound(50, 0x120731c5, 0xbaf39337, 0xafab40b2, 0x2806e11b, 0x8714787c, 0x626383a1, 0x641db2ce);
    NextRound(51, 0x641db2ce, 0x120731c5, 0xeebce4cd, 0xafab40b2, 0x2806e11b, 0x4ebf54de, 0x3847ad66);
    NextRound(52, 0x3847ad66, 0x641db2ce, 0x4481cc71, 0xeebce4cd, 0xafab40b2, 0x3835b44b, 0xe490436d);
    NextRound(53, 0xe490436d, 0x3847ad66, 0x99076cb3, 0x4481cc71, 0xeebce4cd, 0x0000f600, 0x27e9f1d8);
    NextRound(54, 0x27e9f1d8, 0xe490436d, 0x8e11eb59, 0x99076cb3, 0x4481cc71, 0x1e84c7a3, 0x7b71f76d);
    NextRound(55, 0x7b71f76d, 0x27e9f1d8, 0x792410db, 0x8e11eb59, 0x99076cb3, 0x98e04d98, 0x5e6456af);
  }

  lemma Rounds64()
    ensures Rounds(INITIAL, 64, Padded(MESSAGE)) == Image(0x6b61c9e1, 0xb66c020b, 0x9523272c, 0xf5d5b051, 0x8fd4b796)
  {
    hide Rounds, Image, Schedule, FromBits;
    Rounds56();
    Words56();
    NextRound(56, 0x5e6456af, 0x7b71f76d, 0x09fa7c76, 0x792410db, 0x8e11eb59, 0x651d16a0, 0xc846093f);
    NextRound(57, 0xc846093f, 0x5e6456af, 0x5edc7ddb, 0x09fa7c76, 0x792410db, 0x62658ca1, 0xd262ff50);
    NextRound(58, 0xd262ff50, 0xc846093f, 0xd79915ab, 0x5edc7ddb, 0x09fa7c76, 0x458544d6, 0x09d785fd);
    NextRound(59, 0x09d785fd, 0xd262ff50, 0xf211824f, 0xd79915ab, 0x5edc7ddb, 0x44584cb7, 0x3f52de5a);
    NextRound(60, 0x3f52de5a, 0x09d785fd, 0x3498bfd4, 0xf211824f, 0xd79915ab, 0x7ba06619, 0xd756c147);
    NextRound(61, 0xd756c147, 0x3f52de5a, 0x4275e17f, 0x3498bfd4, 0xf211824f, 0x6380aea2, 0x548c9cb2);
    NextRound(62, 0x548c9cb2, 0xd756c147, 0x8fd4b796, 0x4275e17f, 0x3498bfd4, 0x0ae55269, 0xb66c020b);
    NextRound(63, 0xb66c020b, 0x548c9cb2, 0xf5d5b051, 0x8fd4b796, 0x4275e17f, 0x627b49a1, 0x6b61c9e1);
  }

  lemma Rounds72()
    ensures Rounds(INITIAL, 72, Padded(MESSAGE)) == Image(0x39859de7, 0xc199f8c7, 0x8fc96230, 0x125c24f0, 0xde37534a)
  {
    hide Rounds, Image, Schedule, FromBits;
    Rounds64();
    Words64();
    NextRound(64, 0x6b61c9e1, 0xb66c020b, 0x9523272c, 0xf5d5b051, 0x8fd4b796, 0x7cd45c9d, 0x19dfa7ac);
    NextRound(65, 0x19dfa7ac, 0x6b61c9e1, 0xed9b0082, 0x9523272c, 0xf5d5b051, 0x000f0000, 0x101655f9);
    NextRound(66, 0x101655f9, 0x19dfa7ac, 0x5ad87278, 0xed9b0082, 0x9523272c, 0xfb50753a, 0x0c3df2b4);
    NextRound(67, 0x0c3df2b4, 0x101655f9, 0x0677e9eb, 0x5ad87278, 0xed9b0082, 0xec6765e8, 0x78dd4d2b);
    NextRound(68, 0x78dd4d2b, 0x0c3df2b4, 0x4405957e, 0x0677e9eb, 0x5ad87278, 0xba3c2be2, 0x497093c0);
    NextRound(69, 0x497093c0, 0x78dd4d2b, 0x030f7cad, 0x4405957e, 0x0677e9eb, 0x0060c000, 0x3f2588c2);
    NextRound(70, 0x3f2588c2, 0x497093c0, 0xde37534a, 0x030f7cad, 0x4405957e, 0x3a37cd05, 0xc199f8c7);
    NextRound(71, 0xc199f8c7, 0x3f2588c2, 0x125c24f0, 0xde37534a, 0x030f7cad, 0x458546f4, 0x39859de7);
  }

  lemma Rounds80()
    ensures Rounds(INITIAL, 80, Padded(MESSAGE)) == Image(0x42541b35, 0x5738d5e1, 0x21834873, 0x681e6df6, 0xd8fdf6ad)
  {
    hide Rounds, Image, Schedule, FromBits;
    Rounds72();
    Words72();
    NextRound(72, 0x39859de7, 0xc199f8c7, 0x8fc96230, 0x125c24f0, 0xde37534a, 0xb8599dd6, 0xedb42de4);
    NextRound(73, 0xedb42de4, 0x39859de7, 0xf0667e31, 0x8fc96230, 0x125c24f0, 0x380a1a26, 0x11793f6f);
    NextRound(74, 0x11793f6f, 0xedb42de4, 0xce616779, 0xf0667e31, 0x8fc96230, 0x01e02203, 0x5ee76897);
    NextRound(75, 0x5ee76897, 0x11793f6f, 0x3b6d0b79, 0xce616779, 0xf0667e31, 0xe7cc3456, 0x63f7dab7);
    NextRound(76, 0x63f7dab7, 0x5ee76897, 0xc45e4fdb, 0x3b6d0b79, 0xce616779, 0xe6e60b69, 0xa079b7d9);
    NextRound(77, 0xa079b7d9, 0x63f7dab7, 0xd7b9da25, 0xc45e4fdb, 0x3b6d0b79, 0x00f60a00, 0x860d21cc);
    NextRound(78, 0x860d21cc, 0xa079b7d9, 0xd8fdf6ad, 0xd7b9da25, 0xc45e4fdb, 0x5795ef4f, 0x5738d5e1);
    NextRound(79, 0x5738d5e1, 0x860d21cc, 0x681e6df6, 0xd8fdf6ad, 0xd7b9da25, 0x822e0879, 0x42541b35);
  }

  /** The constants are the integer parts of 2^30 times the square roots of 2, 3, 5 and 10. */
  lemma ConstantsAreRoots(t: nat)
    requires t < 80
    ensures var square := [2, 3, 5, 10][t / 20] * 0x1000_0000_0000_0000;
      Constant(t) * Constant(t) <= square < (Constant(t) + 1) * (Constant(t) + 1)
  {
  }

  // ----- the digest

  lemma OneBlock(block: seq<Byte>)
    requires |block| == 64
    ensures Fold(block) == Compress(INITIAL, block)
  {
    assert block[..0] == [] && block[0..] == block;
    hide Compress;
  }

  lemma AbcFold()
    ensures Fold(Padded(MESSAGE)) == State(0xa9993e36, 0x4706816a, 0xba3e2571, 0x7850c26c, 0x9cd0d89d)
  {
    hide Rounds, Padded, Fold;
    AbcPadded();
    OneBlock(Padded(MESSAGE));
    Rounds80();
  }

  lemma WordsOfDigest()
    ensures BEOfWord(0xa9993e36) == [0xa9, 0x99, 0x3e, 0x36]
    ensures BEOfWord(0x4706816a) == [0x47, 0x06, 0x81, 0x6a]
    ensures BEOfWord(0xba3e2571) == [0xba, 0x3e, 0x25, 0x71]
    ensures BEOfWord(0x7850c26c) == [0x78, 0x50, 0xc2, 0x6c]
    ensures BEOfWord(0x9cd0d89d) == [0x9c, 0xd0, 0xd8, 0x9d]
  {
  }

  /** SHA-1 ("abc") = a9993e364706816aba3e25717850c26c9cd0d89d */
  lemma DigestOfAbc()
    ensures Digest(MESSAGE)
         == [0xa9, 0x99, 0x3e, 0x36, 0x47, 0x06, 0x81, 0x6a, 0xba, 0x3e,
             0x25, 0x71, 0x78, 0x50, 0xc2, 0x6c, 0x9c, 0xd0, 0xd8, 0x9d]
  {
    hide Fold, Padded, BEOfWord;
    AbcFold();
    WordsOfDigest();
  }
}
