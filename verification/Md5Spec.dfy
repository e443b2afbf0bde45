/** The MD5 message digest of RFC 1321, sections 3.1 to 3.5, as one function of the
    whole message: pad, cut into 64-byte blocks, fold the compression function. */
module Md5Spec {
  import opened Words

  datatype State = State(a: Word, b: Word, c: Word, d: Word)

  // Section 3.3.
  const INITIAL: State := State(0x67452301, 0xefcdab89, 0x98badcfe, 0x10325476)

  // Section 3.4: the four auxiliary functions.
  function F(x: bv32, y: bv32, z: bv32): bv32 { (x & y) | (!x & z) }

  function G(x: bv32, y: bv32, z: bv32): bv32 { (x & z) | (y & !z) }

  function H(x: bv32, y: bv32, z: bv32): bv32 { x ^ y ^ z }

  function I(x: bv32, y: bv32, z: bv32): bv32 { y ^ (x | !z) }

  // The auxiliary function of step i.
  function AuxBits(i: nat, x: bv32, y: bv32, z: bv32): bv32
    requires i < 64
  {
    if i < 16 then F(x, y, z)
    else if i < 32 then G(x, y, z)
    else if i < 48 then H(x, y, z)
    else I(x, y, z)
  }

  function Aux(i: nat, x: Word, y: Word, z: Word): Word
    requires i < 64
  {
    FromBits(AuxBits(i, ToBits(x), ToBits(y), ToBits(z)))
  }

  // Section 3.4: which word of the block step i uses.
  function Index(i: nat): (k: nat)
    requires i < 64
    ensures k < 16
  {
    if i < 16 then i
    else if i < 32 then (1 + 5 * i) % 16
    else if i < 48 then (5 + 3 * i) % 16
    else (7 * i) % 16
  }

  // Section 3.4: the rotation of step i.
  function Shift(i: nat): (s: nat)
    requires i < 64
    ensures 0 < s < 32
  {
    if i < 16 then [7, 12, 17, 22][i % 4]
    else if i < 32 then [5, 9, 14, 20][i % 4]
    else if i < 48 then [4, 11, 16, 23][i % 4]
    else [6, 10, 15, 21][i % 4]
  }

  // Section 3.4: T[i + 1], the integer part of 4294967296 times abs(sin(i + 1)).
  function SineTable(i: nat): Word
    requires i < 64
  {
    if i < 16 then Sines1(i) else if i < 32 then Sines2(i - 16) else if i < 48 then Sines3(i - 32) else Sines4(i - 48)
  }

  function Sines1(k: nat): Word {
    match k
    case 0 => 0xd76aa478
    case 1 => 0xe8c7b756
    case 2 => 0x242070db
    case 3 => 0xc1bdceee
    case 4 => 0xf57c0faf
    case 5 => 0x4787c62a
    case 6 => 0xa8304613
    case 7 => 0xfd469501
    case 8 => 0x698098d8
    case 9 => 0x8b44f7af
    case 10 => 0xffff5bb1
    case 11 => 0x895cd7be
    case 12 => 0x6b901122
    case 13 => 0xfd987193
    case 14 => 0xa679438e
    case _ => 0x49b40821
  }

  function Sines2(k: nat): Word {
    match k
    case 0 => 0xf61e2562
    case 1 => 0xc040b340
    case 2 => 0x265e5a51
    case 3 => 0xe9b6c7aa
    case 4 => 0xd62f105d
    case 5 => 0x02441453
    case 6 => 0xd8a1e681
    case 7 => 0xe7d3fbc8
    case 8 => 0x21e1cde6
    case 9 => 0xc33707d6
    case 10 => 0xf4d50d87
    case 11 => 0x455a14ed
    case 12 => 0xa9e3e905
    case 13 => 0xfcefa3f8
    case 14 => 0x676f02d9
    case _ => 0x8d2a4c8a
  }

  function Sines3(k: nat): Word {
    match k
    case 0 => 0xfffa3942
    case 1 => 0x8771f681
    case 2 => 0x6d9d6122
    case 3 => 0xfde5380c
    case 4 => 0xa4beea44
    case 5 => 0x4bdecfa9
    case 6 => 0xf6bb4b60
    case 7 => 0xbebfbc70
    case 8 => 0x289b7ec6
    case 9 => 0xeaa127fa
    case 10 => 0xd4ef3085
    case 11 => 0x04881d05
    case 12 => 0xd9d4d039
    case 13 => 0xe6db99e5
    case 14 => 0x1fa27cf8
    case _ => 0xc4ac5665
  }

  function Sines4(k: nat): Word {
    match k
    case 0 => 0xf4292244
    case 1 => 0x432aff97
    case 2 => 0xab9423a7
    case 3 => 0xfc93a039
    case 4 => 0x655b59c3
    case 5 => 0x8f0ccc92
    case 6 => 0xffeff47d
    case 7 => 0x85845dd1
    case 8 => 0x6fa87e4f
    case 9 => 0xfe2ce6e0
    case 10 => 0xa3014314
    case 11 => 0x4e0811a1
    case 12 => 0xf7537e82
    case 13 => 0xbd3af235
    case 14 => 0x2ad7d2bb
    case _ => 0xeb86d391
  }

  function Mix(a: Word, b: Word, f: Word, word: Word, t: Word, s: nat): Word
    requires 0 < s < 32
  {
    Plus(b, RotateLeft(Plus(Plus(Plus(a, f), word), t), s))
  }

  // [ABCD k s i]: a = b + ((a + f(b,c,d) + X[k] + T[i]) <<< s), after which the
  // registers change roles so that the next step again updates the first one.
  function Step(st: State, i: nat, x: seq<Word>): State
    requires i < 64 && |x| == 16
  {
    var f := Aux(i, st.b, st.c, st.d);
    State(st.d, Mix(st.a, st.b, f, x[Index(i)], SineTable(i), Shift(i)), st.b, st.c)
  }

  function Rounds(st: State, n: nat, x: seq<Word>): State
    requires n <= 64 && |x| == 16
  {
    if n == 0 then st else Step(Rounds(st, n - 1, x), n - 1, x)
  }

  function Compress(st: State, x: seq<Word>): State
    requires |x| == 16
  {
    var r := Rounds(st, 64, x);
    State(Plus(st.a, r.a), Plus(st.b, r.b), Plus(st.c, r.c), Plus(st.d, r.d))
  }

  // Section 2: words are stored low-order byte first.
  function BlockWords(block: seq<Byte>): (x: seq<Word>)
    requires |block| == 64
    ensures |x| == 16
  {
    seq(16, k requires 0 <= k < 16 => WordOfLE(block[4 * k..4 * k + 4]))
  }

  function Fold(data: seq<Byte>): State
    requires |data| % 64 == 0
  {
    if data == [] then INITIAL
    else
      var cut := |data| - 64;
      Compress(Fold(data[..cut]), BlockWords(data[cut..]))
  }

  // Sections 3.1 and 3.2: a one bit, zeros up to 56 modulo 64, then the length in
  // bits modulo 2^64, low-order byte first.
  function Padded(msg: seq<Byte>): (p: seq<Byte>)
    ensures |p| % 64 == 0
  {
    msg + [0x80] + Zeros((119 - |msg| % 64) % 64) + LengthBytes(8 * |msg|)
  }

  function LengthBytes(bits: nat): (s: seq<Byte>)
    ensures |s| == 8
  {
    seq(8, j requires 0 <= j < 8 => ByteOfInt(bits, j))
  }

  // Section 3.5.
  function DigestOf(st: State): (s: seq<Byte>)
    ensures |s| == 16
  {
    LEOfWord(st.a) + LEOfWord(st.b) + LEOfWord(st.c) + LEOfWord(st.d)
  }

  function Digest(msg: seq<Byte>): (s: seq<Byte>)
    ensures |s| == 16
  {
    DigestOf(Fold(Padded(msg)))
  }
}
