/** The SHA-1 message digest of FIPS 180-3, sections 4.1.1, 4.2.1, 5.1.1, 5.3.1 and 6.1.2,
    as one function of the whole message. */
module Sha1Spec {
  import opened Words

  datatype State = State(a: Word, b: Word, c: Word, d: Word, e: Word)

  // Section 5.3.1.
  const INITIAL: State := State(0x67452301, 0xefcdab89, 0x98badcfe, 0x10325476, 0xc3d2e1f0)

  // Section 4.1.1: Ch, Parity and Maj.
  function Ch(x: bv32, y: bv32, z: bv32): bv32 { (x & y) ^ (!x & z) }

  function Parity(x: bv32, y: bv32, z: bv32): bv32 { x ^ y ^ z }

  function Maj(x: bv32, y: bv32, z: bv32): bv32 { (x & y) ^ (x & z) ^ (y & z) }

  function LogicalBits(t: nat, x: bv32, y: bv32, z: bv32): bv32
    requires t < 80
  {
    if t < 20 then Ch(x, y, z)
    else if 40 <= t < 60 then Maj(x, y, z)
    else Parity(x, y, z)
  }

  function Logical(t: nat, x: Word, y: Word, z: Word): Word
    requires t < 80
  {
    FromBits(LogicalBits(t, ToBits(x), ToBits(y), ToBits(z)))
  }

  // Section 4.2.1.
  function Constant(t: nat): Word
    requires t < 80
  {
    if t < 20 then 0x5a827999
    else if t < 40 then 0x6ed9eba1
    else if t < 60 then 0x8f1bbcdc
    else 0xca62c1d6
  }

  function Xor4(x: Word, y: Word, z: Word, w: Word): Word {
    FromBits(XorBits(ToBits(x), ToBits(y), ToBits(z), ToBits(w)))
  }

  function XorBits(x: bv32, y: bv32, z: bv32, w: bv32): bv32 { x ^ y ^ z ^ w }

  // Section 6.1.2, step 1: the message schedule of a block.
  function Schedule(block: seq<Byte>, t: nat): Word
    requires |block| == 64 && t < 80
  {
    if t < 16 then WordOfBE(block[4 * t..4 * t + 4])
    else
      var w := Xor4(Schedule(block, t - 3), Schedule(block, t - 8), Schedule(block, t - 14), Schedule(block, t - 16));
      RotateLeft(w, 1)
  }

  // Section 6.1.2, step 3: one step on the five working variables.
  function Step(st: State, t: nat, w: Word): State
    requires t < 80
  {
    var f := Logical(t, st.b, st.c, st.d);
    var temp := Plus(Plus(Plus(Plus(RotateLeft(st.a, 5), f), st.e), Constant(t)), w);
    State(temp, st.a, RotateLeft(st.b, 30), st.c, st.d)
  }

  function Rounds(st: State, n: nat, block: seq<Byte>): State
    requires n <= 80 && |block| == 64
  {
    if n == 0 then st else Step(Rounds(st, n - 1, block), n - 1, Schedule(block, n - 1))
  }

  // Section 6.1.2, steps 2 and 4.
  function Compress(st: State, block: seq<Byte>): State
    requires |block| == 64
  {
    Sum(Rounds(st, 80, block), st)
  }

  function Sum(r: State, st: State): State {
    State(Plus(r.a, st.a), Plus(r.b, st.b), Plus(r.c, st.c), Plus(r.d, st.d), Plus(r.e, st.e))
  }

  function Fold(data: seq<Byte>): State
    requires |data| % 64 == 0
  {
    if data == [] then INITIAL
    else
      var cut := |data| - 64;
      Compress(Fold(data[..cut]), data[cut..])
  }

  // Section 5.1.1: a one bit, zeros up to 448 bits modulo 512, then the length in bits
  // as a 64-bit number, high-order byte first.
  function Padded(msg: seq<Byte>): (p: seq<Byte>)
    ensures |p| % 64 == 0
  {
    msg + [0x80] + Zeros((119 - |msg| % 64) % 64) + LengthBytes(8 * |msg|)
  }

  function LengthBytes(bits: nat): (s: seq<Byte>)
    ensures |s| == 8
  {
    seq(8, j requires 0 <= j < 8 => ByteOfInt(bits, 7 - j))
  }

  // The digest is the final hash value, each word high-order byte first.
  function DigestOf(st: State): (s: seq<Byte>)
    ensures |s| == 20
  {
    BEOfWord(st.a) + BEOfWord(st.b) + BEOfWord(st.c) + BEOfWord(st.d) + BEOfWord(st.e)
  }

  function Digest(msg: seq<Byte>): (s: seq<Byte>)
    ensures |s| == 20
  {
    DigestOf(Fold(Padded(msg)))
  }
}
