/** The core of base/md5.cc: the macros F1 to F4 and MD5STEP, and MD5Transform with its
    64 unrolled steps, against the table-driven rounds of RFC 1321. */
module Md5Transform {
  import opened Words
  import opened Md5Spec

  datatype Fn = F1 | F2 | F3 | F4

  function Choose(x: bv32, y: bv32, z: bv32): bv32 { z ^ (x & (y ^ z)) }

  function Parity(x: bv32, y: bv32, z: bv32): bv32 { x ^ y ^ z }

  function Last(x: bv32, y: bv32, z: bv32): bv32 { y ^ (x | !z) }

  // The macros F1 to F4.
  function ApplyBits(f: Fn, x: bv32, y: bv32, z: bv32): bv32 {
    match f
    case F1 => Choose(x, y, z)
    case F2 => Choose(z, x, y)
    case F3 => Parity(x, y, z)
    case F4 => Last(x, y, z)
  }

  function Apply(f: Fn, x: Word, y: Word, z: Word): Word {
    FromBits(ApplyBits(f, ToBits(x), ToBits(y), ToBits(z)))
  }

  // The macro MD5STEP: the new value of w.
  function Md5Step(f: Fn, w: Word, x: Word, y: Word, z: Word, data: Word, s: nat): Word
    requires 0 < s < 32
  {
    var sum := Plus(w, Plus(Apply(f, x, y, z), data));
    Plus(RotateLeft(sum, s), x)
  }

  // The macro that the source uses in step i.
  function FnOf(i: nat): Fn
    requires i < 64
  {
    if i < 16 then F1 else if i < 32 then F2 else if i < 48 then F3 else F4
  }

  lemma ChooseIsF(x: bv32, y: bv32, z: bv32)
    ensures Choose(x, y, z) == F(x, y, z)
  {
    ChooseBits(x, y, z);
  }

  lemma ChooseBits(x: bv32, y: bv32, z: bv32)
    ensures z ^ (x & (y ^ z)) == (x & y) | (!x & z)
    ensures y ^ (z & (x ^ y)) == (x & z) | (y & !z)
  {
  }

  lemma ChooseIsG(x: bv32, y: bv32, z: bv32)
    ensures Choose(z, x, y) == G(x, y, z)
  {
    ChooseBits(x, y, z);
  }

  /** The optimized F1 and F2 are the RFC's F and G, in every step. */
  lemma ApplyIsAux(i: nat, x: Word, y: Word, z: Word)
    requires i < 64
    ensures Apply(FnOf(i), x, y, z) == Aux(i, x, y, z)
  {
    hide Choose, F, G, ToBits, FromBits;
    ChooseIsF(ToBits(x), ToBits(y), ToBits(z));
    ChooseIsG(ToBits(x), ToBits(y), ToBits(z));
  }

  lemma MixesAgree(w: Word, x: Word, f: Word, m: Word, t: Word, s: nat)
    requires 0 < s < 32
    ensures Plus(RotateLeft(Plus(w, Plus(f, Plus(m, t))), s), x) == Mix(w, x, f, m, t, s)
  {
    hide Plus, RotateLeft;
    PlusAssociates(f, m, t);
    PlusAssociates(w, Plus(f, m), t);
    PlusAssociates(w, f, m);
    PlusCommutes(x, RotateLeft(Plus(w, Plus(f, Plus(m, t))), s));
  }

  /** One MD5STEP line of the source, with the word index, constant and rotation of step
      i, takes i table-driven rounds to i + 1; the registers rotate through the names. */
  lemma {:induction false} StepIsNext(st: State, i: nat, f: Fn, k: nat, t: Word, s: nat,
        a: Word, b: Word, c: Word, d: Word, x: seq<Word>)
    requires i < 64 && |x| == 16
    requires f == FnOf(i) && k == Index(i) && t == SineTable(i) && s == Shift(i)
    requires Rounds(st, i, x) == State(a, b, c, d)
    ensures Rounds(st, i + 1, x) == State(d, Md5Step(f, a, b, c, d, Plus(x[k], t), s), b, c)
  {
    hide Aux, Apply, Index, SineTable, Shift, Plus, RotateLeft, Mix;
    ApplyIsAux(i, b, c, d);
    MixesAgree(a, b, Aux(i, b, c, d), x[k], t, s);
  }

  // A block of memory read as sixteen words is given by its words, x; the four words of
  // buf are replaced.
  method Transform(buf: array<Word>, x: seq<Word>)
    requires buf.Length == 4 && |x| == 16
    modifies buf
    ensures buf[..] == Registers(Compress(StateOf(old(buf[..])), x))
  {
    hide Md5Step, Rounds, Plus;
    var a, b, c, d := buf[0], buf[1], buf[2], buf[3];
    ghost var st := StateOf(buf[..]);
    NoRounds(st, x);

    StepIsNext(st, 0, F1, 0, 0xd76aa478, 7, a, b, c, d, x);
    a := Md5Step(F1, a, b, c, d, Plus(x[0], 0xd76aa478), 7);
    StepIsNext(st, 1, F1, 1, 0xe8c7b756, 12, d, a, b, c, x);
    d := Md5Step(F1, d, a, b, c, Plus(x[1], 0xe8c7b756), 12);
    StepIsNext(st, 2, F1, 2, 0x242070db, 17, c, d, a, b, x);
    c := Md5Step(F1, c, d, a, b, Plus(x[2], 0x242070db), 17);
    StepIsNext(st, 3, F1, 3, 0xc1bdceee, 22, b, c, d, a, x);
    b := Md5Step(F1, b, c, d, a, Plus(x[3], 0xc1bdceee), 22);
    StepIsNext(st, 4, F1, 4, 0xf57c0faf, 7, a, b, c, d, x);
    a := Md5Step(F1, a, b, c, d, Plus(x[4], 0xf57c0faf), 7);
    StepIsNext(st, 5, F1, 5, 0x4787c62a, 12, d, a, b, c, x);
    d := Md5Step(F1, d, a, b, c, Plus(x[5], 0x4787c62a), 12);
    StepIsNext(st, 6, F1, 6, 0xa8304613, 17, c, d, a, b, x);
    c := Md5Step(F1, c, d, a, b, Plus(x[6], 0xa8304613), 17);
    StepIsNext(st, 7, F1, 7, 0xfd469501, 22, b, c, d, a, x);
    b := Md5Step(F1, b, c, d, a, Plus(x[7], 0xfd469501), 22);
    StepIsNext(st, 8, F1, 8, 0x698098d8, 7, a, b, c, d, x);
    a := Md5Step(F1, a, b, c, d, Plus(x[8], 0x698098d8), 7);
    StepIsNext(st, 9, F1, 9, 0x8b44f7af, 12, d, a, b, c, x);
    d := Md5Step(F1, d, a, b, c, Plus(x[9], 0x8b44f7af), 12);
    StepIsNext(st, 10, F1, 10, 0xffff5bb1, 17, c, d, a, b, x);
    c := Md5Step(F1, c, d, a, b, Plus(x[10], 0xffff5bb1), 17);
    StepIsNext(st, 11, F1, 11, 0x895cd7be, 22, b, c, d, a, x);
    b := Md5Step(F1, b, c, d, a, Plus(x[11], 0x895cd7be), 22);
    StepIsNext(st, 12, F1, 12, 0x6b901122, 7, a, b, c, d, x);
    a := Md5Step(F1, a, b, c, d, Plus(x[12], 0x6b901122), 7);
    StepIsNext(st, 13, F1, 13, 0xfd987193, 12, d, a, b, c, x);
    d := Md5Step(F1, d, a, b, c, Plus(x[13], 0xfd987193), 12);
    StepIsNext(st, 14, F1, 14, 0xa679438e, 17, c, d, a, b, x);
    c := Md5Step(F1, c, d, a, b, Plus(x[14], 0xa679438e), 17);
    StepIsNext(st, 15, F1, 15, 0x49b40821, 22, b, c, d, a, x);
    b := Md5Step(F1, b, c, d, a, Plus(x[15], 0x49b40821), 22);

    StepIsNext(st, 16, F2, 1, 0xf61e2562, 5, a, b, c, d, x);
    a := Md5Step(F2, a, b, c, d, Plus(x[1], 0xf61e2562), 5);
    StepIsNext(st, 17, F2, 6, 0xc040b340, 9, d, a, b, c, x);
    d := Md5Step(F2, d, a, b, c, Plus(x[6], 0xc040b340), 9);
    StepIsNext(st, 18, F2, 11, 0x265e5a51, 14, c, d, a, b, x);
    c := Md5Step(F2, c, d, a, b, Plus(x[11], 0x265e5a51), 14);
    StepIsNext(st, 19, F2, 0, 0xe9b6c7aa, 20, b, c, d, a, x);
    b := Md5Step(F2, b, c, d, a, Plus(x[0], 0xe9b6c7aa), 20);
    StepIsNext(st, 20, F2, 5, 0xd62f105d, 5, a, b, c, d, x);
    a := Md5Step(F2, a, b, c, d, Plus(x[5], 0xd62f105d), 5);
    StepIsNext(st, 21, F2, 10, 0x02441453, 9, d, a, b, c, x);
    d := Md5Step(F2, d, a, b, c, Plus(x[10], 0x02441453), 9);
    StepIsNext(st, 22, F2, 15, 0xd8a1e681, 14, c, d, a, b, x);
    c := Md5Step(F2, c, d, a, b, Plus(x[15], 0xd8a1e681), 14);
    StepIsNext(st, 23, F2, 4, 0xe7d3fbc8, 20, b, c, d, a, x);
    b := Md5Step(F2, b, c, d, a, Plus(x[4], 0xe7d3fbc8), 20);
    StepIsNext(st, 24, F2, 9, 0x21e1cde6, 5, a, b, c, d, x);
    a := Md5Step(F2, a, b, c, d, Plus(x[9], 0x21e1cde6), 5);
    StepIsNext(st, 25, F2, 14, 0xc33707d6, 9, d, a, b, c, x);
    d := Md5Step(F2, d, a, b, c, Plus(x[14], 0xc33707d6), 9);
    StepIsNext(st, 26, F2, 3, 0xf4d50d87, 14, c, d, a, b, x);
    c := Md5Step(F2, c, d, a, b, Plus(x[3], 0xf4d50d87), 14);
    StepIsNext(st, 27, F2, 8, 0x455a14ed, 20, b, c, d, a, x);
    b := Md5Step(F2, b, c, d, a, Plus(x[8], 0x455a14ed), 20);
    StepIsNext(st, 28, F2, 13, 0xa9e3e905, 5, a, b, c, d, x);
    a := Md5Step(F2, a, b, c, d, Plus(x[13], 0xa9e3e905), 5);
    StepIsNext(st, 29, F2, 2, 0xfcefa3f8, 9, d, a, b, c, x);
    d := Md5Step(F2, d, a, b, c, Plus(x[2], 0xfcefa3f8), 9);
    StepIsNext(st, 30, F2, 7, 0x676f02d9, 14, c, d, a, b, x);
    c := Md5Step(F2, c, d, a, b, Plus(x[7], 0x676f02d9), 14);
    StepIsNext(st, 31, F2, 12, 0x8d2a4c8a, 20, b, c, d, a, x);
    b := Md5Step(F2, b, c, d, a, Plus(x[12], 0x8d2a4c8a), 20);

    StepIsNext(st, 32, F3, 5, 0xfffa3942, 4, a, b, c, d, x);
    a := Md5Step(F3, a, b, c, d, Plus(x[5], 0xfffa3942), 4);
    StepIsNext(st, 33, F3, 8, 0x8771f681, 11, d, a, b, c, x);
    d := Md5Step(F3, d, a, b, c, Plus(x[8], 0x8771f681), 11);
    StepIsNext(st, 34, F3, 11, 0x6d9d6122, 16, c, d, a, b, x);
    c := Md5Step(F3, c, d, a, b, Plus(x[11], 0x6d9d6122), 16);
    StepIsNext(st, 35, F3, 14, 0xfde5380c, 23, b, c, d, a, x);
    b := Md5Step(F3, b, c, d, a, Plus(x[14], 0xfde5380c), 23);
    StepIsNext(st, 36, F3, 1, 0xa4beea44, 4, a, b, c, d, x);
    a := Md5Step(F3, a, b, c, d, Plus(x[1], 0xa4beea44), 4);
    StepIsNext(st, 37, F3, 4, 0x4bdecfa9, 11, d, a, b, c, x);
    d := Md5Step(F3, d, a, b, c, Plus(x[4], 0x4bdecfa9), 11);
    StepIsNext(st, 38, F3, 7, 0xf6bb4b60, 16, c, d, a, b, x);
    c := Md5Step(F3, c, d, a, b, Plus(x[7], 0xf6bb4b60), 16);
    StepIsNext(st, 39, F3, 10, 0xbebfbc70, 23, b, c, d, a, x);
    b := Md5Step(F3, b, c, d, a, Plus(x[10], 0xbebfbc70), 23);
    StepIsNext(st, 40, F3, 13, 0x289b7ec6, 4, a, b, c, d, x);
    a := Md5Step(F3, a, b, c, d, Plus(x[13], 0x289b7ec6), 4);
    StepIsNext(st, 41, F3, 0, 0xeaa127fa, 11, d, a, b, c, x);
    d := Md5Step(F3, d, a, b, c, Plus(x[0], 0xeaa127fa), 11);
    StepIsNext(st, 42, F3, 3, 0xd4ef3085, 16, c, d, a, b, x);
    c := Md5Step(F3, c, d, a, b, Plus(x[3], 0xd4ef3085), 16);
    StepIsNext(st, 43, F3, 6, 0x04881d05, 23, b, c, d, a, x);
    b := Md5Step(F3, b, c, d, a, Plus(x[6], 0x04881d05), 23);
    StepIsNext(st, 44, F3, 9, 0xd9d4d039, 4, a, b, c, d, x);
    a := Md5Step(F3, a, b, c, d, Plus(x[9], 0xd9d4d039), 4);
    StepIsNext(st, 45, F3, 12, 0xe6db99e5, 11, d, a, b, c, x);
    d := Md5Step(F3, d, a, b, c, Plus(x[12], 0xe6db99e5), 11);
    StepIsNext(st, 46, F3, 15, 0x1fa27cf8, 16, c, d, a, b, x);
    c := Md5Step(F3, c, d, a, b, Plus(x[15], 0x1fa27cf8), 16);
    StepIsNext(st, 47, F3, 2, 0xc4ac5665, 23, b, c, d, a, x);
    b := Md5Step(F3, b, c, d, a, Plus(x[2], 0xc4ac5665), 23);

    StepIsNext(st, 48, F4, 0, 0xf4292244, 6, a, b, c, d, x);
    a := Md5Step(F4, a, b, c, d, Plus(x[0], 0xf4292244), 6);
    StepIsNext(st, 49, F4, 7, 0x432aff97, 10, d, a, b, c, x);
    d := Md5Step(F4, d, a, b, c, Plus(x[7], 0x432aff97), 10);
    StepIsNext(st, 50, F4, 14, 0xab9423a7, 15, c, d, a, b, x);
    c := Md5Step(F4, c, d, a, b, Plus(x[14], 0xab9423a7), 15);
    StepIsNext(st, 51, F4, 5, 0xfc93a039, 21, b, c, d, a, x);
    b := Md5Step(F4, b, c, d, a, Plus(x[5], 0xfc93a039), 21);
    StepIsNext(st, 52, F4, 12, 0x655b59c3, 6, a, b, c, d, x);
    a := Md5Step(F4, a, b, c, d, Plus(x[12], 0x655b59c3), 6);
    StepIsNext(st, 53, F4, 3, 0x8f0ccc92, 10, d, a, b, c, x);
    d := Md5Step(F4, d, a, b, c, Plus(x[3], 0x8f0ccc92), 10);
    StepIsNext(st, 54, F4, 10, 0xffeff47d, 15, c, d, a, b, x);
    c := Md5Step(F4, c, d, a, b, Plus(x[10], 0xffeff47d), 15);
    StepIsNext(st, 55, F4, 1, 0x85845dd1, 21, b, c, d, a, x);
    b := Md5Step(F4, b, c, d, a, Plus(x[1], 0x85845dd1), 21);
    StepIsNext(st, 56, F4, 8, 0x6fa87e4f, 6, a, b, c, d, x);
    a := Md5Step(F4, a, b, c, d, Plus(x[8], 0x6fa87e4f), 6);
    StepIsNext(st, 57, F4, 15, 0xfe2ce6e0, 10, d, a, b, c, x);
    d := Md5Step(F4, d, a, b, c, Plus(x[15], 0xfe2ce6e0), 10);
    StepIsNext(st, 58, F4, 6, 0xa3014314, 15, c, d, a, b, x);
    c := Md5Step(F4, c, d, a, b, Plus(x[6], 0xa3014314), 15);
    StepIsNext(st, 59, F4, 13, 0x4e0811a1, 21, b, c, d, a, x);
    b := Md5Step(F4, b, c, d, a, Plus(x[13], 0x4e0811a1), 21);
    StepIsNext(st, 60, F4, 4, 0xf7537e82, 6, a, b, c, d, x);
    a := Md5Step(F4, a, b, c, d, Plus(x[4], 0xf7537e82), 6);
    StepIsNext(st, 61, F4, 11, 0xbd3af235, 10, d, a, b, c, x);
    d := Md5Step(F4, d, a, b, c, Plus(x[11], 0xbd3af235), 10);
    StepIsNext(st, 62, F4, 2, 0x2ad7d2bb, 15, c, d, a, b, x);
    c := Md5Step(F4, c, d, a, b, Plus(x[2], 0x2ad7d2bb), 15);
    StepIsNext(st, 63, F4, 9, 0xeb86d391, 21, b, c, d, a, x);
    b := Md5Step(F4, b, c, d, a, Plus(x[9], 0xeb86d391), 21);

    buf[0] := Plus(buf[0], a);
    buf[1] := Plus(buf[1], b);
    buf[2] := Plus(buf[2], c);
    buf[3] := Plus(buf[3], d);
  }

  function StateOf(buf: seq<Word>): State
    requires |buf| == 4
  {
    State(buf[0], buf[1], buf[2], buf[3])
  }

  function Registers(st: State): (buf: seq<Word>)
    ensures |buf| == 4 && StateOf(buf) == st
  {
    [st.a, st.b, st.c, st.d]
  }

  lemma NoRounds(st: State, x: seq<Word>)
    requires |x| == 16
    ensures Rounds(st, 0, x) == st
  {
  }
}
