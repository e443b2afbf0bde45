/** Unsigned machine words and their arithmetic. A word is the number it denotes; the
    wrap-around of C++ unsigned arithmetic is written out. */
module Words {
  import opened Arithmetic

  const TWO_TO_32 := 0x1_0000_0000

  type Byte = x: int | 0 <= x < 256

  type Word = x: int | 0 <= x < 0x1_0000_0000

  // Addition of uint32_t values.
  function Plus(x: Word, y: Word): Word { (x + y) % TWO_TO_32 }

  // The bits of a word, and the word whose bits are b.
  function ToBits(w: Word): bv32 { w as bv32 }

  function FromBits(b: bv32): Word { b as Word }

  lemma BitsBack(b: bv32)
    ensures ToBits(FromBits(b)) == b
  {
  }

  // x << s | x >> (32 - s)
  function RotateLeft(x: Word, s: nat): Word
    requires 0 < s < 32
  {
    FromBits(RotateBits(ToBits(x), s))
  }

  function RotateBits(b: bv32, s: nat): bv32
    requires 0 < s < 32
  {
    (b << s) | (b >> (32 - s))
  }

  lemma PlusAssociates(x: Word, y: Word, z: Word)
    ensures Plus(x, Plus(y, z)) == Plus(Plus(x, y), z)
  {
  }

  lemma PlusCommutes(x: Word, y: Word)
    ensures Plus(x, y) == Plus(y, x)
  {
  }

  function Zeros(n: nat): (s: seq<Byte>)
    ensures |s| == n
  {
    seq(n, _ => 0)
  }

  /** The four bytes of w, low-order byte first. */
  function LEOfWord(w: Word): (s: seq<Byte>)
    ensures |s| == 4
  {
    [w % 256, w / 256 % 256, w / 65536 % 256, w / 16777216]
  }

  function WordOfLE(s: seq<Byte>): Word
    requires |s| == 4
  {
    var b0: int, b1: int, b2: int, b3: int := s[0], s[1], s[2], s[3];
    b0 + 256 * b1 + 65536 * b2 + 16777216 * b3
  }

  /** The four bytes of w, high-order byte first. */
  function BEOfWord(w: Word): (s: seq<Byte>)
    ensures |s| == 4
  {
    [w / 16777216, w / 65536 % 256, w / 256 % 256, w % 256]
  }

  function WordOfBE(s: seq<Byte>): Word
    requires |s| == 4
  {
    WordOfLE([s[3], s[2], s[1], s[0]])
  }

  lemma WordBytesWord(w: Word)
    ensures WordOfLE(LEOfWord(w)) == w
    ensures WordOfBE(BEOfWord(w)) == w
  {
    var q := w / 256;
    var r := q / 256;
    assert w / 65536 == r && w / 16777216 == r / 256;
    assert w == 256 * (256 * (256 * (r / 256) + r % 256) + q % 256) + w % 256;
  }

  lemma BytesWordBytes(s: seq<Byte>)
    requires |s| == 4
    ensures LEOfWord(WordOfLE(s)) == s
    ensures BEOfWord(WordOfBE(s)) == s
  {
    PackedBytes(s[0], s[1], s[2], s[3]);
    PackedBytes(s[3], s[2], s[1], s[0]);
  }

  lemma PackedBytes(b0: Byte, b1: Byte, b2: Byte, b3: Byte)
    ensures var w: int := b0 + 256 * (b1 + 256 * (b2 + 256 * b3));
      w % 256 == b0 && w / 256 % 256 == b1 && w / 65536 % 256 == b2 && w / 16777216 == b3
  {
  }

  function Pow256(k: nat): (p: nat)
    ensures p > 0
  {
    if k == 0 then 1 else 256 * Pow256(k - 1)
  }

  /** Byte number k of the number n, counted from the low-order end. */
  function ByteOfInt(n: nat, k: nat): Byte {
    n / Pow256(k) % 256
  }

  lemma ByteOfSmall(n: nat, k: nat)
    requires n < 256
    ensures ByteOfInt(n, k) == if k == 0 then n else 0
  {
    if k == 0 {
    } else {
      assert Pow256(k) >= 256;
    }
  }

  lemma ByteOfQuotient(n: nat, k: nat)
    ensures ByteOfInt(n, k + 1) == ByteOfInt(n / 256, k)
  {
    DivideTwice(n, 256, Pow256(k));
  }

  /** Reducing modulo 256^m keeps the m low-order bytes. */
  lemma {:induction false} ModKeepsBytes(n: nat, m: nat, k: nat)
    requires k < m
    ensures ByteOfInt(n % Pow256(m), k) == ByteOfInt(n, k)
  {
    var r := n % Pow256(m);
    DivideTwice(n, 256, Pow256(m - 1));
    Quotient(r, 256, n / 256 % Pow256(m - 1), n % 256);
    if k == 0 {
    } else {
      ByteOfQuotient(n, k - 1);
      ByteOfQuotient(r, k - 1);
      ModKeepsBytes(n / 256, m - 1, k - 1);
    }
  }
}
