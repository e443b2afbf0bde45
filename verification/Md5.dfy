/** base/md5.cc: hashing a message handed over in pieces, through a 64-byte buffer, on a
    machine of either byte order, refines the one-shot digest of RFC 1321. */
module Md5 {
  import opened Arithmetic
  import opened Words
  import opened BlockStream
  import opened Md5Spec
  import opened Md5Transform

  /** A word as the machine keeps it in memory. */
  function NativeBytes(bigEndian: bool, w: Word): (s: seq<Byte>)
    ensures |s| == 4
  {
    if bigEndian then BEOfWord(w) else LEOfWord(w)
  }

  function NativeWord(bigEndian: bool, s: seq<Byte>): Word
    requires |s| == 4
  {
    if bigEndian then WordOfBE(s) else WordOfLE(s)
  }

  lemma NativeRoundTrip(bigEndian: bool, w: Word)
    ensures NativeWord(bigEndian, NativeBytes(bigEndian, w)) == w
  {
    WordBytesWord(w);
  }

  /** The sixteen uint32_t values seen through a pointer cast of a block of memory. */
  function NativeWords(bigEndian: bool, s: seq<Byte>): (x: seq<Word>)
    requires |s| == 64
    ensures |x| == 16
  {
    seq(16, k requires 0 <= k < 16 => NativeWord(bigEndian, Group(s, k)))
  }

  /** The four bytes of the word number k of a block of memory. */
  function Group(s: seq<Byte>, k: nat): (g: seq<Byte>)
    requires 4 * k + 4 <= |s|
    ensures |g| == 4
  {
    s[4 * k..4 * k + 4]
  }

  method PutGroup(a: array<Byte>, k: nat, g: seq<Byte>)
    requires 4 * k + 4 <= a.Length && |g| == 4
    modifies a
    ensures a[..] == old(a[..4 * k]) + g + old(a[4 * k + 4..])
  {
    a[4 * k], a[4 * k + 1], a[4 * k + 2], a[4 * k + 3] := g[0], g[1], g[2], g[3];
  }

  lemma GroupsAfterPut(s: seq<Byte>, k: nat, g: seq<Byte>, j: nat)
    requires 4 * k + 4 <= |s| && |g| == 4 && 4 * j + 4 <= |s|
    ensures Group(s[..4 * k] + g + s[4 * k + 4..], j) == if j == k then g else Group(s, j)
  {
  }

  /** byteReverse over bytes: each group of four becomes the native form of the word whose
      little-endian form it was. */
  method ByteReverse(bigEndian: bool, a: array<Byte>, longs: nat)
    requires 0 < longs && 4 * longs <= a.Length
    modifies a
    ensures forall k :: 0 <= k < longs ==>
      NativeWord(bigEndian, Group(a[..], k)) == WordOfLE(old(Group(a[..], k)))
    ensures a[4 * longs..] == old(a[4 * longs..])
  {
    var n := 0;
    while n < longs
      invariant 0 <= n <= longs
      invariant forall k :: 0 <= k < n ==> NativeWord(bigEndian, Group(a[..], k)) == WordOfLE(old(Group(a[..], k)))
      invariant forall k :: n <= k < longs ==> Group(a[..], k) == old(Group(a[..], k))
      invariant a[4 * longs..] == old(a[4 * longs..])
    {
      var temp := WordOfLE(a[4 * n..4 * n + 4]);
      ghost var was := a[..];
      PutGroup(a, n, NativeBytes(bigEndian, temp));
      NativeRoundTrip(bigEndian, temp);
      forall k | 0 <= k < longs
        ensures Group(a[..], k) == if k == n then NativeBytes(bigEndian, temp) else Group(was, k)
      {
        GroupsAfterPut(was, n, NativeBytes(bigEndian, temp), k);
      }
      assert a[4 * longs..] == was[4 * longs..];
      n := n + 1;
    }
  }

  /** byteReverse over the four words of buf. */
  method ByteReverseWords(bigEndian: bool, buf: array<Word>)
    requires buf.Length == 4
    modifies buf
    ensures forall k :: 0 <= k < 4 ==> NativeBytes(bigEndian, buf[k]) == LEOfWord(old(buf[k]))
  {
    forall k | 0 <= k < 4 {
      buf[k] := WordOfLE(NativeBytes(bigEndian, buf[k]));
    }
    forall k | 0 <= k < 4
      ensures NativeBytes(bigEndian, buf[k]) == LEOfWord(old(buf[k]))
    {
      ReversedWord(bigEndian, old(buf[k]));
    }
  }

  lemma ReversedWord(bigEndian: bool, w: Word)
    ensures NativeBytes(bigEndian, WordOfLE(NativeBytes(bigEndian, w))) == LEOfWord(w)
  {
    WordBytesWord(w);
    BytesWordBytes(BEOfWord(w));
  }

  // The bits[0], bits[1] pair: the length in bits modulo 2^64, low word first.
  ghost predicate CountsBits(low: Word, high: Word, bytes: nat) {
    low == 8 * bytes % TWO_TO_32 && high == 8 * bytes / TWO_TO_32 % TWO_TO_32
  }

  lemma Divide(x: int, q: int, r: int)
    requires x == TWO_TO_32 * q + r && 0 <= r < TWO_TO_32
    ensures x / TWO_TO_32 == q && x % TWO_TO_32 == r
  {
  }

  lemma SumMod(x: int, y: int)
    ensures (x % TWO_TO_32 + y) % TWO_TO_32 == (x + y) % TWO_TO_32
  {
    var q := x / TWO_TO_32;
    assert x == TWO_TO_32 * q + x % TWO_TO_32;
    var z := x % TWO_TO_32 + y;
    Divide(x + y, z / TWO_TO_32 + q, z % TWO_TO_32);
  }

  lemma AddToCount(low: Word, high: Word, bytes: nat, len: nat, low': Word)
    requires CountsBits(low, high, bytes)
    requires low' == (low + len % TWO_TO_32 * 8 % TWO_TO_32) % TWO_TO_32
    ensures var carry := if low' < low then 1 else 0;
      CountsBits(low', ((high + carry) % TWO_TO_32 + len / 0x2000_0000 % TWO_TO_32) % TWO_TO_32, bytes + len)
  {
    var a, b := len / 0x2000_0000, len % 0x2000_0000;
    Eighth(len, a, b);
    var q := 8 * bytes / TWO_TO_32;
    var carry := if low' < low then 1 else 0;
    Carry(low, 8 * b, low');
    Divide(8 * (bytes + len), q + a + carry, low');
    SumMod(q, carry);
    SumMod(a, (high + carry) % TWO_TO_32);
    SumMod(q + carry, a);
  }

  lemma Eighth(len: nat, a: int, b: int)
    requires len == 0x2000_0000 * a + b && 0 <= b < 0x2000_0000
    ensures len % TWO_TO_32 * 8 % TWO_TO_32 == 8 * b
  {
    var q, r := len / TWO_TO_32, len % TWO_TO_32;
    Divide(8 * r, a - 8 * q, 8 * b);
  }

  lemma Carry(low: Word, add: Word, low': Word)
    requires low' == (low + add) % TWO_TO_32
    ensures low + add == low' + if low' < low then TWO_TO_32 else 0
  {
    if low + add < TWO_TO_32 {
      Divide(low + add, 0, low + add);
    } else {
      Divide(low + add, 1, low + add - TWO_TO_32);
    }
  }

  lemma BytesInBuffer(low: Word, high: Word, bytes: nat)
    requires CountsBits(low, high, bytes)
    ensures low / 8 % 64 == bytes % 64
  {
    var q := 8 * bytes / TWO_TO_32;
    assert low == 8 * (bytes - 0x2000_0000 * q);
    Mod64(bytes, q * 0x80_0000);
  }

  lemma Mod64(x: int, q: int)
    ensures (x - 64 * q) % 64 == x % 64
  {
    var a := x / 64;
    assert x - 64 * q == 64 * (a - q) + x % 64;
  }

  lemma FoldAppend(data: seq<Byte>, block: seq<Byte>)
    requires |data| % 64 == 0 && |block| == 64
    ensures Fold(AppendBlock(data, block)) == Compress(Fold(data), BlockWords(block))
  {
    assert (data + block)[..|data|] == data;
    assert (data + block)[|data|..] == block;
  }

  // What byteReverse makes of a whole block reads, natively, as the RFC's words.
  lemma WordsOfGroups(bigEndian: bool, s: seq<Byte>, block: seq<Byte>)
    requires |s| == |block| == 64
    requires forall k :: 0 <= k < 16 ==> NativeWord(bigEndian, Group(s, k)) == WordOfLE(Group(block, k))
    ensures NativeWords(bigEndian, s) == BlockWords(block)
  {
  }

  lemma BytesOfLow(bits: nat)
    ensures LengthBytes(bits)[..4] == LEOfWord(bits % TWO_TO_32)
  {
    var q, low := bits / TWO_TO_32, bits % TWO_TO_32;
    assert Pow256(1) == 256 && Pow256(2) == 65536 && Pow256(3) == 16777216;
    ShiftedBytes(bits, q, low);
  }

  lemma ShiftedBytes(x: nat, q: nat, low: Word)
    requires x == TWO_TO_32 * q + low
    ensures x % 256 == low % 256 && x / 256 % 256 == low / 256 % 256
    ensures x / 65536 % 256 == low / 65536 % 256 && x / 16777216 % 256 == low / 16777216
  {
    LowByte(16777216 * q, low);
    assert x / 256 == 256 * (65536 * q) + low / 256;
    LowByte(65536 * q, low / 256);
    assert x / 65536 == 256 * (256 * q) + low / 65536;
    LowByte(256 * q, low / 65536);
    assert x / 16777216 == 256 * q + low / 16777216;
    LowByte(q, low / 16777216);
  }

  lemma LowByte(q: nat, y: nat)
    ensures (256 * q + y) % 256 == y % 256
  {
    var r := y / 256;
    assert 256 * q + y == 256 * (q + r) + y % 256;
  }

  lemma BytesOfHigh(bits: nat)
    ensures LengthBytes(bits)[4..] == LEOfWord(bits / TWO_TO_32 % TWO_TO_32)
  {
    var high := bits / TWO_TO_32;
    BytesOfLow(high);
    forall j | 0 <= j < 4
      ensures ByteOfInt(bits, 4 + j) == ByteOfInt(high, j)
    {
      assert Pow256(4) == TWO_TO_32;
      PowersAdd(j);
      DivideTwice(bits, TWO_TO_32, Pow256(j));
    }
  }

  lemma PowersAdd(j: nat)
    ensures Pow256(4 + j) == TWO_TO_32 * Pow256(j)
  {
    if j == 0 {
      assert Pow256(2) == 65536;
    } else {
      PowersAdd(j - 1);
    }
  }

  /** memcpy or memset into a byte array. */
  method CopyBytes(a: array<Byte>, at: nat, src: seq<Byte>)
    requires at + |src| <= a.Length
    modifies a
    ensures a[..] == old(a[..at]) + src + old(a[at + |src|..])
  {
    forall k | 0 <= k < |src| {
      a[at + k] := src[k];
    }
  }

  method CopyOf<T>(a: array<T>) returns (b: array<T>)
    ensures fresh(b) && b.Length == a.Length && b[..] == a[..]
  {
    b := new T[a.Length](i requires 0 <= i < a.Length reads a => a[i]);
  }

  lemma PaddedInTwo(msg: seq<Byte>, done: seq<Byte>, count: nat)
    requires count == 63 - |msg| % 64 < 8
    requires done == AppendBlock(Blocks(msg), Rest(msg) + [0x80] + Zeros(count))
    ensures Padded(msg) == AppendBlock(done, Zeros(56) + LengthBytes(8 * |msg|))
  {
    assert Zeros((119 - |msg| % 64) % 64) == Zeros(count) + Zeros(56);
  }

  lemma PaddedInOne(msg: seq<Byte>, count: nat)
    requires count == 63 - |msg| % 64 >= 8
    ensures Padded(msg) == AppendBlock(Blocks(msg), Rest(msg) + [0x80] + Zeros(count - 8) + LengthBytes(8 * |msg|))
  {
  }

  lemma LastWords(bigEndian: bool, s: seq<Byte>, head: seq<Byte>, low: Word, high: Word, bytes: nat)
    requires |s| == 64 && |head| == 56 && CountsBits(low, high, bytes)
    requires forall k :: 0 <= k < 14 ==> NativeWord(bigEndian, Group(s, k)) == WordOfLE(Group(head, k))
    requires s[56..60] == NativeBytes(bigEndian, low) && s[60..] == NativeBytes(bigEndian, high)
    ensures NativeWords(bigEndian, s) == BlockWords(head + LengthBytes(8 * bytes))
  {
    hide NativeWord, NativeBytes, WordOfLE, LEOfWord, LengthBytes;
    var block := head + LengthBytes(8 * bytes);
    BytesOfLow(8 * bytes);
    BytesOfHigh(8 * bytes);
    NativeRoundTrip(bigEndian, low);
    NativeRoundTrip(bigEndian, high);
    WordBytesWord(low);
    WordBytesWord(high);
    forall k | 0 <= k < 16
      ensures NativeWord(bigEndian, Group(s, k)) == WordOfLE(Group(block, k))
    {
      if k < 14 {
        assert Group(block, k) == Group(head, k);
      } else if k == 14 {
        assert Group(s, k) == s[56..60];
        assert Group(block, k) == LengthBytes(8 * bytes)[..4];
      } else {
        assert Group(s, k) == s[60..];
        assert Group(block, k) == LengthBytes(8 * bytes)[4..];
      }
    }
    WordsOfGroups(bigEndian, s, block);
  }

  class Context {
    const bigEndian: bool
    const buf: array<Word>
    const bits: array<Word>
    const inp: array<Byte>
    ghost var msg: seq<Byte>  // everything hashed so far

    ghost predicate Shape()
      reads this
    {
      buf.Length == 4 && bits.Length == 2 && inp.Length == 64
      && buf != bits && inp as object != buf && inp as object != bits
    }

    ghost predicate Valid()
      reads this, buf, bits, inp
    {
      && Shape()
      && CountsBits(bits[0], bits[1], |msg|)
      && StateOf(buf[..]) == Fold(Blocks(msg))
      && inp[..|msg| % 64] == Rest(msg)
    }

    // MD5Init
    constructor Init(bigEndian: bool)
      ensures Valid() && msg == [] && this.bigEndian == bigEndian
      ensures fresh(buf) && fresh(bits) && fresh(inp)
    {
      this.bigEndian := bigEndian;
      buf := new Word[4] [0x67452301, 0xefcdab89, 0x98badcfe, 0x10325476];
      bits := new Word[2] [0, 0];
      inp := new Byte[64];
      msg := [];
    }

    // The copy that MD5IntermediateFinal makes with memcpy.
    constructor Copy(other: Context)
      requires other.Valid()
      ensures Valid() && msg == other.msg && bigEndian == other.bigEndian
      ensures fresh(buf) && fresh(bits) && fresh(inp)
    {
      bigEndian := other.bigEndian;
      var b := CopyOf(other.buf);
      var c := CopyOf(other.bits);
      var i := CopyOf(other.inp);
      buf, bits, inp := b, c, i;
      msg := other.msg;
      new;
      assert bits[0] == bits[..][0] == other.bits[0] && bits[1] == bits[..][1] == other.bits[1];
      assert inp[..|msg| % 64] == inp[..][..|msg| % 64];
    }

    // byteReverse(ctx->in, 16) and MD5Transform, on a full buffer that follows `done`.
    method TransformBuffer(ghost done: seq<Byte>)
      requires Shape() && |done| % 64 == 0
      requires StateOf(buf[..]) == Fold(done)
      modifies buf, inp
      ensures StateOf(buf[..]) == Fold(AppendBlock(done, old(inp[..])))
    {
      ghost var block := inp[..];
      ReverseBlock();
      hide Fold, Compress, NativeWords, BlockWords;
      var x := NativeWords(bigEndian, inp[..]);
      ghost var st := StateOf(buf[..]);
      Transform(buf, x);
      FoldAppend(done, block);
    }

    method ReverseBlock()
      requires Shape()
      modifies inp
      ensures NativeWords(bigEndian, inp[..]) == BlockWords(old(inp[..]))
    {
      ghost var block := inp[..];
      ByteReverse(bigEndian, inp, 16);
      WordsOfGroups(bigEndian, inp[..], block);
    }

    method UpdateBitCount(len: nat)
      requires Shape() && CountsBits(bits[0], bits[1], |msg|)
      modifies bits
      ensures CountsBits(bits[0], bits[1], |msg| + len)
    {
      var t := bits[0];
      bits[0] := Plus(t, len % TWO_TO_32 * 8 % TWO_TO_32);
      if bits[0] < t {
        bits[1] := Plus(bits[1], 1);
      }
      bits[1] := Plus(bits[1], len / 0x2000_0000 % TWO_TO_32);
      AddToCount(t, old(bits[1]), |msg|, len, bits[0]);
    }

    // MD5Update; data.size() is a 64-bit size_t.
    method Update(data: seq<Byte>)
      requires Valid() && |data| < 0x1_0000_0000_0000_0000
      modifies this, buf, bits, inp
      ensures Valid() && msg == old(msg) + data
    {
      hide Fold, CountsBits, Blocks, Rest;
      ghost var before := msg;
      var pos, len := 0, |data|;
      var t := bits[0];
      UpdateBitCount(len);
      BytesInBuffer(t, old(bits[1]), |before|);
      msg := before + data;

      t := t / 8 % 64;
      if t != 0 {
        var p := t;
        t := 64 - t;
        if len < t {
          StaysInBuffer(before, data);
          CopyBytes(inp, p, data);
          assert inp[..p + len] == inp[..][..p + len];
          return;
        }
        CopyBytes(inp, p, data[..t]);
        assert inp[..] == Rest(before) + data[..t];
        FillsBuffer(before, data, t);
        TransformBuffer(Blocks(before));
        pos, len := pos + t, len - t;
      } else {
        EmptyBuffer(before, data);
      }

      pos := UpdateBlocks(before, data, pos);
      CopyBytes(inp, 0, data[pos..]);
      assert inp[..|data| - pos] == inp[..][..|data| - pos] == data[pos..];
      Leftover(before, data, pos);
    }

    // The data from pos on, in 64-byte chunks.
    method UpdateBlocks(ghost before: seq<Byte>, data: seq<Byte>, start: nat) returns (pos: nat)
      requires Shape() && start <= |data| && (|before| + start) % 64 == 0
      requires StateOf(buf[..]) == Fold(before + data[..start])
      modifies buf, inp
      ensures start <= pos <= |data| < pos + 64 && (|before| + pos) % 64 == 0
      ensures StateOf(buf[..]) == Fold(before + data[..pos])
    {
      hide Fold;
      pos := start;
      var len := |data| - pos;
      while len >= 64
        invariant start <= pos <= |data| && len == |data| - pos && (|before| + pos) % 64 == 0
        invariant StateOf(buf[..]) == Fold(before + data[..pos])
      {
        CopyBytes(inp, 0, data[pos..pos + 64]);
        assert inp[..] == data[pos..pos + 64];
        OneMoreBlock(before, data, pos);
        TransformBuffer(before + data[..pos]);
        pos, len := pos + 64, len - 64;
      }
    }

    // The last one or two blocks: 0x80, zeros, and the bit count in words 14 and 15.
    method Pad()
      requires Valid()
      modifies buf, inp
      ensures StateOf(buf[..]) == Fold(Padded(msg))
    {
      var count := bits[0] / 8 % 64;
      BytesInBuffer(bits[0], bits[1], |msg|);
      ghost var done := Blocks(msg);
      assert inp[..count] == Rest(msg);

      inp[count] := 0x80;
      var p := count + 1;
      count := 64 - 1 - count;

      if count < 8 {
        CopyBytes(inp, p, Zeros(count));
        assert inp[..] == Rest(msg) + [0x80] + Zeros(count);
        TransformBuffer(done);
        done := AppendBlock(done, Rest(msg) + [0x80] + Zeros(count));
        CopyBytes(inp, 0, Zeros(56));
        assert inp[..56] == Zeros(56);
        PaddedInTwo(msg, done, count);
      } else {
        CopyBytes(inp, p, Zeros(count - 8));
        assert inp[..56] == Rest(msg) + [0x80] + Zeros(count - 8);
        PaddedInOne(msg, count);
      }
      LastBlock(done, inp[..56]);
    }

    // byteReverse of 14 words, the two words of the count, MD5Transform.
    method LastBlock(ghost done: seq<Byte>, ghost head: seq<Byte>)
      requires Shape() && |done| % 64 == 0 && inp[..56] == head
      requires CountsBits(bits[0], bits[1], |msg|) && StateOf(buf[..]) == Fold(done)
      modifies buf, inp
      ensures StateOf(buf[..]) == Fold(AppendBlock(done, head + LengthBytes(8 * |msg|)))
    {
      hide Fold, Compress, NativeWords, BlockWords, CountsBits, LengthBytes;
      FillLastBlock(head);
      FoldAppend(done, head + LengthBytes(8 * |msg|));
      Transform(buf, NativeWords(bigEndian, inp[..]));
    }

    method FillLastBlock(ghost head: seq<Byte>)
      requires Shape() && inp[..56] == head
      requires CountsBits(bits[0], bits[1], |msg|)
      modifies inp
      ensures NativeWords(bigEndian, inp[..]) == BlockWords(head + LengthBytes(8 * |msg|))
    {
      hide NativeWords, BlockWords, CountsBits, LengthBytes, NativeWord, NativeBytes, WordOfLE;
      ghost var was := inp[..];
      ByteReverse(bigEndian, inp, 14);
      ghost var reversed := inp[..];
      CopyBytes(inp, 56, NativeBytes(bigEndian, bits[0]));
      CopyBytes(inp, 60, NativeBytes(bigEndian, bits[1]));
      forall k | 0 <= k < 14
        ensures NativeWord(bigEndian, Group(inp[..], k)) == WordOfLE(Group(head, k))
      {
        assert Group(inp[..], k) == Group(reversed, k);
        assert Group(head, k) == Group(was, k);
      }
      assert inp[..][56..60] == NativeBytes(bigEndian, bits[0]);
      assert inp[..][60..] == NativeBytes(bigEndian, bits[1]);
      LastWords(bigEndian, inp[..], head, bits[0], bits[1], |msg|);
    }

    method Erase()
      requires Shape()
      modifies buf, bits, inp
      ensures buf[..] == [0, 0, 0, 0] && bits[..] == [0, 0] && inp[..] == Zeros(64)
    {
      forall k | 0 <= k < 4 { buf[k] := 0; }
      forall k | 0 <= k < 2 { bits[k] := 0; }
      forall k | 0 <= k < 64 { inp[k] := 0; }
    }

    // MD5Final
    method Final() returns (digest: seq<Byte>)
      requires Valid()
      modifies buf, bits, inp
      ensures digest == Digest(msg)
      ensures buf[..] == [0, 0, 0, 0] && bits[..] == [0, 0] && inp[..] == Zeros(64)
    {
      hide Fold, Padded, CountsBits, NativeBytes, LEOfWord;
      Pad();
      ByteReverseWords(bigEndian, buf);
      digest := NativeBytes(bigEndian, buf[0]) + NativeBytes(bigEndian, buf[1])
      + NativeBytes(bigEndian, buf[2]) + NativeBytes(bigEndian, buf[3]);
      Erase();
    }

    // MD5IntermediateFinal: the context stays as it is, and hashing may go on.
    method IntermediateFinal() returns (digest: seq<Byte>)
      requires Valid()
      ensures digest == Digest(msg)
    {
      var copy := new Context.Copy(this);
      digest := copy.Final();
    }
  }

  /** Any message, cut in any way into pieces, hashed on a machine of either byte order:
      the digest is the RFC's digest of the concatenation. */
  method HashPieces(bigEndian: bool, pieces: seq<seq<Byte>>) returns (digest: seq<Byte>)
    requires forall k :: 0 <= k < |pieces| ==> |pieces[k]| < 0x1_0000_0000_0000_0000
    ensures digest == Digest(Concat(pieces))
  {
    var context := new Context.Init(bigEndian);
    hide Context.Valid, Digest;
    for k := 0 to |pieces|
      invariant context.Valid() && context.msg == Concat(pieces[..k])
      invariant fresh(context) && fresh(context.buf) && fresh(context.bits) && fresh(context.inp)
    {
      context.Update(pieces[k]);
      assert pieces[..k + 1][..k] == pieces[..k];
    }
    assert pieces[..|pieces|] == pieces;
    digest := context.Final();
  }

  // MD5Sum
  method Sum(bigEndian: bool, data: seq<Byte>) returns (digest: seq<Byte>)
    requires |data| < 0x1_0000_0000_0000_0000
    ensures digest == Digest(data)
  {
    var context := new Context.Init(bigEndian);
    hide Digest;
    context.Update(data);
    assert [] + data == data;
    digest := context.Final();
  }
}
