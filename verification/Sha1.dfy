/** base/sha1_portable.cc: SHA-1 through a buffer that is overlaid with the message
    schedule, on a little-endian machine, refines the one-shot digest of FIPS 180-3. */
module Sha1 {
  import opened Words
  import opened BlockStream
  import opened Sha1Spec

  // f
  function F(t: nat, x: Word, y: Word, z: Word): Word
    requires t < 80
  {
    FromBits(FBits(t, ToBits(x), ToBits(y), ToBits(z)))
  }

  function FBits(t: nat, x: bv32, y: bv32, z: bv32): bv32
    requires t < 80
  {
    if t < 20 then Choose(x, y, z)
    else if t < 40 then x ^ y ^ z
    else if t < 60 then Majority(x, y, z)
    else x ^ y ^ z
  }

  function Choose(x: bv32, y: bv32, z: bv32): bv32 { (x & y) | (!x & z) }

  function Majority(x: bv32, y: bv32, z: bv32): bv32 { (x & y) | (x & z) | (y & z) }

  lemma ChooseIsCh(x: bv32, y: bv32, z: bv32)
    ensures Choose(x, y, z) == Ch(x, y, z)
  {
    OrIsXor(x, y, z);
  }

  lemma OrIsXor(x: bv32, y: bv32, z: bv32)
    ensures (x & y) | (!x & z) == (x & y) ^ (!x & z)
    ensures (x & y) | (x & z) | (y & z) == (x & y) ^ (x & z) ^ (y & z)
  {
  }

  lemma MajorityIsMaj(x: bv32, y: bv32, z: bv32)
    ensures Majority(x, y, z) == Maj(x, y, z)
  {
    OrIsXor(x, y, z);
  }

  /** The bitwise-or forms of the source are the exclusive-or forms of FIPS 180-3. */
  lemma FIsLogical(t: nat, x: Word, y: Word, z: Word)
    requires t < 80
    ensures F(t, x, y, z) == Logical(t, x, y, z)
  {
    hide Choose, Majority, Ch, Maj, ToBits, FromBits;
    ChooseIsCh(ToBits(x), ToBits(y), ToBits(z));
    MajorityIsMaj(ToBits(x), ToBits(y), ToBits(z));
  }

  // swapends; the four shifted and masked bytes do not overlap.
  function SwapEnds(t: Word): Word {
    t / 0x1000000 + t / 0x10000 % 0x100 * 0x100 + t / 0x100 % 0x100 * 0x10000 + t % 0x100 * 0x1000000
  }

  lemma SwapEndsReads(s: seq<Byte>)
    requires |s| == 4
    ensures SwapEnds(WordOfLE(s)) == WordOfBE(s)
  {
    PackedBytes(s[0], s[1], s[2], s[3]);
  }

  // The 64 bytes that share their memory with the first sixteen words of w.
  function BytesOf(w: seq<Word>): (m: seq<Byte>)
    requires |w| == 80
    ensures |m| == 64
  {
    seq(64, i requires 0 <= i < 64 => LEOfWord(w[i / 4])[i % 4])
  }

  // The word after byte k of it is overwritten.
  function WithByte(w: Word, k: nat, b: Byte): Word
    requires k < 4
  {
    WordOfLE(LEOfWord(w)[k := b])
  }

  lemma StoreByte(w: seq<Word>, i: nat, b: Byte)
    requires |w| == 80 && i < 64
    ensures BytesOf(w[i / 4 := WithByte(w[i / 4], i % 4, b)]) == BytesOf(w)[i := b]
  {
    BytesWordBytes(LEOfWord(w[i / 4])[i % 4 := b]);
    hide LEOfWord, WordOfLE;
  }

  lemma WordInBlock(w: seq<Word>, t: nat)
    requires |w| == 80 && t < 16
    ensures SwapEnds(w[t]) == WordOfBE(BytesOf(w)[4 * t..4 * t + 4])
  {
    hide LEOfWord, WordOfLE, SwapEnds, WordOfBE;
    WordBytesWord(w[t]);
    SwapEndsReads(LEOfWord(w[t]));
    assert BytesOf(w)[4 * t..4 * t + 4] == LEOfWord(w[t]);
  }

  lemma SumsAgree(a: Word, f: Word, e: Word, w: Word, k: Word)
    ensures Plus(Plus(Plus(Plus(a, f), e), w), k) == Plus(Plus(Plus(Plus(a, f), e), k), w)
  {
    hide Plus;
    var s := Plus(Plus(a, f), e);
    PlusAssociates(s, w, k);
    PlusCommutes(w, k);
    PlusAssociates(s, k, w);
  }

  lemma FoldAppend(data: seq<Byte>, block: seq<Byte>)
    requires |data| % 64 == 0 && |block| == 64
    ensures Fold(AppendBlock(data, block)) == Compress(Fold(data), block)
  {
    assert (data + block)[..|data|] == data;
    assert (data + block)[|data|..] == block;
  }

  lemma SumCommutes(r: State, st: State)
    ensures Sum(r, st) == State(Plus(st.a, r.a), Plus(st.b, r.b), Plus(st.c, r.c), Plus(st.d, r.d), Plus(st.e, r.e))
  {
  }

  lemma PaddedInTwo(msg: seq<Byte>, done: seq<Byte>, count: nat)
    requires count == 63 - |msg| % 64 < 8
    requires done == AppendBlock(Blocks(msg), Rest(msg) + [0x80] + Zeros(count))
    ensures Padded(msg) == AppendBlock(done, Zeros(56) + LengthBytes(8 * |msg|))
  {
    assert Zeros((119 - |msg| % 64) % 64) == Zeros(count) + Zeros(56);
  }

  lemma PaddedInOne(msg: seq<Byte>, count: nat)
    requires count == 63 - |msg| % 64 >= 8
    ensures Padded(msg) == AppendBlock(Blocks(msg), Rest(msg) + [0x80] + Zeros(count - 8) + LengthBytes(8 * |msg|))
  {
  }

  lemma LengthModulo(bits: nat)
    ensures LengthBytes(bits % 0x1_0000_0000_0000_0000) == LengthBytes(bits)
  {
    assert Pow256(4) == 0x1_0000_0000;
    assert Pow256(8) == 0x1_0000_0000_0000_0000;
    forall k | 0 <= k < 8
      ensures ByteOfInt(bits % Pow256(8), k) == ByteOfInt(bits, k)
    {
      ModKeepsBytes(bits, 8, k);
    }
  }

  // A byte-swapped word in little-endian memory is the word high-order byte first.
  lemma SwappedInMemory(w: Word)
    ensures LEOfWord(SwapEnds(w)) == BEOfWord(w)
  {
    WordBytesWord(w);
    SwapEndsReads(LEOfWord(w));
    var s := LEOfWord(w);
    BytesWordBytes([s[3], s[2], s[1], s[0]]);
  }

  lemma PutAt(m: seq<Byte>, k: nat, b: Byte)
    requires k < |m|
    ensures m[k := b][..k + 1] == m[..k] + [b]
    ensures k + 1 == |m| ==> m[k := b] == m[..k] + [b]
  {
  }

  // The chaining value, the buffered bytes, their number and the bit count of a message.
  ghost predicate Represents(msg: seq<Byte>, hash: State, buffered: seq<Byte>, cursor: nat, l: nat) {
    && hash == Fold(Blocks(msg)) && buffered == Rest(msg) && cursor == |msg| % 64
    && l == 8 * |msg| % 0x1_0000_0000_0000_0000
  }

  lemma OneMoreByte(msg: seq<Byte>, hash: State, buffered: seq<Byte>, cursor: nat, l: nat, b: Byte)
    requires Represents(msg, hash, buffered, cursor, l)
    ensures var more := (l + 8) % 0x1_0000_0000_0000_0000;
      && |Blocks(msg)| % 64 == 0 && hash == Fold(Blocks(msg)) && |buffered| == cursor < 64
      && if cursor < 63 then Represents(msg + [b], hash, buffered + [b], cursor + 1, more)
         else Represents(msg + [b], Fold(AppendBlock(Blocks(msg), buffered + [b])), [], 0, more)
  {
    hide Fold;
    OneMoreCounted(|msg|);
    if cursor == 63 {
      FillsBuffer(msg, [b], 1);
      Leftover(msg, [b], 1);
      assert [b][..1] == [b] && [b][1..] == [];
      assert Blocks(msg + [b]) == AppendBlock(Blocks(msg), buffered + [b]);
    } else {
      StaysInBuffer(msg, [b]);
    }
  }

  lemma OneMoreCounted(n: nat)
    ensures (8 * n % 0x1_0000_0000_0000_0000 + 8) % 0x1_0000_0000_0000_0000 == 8 * (n + 1) % 0x1_0000_0000_0000_0000
  {
  }

  class SecureHashAlgorithm {
    var A: Word
    var B: Word
    var C: Word
    var D: Word
    var E: Word
    const H: array<Word>
    const W: array<Word>  // the union of W and M
    var cursor: nat
    var l: nat
    ghost var msg: seq<Byte>  // everything hashed so far

    ghost predicate Shape()
      reads this
    {
      H.Length == 5 && W.Length == 80 && H != W && cursor <= 64
    }

    ghost function HashValue(): State
      requires H.Length == 5
      reads H
    {
      State(H[0], H[1], H[2], H[3], H[4])
    }

    // The twenty bytes at Digest().
    ghost function DigestBytes(): (s: seq<Byte>)
      requires H.Length == 5
      reads H
    {
      LEOfWord(H[0]) + LEOfWord(H[1]) + LEOfWord(H[2]) + LEOfWord(H[3]) + LEOfWord(H[4])
    }

    method ReadDigest() returns (s: seq<Byte>)
      requires Shape()
      ensures s == DigestBytes()
    {
      s := LEOfWord(H[0]) + LEOfWord(H[1]) + LEOfWord(H[2]) + LEOfWord(H[3]) + LEOfWord(H[4]);
    }

    ghost function M(): (m: seq<Byte>)
      requires W.Length == 80
      reads W
      ensures |m| == 64
    {
      BytesOf(W[..])
    }

    ghost function Buffered(): seq<Byte>
      requires W.Length == 80 && cursor <= 64
      reads this`cursor, W
    {
      M()[..cursor]
    }

    ghost predicate Valid()
      reads this, H, W
    {
      Shape() && Represents(msg, HashValue(), Buffered(), cursor, l)
    }

    constructor Init()
      ensures Valid() && msg == []
      ensures fresh(H) && fresh(W)
    {
      A, B, C, D, E := 0, 0, 0, 0, 0;
      cursor := 0;
      l := 0;
      H := new Word[5] [0x67452301, 0xefcdab89, 0x98badcfe, 0x10325476, 0xc3d2e1f0];
      W := new Word[80];
      msg := [];
    }

    // M[i] = b
    method Put(i: nat, b: Byte)
      requires Shape() && i < 64
      modifies W
      ensures M() == old(M())[i := b]
    {
      StoreByte(W[..], i, b);
      ghost var was := W[..];
      W[i / 4] := WithByte(W[i / 4], i % 4, b);
      assert W[..] == was[i / 4 := WithByte(was[i / 4], i % 4, b)];
    }

    // M[cursor++] = b
    method PutNext(b: Byte)
      requires Shape() && cursor < 64
      modifies this`cursor, W
      ensures Shape() && HashValue() == old(HashValue()) && cursor == old(cursor) + 1
      ensures Buffered() == old(Buffered()) + [b] && (cursor == 64 ==> M() == Buffered())
    {
      hide BytesOf;
      PutAt(M(), cursor, b);
      Put(cursor, b);
      cursor := cursor + 1;
    }

    method Process(ghost done: seq<Byte>)
      requires Shape() && |done| % 64 == 0 && HashValue() == Fold(done)
      modifies this`A, this`B, this`C, this`D, this`E, this`cursor, H, W
      ensures Shape() && cursor == 0 && Buffered() == []
      ensures HashValue() == Fold(AppendBlock(done, old(M())))
    {
      hide Fold, Sum, Rounds, BytesOf, Plus;
      ghost var st, block := HashValue(), M();
      MakeSchedule();
      RunRounds(block);
      FoldAppend(done, block);
      SumCommutes(State(A, B, C, D, E), st);

      H[0] := Plus(H[0], A);
      H[1] := Plus(H[1], B);
      H[2] := Plus(H[2], C);
      H[3] := Plus(H[3], D);
      H[4] := Plus(H[4], E);

      cursor := 0;
    }

    // Steps a and b: the bytes of the block become the words of the schedule, in place.
    method MakeSchedule()
      requires Shape()
      modifies W
      ensures forall k :: 0 <= k < 80 ==> W[k] == Schedule(old(M()), k)
    {
      hide LEOfWord, WordOfLE, WordOfBE, SwapEnds, RotateLeft, Xor4, BytesOf;
      ghost var w0 := W[..];
      ghost var block := M();
      for t := 0 to 16
        invariant forall k :: 0 <= k < t ==> W[k] == Schedule(block, k)
        invariant forall k :: t <= k < 16 ==> W[k] == w0[k]
      {
        WordInBlock(w0, t);
        W[t] := SwapEnds(W[t]);
      }
      for t := 16 to 80
        invariant forall k :: 0 <= k < t ==> W[k] == Schedule(block, k)
      {
        W[t] := RotateLeft(Xor4(W[t - 3], W[t - 8], W[t - 14], W[t - 16]), 1);
      }
    }

    // Steps c and d.
    method RunRounds(ghost block: seq<Byte>)
      requires Shape() && |block| == 64
      requires forall k :: 0 <= k < 80 ==> W[k] == Schedule(block, k)
      modifies this`A, this`B, this`C, this`D, this`E
      ensures State(A, B, C, D, E) == Rounds(HashValue(), 80, block)
    {
      hide Schedule, Plus, RotateLeft, F, Logical;
      A, B, C, D, E := H[0], H[1], H[2], H[3], H[4];
      for t := 0 to 80
        invariant State(A, B, C, D, E) == Rounds(HashValue(), t, block)
      {
        FIsLogical(t, B, C, D);
        SumsAgree(RotateLeft(A, 5), F(t, B, C, D), E, W[t], Constant(t));
        var temp := Plus(Plus(Plus(Plus(RotateLeft(A, 5), F(t, B, C, D)), E), W[t]), Constant(t));
        E := D;
        D := C;
        C := RotateLeft(B, 30);
        B := A;
        A := temp;
      }
    }

    // One turn of the loop of Update; l is a uint64.
    method UpdateByte(b: Byte)
      requires Valid()
      modifies this, H, W
      ensures Valid() && msg == old(msg) + [b]
    {
      hide Represents, Fold, Blocks, Rest, BytesOf, AppendBlock, Buffered, M;
      OneMoreByte(msg, HashValue(), Buffered(), cursor, l, b);
      PutNext(b);
      if cursor >= 64 {
        Process(Blocks(msg));
      }
      msg := msg + [b];
      l := (l + 8) % 0x1_0000_0000_0000_0000;
    }

    method Update(data: seq<Byte>)
      requires Valid()
      modifies this, H, W
      ensures Valid() && msg == old(msg) + data
    {
      hide Fold, Blocks, Rest, BytesOf;
      ghost var before := msg;
      for n := 0 to |data|
        invariant Valid() && msg == before + data[..n]
      {
        assert data[..n] + [data[n]] == data[..n + 1];
        UpdateByte(data[n]);
      }
      assert data[..|data|] == data;
    }

    // M[cursor++] = b
    method Append(b: Byte)
      requires Shape() && cursor < 64
      modifies this`cursor, W
      ensures Shape() && cursor == old(cursor) + 1
      ensures M()[..cursor] == old(M()[..cursor]) + [b]
    {
      Put(cursor, b);
      cursor := cursor + 1;
    }

    method FillWithZeros(end: nat)
      requires Shape() && cursor <= end <= 64
      modifies this`cursor, W
      ensures Shape() && cursor == end
      ensures M()[..end] == old(M()[..cursor]) + Zeros(end - old(cursor))
    {
      ghost var start, head := cursor, M()[..cursor];
      while cursor < end
        invariant Shape() && start <= cursor <= end
        invariant M()[..cursor] == head + Zeros(cursor - start)
      {
        Append(0);
        assert Zeros(cursor - start) == Zeros(cursor - 1 - start) + [0];
      }
    }

    method AppendLength()
      requires Shape() && cursor == 56 && l < 0x1_0000_0000_0000_0000
      modifies this`cursor, W
      ensures Shape() && cursor == 64
      ensures M() == old(M()[..56]) + LengthBytes(l)
    {
      ghost var head := M()[..56];
      for k := 0 to 8
        invariant Shape() && cursor == 56 + k
        invariant M()[..cursor] == head + LengthBytes(l)[..k]
      {
        Append(ByteOfInt(l, 7 - k));
      }
    }

    // The padding; the last block is left in the buffer for Final to process.
    method Pad() returns (ghost done: seq<Byte>)
      requires Valid()
      modifies this`A, this`B, this`C, this`D, this`E, this`cursor, H, W
      ensures Shape() && |done| % 64 == 0
      ensures HashValue() == Fold(done) && Padded(msg) == AppendBlock(done, M())
    {
      hide Fold, Padded, BytesOf, LengthBytes, Blocks, Rest;
      ghost var count := 63 - cursor;
      done := Blocks(msg);
      Append(0x80);
      if cursor > 64 - 8 {
        FillWithZeros(64);
        assert M() == M()[..64] == Rest(msg) + [0x80] + Zeros(count);
        Process(done);
        done := AppendBlock(done, Rest(msg) + [0x80] + Zeros(count));
        FillWithZeros(64 - 8);
        assert M()[..56] == Zeros(56);
        PaddedInTwo(msg, done, count);
      } else {
        FillWithZeros(64 - 8);
        assert M()[..56] == Rest(msg) + [0x80] + Zeros(count - 8);
        PaddedInOne(msg, count);
      }
      LengthModulo(8 * |msg|);
      AppendLength();
    }

    method Final()
      requires Valid()
      modifies this`A, this`B, this`C, this`D, this`E, this`cursor, H, W
      ensures Shape() && DigestBytes() == Digest(msg)
    {
      hide Fold, Padded, SwapEnds, LEOfWord, BEOfWord;
      ghost var done := Pad();
      Process(done);
      ghost var st := H[..];
      for t := 0 to 5
        invariant Shape()
        invariant forall k :: 0 <= k < 5 ==> H[k] == if k < t then SwapEnds(st[k]) else st[k]
      {
        H[t] := SwapEnds(H[t]);
      }
      forall k | 0 <= k < 5
        ensures LEOfWord(H[k]) == BEOfWord(st[k])
      {
        SwappedInMemory(st[k]);
      }
    }
  }

  /** Any message, cut in any way into pieces: the digest is the FIPS 180-3 digest of the
      concatenation. */
  method HashPieces(pieces: seq<seq<Byte>>) returns (digest: seq<Byte>)
    ensures digest == Digest(Concat(pieces))
  {
    hide Digest, Fold, Blocks, Rest, BytesOf;
    var sha := new SecureHashAlgorithm.Init();
    for k := 0 to |pieces|
      invariant sha.Valid() && sha.msg == Concat(pieces[..k])
      invariant fresh(sha) && fresh(sha.H) && fresh(sha.W)
    {
      sha.Update(pieces[k]);
      assert pieces[..k + 1][..k] == pieces[..k];
    }
    assert pieces[..|pieces|] == pieces;
    sha.Final();
    digest := sha.ReadDigest();
  }

  // SHA1HashBytes
  method HashBytes(data: seq<Byte>) returns (hash: seq<Byte>)
    ensures hash == Digest(data)
  {
    hide Digest, Fold, Blocks, Rest, BytesOf;
    var sha := new SecureHashAlgorithm.Init();
    sha.Update(data);
    assert [] + data == data;
    sha.Final();
    hash := sha.ReadDigest();
  }
}
