/** A message seen as a run of 64-byte blocks followed by an incomplete one, as the
    buffering of the two hash functions sees it. */
module BlockStream {
  import opened Words

  function AppendBlock(data: seq<Byte>, block: seq<Byte>): (s: seq<Byte>)
    requires |data| % 64 == 0 && |block| == 64
    ensures |s| % 64 == 0 && s == data + block
  {
    data + block
  }

  // Where the last, incomplete block of the message starts.
  function Whole(n: nat): (w: nat)
    ensures w <= n && w % 64 == 0 && n - w == n % 64
  {
    n - n % 64
  }

  // The part of the message before its incomplete block, and that block.
  function Blocks(msg: seq<Byte>): (s: seq<Byte>)
    ensures |s| % 64 == 0
  {
    msg[..Whole(|msg|)]
  }

  function Rest(msg: seq<Byte>): (s: seq<Byte>)
    ensures |s| == |msg| % 64
  {
    msg[Whole(|msg|)..]
  }

  lemma StaysInBuffer(msg: seq<Byte>, data: seq<Byte>)
    requires |msg| % 64 + |data| < 64
    ensures |msg + data| % 64 == |msg| % 64 + |data|
    ensures Blocks(msg + data) == Blocks(msg) && Rest(msg + data) == Rest(msg) + data
  {
  }

  lemma FillsBuffer(msg: seq<Byte>, data: seq<Byte>, t: nat)
    requires t == 64 - |msg| % 64 <= |data|
    ensures (|msg| + t) % 64 == 0
    ensures Blocks(msg) + (Rest(msg) + data[..t]) == msg + data[..t]
  {
  }

  lemma EmptyBuffer(msg: seq<Byte>, data: seq<Byte>)
    requires |msg| % 64 == 0
    ensures Blocks(msg) == msg + data[..0]
  {
  }

  lemma OneMoreBlock(msg: seq<Byte>, data: seq<Byte>, pos: nat)
    requires pos + 64 <= |data| && (|msg| + pos) % 64 == 0
    ensures msg + data[..pos] + data[pos..pos + 64] == msg + data[..pos + 64]
  {
  }

  lemma Leftover(msg: seq<Byte>, data: seq<Byte>, pos: nat)
    requires pos <= |data| < pos + 64 && (|msg| + pos) % 64 == 0
    ensures |msg + data| % 64 == |data| - pos
    ensures Blocks(msg + data) == msg + data[..pos] && Rest(msg + data) == data[pos..]
  {
  }

  /** A message handed over in pieces. */
  function Concat(pieces: seq<seq<Byte>>): seq<Byte> {
    if pieces == [] then [] else Concat(pieces[..|pieces| - 1]) + pieces[|pieces| - 1]
  }
}
