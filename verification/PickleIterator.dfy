/** base/pickle.cc: PickleIterator, the reader of a payload; what it reads from a pickle that
    was written with typed values; and the search for pickle boundaries in a byte stream. */
module PickleIterators {
  import opened Bits
  import opened Options
  import opened PickleFormat
  import opened Pickles
  import opened Words

  lemma IntNeedsBytes(p: seq<Byte>, index: nat)
    requires index <= |p| && ReadInt(p, index).0.Some?
    ensures index + 4 <= |p|
  {
  }

  // Only an empty block of bytes can be read from an empty payload.
  lemma NothingToRead(t: Type, p: seq<Byte>)
    requires p == []
    ensures Read(t, p, 0).1 == 0 && (Read(t, p, 0).0.Some? ==> t == TBytes(0))
  {
  }

  class PickleIterator {
    const block: array?<Byte>  // the memory that payload_ points into, or null
    const start: nat           // where the payload starts in it
    const endIndex: nat
    var readIndex: nat

    ghost predicate Valid()
      reads this, block
    {
      && readIndex <= endIndex
      && if block == null then endIndex == 0 else start + endIndex <= block.Length
    }

    ghost function P(): (p: seq<Byte>)
      requires Valid()
      reads this, block
      ensures |p| == endIndex
    {
      if block == null then [] else block[start..start + endIndex]
    }

    constructor (pickle: Pickle)
      requires pickle.Valid()
      ensures Valid() && readIndex == 0 && P() == pickle.Payload() && block == pickle.header
    {
      block := pickle.header;
      start := pickle.headerSize;
      endIndex := if pickle.header == null then 0 else SizeField(pickle.header[..]);
      readIndex := 0;
    }

    method Advance(size: nat)
      requires Valid()
      modifies this
      ensures Valid() && readIndex == Advanced(endIndex, old(readIndex), size)
    {
      hide Align;
      var alignedSize := Align(size, 4);
      if endIndex - readIndex < alignedSize {
        readIndex := endIndex;
      } else {
        readIndex := readIndex + alignedSize;
      }
    }

    // GetReadPointerAndAdvance(int): the bytes behind the pointer, or None for NULL. The
    // payload pointer of an unusable pickle is itself NULL.
    method GetReadPointerAndAdvance(count: int) returns (s: Option<seq<Byte>>)
      requires Valid()
      modifies this
      ensures Valid() && readIndex == GetBytes(P(), old(readIndex), count).1
      ensures s == if block == null then None else GetBytes(P(), old(readIndex), count).0
    {
      if count < 0 || endIndex - readIndex < count {
        readIndex := endIndex;
        return None;
      }
      if block == null {
        s := None;
      } else {
        s := Some(block[start + readIndex..start + readIndex + count]);
        ghost var p := P();
        assert forall k :: 0 <= k < count ==> p[readIndex + k] == s.value[k];
        assert p[readIndex..readIndex + count] == s.value;
      }
      Advance(count);
    }

    // ReadBuiltinType<Type>, ReadFloat and ReadDouble.
    method ReadBuiltinType(t: Type) returns (v: Option<Value>)
      requires Valid() && IsFixed(t)
      modifies this
      ensures Valid() && (v, readIndex) == Read(t, P(), old(readIndex))
    {
      hide FixedValue;
      var s := GetReadPointerAndAdvance(Fixed(t));
      v := if s.Some? then Some(FixedValue(t, s.value)) else None;
    }

    method ReadAnInt() returns (i: Option<int>)
      requires Valid()
      modifies this
      ensures Valid() && (i, readIndex) == ReadInt(P(), old(readIndex))
    {
      var v := ReadBuiltinType(TInt);
      i := if v.Some? then Some(v.value.i) else None;
    }

    // The overload with an element size: it returns before it touches the cursor when the
    // number of bytes is no int.
    method GetElementsAndAdvance(count: int, size: nat) returns (s: Option<seq<Byte>>)
      requires Valid()
      modifies this
      ensures Valid() && readIndex == GetElements(P(), old(readIndex), count, size).1
      ensures s == if block == null then None else GetElements(P(), old(readIndex), count, size).0
    {
      var numBytes := count * size;
      if !(-INT_LIMIT <= numBytes < INT_LIMIT) {
        return None;
      }
      s := GetReadPointerAndAdvance(numBytes);
    }

    // ReadString and ReadStringPiece.
    method ReadString() returns (v: Option<Value>)
      requires Valid()
      modifies this
      ensures Valid() && (v, readIndex) == Read(TString, P(), old(readIndex))
    {
      var s := ReadCountedBytes();
      v := if s.Some? then Some(VString(s.value)) else None;
    }

    // ReadData.
    method ReadData() returns (v: Option<Value>)
      requires Valid()
      modifies this
      ensures Valid() && (v, readIndex) == Read(TData, P(), old(readIndex))
    {
      var s := ReadCountedBytes();
      v := if s.Some? then Some(VData(s.value)) else None;
    }

    method ReadCountedBytes() returns (s: Option<seq<Byte>>)
      requires Valid()
      modifies this
      ensures Valid() && (s, readIndex) == ReadCounted(P(), old(readIndex), 1)
    {
      hide GetBytes, Number, Signed;
      ghost var from := readIndex;
      var len := ReadAnInt();
      if len.None? {
        return None;
      }
      IntNeedsBytes(P(), from);
      s := GetReadPointerAndAdvance(len.value);
    }

    // ReadString16 and ReadStringPiece16.
    method ReadString16() returns (v: Option<Value>)
      requires Valid()
      modifies this
      ensures Valid() && (v, readIndex) == Read(TString16, P(), old(readIndex))
    {
      hide GetElements, BytesToUnits, Number, Signed;
      ghost var from := readIndex;
      var len := ReadAnInt();
      if len.None? {
        return None;
      }
      IntNeedsBytes(P(), from);
      var s := GetElementsAndAdvance(len.value, 2);
      v := if s.Some? then Some(VString16(BytesToUnits(s.value))) else None;
    }

    // ReadBytes: reading nothing from an unusable pickle fails as well.
    method ReadBytes(count: int) returns (v: Option<Value>)
      requires Valid()
      modifies this
      ensures Valid() && readIndex == Read(TBytes(count), P(), old(readIndex)).1
      ensures v == if block == null then None else Read(TBytes(count), P(), old(readIndex)).0
    {
      var s := GetReadPointerAndAdvance(count);
      v := if s.Some? then Some(VBytes(s.value)) else None;
    }

    // Every read of an unusable pickle fails.
    method ReadTyped(t: Type) returns (v: Option<Value>)
      requires Valid()
      modifies this
      ensures Valid() && readIndex == Read(t, P(), old(readIndex)).1
      ensures v == if block == null then None else Read(t, P(), old(readIndex)).0
    {
      if block == null {
        NothingToRead(t, P());
      }
      hide Read;
      match t
      case TString => v := ReadString();
      case TString16 => v := ReadString16();
      case TData => v := ReadData();
      case TBytes(count) => v := ReadBytes(count);
      case _ => v := ReadBuiltinType(t);
    }

    method ReadTypes(ts: seq<Type>) returns (vs: seq<Option<Value>>)
      requires Valid()
      modifies this
      ensures Valid() && readIndex == ReadAll(ts, P(), old(readIndex)).1
      ensures vs == if block == null then seq(|ts|, _ => None) else ReadAll(ts, P(), old(readIndex)).0
      decreases |ts|
    {
      hide Read;
      if ts == [] {
        return [];
      }
      var v := ReadTyped(ts[0]);
      var rest := ReadTypes(ts[1..]);
      return [v] + rest;
    }
  }

  /** Every sequence of typed values, written to a fresh pickle and read back with the same
      types, comes back unchanged; one more int is then refused. */
  method RoundTrip(headerSize: nat, vs: seq<Value>) returns (read: seq<Option<Value>>, more: Option<int>)
    requires 4 <= headerSize <= PAYLOAD_UNIT
    requires forall k :: 0 <= k < |vs| ==> InRange(vs[k])
    requires |EncodeAll(vs)| <= UINT32_MAX
    ensures read == Somes(vs) && more == None
  {
    hide Encode, EncodeAll, Read, ReadAll, SizeField, PayloadOf, UserHeaderOf;
    var pickle := WriteFresh(headerSize, vs);
    var reader := new PickleIterator(pickle);
    ReadBackThenFail(vs);
    read := reader.ReadTypes(Types(vs));
    more := reader.ReadAnInt();
  }

  /** A pickle that holds these values. All the bytes that its growth has copied, over all the
      writes, are linear in its payload. */
  method WriteFresh(headerSize: nat, vs: seq<Value>) returns (pickle: Pickle)
    requires 4 <= headerSize <= PAYLOAD_UNIT
    requires forall k :: 0 <= k < |vs| ==> InRange(vs[k])
    requires |EncodeAll(vs)| <= UINT32_MAX
    ensures fresh(pickle) && pickle.Appends() && pickle.Payload() == EncodeAll(vs)
    ensures pickle.copied <= 8 * |EncodeAll(vs)| + 16380 && pickle.capacity <= 2 * |EncodeAll(vs)| + 4095
  {
    hide Encode, EncodeAll, SizeField, PayloadOf, UserHeaderOf;
    pickle := new Pickle(headerSize);
    pickle.WriteAll(vs);
    assert [] + EncodeAll(vs) == EncodeAll(vs);
  }

  /** The bytes of a pickle, sent elsewhere, are a pickle with the same header and payload. */
  method Transport(pickle: Pickle) returns (received: Pickle)
    requires pickle.Valid() && pickle.header != null
    requires pickle.headerSize + pickle.PayloadSize() < INT_LIMIT
    ensures received.Valid() && received.header != null && received.headerSize == pickle.headerSize
    ensures received.IsReadOnly()
    ensures received.Payload() == pickle.Payload() && received.UserHeader() == pickle.UserHeader()
  {
    var size := pickle.headerSize + SizeField(pickle.header[..]);
    hide SizeField;
    var data := new Byte[size];
    ghost var was := pickle.header[..];
    forall k | 0 <= k < size {
      data[k] := pickle.header[k];
    }
    CopiedBlock(was, data[..], pickle.headerSize);
    received := new Pickle.ReadOnly(data);
  }

  /** What is written to a copy of a pickle is appended exactly if the pickle's own write
      offset was at its end. Of a pickle that was only written to, it was; of a read-only pickle
      it was not unless there is no payload, and then the write starts over. */
  method WriteToCopy(original: Pickle, i: int) returns (copy: Pickle)
    requires original.Writable() || original.IsReadOnly()
    requires original.header != null && InRange(VInt(i)) && original.writeOffset + 4 <= UINT32_MAX
    ensures fresh(copy) && copy.Writable()
    ensures copy.Payload() == original.Payload() + Encode(VInt(i)) <==> original.writeOffset == original.PayloadSize()
    ensures original.Appends() ==> copy.Payload() == original.Payload() + Encode(VInt(i))
    ensures original.IsReadOnly() ==> copy.Payload() == Encode(VInt(i))
    ensures original.IsReadOnly() ==>
      (copy.Payload() == original.Payload() + Encode(VInt(i)) <==> original.Payload() == [])
  {
    hide SizeField, PayloadOf, UserHeaderOf, ZeroPadded, IntBytes;
    copy := new Pickle.Copy(original);
    copy.WriteInt(i);
    AppendsAtEnd(original.Payload(), original.writeOffset, IntBytes(i));
  }

  lemma AppendsAtEnd(payload: seq<Byte>, writeOffset: nat, data: seq<Byte>)
    requires writeOffset <= |payload|
    ensures payload[..writeOffset] + data == payload + data <==> writeOffset == |payload|
    ensures writeOffset == 0 ==> payload[..writeOffset] + data == data
  {
    if writeOffset == |payload| {
      assert payload[..writeOffset] == payload;
    } else {
      assert |payload[..writeOffset] + data| < |payload + data|;
    }
  }

  /** An int is sent in a pickle and another one written to a copy of what was received: of the
      first one nothing is left. */
  method SecondIntReplacesFirst(i: int, j: int) returns (copy: Pickle)
    requires InRange(VInt(i)) && InRange(VInt(j))
    ensures copy.Writable() && copy.Payload() == Encode(VInt(j))
  {
    hide SizeField, PayloadOf, UserHeaderOf, ZeroPadded, IntBytes;
    var sent := new Pickle(4);
    sent.WriteInt(i);
    var received := Transport(sent);
    assert received.Payload() == Encode(VInt(i));
    copy := WriteToCopy(received, j);
  }

  // ----- pickles in a stream of bytes; sizeMax is the largest size_t

  function PeekNext(headerSize: nat, range: seq<Byte>, sizeMax: nat): (size: Option<nat>)
    requires 4 <= headerSize <= sizeMax
  {
    if |range| < 4 then None
    else if |range| < headerSize then None
    else if SizeField(range) > sizeMax - headerSize then Some(sizeMax)
    else Some(headerSize + SizeField(range))
  }

  function FindNext(headerSize: nat, range: seq<Byte>, sizeMax: nat): (next: Option<nat>)
    requires 4 <= headerSize <= sizeMax
    ensures next.Some? ==> next.value <= |range|
    ensures next.Some? && |range| < sizeMax ==> next.value >= headerSize
  {
    var size := PeekNext(headerSize, range, sizeMax);
    if size.None? || size.value > |range| then None else size
  }

  // The bytes of one whole pickle.
  predicate IsPickle(s: seq<Byte>, headerSize: nat)
    requires 4 <= headerSize
  {
    headerSize <= |s| && |s| == headerSize + SizeField(s)
  }

  /** FindNext finds n exactly when the first n bytes are a whole pickle. */
  lemma FindNextIsBoundary(headerSize: nat, range: seq<Byte>, sizeMax: nat, n: nat)
    requires 4 <= headerSize <= sizeMax && |range| < sizeMax
    ensures FindNext(headerSize, range, sizeMax) == Some(n) <==> n <= |range| && IsPickle(range[..n], headerSize)
  {
    hide SizeField;
    if n <= |range| && n >= 4 {
      SameSize(range, n);
    }
  }

  lemma SameSize(range: seq<Byte>, n: nat)
    requires 4 <= n <= |range|
    ensures SizeField(range[..n]) == SizeField(range)
  {
    assert range[..n][..4] == range[..4];
  }

  function ConcatAll(pickles: seq<seq<Byte>>): seq<Byte> {
    if pickles == [] then [] else pickles[0] + ConcatAll(pickles[1..])
  }

  // The lengths that repeated FindNext calls report, up to the first NULL.
  function Walk(headerSize: nat, range: seq<Byte>, sizeMax: nat): (sizes: seq<nat>)
    requires 4 <= headerSize <= sizeMax && |range| < sizeMax
    decreases |range|
  {
    match FindNext(headerSize, range, sizeMax)
    case None => []
    case Some(n) => [n] + Walk(headerSize, range[n..], sizeMax)
  }

  /** Walking a concatenation of pickles stops exactly at each boundary, and an incomplete
      pickle at the end is not reported. */
  lemma {:induction false} WalkFindsAll(headerSize: nat, pickles: seq<seq<Byte>>, tail: seq<Byte>, sizeMax: nat)
    requires 4 <= headerSize <= sizeMax && |ConcatAll(pickles) + tail| < sizeMax
    requires forall k :: 0 <= k < |pickles| ==> IsPickle(pickles[k], headerSize)
    requires forall n :: 0 <= n <= |tail| ==> !IsPickle(tail[..n], headerSize)
    ensures Walk(headerSize, ConcatAll(pickles) + tail, sizeMax)
      == seq(|pickles|, k requires 0 <= k < |pickles| => |pickles[k]|)
  {
    hide SizeField, FindNext;
    var range := ConcatAll(pickles) + tail;
    if pickles == [] {
      assert range == tail;
      var next := FindNext(headerSize, range, sizeMax);
      if next.Some? {
        FindNextIsBoundary(headerSize, range, sizeMax, next.value);
      }
    } else {
      var n := |pickles[0]|;
      assert range[..n] == pickles[0];
      FindNextIsBoundary(headerSize, range, sizeMax, n);
      assert range[n..] == ConcatAll(pickles[1..]) + tail;
      WalkFindsAll(headerSize, pickles[1..], tail, sizeMax);
    }
  }

  /** A proper prefix of a pickle has no whole pickle at its start. */
  lemma PrefixIsIncomplete(pickle: seq<Byte>, headerSize: nat, k: nat, n: nat)
    requires 4 <= headerSize && IsPickle(pickle, headerSize) && n <= k < |pickle|
    ensures !IsPickle(pickle[..k][..n], headerSize)
  {
    assert pickle[..k][..n] == pickle[..n];
    if headerSize <= n {
      SameSize(pickle, n);
    }
  }
}
