/** base/pickle.cc and base/pickle.h: a growable buffer of typed values behind a header that
    holds the payload size, its iterator, and the search for the next pickle in a stream. */
module Pickles {
  import opened Bits
  import opened Words
  import opened PickleFormat

  const PAYLOAD_UNIT: nat := 64
  const READ_ONLY: nat := 0xffff_ffff_ffff_ffff  // kCapacityReadOnly
  const UINT32_MAX: nat := 0xffff_ffff

  // The payload size, in the first four bytes of a header.
  function SizeField(block: seq<Byte>): (n: nat)
    requires |block| >= 4
    ensures n <= UINT32_MAX
  {
    BytesOfNumber(block[..4]);
    Widths();
    Number(block[..4])
  }

  lemma SizeFieldStored(n: nat, rest: seq<Byte>)
    requires n <= UINT32_MAX
    ensures SizeField(LEBytes(n, 4) + rest) == n
  {
    Widths();
    NumberOfBytes(n, 4);
    assert (LEBytes(n, 4) + rest)[..4] == LEBytes(n, 4);
  }

  // A write at the write offset, as it changes the payload.
  function Overwritten(payload: seq<Byte>, offset: nat, data: seq<Byte>): seq<Byte>
    requires offset <= |payload|
  {
    payload[..offset] + ZeroPadded(data)
  }

  // A header of headerSize bytes, and behind it at least the payload that it announces.
  predicate IsBlock(block: seq<Byte>, headerSize: nat) {
    4 <= headerSize <= |block| && headerSize + SizeField(block) <= |block|
  }

  // The payload of a block, and what users keep in a header larger than Pickle::Header.
  function PayloadOf(block: seq<Byte>, headerSize: nat): (p: seq<Byte>)
    requires IsBlock(block, headerSize)
    ensures |p| == SizeField(block)
  {
    block[headerSize..headerSize + SizeField(block)]
  }

  function UserHeaderOf(block: seq<Byte>, headerSize: nat): seq<Byte>
    requires 4 <= headerSize <= |block|
  {
    block[4..headerSize]
  }

  // A block that continues another one has its header and its payload.
  lemma SameBlock(was: seq<Byte>, now: seq<Byte>, headerSize: nat)
    requires |was| <= |now| && now[..|was|] == was && IsBlock(was, headerSize)
    ensures IsBlock(now, headerSize) && SizeField(now) == SizeField(was)
    ensures PayloadOf(now, headerSize) == PayloadOf(was, headerSize)
    ensures UserHeaderOf(now, headerSize) == UserHeaderOf(was, headerSize)
  {
    forall k | 0 <= k < |was|
      ensures now[k] == was[k]
    {
      assert now[k] == now[..|was|][k];
    }
    assert now[..4] == was[..4];
  }

  // A block into which the header and payload of another one were copied.
  lemma CopiedBlock(was: seq<Byte>, now: seq<Byte>, headerSize: nat)
    requires IsBlock(was, headerSize) && headerSize + SizeField(was) <= |now|
    requires forall k :: 0 <= k < headerSize + SizeField(was) ==> now[k] == was[k]
    ensures IsBlock(now, headerSize) && SizeField(now) == SizeField(was)
    ensures PayloadOf(now, headerSize) == PayloadOf(was, headerSize)
    ensures UserHeaderOf(now, headerSize) == UserHeaderOf(was, headerSize)
  {
    assert now[..4] == was[..4];
  }

  // Data that the read-only constructor takes for a pickle.
  predicate AcceptsData(data: seq<Byte>) {
    |data| >= 4 && SizeField(data) < |data| && (|data| - SizeField(data)) % 4 == 0
  }

  // The block after the data and then the new size are stored into it.
  lemma StoredBlock(block: seq<Byte>, headerSize: nat, offset: nat, data: seq<Byte>,
        size: nat, filled: seq<Byte>, after: seq<Byte>)
    requires IsBlock(block, headerSize) && offset <= SizeField(block)
    requires size == offset + |ZeroPadded(data)| <= UINT32_MAX && headerSize + size <= |block|
    requires filled == block[..headerSize + offset] + ZeroPadded(data) + block[headerSize + size..]
    requires after == LEBytes(size, 4) + filled[4..]
    ensures |after| == |block| && IsBlock(after, headerSize) && SizeField(after) == size
    ensures PayloadOf(after, headerSize) == Overwritten(PayloadOf(block, headerSize), offset, data)
    ensures UserHeaderOf(after, headerSize) == UserHeaderOf(block, headerSize)
  {
    hide ZeroPadded, LEBytes, SizeField;
    SizeFieldStored(size, filled[4..]);
    assert after == LEBytes(size, 4) + filled[4..];
    Middle(block, headerSize, offset, ZeroPadded(data), filled, LEBytes(size, 4));
    assert PayloadOf(block, headerSize)[..offset] == block[headerSize..headerSize + offset];
  }

  lemma Middle(block: seq<Byte>, headerSize: nat, offset: nat, data: seq<Byte>, filled: seq<Byte>, first: seq<Byte>)
    requires |first| == 4 <= headerSize && headerSize + offset + |data| <= |block|
    requires filled == block[..headerSize + offset] + data + block[headerSize + offset + |data|..]
    ensures var after := first + filled[4..];
      && after[headerSize..headerSize + offset + |data|] == block[headerSize..headerSize + offset] + data
      && after[4..headerSize] == block[4..headerSize]
  {
    var after := first + filled[4..];
    assert after[headerSize..headerSize + offset + |data|] == filled[headerSize..headerSize + offset + |data|];
    assert after[4..headerSize] == filled[4..headerSize];
  }

  // The capacity after a write that needs `size` bytes of payload.
  function Grown(capacity: nat, size: nat): (c: nat)
    ensures c >= size && c >= capacity && (c == capacity || c >= 2 * capacity - 64)
    ensures capacity % 64 == 0 ==> c % 64 == 0
    ensures c == capacity || (size > capacity && c <= 2 * size + 4095)
    ensures 0 < capacity <= 2048 && c != capacity ==> c >= 2 * capacity
  {
    if size <= capacity then capacity
    else
      var doubled := 2 * capacity;
      var wanted := if doubled > 4096 then Align(doubled, 4096) - PAYLOAD_UNIT else doubled;
      Align(if wanted < size then size else wanted, PAYLOAD_UNIT)
  }

  lemma AlignedToUnit(n: nat)
    ensures n <= Align(n, PAYLOAD_UNIT) < n + PAYLOAD_UNIT && Align(n, PAYLOAD_UNIT) % PAYLOAD_UNIT == 0
  {
  }

  class Pickle {
    var header: array?<Byte>  // the block that header_ points to, or null
    var headerSize: nat
    var capacity: nat         // capacity_after_header_
    var writeOffset: nat
    ghost var copied: nat     // bytes moved when the block grew

    ghost predicate Valid()
      reads this, header
    {
      header != null ==>
        headerSize % 4 == 0 && IsBlock(header[..], headerSize)
    }

    ghost function PayloadSize(): nat
      requires Valid()
      reads this, header
    {
      if header == null then 0 else SizeField(header[..])
    }

    ghost function Payload(): (p: seq<Byte>)
      requires Valid()
      reads this, header
      ensures |p| == PayloadSize()
    {
      if header == null then [] else PayloadOf(header[..], headerSize)
    }

    ghost function UserHeader(): seq<Byte>
      requires Valid() && header != null
      reads this, header
    {
      UserHeaderOf(header[..], headerSize)
    }

    // A pickle that owns its block and may be written to.
    ghost predicate Writable()
      reads this, header
    {
      && Valid() && header != null
      && header.Length == headerSize + capacity
      && capacity % PAYLOAD_UNIT == 0 && capacity < 0x4_0000_0000
      && writeOffset <= PayloadSize()
      && (headerSize <= PAYLOAD_UNIT ==> copied <= 4 * capacity)
    }

    // A pickle that refers to the data of somebody else.
    ghost predicate IsReadOnly()
      reads this, header
    {
      Valid() && capacity == READ_ONLY && writeOffset == 0
    }

    // The next write goes behind everything that is in the payload.
    ghost predicate Appends()
      reads this, header
    {
      Writable() && writeOffset == PayloadSize() && writeOffset % 4 == 0
    }

    // Pickle(int header_size); Pickle() is the case of four bytes.
    constructor (size: nat)
      requires 4 <= size <= PAYLOAD_UNIT
      ensures Lean() && Payload() == [] && fresh(header)
      ensures headerSize == Align(size, 4) && copied == 0
    {
      headerSize := Align(size, 4);
      writeOffset := 0;
      copied := 0;
      var block := new Byte[Align(size, 4) + PAYLOAD_UNIT];
      block[0], block[1], block[2], block[3] := 0, 0, 0, 0;
      header := block;
      capacity := PAYLOAD_UNIT;
      new;
      assert header[..] == LEBytes(0, 4) + header[4..];
      SizeFieldStored(0, header[4..]);
    }

    // realloc to hold the header and the aligned capacity.
    method Resize(newCapacity: nat)
      requires capacity != READ_ONLY
      modifies this`header, this`capacity
      ensures header != null && fresh(header) && capacity == Align(newCapacity, PAYLOAD_UNIT)
      ensures header.Length == headerSize + capacity
      ensures old(header) != null ==>
        var n := if old(header.Length) < header.Length then old(header.Length) else header.Length;
        header[..n] == old(header[..n])
    {
      capacity := Align(newCapacity, PAYLOAD_UNIT);
      var block := new Byte[headerSize + capacity];
      if header != null {
        var n := if header.Length < block.Length then header.Length else block.Length;
        forall k | 0 <= k < n {
          block[k] := header[k];
        }
        assert block[..n] == header[..n];
      }
      header := block;
    }

    // The growth step of WriteBytesCommon.
    method Grow(size: nat)
      requires Writable() && size <= UINT32_MAX
      modifies this`header, this`capacity, this`copied
      ensures Writable() && capacity == Grown(old(capacity), size)
      ensures header == old(header) || fresh(header)
      ensures Payload() == old(Payload()) && UserHeader() == old(UserHeader())
      ensures header != old(header) ==> copied == old(copied) + headerSize + old(capacity)
    {
      hide Align, SizeField, Number, PayloadOf, UserHeaderOf;
      if size > capacity {
        var newCapacity := capacity * 2;
        if newCapacity > 4096 {
          newCapacity := Align(newCapacity, 4096) - PAYLOAD_UNIT;
        }
        ghost var was := header[..];
        copied := copied + headerSize + capacity;
        Resize(if newCapacity < size then size else newCapacity);
        assert header[..|was|] == was;
        SameBlock(was, header[..], headerSize);
      }
    }

    method CopyIn(at: nat, data: seq<Byte>)
      requires header != null && at + |data| <= header.Length
      modifies header
      ensures header[..] == old(header[..at]) + data + old(header[at + |data|..])
    {
      forall k | 0 <= k < |data| {
        header[at + k] := data[k];
      }
    }

    // The memcpy and memset of WriteBytesCommon, and its store of the new payload size.
    method Store(data: seq<Byte>, size: nat)
      requires Valid() && header != null && writeOffset <= PayloadSize()
      requires size == writeOffset + |ZeroPadded(data)| <= UINT32_MAX && headerSize + size <= header.Length
      modifies header
      ensures Valid() && PayloadSize() == size
      ensures Payload() == Overwritten(old(Payload()), writeOffset, data)
      ensures UserHeader() == old(UserHeader())
    {
      hide SizeField, Overwritten, ZeroPadded, LEBytes, Number, PayloadOf, UserHeaderOf;
      ghost var block := header[..];
      CopyIn(headerSize + writeOffset, ZeroPadded(data));
      ghost var filled := header[..];
      CopyIn(0, LEBytes(size, 4));
      StoredBlock(block, headerSize, writeOffset, data, size, filled, header[..]);
    }

    method WriteBytesCommon(data: seq<Byte>)
      requires Writable() && writeOffset + Align(|data|, 4) <= UINT32_MAX
      modifies this`header, this`capacity, this`copied, this`writeOffset, header
      ensures Writable() && (header == old(header) || fresh(header))
      ensures Payload() == Overwritten(old(Payload()), old(writeOffset), data)
      ensures writeOffset == PayloadSize() == old(writeOffset) + Align(|data|, 4)
      ensures UserHeader() == old(UserHeader()) && capacity == Grown(old(capacity), writeOffset)
    {
      hide Align, Grown, SizeField, Overwritten, ZeroPadded, Number, PayloadOf, UserHeaderOf;
      var size := writeOffset + Align(|data|, 4);
      Grow(size);
      Store(data, size);
      writeOffset := size;
    }

    // Room for payload has been taken only as needed, behind a header of the usual size.
    ghost predicate Lean()
      reads this, header
    {
      Appends() && headerSize <= PAYLOAD_UNIT && capacity <= 2 * PayloadSize() + 4095
    }

    // The effect of one typed write: data goes to the write offset and ends the payload, all
    // else stays. A pickle that was only written to has its write offset behind its payload.
    twostate predicate Wrote(data: seq<Byte>)
      requires old(Writable())
      reads this, header
    {
      && Writable() && (header == old(header) || fresh(header))
      && Payload() == old(Payload())[..old(writeOffset)] + data && writeOffset == PayloadSize()
      && headerSize == old(headerSize) && UserHeader() == old(UserHeader())
      && (old(writeOffset) % 4 == 0 ==> Appends())
      && (old(Appends()) ==> Payload() == old(Payload()) + data)
      && (old(Lean()) ==> Lean())
    }

    // WriteBytes, and WritePOD with the memory image of the value.
    method WriteBytes(data: seq<Byte>)
      requires Writable() && writeOffset + |ZeroPadded(data)| <= UINT32_MAX
      modifies this, header
      ensures Wrote(ZeroPadded(data))
    {
      hide SizeField, PayloadOf, UserHeaderOf, ZeroPadded, Grown;
      if writeOffset % 4 == 0 {
        WordsAddUp(writeOffset, |ZeroPadded(data)|);
      }
      WriteBytesCommon(data);
    }

    method WriteInt(i: int)
      requires Writable() && InRange(VInt(i)) && writeOffset + 4 <= UINT32_MAX
      modifies this, header
      ensures Wrote(Encode(VInt(i)))
    {
      hide SizeField, PayloadOf, UserHeaderOf, ZeroPadded, IntBytes, Align, Unsigned;
      WholeWords(IntBytes(i));
      WriteBytes(IntBytes(i));
    }

    method WriteBool(b: bool)
      requires Writable() && writeOffset + 4 <= UINT32_MAX
      modifies this, header
      ensures Wrote(Encode(VBool(b)))
    {
      WriteInt(if b then 1 else 0);
    }

    // The other WritePOD instances: an integer or floating-point value of fixed size.
    method WritePOD(v: Value)
      requires Writable() && InRange(v) && IsFixed(TypeOf(v)) && !v.VBool?
      requires writeOffset + |Encode(v)| <= UINT32_MAX
      modifies this, header
      ensures Wrote(Encode(v))
    {
      hide SizeField, PayloadOf, UserHeaderOf, ZeroPadded, Encode, MemoryOf;
      FixedRoundTrip(v);
      WriteBytes(MemoryOf(v));
    }

    method WriteCounted(n: nat, data: seq<Byte>)
      requires Writable() && n < INT_LIMIT && writeOffset + |Counted(n, data)| <= UINT32_MAX
      modifies this, header
      ensures Wrote(Counted(n, data))
    {
      hide SizeField, PayloadOf, UserHeaderOf, ZeroPadded, IntBytes;
      WriteInt(n);
      WriteBytes(data);
      ghost var start := old(Payload())[..old(writeOffset)];
      assert start + IntBytes(n) + ZeroPadded(data) == start + (IntBytes(n) + ZeroPadded(data));
    }

    method WriteString(value: seq<Byte>)
      requires Writable() && InRange(VString(value)) && writeOffset + |Encode(VString(value))| <= UINT32_MAX
      modifies this, header
      ensures Wrote(Encode(VString(value)))
    {
      WriteCounted(|value|, value);
    }

    method WriteString16(value: seq<nat>)
      requires Writable() && InRange(VString16(value)) && writeOffset + |Encode(VString16(value))| <= UINT32_MAX
      modifies this, header
      ensures Wrote(Encode(VString16(value)))
    {
      WriteCounted(|value|, UnitsToBytes(value));
    }

    // A negative length is refused and nothing is written.
    method WriteData(data: seq<Byte>, length: int) returns (ok: bool)
      requires Writable() && length < INT_LIMIT && (0 <= length ==> length == |data|)
      requires writeOffset + |Encode(VData(if length < 0 then [] else data))| <= UINT32_MAX
      modifies this, header
      ensures ok == (0 <= length)
      ensures if ok then Wrote(Encode(VData(data))) else unchanged(this) && unchanged(header)
    {
      if length < 0 {
        return false;
      }
      WriteCounted(length, data);
      return true;
    }

    method Write(v: Value)
      requires Writable() && InRange(v) && writeOffset + |Encode(v)| <= UINT32_MAX
      modifies this, header
      ensures Wrote(Encode(v))
    {
      hide SizeField, PayloadOf, UserHeaderOf, ZeroPadded, IntBytes, LEBytes;
      match v
      case VBool(b) => WriteBool(b);
      case VInt(i) => WriteInt(i);
      case VString(s) => WriteString(s);
      case VString16(u) => WriteString16(u);
      case VData(s) => var ok := WriteData(s, |s|);
      case VBytes(s) => WriteBytes(s);
      case _ => WritePOD(v);
    }

    // Growth at least doubles the capacity, so all the bytes it ever moved for a pickle that
    // began empty are linear in the payload.
    method WriteAll(vs: seq<Value>)
      requires Appends() && forall k :: 0 <= k < |vs| ==> InRange(vs[k])
      requires PayloadSize() + |EncodeAll(vs)| <= UINT32_MAX
      modifies this, header
      ensures Wrote(EncodeAll(vs))
      ensures old(Lean()) ==> copied <= 8 * PayloadSize() + 16380
      decreases |vs|
    {
      hide SizeField, PayloadOf, UserHeaderOf, Encode;
      if vs == [] {
        assert old(Payload())[..old(writeOffset)] + [] == old(Payload()) + [] == old(Payload());
      } else {
        Write(vs[0]);
        WriteAll(vs[1..]);
        assert old(Payload()) + Encode(vs[0]) + EncodeAll(vs[1..])
            == old(Payload()) + (Encode(vs[0]) + EncodeAll(vs[1..]));
      }
    }

    // Reserve: only the capacity may change.
    method Reserve(length: nat)
      requires Writable() && writeOffset + Align(length, 4) <= UINT32_MAX
      modifies this, header
      ensures Writable() && (header == old(header) || fresh(header))
      ensures Payload() == old(Payload()) && UserHeader() == old(UserHeader()) && writeOffset == old(writeOffset)
      ensures capacity >= old(capacity) && writeOffset + length <= capacity
    {
      hide Align, SizeField, PayloadOf, UserHeaderOf;
      var size := writeOffset + Align(length, 4);
      if size > capacity {
        ghost var was := header[..];
        copied := copied + headerSize + capacity;
        Resize(capacity * 2 + size);
        assert header[..|was|] == was;
        SameBlock(was, header[..], headerSize);
      }
    }

    // Pickle(const char* data, int data_len): refers to the data, and accepts it only if the
    // header size that the payload size leaves is positive and aligned.
    constructor ReadOnly(data: array<Byte>)
      requires data.Length < INT_LIMIT
      ensures IsReadOnly()
      ensures header != null <==> AcceptsData(data[..])
      ensures header != null ==> header == data && headerSize == data.Length - SizeField(data[..])
    {
      var size := 0;
      if data.Length >= 4 {
        var field := SizeField(data[..]);
        size := data.Length - field;  // an int less a uint32 wraps modulo 2^32 when negative
        if size < 0 {
          size := size + 0x1_0000_0000;
        }
      }
      if size > data.Length {
        size := 0;
      }
      if size % 4 != 0 {
        size := 0;
      }
      headerSize := size;
      header := if size == 0 then null else data;
      capacity := READ_ONLY;
      writeOffset := 0;
      copied := 0;
    }

    // Resize and memcpy from another pickle, whose header size has been taken over.
    method CopyFrom(other: Pickle)
      requires other != this && capacity != READ_ONLY && headerSize == other.headerSize
      requires other.Valid() && other.header != null
      modifies this`header, this`capacity
      ensures header != null && fresh(header) && headerSize % 4 == 0 && IsBlock(header[..], headerSize)
      ensures header.Length == headerSize + capacity
      ensures capacity % PAYLOAD_UNIT == 0 && capacity < other.PayloadSize() + PAYLOAD_UNIT
      ensures Payload() == other.Payload() && UserHeader() == other.UserHeader()
    {
      ghost var was := other.header[..];
      var size := SizeField(other.header[..]);
      hide SizeField, Align;
      AlignedToUnit(size);
      Resize(size);
      forall k | 0 <= k < headerSize + size {
        header[k] := other.header[k];
      }
      CopiedBlock(was, header[..], headerSize);
    }

    // Pickle(const Pickle& other): a deep copy, with the other's write offset.
    constructor Copy(other: Pickle)
      requires other.Valid() && other.header != null
      requires other.writeOffset <= other.PayloadSize()
      ensures Writable() && fresh(header)
      ensures headerSize == other.headerSize && Payload() == other.Payload() && UserHeader() == other.UserHeader()
      ensures writeOffset == other.writeOffset
      ensures Appends() <==> other.writeOffset == other.PayloadSize() && other.writeOffset % 4 == 0
      ensures Lean() <==> Appends() && headerSize <= PAYLOAD_UNIT
    {
      hide SizeField, Align, PayloadOf, UserHeaderOf;
      header := null;
      headerSize := other.headerSize;
      capacity := 0;
      writeOffset := other.writeOffset;
      copied := 0;
      new;
      CopyFrom(other);
    }

    // operator=, for a source other than this pickle.
    method Assign(other: Pickle)
      requires other != this && Valid() && (header == null ==> capacity == READ_ONLY)
      requires other.Valid() && other.header != null
      requires other.writeOffset <= other.PayloadSize()
      modifies this
      ensures Writable() && fresh(header)
      ensures headerSize == other.headerSize && Payload() == other.Payload() && UserHeader() == other.UserHeader()
      ensures writeOffset == other.writeOffset
      ensures Appends() <==> other.writeOffset == other.PayloadSize() && other.writeOffset % 4 == 0
      ensures Lean() <==> Appends() && headerSize <= PAYLOAD_UNIT
    {
      hide SizeField, Align, PayloadOf, UserHeaderOf;
      if capacity == READ_ONLY {
        header := null;
        capacity := 0;
      }
      if headerSize != other.headerSize {
        header := null;
        headerSize := other.headerSize;
      }
      CopyFrom(other);
      writeOffset := other.writeOffset;
      copied := 0;
    }
  }
}
