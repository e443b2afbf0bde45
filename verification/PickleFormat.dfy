/** What base/pickle.cc writes and reads, on values: the bytes of each typed value on a
    little-endian LP64 machine, and the reader's cursor as a function. */
module PickleFormat {
  import opened Bits
  import opened Options
  import opened Words

  // The element types of the Write* and Read* methods. A float and a double are their
  // bytes; a string16 is a sequence of 16-bit units.
  datatype Type = TBool | TInt | TLong | TUInt16 | TUInt32 | TInt64 | TUInt64 | TSizeT | TFloat | TDouble
    | TString | TString16 | TData | TBytes(count: int)

  datatype Value =
    | VBool(b: bool)
    | VInt(i: int)
    | VLong(i: int)
    | VUInt16(n: nat)
    | VUInt32(n: nat)
    | VInt64(i: int)
    | VUInt64(n: nat)
    | VSizeT(n: nat)
    | VFloat(bytes: seq<Byte>)
    | VDouble(bytes: seq<Byte>)
    | VString(bytes: seq<Byte>)
    | VString16(units: seq<nat>)
    | VData(bytes: seq<Byte>)
    | VBytes(bytes: seq<Byte>)

  const INT_LIMIT := 0x8000_0000

  // A value of its C++ type, short enough for its length to be an int.
  predicate InRange(v: Value) {
    match v
    case VBool(_) => true
    case VInt(i) => -INT_LIMIT <= i < INT_LIMIT
    case VLong(i) => -0x8000_0000_0000_0000 <= i < 0x8000_0000_0000_0000
    case VUInt16(n) => n < 0x1_0000
    case VUInt32(n) => n < 0x1_0000_0000
    case VInt64(i) => -0x8000_0000_0000_0000 <= i < 0x8000_0000_0000_0000
    case VUInt64(n) => n < 0x1_0000_0000_0000_0000
    case VSizeT(n) => n < 0x1_0000_0000_0000_0000
    case VFloat(s) => |s| == 4
    case VDouble(s) => |s| == 8
    case VString(s) => |s| < INT_LIMIT
    case VString16(u) => 2 * |u| < INT_LIMIT && forall k :: 0 <= k < |u| ==> u[k] < 0x1_0000
    case VData(s) => |s| < INT_LIMIT
    case VBytes(s) => |s| < INT_LIMIT
  }

  function TypeOf(v: Value): Type {
    match v
    case VBool(_) => TBool
    case VInt(_) => TInt
    case VLong(_) => TLong
    case VUInt16(_) => TUInt16
    case VUInt32(_) => TUInt32
    case VInt64(_) => TInt64
    case VUInt64(_) => TUInt64
    case VSizeT(_) => TSizeT
    case VFloat(_) => TFloat
    case VDouble(_) => TDouble
    case VString(_) => TString
    case VString16(_) => TString16
    case VData(_) => TData
    case VBytes(s) => TBytes(|s|)
  }

  // ----- little-endian numbers

  function LEBytes(n: nat, width: nat): (s: seq<Byte>)
    ensures |s| == width
  {
    if width == 0 then [] else [n % 256] + LEBytes(n / 256, width - 1)
  }

  function Number(s: seq<Byte>): nat {
    if s == [] then 0 else s[0] + 256 * Number(s[1..])
  }

  lemma {:induction false} NumberOfBytes(n: nat, width: nat)
    requires n < Pow256(width)
    ensures Number(LEBytes(n, width)) == n
  {
    if width == 0 {
    } else {
      assert n / 256 < Pow256(width - 1);
      NumberOfBytes(n / 256, width - 1);
      assert LEBytes(n, width)[1..] == LEBytes(n / 256, width - 1);
    }
  }

  lemma {:induction false} BytesOfNumber(s: seq<Byte>)
    ensures Number(s) < Pow256(|s|) && LEBytes(Number(s), |s|) == s
  {
    if s == [] {
    } else {
      BytesOfNumber(s[1..]);
      FirstByte(s[0], Number(s[1..]));
      assert s == [s[0]] + s[1..];
      hide Number, LEBytes, Pow256;
      LastBytes(s);
    }
  }

  lemma FirstByte(b: Byte, n: nat)
    ensures (b + 256 * n) % 256 == b && (b + 256 * n) / 256 == n
  {
  }

  lemma LastBytes(s: seq<Byte>)
    requires s != []
    ensures Number(s) == s[0] + 256 * Number(s[1..]) && Pow256(|s|) == 256 * Pow256(|s| - 1)
    ensures LEBytes(Number(s), |s|) == [Number(s) % 256] + LEBytes(Number(s) / 256, |s| - 1)
  {
  }

  lemma Widths()
    ensures Pow256(1) == 0x100 && Pow256(2) == 0x1_0000 && Pow256(4) == 0x1_0000_0000
    ensures Pow256(8) == 0x1_0000_0000_0000_0000
  {
    assert Pow256(3) == 0x100_0000 && Pow256(6) == 0x1_0000_0000_0000;
  }

  // Two's complement.
  function Unsigned(i: int, half: int): nat
    requires -half <= i < half
  {
    if i < 0 then i + 2 * half else i
  }

  function Signed(n: nat, half: nat): int {
    if n < half then n else n - 2 * half
  }

  function UnitsToBytes(u: seq<nat>): (s: seq<Byte>)
    ensures |s| == 2 * |u|
  {
    if u == [] then [] else LEBytes(u[0], 2) + UnitsToBytes(u[1..])
  }

  function BytesToUnits(s: seq<Byte>): (u: seq<nat>)
    requires |s| % 2 == 0
    ensures |u| == |s| / 2
  {
    if s == [] then [] else [Number(s[..2])] + BytesToUnits(s[2..])
  }

  lemma {:induction false} UnitsRoundTrip(u: seq<nat>)
    requires forall k :: 0 <= k < |u| ==> u[k] < 0x1_0000
    ensures BytesToUnits(UnitsToBytes(u)) == u
  {
    if u == [] {
    } else {
      Widths();
      NumberOfBytes(u[0], 2);
      UnitsRoundTrip(u[1..]);
      var s := UnitsToBytes(u);
      assert s[..2] == LEBytes(u[0], 2) && s[2..] == UnitsToBytes(u[1..]);
      assert u == [u[0]] + u[1..];
    }
  }

  // ----- writing

  // What WriteBytesCommon appends: the data, zero-padded to a multiple of four bytes.
  function ZeroPadded(data: seq<Byte>): (s: seq<Byte>)
    ensures |s| == Align(|data|, 4) && |s| % 4 == 0
    ensures data <= s
  {
    data + Zeros(Align(|data|, 4) - |data|)
  }

  function IntBytes(i: int): (s: seq<Byte>)
    requires -INT_LIMIT <= i < INT_LIMIT
    ensures |s| == 4
  {
    LEBytes(Unsigned(i, INT_LIMIT), 4)
  }

  function Counted(n: nat, data: seq<Byte>): (s: seq<Byte>)
    requires n < INT_LIMIT
    ensures |s| == 4 + |ZeroPadded(data)| && |s| % 4 == 0
  {
    WordsAddUp(4, |ZeroPadded(data)|);
    IntBytes(n) + ZeroPadded(data)
  }

  const LONG_HALF: nat := 0x8000_0000_0000_0000

  function Encode(v: Value): (s: seq<Byte>)
    requires InRange(v)
    ensures |s| % 4 == 0
  {
    match v
    case VBool(b) => IntBytes(if b then 1 else 0)
    case VInt(i) => IntBytes(i)
    case VLong(i) => LEBytes(Unsigned(i, LONG_HALF), 8)
    case VUInt16(n) => ZeroPadded(LEBytes(n, 2))
    case VUInt32(n) => LEBytes(n, 4)
    case VInt64(i) => LEBytes(Unsigned(i, LONG_HALF), 8)
    case VUInt64(n) => LEBytes(n, 8)
    case VSizeT(n) => LEBytes(n, 8)
    case VFloat(s) => s
    case VDouble(s) => s
    case VString(s) => Counted(|s|, s)
    case VString16(u) => Counted(|u|, UnitsToBytes(u))
    case VData(s) => Counted(|s|, s)
    case VBytes(s) => ZeroPadded(s)
  }

  function EncodeAll(vs: seq<Value>): (s: seq<Byte>)
    requires forall k :: 0 <= k < |vs| ==> InRange(vs[k])
    ensures |s| % 4 == 0
  {
    if vs == [] then []
    else
      var head, tail := Encode(vs[0]), EncodeAll(vs[1..]);
      WordsAddUp(|head|, |tail|);
      head + tail
  }

  lemma WordsAddUp(m: nat, n: nat)
    requires m % 4 == 0 && n % 4 == 0
    ensures (m + n) % 4 == 0
  {
  }

  // ----- the bytes, written out

  lemma {:induction false} ByteAt(n: nat, width: nat, k: nat)
    requires k < width
    ensures LEBytes(n, width)[k] == ByteOfInt(n, k)
  {
    if k == 0 {
      assert Pow256(0) == 1;
    } else {
      ByteAt(n / 256, width - 1, k - 1);
      ByteOfQuotient(n, k - 1);
    }
  }

  lemma Powers()
    ensures Pow256(0) == 1 && Pow256(1) == 0x100 && Pow256(2) == 0x1_0000 && Pow256(3) == 0x100_0000
    ensures Pow256(4) == 0x1_0000_0000 && Pow256(5) == 0x100_0000_0000 && Pow256(6) == 0x1_0000_0000_0000
    ensures Pow256(7) == 0x100_0000_0000_0000
  {
  }

  lemma FourBytes(n: nat)
    ensures LEBytes(n, 4) == [n % 0x100, n / 0x100 % 0x100, n / 0x1_0000 % 0x100, n / 0x100_0000 % 0x100]
  {
    Powers();
    forall k | 0 <= k < 4
      ensures LEBytes(n, 4)[k] == n / Pow256(k) % 0x100
    {
      ByteAt(n, 4, k);
    }
    hide LEBytes, Pow256;
  }

  lemma EightBytes(n: nat)
    ensures LEBytes(n, 8)
         == [n % 0x100, n / 0x100 % 0x100, n / 0x1_0000 % 0x100, n / 0x100_0000 % 0x100, n / 0x1_0000_0000 % 0x100,
             n / 0x100_0000_0000 % 0x100, n / 0x1_0000_0000_0000 % 0x100, n / 0x100_0000_0000_0000 % 0x100]
  {
    Powers();
    forall k | 0 <= k < 8
      ensures LEBytes(n, 8)[k] == n / Pow256(k) % 0x100
    {
      ByteAt(n, 8, k);
    }
    hide LEBytes, Pow256;
  }

  /** An int is written as its four bytes in two's complement, the lowest first. */
  lemma IntIsWritten(i: int)
    requires -0x8000_0000 <= i < 0x8000_0000
    ensures var u := if i < 0 then i + 0x1_0000_0000 else i;
      Encode(VInt(i)) == [u % 0x100, u / 0x100 % 0x100, u / 0x1_0000 % 0x100, u / 0x100_0000 % 0x100]
  {
    hide LEBytes;
    FourBytes(if i < 0 then i + 0x1_0000_0000 else i);
  }

  /** So are a long and an int64, in eight bytes. */
  lemma LongIsWritten(i: int)
    requires InRange(VLong(i))
    ensures var u := if i < 0 then i + 0x1_0000_0000_0000_0000 else i;
      Encode(VLong(i)) == Encode(VInt64(i))
      == [u % 0x100, u / 0x100 % 0x100, u / 0x1_0000 % 0x100, u / 0x100_0000 % 0x100, u / 0x1_0000_0000 % 0x100,
          u / 0x100_0000_0000 % 0x100, u / 0x1_0000_0000_0000 % 0x100, u / 0x100_0000_0000_0000 % 0x100]
  {
    hide LEBytes;
    EightBytes(if i < 0 then i + 0x1_0000_0000_0000_0000 else i);
  }

  /** And the unsigned numbers; a uint16 is padded to four bytes. */
  lemma UnsignedIsWritten(n: nat)
    ensures n < 0x1_0000 ==> Encode(VUInt16(n)) == [n % 0x100, n / 0x100, 0, 0]
    ensures n < 0x1_0000_0000 ==>
      Encode(VUInt32(n)) == [n % 0x100, n / 0x100 % 0x100, n / 0x1_0000 % 0x100, n / 0x100_0000 % 0x100]
    ensures n < 0x1_0000_0000_0000_0000 ==>
      Encode(VUInt64(n)) == Encode(VSizeT(n))
      == [n % 0x100, n / 0x100 % 0x100, n / 0x1_0000 % 0x100, n / 0x100_0000 % 0x100, n / 0x1_0000_0000 % 0x100,
          n / 0x100_0000_0000 % 0x100, n / 0x1_0000_0000_0000 % 0x100, n / 0x100_0000_0000_0000 % 0x100]
  {
    FourBytes(n);
    EightBytes(n);
    if n < 0x1_0000 {
      TwoBytes(n);
      PaddingIs(LEBytes(n, 2));
    }
    hide LEBytes, ZeroPadded;
  }

  lemma TwoBytes(n: nat)
    requires n < 0x1_0000
    ensures LEBytes(n, 2) == [n % 0x100, n / 0x100]
  {
    assert LEBytes(n / 0x100, 1) == [n / 0x100];
  }

  lemma PaddingIs(data: seq<Byte>)
    ensures ZeroPadded(data) == data + Zeros((4 - |data| % 4) % 4)
  {
    hide Zeros, Align;
    var r := Align(|data|, 4) - |data|;
    assert (|data| + r) % 4 == 0 && r < 4;
  }

  /** A bool is a whole int, and a string or data block its length as an int, its bytes, and
      zeros up to a multiple of four. */
  lemma BytesAreWritten(b: bool, s: seq<Byte>)
    requires |s| < INT_LIMIT
    ensures Encode(VBool(b)) == [if b then 1 else 0, 0, 0, 0]
    ensures var n := |s|;
      Encode(VString(s)) == Encode(VData(s))
      == [n % 0x100, n / 0x100 % 0x100, n / 0x1_0000 % 0x100, n / 0x100_0000 % 0x100] + s + Zeros((4 - n % 4) % 4)
    ensures Encode(VBytes(s)) == s + Zeros((4 - |s| % 4) % 4)
  {
    FourBytes(if b then 1 else 0);
    FourBytes(|s|);
    PaddingIs(s);
    hide LEBytes, ZeroPadded, Zeros;
    var n := IntBytes(|s|);
    assert n + (s + Zeros((4 - |s| % 4) % 4)) == n + s + Zeros((4 - |s| % 4) % 4);
  }

  lemma {:induction false} UnitAt(u: seq<nat>, k: nat)
    requires k < |u| && u[k] < 0x1_0000
    ensures UnitsToBytes(u)[2 * k] == u[k] % 0x100 && UnitsToBytes(u)[2 * k + 1] == u[k] / 0x100
  {
    if k == 0 {
      TwoBytes(u[0]);
    } else {
      UnitAt(u[1..], k - 1);
    }
  }

  /** A string16 is the number of its units as an int, two bytes for each unit, and zeros. */
  lemma UnitsAreWritten(u: seq<nat>)
    requires InRange(VString16(u))
    ensures var e, n := Encode(VString16(u)), |u|;
      && e[..4] == [n % 0x100, n / 0x100 % 0x100, n / 0x1_0000 % 0x100, n / 0x100_0000 % 0x100]
      && |e| == 4 + 2 * n + (if n % 2 == 0 then 0 else 2)
      && (forall k :: 0 <= k < n ==> e[4 + 2 * k] == u[k] % 0x100 && e[4 + 2 * k + 1] == u[k] / 0x100)
      && (forall k :: 4 + 2 * n <= k < |e| ==> e[k] == 0)
  {
    var n := |u|;
    UnitsLaidOut(u);
    forall k | 0 <= k < n
      ensures UnitsToBytes(u)[2 * k] == u[k] % 0x100 && UnitsToBytes(u)[2 * k + 1] == u[k] / 0x100
    {
      UnitAt(u, k);
    }
    hide Encode, UnitsToBytes;
    var e, bytes := Encode(VString16(u)), UnitsToBytes(u);
    forall k | 0 <= k < n
      ensures e[4 + 2 * k] == u[k] % 0x100 && e[4 + 2 * k + 1] == u[k] / 0x100
    {
      assert e[4 + 2 * k] == bytes[2 * k] && e[4 + 2 * k + 1] == bytes[2 * k + 1];
    }
  }

  lemma UnitsLaidOut(u: seq<nat>)
    requires InRange(VString16(u))
    ensures var n := |u|;
      Encode(VString16(u))
      == [n % 0x100, n / 0x100 % 0x100, n / 0x1_0000 % 0x100, n / 0x100_0000 % 0x100] + UnitsToBytes(u)
         + Zeros(if n % 2 == 0 then 0 else 2)
  {
    hide Counted, Zeros, UnitsToBytes, LEBytes, ZeroPadded;
    FourBytes(|u|);
    PaddedUnits(u);
    CountedIs(|u|, UnitsToBytes(u), Zeros(if |u| % 2 == 0 then 0 else 2));
  }

  lemma PaddedUnits(u: seq<nat>)
    ensures ZeroPadded(UnitsToBytes(u)) == UnitsToBytes(u) + Zeros(if |u| % 2 == 0 then 0 else 2)
  {
    PaddingOfEven(UnitsToBytes(u), |u|);
    hide *;
  }

  lemma PaddingOfEven(data: seq<Byte>, n: nat)
    requires |data| == 2 * n
    ensures ZeroPadded(data) == data + Zeros(if n % 2 == 0 then 0 else 2)
  {
    hide *;
    PaddingIs(data);
    EvenPadding(n);
  }

  lemma EvenPadding(n: nat)
    ensures (4 - 2 * n % 4) % 4 == if n % 2 == 0 then 0 else 2
  {
  }

  lemma CountedIs(n: nat, data: seq<Byte>, pad: seq<Byte>)
    requires n < INT_LIMIT && ZeroPadded(data) == data + pad
    ensures Counted(n, data) == LEBytes(n, 4) + data + pad
  {
    hide ZeroPadded, LEBytes;
    assert LEBytes(n, 4) + (data + pad) == LEBytes(n, 4) + data + pad;
  }

  // ----- reading: the payload, and the read index before and after

  // PickleIterator::Advance
  function Advanced(end: nat, index: nat, size: nat): (i: nat)
    requires index <= end
    ensures index <= i <= end
  {
    if end - index < Align(size, 4) then end else index + Align(size, 4)
  }

  // GetReadPointerAndAdvance: the bytes at the pointer, or None for NULL.
  function GetBytes(p: seq<Byte>, index: nat, count: int): (r: (Option<seq<Byte>>, nat))
    requires index <= |p|
    ensures index <= r.1 <= |p|
    ensures r.0.Some? ==> 0 <= count == |r.0.value|
    ensures r.0.None? ==> r.1 == |p|
  {
    if count < 0 || |p| - index < count then (None, |p|)
    else (Some(p[index..index + count]), Advanced(|p|, index, count))
  }

  // The overload for elements: a byte count that is no int32 leaves the cursor alone.
  function GetElements(p: seq<Byte>, index: nat, count: int, size: nat): (r: (Option<seq<Byte>>, nat))
    requires index <= |p|
    ensures index <= r.1 <= |p|
    ensures r.0.Some? ==> |r.0.value| == count * size
  {
    if -INT_LIMIT <= count * size < INT_LIMIT then GetBytes(p, index, count * size) else (None, index)
  }

  function ReadInt(p: seq<Byte>, index: nat): (r: (Option<int>, nat))
    requires index <= |p|
    ensures index <= r.1 <= |p|
    ensures r.0.Some? ==> -INT_LIMIT <= r.0.value < INT_LIMIT
  {
    var (s, next) := GetBytes(p, index, 4);
    match s
    case None => (None, next)
    case Some(bytes) =>
      BytesOfNumber(bytes);
      Widths();
      (Some(Signed(Number(bytes), INT_LIMIT)), next)
  }

  function Fixed(t: Type): nat {
    match t
    case TBool => 1
    case TUInt16 => 2
    case TLong | TInt64 | TUInt64 | TSizeT | TDouble => 8
    case _ => 4
  }

  predicate IsFixed(t: Type) {
    !t.TString? && !t.TString16? && !t.TData? && !t.TBytes?
  }

  // The value that sizeof(Type) bytes of memory stand for.
  function FixedValue(t: Type, s: seq<Byte>): Value
    requires IsFixed(t) && |s| == Fixed(t)
  {
    match t
    case TBool => VBool(s[0] != 0)
    case TInt => VInt(Signed(Number(s), INT_LIMIT))
    case TLong => VLong(Signed(Number(s), LONG_HALF))
    case TUInt16 => VUInt16(Number(s))
    case TUInt32 => VUInt32(Number(s))
    case TInt64 => VInt64(Signed(Number(s), LONG_HALF))
    case TUInt64 => VUInt64(Number(s))
    case TSizeT => VSizeT(Number(s))
    case TFloat => VFloat(s)
    case TDouble => VDouble(s)
  }

  function Read(t: Type, p: seq<Byte>, index: nat): (r: (Option<Value>, nat))
    requires index <= |p|
    ensures index <= r.1 <= |p|
  {
    match t
    case TString =>
      var (s, next) := ReadCounted(p, index, 1);
      (if s.Some? then Some(VString(s.value)) else None, next)
    case TData =>
      var (s, next) := ReadCounted(p, index, 1);
      (if s.Some? then Some(VData(s.value)) else None, next)
    case TString16 =>
      var (s, next) := ReadCounted(p, index, 2);
      (if s.Some? then Some(VString16(BytesToUnits(s.value))) else None, next)
    case TBytes(count) =>
      var (s, next) := GetBytes(p, index, count);
      (if s.Some? then Some(VBytes(s.value)) else None, next)
    case _ =>
      var (s, next) := GetBytes(p, index, Fixed(t));
      (if s.Some? then Some(FixedValue(t, s.value)) else None, next)
  }

  // ReadInt for the length, then that many elements.
  function ReadCounted(p: seq<Byte>, index: nat, size: nat): (r: (Option<seq<Byte>>, nat))
    requires index <= |p|
    ensures index <= r.1 <= |p|
    ensures size == 2 && r.0.Some? ==> |r.0.value| % 2 == 0
  {
    var (count, next) := ReadInt(p, index);
    match count
    case None => (None, next)
    case Some(n) => GetElements(p, next, n, size)
  }

  function ReadAll(ts: seq<Type>, p: seq<Byte>, index: nat): (r: (seq<Option<Value>>, nat))
    requires index <= |p|
    ensures |r.0| == |ts| && index <= r.1 <= |p|
  {
    if ts == [] then ([], index)
    else
      var (v, next) := Read(ts[0], p, index);
      var (vs, last) := ReadAll(ts[1..], p, next);
      ([v] + vs, last)
  }

  // ----- what was written is what is read

  lemma AdvanceOver(p: seq<Byte>, index: nat, data: seq<Byte>)
    requires index + |ZeroPadded(data)| <= |p|
    requires p[index..index + |ZeroPadded(data)|] == ZeroPadded(data)
    ensures GetBytes(p, index, |data|) == (Some(data), index + |ZeroPadded(data)|)
  {
    assert p[index..index + |data|] == p[index..index + |ZeroPadded(data)|][..|data|];
  }

  lemma WholeWords(data: seq<Byte>)
    requires |data| % 4 == 0
    ensures ZeroPadded(data) == data
  {
  }

  lemma IntRoundTrip(i: int)
    requires -INT_LIMIT <= i < INT_LIMIT
    ensures Signed(Number(IntBytes(i)), INT_LIMIT) == i
  {
    Widths();
    NumberOfBytes(Unsigned(i, INT_LIMIT), 4);
  }

  lemma ReadWrittenInt(p: seq<Byte>, index: nat, i: int)
    requires -INT_LIMIT <= i < INT_LIMIT
    requires index + 4 <= |p| && p[index..index + 4] == IntBytes(i)
    ensures ReadInt(p, index) == (Some(i), index + 4)
  {
    hide IntBytes, ZeroPadded, GetBytes, Number, Signed, Align, Pow256, LEBytes, Advanced;
    WholeWords(IntBytes(i));
    AdvanceOver(p, index, IntBytes(i));
    IntRoundTrip(i);
  }

  lemma FixedRoundTrip(v: Value)
    requires InRange(v) && IsFixed(TypeOf(v)) && !v.VBool?
    ensures |MemoryOf(v)| == Fixed(TypeOf(v))
    ensures Encode(v) == ZeroPadded(MemoryOf(v)) && FixedValue(TypeOf(v), MemoryOf(v)) == v
  {
    hide LEBytes, Number, Pow256, ZeroPadded, Align, IntBytes;
    Widths();
    match v
    case VInt(i) => IntRoundTrip(i); WholeWords(IntBytes(i));
    case VLong(i) => NumberOfBytes(Unsigned(i, LONG_HALF), 8); WholeWords(Encode(v));
    case VInt64(i) => NumberOfBytes(Unsigned(i, LONG_HALF), 8); WholeWords(Encode(v));
    case VUInt16(n) => NumberOfBytes(n, 2);
    case VUInt32(n) => NumberOfBytes(n, 4); WholeWords(Encode(v));
    case VUInt64(n) => NumberOfBytes(n, 8); WholeWords(Encode(v));
    case VSizeT(n) => NumberOfBytes(n, 8); WholeWords(Encode(v));
    case VFloat(s) => WholeWords(s);
    case VDouble(s) => WholeWords(s);
  }

  // The memory image of a fixed-size value, before padding.
  function MemoryOf(v: Value): (s: seq<Byte>)
    requires InRange(v) && IsFixed(TypeOf(v)) && !v.VBool?
    ensures |s| == Fixed(TypeOf(v))
  {
    match v
    case VInt(i) => IntBytes(i)
    case VLong(i) => LEBytes(Unsigned(i, LONG_HALF), 8)
    case VUInt16(n) => LEBytes(n, 2)
    case VUInt32(n) => LEBytes(n, 4)
    case VInt64(i) => LEBytes(Unsigned(i, LONG_HALF), 8)
    case VUInt64(n) => LEBytes(n, 8)
    case VSizeT(n) => LEBytes(n, 8)
    case VFloat(s) => s
    case VDouble(s) => s
  }

  // A bool is written as an int, and its first byte is read back.
  lemma ReadWrittenBool(p: seq<Byte>, index: nat, b: bool)
    requires index + 4 <= |p| && p[index..index + 4] == Encode(VBool(b))
    ensures Read(TBool, p, index) == (Some(VBool(b)), index + 4)
  {
    var i := if b then 1 else 0;
    assert LEBytes(i, 4)[0] == i;
    assert p[index] == p[index..index + 4][0] == i;
    assert p[index..index + 1] == [i];
  }

  lemma ReadWrittenCounted(p: seq<Byte>, index: nat, n: nat, size: nat, data: seq<Byte>)
    requires n < INT_LIMIT && n * size == |data| < INT_LIMIT
    requires index + 4 + |ZeroPadded(data)| <= |p|
    requires p[index..index + 4 + |ZeroPadded(data)|] == Counted(n, data)
    ensures ReadCounted(p, index, size) == (Some(data), index + 4 + |ZeroPadded(data)|)
  {
    var end := index + 4 + |ZeroPadded(data)|;
    assert p[index..index + 4] == p[index..end][..4] == IntBytes(n);
    ReadWrittenInt(p, index, n);
    assert p[index + 4..end] == p[index..end][4..] == ZeroPadded(data);
    AdvanceOver(p, index + 4, data);
  }

  /** Any typed value, written at any place of a payload, is read back there, and the cursor
      ends just behind it. */
  lemma ReadWritten(v: Value, p: seq<Byte>, index: nat)
    requires InRange(v)
    requires index + |Encode(v)| <= |p| && p[index..index + |Encode(v)|] == Encode(v)
    ensures Read(TypeOf(v), p, index) == (Some(v), index + |Encode(v)|)
  {
    hide LEBytes, Number, BytesToUnits, UnitsToBytes, Counted, ReadInt, ReadCounted, GetBytes, ZeroPadded;
    hide IntBytes, MemoryOf, FixedValue, Align, Pow256, Advanced, Signed;
    match v
    case VBool(b) => ReadWrittenBool(p, index, b);
    case VString(s) => ReadWrittenCounted(p, index, |s|, 1, s);
    case VData(s) => ReadWrittenCounted(p, index, |s|, 1, s);
    case VString16(u) =>
      UnitsRoundTrip(u);
      ReadWrittenCounted(p, index, |u|, 2, UnitsToBytes(u));
    case VBytes(s) => AdvanceOver(p, index, s);
    case _ => ReadWrittenFixed(v, p, index);
  }

  lemma ReadWrittenFixed(v: Value, p: seq<Byte>, index: nat)
    requires InRange(v) && IsFixed(TypeOf(v)) && !v.VBool?
    requires index + |Encode(v)| <= |p| && p[index..index + |Encode(v)|] == Encode(v)
    ensures Read(TypeOf(v), p, index) == (Some(v), index + |Encode(v)|)
  {
    hide *;
    FixedRoundTrip(v);
    AdvanceOver(p, index, MemoryOf(v));
    ReadFixed(TypeOf(v), p, index);
  }

  lemma ReadFixed(t: Type, p: seq<Byte>, index: nat)
    requires IsFixed(t) && index <= |p|
    ensures var (s, next) := GetBytes(p, index, Fixed(t));
      Read(t, p, index) == (if s.Some? then Some(FixedValue(t, s.value)) else None, next)
  {
    hide GetBytes, FixedValue;
  }

  function Types(vs: seq<Value>): seq<Type> {
    seq(|vs|, k requires 0 <= k < |vs| => TypeOf(vs[k]))
  }

  function Somes(vs: seq<Value>): seq<Option<Value>> {
    seq(|vs|, k requires 0 <= k < |vs| => Some(vs[k]))
  }

  /** Reading a payload back with the types it was written with gives exactly the values
      written and uses the payload up. */
  lemma {:induction false} ReadAllWritten(vs: seq<Value>, p: seq<Byte>, index: nat)
    requires forall k :: 0 <= k < |vs| ==> InRange(vs[k])
    requires index <= |p| && p[index..] == EncodeAll(vs)
    ensures ReadAll(Types(vs), p, index) == (Somes(vs), |p|)
  {
    hide Encode, Read;
    if vs == [] {
    } else {
      var size := |Encode(vs[0])|;
      assert p[index..index + size] == p[index..][..size] == Encode(vs[0]);
      ReadWritten(vs[0], p, index);
      assert p[index + size..] == p[index..][size..] == EncodeAll(vs[1..]);
      ReadAllWritten(vs[1..], p, index + size);
      assert Types(vs)[1..] == Types(vs[1..]);
      assert Somes(vs) == [Some(vs[0])] + Somes(vs[1..]);
    }
  }

  lemma ReadBackThenFail(vs: seq<Value>)
    requires forall k :: 0 <= k < |vs| ==> InRange(vs[k])
    ensures var p := EncodeAll(vs);
      ReadAll(Types(vs), p, 0) == (Somes(vs), |p|) && Read(TInt, p, |p|) == (None, |p|)
  {
    assert EncodeAll(vs)[0..] == EncodeAll(vs);
    ReadAllWritten(vs, EncodeAll(vs), 0);
  }

  // The length that a string16 claims does not fit an int once it is doubled.
  predicate ClaimsTooMany(t: Type, p: seq<Byte>, index: nat)
    requires index <= |p|
  {
    t == TString16 && ReadInt(p, index).0.Some? && !(-INT_LIMIT <= 2 * ReadInt(p, index).0.value < INT_LIMIT)
  }

  /** A failed read, on any bytes, leaves the cursor at the end, except for the string16
      whose length overflows: there the cursor stays just behind the length. */
  lemma FailedRead(t: Type, p: seq<Byte>, index: nat)
    requires index <= |p| && Read(t, p, index).0.None?
    ensures Read(t, p, index).1 == if ClaimsTooMany(t, p, index) then ReadInt(p, index).1 else |p|
  {
    hide FixedValue, BytesToUnits, Number, Signed, Align, Pow256, LEBytes;
  }

  /** So a failure need not stick: a string16 that claims 2^30 units fails, and the next read
      finds an int. */
  lemma ReadGoesOnAfterFailure()
    ensures var p := IntBytes(0x4000_0000) + IntBytes(7);
      && Read(TString16, p, 0) == (None, 4)
      && Read(TInt, p, 4) == (Some(VInt(7)), 8)
  {
    hide IntBytes, Signed, Number, ReadInt, GetBytes;
    var p := IntBytes(0x4000_0000) + IntBytes(7);
    assert p[0..4] == IntBytes(0x4000_0000) && p[4..8] == IntBytes(7);
    ReadWrittenInt(p, 0, 0x4000_0000);
    IntIsReadAsValue(p, 4, 7);
  }

  lemma IntIsReadAsValue(p: seq<Byte>, index: nat, i: int)
    requires -INT_LIMIT <= i < INT_LIMIT
    requires index + 4 <= |p| && p[index..index + 4] == IntBytes(i)
    ensures Read(TInt, p, index) == (Some(VInt(i)), index + 4)
  {
    ReadWritten(VInt(i), p, index);
  }

  lemma AdvancedStaysAligned(end: nat, index: nat, size: nat)
    requires index <= end && index % 4 == 0
    ensures var next := Advanced(end, index, size); next == end || next % 4 == 0
  {
    hide Align;
    WordsAddUp(index, Align(size, 4));
  }

  lemma BytesStayAligned(p: seq<Byte>, index: nat, count: int)
    requires index <= |p| && index % 4 == 0
    ensures var next := GetBytes(p, index, count).1; next == |p| || next % 4 == 0
  {
    if 0 <= count {
      AdvancedStaysAligned(|p|, index, count);
    }
  }

  lemma CountedStaysAligned(p: seq<Byte>, index: nat, size: nat)
    requires index <= |p| && index % 4 == 0
    ensures var next := ReadCounted(p, index, size).1; next == |p| || next % 4 == 0
  {
    hide GetBytes;
    BytesStayAligned(p, index, 4);
    var (count, next) := ReadInt(p, index);
    if count.Some? && next % 4 == 0 {
      BytesStayAligned(p, next, count.value * size);
    }
  }

  /** The cursor stays a multiple of four until it reaches the end, whatever is read. */
  lemma CursorStaysAligned(t: Type, p: seq<Byte>, index: nat)
    requires index <= |p| && index % 4 == 0
    ensures var next := Read(t, p, index).1; next == |p| || next % 4 == 0
  {
    hide GetBytes, ReadCounted, FixedValue, BytesToUnits;
    CountedStaysAligned(p, index, 1);
    CountedStaysAligned(p, index, 2);
    BytesStayAligned(p, index, if t.TBytes? then t.count else Fixed(t));
  }
}
