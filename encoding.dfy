// Fixed-width binary layouts of `netqasm/lang/encoding.py`: the ctypes
// field types, the one-byte register bitfield, the subroutine metadata,
// the optional integer of return messages and the 7-byte command
// structures. ctypes stores integers little-endian (the byte order of the
// hosts the code runs on) and truncates silently to the field width; both
// are written out here.

module Encoding {
  import opened Wrappers

  type Byte = x: int | 0 <= x < 256

  const COMMAND_BYTES: nat := 7
  const METADATA_BYTES: nat := 4
  const REG_NAME_BITS: nat := 2
  const REG_INDEX_BITS: nat := 4
  /** Number of registers in one bank, 2 ** REG_INDEX_BITS. */
  const REG_COUNT: nat := 16

  function Pow256(n: nat): (r: nat)
    ensures r >= 1
  {
    if n == 0 then 1 else 256 * Pow256(n - 1)
  }

  /** The n little-endian bytes ctypes stores for x in an n-byte field (x mod 256^n). */
  function UIntBytes(x: int, n: nat): (bs: seq<Byte>)
    ensures |bs| == n
    decreases n
  {
    if n == 0 then [] else [x % 256] + UIntBytes(x / 256, n - 1)
  }

  /** The unsigned value of little-endian bytes. */
  function UIntValue(bs: seq<Byte>): (v: nat)
    ensures v < Pow256(|bs|)
  {
    if bs == [] then 0 else bs[0] + 256 * UIntValue(bs[1..])
  }

  lemma MulAtLeast(a: int, m: int)
    requires a >= 1 && m >= 0
    ensures a * m >= m
  {
    assert a * m == m + (a - 1) * m;
  }

  /** Euclidean division is determined by its quotient-remainder equation. */
  lemma DivModUnique(x: int, m: int, k: int, r: int)
    requires m > 0 && 0 <= r < m && x == k * m + r
    ensures x / m == k && x % m == r
  {
    var q, s := x / m, x % m;
    assert q * m + s == x;
    assert (q - k) * m == r - s by {
      assert (q - k) * m == q * m - k * m;
    }
    if q > k {
      MulAtLeast(q - k, m);
    } else if q < k {
      MulAtLeast(k - q, m);
    }
  }

  lemma DivModStep(x: int, p: nat)
    requires p >= 1
    ensures x % (256 * p) == x % 256 + 256 * ((x / 256) % p)
  {
    var q, r := x / 256, x % 256;
    var q2, r2 := q / p, q % p;
    assert x == (256 * p) * q2 + (r + 256 * r2) by {
      assert q == q2 * p + r2;
      assert x == 256 * q + r;
    }
    assert r + 256 * r2 < 256 * p by {
      assert r2 <= p - 1;
      assert 256 * r2 <= 256 * (p - 1);
    }
    DivModUnique(x, 256 * p, q2, r + 256 * r2);
  }

  /** Reading an n-byte field back gives the stored value reduced mod 256^n. */
  lemma {:induction false} UIntRoundTrip(x: int, n: nat)
    ensures UIntValue(UIntBytes(x, n)) == x % Pow256(n)
    decreases n
  {
    if n > 0 {
      UIntRoundTrip(x / 256, n - 1);
      var bs := UIntBytes(x, n);
      assert bs[1..] == UIntBytes(x / 256, n - 1);
      DivModStep(x, Pow256(n - 1));
    }
  }

  /** Writing back the value of some bytes reproduces those bytes. */
  lemma {:induction false} UIntBytesOfValue(bs: seq<Byte>)
    ensures UIntBytes(UIntValue(bs), |bs|) == bs
  {
    if bs != [] {
      var v := UIntValue(bs);
      assert v % 256 == bs[0];
      assert v / 256 == UIntValue(bs[1..]);
      UIntBytesOfValue(bs[1..]);
    }
  }

  // ---------------------------------------------------------------------
  // Scalar C types

  const INT32_MIN: int := -0x8000_0000
  const INT32_MAX: int := 0x7FFF_FFFF

  predicate FitsInt32(x: int) { INT32_MIN <= x <= INT32_MAX }
  predicate FitsUInt8(x: int) { 0 <= x < 256 }
  predicate FitsUInt16(x: int) { 0 <= x < 0x1_0000 }

  /** The value a `c_int32` holds after assigning x to it (two's-complement wrap). */
  function WrapInt32(x: int): (r: int)
    ensures FitsInt32(r)
    ensures (r - x) % 0x1_0000_0000 == 0
    ensures FitsInt32(x) ==> r == x
  {
    var u := x % 0x1_0000_0000;
    if u <= INT32_MAX then u else u - 0x1_0000_0000
  }

  function EncodeInt32(x: int): (bs: seq<Byte>)
    ensures |bs| == 4
  {
    UIntBytes(x, 4)
  }

  function DecodeInt32(bs: seq<Byte>): (x: int)
    requires |bs| == 4
    ensures FitsInt32(x)
  {
    var u := UIntValue(bs);
    assert Pow256(4) == 0x1_0000_0000;
    if u <= INT32_MAX then u else u - 0x1_0000_0000
  }

  /** A `c_int32` round trip wraps the value, and is exact on the 32-bit range. */
  lemma Int32RoundTrip(x: int)
    ensures DecodeInt32(EncodeInt32(x)) == WrapInt32(x)
    ensures FitsInt32(x) ==> DecodeInt32(EncodeInt32(x)) == x
  {
    UIntRoundTrip(x, 4);
    assert Pow256(4) == 0x1_0000_0000;
  }

  function EncodeUInt8(x: int): (bs: seq<Byte>)
    ensures |bs| == 1 && bs[0] == x % 256
  {
    [x % 256]
  }

  function EncodeUInt16(x: int): (bs: seq<Byte>)
    ensures |bs| == 2
  {
    UIntBytes(x, 2)
  }

  lemma UInt16RoundTrip(x: int)
    ensures UIntValue(EncodeUInt16(x)) == x % 0x1_0000
    ensures FitsUInt16(x) ==> UIntValue(EncodeUInt16(x)) == x
  {
    UIntRoundTrip(x, 2);
  }

  // ---------------------------------------------------------------------
  // Register bitfield: 2 bits of bank, 4 bits of index, 2 bits of padding

  /** `RegisterName`: R = 0, C = 1, Q = 2, M = 3. */
  type RegNameValue = x: nat | x < 4

  function RegisterByte(name: RegNameValue, index: int): (b: Byte)
    ensures b < 64
    ensures b % 4 == name && (b / 4) % 16 == index % 16
  {
    name + 4 * (index % REG_COUNT)
  }

  /** The `register_name` bits of a register byte. */
  function RegisterNameBits(b: Byte): (n: RegNameValue)
    ensures n == b % 4
  {
    b % 4
  }

  /** The `register_index` bits of a register byte. */
  function RegisterIndexBits(b: Byte): (i: nat)
    ensures i < REG_COUNT
  {
    (b / 4) % REG_COUNT
  }

  /** A register byte decodes to its bank and to its index modulo 16. */
  lemma RegisterByteRoundTrip(name: RegNameValue, index: int)
    ensures RegisterNameBits(RegisterByte(name, index)) == name
    ensures RegisterIndexBits(RegisterByte(name, index)) == index % REG_COUNT
    ensures 0 <= index < REG_COUNT ==> RegisterIndexBits(RegisterByte(name, index)) == index
  {
  }

  // ---------------------------------------------------------------------
  // Metadata: netqasm_version (2 x c_uint8), app_id (c_uint16)

  datatype Metadata = Metadata(major: int, minor: int, appId: int)

  function EncodeMetadata(m: Metadata): (bs: seq<Byte>)
    ensures |bs| == METADATA_BYTES
  {
    EncodeUInt8(m.major) + EncodeUInt8(m.minor) + EncodeUInt16(m.appId)
  }

  function DecodeMetadata(bs: seq<Byte>): (m: Metadata)
    requires |bs| == METADATA_BYTES
    ensures FitsUInt8(m.major) && FitsUInt8(m.minor) && FitsUInt16(m.appId)
  {
    Metadata(bs[0], bs[1], UIntValue(bs[2..4]))
  }

  predicate MetadataFits(m: Metadata)
  {
    FitsUInt8(m.major) && FitsUInt8(m.minor) && FitsUInt16(m.appId)
  }

  lemma MetadataRoundTrip(m: Metadata)
    requires MetadataFits(m)
    ensures DecodeMetadata(EncodeMetadata(m)) == m
  {
    var bs := EncodeMetadata(m);
    assert bs[2..4] == EncodeUInt16(m.appId);
    UInt16RoundTrip(m.appId);
  }

  // ---------------------------------------------------------------------
  // OptionalInt: type (c_uint8), value (c_int32), naturally aligned, so
  // three zero padding bytes sit between the two fields.

  const OPTIONAL_INT_BYTES: nat := 8
  const NULL_TYPE: Byte := 0
  const INT_TYPE: Byte := 1

  function EncodeOptionalInt(v: Option<int>): (bs: seq<Byte>)
    ensures |bs| == OPTIONAL_INT_BYTES
    ensures bs[0] == (if v.None? then NULL_TYPE else INT_TYPE)
    ensures v.None? ==> bs[4..] == [0, 0, 0, 0]
  {
    match v
    case None => [NULL_TYPE, 0, 0, 0] + EncodeInt32(0)
    case Some(x) => [INT_TYPE, 0, 0, 0] + EncodeInt32(x)
  }

  /** The `value` field of an encoded OptionalInt. */
  function OptionalIntField(bs: seq<Byte>): (x: int)
    requires |bs| == OPTIONAL_INT_BYTES
    ensures FitsInt32(x)
  {
    DecodeInt32(bs[4..8])
  }

  /** The tagged reading of an OptionalInt (`OptionalInt.value()`). */
  function OptionalIntValue(bs: seq<Byte>): (r: Result<Option<int>>)
    requires |bs| == OPTIONAL_INT_BYTES
    ensures r.Err? <==> bs[0] !in {NULL_TYPE, INT_TYPE}
    ensures r.Ok? && bs[0] == NULL_TYPE ==> r.value == None
  {
    if bs[0] == NULL_TYPE then Ok(None)
    else if bs[0] == INT_TYPE then Ok(Some(OptionalIntField(bs)))
    else Fail(TypeError)
  }

  /** None is tagged 0 with value 0; a 32-bit int is tagged 1 and read back exactly. */
  lemma OptionalIntRoundTrip(v: Option<int>)
    requires v.Some? ==> FitsInt32(v.value)
    ensures OptionalIntValue(EncodeOptionalInt(v)) == Ok(v)
    ensures OptionalIntField(EncodeOptionalInt(v)) == (if v.None? then 0 else v.value)
  {
    var bs := EncodeOptionalInt(v);
    match v
    case None =>
      assert bs[4..8] == EncodeInt32(0);
      Int32RoundTrip(0);
    case Some(x) =>
      assert bs[4..8] == EncodeInt32(x);
      Int32RoundTrip(x);
  }

  // ---------------------------------------------------------------------
  // Command structures: an id byte, the fields packed (`_pack_ = 1`), then
  // zero padding up to COMMAND_BYTES.

  /** ctypes field kinds used inside command structures. */
  datatype FieldKind =
    | RegisterField   // Register bitfield struct, 1 byte
    | ImmediateField  // IMMEDIATE = c_uint8
    | IntegerField    // INTEGER = c_int32
    | AddressField    // Address struct holding an ADDRESS = c_int32
    | EntryField      // ArrayEntry: Address + Register
    | SliceField      // ArraySlice: Address + Register + Register

  function FieldBytes(f: FieldKind): (n: nat)
    ensures 1 <= n <= 6
  {
    match f
    case RegisterField => 1
    case ImmediateField => 1
    case IntegerField => 4
    case AddressField => 4
    case EntryField => 4 + 1
    case SliceField => 4 + 1 + 1
  }

  function FieldsBytes(fs: seq<FieldKind>): (n: nat)
    ensures n >= |fs|
  {
    if fs == [] then 0 else FieldBytes(fs[0]) + FieldsBytes(fs[1..])
  }

  /**
   * `add_padding`: the number of padding bytes after the id byte and the
   * fields; it raises when they already exceed COMMAND_BYTES.
   */
  function PaddingBytes(fs: seq<FieldKind>): (r: Result<nat>)
    ensures r.Ok? <==> 1 + FieldsBytes(fs) <= COMMAND_BYTES
    ensures r.Ok? ==> 1 + FieldsBytes(fs) + r.value == COMMAND_BYTES
    ensures r.Err? ==> r.error.kind == AssertionError
  {
    var used := 1 + FieldsBytes(fs);
    if used <= COMMAND_BYTES then Ok(COMMAND_BYTES - used) else Fail(AssertionError)
  }

  /** The command structure classes the encoding module defines. */
  datatype CommandLayout =
    | RegCommand | RegRegCommand | MeasCommand | RegImmImmCommand
    | RegRegImmImmCommand | RegRegRegCommand | RegRegRegRegCommand
    | ImmCommand | RegRegImmCommand | RegImmCommand | RegEntryCommand
    | RegAddrCommand | ArrayEntryCommand | ArraySliceCommand
    | SingleRegisterCommand | ArrayCommand | AddrCommand | Reg5Command
    | RecvEPRCommand

  /** The declared fields of each command structure, after the id byte. */
  function LayoutFields(l: CommandLayout): seq<FieldKind>
  {
    match l
    case RegCommand => [RegisterField]
    case RegRegCommand => [RegisterField, RegisterField]
    case MeasCommand => [RegisterField, RegisterField]
    case RegImmImmCommand => [RegisterField, ImmediateField, ImmediateField]
    case RegRegImmImmCommand => [RegisterField, RegisterField, ImmediateField, ImmediateField]
    case RegRegRegCommand => [RegisterField, RegisterField, RegisterField]
    case RegRegRegRegCommand => [RegisterField, RegisterField, RegisterField, RegisterField]
    case ImmCommand => [IntegerField]
    case RegRegImmCommand => [RegisterField, RegisterField, IntegerField]
    case RegImmCommand => [RegisterField, IntegerField]
    case RegEntryCommand => [RegisterField, EntryField]
    case RegAddrCommand => [RegisterField, AddressField]
    case ArrayEntryCommand => [EntryField]
    case ArraySliceCommand => [SliceField]
    case SingleRegisterCommand => [RegisterField]
    case ArrayCommand => [RegisterField, AddressField]
    case AddrCommand => [AddressField]
    case Reg5Command => [RegisterField, RegisterField, RegisterField, RegisterField, RegisterField]
    case RecvEPRCommand => [RegisterField, RegisterField, RegisterField, RegisterField]
  }

  lemma {:induction false} FieldsBytesUnroll(fs: seq<FieldKind>)
    requires 1 <= |fs| <= 5
    ensures |fs| == 1 ==> FieldsBytes(fs) == FieldBytes(fs[0])
    ensures |fs| == 2 ==> FieldsBytes(fs) == FieldBytes(fs[0]) + FieldBytes(fs[1])
    ensures |fs| == 3 ==> FieldsBytes(fs) == FieldBytes(fs[0]) + FieldBytes(fs[1]) + FieldBytes(fs[2])
    ensures |fs| == 4 ==> FieldsBytes(fs) == FieldBytes(fs[0]) + FieldBytes(fs[1]) + FieldBytes(fs[2]) + FieldBytes(fs[3])
    ensures |fs| == 5 ==> FieldsBytes(fs) == FieldBytes(fs[0]) + FieldBytes(fs[1]) + FieldBytes(fs[2]) + FieldBytes(fs[3]) + FieldBytes(fs[4])
  {
    if |fs| == 1 {
      assert fs[1..] == [];
    } else {
      FieldsBytesUnroll(fs[1..]);
    }
  }

  /** Every command structure fits, so each is exactly COMMAND_BYTES long once padded. */
  lemma AllLayoutsFit(l: CommandLayout)
    ensures PaddingBytes(LayoutFields(l)).Ok?
    ensures 1 + FieldsBytes(LayoutFields(l)) + PaddingBytes(LayoutFields(l)).value == COMMAND_BYTES
  {
    FieldsBytesUnroll(LayoutFields(l));
  }
}
