// `netqasm/backend/messages.py`: the framing of the messages between a
// Host and its quantum node controller, as byte strings.
//
// The fixed messages are ctypes structures. `Message` and
// `ReturnArrayMessageHeader` set a class attribute `_pack`, which ctypes does
// not read (its packing attribute is `_pack_`), so every structure here is
// laid out with natural alignment: a 4-byte field starts at a multiple of
// four and the structure is padded to a multiple of its widest field.
// ctypes fills a new structure with zero bytes, so the padding is zero.

module Messages {
  import opened Wrappers
  import opened Encoding
  import opened Operand
  import opened Subroutine
  import opened Seqs

  const MESSAGE_TYPE_BYTES: nat := 1
  const UINT32_MODULUS: int := 0x1_0000_0000

  /** n zero bytes: the padding ctypes leaves between and after fields. */
  function Zeros(n: nat): (bs: seq<Byte>)
    ensures |bs| == n && forall k :: 0 <= k < n ==> bs[k] == 0
  {
    if n == 0 then [] else [0] + Zeros(n - 1)
  }

  /** A `c_uint32` field: the value modulo 2^32, little-endian. */
  function EncodeUInt32(x: int): (bs: seq<Byte>)
    ensures |bs| == 4
  {
    UIntBytes(x, 4)
  }

  function DecodeUInt32(bs: seq<Byte>): (x: int)
    requires |bs| == 4
    ensures 0 <= x < UINT32_MODULUS
  {
    assert Pow256(4) == UINT32_MODULUS;
    UIntValue(bs)
  }

  lemma UInt32RoundTrip(x: int)
    ensures DecodeUInt32(EncodeUInt32(x)) == x % UINT32_MODULUS
  {
    UIntRoundTrip(x, 4);
    assert Pow256(4) == UINT32_MODULUS;
  }

  // ---------------------------------------------------------------------
  // Message types

  /** `MessageType`: the first byte of every Host message. */
  datatype MessageType = InitNewAppType | OpenEprSocketType | SubroutineType | StopAppType | SignalType

  /** The enum value of a message type. */
  function MessageTypeValue(t: MessageType): (v: Byte)
    ensures v < 5
    ensures MessageTypeOf(v) == Ok(t)
  {
    match t
    case InitNewAppType => 0
    case OpenEprSocketType => 1
    case SubroutineType => 2
    case StopAppType => 3
    case SignalType => 4
  }

  /** `MessageType(v)`: ValueError for a value that is no member's. */
  function MessageTypeOf(v: int): (r: Result<MessageType>)
    ensures r.Err? ==> r == Fail(ValueError)
  {
    if v == 0 then Ok(InitNewAppType)
    else if v == 1 then Ok(OpenEprSocketType)
    else if v == 2 then Ok(SubroutineType)
    else if v == 3 then Ok(StopAppType)
    else if v == 4 then Ok(SignalType)
    else Fail(ValueError)
  }

  /** Exactly the values 0 to 4 name a message type, and each names its own. */
  lemma MessageTypeValues(v: int)
    ensures MessageTypeOf(v).Ok? <==> 0 <= v < 5
    ensures MessageTypeOf(v).Ok? ==> MessageTypeValue(MessageTypeOf(v).value) == v
  {
  }

  /** `ReturnMessageType`: the first byte of every message to the Host. */
  datatype ReturnMessageType = DoneType | ErrType | RetArrType | RetRegType

  function ReturnMessageTypeValue(t: ReturnMessageType): (v: Byte)
    ensures v < 4
    ensures ReturnMessageTypeOf(v) == Ok(t)
  {
    match t
    case DoneType => 0
    case ErrType => 1
    case RetArrType => 2
    case RetRegType => 3
  }

  /** `ReturnMessageType(v)`: ValueError for a value that is no member's. */
  function ReturnMessageTypeOf(v: int): (r: Result<ReturnMessageType>)
    ensures r.Err? ==> r == Fail(ValueError)
  {
    if v == 0 then Ok(DoneType)
    else if v == 1 then Ok(ErrType)
    else if v == 2 then Ok(RetArrType)
    else if v == 3 then Ok(RetRegType)
    else Fail(ValueError)
  }

  /** Exactly the values 0 to 3 name a return type, and each names its own. */
  lemma ReturnMessageTypeValues(v: int)
    ensures ReturnMessageTypeOf(v).Ok? <==> 0 <= v < 4
    ensures ReturnMessageTypeOf(v).Ok? ==> ReturnMessageTypeValue(ReturnMessageTypeOf(v).value) == v
  {
  }

  /** `ErrorCode` */
  datatype ErrorCode = General | NoQubit | Unsupported

  function ErrorCodeValue(c: ErrorCode): (v: Byte)
    ensures v < 3
    ensures ErrorCodeOf(v) == Some(c)
  {
    match c
    case General => 0
    case NoQubit => 1
    case Unsupported => 2
  }

  function ErrorCodeOf(v: int): Option<ErrorCode>
  {
    if v == 0 then Some(General) else if v == 1 then Some(NoQubit) else if v == 2 then Some(Unsupported) else None
  }

  /** `Signal.STOP`, the only signal. */
  const SIGNAL_STOP: int := 0

  // ---------------------------------------------------------------------
  // Host messages

  /**
   * The messages a Host sends, with the values their fields hold. The
   * `type` field of the ctypes structures is implied by the constructor.
   */
  datatype HostMessage =
    | InitNewAppMessage(appId: int, maxQubits: int)
    | OpenEprSocketMessage(appId: int, eprSocketId: int, remoteNodeId: int, remoteEprSocketId: int, minFidelity: int)
    | SubroutineMessage(subroutine: seq<Byte>)
    | StopAppMessage(appId: int)
    | SignalMessage(signal: int)

  /** The class's `TYPE`. */
  function HostType(m: HostMessage): MessageType
  {
    match m
    case InitNewAppMessage(_, _) => InitNewAppType
    case OpenEprSocketMessage(_, _, _, _, _) => OpenEprSocketType
    case SubroutineMessage(_) => SubroutineType
    case StopAppMessage(_) => StopAppType
    case SignalMessage(_) => SignalType
  }

  /**
   * `len(bytes(cls()))`: the size of a fixed message structure, and the
   * least number of bytes `deserialize_from` accepts; a subroutine message
   * is at least its type byte.
   */
  function HostSize(t: MessageType): (n: nat)
    ensures n >= MESSAGE_TYPE_BYTES
  {
    match t
    case InitNewAppType => 12
    case OpenEprSocketType => 24
    case SubroutineType => MESSAGE_TYPE_BYTES
    case StopAppType => 8
    case SignalType => 2
  }

  /**
   * `InitNewAppMessage()`, `OpenEPRSocketMessage()`, `StopAppMessage()` and
   * `SignalMessage()` with their default arguments.
   */
  function DefaultHostMessage(t: MessageType): (m: HostMessage)
    requires t != SubroutineType
    ensures HostType(m) == t
    ensures m.OpenEprSocketMessage? ==> m.minFidelity == 100 && m.appId == m.eprSocketId == m.remoteNodeId == m.remoteEprSocketId == 0
  {
    match t
    case InitNewAppType => InitNewAppMessage(0, 0)
    case OpenEprSocketType => OpenEprSocketMessage(0, 0, 0, 0, 100)
    case StopAppType => StopAppMessage(0)
    case SignalType => SignalMessage(SIGNAL_STOP)
  }

  /** The argument of `SubroutineMessage(...)`: a subroutine, bytes, or anything else. */
  datatype SubroutineArg = SubroutineObject(s: Subroutine) | BytesObject(bs: seq<Byte>) | OtherObject

  /**
   * `SubroutineMessage(subroutine)`: a subroutine is stored as its bytes,
   * bytes as they are, and anything else raises TypeError.
   */
  function NewSubroutineMessage(arg: SubroutineArg): (r: Result<HostMessage>)
    requires arg.SubroutineObject? ==> HasClassFields(arg.s)
    ensures arg.OtherObject? ==> r == Fail(TypeError)
    ensures arg.BytesObject? ==> r == Ok(SubroutineMessage(arg.bs))
    ensures arg.SubroutineObject? ==> (r.Ok? <==> ToBytes(arg.s).Ok?)
    ensures arg.SubroutineObject? && r.Ok? ==> r.value.SubroutineMessage? && |r.value.subroutine| >= METADATA_BYTES && r.value.subroutine[..METADATA_BYTES] == EncodeMetadata(MetadataOf(arg.s))
  {
    match arg
    case SubroutineObject(s) =>
      var bs :- ToBytes(s);
      Ok(SubroutineMessage(bs))
    case BytesObject(bs) => Ok(SubroutineMessage(bs))
    case OtherObject => Fail(TypeError)
  }

  /** The values the ctypes fields hold once the message is built (assignment wraps). */
  function HostStored(m: HostMessage): (s: HostMessage)
    ensures HostType(s) == HostType(m)
    ensures HostFits(m) ==> s == m
  {
    match m
    case InitNewAppMessage(a, q) => InitNewAppMessage(a % UINT32_MODULUS, q % 256)
    case OpenEprSocketMessage(a, e, n, re, f) =>
      OpenEprSocketMessage(a % UINT32_MODULUS, WrapInt32(e), WrapInt32(n), WrapInt32(re), f % 256)
    case SubroutineMessage(bs) => m
    case StopAppMessage(a) => StopAppMessage(a % UINT32_MODULUS)
    case SignalMessage(sig) => SignalMessage(sig % 256)
  }

  predicate FitsUInt32(x: int) { 0 <= x < UINT32_MODULUS }

  /** Every field value is in its C type's range. */
  predicate HostFits(m: HostMessage)
  {
    match m
    case InitNewAppMessage(a, q) => FitsUInt32(a) && FitsUInt8(q)
    case OpenEprSocketMessage(a, e, n, re, f) =>
      FitsUInt32(a) && FitsInt32(e) && FitsInt32(n) && FitsInt32(re) && FitsUInt8(f)
    case SubroutineMessage(_) => true
    case StopAppMessage(a) => FitsUInt32(a)
    case SignalMessage(sig) => FitsUInt8(sig)
  }

  /**
   * `bytes(msg)`: the type byte, then each field at its aligned offset; a
   * subroutine message is the type byte followed by the subroutine's bytes.
   */
  function HostMessageBytes(m: HostMessage): (bs: seq<Byte>)
    ensures |bs| >= MESSAGE_TYPE_BYTES && bs[0] == MessageTypeValue(HostType(m))
    ensures m.SubroutineMessage? ==> |bs| == MESSAGE_TYPE_BYTES + |m.subroutine|
    ensures !m.SubroutineMessage? ==> |bs| == HostSize(HostType(m))
  {
    var t := [MessageTypeValue(HostType(m))];
    match m
    case InitNewAppMessage(a, q) => t + Zeros(3) + EncodeUInt32(a) + EncodeUInt8(q) + Zeros(3)
    case OpenEprSocketMessage(a, e, n, re, f) =>
      t + Zeros(3) + EncodeUInt32(a) + EncodeInt32(e) + EncodeInt32(n) + EncodeInt32(re) + EncodeUInt8(f) + Zeros(3)
    case SubroutineMessage(bs) => t + bs
    case StopAppMessage(a) => t + Zeros(3) + EncodeUInt32(a)
    case SignalMessage(sig) => t + EncodeUInt8(sig)
  }

  /** `msg.__len__()`: the length of its bytes. */
  function HostMessageLength(m: HostMessage): (n: nat)
    ensures n == |HostMessageBytes(m)|
    ensures n == if m.SubroutineMessage? then MESSAGE_TYPE_BYTES + |m.subroutine| else HostSize(HostType(m))
  {
    |HostMessageBytes(m)|
  }

  /**
   * `deserialize_host_msg`: the type byte picks the class, then the class's
   * `deserialize_from`. A missing type byte, an unknown type or fewer
   * bytes than the structure's size raise ValueError; extra bytes after a
   * fixed structure are ignored.
   */
  function DeserializeHostMsg(raw: seq<Byte>): (r: Result<HostMessage>)
    ensures r.Err? ==> r == Fail(ValueError)
    ensures r.Ok? <==> |raw| >= MESSAGE_TYPE_BYTES && raw[0] < 5 && |raw| >= HostSize(MessageTypeOf(raw[0]).value)
    ensures r.Ok? ==> MessageTypeValue(HostType(r.value)) == raw[0]
    ensures r.Ok? && r.value.SubroutineMessage? ==> r.value.subroutine == raw[MESSAGE_TYPE_BYTES..]
  {
    if |raw| < MESSAGE_TYPE_BYTES then Fail(ValueError)
    else
      var t :- MessageTypeOf(raw[0]);
      if t == SubroutineType then Ok(SubroutineMessage(raw[MESSAGE_TYPE_BYTES..]))
      else if |raw| < HostSize(t) then Fail(ValueError)
      else
        match t
        case InitNewAppType => Ok(InitNewAppMessage(DecodeUInt32(raw[4..8]), raw[8]))
        case OpenEprSocketType => Ok(OpenEprSocketFromRaw(raw))
        case StopAppType => Ok(StopAppMessage(DecodeUInt32(raw[4..8])))
        case SignalType => Ok(SignalMessage(raw[1]))
  }

  /** `OpenEPRSocketMessage.deserialize_from` on enough bytes: the fields at offsets 4, 8, 12, 16 and 20. */
  function OpenEprSocketFromRaw(raw: seq<Byte>): (m: HostMessage)
    requires |raw| >= 24
    ensures m.OpenEprSocketMessage? && HostFits(m)
  {
    OpenEprSocketMessage(DecodeUInt32(raw[4..8]), DecodeInt32(raw[8..12]), DecodeInt32(raw[12..16]),
                         DecodeInt32(raw[16..20]), raw[20])
  }

  /**
   * Every Host message reads back as the values its fields hold, and
   * exactly as built when they are in range.
   */
  lemma HostRoundTrip(m: HostMessage)
    ensures DeserializeHostMsg(HostMessageBytes(m)) == Ok(HostStored(m))
    ensures HostFits(m) ==> DeserializeHostMsg(HostMessageBytes(m)) == Ok(m)
  {
    match m
    case InitNewAppMessage(a, q) => InitNewAppRoundTrip(a, q);
    case OpenEprSocketMessage(a, e, n, re, f) => OpenEprSocketRoundTrip(a, e, n, re, f);
    case SubroutineMessage(sub) => SubroutineMessageRoundTrip(sub);
    case StopAppMessage(a) => StopAppRoundTrip(a);
    case SignalMessage(sig) =>
  }

  lemma SubroutineMessageRoundTrip(sub: seq<Byte>)
    ensures DeserializeHostMsg(HostMessageBytes(SubroutineMessage(sub))) == Ok(SubroutineMessage(sub))
  {
    assert HostMessageBytes(SubroutineMessage(sub))[MESSAGE_TYPE_BYTES..] == sub;
  }

  lemma StopAppRoundTrip(a: int)
    ensures DeserializeHostMsg(HostMessageBytes(StopAppMessage(a))) == Ok(StopAppMessage(a % UINT32_MODULUS))
  {
    assert HostMessageBytes(StopAppMessage(a))[4..8] == EncodeUInt32(a);
    UInt32RoundTrip(a);
  }

  lemma InitNewAppRoundTrip(a: int, q: int)
    ensures DeserializeHostMsg(HostMessageBytes(InitNewAppMessage(a, q))) == Ok(InitNewAppMessage(a % UINT32_MODULUS, q % 256))
  {
    var bs := HostMessageBytes(InitNewAppMessage(a, q));
    assert bs[4..8] == EncodeUInt32(a);
    assert bs[8] == q % 256;
    UInt32RoundTrip(a);
  }

  lemma OpenEprSocketRoundTrip(a: int, e: int, n: int, re: int, f: int)
    ensures DeserializeHostMsg(HostMessageBytes(OpenEprSocketMessage(a, e, n, re, f)))
         == Ok(OpenEprSocketMessage(a % UINT32_MODULUS, WrapInt32(e), WrapInt32(n), WrapInt32(re), f % 256))
  {
    var bs := HostMessageBytes(OpenEprSocketMessage(a, e, n, re, f));
    assert DeserializeHostMsg(bs) == Ok(OpenEprSocketFromRaw(bs));
    var head := [MessageTypeValue(OpenEprSocketType)] + Zeros(3) + EncodeUInt32(a);
    var fields := EncodeInt32(e) + EncodeInt32(n) + EncodeInt32(re);
    assert bs == head + fields + (EncodeUInt8(f) + Zeros(3));
    assert bs[4..8] == EncodeUInt32(a);
    assert bs[8..20] == fields;
    assert bs[8..12] == fields[0..4] == EncodeInt32(e);
    assert bs[12..16] == fields[4..8] == EncodeInt32(n);
    assert bs[16..20] == fields[8..12] == EncodeInt32(re);
    assert bs[20] == f % 256;
    UInt32RoundTrip(a);
    Int32RoundTrip(e);
    Int32RoundTrip(n);
    Int32RoundTrip(re);
    assert DecodeUInt32(bs[4..8]) == a % UINT32_MODULUS;
    assert DecodeInt32(bs[8..12]) == WrapInt32(e);
    assert DecodeInt32(bs[12..16]) == WrapInt32(n);
    assert DecodeInt32(bs[16..20]) == WrapInt32(re);
  }

  /**
   * Any bytes starting with the subroutine type byte are a subroutine
   * message, and that message's bytes are those bytes again.
   */
  lemma SubroutineFraming(raw: seq<Byte>)
    requires |raw| >= MESSAGE_TYPE_BYTES && raw[0] == MessageTypeValue(SubroutineType)
    ensures DeserializeHostMsg(raw) == Ok(SubroutineMessage(raw[MESSAGE_TYPE_BYTES..]))
    ensures HostMessageBytes(SubroutineMessage(raw[MESSAGE_TYPE_BYTES..])) == raw
  {
    assert [raw[0]] + raw[MESSAGE_TYPE_BYTES..] == raw;
  }

  // ---------------------------------------------------------------------
  // Return messages

  /**
   * The messages a quantum node controller sends back. The returned
   * array's entries are `None` for an entry without a value.
   */
  datatype ReturnMessage =
    | MsgDoneMessage(msgId: int)
    | ErrorMessage(errCode: int)
    | ReturnArrayMessage(address: int, values: seq<Option<int>>)
    | ReturnRegMessage(register: Register, value: int)

  function ReturnType(m: ReturnMessage): ReturnMessageType
  {
    match m
    case MsgDoneMessage(_) => DoneType
    case ErrorMessage(_) => ErrType
    case ReturnArrayMessage(_, _) => RetArrType
    case ReturnRegMessage(_, _) => RetRegType
  }

  /** `ErrorMessage(err_code)`: the code's value goes in the one-byte field. */
  function NewErrorMessage(c: ErrorCode): (m: ReturnMessage)
    ensures m.ErrorMessage? && ErrorCodeOf(m.errCode) == Some(c)
  {
    ErrorMessage(ErrorCodeValue(c))
  }

  /** The size of a fixed return structure; a returned array is at least its type byte and header. */
  function ReturnSize(t: ReturnMessageType): (n: nat)
    ensures n > MESSAGE_TYPE_BYTES
  {
    match t
    case DoneType => 8
    case ErrType => 2
    case RetArrType => MESSAGE_TYPE_BYTES + ARRAY_HEADER_BYTES
    case RetRegType => 8
  }

  /** `ReturnArrayMessageHeader`: the c_int32 address, then the c_int32 length. */
  const ARRAY_HEADER_BYTES: nat := 8

  /** The OptionalInt structures of the values, one after another. */
  function EncodeOptionalInts(vs: seq<Option<int>>): (bs: seq<Byte>)
    ensures |bs| == OPTIONAL_INT_BYTES * |vs|
  {
    if vs == [] then [] else EncodeOptionalInt(vs[0]) + EncodeOptionalInts(vs[1..])
  }

  /** The value a c_int32 field holds, for each value in 32 bits. */
  function StoredOptional(v: Option<int>): Option<int>
  {
    if v.None? then None else Some(WrapInt32(v.value))
  }

  /** Every item of a list through StoredOptional. */
  function StoredOptionals(vs: seq<Option<int>>): (ws: seq<Option<int>>)
    ensures |ws| == |vs| && forall k :: 0 <= k < |vs| ==> ws[k] == StoredOptional(vs[k])
    ensures (forall k :: 0 <= k < |vs| ==> vs[k].Some? ==> FitsInt32(vs[k].value)) ==> ws == vs
  {
    if vs == [] then [] else [StoredOptional(vs[0])] + StoredOptionals(vs[1..])
  }

  /** The values a return message carries once built and framed. */
  function ReturnStored(m: ReturnMessage): (s: ReturnMessage)
    ensures ReturnType(s) == ReturnType(m)
  {
    match m
    case MsgDoneMessage(i) => MsgDoneMessage(i % UINT32_MODULUS)
    case ErrorMessage(c) => ErrorMessage(c % 256)
    case ReturnArrayMessage(a, vs) => ReturnArrayMessage(WrapInt32(a), StoredOptionals(vs))
    case ReturnRegMessage(reg, v) => ReturnRegMessage(Register(reg.name, reg.index % REG_COUNT), WrapInt32(v))
  }

  /**
   * `bytes(msg)`: the type byte, then the fields at their aligned offsets;
   * a returned array is the type byte, the header, and one OptionalInt per
   * value.
   */
  function ReturnMessageBytes(m: ReturnMessage): (bs: seq<Byte>)
    ensures |bs| >= ReturnSize(ReturnType(m)) && bs[0] == ReturnMessageTypeValue(ReturnType(m))
    ensures m.ReturnArrayMessage? ==> |bs| == MESSAGE_TYPE_BYTES + ARRAY_HEADER_BYTES + OPTIONAL_INT_BYTES * |m.values|
    ensures !m.ReturnArrayMessage? ==> |bs| == ReturnSize(ReturnType(m))
  {
    var t := [ReturnMessageTypeValue(ReturnType(m))];
    match m
    case MsgDoneMessage(i) => t + Zeros(3) + EncodeUInt32(i)
    case ErrorMessage(c) => t + EncodeUInt8(c)
    case ReturnArrayMessage(a, vs) => t + AddressCStruct(Address(a)) + EncodeInt32(|vs|) + EncodeOptionalInts(vs)
    case ReturnRegMessage(reg, v) => t + [RegisterCStruct(reg)] + Zeros(2) + EncodeInt32(v)
  }

  /** `msg.__len__()`: the length of its bytes. */
  function ReturnMessageLength(m: ReturnMessage): (n: nat)
    ensures n == |ReturnMessageBytes(m)|
    ensures n == if m.ReturnArrayMessage? then 9 + 8 * |m.values| else ReturnSize(ReturnType(m))
  {
    |ReturnMessageBytes(m)|
  }

  /**
   * The n OptionalInt structures at the start of bs, each read through
   * `OptionalInt.value()`: None for type 0, the int for type 1, TypeError
   * for any other type.
   */
  function DecodeOptionalInts(bs: seq<Byte>, n: nat): (r: Result<seq<Option<int>>>)
    requires |bs| >= OPTIONAL_INT_BYTES * n
    ensures r.Ok? ==> |r.value| == n
    ensures r.Err? ==> r == Fail(TypeError)
  {
    if n == 0 then Ok([])
    else
      var v :- OptionalIntValue(bs[..OPTIONAL_INT_BYTES]);
      var rest :- DecodeOptionalInts(bs[OPTIONAL_INT_BYTES..], n - 1);
      Ok([v] + rest)
  }

  /**
   * The n OptionalInt structures at the start of bs, each read as `v.value`:
   * the c_int32 field, which the ctypes field descriptor puts in place of
   * the `value()` method.
   */
  function DecodeOptionalIntFields(bs: seq<Byte>, n: nat): (vs: seq<Option<int>>)
    requires |bs| >= OPTIONAL_INT_BYTES * n
    ensures |vs| == n
    ensures forall k :: 0 <= k < n ==> vs[k].Some?
  {
    if n == 0 then []
    else [Some(OptionalIntField(bs[..OPTIONAL_INT_BYTES]))] + DecodeOptionalIntFields(bs[OPTIONAL_INT_BYTES..], n - 1)
  }

  /**
   * `ReturnArrayMessage.deserialize_from` as written: after the type byte,
   * the header (ValueError when fewer than 8 bytes remain), an array type of
   * `length` OptionalInts (ValueError for a negative length), filled from
   * the rest (ValueError when it is too short), each read as `v.value`.
   */
  function ReturnArrayFromRawAsWritten(raw: seq<Byte>): (r: Result<ReturnMessage>)
    requires |raw| >= MESSAGE_TYPE_BYTES
    ensures r.Err? ==> r == Fail(ValueError)
    ensures r.Ok? ==> r.value.ReturnArrayMessage? && forall k :: 0 <= k < |r.value.values| ==> r.value.values[k].Some?
  {
    var body := raw[MESSAGE_TYPE_BYTES..];
    if |body| < ARRAY_HEADER_BYTES then Fail(ValueError)
    else
      var length := DecodeInt32(body[4..8]);
      if length < 0 || |body| - ARRAY_HEADER_BYTES < OPTIONAL_INT_BYTES * length then Fail(ValueError)
      else Ok(ReturnArrayMessage(DecodeInt32(body[..4]), DecodeOptionalIntFields(body[ARRAY_HEADER_BYTES..], length)))
  }

  /**
   * `ReturnArrayMessage.deserialize_from` reading each entry as its
   * OptionalInt stands for it: the same framing and errors, and a type-0
   * entry comes back as None (TypeError for an unknown entry type).
   */
  function ReturnArrayFromRaw(raw: seq<Byte>): (r: Result<ReturnMessage>)
    requires |raw| >= MESSAGE_TYPE_BYTES
    ensures r.Err? ==> r == Fail(ValueError) || r == Fail(TypeError)
    ensures r.Ok? ==> r.value.ReturnArrayMessage?
    ensures ReturnArrayFromRawAsWritten(raw).Err? ==> r == ReturnArrayFromRawAsWritten(raw)
    ensures r.Ok? ==> ReturnArrayFromRawAsWritten(raw).Ok?
  {
    var body := raw[MESSAGE_TYPE_BYTES..];
    if |body| < ARRAY_HEADER_BYTES then Fail(ValueError)
    else
      var length := DecodeInt32(body[4..8]);
      if length < 0 || |body| - ARRAY_HEADER_BYTES < OPTIONAL_INT_BYTES * length then Fail(ValueError)
      else
        var values :- DecodeOptionalInts(body[ARRAY_HEADER_BYTES..], length);
        Ok(ReturnArrayMessage(DecodeInt32(body[..4]), values))
  }

  /**
   * `deserialize_return_msg`: the type byte picks the class, then the
   * class's `deserialize_from`; a missing type byte, an unknown type or a
   * structure cut short raise ValueError.
   */
  function DeserializeReturnMsg(raw: seq<Byte>): (r: Result<ReturnMessage>)
    ensures r.Err? ==> r == Fail(ValueError) || r == Fail(TypeError)
    ensures |raw| < MESSAGE_TYPE_BYTES || raw[0] >= 4 ==> r == Fail(ValueError)
    ensures |raw| >= MESSAGE_TYPE_BYTES && raw[0] < 4 && |raw| < ReturnSize(ReturnMessageTypeOf(raw[0]).value) ==> r == Fail(ValueError)
    ensures r.Ok? ==> ReturnMessageTypeValue(ReturnType(r.value)) == raw[0]
  {
    if |raw| < MESSAGE_TYPE_BYTES then Fail(ValueError)
    else
      var t :- ReturnMessageTypeOf(raw[0]);
      if |raw| < ReturnSize(t) then Fail(ValueError)
      else
        match t
        case DoneType => Ok(MsgDoneMessage(DecodeUInt32(raw[4..8])))
        case ErrType => Ok(ErrorMessage(raw[1]))
        case RetArrType => ReturnArrayFromRaw(raw)
        case RetRegType => Ok(ReturnRegMessage(RegisterFromRaw(raw[1]), DecodeInt32(raw[4..8])))
  }

  /** Each OptionalInt reads back through `value()` as the value its field holds. */
  lemma OptionalIntStored(v: Option<int>)
    ensures OptionalIntValue(EncodeOptionalInt(v)) == Ok(StoredOptional(v))
    ensures OptionalIntField(EncodeOptionalInt(v)) == (if v.None? then 0 else WrapInt32(v.value))
  {
    var bs := EncodeOptionalInt(v);
    var x := if v.None? then 0 else v.value;
    assert bs[4..8] == EncodeInt32(x);
    Int32RoundTrip(x);
  }

  /** The first OptionalInt of an encoded list, and the rest. */
  lemma OptionalIntsSplit(vs: seq<Option<int>>, tail: seq<Byte>)
    requires vs != []
    ensures var bs := EncodeOptionalInts(vs) + tail;
      |bs| >= OPTIONAL_INT_BYTES
      && bs[..OPTIONAL_INT_BYTES] == EncodeOptionalInt(vs[0])
      && bs[OPTIONAL_INT_BYTES..] == EncodeOptionalInts(vs[1..]) + tail
  {
    var head := EncodeOptionalInt(vs[0]);
    var rest := EncodeOptionalInts(vs[1..]);
    assert EncodeOptionalInts(vs) == head + rest;
    Assoc(head, rest, tail);
    SplitAtSeam(head, rest + tail);
  }

  lemma {:induction false} OptionalIntsRoundTrip(vs: seq<Option<int>>, tail: seq<Byte>)
    ensures DecodeOptionalInts(EncodeOptionalInts(vs) + tail, |vs|) == Ok(StoredOptionals(vs))
  {
    if vs != [] {
      OptionalIntsSplit(vs, tail);
      OptionalIntStored(vs[0]);
      OptionalIntsRoundTrip(vs[1..], tail);
    }
  }

  /** What reading the int field of each entry gives: 0 for None, the 32-bit value otherwise. */
  function FieldReadings(vs: seq<Option<int>>): (ws: seq<Option<int>>)
    ensures |ws| == |vs|
    ensures forall k :: 0 <= k < |vs| ==> ws[k] == Some(if vs[k].None? then 0 else WrapInt32(vs[k].value))
  {
    if vs == [] then [] else [Some(if vs[0].None? then 0 else WrapInt32(vs[0].value))] + FieldReadings(vs[1..])
  }

  lemma {:induction false} OptionalIntFieldsRoundTrip(vs: seq<Option<int>>, tail: seq<Byte>)
    ensures DecodeOptionalIntFields(EncodeOptionalInts(vs) + tail, |vs|) == FieldReadings(vs)
  {
    if vs != [] {
      OptionalIntsSplit(vs, tail);
      OptionalIntStored(vs[0]);
      OptionalIntFieldsRoundTrip(vs[1..], tail);
    }
  }

  /**
   * Every return message reads back as the values it carries once framed:
   * fields wrapped to their C types, and None entries of a returned array
   * as None.
   */
  lemma ReturnRoundTrip(m: ReturnMessage)
    requires m.ReturnArrayMessage? ==> |m.values| <= INT32_MAX
    ensures DeserializeReturnMsg(ReturnMessageBytes(m)) == Ok(ReturnStored(m))
  {
    var bs := ReturnMessageBytes(m);
    match m
    case MsgDoneMessage(i) =>
      assert bs[4..8] == EncodeUInt32(i);
      UInt32RoundTrip(i);
    case ErrorMessage(c) =>
    case ReturnArrayMessage(a, vs) =>
      ArrayBodyParts(m);
      Int32RoundTrip(a);
      Int32RoundTrip(|vs|);
      OptionalIntsRoundTrip(vs, []);
    case ReturnRegMessage(reg, v) =>
      assert bs[4..8] == EncodeInt32(v);
      Int32RoundTrip(v);
  }

  /**
   * As written, a returned array reads back with its address wrapped to 32
   * bits and each entry as its int field: 0 for None, the wrapped value
   * otherwise.
   */
  lemma ReturnArrayRoundTripAsWritten(m: ReturnMessage)
    requires m.ReturnArrayMessage? && |m.values| <= INT32_MAX
    ensures ReturnArrayFromRawAsWritten(ReturnMessageBytes(m))
         == Ok(ReturnArrayMessage(WrapInt32(m.address), FieldReadings(m.values)))
  {
    ArrayBodyParts(m);
    Int32RoundTrip(m.address);
    Int32RoundTrip(|m.values|);
    OptionalIntFieldsRoundTrip(m.values, []);
  }

  /** The body of an encoded array: the address, the length, then the entries. */
  lemma ArrayBodyParts(m: ReturnMessage)
    requires m.ReturnArrayMessage?
    ensures var body := ReturnMessageBytes(m)[MESSAGE_TYPE_BYTES..];
      |body| >= ARRAY_HEADER_BYTES
      && body[..4] == EncodeInt32(m.address)
      && body[4..8] == EncodeInt32(|m.values|)
      && body[ARRAY_HEADER_BYTES..] == EncodeOptionalInts(m.values) + []
  {
    var bs := ReturnMessageBytes(m);
    match m
    case ReturnArrayMessage(a, vs) =>
      var body := bs[MESSAGE_TYPE_BYTES..];
      assert body == EncodeInt32(a) + EncodeInt32(|vs|) + EncodeOptionalInts(vs);
  }

  /**
   * As written, a returned array reads each entry's int field, so an entry
   * sent as None arrives as 0: `[None]` comes back as `[0]`.
   */
  lemma NoneArrivesAsZero()
    ensures ReturnArrayFromRawAsWritten(ReturnMessageBytes(ReturnArrayMessage(0, [None])))
         == Ok(ReturnArrayMessage(0, [Some(0)]))
    ensures ReturnArrayFromRaw(ReturnMessageBytes(ReturnArrayMessage(0, [None])))
         == Ok(ReturnArrayMessage(0, [None]))
  {
    var m := ReturnArrayMessage(0, [None]);
    var bs := ReturnMessageBytes(m);
    var body := bs[MESSAGE_TYPE_BYTES..];
    assert body == EncodeInt32(0) + EncodeInt32(1) + EncodeOptionalInts([None]);
    assert body[..4] == EncodeInt32(0);
    assert body[4..8] == EncodeInt32(1);
    assert body[ARRAY_HEADER_BYTES..] == EncodeOptionalInts([None]) + [];
    Int32RoundTrip(0);
    Int32RoundTrip(1);
    OptionalIntFieldsRoundTrip([None], []);
    OptionalIntsRoundTrip([None], []);
    assert StoredOptionals([None]) == [None];
    assert FieldReadings([None]) == [Some(0)];
  }

  /** On arrays without None entries, the reading as written and the corrected one agree. */
  lemma ArrayReadingsAgree(a: int, vs: seq<Option<int>>)
    requires |vs| <= INT32_MAX
    requires forall k :: 0 <= k < |vs| ==> vs[k].Some?
    ensures ReturnArrayFromRawAsWritten(ReturnMessageBytes(ReturnArrayMessage(a, vs)))
         == ReturnArrayFromRaw(ReturnMessageBytes(ReturnArrayMessage(a, vs)))
  {
    var bs := ReturnMessageBytes(ReturnArrayMessage(a, vs));
    var body := bs[MESSAGE_TYPE_BYTES..];
    assert body == EncodeInt32(a) + EncodeInt32(|vs|) + EncodeOptionalInts(vs);
    assert body[4..8] == EncodeInt32(|vs|);
    assert body[ARRAY_HEADER_BYTES..] == EncodeOptionalInts(vs) + [];
    Int32RoundTrip(|vs|);
    OptionalIntsRoundTrip(vs, []);
    OptionalIntFieldsRoundTrip(vs, []);
    assert FieldReadings(vs) == StoredOptionals(vs);
  }
}
