// `netqasm/lang/operand.py`: the operand value types of NetQASM
// instructions, their text forms, and their conversions to and from the
// ctypes structures of the binary encoding.

module Operand {
  import opened Wrappers
  import opened Encoding
  import opened StringUtil

  /** `RegisterName`: the four register banks. */
  datatype RegName = R | C | Q | M

  /** The enum value of a bank, which is also its 2-bit encoding. */
  function RegNameValueOf(n: RegName): (v: RegNameValue)
    ensures RegNameOfValue(v) == n
  {
    match n
    case R => 0
    case C => 1
    case Q => 2
    case M => 3
  }

  /** `RegisterName(v)` */
  function RegNameOfValue(v: RegNameValue): RegName
  {
    if v == 0 then R else if v == 1 then C else if v == 2 then Q else M
  }

  /** The bank letter, `RegisterName.name`. */
  function RegNameLetter(n: RegName): (c: char)
    ensures RegNameOfLetter(c) == Some(n)
  {
    match n
    case R => 'R'
    case C => 'C'
    case Q => 'Q'
    case M => 'M'
  }

  /** `RegisterName[c]` for the prefixes R, C, Q and M; None for any other character. */
  function RegNameOfLetter(c: char): Option<RegName>
  {
    if c == 'R' then Some(R)
    else if c == 'C' then Some(C)
    else if c == 'Q' then Some(Q)
    else if c == 'M' then Some(M)
    else None
  }

  lemma RegNameValueInjective(a: RegName, b: RegName)
    requires RegNameValueOf(a) == RegNameValueOf(b)
    ensures a == b
  {
    assert RegNameOfValue(RegNameValueOf(a)) == a;
  }

  /** `Register(name, index)`: a frozen value, equal when bank and index are. */
  datatype Register = Register(name: RegName, index: int)

  /** `str(register)`: bank letter followed by the index. */
  function RegisterText(r: Register): (s: string)
    ensures |s| >= 2 && s[0] == RegNameLetter(r.name)
    ensures s[1..] == IntToString(r.index)
  {
    [RegNameLetter(r.name)] + IntToString(r.index)
  }

  /**
   * `RegisterMeta.parse` / `Register.from_str`: at least two characters, a
   * bank prefix, an integer after it, and an index below 16.
   */
  function RegisterFromStr(s: string): (r: Result<Register>)
    ensures r.Ok? <==> |s| >= 2 && RegNameOfLetter(s[0]).Some? && IsNumber(s[1..]) && ParseNumber(s[1..]) < REG_COUNT
    ensures r.Ok? ==> r.value == Register(RegNameOfLetter(s[0]).value, ParseNumber(s[1..]))
  {
    if |s| < 2 then Fail(AssertionError)
    else if RegNameOfLetter(s[0]).None? then Fail(AssertionError)
    else
      var index :- PyInt(s[1..]);
      if index >= REG_COUNT then Fail(AssertionError)
      else Ok(Register(RegNameOfLetter(s[0]).value, index))
  }

  /** The text of a register with index below 16 parses back to the register. */
  lemma RegisterTextRoundTrip(r: Register)
    requires r.index < REG_COUNT
    ensures RegisterFromStr(RegisterText(r)) == Ok(r)
  {
    IntToStringRoundTrip(r.index);
  }

  /** `Register.cstruct`: the one-byte bitfield (bank, index modulo 16). */
  function RegisterCStruct(r: Register): (b: Byte)
    ensures RegisterNameBits(b) == RegNameValueOf(r.name)
    ensures RegisterIndexBits(b) == r.index % REG_COUNT
  {
    RegisterByteRoundTrip(RegNameValueOf(r.name), r.index);
    RegisterByte(RegNameValueOf(r.name), r.index)
  }

  /** `Register.from_raw` */
  function RegisterFromRaw(b: Byte): (r: Register)
    ensures 0 <= r.index < REG_COUNT
  {
    Register(RegNameOfValue(RegisterNameBits(b)), RegisterIndexBits(b))
  }

  /** `Register.from_raw(r.cstruct) == r` for every index in 0..15. */
  lemma RegisterRawRoundTrip(r: Register)
    requires 0 <= r.index < REG_COUNT
    ensures RegisterFromRaw(RegisterCStruct(r)) == r
  {
  }

  /** `Address(address)`: an array address. */
  datatype Address = Address(address: int)

  /** `str(address)`: "@" followed by the number. */
  function AddressText(a: Address): (s: string)
    ensures |s| >= 2 && s[0] == '@' && s[1..] == IntToString(a.address)
  {
    "@" + IntToString(a.address)
  }

  /** `Address.cstruct`: the c_int32 address (assignment wraps to 32 bits). */
  function AddressCStruct(a: Address): (bs: seq<Byte>)
    ensures |bs| == 4
  {
    EncodeInt32(a.address)
  }

  /** `Address.from_raw` */
  function AddressFromRaw(bs: seq<Byte>): (a: Address)
    requires |bs| == 4
    ensures FitsInt32(a.address)
  {
    Address(DecodeInt32(bs))
  }

  /** `Address.from_raw(a.cstruct) == a` for 32-bit addresses; others come back wrapped. */
  lemma AddressRawRoundTrip(a: Address)
    ensures AddressFromRaw(AddressCStruct(a)) == Address(WrapInt32(a.address))
    ensures FitsInt32(a.address) ==> AddressFromRaw(AddressCStruct(a)) == a
  {
    Int32RoundTrip(a.address);
  }

  /** An array index: a register, or (only in a proto-subroutine) an int. */
  datatype Index = IReg(reg: Register) | IInt(value: int)

  function IndexText(i: Index): string
  {
    match i
    case IReg(r) => RegisterText(r)
    case IInt(v) => IntToString(v)
  }

  /** `ArrayEntry(address, index)`; an int address is coerced to Address on construction. */
  datatype ArrayEntry = ArrayEntry(address: Address, index: Index)

  /** `ArraySlice(address, start, stop)`; an int address is coerced to Address on construction. */
  datatype ArraySlice = ArraySlice(address: Address, start: Index, stop: Index)

  /** `str(entry)`: the address followed by "[index]". */
  function ArrayEntryText(e: ArrayEntry): string
  {
    AddressText(e.address) + "[" + IndexText(e.index) + "]"
  }

  /** `str(slice)`: the address followed by "[start:stop]". */
  function ArraySliceText(s: ArraySlice): string
  {
    AddressText(s.address) + "[" + IndexText(s.start) + ":" + IndexText(s.stop) + "]"
  }

  /** `ArrayEntry.cstruct`: address then index register, packed; an int index fails `_assert_types`. */
  function ArrayEntryCStruct(e: ArrayEntry): (r: Result<seq<Byte>>)
    ensures r.Ok? <==> e.index.IReg?
    ensures r.Ok? ==> |r.value| == 5 && r.value[..4] == AddressCStruct(e.address)
    ensures r.Ok? ==> r.value[4] == RegisterCStruct(e.index.reg)
    ensures r.Err? ==> r.error.kind == AssertionError
  {
    match e.index
    case IReg(reg) => Ok(AddressCStruct(e.address) + [RegisterCStruct(reg)])
    case IInt(_) => Fail(AssertionError)
  }

  /** `ArrayEntry.from_raw` */
  function ArrayEntryFromRaw(bs: seq<Byte>): (e: ArrayEntry)
    requires |bs| == 5
    ensures e.index.IReg?
  {
    ArrayEntry(AddressFromRaw(bs[..4]), IReg(RegisterFromRaw(bs[4])))
  }

  /** `ArraySlice.cstruct`: address, start register, stop register, packed. */
  function ArraySliceCStruct(s: ArraySlice): (r: Result<seq<Byte>>)
    ensures r.Ok? <==> s.start.IReg? && s.stop.IReg?
    ensures r.Ok? ==> |r.value| == 6 && r.value[..4] == AddressCStruct(s.address)
    ensures r.Ok? ==> r.value[4] == RegisterCStruct(s.start.reg) && r.value[5] == RegisterCStruct(s.stop.reg)
    ensures r.Err? ==> r.error.kind == AssertionError
  {
    if s.start.IReg? && s.stop.IReg? then
      Ok(AddressCStruct(s.address) + [RegisterCStruct(s.start.reg), RegisterCStruct(s.stop.reg)])
    else Fail(AssertionError)
  }

  /** `ArraySlice.from_raw` */
  function ArraySliceFromRaw(bs: seq<Byte>): (s: ArraySlice)
    requires |bs| == 6
    ensures s.start.IReg? && s.stop.IReg?
  {
    ArraySlice(AddressFromRaw(bs[..4]), IReg(RegisterFromRaw(bs[4])), IReg(RegisterFromRaw(bs[5])))
  }

  /** An entry or slice whose registers and address fit is read back exactly. */
  predicate RegisterFits(r: Register) { 0 <= r.index < REG_COUNT }

  predicate IndexFits(i: Index) { i.IReg? && RegisterFits(i.reg) }

  lemma ArrayEntryRawRoundTrip(e: ArrayEntry)
    requires IndexFits(e.index) && FitsInt32(e.address.address)
    ensures ArrayEntryCStruct(e).Ok?
    ensures ArrayEntryFromRaw(ArrayEntryCStruct(e).value) == e
  {
    AddressRawRoundTrip(e.address);
  }

  lemma ArraySliceRawRoundTrip(s: ArraySlice)
    requires IndexFits(s.start) && IndexFits(s.stop) && FitsInt32(s.address.address)
    ensures ArraySliceCStruct(s).Ok?
    ensures ArraySliceFromRaw(ArraySliceCStruct(s).value) == s
  {
    AddressRawRoundTrip(s.address);
  }

  /**
   * An instruction operand. `Int` is a bare Python int as the text parser
   * and the builder produce it before `from_operands` wraps it; `Imm` is an
   * `Immediate`; `Lbl` is a `Label`; `Tmpl` is a `Template`.
   */
  datatype Operand =
    | Int(value: int)
    | Imm(imm: int)
    | Reg(reg: Register)
    | Addr(addr: Address)
    | Entry(entry: ArrayEntry)
    | Slice(slice: ArraySlice)
    | Lbl(labelName: string)
    | Tmpl(name: string)

  /** `str(operand)` */
  function OperandText(o: Operand): string
  {
    match o
    case Int(v) => IntToString(v)
    case Imm(v) => IntToString(v)
    case Reg(r) => RegisterText(r)
    case Addr(a) => AddressText(a)
    case Entry(e) => ArrayEntryText(e)
    case Slice(s) => ArraySliceText(s)
    case Lbl(n) => n
    case Tmpl(n) => "{" + n + "}"
  }

  /** Template text is the name in braces. */
  lemma TemplateText(n: string)
    ensures OperandText(Tmpl(n)) == "{" + n + "}"
    ensures |OperandText(Tmpl(n))| == |n| + 2
  {
  }
}
