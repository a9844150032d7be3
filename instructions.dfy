// The NetQASM instruction classes of `netqasm/lang/instr/base.py`,
// `core.py`, `vanilla.py` and `nv.py`: one opcode per instruction class,
// the operand shape each class inherits, `from_operands`, the 7-byte
// `serialize` / `deserialize_from`, the text forms, `writes_to`, the
// field aliases and the branch conditions.

module Instructions {
  import opened Wrappers
  import opened Encoding
  import opened StringUtil
  import opened Operand

  /** One constructor per instruction class; vanilla and NV classes are prefixed by their module. */
  datatype Opcode =
    // core.py
    | QAlloc | Init | ArrayDecl | Set | Store | Load | Undef | Lea
    | Jmp | Bez | Bnz | Beq | Bne | Blt | Bge
    | Add | Sub | Addm | Subm | Mul | Div | Rem
    | Meas | CreateEpr | RecvEpr | WaitAll | WaitAny | WaitSingle
    | QFree | RetReg | RetArr | Breakpoint
    // vanilla.py
    | VanillaGateX | VanillaGateY | VanillaGateZ | VanillaGateH
    | VanillaGateS | VanillaGateK | VanillaGateT
    | VanillaRotX | VanillaRotY | VanillaRotZ
    | VanillaCnot | VanillaCphase | VanillaMov
    // nv.py
    | NvGateX | NvGateY | NvGateZ | NvGateH
    | NvRotX | NvRotY | NvRotZ | NvCrotX | NvCrotY

  /** The class attribute `id`. */
  function OpId(op: Opcode): Byte
  {
    match op
    case QAlloc => 1
    case Init => 2
    case ArrayDecl => 3
    case Set => 4
    case Store => 5
    case Load => 6
    case Undef => 7
    case Lea => 8
    case Jmp => 9
    case Bez => 10
    case Bnz => 11
    case Beq => 12
    case Bne => 13
    case Blt => 14
    case Bge => 15
    case Add => 16
    case Sub => 17
    case Addm => 18
    case Subm => 19
    case Mul => 200
    case Div => 201
    case Rem => 202
    case Meas => 32
    case CreateEpr => 33
    case RecvEpr => 34
    case WaitAll => 35
    case WaitAny => 36
    case WaitSingle => 37
    case QFree => 38
    case RetReg => 39
    case RetArr => 40
    case Breakpoint => 100
    case VanillaGateX => 20
    case VanillaGateY => 21
    case VanillaGateZ => 22
    case VanillaGateH => 23
    case VanillaGateS => 24
    case VanillaGateK => 25
    case VanillaGateT => 26
    case VanillaRotX => 27
    case VanillaRotY => 28
    case VanillaRotZ => 29
    case VanillaCnot => 30
    case VanillaCphase => 31
    case VanillaMov => 41
    case NvGateX => 20
    case NvGateY => 21
    case NvGateZ => 22
    case NvGateH => 23
    case NvRotX => 27
    case NvRotY => 28
    case NvRotZ => 29
    case NvCrotX => 30
    case NvCrotY => 31
  }

  /** The class attribute `mnemonic`. */
  function Mnemonic(op: Opcode): string
  {
    match op
    case QAlloc => "qalloc"
    case Init => "init"
    case ArrayDecl => "array"
    case Set => "set"
    case Store => "store"
    case Load => "load"
    case Undef => "undef"
    case Lea => "lea"
    case Jmp => "jmp"
    case Bez => "bez"
    case Bnz => "bnz"
    case Beq => "beq"
    case Bne => "bne"
    case Blt => "blt"
    case Bge => "bge"
    case Add => "add"
    case Sub => "sub"
    case Addm => "addm"
    case Subm => "subm"
    case Mul => "mul"
    case Div => "div"
    case Rem => "rem"
    case Meas => "meas"
    case CreateEpr => "create_epr"
    case RecvEpr => "recv_epr"
    case WaitAll => "wait_all"
    case WaitAny => "wait_any"
    case WaitSingle => "wait_single"
    case QFree => "qfree"
    case RetReg => "ret_reg"
    case RetArr => "ret_arr"
    case Breakpoint => "breakpoint"
    case VanillaGateX => "x"
    case VanillaGateY => "y"
    case VanillaGateZ => "z"
    case VanillaGateH => "h"
    case VanillaGateS => "s"
    case VanillaGateK => "k"
    case VanillaGateT => "t"
    case VanillaRotX => "rot_x"
    case VanillaRotY => "rot_y"
    case VanillaRotZ => "rot_z"
    case VanillaCnot => "cnot"
    case VanillaCphase => "cphase"
    case VanillaMov => "mov"
    case NvGateX => "x"
    case NvGateY => "y"
    case NvGateZ => "z"
    case NvGateH => "h"
    case NvRotX => "rot_x"
    case NvRotY => "rot_y"
    case NvRotZ => "rot_z"
    case NvCrotX => "crot_x"
    case NvCrotY => "crot_y"
  }

  /** The module that defines an instruction class. */
  datatype InstrModule = CoreModule | VanillaModule | NvModule

  function ModuleOf(op: Opcode): InstrModule
  {
    match op
    case QAlloc => CoreModule
    case Init => CoreModule
    case ArrayDecl => CoreModule
    case Set => CoreModule
    case Store => CoreModule
    case Load => CoreModule
    case Undef => CoreModule
    case Lea => CoreModule
    case Jmp => CoreModule
    case Bez => CoreModule
    case Bnz => CoreModule
    case Beq => CoreModule
    case Bne => CoreModule
    case Blt => CoreModule
    case Bge => CoreModule
    case Add => CoreModule
    case Sub => CoreModule
    case Addm => CoreModule
    case Subm => CoreModule
    case Mul => CoreModule
    case Div => CoreModule
    case Rem => CoreModule
    case Meas => CoreModule
    case CreateEpr => CoreModule
    case RecvEpr => CoreModule
    case WaitAll => CoreModule
    case WaitAny => CoreModule
    case WaitSingle => CoreModule
    case QFree => CoreModule
    case RetReg => CoreModule
    case RetArr => CoreModule
    case Breakpoint => CoreModule
    case VanillaGateX => VanillaModule
    case VanillaGateY => VanillaModule
    case VanillaGateZ => VanillaModule
    case VanillaGateH => VanillaModule
    case VanillaGateS => VanillaModule
    case VanillaGateK => VanillaModule
    case VanillaGateT => VanillaModule
    case VanillaRotX => VanillaModule
    case VanillaRotY => VanillaModule
    case VanillaRotZ => VanillaModule
    case VanillaCnot => VanillaModule
    case VanillaCphase => VanillaModule
    case VanillaMov => VanillaModule
    case NvGateX => NvModule
    case NvGateY => NvModule
    case NvGateZ => NvModule
    case NvGateH => NvModule
    case NvRotX => NvModule
    case NvRotY => NvModule
    case NvRotZ => NvModule
    case NvCrotX => NvModule
    case NvCrotY => NvModule
  }

  predicate IsVanilla(op: Opcode) { ModuleOf(op) == VanillaModule }

  predicate IsNv(op: Opcode) { ModuleOf(op) == NvModule }

  predicate IsCore(op: Opcode) { ModuleOf(op) == CoreModule }

  /**
   * The intermediate class of core.py (or, where there is none, the
   * base.py shape with the aliases its class adds), which fixes an
   * instruction's operand shape and field aliases.
   */
  datatype Family =
    | QubitFamily           // qalloc, init, qfree and SingleQubitInstruction: `qreg`
    | RetRegFamily          // ret_reg
    | TwoQubitFamily        // TwoQubitInstruction: `qreg0`, `qreg1`
    | MeasFamily            // meas: `qreg`, `creg`
    | RotationFamily        // RotationInstruction: `qreg`, `angle_num`, `angle_denom`
    | ControlledRotationFamily
    | ClassicalOpFamily     // `regout`, `regin0`, `regin1`
    | ClassicalOpModFamily  // and `regmod`
    | ArrayFamily           // array: `size`
    | LeaFamily
    | SetFamily
    | JmpFamily             // `line`
    | BranchUnaryFamily     // `line`
    | BranchBinaryFamily    // `line`
    | RegEntryFamily        // store, load
    | ArrayEntryFamily      // undef, wait_single
    | ArraySliceFamily      // wait_all, wait_any
    | RetArrFamily
    | CreateEprFamily
    | RecvEprFamily
    | BreakpointFamily      // `action`, `role`

  function FamilyOf(op: Opcode): Family
  {
    match op
    case QAlloc => QubitFamily
    case Init => QubitFamily
    case QFree => QubitFamily
    case VanillaGateX => QubitFamily
    case VanillaGateY => QubitFamily
    case VanillaGateZ => QubitFamily
    case VanillaGateH => QubitFamily
    case VanillaGateS => QubitFamily
    case VanillaGateK => QubitFamily
    case VanillaGateT => QubitFamily
    case NvGateX => QubitFamily
    case NvGateY => QubitFamily
    case NvGateZ => QubitFamily
    case NvGateH => QubitFamily
    case RetReg => RetRegFamily
    case VanillaCnot => TwoQubitFamily
    case VanillaCphase => TwoQubitFamily
    case VanillaMov => TwoQubitFamily
    case Meas => MeasFamily
    case VanillaRotX => RotationFamily
    case VanillaRotY => RotationFamily
    case VanillaRotZ => RotationFamily
    case NvRotX => RotationFamily
    case NvRotY => RotationFamily
    case NvRotZ => RotationFamily
    case NvCrotX => ControlledRotationFamily
    case NvCrotY => ControlledRotationFamily
    case Add => ClassicalOpFamily
    case Sub => ClassicalOpFamily
    case Mul => ClassicalOpFamily
    case Div => ClassicalOpFamily
    case Rem => ClassicalOpFamily
    case Addm => ClassicalOpModFamily
    case Subm => ClassicalOpModFamily
    case ArrayDecl => ArrayFamily
    case Lea => LeaFamily
    case Set => SetFamily
    case Jmp => JmpFamily
    case Bez => BranchUnaryFamily
    case Bnz => BranchUnaryFamily
    case Beq => BranchBinaryFamily
    case Bne => BranchBinaryFamily
    case Blt => BranchBinaryFamily
    case Bge => BranchBinaryFamily
    case Store => RegEntryFamily
    case Load => RegEntryFamily
    case Undef => ArrayEntryFamily
    case WaitSingle => ArrayEntryFamily
    case WaitAll => ArraySliceFamily
    case WaitAny => ArraySliceFamily
    case RetArr => RetArrFamily
    case CreateEpr => CreateEprFamily
    case RecvEpr => RecvEprFamily
    case Breakpoint => BreakpointFamily
  }

  predicate IsSingleQubit(op: Opcode) { FamilyOf(op) == QubitFamily && !op.QAlloc? && !op.Init? && !op.QFree? }
  predicate IsTwoQubit(op: Opcode) { FamilyOf(op) == TwoQubitFamily }
  /** `RotationInstruction` subclasses, whose angles may also be Templates or Registers. */
  predicate IsRotation(op: Opcode) { FamilyOf(op) == RotationFamily }
  predicate IsControlledRotation(op: Opcode) { FamilyOf(op) == ControlledRotationFamily }
  predicate IsClassicalOp(op: Opcode) { FamilyOf(op) == ClassicalOpFamily }
  predicate IsClassicalOpMod(op: Opcode) { FamilyOf(op) == ClassicalOpModFamily }
  predicate IsBranchUnary(op: Opcode) { FamilyOf(op) == BranchUnaryFamily }
  predicate IsBranchBinary(op: Opcode) { FamilyOf(op) == BranchBinaryFamily }

  // ---------------------------------------------------------------------
  // Shapes: the operand-carrying base classes of base.py

  datatype Shape =
    | RegShape | RegRegShape | RegImmImmShape | RegRegImmImmShape
    | RegRegRegShape | RegRegRegRegShape | ImmShape | ImmImmShape
    | RegRegImmShape | RegImmShape | RegEntryShape | RegAddrShape
    | ArrayEntryShape | ArraySliceShape | AddrShape | Reg5Shape

  /** The base class of each family. */
  function FamilyShape(f: Family): Shape
  {
    match f
    case QubitFamily => RegShape
    case RetRegFamily => RegShape
    case TwoQubitFamily => RegRegShape
    case MeasFamily => RegRegShape
    case RotationFamily => RegImmImmShape
    case ControlledRotationFamily => RegRegImmImmShape
    case ClassicalOpFamily => RegRegRegShape
    case ClassicalOpModFamily => RegRegRegRegShape
    case ArrayFamily => RegAddrShape
    case LeaFamily => RegAddrShape
    case SetFamily => RegImmShape
    case JmpFamily => ImmShape
    case BranchUnaryFamily => RegImmShape
    case BranchBinaryFamily => RegRegImmShape
    case RegEntryFamily => RegEntryShape
    case ArrayEntryFamily => ArrayEntryShape
    case ArraySliceFamily => ArraySliceShape
    case RetArrFamily => AddrShape
    case CreateEprFamily => Reg5Shape
    case RecvEprFamily => RegRegRegRegShape
    case BreakpointFamily => ImmImmShape
  }

  /** The base class each instruction class derives from. */
  function ShapeOf(op: Opcode): Shape
  {
    FamilyShape(FamilyOf(op))
  }

  /**
   * The encoding structure a shape serializes through; `ImmImmInstruction`
   * names an `ImmImmCommand` that encoding.py does not define.
   */
  function ShapeLayout(s: Shape): Option<CommandLayout>
  {
    match s
    case RegShape => Some(RegCommand)
    case RegRegShape => Some(RegRegCommand)
    case RegImmImmShape => Some(RegImmImmCommand)
    case RegRegImmImmShape => Some(RegRegImmImmCommand)
    case RegRegRegShape => Some(RegRegRegCommand)
    case RegRegRegRegShape => Some(RegRegRegRegCommand)
    case ImmShape => Some(ImmCommand)
    case ImmImmShape => None
    case RegRegImmShape => Some(RegRegImmCommand)
    case RegImmShape => Some(RegImmCommand)
    case RegEntryShape => Some(RegEntryCommand)
    case RegAddrShape => Some(RegAddrCommand)
    case ArrayEntryShape => Some(ArrayEntryCommand)
    case ArraySliceShape => Some(ArraySliceCommand)
    case AddrShape => Some(AddrCommand)
    case Reg5Shape => Some(Reg5Command)
  }

  /** The operand fields of a shape, in declaration order (the order of `operands`). */
  function ShapeFields(s: Shape): (fs: seq<FieldKind>)
    ensures 1 <= |fs| <= 5
  {
    match ShapeLayout(s)
    case Some(l) => LayoutFields(l)
    case None => [ImmediateField, ImmediateField]
  }

  function Fields(op: Opcode): seq<FieldKind>
  {
    ShapeFields(ShapeOf(op))
  }

  function Arity(op: Opcode): nat
  {
    |Fields(op)|
  }

  predicate IsImmField(k: FieldKind) { k == ImmediateField || k == IntegerField }

  // ---------------------------------------------------------------------
  // Instruction values

  /**
   * An instruction object: a class with its operand values in field order
   * and its `lineno`, or a `DebugInstruction` carrying text.
   */
  datatype Instr =
    | Cmd(op: Opcode, operands: seq<Operand>, lineno: Option<int>)
    | Debug(text: string, lineno: Option<int>)

  /**
   * What a field of an instruction object can hold once constructed:
   * the declared type, except that `set` also holds a Template and a
   * rotation angle a Template or a Register (core.py).
   */
  predicate FieldHolds(op: Opcode, k: FieldKind, o: Operand)
  {
    match k
    case RegisterField => o.Reg?
    case ImmediateField => o.Imm? || (IsRotation(op) && (o.Tmpl? || o.Reg?))
    case IntegerField => o.Imm? || (op == Set && o.Tmpl?)
    case AddressField => o.Addr?
    case EntryField => o.Entry?
    case SliceField => o.Slice?
  }

  predicate WellTyped(i: Instr)
  {
    i.Cmd? ==>
      |i.operands| == Arity(i.op) &&
      forall k :: 0 <= k < |i.operands| ==> FieldHolds(i.op, Fields(i.op)[k], i.operands[k])
  }

  /** A bare int becomes an `Immediate`; every other operand is kept. */
  function Wrap(o: Operand): (w: Operand)
    ensures !w.Int?
    ensures o.Int? ==> w == Imm(o.value)
  {
    if o.Int? then Imm(o.value) else o
  }

  /** Whether `from_operands` of op accepts o at a field of kind k. */
  predicate Accepts(op: Opcode, k: FieldKind, o: Operand)
  {
    match k
    case RegisterField => o.Reg?
    case ImmediateField => o.Int? || (IsRotation(op) && (o.Imm? || o.Tmpl? || o.Reg?))
    case IntegerField => o.Int? || (op == Set && (o.Imm? || o.Tmpl?))
    case AddressField => o.Addr?
    case EntryField => o.Entry?
    case SliceField => o.Slice?
  }

  function WrapAll(ops: seq<Operand>): (ws: seq<Operand>)
    ensures |ws| == |ops|
    ensures forall j :: 0 <= j < |ops| ==> ws[j] == Wrap(ops[j])
  {
    if ops == [] then [] else [Wrap(ops[0])] + WrapAll(ops[1..])
  }

  /**
   * `cls.from_operands(operands)`: asserts the arity and the kind of each
   * operand, wraps ints as Immediates, and builds an instruction without
   * a line number.
   */
  function FromOperands(op: Opcode, ops: seq<Operand>): (r: Result<Instr>)
    ensures r.Ok? <==> |ops| == Arity(op) && forall k :: 0 <= k < |ops| ==> Accepts(op, Fields(op)[k], ops[k])
    ensures r.Ok? ==> r.value.Cmd? && r.value.op == op && r.value.lineno == None
    ensures r.Ok? ==> |r.value.operands| == |ops| && forall k :: 0 <= k < |ops| ==> r.value.operands[k] == Wrap(ops[k])
    ensures r.Ok? ==> WellTyped(r.value)
    ensures r.Err? ==> r.error.kind == AssertionError
  {
    if |ops| == Arity(op) && forall k :: 0 <= k < |ops| ==> Accepts(op, Fields(op)[k], ops[k]) then
      Ok(Cmd(op, WrapAll(ops), None))
    else Fail(AssertionError)
  }

  /** An Immediate read back as the bare int it came from. */
  function Unwrap(o: Operand): (u: Operand)
    ensures Wrap(u) == Wrap(o)
  {
    if o.Imm? then Int(o.imm) else o
  }

  /**
   * An instruction built by `from_operands` is rebuilt by `from_operands`
   * from its own operands, once its Immediates are given back as ints.
   */
  lemma FromOperandsRebuilds(op: Opcode, ops: seq<Operand>)
    requires FromOperands(op, ops).Ok?
    ensures var i := FromOperands(op, ops).value;
      FromOperands(op, seq(|i.operands|, j requires 0 <= j < |i.operands| => Unwrap(i.operands[j]))) == Ok(i)
  {
    var i := FromOperands(op, ops).value;
    var us := seq(|i.operands|, j requires 0 <= j < |i.operands| => Unwrap(i.operands[j]));
    forall k | 0 <= k < |us| ensures Accepts(op, Fields(op)[k], us[k]) {
      assert i.operands[k] == Wrap(ops[k]);
    }
    assert WrapAll(us) == i.operands;
  }

  /** The base `from_operands` takes bare ints only: an Immediate is refused outside set and rotations. */
  lemma FromOperandsRefusesImmediate(line: int)
    ensures FromOperands(Jmp, [Int(line)]) == Ok(Cmd(Jmp, [Imm(line)], None))
    ensures FromOperands(Jmp, [Imm(line)]).Err?
    ensures FromOperands(Set, [Reg(Register(R, 0)), Imm(line)]).Ok?
  {
    assert Fields(Jmp) == [IntegerField];
    assert WrapAll([Int(line)]) == [Imm(line)];
    assert Fields(Set) == [RegisterField, IntegerField];
  }

  // ---------------------------------------------------------------------
  // Binary encoding of one command

  /**
   * The bytes ctypes stores for one field: a register through its bitfield,
   * an Immediate through its `.value` truncated to the field width. A value
   * without the attribute the field reads (`.cstruct`, `.value`) raises
   * AttributeError.
   */
  function EncodeField(k: FieldKind, o: Operand): (r: Result<seq<Byte>>)
    ensures r.Ok? ==> |r.value| == FieldBytes(k)
    ensures r.Err? ==> (r.error.kind == AttributeError || r.error.kind == AssertionError)
  {
    match k
    case RegisterField => if o.Reg? then Ok([RegisterCStruct(o.reg)]) else Fail(AttributeError)
    case ImmediateField => if o.Imm? then Ok(EncodeUInt8(o.imm)) else Fail(AttributeError)
    case IntegerField => if o.Imm? then Ok(EncodeInt32(o.imm)) else Fail(AttributeError)
    case AddressField => if o.Addr? then Ok(AddressCStruct(o.addr)) else Fail(AttributeError)
    case EntryField => if o.Entry? then ArrayEntryCStruct(o.entry) else Fail(AttributeError)
    case SliceField => if o.Slice? then ArraySliceCStruct(o.slice) else Fail(AttributeError)
  }

  /** `from_raw` of one field. */
  function DecodeField(k: FieldKind, bs: seq<Byte>): (o: Operand)
    requires |bs| == FieldBytes(k)
    ensures FieldFits(k, o)
  {
    match k
    case RegisterField => Reg(RegisterFromRaw(bs[0]))
    case ImmediateField => Imm(bs[0])
    case IntegerField => Imm(DecodeInt32(bs))
    case AddressField => Addr(AddressFromRaw(bs))
    case EntryField => Entry(ArrayEntryFromRaw(bs))
    case SliceField => Slice(ArraySliceFromRaw(bs))
  }

  /** The value is of the field's type and fits its C width, so it is stored without loss. */
  predicate FieldFits(k: FieldKind, o: Operand)
  {
    match k
    case RegisterField => o.Reg? && RegisterFits(o.reg)
    case ImmediateField => o.Imm? && FitsUInt8(o.imm)
    case IntegerField => o.Imm? && FitsInt32(o.imm)
    case AddressField => o.Addr? && FitsInt32(o.addr.address)
    case EntryField => o.Entry? && IndexFits(o.entry.index) && FitsInt32(o.entry.address.address)
    case SliceField =>
      o.Slice? && IndexFits(o.slice.start) && IndexFits(o.slice.stop) && FitsInt32(o.slice.address.address)
  }

  lemma FieldRoundTrip(k: FieldKind, o: Operand)
    requires FieldFits(k, o)
    ensures EncodeField(k, o).Ok?
    ensures DecodeField(k, EncodeField(k, o).value) == o
  {
    match k
    case RegisterField =>
    case ImmediateField =>
    case IntegerField => Int32RoundTrip(o.imm);
    case AddressField => AddressRawRoundTrip(o.addr);
    case EntryField => ArrayEntryRawRoundTrip(o.entry);
    case SliceField => ArraySliceRawRoundTrip(o.slice);
  }

  function EncodeFields(ks: seq<FieldKind>, os: seq<Operand>): (r: Result<seq<Byte>>)
    requires |ks| == |os|
    ensures r.Ok? ==> |r.value| == FieldsBytes(ks)
    ensures r.Err? ==> (r.error.kind == AttributeError || r.error.kind == AssertionError)
  {
    if ks == [] then Ok([])
    else
      var h := EncodeField(ks[0], os[0]);
      var t := EncodeFields(ks[1..], os[1..]);
      if h.Err? then Err(h.error)
      else if t.Err? then Err(t.error)
      else Ok(h.value + t.value)
  }

  function DecodeFields(ks: seq<FieldKind>, bs: seq<Byte>): (os: seq<Operand>)
    requires |bs| >= FieldsBytes(ks)
    ensures |os| == |ks|
  {
    if ks == [] then []
    else
      var n := FieldBytes(ks[0]);
      [DecodeField(ks[0], bs[..n])] + DecodeFields(ks[1..], bs[n..])
  }

  /** Decoded fields always fit their C widths. */
  lemma {:induction false} DecodeFieldsFit(ks: seq<FieldKind>, bs: seq<Byte>)
    requires |bs| >= FieldsBytes(ks)
    ensures forall j :: 0 <= j < |ks| ==> FieldFits(ks[j], DecodeFields(ks, bs)[j])
  {
    if ks != [] {
      var n := FieldBytes(ks[0]);
      DecodeFieldsFit(ks[1..], bs[n..]);
      assert DecodeFields(ks, bs) == [DecodeField(ks[0], bs[..n])] + DecodeFields(ks[1..], bs[n..]);
    }
  }

  lemma {:induction false} FieldsRoundTrip(ks: seq<FieldKind>, os: seq<Operand>, tail: seq<Byte>)
    requires |ks| == |os|
    requires forall j :: 0 <= j < |ks| ==> FieldFits(ks[j], os[j])
    ensures EncodeFields(ks, os).Ok?
    ensures DecodeFields(ks, EncodeFields(ks, os).value + tail) == os
  {
    if ks != [] {
      FieldRoundTrip(ks[0], os[0]);
      FieldsRoundTrip(ks[1..], os[1..], tail);
      FieldsRoundTripCons(ks, os, tail);
    }
  }

  lemma FieldsRoundTripCons(ks: seq<FieldKind>, os: seq<Operand>, tail: seq<Byte>)
    requires |ks| == |os| > 0
    requires EncodeField(ks[0], os[0]).Ok? && DecodeField(ks[0], EncodeField(ks[0], os[0]).value) == os[0]
    requires EncodeFields(ks[1..], os[1..]).Ok?
    requires DecodeFields(ks[1..], EncodeFields(ks[1..], os[1..]).value + tail) == os[1..]
    ensures EncodeFields(ks, os).Ok?
    ensures DecodeFields(ks, EncodeFields(ks, os).value + tail) == os
  {
    var h := EncodeField(ks[0], os[0]).value;
    var t := EncodeFields(ks[1..], os[1..]).value;
    EncodeFieldsCons(ks, os);
    var bs := EncodeFields(ks, os).value + tail;
    ConcatSlices(h, t, tail);
    assert DecodeFields(ks, bs) == [DecodeField(ks[0], bs[..|h|])] + DecodeFields(ks[1..], bs[|h|..]);
    assert os == [os[0]] + os[1..];
  }

  lemma ConcatSlices(h: seq<Byte>, t: seq<Byte>, tail: seq<Byte>)
    ensures (h + t + tail)[..|h|] == h
    ensures (h + t + tail)[|h|..] == t + tail
  {
  }

  lemma EncodeFieldsCons(ks: seq<FieldKind>, os: seq<Operand>)
    requires |ks| == |os| > 0
    requires EncodeField(ks[0], os[0]).Ok? && EncodeFields(ks[1..], os[1..]).Ok?
    ensures EncodeFields(ks, os) == Ok(EncodeField(ks[0], os[0]).value + EncodeFields(ks[1..], os[1..]).value)
  {
  }

  function Zeros(n: int): (z: seq<Byte>)
    ensures |z| == (if n < 0 then 0 else n) && forall j :: 0 <= j < |z| ==> z[j] == 0
  {
    if n <= 0 then [] else [0] + Zeros(n - 1)
  }

  lemma ShapeFits(s: Shape)
    ensures 1 + FieldsBytes(ShapeFields(s)) <= COMMAND_BYTES
  {
    match ShapeLayout(s)
    case Some(l) => AllLayoutsFit(l);
    case None => FieldsBytesUnroll(ShapeFields(s));
  }

  /** The bytes of a command structure: id, fields, zero padding up to COMMAND_BYTES. */
  function CommandBytes(id: Byte, body: seq<Byte>): (bs: seq<Byte>)
    ensures |bs| >= 1 + |body|
    ensures bs[0] == id && bs[1..1 + |body|] == body
    ensures 1 + |body| <= COMMAND_BYTES ==> |bs| == COMMAND_BYTES
    ensures forall j :: 1 + |body| <= j < |bs| ==> bs[j] == 0
  {
    var bs := [id] + body + Zeros(COMMAND_BYTES - 1 - |body|);
    assert bs[1..1 + |body|] == body;
    bs
  }

  /** The serialization of a command of a given shape and id. */
  function SerializeShape(id: Byte, s: Shape, ops: seq<Operand>): (r: Result<seq<Byte>>)
    requires |ops| == |ShapeFields(s)|
    ensures r.Ok? <==> ShapeLayout(s).Some? && EncodeFields(ShapeFields(s), ops).Ok?
    ensures r.Ok? ==> r.value == CommandBytes(id, EncodeFields(ShapeFields(s), ops).value)
    ensures r.Ok? ==> |r.value| == COMMAND_BYTES
    ensures r.Err? ==> (r.error.kind == AttributeError || r.error.kind == AssertionError)
  {
    if ShapeLayout(s).None? then Fail(AttributeError)
    else
      var body := EncodeFields(ShapeFields(s), ops);
      if body.Err? then Err(body.error)
      else
        ShapeFits(s);
        Ok(CommandBytes(id, body.value))
  }

  /**
   * `instr.serialize()`: the id byte, the packed fields and the zero padding
   * of the shape's command structure; a `DebugInstruction` gives no bytes.
   */
  function Serialize(i: Instr): (r: Result<seq<Byte>>)
    requires i.Cmd? ==> |i.operands| == Arity(i.op)
    ensures i.Debug? ==> r == Ok([])
    ensures i.Cmd? ==> (r.Ok? <==> ShapeLayout(ShapeOf(i.op)).Some? && EncodeFields(Fields(i.op), i.operands).Ok?)
    ensures r.Ok? && i.Cmd? ==> r.value == CommandBytes(OpId(i.op), EncodeFields(Fields(i.op), i.operands).value)
    ensures r.Ok? && i.Cmd? ==> |r.value| == COMMAND_BYTES
    ensures r.Err? ==> (r.error.kind == AttributeError || r.error.kind == AssertionError)
  {
    match i
    case Debug(_, _) => Ok([])
    case Cmd(op, ops, _) => SerializeShape(OpId(op), ShapeOf(op), ops)
  }

  /**
   * `cls.deserialize_from(raw)`: reads the class's command structure from
   * the first 7 bytes, asserts the id and rebuilds the instruction without
   * a line number.
   */
  function Deserialize(op: Opcode, raw: seq<Byte>): (r: Result<Instr>)
    ensures r.Ok? <==> ShapeLayout(ShapeOf(op)).Some? && |raw| >= COMMAND_BYTES && raw[0] == OpId(op)
    ensures r.Ok? ==> r.value.Cmd? && r.value.op == op && r.value.lineno == None && WellTyped(r.value)
    ensures r.Ok? ==> forall k :: 0 <= k < Arity(op) ==> FieldFits(Fields(op)[k], r.value.operands[k])
    ensures r.Err? && ShapeLayout(ShapeOf(op)).Some? && |raw| >= COMMAND_BYTES ==> r.error.kind == AssertionError
  {
    if ShapeLayout(ShapeOf(op)).None? then Fail(AttributeError)
    else if |raw| < COMMAND_BYTES then Fail(ValueError)
    else if raw[0] != OpId(op) then Fail(AssertionError)
    else
      ShapeFits(ShapeOf(op));
      var os := DecodeFields(Fields(op), raw[1..]);
      DecodeFieldsFit(Fields(op), raw[1..]);
      assert forall k :: 0 <= k < |os| ==> FieldHolds(op, Fields(op)[k], os[k]);
      Ok(Cmd(op, os, None))
  }

  /** Every operand of the instruction fits its field. */
  predicate Fits(i: Instr)
  {
    i.Cmd? && |i.operands| == Arity(i.op) &&
    forall k :: 0 <= k < |i.operands| ==> FieldFits(Fields(i.op)[k], i.operands[k])
  }

  /** `deserialize_from(serialize(i)) == i` for an instruction whose operands fit their C widths. */
  lemma SerializeRoundTrip(i: Instr)
    requires Fits(i) && i.lineno == None
    requires ShapeLayout(ShapeOf(i.op)).Some?
    ensures Serialize(i).Ok?
    ensures Deserialize(i.op, Serialize(i).value) == Ok(i)
  {
    var fs := Fields(i.op);
    FieldsRoundTrip(fs, i.operands, []);
    var raw := Serialize(i).value;
    var body := EncodeFields(fs, i.operands).value;
    FieldsRoundTrip(fs, i.operands, raw[1 + |body|..]);
    assert raw[1..] == body + raw[1 + |body|..];
  }

  /** Breakpoints cannot be encoded or decoded: `ImmImmCommand` does not exist. */
  lemma BreakpointHasNoEncoding(i: Instr, raw: seq<Byte>)
    requires i.Cmd? && i.op == Breakpoint && |i.operands| == 2
    ensures Serialize(i) == Fail(AttributeError)
    ensures Deserialize(Breakpoint, raw) == Fail(AttributeError)
  {
    assert ShapeOf(Breakpoint) == ImmImmShape;
    assert Arity(Breakpoint) == 2;
  }

  // ---------------------------------------------------------------------
  // Text forms

  function OperandsText(os: seq<Operand>): string
  {
    if os == [] then [] else " " + OperandText(os[0]) + OperandsText(os[1..])
  }

  /** `str(instr)` (`_pretty_print`): the mnemonic and the operands each after a space; "# text" for debug. */
  function InstrText(i: Instr): (s: string)
    ensures i.Debug? ==> s == "# " + i.text
    ensures i.Cmd? ==> PyStr.StartsWith(s, Mnemonic(i.op))
  {
    match i
    case Debug(t, _) => "# " + t
    case Cmd(op, os, _) =>
      assert (Mnemonic(op) + OperandsText(os))[..|Mnemonic(op)|] == Mnemonic(op);
      Mnemonic(op) + OperandsText(os)
  }

  /** `_get_lineno_str`: "(n)" or "()" right-aligned in 5 characters, then a space. */
  function LinenoText(l: Option<int>): (s: string)
    ensures |s| >= 6 && s[|s| - 1] == ' '
    ensures l.None? ==> s == "   () "
  {
    var t := if l.None? then "()" else "(" + IntToString(l.value) + ")";
    var p := RSpaces(t, 5);
    if l.None? then
      assert p == "   ()" by {
        assert |p| == 5;
        assert p[3..] == "()";
        assert forall j :: 0 <= j < 3 ==> p[j] == ' ';
      }
      p + " "
    else p + " "
  }

  /** `debug_str`: the line-number column, then the instruction text. */
  function DebugStr(i: Instr): (s: string)
    ensures PyStr.EndsWith(s, InstrText(i))
    ensures PyStr.StartsWith(s, LinenoText(i.lineno))
  {
    var l := LinenoText(i.lineno);
    assert (l + InstrText(i))[..|l|] == l;
    assert (l + InstrText(i))[|l|..] == InstrText(i);
    l + InstrText(i)
  }

  /** A line number of up to three digits fills the column exactly: it is 6 characters wide. */
  lemma LinenoColumnWidth(n: int)
    requires 0 <= n < 1000
    ensures |LinenoText(Some(n))| == 6
  {
    NatToStringLength(n);
  }

  lemma NatToStringLength(n: int)
    requires 0 <= n < 1000
    ensures |IntToString(n)| <= 3
  {
    if n >= 100 {
      NatDigits3(n);
    } else if n >= 10 {
      NatDigits2(n);
    }
  }

  lemma NatDigits2(n: int)
    requires 10 <= n < 100
    ensures |NatToString(n)| == 2
  {
    assert NatToString(n) == NatToString(n / 10) + [DigitChar(n % 10)];
  }

  lemma NatDigits3(n: int)
    requires 100 <= n < 1000
    ensures |NatToString(n)| == 3
  {
    NatDigits2(n / 10);
    assert NatToString(n) == NatToString(n / 10) + [DigitChar(n % 10)];
  }

  // ---------------------------------------------------------------------
  // Field aliases, writes_to and branch conditions

  /** The named properties of core.py that rename a positional field. */
  datatype Alias =
    | QReg | QReg0 | QReg1 | CReg | RegOut | RegIn0 | RegIn1 | RegMod
    | Size | Line | AngleNum | AngleDenom
    | RemoteNodeId | EprSocketId | QubitAddrArray | ArgArray | EntResultsArray
    | Action | Role

  /** The position (in `operands`) of the field an alias reads and writes, if the family has it. */
  function FamilyAlias(f: Family, a: Alias): Option<nat>
  {
    match a
    case QReg => if f == QubitFamily || f == RotationFamily || f == MeasFamily then Some(0) else None
    case QReg0 => if f == TwoQubitFamily || f == ControlledRotationFamily then Some(0) else None
    case QReg1 => if f == TwoQubitFamily || f == ControlledRotationFamily then Some(1) else None
    case CReg => if f == MeasFamily then Some(1) else None
    case RegOut => if f == ClassicalOpFamily || f == ClassicalOpModFamily then Some(0) else None
    case RegIn0 => if f == ClassicalOpFamily || f == ClassicalOpModFamily then Some(1) else None
    case RegIn1 => if f == ClassicalOpFamily || f == ClassicalOpModFamily then Some(2) else None
    case RegMod => if f == ClassicalOpModFamily then Some(3) else None
    case Size => if f == ArrayFamily then Some(0) else None
    case Line =>
      if f == JmpFamily then Some(0) else if f == BranchUnaryFamily then Some(1)
      else if f == BranchBinaryFamily then Some(2) else None
    case AngleNum =>
      if f == RotationFamily then Some(1) else if f == ControlledRotationFamily then Some(2) else None
    case AngleDenom =>
      if f == RotationFamily then Some(2) else if f == ControlledRotationFamily then Some(3) else None
    case RemoteNodeId => if f == CreateEprFamily || f == RecvEprFamily then Some(0) else None
    case EprSocketId => if f == CreateEprFamily || f == RecvEprFamily then Some(1) else None
    case QubitAddrArray => if f == CreateEprFamily || f == RecvEprFamily then Some(2) else None
    case ArgArray => if f == CreateEprFamily then Some(3) else None
    case EntResultsArray =>
      if f == CreateEprFamily then Some(4) else if f == RecvEprFamily then Some(3) else None
    case Action => if f == BreakpointFamily then Some(0) else None
    case Role => if f == BreakpointFamily then Some(1) else None
  }

  function AliasField(op: Opcode, a: Alias): Option<nat>
  {
    FamilyAlias(FamilyOf(op), a)
  }

  predicate IsRegisterAlias(a: Alias)
  {
    !(a.Line? || a.AngleNum? || a.AngleDenom? || a.Action? || a.Role?)
  }

  /**
   * Every alias names an existing field of the right kind: register aliases
   * a register field, `line` an int32 immediate, angles and breakpoint
   * arguments 8-bit immediates; the EPR arrays are the last fields of
   * create_epr (5 registers) and recv_epr (4, with no argument array).
   */
  lemma AliasesAreFields(op: Opcode, a: Alias)
    requires AliasField(op, a).Some?
    ensures AliasField(op, a).value < Arity(op)
    ensures IsRegisterAlias(a) ==> Fields(op)[AliasField(op, a).value] == RegisterField
    ensures a == Line ==> Fields(op)[AliasField(op, a).value] == IntegerField
    ensures (a.AngleNum? || a.AngleDenom? || a.Action? || a.Role?) ==> Fields(op)[AliasField(op, a).value] == ImmediateField
    ensures a == EntResultsArray ==> AliasField(op, a).value == Arity(op) - 1
  {
    FamilyAliasesAreFields(FamilyOf(op), a);
  }

  lemma FamilyAliasesAreFields(f: Family, a: Alias)
    requires FamilyAlias(f, a).Some?
    ensures FamilyAlias(f, a).value < |ShapeFields(FamilyShape(f))|
    ensures IsRegisterAlias(a) ==> ShapeFields(FamilyShape(f))[FamilyAlias(f, a).value] == RegisterField
    ensures a == Line ==> ShapeFields(FamilyShape(f))[FamilyAlias(f, a).value] == IntegerField
    ensures (a.AngleNum? || a.AngleDenom? || a.Action? || a.Role?) ==>
      ShapeFields(FamilyShape(f))[FamilyAlias(f, a).value] == ImmediateField
    ensures a == EntResultsArray ==> FamilyAlias(f, a).value == |ShapeFields(FamilyShape(f))| - 1
  {
    if IsRegisterAlias(a) {
      FamilyRegisterAliases(f, a);
    } else {
      FamilyImmAliases(f, a);
    }
  }

  lemma FamilyRegisterAliases(f: Family, a: Alias)
    requires FamilyAlias(f, a).Some? && IsRegisterAlias(a)
    ensures FamilyAlias(f, a).value < |ShapeFields(FamilyShape(f))|
    ensures ShapeFields(FamilyShape(f))[FamilyAlias(f, a).value] == RegisterField
    ensures a == EntResultsArray ==> FamilyAlias(f, a).value == |ShapeFields(FamilyShape(f))| - 1
  {
    var fs := ShapeFields(FamilyShape(f));
    match f
    case QubitFamily => assert fs == [RegisterField];
    case RetRegFamily =>
    case TwoQubitFamily => assert fs == [RegisterField, RegisterField];
    case MeasFamily => assert fs == [RegisterField, RegisterField];
    case RotationFamily => assert fs == [RegisterField, ImmediateField, ImmediateField];
    case ControlledRotationFamily => assert fs == [RegisterField, RegisterField, ImmediateField, ImmediateField];
    case ClassicalOpFamily => assert fs == [RegisterField, RegisterField, RegisterField];
    case ClassicalOpModFamily => assert fs == [RegisterField, RegisterField, RegisterField, RegisterField];
    case ArrayFamily => assert fs == [RegisterField, AddressField];
    case LeaFamily =>
    case SetFamily =>
    case JmpFamily =>
    case BranchUnaryFamily =>
    case BranchBinaryFamily =>
    case RegEntryFamily =>
    case ArrayEntryFamily =>
    case ArraySliceFamily =>
    case RetArrFamily =>
    case CreateEprFamily => assert fs == [RegisterField, RegisterField, RegisterField, RegisterField, RegisterField];
    case RecvEprFamily => assert fs == [RegisterField, RegisterField, RegisterField, RegisterField];
    case BreakpointFamily =>
  }

  lemma FamilyImmAliases(f: Family, a: Alias)
    requires FamilyAlias(f, a).Some? && !IsRegisterAlias(a)
    ensures FamilyAlias(f, a).value < |ShapeFields(FamilyShape(f))|
    ensures a == Line ==> ShapeFields(FamilyShape(f))[FamilyAlias(f, a).value] == IntegerField
    ensures a != Line ==> ShapeFields(FamilyShape(f))[FamilyAlias(f, a).value] == ImmediateField
  {
    var fs := ShapeFields(FamilyShape(f));
    match f
    case QubitFamily =>
    case RetRegFamily =>
    case TwoQubitFamily =>
    case MeasFamily =>
    case RotationFamily => assert fs == [RegisterField, ImmediateField, ImmediateField];
    case ControlledRotationFamily => assert fs == [RegisterField, RegisterField, ImmediateField, ImmediateField];
    case ClassicalOpFamily =>
    case ClassicalOpModFamily =>
    case ArrayFamily =>
    case LeaFamily =>
    case SetFamily =>
    case JmpFamily => assert fs == [IntegerField];
    case BranchUnaryFamily => assert fs == [RegisterField, IntegerField];
    case BranchBinaryFamily => assert fs == [RegisterField, RegisterField, IntegerField];
    case RegEntryFamily =>
    case ArrayEntryFamily =>
    case ArraySliceFamily =>
    case RetArrFamily =>
    case CreateEprFamily =>
    case RecvEprFamily =>
    case BreakpointFamily => assert fs == [ImmediateField, ImmediateField];
  }

  /** The value of an alias field. */
  function AliasValue(i: Instr, a: Alias): Operand
    requires i.Cmd? && |i.operands| == Arity(i.op) && AliasField(i.op, a).Some?
  {
    AliasesAreFields(i.op, a);
    i.operands[AliasField(i.op, a).value]
  }

  /**
   * `writes_to()`: set, load and lea write their register, the classical
   * operations their `regout`, meas its `creg`; every other class writes none.
   */
  function WritesTo(i: Instr): (r: seq<Register>)
    requires WellTyped(i)
    ensures |r| <= 1
    ensures forall x :: x in r ==> i.Cmd? && Reg(x) in i.operands
    ensures i.Cmd? && (IsClassicalOp(i.op) || IsClassicalOpMod(i.op)) ==> r == [AliasValue(i, RegOut).reg]
    ensures i.Cmd? && i.op == Meas ==> r == [AliasValue(i, CReg).reg]
    ensures i.Cmd? && (i.op == Set || i.op == Load || i.op == Lea) ==> r == [i.operands[0].reg]
    ensures r != [] <==> i.Cmd? && ((i.op == Set || i.op == Load || i.op == Lea || i.op == Meas) || IsClassicalOp(i.op) || IsClassicalOpMod(i.op))
  {
    if i.Debug? then []
    else if (i.op == Set || i.op == Load || i.op == Lea) || IsClassicalOp(i.op) || IsClassicalOpMod(i.op) then
      assert Fields(i.op)[0] == RegisterField;
      [i.operands[0].reg]
    else if i.op == Meas then
      assert Fields(i.op)[1] == RegisterField;
      [i.operands[1].reg]
    else []
  }

  /** `check_condition(a)` of bez and bnz. */
  function CheckUnary(op: Opcode, a: int): bool
    requires IsBranchUnary(op)
  {
    if op == Bez then a == 0 else a != 0
  }

  /** `check_condition(a, b)` of beq, bne, blt and bge. */
  function CheckBinary(op: Opcode, a: int, b: int): bool
    requires IsBranchBinary(op)
  {
    match op
    case Beq => a == b
    case Bne => a != b
    case Blt => a < b
    case Bge => a >= b
  }

  /** The branch with the complementary condition: bez/bnz, beq/bne, blt/bge. */
  function Complement(op: Opcode): (c: Opcode)
    requires IsBranchUnary(op) || IsBranchBinary(op)
    ensures IsBranchUnary(c) == IsBranchUnary(op) && IsBranchBinary(c) == IsBranchBinary(op)
    ensures IsBranchUnary(op) ==> forall a :: CheckUnary(c, a) == !CheckUnary(op, a)
    ensures IsBranchBinary(op) ==> forall a, b :: CheckBinary(c, a, b) == !CheckBinary(op, a, b)
  {
    match op
    case Bez => Bnz
    case Bnz => Bez
    case Beq => Bne
    case Bne => Beq
    case Blt => Bge
    case Bge => Blt
  }

  /** Complementing twice gives back the branch. */
  lemma ComplementInvolution(op: Opcode)
    requires IsBranchUnary(op) || IsBranchBinary(op)
    ensures Complement(Complement(op)) == op
  {
  }

  /** The core or vanilla class with a given id, found by binary search over the ids. */
  function GenericById(k: int): Option<Opcode>
  {
    if k < 23 then
      if k < 12 then
        if k < 6 then
          if k < 3 then
            if k < 2 then
              if k == 1 then Some(QAlloc) else None
            else
              if k == 2 then Some(Init) else None
          else
            if k < 4 then
              if k == 3 then Some(ArrayDecl) else None
            else
              if k < 5 then
                if k == 4 then Some(Set) else None
              else
                if k == 5 then Some(Store) else None
        else
          if k < 9 then
            if k < 7 then
              if k == 6 then Some(Load) else None
            else
              if k < 8 then
                if k == 7 then Some(Undef) else None
              else
                if k == 8 then Some(Lea) else None
          else
            if k < 10 then
              if k == 9 then Some(Jmp) else None
            else
              if k < 11 then
                if k == 10 then Some(Bez) else None
              else
                if k == 11 then Some(Bnz) else None
      else
        if k < 17 then
          if k < 14 then
            if k < 13 then
              if k == 12 then Some(Beq) else None
            else
              if k == 13 then Some(Bne) else None
          else
            if k < 15 then
              if k == 14 then Some(Blt) else None
            else
              if k < 16 then
                if k == 15 then Some(Bge) else None
              else
                if k == 16 then Some(Add) else None
        else
          if k < 20 then
            if k < 18 then
              if k == 17 then Some(Sub) else None
            else
              if k < 19 then
                if k == 18 then Some(Addm) else None
              else
                if k == 19 then Some(Subm) else None
          else
            if k < 21 then
              if k == 20 then Some(VanillaGateX) else None
            else
              if k < 22 then
                if k == 21 then Some(VanillaGateY) else None
              else
                if k == 22 then Some(VanillaGateZ) else None
    else
      if k < 34 then
        if k < 28 then
          if k < 25 then
            if k < 24 then
              if k == 23 then Some(VanillaGateH) else None
            else
              if k == 24 then Some(VanillaGateS) else None
          else
            if k < 26 then
              if k == 25 then Some(VanillaGateK) else None
            else
              if k < 27 then
                if k == 26 then Some(VanillaGateT) else None
              else
                if k == 27 then Some(VanillaRotX) else None
        else
          if k < 31 then
            if k < 29 then
              if k == 28 then Some(VanillaRotY) else None
            else
              if k < 30 then
                if k == 29 then Some(VanillaRotZ) else None
              else
                if k == 30 then Some(VanillaCnot) else None
          else
            if k < 32 then
              if k == 31 then Some(VanillaCphase) else None
            else
              if k < 33 then
                if k == 32 then Some(Meas) else None
              else
                if k == 33 then Some(CreateEpr) else None
      else
        if k < 40 then
          if k < 37 then
            if k < 35 then
              if k == 34 then Some(RecvEpr) else None
            else
              if k < 36 then
                if k == 35 then Some(WaitAll) else None
              else
                if k == 36 then Some(WaitAny) else None
          else
            if k < 38 then
              if k == 37 then Some(WaitSingle) else None
            else
              if k < 39 then
                if k == 38 then Some(QFree) else None
              else
                if k == 39 then Some(RetReg) else None
        else
          if k < 200 then
            if k < 41 then
              if k == 40 then Some(RetArr) else None
            else
              if k < 100 then
                if k == 41 then Some(VanillaMov) else None
              else
                if k == 100 then Some(Breakpoint) else None
          else
            if k < 201 then
              if k == 200 then Some(Mul) else None
            else
              if k < 202 then
                if k == 201 then Some(Div) else None
              else
                if k == 202 then Some(Rem) else None
  }

  /** The core or NV class with a given id, found by binary search over the ids. */
  function NvById(k: int): Option<Opcode>
  {
    if k < 21 then
      if k < 11 then
        if k < 6 then
          if k < 3 then
            if k < 2 then
              if k == 1 then Some(QAlloc) else None
            else
              if k == 2 then Some(Init) else None
          else
            if k < 4 then
              if k == 3 then Some(ArrayDecl) else None
            else
              if k < 5 then
                if k == 4 then Some(Set) else None
              else
                if k == 5 then Some(Store) else None
        else
          if k < 8 then
            if k < 7 then
              if k == 6 then Some(Load) else None
            else
              if k == 7 then Some(Undef) else None
          else
            if k < 9 then
              if k == 8 then Some(Lea) else None
            else
              if k < 10 then
                if k == 9 then Some(Jmp) else None
              else
                if k == 10 then Some(Bez) else None
      else
        if k < 16 then
          if k < 13 then
            if k < 12 then
              if k == 11 then Some(Bnz) else None
            else
              if k == 12 then Some(Beq) else None
          else
            if k < 14 then
              if k == 13 then Some(Bne) else None
            else
              if k < 15 then
                if k == 14 then Some(Blt) else None
              else
                if k == 15 then Some(Bge) else None
        else
          if k < 18 then
            if k < 17 then
              if k == 16 then Some(Add) else None
            else
              if k == 17 then Some(Sub) else None
          else
            if k < 19 then
              if k == 18 then Some(Addm) else None
            else
              if k < 20 then
                if k == 19 then Some(Subm) else None
              else
                if k == 20 then Some(NvGateX) else None
    else
      if k < 34 then
        if k < 29 then
          if k < 23 then
            if k < 22 then
              if k == 21 then Some(NvGateY) else None
            else
              if k == 22 then Some(NvGateZ) else None
          else
            if k < 27 then
              if k == 23 then Some(NvGateH) else None
            else
              if k < 28 then
                if k == 27 then Some(NvRotX) else None
              else
                if k == 28 then Some(NvRotY) else None
        else
          if k < 31 then
            if k < 30 then
              if k == 29 then Some(NvRotZ) else None
            else
              if k == 30 then Some(NvCrotX) else None
          else
            if k < 32 then
              if k == 31 then Some(NvCrotY) else None
            else
              if k < 33 then
                if k == 32 then Some(Meas) else None
              else
                if k == 33 then Some(CreateEpr) else None
      else
        if k < 39 then
          if k < 36 then
            if k < 35 then
              if k == 34 then Some(RecvEpr) else None
            else
              if k == 35 then Some(WaitAll) else None
          else
            if k < 37 then
              if k == 36 then Some(WaitAny) else None
            else
              if k < 38 then
                if k == 37 then Some(WaitSingle) else None
              else
                if k == 38 then Some(QFree) else None
        else
          if k < 200 then
            if k < 40 then
              if k == 39 then Some(RetReg) else None
            else
              if k < 100 then
                if k == 40 then Some(RetArr) else None
              else
                if k == 100 then Some(Breakpoint) else None
          else
            if k < 201 then
              if k == 200 then Some(Mul) else None
            else
              if k < 202 then
                if k == 201 then Some(Div) else None
              else
                if k == 202 then Some(Rem) else None
  }

  /** The core or vanilla class with a given mnemonic, found by its length and then by the characters that tell the mnemonics of that length apart. */
  function GenericByMnemonic(k: string): Option<Opcode>
  {
    if |k| == 1 then
      if k[0] == 'x' then
        if k == "x" then Some(VanillaGateX) else None
      else if k[0] == 'y' then
        if k == "y" then Some(VanillaGateY) else None
      else if k[0] == 'z' then
        if k == "z" then Some(VanillaGateZ) else None
      else if k[0] == 'h' then
        if k == "h" then Some(VanillaGateH) else None
      else if k[0] == 's' then
        if k == "s" then Some(VanillaGateS) else None
      else if k[0] == 'k' then
        if k == "k" then Some(VanillaGateK) else None
      else if k[0] == 't' then
        if k == "t" then Some(VanillaGateT) else None
      else None
    else if |k| == 3 then
      if k[2] == 't' then
        if k[0] == 's' then
          if k == "set" then Some(Set) else None
        else if k[0] == 'b' then
          if k == "blt" then Some(Blt) else None
        else None
      else if k[2] == 'a' then
        if k == "lea" then Some(Lea) else None
      else if k[2] == 'p' then
        if k == "jmp" then Some(Jmp) else None
      else if k[2] == 'z' then
        if k[1] == 'e' then
          if k == "bez" then Some(Bez) else None
        else if k[1] == 'n' then
          if k == "bnz" then Some(Bnz) else None
        else None
      else if k[2] == 'q' then
        if k == "beq" then Some(Beq) else None
      else if k[2] == 'e' then
        if k[1] == 'n' then
          if k == "bne" then Some(Bne) else None
        else if k[1] == 'g' then
          if k == "bge" then Some(Bge) else None
        else None
      else if k[2] == 'd' then
        if k == "add" then Some(Add) else None
      else if k[2] == 'b' then
        if k == "sub" then Some(Sub) else None
      else if k[2] == 'l' then
        if k == "mul" then Some(Mul) else None
      else if k[2] == 'v' then
        if k[0] == 'd' then
          if k == "div" then Some(Div) else None
        else if k[0] == 'm' then
          if k == "mov" then Some(VanillaMov) else None
        else None
      else if k[2] == 'm' then
        if k == "rem" then Some(Rem) else None
      else None
    else if |k| == 4 then
      if k[0] == 'i' then
        if k == "init" then Some(Init) else None
      else if k[0] == 'l' then
        if k == "load" then Some(Load) else None
      else if k[0] == 'a' then
        if k == "addm" then Some(Addm) else None
      else if k[0] == 's' then
        if k == "subm" then Some(Subm) else None
      else if k[0] == 'm' then
        if k == "meas" then Some(Meas) else None
      else if k[0] == 'c' then
        if k == "cnot" then Some(VanillaCnot) else None
      else None
    else if |k| == 5 then
      if k[0] == 'a' then
        if k == "array" then Some(ArrayDecl) else None
      else if k[0] == 's' then
        if k == "store" then Some(Store) else None
      else if k[0] == 'u' then
        if k == "undef" then Some(Undef) else None
      else if k[0] == 'q' then
        if k == "qfree" then Some(QFree) else None
      else if k[0] == 'r' then
        if k[4] == 'x' then
          if k == "rot_x" then Some(VanillaRotX) else None
        else if k[4] == 'y' then
          if k == "rot_y" then Some(VanillaRotY) else None
        else if k[4] == 'z' then
          if k == "rot_z" then Some(VanillaRotZ) else None
        else None
      else None
    else if |k| == 6 then
      if k[0] == 'q' then
        if k == "qalloc" then Some(QAlloc) else None
      else if k[0] == 'c' then
        if k == "cphase" then Some(VanillaCphase) else None
      else None
    else if |k| == 7 then
      if k[4] == 'r' then
        if k == "ret_reg" then Some(RetReg) else None
      else if k[4] == 'a' then
        if k == "ret_arr" then Some(RetArr) else None
      else None
    else if |k| == 8 then
      if k[6] == 'p' then
        if k == "recv_epr" then Some(RecvEpr) else None
      else if k[6] == 'l' then
        if k == "wait_all" then Some(WaitAll) else None
      else if k[6] == 'n' then
        if k == "wait_any" then Some(WaitAny) else None
      else None
    else if |k| == 10 then
      if k[0] == 'c' then
        if k == "create_epr" then Some(CreateEpr) else None
      else if k[0] == 'b' then
        if k == "breakpoint" then Some(Breakpoint) else None
      else None
    else if |k| == 11 then
      if k == "wait_single" then Some(WaitSingle) else None
    else None
  }

  /** The core or NV class with a given mnemonic, found as `GenericByMnemonic` finds it. */
  function NvByMnemonic(k: string): Option<Opcode>
  {
    if |k| == 1 then
      if k[0] == 'x' then
        if k == "x" then Some(NvGateX) else None
      else if k[0] == 'y' then
        if k == "y" then Some(NvGateY) else None
      else if k[0] == 'z' then
        if k == "z" then Some(NvGateZ) else None
      else if k[0] == 'h' then
        if k == "h" then Some(NvGateH) else None
      else None
    else if |k| == 3 then
      if k[2] == 't' then
        if k[0] == 's' then
          if k == "set" then Some(Set) else None
        else if k[0] == 'b' then
          if k == "blt" then Some(Blt) else None
        else None
      else if k[2] == 'a' then
        if k == "lea" then Some(Lea) else None
      else if k[2] == 'p' then
        if k == "jmp" then Some(Jmp) else None
      else if k[2] == 'z' then
        if k[1] == 'e' then
          if k == "bez" then Some(Bez) else None
        else if k[1] == 'n' then
          if k == "bnz" then Some(Bnz) else None
        else None
      else if k[2] == 'q' then
        if k == "beq" then Some(Beq) else None
      else if k[2] == 'e' then
        if k[1] == 'n' then
          if k == "bne" then Some(Bne) else None
        else if k[1] == 'g' then
          if k == "bge" then Some(Bge) else None
        else None
      else if k[2] == 'd' then
        if k == "add" then Some(Add) else None
      else if k[2] == 'b' then
        if k == "sub" then Some(Sub) else None
      else if k[2] == 'l' then
        if k == "mul" then Some(Mul) else None
      else if k[2] == 'v' then
        if k == "div" then Some(Div) else None
      else if k[2] == 'm' then
        if k == "rem" then Some(Rem) else None
      else None
    else if |k| == 4 then
      if k[0] == 'i' then
        if k == "init" then Some(Init) else None
      else if k[0] == 'l' then
        if k == "load" then Some(Load) else None
      else if k[0] == 'a' then
        if k == "addm" then Some(Addm) else None
      else if k[0] == 's' then
        if k == "subm" then Some(Subm) else None
      else if k[0] == 'm' then
        if k == "meas" then Some(Meas) else None
      else None
    else if |k| == 5 then
      if k[0] == 'a' then
        if k == "array" then Some(ArrayDecl) else None
      else if k[0] == 's' then
        if k == "store" then Some(Store) else None
      else if k[0] == 'u' then
        if k == "undef" then Some(Undef) else None
      else if k[0] == 'q' then
        if k == "qfree" then Some(QFree) else None
      else if k[0] == 'r' then
        if k[4] == 'x' then
          if k == "rot_x" then Some(NvRotX) else None
        else if k[4] == 'y' then
          if k == "rot_y" then Some(NvRotY) else None
        else if k[4] == 'z' then
          if k == "rot_z" then Some(NvRotZ) else None
        else None
      else None
    else if |k| == 6 then
      if k[5] == 'c' then
        if k == "qalloc" then Some(QAlloc) else None
      else if k[5] == 'x' then
        if k == "crot_x" then Some(NvCrotX) else None
      else if k[5] == 'y' then
        if k == "crot_y" then Some(NvCrotY) else None
      else None
    else if |k| == 7 then
      if k[4] == 'r' then
        if k == "ret_reg" then Some(RetReg) else None
      else if k[4] == 'a' then
        if k == "ret_arr" then Some(RetArr) else None
      else None
    else if |k| == 8 then
      if k[6] == 'p' then
        if k == "recv_epr" then Some(RecvEpr) else None
      else if k[6] == 'l' then
        if k == "wait_all" then Some(WaitAll) else None
      else if k[6] == 'n' then
        if k == "wait_any" then Some(WaitAny) else None
      else None
    else if |k| == 10 then
      if k[0] == 'c' then
        if k == "create_epr" then Some(CreateEpr) else None
      else if k[0] == 'b' then
        if k == "breakpoint" then Some(Breakpoint) else None
      else None
    else if |k| == 11 then
      if k == "wait_single" then Some(WaitSingle) else None
    else None
  }

  /** A core or vanilla class is found again from its id. */
  lemma GenericIdKey(op: Opcode)
    requires IsCore(op) || IsVanilla(op)
    ensures GenericById(OpId(op)) == Some(op)
  {
    if op.QAlloc? || op.Init? || op.ArrayDecl? || op.Set? || op.Store? || op.Load? || op.Undef? || op.Lea? {
      GenericIdKey1(op);
    } else if op.Jmp? || op.Bez? || op.Bnz? || op.Beq? || op.Bne? || op.Blt? || op.Bge? || op.Add? {
      GenericIdKey2(op);
    } else if op.Sub? || op.Addm? || op.Subm? || op.Mul? || op.Div? || op.Rem? {
      GenericIdKey3(op);
    } else if op.Meas? || op.CreateEpr? || op.RecvEpr? || op.WaitAll? || op.WaitAny? {
      GenericIdKey4(op);
    } else if op.WaitSingle? || op.QFree? || op.RetReg? || op.RetArr? || op.Breakpoint? {
      GenericIdKey5(op);
    } else if op.VanillaGateX? || op.VanillaGateY? || op.VanillaGateZ? || op.VanillaGateH? {
      GenericIdKey6(op);
    } else if op.VanillaGateS? || op.VanillaGateK? || op.VanillaGateT? {
      GenericIdKey7(op);
    } else if op.VanillaRotX? || op.VanillaRotY? || op.VanillaRotZ? {
      GenericIdKey8(op);
    } else {
      GenericIdKey9(op);
    }
  }

  lemma GenericIdKey1(op: Opcode)
    requires op.QAlloc? || op.Init? || op.ArrayDecl? || op.Set? || op.Store? || op.Load? || op.Undef? || op.Lea?
    ensures GenericById(OpId(op)) == Some(op)
  {
  }

  lemma GenericIdKey2(op: Opcode)
    requires op.Jmp? || op.Bez? || op.Bnz? || op.Beq? || op.Bne? || op.Blt? || op.Bge? || op.Add?
    ensures GenericById(OpId(op)) == Some(op)
  {
  }

  lemma GenericIdKey3(op: Opcode)
    requires op.Sub? || op.Addm? || op.Subm? || op.Mul? || op.Div? || op.Rem?
    ensures GenericById(OpId(op)) == Some(op)
  {
  }

  lemma GenericIdKey4(op: Opcode)
    requires op.Meas? || op.CreateEpr? || op.RecvEpr? || op.WaitAll? || op.WaitAny?
    ensures GenericById(OpId(op)) == Some(op)
  {
  }

  lemma GenericIdKey5(op: Opcode)
    requires op.WaitSingle? || op.QFree? || op.RetReg? || op.RetArr? || op.Breakpoint?
    ensures GenericById(OpId(op)) == Some(op)
  {
  }

  lemma GenericIdKey6(op: Opcode)
    requires op.VanillaGateX? || op.VanillaGateY? || op.VanillaGateZ? || op.VanillaGateH?
    ensures GenericById(OpId(op)) == Some(op)
  {
  }

  lemma GenericIdKey7(op: Opcode)
    requires op.VanillaGateS? || op.VanillaGateK? || op.VanillaGateT?
    ensures GenericById(OpId(op)) == Some(op)
  {
  }

  lemma GenericIdKey8(op: Opcode)
    requires op.VanillaRotX? || op.VanillaRotY? || op.VanillaRotZ?
    ensures GenericById(OpId(op)) == Some(op)
  {
  }

  lemma GenericIdKey9(op: Opcode)
    requires op.VanillaCnot? || op.VanillaCphase? || op.VanillaMov?
    ensures GenericById(OpId(op)) == Some(op)
  {
  }

  /** A core or NV class is found again from its id. */
  lemma NvIdKey(op: Opcode)
    requires IsCore(op) || IsNv(op)
    ensures NvById(OpId(op)) == Some(op)
  {
    if op.QAlloc? || op.Init? || op.ArrayDecl? || op.Set? || op.Store? || op.Load? || op.Undef? || op.Lea? {
      NvIdKey1(op);
    } else if op.Jmp? || op.Bez? || op.Bnz? || op.Beq? || op.Bne? || op.Blt? || op.Bge? || op.Add? {
      NvIdKey2(op);
    } else if op.Sub? || op.Addm? || op.Subm? || op.Mul? || op.Div? || op.Rem? {
      NvIdKey3(op);
    } else if op.Meas? || op.CreateEpr? || op.RecvEpr? || op.WaitAll? || op.WaitAny? {
      NvIdKey4(op);
    } else if op.WaitSingle? || op.QFree? || op.RetReg? || op.RetArr? || op.Breakpoint? {
      NvIdKey5(op);
    } else if op.NvGateX? || op.NvGateY? || op.NvGateZ? {
      NvIdKey6(op);
    } else if op.NvGateH? || op.NvRotX? || op.NvRotY? {
      NvIdKey7(op);
    } else {
      NvIdKey8(op);
    }
  }

  lemma NvIdKey1(op: Opcode)
    requires op.QAlloc? || op.Init? || op.ArrayDecl? || op.Set? || op.Store? || op.Load? || op.Undef? || op.Lea?
    ensures NvById(OpId(op)) == Some(op)
  {
  }

  lemma NvIdKey2(op: Opcode)
    requires op.Jmp? || op.Bez? || op.Bnz? || op.Beq? || op.Bne? || op.Blt? || op.Bge? || op.Add?
    ensures NvById(OpId(op)) == Some(op)
  {
  }

  lemma NvIdKey3(op: Opcode)
    requires op.Sub? || op.Addm? || op.Subm? || op.Mul? || op.Div? || op.Rem?
    ensures NvById(OpId(op)) == Some(op)
  {
  }

  lemma NvIdKey4(op: Opcode)
    requires op.Meas? || op.CreateEpr? || op.RecvEpr? || op.WaitAll? || op.WaitAny?
    ensures NvById(OpId(op)) == Some(op)
  {
  }

  lemma NvIdKey5(op: Opcode)
    requires op.WaitSingle? || op.QFree? || op.RetReg? || op.RetArr? || op.Breakpoint?
    ensures NvById(OpId(op)) == Some(op)
  {
  }

  lemma NvIdKey6(op: Opcode)
    requires op.NvGateX? || op.NvGateY? || op.NvGateZ?
    ensures NvById(OpId(op)) == Some(op)
  {
  }

  lemma NvIdKey7(op: Opcode)
    requires op.NvGateH? || op.NvRotX? || op.NvRotY?
    ensures NvById(OpId(op)) == Some(op)
  {
  }

  lemma NvIdKey8(op: Opcode)
    requires op.NvRotZ? || op.NvCrotX? || op.NvCrotY?
    ensures NvById(OpId(op)) == Some(op)
  {
  }

  /** A core or vanilla class is found again from its mnemonic. */
  lemma GenericMnemonicKey(op: Opcode)
    requires IsCore(op) || IsVanilla(op)
    ensures GenericByMnemonic(Mnemonic(op)) == Some(op)
  {
    if op.QAlloc? || op.Init? || op.ArrayDecl? || op.Set? || op.Store? || op.Load? || op.Undef? || op.Lea? {
      GenericMnemonicKey1(op);
    } else if op.Jmp? || op.Bez? || op.Bnz? || op.Beq? || op.Bne? || op.Blt? || op.Bge? || op.Add? {
      GenericMnemonicKey2(op);
    } else if op.Sub? || op.Addm? || op.Subm? || op.Mul? || op.Div? || op.Rem? {
      GenericMnemonicKey3(op);
    } else if op.Meas? || op.CreateEpr? || op.RecvEpr? || op.WaitAll? || op.WaitAny? {
      GenericMnemonicKey4(op);
    } else if op.WaitSingle? || op.QFree? || op.RetReg? || op.RetArr? || op.Breakpoint? {
      GenericMnemonicKey5(op);
    } else if op.VanillaGateX? || op.VanillaGateY? || op.VanillaGateZ? || op.VanillaGateH? {
      GenericMnemonicKey6(op);
    } else if op.VanillaGateS? || op.VanillaGateK? || op.VanillaGateT? {
      GenericMnemonicKey7(op);
    } else if op.VanillaRotX? || op.VanillaRotY? || op.VanillaRotZ? {
      GenericMnemonicKey8(op);
    } else {
      GenericMnemonicKey9(op);
    }
  }

  lemma GenericMnemonicKey1(op: Opcode)
    requires op.QAlloc? || op.Init? || op.ArrayDecl? || op.Set? || op.Store? || op.Load? || op.Undef? || op.Lea?
    ensures GenericByMnemonic(Mnemonic(op)) == Some(op)
  {
  }

  lemma GenericMnemonicKey2(op: Opcode)
    requires op.Jmp? || op.Bez? || op.Bnz? || op.Beq? || op.Bne? || op.Blt? || op.Bge? || op.Add?
    ensures GenericByMnemonic(Mnemonic(op)) == Some(op)
  {
  }

  lemma GenericMnemonicKey3(op: Opcode)
    requires op.Sub? || op.Addm? || op.Subm? || op.Mul? || op.Div? || op.Rem?
    ensures GenericByMnemonic(Mnemonic(op)) == Some(op)
  {
  }

  lemma GenericMnemonicKey4(op: Opcode)
    requires op.Meas? || op.CreateEpr? || op.RecvEpr? || op.WaitAll? || op.WaitAny?
    ensures GenericByMnemonic(Mnemonic(op)) == Some(op)
  {
  }

  lemma GenericMnemonicKey5(op: Opcode)
    requires op.WaitSingle? || op.QFree? || op.RetReg? || op.RetArr? || op.Breakpoint?
    ensures GenericByMnemonic(Mnemonic(op)) == Some(op)
  {
  }

  lemma GenericMnemonicKey6(op: Opcode)
    requires op.VanillaGateX? || op.VanillaGateY? || op.VanillaGateZ? || op.VanillaGateH?
    ensures GenericByMnemonic(Mnemonic(op)) == Some(op)
  {
  }

  lemma GenericMnemonicKey7(op: Opcode)
    requires op.VanillaGateS? || op.VanillaGateK? || op.VanillaGateT?
    ensures GenericByMnemonic(Mnemonic(op)) == Some(op)
  {
  }

  lemma GenericMnemonicKey8(op: Opcode)
    requires op.VanillaRotX? || op.VanillaRotY? || op.VanillaRotZ?
    ensures GenericByMnemonic(Mnemonic(op)) == Some(op)
  {
  }

  lemma GenericMnemonicKey9(op: Opcode)
    requires op.VanillaCnot? || op.VanillaCphase? || op.VanillaMov?
    ensures GenericByMnemonic(Mnemonic(op)) == Some(op)
  {
  }

  /** A core or NV class is found again from its mnemonic. */
  lemma NvMnemonicKey(op: Opcode)
    requires IsCore(op) || IsNv(op)
    ensures NvByMnemonic(Mnemonic(op)) == Some(op)
  {
    if op.QAlloc? || op.Init? || op.ArrayDecl? || op.Set? || op.Store? || op.Load? || op.Undef? || op.Lea? {
      NvMnemonicKey1(op);
    } else if op.Jmp? || op.Bez? || op.Bnz? || op.Beq? || op.Bne? || op.Blt? || op.Bge? || op.Add? {
      NvMnemonicKey2(op);
    } else if op.Sub? || op.Addm? || op.Subm? || op.Mul? || op.Div? || op.Rem? {
      NvMnemonicKey3(op);
    } else if op.Meas? || op.CreateEpr? || op.RecvEpr? || op.WaitAll? || op.WaitAny? {
      NvMnemonicKey4(op);
    } else if op.WaitSingle? || op.QFree? || op.RetReg? || op.RetArr? || op.Breakpoint? {
      NvMnemonicKey5(op);
    } else if op.NvGateX? || op.NvGateY? || op.NvGateZ? {
      NvMnemonicKey6(op);
    } else if op.NvGateH? || op.NvRotX? || op.NvRotY? {
      NvMnemonicKey7(op);
    } else {
      NvMnemonicKey8(op);
    }
  }

  lemma NvMnemonicKey1(op: Opcode)
    requires op.QAlloc? || op.Init? || op.ArrayDecl? || op.Set? || op.Store? || op.Load? || op.Undef? || op.Lea?
    ensures NvByMnemonic(Mnemonic(op)) == Some(op)
  {
  }

  lemma NvMnemonicKey2(op: Opcode)
    requires op.Jmp? || op.Bez? || op.Bnz? || op.Beq? || op.Bne? || op.Blt? || op.Bge? || op.Add?
    ensures NvByMnemonic(Mnemonic(op)) == Some(op)
  {
  }

  lemma NvMnemonicKey3(op: Opcode)
    requires op.Sub? || op.Addm? || op.Subm? || op.Mul? || op.Div? || op.Rem?
    ensures NvByMnemonic(Mnemonic(op)) == Some(op)
  {
  }

  lemma NvMnemonicKey4(op: Opcode)
    requires op.Meas? || op.CreateEpr? || op.RecvEpr? || op.WaitAll? || op.WaitAny?
    ensures NvByMnemonic(Mnemonic(op)) == Some(op)
  {
  }

  lemma NvMnemonicKey5(op: Opcode)
    requires op.WaitSingle? || op.QFree? || op.RetReg? || op.RetArr? || op.Breakpoint?
    ensures NvByMnemonic(Mnemonic(op)) == Some(op)
  {
  }

  lemma NvMnemonicKey6(op: Opcode)
    requires op.NvGateX? || op.NvGateY? || op.NvGateZ?
    ensures NvByMnemonic(Mnemonic(op)) == Some(op)
  {
  }

  lemma NvMnemonicKey7(op: Opcode)
    requires op.NvGateH? || op.NvRotX? || op.NvRotY?
    ensures NvByMnemonic(Mnemonic(op)) == Some(op)
  {
  }

  lemma NvMnemonicKey8(op: Opcode)
    requires op.NvRotZ? || op.NvCrotX? || op.NvCrotY?
    ensures NvByMnemonic(Mnemonic(op)) == Some(op)
  {
  }

  /** Opcode ids: qalloc..subm are 1..19 consecutive, create_epr..ret_arr 33..40, each unique among core classes. */
  lemma CoreIds(a: Opcode, b: Opcode)
    requires IsCore(a) && IsCore(b) && OpId(a) == OpId(b)
    ensures a == b
  {
    GenericIdKey(a);
    GenericIdKey(b);
  }

  /** Vanilla ids are distinct from each other and from every core id. */
  lemma VanillaIdsDistinct(a: Opcode, b: Opcode)
    requires IsVanilla(a) && (IsVanilla(b) || IsCore(b)) && OpId(a) == OpId(b)
    ensures a == b
  {
    GenericIdKey(a);
    GenericIdKey(b);
  }

  /** NV ids are distinct from each other and from every core id. */
  lemma NvIdsDistinct(a: Opcode, b: Opcode)
    requires IsNv(a) && (IsNv(b) || IsCore(b)) && OpId(a) == OpId(b)
    ensures a == b
  {
    NvIdKey(a);
    NvIdKey(b);
  }

  /** Core mnemonics are distinct. */
  lemma CoreMnemonics(a: Opcode, b: Opcode)
    requires IsCore(a) && IsCore(b) && Mnemonic(a) == Mnemonic(b)
    ensures a == b
  {
    GenericMnemonicKey(a);
    GenericMnemonicKey(b);
  }

  /** Vanilla mnemonics are distinct from each other and from every core mnemonic. */
  lemma VanillaMnemonicsDistinct(a: Opcode, b: Opcode)
    requires IsVanilla(a) && (IsVanilla(b) || IsCore(b)) && Mnemonic(a) == Mnemonic(b)
    ensures a == b
  {
    GenericMnemonicKey(a);
    GenericMnemonicKey(b);
  }

  /** NV mnemonics are distinct from each other and from every core mnemonic. */
  lemma NvMnemonicsDistinct(a: Opcode, b: Opcode)
    requires IsNv(a) && (IsNv(b) || IsCore(b)) && Mnemonic(a) == Mnemonic(b)
    ensures a == b
  {
    NvMnemonicKey(a);
    NvMnemonicKey(b);
  }

  /** The id ranges of the three modules: core ids avoid 20..31 and 41, which the gate modules use. */
  lemma IdRanges(op: Opcode)
    ensures IsCore(op) ==> OpId(op) < 20 || 32 <= OpId(op) <= 40 || OpId(op) == 100 || 200 <= OpId(op) <= 202
    ensures IsVanilla(op) ==> 20 <= OpId(op) <= 31 || OpId(op) == 41
    ensures IsNv(op) ==> 20 <= OpId(op) <= 23 || 27 <= OpId(op) <= 31
  {
  }
}
