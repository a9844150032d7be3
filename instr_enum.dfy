// `netqasm/lang/instr/instr_enum.py`: the `Instruction` enum of the
// generic instruction set, its string maps, the branch flip, and the
// per-instruction command structures generated from `_COMMAND_GROUPS`.

module InstrEnum {
  import opened Wrappers
  import opened Encoding
  import opened Instructions

  /**
   * The classes with a member in the `Instruction` enum: every class but
   * mul, div, rem, breakpoint and the NV classes (see `EnumMembersAreGeneric`). A member
   * is identified with its class (`Instruction.QALLOC` with `QAlloc`,
   * `Instruction.X` with the vanilla X gate, and so on); its value and name
   * are the enum's own, given below.
   */
  predicate IsEnumMember(op: Opcode)
  {
    !(op.Mul? || op.Div? || op.Rem? || op.Breakpoint? || op.NvGateX? || op.NvGateY? || op.NvGateZ?
      || op.NvGateH? || op.NvRotX? || op.NvRotY? || op.NvRotZ? || op.NvCrotX? || op.NvCrotY?)
  }

  type Instruction = op: Opcode | IsEnumMember(op) witness QAlloc

  // The members, section by section as the enum declares them.
  const Allocation: seq<Instruction> := [QAlloc]
  const Initialization: seq<Instruction> := [Init, ArrayDecl, Set]
  const Memory: seq<Instruction> := [Store, Load, Undef, Lea]
  const ClassicalLogic: seq<Instruction> := [Jmp, Bez, Bnz, Beq, Bne, Blt, Bge]
  const ClassicalOperations: seq<Instruction> := [Add, Sub, Addm, Subm]
  const SingleQubitGateMembers: seq<Instruction> := [VanillaGateX, VanillaGateY, VanillaGateZ, VanillaGateH, VanillaGateS, VanillaGateK, VanillaGateT]
  const SingleQubitRotations: seq<Instruction> := [VanillaRotX, VanillaRotY, VanillaRotZ]
  const TwoQubitGateMembers: seq<Instruction> := [VanillaCnot, VanillaCphase]
  const Measurement: seq<Instruction> := [Meas]
  const EntanglementGeneration: seq<Instruction> := [CreateEpr, RecvEpr]
  const Waiting: seq<Instruction> := [WaitAll, WaitAny, WaitSingle]
  const Deallocation: seq<Instruction> := [QFree]
  const Return: seq<Instruction> := [RetReg, RetArr]
  const Move: seq<Instruction> := [VanillaMov]

  /** Iteration order of the enum (`for instr in Instruction`). */
  const AllInstructions: seq<Instruction> :=
    Allocation + Initialization + Memory + ClassicalLogic + ClassicalOperations
    + SingleQubitGateMembers + SingleQubitRotations + TwoQubitGateMembers + Measurement
    + EntanglementGeneration + Waiting + Deallocation + Return + Move

  /** `instr.value`, as declared in the enum. */
  function Value(i: Instruction): int
  {
    match i
    case QAlloc => 1
    case Init => 2
    case ArrayDecl => 3
    case Set => 4
    case Store => 5
    case Load => 6
    case Undef => 7
    case Lea => 8
    case Jmp => 9
    case Bez => 10
    case Bnz => 11
    case Beq => 12
    case Bne => 13
    case Blt => 14
    case Bge => 15
    case Add => 16
    case Sub => 17
    case Addm => 18
    case Subm => 19
    case VanillaGateX => 20
    case VanillaGateY => 21
    case VanillaGateZ => 22
    case VanillaGateH => 23
    case VanillaGateS => 24
    case VanillaGateK => 25
    case VanillaGateT => 26
    case VanillaRotX => 27
    case VanillaRotY => 28
    case VanillaRotZ => 29
    case VanillaCnot => 30
    case VanillaCphase => 31
    case Meas => 32
    case CreateEpr => 33
    case RecvEpr => 34
    case WaitAll => 35
    case WaitAny => 36
    case WaitSingle => 37
    case QFree => 38
    case RetReg => 39
    case RetArr => 40
    case VanillaMov => 41
    case _ => assert false; 0
  }

  /** `instruction_to_string`: the member name (`QALLOC`, ..., `MOV`) in lower case. */
  function InstructionToString(i: Instruction): (s: string)
    ensures |s| > 0 && 'a' <= s[0] <= 'z'
  {
    match i
    case QAlloc => "qalloc"
    case Init => "init"
    case ArrayDecl => "array"
    case Set => "set"
    case Store => "store"
    case Load => "load"
    case Undef => "undef"
    case Lea => "lea"
    case Jmp => "jmp"
    case Bez => "bez"
    case Bnz => "bnz"
    case Beq => "beq"
    case Bne => "bne"
    case Blt => "blt"
    case Bge => "bge"
    case Add => "add"
    case Sub => "sub"
    case Addm => "addm"
    case Subm => "subm"
    case VanillaGateX => "x"
    case VanillaGateY => "y"
    case VanillaGateZ => "z"
    case VanillaGateH => "h"
    case VanillaGateS => "s"
    case VanillaGateK => "k"
    case VanillaGateT => "t"
    case VanillaRotX => "rot_x"
    case VanillaRotY => "rot_y"
    case VanillaRotZ => "rot_z"
    case VanillaCnot => "cnot"
    case VanillaCphase => "cphase"
    case Meas => "meas"
    case CreateEpr => "create_epr"
    case RecvEpr => "recv_epr"
    case WaitAll => "wait_all"
    case WaitAny => "wait_any"
    case WaitSingle => "wait_single"
    case QFree => "qfree"
    case RetReg => "ret_reg"
    case RetArr => "ret_arr"
    case VanillaMov => "mov"
    case _ => assert false; ""
  }

  /** The enum values are the class ids, and the lower-case member names the mnemonics. */
  lemma EnumAgreesWithClasses(i: Instruction)
    ensures Value(i) == OpId(i)
    ensures InstructionToString(i) == Mnemonic(i)
  {
  }

  /** The members are the core classes other than mul, div, rem and breakpoint, and the vanilla classes. */
  lemma EnumMembersAreGeneric(op: Opcode)
    ensures IsEnumMember(op) <==> (IsCore(op) && !op.Mul? && !op.Div? && !op.Rem? && !op.Breakpoint?) || IsVanilla(op)
  {
  }

  /** Every member is enumerated. */
  lemma AllListed(i: Instruction)
    ensures i in AllInstructions
  {
  }

  /** Distinct members have distinct values. */
  lemma ValueInjective(a: Instruction, b: Instruction)
    requires Value(a) == Value(b)
    ensures a == b
  {
    EnumAgreesWithClasses(a);
    EnumAgreesWithClasses(b);
    if IsCore(a) && IsCore(b) {
      CoreIds(a, b);
    } else if IsVanilla(a) {
      VanillaIdsDistinct(a, b);
    } else {
      VanillaIdsDistinct(b, a);
    }
  }

  /** Distinct members have distinct names. */
  lemma ToStringInjective(a: Instruction, b: Instruction)
    requires InstructionToString(a) == InstructionToString(b)
    ensures a == b
  {
    EnumAgreesWithClasses(a);
    EnumAgreesWithClasses(b);
    if IsCore(a) && IsCore(b) {
      CoreMnemonics(a, b);
    } else if IsVanilla(a) {
      VanillaMnemonicsDistinct(a, b);
    } else {
      VanillaMnemonicsDistinct(b, a);
    }
  }

  /** The first member of `ops` whose name is `s`. */
  function Find(ops: seq<Instruction>, s: string): (r: Option<Instruction>)
    ensures r.Some? ==> r.value in ops && InstructionToString(r.value) == s
    ensures r.None? ==> forall k :: 0 <= k < |ops| ==> InstructionToString(ops[k]) != s
  {
    if ops == [] then None
    else if InstructionToString(ops[0]) == s then Some(ops[0])
    else Find(ops[1..], s)
  }

  /**
   * `string_to_instruction`: the lookup in `_STRING_TO_INSTRUCTION`; an
   * unknown string raises ValueError. The names are distinct, so the
   * dictionary built by the comprehension holds exactly one member per name.
   */
  function StringToInstruction(s: string): (r: Result<Instruction>)
    ensures r.Ok? ==> InstructionToString(r.value) == s
    ensures r.Err? ==> r.error == Raise(ValueError)
    ensures r.Err? <==> forall i: Instruction :: InstructionToString(i) != s
  {
    match Find(AllInstructions, s)
    case Some(i) => Ok(i)
    case None =>
      assert forall i: Instruction :: InstructionToString(i) != s by {
        forall i: Instruction ensures InstructionToString(i) != s {
          AllListed(i);
          var k :| 0 <= k < |AllInstructions| && AllInstructions[k] == i;
        }
      }
      Fail(ValueError)
  }

  /** `string_to_instruction(instruction_to_string(i)) == i` */
  lemma StringRoundTrip(i: Instruction)
    ensures StringToInstruction(InstructionToString(i)) == Ok(i)
  {
    var r := StringToInstruction(InstructionToString(i));
    ToStringInjective(r.value, i);
  }

  /** A name the lookup accepts is the name of the member it returns. */
  lemma NameRoundTrip(s: string)
    requires StringToInstruction(s).Ok?
    ensures InstructionToString(StringToInstruction(s).value) == s
  {
  }

  predicate IsBranch(i: Instruction)
  {
    i.Beq? || i.Bne? || i.Blt? || i.Bge? || i.Bez? || i.Bnz?
  }

  /** `flip_branch_instr`: beq/bne, blt/bge and bez/bnz swap; anything else raises ValueError. */
  function FlipBranch(i: Instruction): (r: Result<Instruction>)
    ensures r.Ok? <==> IsBranch(i)
    ensures r.Err? ==> r.error == Raise(ValueError)
    ensures r.Ok? ==> IsBranch(r.value) && r.value != i
  {
    if i.Beq? then Result<Instruction>.Ok(Bne)
    else if i.Bne? then Result<Instruction>.Ok(Beq)
    else if i.Blt? then Result<Instruction>.Ok(Bge)
    else if i.Bge? then Result<Instruction>.Ok(Blt)
    else if i.Bez? then Result<Instruction>.Ok(Bnz)
    else if i.Bnz? then Result<Instruction>.Ok(Bez)
    else Fail(ValueError)
  }

  /** Flipping twice gives back the branch. */
  lemma FlipInvolution(i: Instruction)
    requires IsBranch(i)
    ensures FlipBranch(FlipBranch(i).value) == Ok(i)
  {
  }

  /**
   * The flipped branch is the class with the complementary condition, so
   * it jumps exactly when the original does not.
   */
  lemma FlipIsComplement(i: Instruction)
    requires IsBranch(i)
    ensures IsBranchUnary(i) || IsBranchBinary(i)
    ensures FlipBranch(i).value == Complement(i)
  {
  }

  // The gate lists.
  const StaticSingleQubitGates: seq<Instruction> :=
    [VanillaGateX, VanillaGateY, VanillaGateZ, VanillaGateH, VanillaGateK, VanillaGateS, VanillaGateT]
  const SingleQubitRotationGates: seq<Instruction> := [VanillaRotX, VanillaRotY, VanillaRotZ]
  const SingleQubitGates: seq<Instruction> := StaticSingleQubitGates + SingleQubitRotationGates
  const TwoQubitGates: seq<Instruction> := [VanillaCnot, VanillaCphase]
  const QubitGates: seq<Instruction> := SingleQubitGates + TwoQubitGates
  const EprInstr: seq<Instruction> := [CreateEpr, RecvEpr]

  /** The gate lists name exactly the vanilla classes other than `mov`. */
  lemma QubitGatesAreVanilla(i: Instruction)
    ensures i in QubitGates <==> IsVanilla(i) && !i.VanillaMov?
  {
    if i in QubitGates {
      var k :| 0 <= k < |QubitGates| && QubitGates[k] == i;
    }
  }

  /**
   * `_COMMAND_GROUPS`, read as a relation: `InGroup(l, i)` when member `i`
   * is in the list of structure `l`. RegRegImmImmCommand and
   * RecvEPRCommand are not keys of the dictionary.
   */
  predicate InGroup(l: CommandLayout, i: Opcode)
  {
    match l
    case RegCommand => i.QAlloc? || i.Init? || i.VanillaGateX? || i.VanillaGateY? || i.VanillaGateZ? || i.VanillaGateH? || i.VanillaGateS? || i.VanillaGateK? || i.VanillaGateT? || i.QFree?
    case RegRegCommand => i.VanillaCnot? || i.VanillaCphase?
    case MeasCommand => i.Meas?
    case RegImmImmCommand => i.VanillaRotX? || i.VanillaRotY? || i.VanillaRotZ?
    case RegRegRegCommand => i.Add? || i.Sub?
    case RegRegRegRegCommand => i.Addm? || i.Subm? || i.RecvEpr?
    case ImmCommand => i.Jmp?
    case RegRegImmCommand => i.Beq? || i.Bne? || i.Blt? || i.Bge?
    case RegImmCommand => i.Set? || i.Bez? || i.Bnz?
    case RegEntryCommand => i.Store? || i.Load?
    case RegAddrCommand => i.Lea?
    case ArrayEntryCommand => i.Undef? || i.WaitSingle?
    case ArraySliceCommand => i.WaitAll? || i.WaitAny?
    case SingleRegisterCommand => i.RetReg?
    case ArrayCommand => i.ArrayDecl?
    case AddrCommand => i.RetArr?
    case Reg5Command => i.CreateEpr?
    case RegRegImmImmCommand => false
    case RecvEPRCommand => false
  }

  /**
   * The structure `COMMAND_STRUCTS` builds member `i` on: the last key in
   * dictionary order whose list holds `i` (a later entry of the
   * comprehension overwrites an earlier one), so the keys are tried from
   * Reg5Command back to RegCommand.
   */
  function GroupOf(i: Opcode): (r: Option<CommandLayout>)
    ensures r.Some? ==> InGroup(r.value, i)
  {
    if i.CreateEpr? then Some(Reg5Command)
    else if i.RetArr? then Some(AddrCommand)
    else if i.ArrayDecl? then Some(ArrayCommand)
    else if i.RetReg? then Some(SingleRegisterCommand)
    else if i.WaitAll? || i.WaitAny? then Some(ArraySliceCommand)
    else if i.Undef? || i.WaitSingle? then Some(ArrayEntryCommand)
    else if i.Lea? then Some(RegAddrCommand)
    else if i.Store? || i.Load? then Some(RegEntryCommand)
    else if i.Set? || i.Bez? || i.Bnz? then Some(RegImmCommand)
    else if i.Beq? || i.Bne? || i.Blt? || i.Bge? then Some(RegRegImmCommand)
    else if i.Jmp? then Some(ImmCommand)
    else if i.Addm? || i.Subm? || i.RecvEpr? then Some(RegRegRegRegCommand)
    else if i.Add? || i.Sub? then Some(RegRegRegCommand)
    else if i.VanillaRotX? || i.VanillaRotY? || i.VanillaRotZ? then Some(RegImmImmCommand)
    else if i.Meas? then Some(MeasCommand)
    else if i.VanillaCnot? || i.VanillaCphase? then Some(RegRegCommand)
    else if i.QAlloc? || i.Init? || i.VanillaGateX? || i.VanillaGateY? || i.VanillaGateZ? || i.VanillaGateH? || i.VanillaGateS? || i.VanillaGateK? || i.VanillaGateT? || i.QFree? then Some(RegCommand)
    else None
  }

  /** Every member but MOV is in exactly one group, and MOV is in none. */
  lemma GroupsPartition(l: CommandLayout, i: Instruction)
    ensures InGroup(l, i) <==> GroupOf(i) == Some(l)
    ensures GroupOf(i).None? <==> i.VanillaMov?
  {
    if InGroup(l, i) {
      GroupListed(l, i);
    }
    MembersHaveGroups(i);
  }

  /** A member listed under structure `l` is listed under no other key. */
  lemma GroupListed(l: CommandLayout, i: Opcode)
    requires InGroup(l, i)
    ensures GroupOf(i) == Some(l)
  {
    if l == RegCommand {
      RegGroupListed(i);
    } else if l == RegRegCommand || l == MeasCommand || l == RegImmImmCommand {
      QuantumGroupsListed(l, i);
    } else if l == RegRegRegCommand || l == RegRegRegRegCommand || l == ImmCommand {
      ClassicalGroupsListed(l, i);
    } else if l == RegRegImmCommand || l == RegImmCommand {
      BranchGroupsListed(l, i);
    } else {
      MemoryGroupsListed(l, i);
    }
  }

  lemma RegGroupListed(i: Opcode)
    requires InGroup(RegCommand, i)
    ensures GroupOf(i) == Some(RegCommand)
  {
  }

  lemma QuantumGroupsListed(l: CommandLayout, i: Opcode)
    requires l == RegRegCommand || l == MeasCommand || l == RegImmImmCommand
    requires InGroup(l, i)
    ensures GroupOf(i) == Some(l)
  {
  }

  lemma ClassicalGroupsListed(l: CommandLayout, i: Opcode)
    requires l == RegRegRegCommand || l == RegRegRegRegCommand || l == ImmCommand
    requires InGroup(l, i)
    ensures GroupOf(i) == Some(l)
  {
  }

  lemma BranchGroupsListed(l: CommandLayout, i: Opcode)
    requires l == RegRegImmCommand || l == RegImmCommand
    requires InGroup(l, i)
    ensures GroupOf(i) == Some(l)
  {
  }

  lemma MemoryGroupsListed(l: CommandLayout, i: Opcode)
    requires !(l == RegCommand || l == RegRegCommand || l == MeasCommand || l == RegImmImmCommand)
    requires !(l == RegRegRegCommand || l == RegRegRegRegCommand || l == ImmCommand || l == RegRegImmCommand || l == RegImmCommand)
    requires InGroup(l, i)
    ensures GroupOf(i) == Some(l)
  {
  }

  /** Every member but MOV is listed somewhere. */
  lemma MembersHaveGroups(i: Instruction)
    ensures GroupOf(i).None? <==> i.VanillaMov?
  {
  }

  /** A generated structure: the class name, its base structure, and the class attribute `ID`. */
  datatype CommandStruct = CommandStruct(name: string, layout: CommandLayout, id: int)

  function Capitalize(c: char): char
  {
    if 'a' <= c <= 'z' then (c as int - 32) as char else c
  }

  /** The generated class name for the lower-case name `s`: `s` with its first letter capitalised and "Command" appended. */
  function ClassName(s: string): (n: string)
    requires |s| > 0
    ensures |n| == |s| + 7
    ensures n[0] == Capitalize(s[0]) && n[1..|n| - 7] == s[1..]
    ensures n[|n| - 7..] == "Command"
  {
    var n := [Capitalize(s[0])] + s[1..] + "Command";
    assert n[1..|n| - 7] == s[1..];
    n
  }

  /** Two names whose first letters are lower case get the same class name only if they are equal. */
  lemma ClassNameInjective(x: string, y: string)
    requires |x| > 0 && 'a' <= x[0] <= 'z'
    requires |y| > 0 && 'a' <= y[0] <= 'z'
    requires ClassName(x) == ClassName(y)
    ensures x == y
  {
    var n := ClassName(x);
    assert |x| == |y|;
    assert x[0] == y[0];
    assert x == [x[0]] + n[1..|n| - 7];
    assert y == [y[0]] + n[1..|n| - 7];
  }

  /** The class name of member `i`. */
  function StructName(i: Instruction): string
  {
    ClassName(InstructionToString(i))
  }

  /** Distinct members get distinct class names. */
  lemma StructNameInjective(a: Instruction, b: Instruction)
    requires StructName(a) == StructName(b)
    ensures a == b
  {
    ClassNameInjective(InstructionToString(a), InstructionToString(b));
    ToStringInjective(a, b);
  }

  /** `_create_command_struct(instr, command_group)` */
  function CreateCommandStruct(i: Instruction, layout: CommandLayout): (c: CommandStruct)
    ensures c.id == Value(i) && c.layout == layout
  {
    CommandStruct(StructName(i), layout, Value(i))
  }

  /** `COMMAND_STRUCTS`: one generated structure per member listed in a group. */
  function CommandStructs(): map<Instruction, CommandStruct>
  {
    map i | i in AllInstructions && GroupOf(i).Some? ::
      CreateCommandStruct(i, GroupOf(i).value)
  }

  /**
   * MOV has no structure; every other member has one, built on the
   * structure whose list holds it, and its `ID` is the member's value and
   * so its class id.
   */
  lemma CommandStructsComplete(i: Instruction)
    ensures i in CommandStructs() <==> !i.VanillaMov?
    ensures i in CommandStructs() ==> CommandStructs()[i].id == Value(i) == OpId(i)
    ensures i in CommandStructs() ==> InGroup(CommandStructs()[i].layout, i)
  {
    AllListed(i);
    MembersHaveGroups(i);
    EnumAgreesWithClasses(i);
  }
}
