// `netqasm/lang/ir.py`: the intermediate form the SDK and the text parser
// produce before assembly. A `ProtoSubroutine` holds generic commands
// (`ICmd`) and branch labels; its operands may still be bare integers,
// labels or templates, and `instantiate` fills the templates in.

module IR {
  import opened Wrappers
  import opened PyStr
  import opened StringUtil
  import opened Operand
  import opened Symbols
  import opened Seqs

  /** `GenericInstr`, in declaration order. */
  datatype GenericInstr =
    | QAlloc
    | Init | Array | Set
    | Store | Load | Undef | Lea
    | Jmp | Bez | Bnz | Beq | Bne | Blt | Bge
    | Add | Sub | Addm | Subm
    | X | Y | Z | H | S | K | T
    | RotX | RotY | RotZ
    | Cnot | Cphase
    | Meas | MeasBasis
    | CreateEpr | RecvEpr
    | WaitAll | WaitAny | WaitSingle
    | QFree
    | RetReg | RetArr
    | CrotX | CrotY | CrotZ
    | Mov
    | Breakpoint

  // The members, section by section as the enum declares them.
  const Allocation: seq<GenericInstr> := [QAlloc]
  const Initialization: seq<GenericInstr> := [Init, Array, Set]
  const Memory: seq<GenericInstr> := [Store, Load, Undef, Lea]
  const ClassicalLogic: seq<GenericInstr> := [Jmp, Bez, Bnz, Beq, Bne, Blt, Bge]
  const ClassicalOperations: seq<GenericInstr> := [Add, Sub, Addm, Subm]
  const SingleQubitGates: seq<GenericInstr> := [X, Y, Z, H, S, K, T]
  const SingleQubitRotations: seq<GenericInstr> := [RotX, RotY, RotZ]
  const TwoQubitGates: seq<GenericInstr> := [Cnot, Cphase]
  const Measurement: seq<GenericInstr> := [Meas, MeasBasis]
  const EntanglementGeneration: seq<GenericInstr> := [CreateEpr, RecvEpr]
  const Waiting: seq<GenericInstr> := [WaitAll, WaitAny, WaitSingle]
  const Deallocation: seq<GenericInstr> := [QFree]
  const Return: seq<GenericInstr> := [RetReg, RetArr]
  const ControlledRotations: seq<GenericInstr> := [CrotX, CrotY, CrotZ]
  const Move: seq<GenericInstr> := [Mov]
  const BreakpointSection: seq<GenericInstr> := [Breakpoint]

  /** Every member, in declaration order. */
  const AllGenericInstrs: seq<GenericInstr> :=
    Allocation + Initialization + Memory + ClassicalLogic + ClassicalOperations
    + SingleQubitGates + SingleQubitRotations + TwoQubitGates + Measurement
    + EntanglementGeneration + Waiting + Deallocation + Return + ControlledRotations
    + Move + BreakpointSection

  /** The value `auto()` gives each member: its place in the declaration, counting from 1. */
  function Value(g: GenericInstr): (v: int)
    ensures 1 <= v <= 46
  {
    match g
    case QAlloc => 1
    case Init => 2
    case Array => 3
    case Set => 4
    case Store => 5
    case Load => 6
    case Undef => 7
    case Lea => 8
    case Jmp => 9
    case Bez => 10
    case Bnz => 11
    case Beq => 12
    case Bne => 13
    case Blt => 14
    case Bge => 15
    case Add => 16
    case Sub => 17
    case Addm => 18
    case Subm => 19
    case X => 20
    case Y => 21
    case Z => 22
    case H => 23
    case S => 24
    case K => 25
    case T => 26
    case RotX => 27
    case RotY => 28
    case RotZ => 29
    case Cnot => 30
    case Cphase => 31
    case Meas => 32
    case MeasBasis => 33
    case CreateEpr => 34
    case RecvEpr => 35
    case WaitAll => 36
    case WaitAny => 37
    case WaitSingle => 38
    case QFree => 39
    case RetReg => 40
    case RetArr => 41
    case CrotX => 42
    case CrotY => 43
    case CrotZ => 44
    case Mov => 45
    case Breakpoint => 46
  }

  /** Every member is listed. */
  lemma AllListed(g: GenericInstr)
    ensures g in AllGenericInstrs
  {
  }

  /** The values are distinct. */
  lemma ValueInjective(a: GenericInstr, b: GenericInstr)
    requires Value(a) == Value(b)
    ensures a == b
  {
    MemberOfValue(a);
    MemberOfValue(b);
  }

  /** `GenericInstr(v)`: the member whose value is v, if any. */
  function Member(v: int): Option<GenericInstr>
  {
    if v <= 12 then
      if v == 1 then Some(QAlloc)
      else if v == 2 then Some(Init)
      else if v == 3 then Some(Array)
      else if v == 4 then Some(Set)
      else if v == 5 then Some(Store)
      else if v == 6 then Some(Load)
      else if v == 7 then Some(Undef)
      else if v == 8 then Some(Lea)
      else if v == 9 then Some(Jmp)
      else if v == 10 then Some(Bez)
      else if v == 11 then Some(Bnz)
      else if v == 12 then Some(Beq)
      else None
    else if v <= 24 then
      if v == 13 then Some(Bne)
      else if v == 14 then Some(Blt)
      else if v == 15 then Some(Bge)
      else if v == 16 then Some(Add)
      else if v == 17 then Some(Sub)
      else if v == 18 then Some(Addm)
      else if v == 19 then Some(Subm)
      else if v == 20 then Some(X)
      else if v == 21 then Some(Y)
      else if v == 22 then Some(Z)
      else if v == 23 then Some(H)
      else if v == 24 then Some(S)
      else None
    else if v <= 36 then
      if v == 25 then Some(K)
      else if v == 26 then Some(T)
      else if v == 27 then Some(RotX)
      else if v == 28 then Some(RotY)
      else if v == 29 then Some(RotZ)
      else if v == 30 then Some(Cnot)
      else if v == 31 then Some(Cphase)
      else if v == 32 then Some(Meas)
      else if v == 33 then Some(MeasBasis)
      else if v == 34 then Some(CreateEpr)
      else if v == 35 then Some(RecvEpr)
      else if v == 36 then Some(WaitAll)
      else None
    else if v <= 46 then
      if v == 37 then Some(WaitAny)
      else if v == 38 then Some(WaitSingle)
      else if v == 39 then Some(QFree)
      else if v == 40 then Some(RetReg)
      else if v == 41 then Some(RetArr)
      else if v == 42 then Some(CrotX)
      else if v == 43 then Some(CrotY)
      else if v == 44 then Some(CrotZ)
      else if v == 45 then Some(Mov)
      else if v == 46 then Some(Breakpoint)
      else None
    else None
  }

  /** Looking a member's value up gives the member back. */
  lemma MemberOfValue(g: GenericInstr)
    ensures Member(Value(g)) == Some(g)
  {
  }

  /** `instruction_to_string`: the member's name in lower case. */
  function InstructionToString(g: GenericInstr): (s: string)
    ensures |s| > 0 && 'a' <= s[0] <= 'z'
  {
    match g
    case QAlloc => "qalloc"
    case Init => "init"
    case Array => "array"
    case Set => "set"
    case Store => "store"
    case Load => "load"
    case Undef => "undef"
    case Lea => "lea"
    case Jmp => "jmp"
    case Bez => "bez"
    case Bnz => "bnz"
    case Beq => "beq"
    case Bne => "bne"
    case Blt => "blt"
    case Bge => "bge"
    case Add => "add"
    case Sub => "sub"
    case Addm => "addm"
    case Subm => "subm"
    case X => "x"
    case Y => "y"
    case Z => "z"
    case H => "h"
    case S => "s"
    case K => "k"
    case T => "t"
    case RotX => "rot_x"
    case RotY => "rot_y"
    case RotZ => "rot_z"
    case Cnot => "cnot"
    case Cphase => "cphase"
    case Meas => "meas"
    case MeasBasis => "meas_basis"
    case CreateEpr => "create_epr"
    case RecvEpr => "recv_epr"
    case WaitAll => "wait_all"
    case WaitAny => "wait_any"
    case WaitSingle => "wait_single"
    case QFree => "qfree"
    case RetReg => "ret_reg"
    case RetArr => "ret_arr"
    case CrotX => "crot_x"
    case CrotY => "crot_y"
    case CrotZ => "crot_z"
    case Mov => "mov"
    case Breakpoint => "breakpoint"
  }

  /** A name is made of lower-case letters and underscores only. */
  predicate IsNameText(s: string)
  {
    forall k :: 0 <= k < |s| ==> 'a' <= s[k] <= 'z' || s[k] == '_'
  }

  lemma NamesAreNameText(g: GenericInstr)
    ensures IsNameText(InstructionToString(g))
  {
    if Value(g) <= 23 {
      NamesAreNameTextUpTo23(g);
    } else {
      NamesAreNameTextUpTo46(g);
    }
  }

  lemma NamesAreNameTextUpTo23(g: GenericInstr)
    requires Value(g) <= 23
    ensures IsNameText(InstructionToString(g))
  {
  }

  lemma NamesAreNameTextUpTo46(g: GenericInstr)
    requires Value(g) > 23
    ensures IsNameText(InstructionToString(g))
  {
  }

  /** Distinct members have distinct names. */
  lemma ToStringInjective(a: GenericInstr, b: GenericInstr)
    requires InstructionToString(a) == InstructionToString(b)
    ensures a == b
  {
    MemberOfName(a);
    MemberOfName(b);
  }

  /** The length and the first, last and middle letters of a name, which tell the members' names apart. */
  function NamePrint(s: string): (int, char, char, char)
    requires |s| > 0
  {
    (|s|, s[0], s[|s| - 1], s[|s| / 2])
  }

  /** The member whose name has this print, if any. */
  function MemberByPrint(p: (int, char, char, char)): Option<GenericInstr>
  {
    if p.0 == 6 then
      if (p.1, p.2, p.3) == ('q', 'c', 'l') then Some(QAlloc)
      else if (p.1, p.2, p.3) == ('c', 'e', 'a') then Some(Cphase)
      else if (p.1, p.2, p.3) == ('c', 'x', 't') then Some(CrotX)
      else if (p.1, p.2, p.3) == ('c', 'y', 't') then Some(CrotY)
      else if (p.1, p.2, p.3) == ('c', 'z', 't') then Some(CrotZ)
      else None
    else if p.0 == 4 then
      if (p.1, p.2, p.3) == ('i', 't', 'i') then Some(Init)
      else if (p.1, p.2, p.3) == ('l', 'd', 'a') then Some(Load)
      else if (p.1, p.2, p.3) == ('a', 'm', 'd') then Some(Addm)
      else if (p.1, p.2, p.3) == ('s', 'm', 'b') then Some(Subm)
      else if (p.1, p.2, p.3) == ('c', 't', 'o') then Some(Cnot)
      else if (p.1, p.2, p.3) == ('m', 's', 'a') then Some(Meas)
      else None
    else if p.0 == 5 then
      if (p.1, p.2, p.3) == ('a', 'y', 'r') then Some(Array)
      else if (p.1, p.2, p.3) == ('s', 'e', 'o') then Some(Store)
      else if (p.1, p.2, p.3) == ('u', 'f', 'd') then Some(Undef)
      else if (p.1, p.2, p.3) == ('r', 'x', 't') then Some(RotX)
      else if (p.1, p.2, p.3) == ('r', 'y', 't') then Some(RotY)
      else if (p.1, p.2, p.3) == ('r', 'z', 't') then Some(RotZ)
      else if (p.1, p.2, p.3) == ('q', 'e', 'r') then Some(QFree)
      else None
    else if p.0 == 3 then
      if (p.1, p.2, p.3) == ('s', 't', 'e') then Some(Set)
      else if (p.1, p.2, p.3) == ('l', 'a', 'e') then Some(Lea)
      else if (p.1, p.2, p.3) == ('j', 'p', 'm') then Some(Jmp)
      else if (p.1, p.2, p.3) == ('b', 'z', 'e') then Some(Bez)
      else if (p.1, p.2, p.3) == ('b', 'z', 'n') then Some(Bnz)
      else if (p.1, p.2, p.3) == ('b', 'q', 'e') then Some(Beq)
      else if (p.1, p.2, p.3) == ('b', 'e', 'n') then Some(Bne)
      else if (p.1, p.2, p.3) == ('b', 't', 'l') then Some(Blt)
      else if (p.1, p.2, p.3) == ('b', 'e', 'g') then Some(Bge)
      else if (p.1, p.2, p.3) == ('a', 'd', 'd') then Some(Add)
      else if (p.1, p.2, p.3) == ('s', 'b', 'u') then Some(Sub)
      else if (p.1, p.2, p.3) == ('m', 'v', 'o') then Some(Mov)
      else None
    else if p.0 == 1 then
      if (p.1, p.2, p.3) == ('x', 'x', 'x') then Some(X)
      else if (p.1, p.2, p.3) == ('y', 'y', 'y') then Some(Y)
      else if (p.1, p.2, p.3) == ('z', 'z', 'z') then Some(Z)
      else if (p.1, p.2, p.3) == ('h', 'h', 'h') then Some(H)
      else if (p.1, p.2, p.3) == ('s', 's', 's') then Some(S)
      else if (p.1, p.2, p.3) == ('k', 'k', 'k') then Some(K)
      else if (p.1, p.2, p.3) == ('t', 't', 't') then Some(T)
      else None
    else if p.0 == 10 then
      if (p.1, p.2, p.3) == ('m', 's', 'b') then Some(MeasBasis)
      else if (p.1, p.2, p.3) == ('c', 'r', 'e') then Some(CreateEpr)
      else if (p.1, p.2, p.3) == ('b', 't', 'p') then Some(Breakpoint)
      else None
    else if p.0 == 8 then
      if (p.1, p.2, p.3) == ('r', 'r', '_') then Some(RecvEpr)
      else if (p.1, p.2, p.3) == ('w', 'l', '_') then Some(WaitAll)
      else if (p.1, p.2, p.3) == ('w', 'y', '_') then Some(WaitAny)
      else None
    else if p.0 == 11 then
      if (p.1, p.2, p.3) == ('w', 'e', 's') then Some(WaitSingle)
      else None
    else if p.0 == 7 then
      if (p.1, p.2, p.3) == ('r', 'g', '_') then Some(RetReg)
      else if (p.1, p.2, p.3) == ('r', 'r', '_') then Some(RetArr)
      else None
    else None
  }

  lemma MemberOfName(g: GenericInstr)
    ensures MemberByPrint(NamePrint(InstructionToString(g))) == Some(g)
  {
    if Value(g) <= 12 {
      MemberOfNameUpTo12(g);
    } else if Value(g) <= 24 {
      MemberOfNameUpTo24(g);
    } else if Value(g) <= 35 {
      MemberOfNameUpTo35(g);
    } else {
      MemberOfNameUpTo46(g);
    }
  }

  lemma MemberOfNameUpTo12(g: GenericInstr)
    requires 1 <= Value(g) <= 12
    ensures MemberByPrint(NamePrint(InstructionToString(g))) == Some(g)
  {
  }

  lemma MemberOfNameUpTo24(g: GenericInstr)
    requires 13 <= Value(g) <= 24
    ensures MemberByPrint(NamePrint(InstructionToString(g))) == Some(g)
  {
  }

  lemma MemberOfNameUpTo35(g: GenericInstr)
    requires 25 <= Value(g) <= 35
    ensures MemberByPrint(NamePrint(InstructionToString(g))) == Some(g)
  {
  }

  lemma MemberOfNameUpTo46(g: GenericInstr)
    requires 36 <= Value(g) <= 46
    ensures MemberByPrint(NamePrint(InstructionToString(g))) == Some(g)
  {
  }

  function FindByName(gs: seq<GenericInstr>, s: string): (r: Option<GenericInstr>)
    ensures r.Some? ==> InstructionToString(r.value) == s
    ensures r.None? ==> forall k :: 0 <= k < |gs| ==> InstructionToString(gs[k]) != s
  {
    if gs == [] then None
    else if InstructionToString(gs[0]) == s then Some(gs[0])
    else FindByName(gs[1..], s)
  }

  /**
   * `string_to_instruction`: the lookup in `_STRING_TO_INSTRUCTION`, the
   * dictionary from each member's name to the member; a string that is no
   * member's name raises ValueError.
   */
  function StringToInstruction(s: string): (r: Result<GenericInstr>)
    ensures r.Ok? ==> InstructionToString(r.value) == s
    ensures r.Err? ==> r.error == Raise(ValueError)
    ensures r.Err? <==> forall g :: InstructionToString(g) != s
  {
    match FindByName(AllGenericInstrs, s)
    case Some(g) => Ok(g)
    case None =>
      assert forall g :: InstructionToString(g) != s by {
        forall g ensures InstructionToString(g) != s {
          AllListed(g);
          var k :| 0 <= k < |AllGenericInstrs| && AllGenericInstrs[k] == g;
        }
      }
      Fail(ValueError)
  }

  /** `string_to_instruction` inverts `instruction_to_string`. */
  lemma StringRoundTrip(g: GenericInstr)
    ensures StringToInstruction(InstructionToString(g)) == Ok(g)
  {
    var r := StringToInstruction(InstructionToString(g));
    ToStringInjective(r.value, g);
  }

  predicate IsBranch(g: GenericInstr)
  {
    g.Beq? || g.Bne? || g.Blt? || g.Bge? || g.Bez? || g.Bnz?
  }

  /** `flip_branch_instr`: beq/bne, blt/bge and bez/bnz swap; any other member raises ValueError. */
  function FlipBranch(g: GenericInstr): (r: Result<GenericInstr>)
    ensures r.Ok? <==> IsBranch(g)
    ensures r.Err? ==> r.error == Raise(ValueError)
    ensures r.Ok? ==> IsBranch(r.value) && r.value != g
  {
    if g.Beq? then Ok(Bne)
    else if g.Bne? then Ok(Beq)
    else if g.Blt? then Ok(Bge)
    else if g.Bge? then Ok(Blt)
    else if g.Bez? then Ok(Bnz)
    else if g.Bnz? then Ok(Bez)
    else Fail(ValueError)
  }

  /** Flipping twice gives the branch back; a branch on one register flips to one on one register. */
  lemma FlipInvolution(g: GenericInstr)
    requires IsBranch(g)
    ensures FlipBranch(FlipBranch(g).value) == Ok(g)
    ensures (g.Bez? || g.Bnz?) <==> (FlipBranch(g).value.Bez? || FlipBranch(g).value.Bnz?)
  {
  }

  // ---------------------------------------------------------------------
  // Commands

  /**
   * A command of a `ProtoSubroutine`: an `ICmd` (a generic instruction with
   * its bracketed arguments and its operands) or a `BranchLabel`. The line
   * number stands for the `HostLine` whose text is that number.
   */
  datatype ProtoCommand =
    | ICmd(instruction: GenericInstr, args: seq<int>, operands: seq<Operand>, lineno: Option<nat>)
    | BranchLabel(name: string, lineno: Option<nat>)

  /** `ICmd(...)`: `__post_init__` turns missing argument and operand lists into empty ones. */
  function NewICmd(instruction: GenericInstr, args: Option<seq<int>>, operands: Option<seq<Operand>>, lineno: Option<nat>): (c: ProtoCommand)
    ensures c.ICmd? && c.instruction == instruction && c.lineno == lineno
    ensures c.args == (if args.Some? then args.value else [])
    ensures c.operands == (if operands.Some? then operands.value else [])
  {
    ICmd(instruction, if args.None? then [] else args.value, if operands.None? then [] else operands.value, lineno)
  }

  /** `_get_lineo_str`: the line number in parentheses, right-aligned in five characters, then a space. */
  function LinenoText(lineno: Option<nat>): (r: string)
    ensures var l := if lineno.None? then "()" else "(" + NatToString(lineno.value) + ")";
      |r| == (if |l| < 5 then 5 else |l|) + 1 && r[|r| - 1] == ' ' && EndsWith(r[..|r| - 1], l)
  {
    var l := if lineno.None? then "()" else "(" + NatToString(lineno.value) + ")";
    var r := RSpaces(l, 5) + " ";
    assert r[..|r| - 1] == RSpaces(l, 5);
    r
  }

  /** `ARGS_DELIM.join(str(arg) for arg in args)` */
  function ArgsList(args: seq<int>): string
  {
    if args == [] then "" else if |args| == 1 then IntToString(args[0]) else IntToString(args[0]) + [ARGS_DELIM] + ArgsList(args[1..])
  }

  /** The argument part of a command's text: nothing, or the arguments in parentheses. */
  function ArgsText(args: seq<int>): string
  {
    if |args| == 0 then "" else [ARGS_OPEN] + ArgsList(args) + [ARGS_CLOSE]
  }

  /** `" ".join(str(operand) for operand in operands)` */
  function OperandsText(operands: seq<Operand>): string
  {
    Join(seq(|operands|, k requires 0 <= k < |operands| => OperandText(operands[k])), " ")
  }

  /** `_build_str(show_lineno)` of an `ICmd` or a `BranchLabel`. */
  function BuildStr(c: ProtoCommand, showLineno: bool): string
  {
    var linenoStr := if showLineno then LinenoText(c.lineno) else "";
    linenoStr + match c
      case ICmd(instr, args, operands, _) => InstructionToString(instr) + ArgsText(args) + " " + OperandsText(operands)
      case BranchLabel(name, _) => name + [BRANCH_END]
  }

  /** `str(command)` */
  function CommandText(c: ProtoCommand): string
  {
    BuildStr(c, false)
  }

  /** `command.debug_str` */
  function DebugText(c: ProtoCommand): (s: string)
    ensures s == LinenoText(c.lineno) + CommandText(c)
  {
    BuildStr(c, true)
  }

  predicate NoSpace(s: string)
  {
    forall k :: 0 <= k < |s| ==> s[k] != ' '
  }

  lemma {:induction false} ArgsListNoSpace(args: seq<int>)
    ensures NoSpace(ArgsList(args))
  {
    if |args| > 1 {
      ArgsListNoSpace(args[1..]);
      var h := IntToString(args[0]);
      assert NoSpace(h) by {
        var i := args[0];
        if i < 0 {
          assert h == "-" + NatToString(-i);
        }
      }
      assert ArgsList(args) == h + [ARGS_DELIM] + ArgsList(args[1..]);
    } else if |args| == 1 {
      if args[0] < 0 {
        assert IntToString(args[0]) == "-" + NatToString(-args[0]);
      }
    }
  }

  /** In `head + " " + rest` with no space in `head`, the first space is the one after `head`. */
  lemma FirstSpace(head: string, rest: string)
    requires NoSpace(head)
    ensures Find(head + " " + rest, " ") == |head|
  {
    var t := head + " " + rest;
    assert OccursAt(t, " ", |head|);
    forall j | 0 <= j < |head| ensures !OccursAt(t, " ", j) {
      assert t[j..j + 1] == [head[j]];
    }
  }

  /**
   * The text of an `ICmd` reads back: the first space ends the mnemonic
   * and its arguments, the text starts with the instruction's name (which
   * `StringToInstruction` maps back, see `StringRoundTrip`), and what
   * follows the space is the operand text.
   */
  lemma ICmdTextParts(c: ProtoCommand)
    requires c.ICmd?
    ensures var t := CommandText(c);
      var name := InstructionToString(c.instruction);
      var head := name + ArgsText(c.args);
      Find(t, " ") == |head| && t[..|head|] == head && t[|head| + 1..] == OperandsText(c.operands)
      && t[..|name|] == name
  {
    ICmdText(c);
    NamesAreNameText(c.instruction);
    TextParts(InstructionToString(c.instruction), c.args, OperandsText(c.operands));
  }

  /** An `ICmd` is written as its mnemonic, its arguments, a space and its operands. */
  lemma ICmdText(c: ProtoCommand)
    requires c.ICmd?
    ensures CommandText(c) == InstructionToString(c.instruction) + ArgsText(c.args) + " " + OperandsText(c.operands)
  {
  }

  lemma TextParts(name: string, args: seq<int>, rest: string)
    requires IsNameText(name)
    ensures var head := name + ArgsText(args);
      var t := head + " " + rest;
      Find(t, " ") == |head| && t[..|head|] == head && t[|head| + 1..] == rest && t[..|name|] == name
  {
    var head := name + ArgsText(args);
    var t := head + " " + rest;
    ArgsListNoSpace(args);
    assert NoSpace(head);
    FirstSpace(head, rest);
    assert t[..|name|] == name;
  }

  /** The text of a label is its name and the branch-end mark, so stripping the mark gives the name back. */
  lemma LabelTextParts(c: ProtoCommand)
    requires c.BranchLabel?
    ensures var t := CommandText(c);
      |t| == |c.name| + 1 && t[|t| - 1] == BRANCH_END && t[..|t| - 1] == c.name
  {
  }

  // ---------------------------------------------------------------------
  // Templates and instantiation

  /** The names of the templates among `operands`, in order. */
  function OperandTemplates(operands: seq<Operand>): (names: seq<string>)
    ensures |names| <= |operands|
  {
    if operands == [] then []
    else
      var last := operands[|operands| - 1];
      OperandTemplates(operands[..|operands| - 1]) + (if last.Tmpl? then [last.name] else [])
  }

  /** The template names of a command: those of an `ICmd`'s operands; a label has none. */
  function CommandTemplates(c: ProtoCommand): seq<string>
  {
    if c.ICmd? then OperandTemplates(c.operands) else []
  }

  /** The names of every template operand of every `ICmd`, in command order. */
  function TemplateNames(commands: seq<ProtoCommand>): seq<string>
  {
    if commands == [] then []
    else TemplateNames(commands[..|commands| - 1]) + CommandTemplates(commands[|commands| - 1])
  }

  /** A name is collected exactly when some operand is a template of that name. */
  lemma {:induction false} OperandTemplatesMembers(operands: seq<Operand>, n: string)
    ensures n in OperandTemplates(operands) <==> Tmpl(n) in operands
  {
    if operands != [] {
      var init := operands[..|operands| - 1];
      OperandTemplatesMembers(init, n);
      assert operands == init + [operands[|operands| - 1]];
    }
  }

  lemma {:induction false} OperandTemplatesAppend(a: seq<Operand>, b: seq<Operand>)
    ensures OperandTemplates(a + b) == OperandTemplates(a) + OperandTemplates(b)
    decreases |b|
  {
    if b == [] {
      assert a + b == a;
    } else {
      var init := b[..|b| - 1];
      OperandTemplatesAppend(a, init);
      assert (a + b)[..|a + b| - 1] == a + init;
      assert (a + b)[|a + b| - 1] == b[|b| - 1];
    }
  }

  /** Collecting over two command lists in a row is collecting over each in turn. */
  lemma {:induction false} TemplateNamesAppend(a: seq<ProtoCommand>, b: seq<ProtoCommand>)
    ensures TemplateNames(a + b) == TemplateNames(a) + TemplateNames(b)
    decreases |b|
  {
    if b == [] {
      EmptyRight(a);
      EmptyRight(TemplateNames(a));
    } else {
      var init, last := b[..|b| - 1], b[|b| - 1];
      ConcatInitLast(a, b);
      TemplateNamesAppend(a, init);
      Assoc(TemplateNames(a), TemplateNames(init), CommandTemplates(last));
    }
  }

  /** A name is collected exactly when some `ICmd` has a template operand of that name. */
  lemma {:induction false} TemplateNamesMembers(commands: seq<ProtoCommand>, n: string)
    ensures n in TemplateNames(commands) <==>
      exists i :: 0 <= i < |commands| && commands[i].ICmd? && Tmpl(n) in commands[i].operands
  {
    if commands != [] {
      var init := commands[..|commands| - 1];
      var last := commands[|commands| - 1];
      TemplateNamesMembers(init, n);
      if last.ICmd? {
        OperandTemplatesMembers(last.operands, n);
      }
      if exists i :: 0 <= i < |commands| && commands[i].ICmd? && Tmpl(n) in commands[i].operands {
        var i :| 0 <= i < |commands| && commands[i].ICmd? && Tmpl(n) in commands[i].operands;
        if i < |init| {
          assert init[i] == commands[i];
        }
      }
      if exists i :: 0 <= i < |init| && init[i].ICmd? && Tmpl(n) in init[i].operands {
        var i :| 0 <= i < |init| && init[i].ICmd? && Tmpl(n) in init[i].operands;
        assert commands[i] == init[i];
      }
    }
  }

  /** Every template among `operands` has a value in `arguments`. */
  predicate Bound(operands: seq<Operand>, arguments: map<string, int>)
  {
    forall j :: 0 <= j < |operands| && operands[j].Tmpl? ==> operands[j].name in arguments
  }

  /** Every `ICmd` among the first `k` commands has all its templates bound. */
  predicate BoundBefore(commands: seq<ProtoCommand>, arguments: map<string, int>, k: int)
  {
    forall i :: 0 <= i < k && i < |commands| && commands[i].ICmd? ==> Bound(commands[i].operands, arguments)
  }

  /** A template operand becomes the bare integer it is bound to; any other operand stays. */
  function SubstituteOperand(op: Operand, arguments: map<string, int>): (r: Operand)
    requires op.Tmpl? ==> op.name in arguments
    ensures !r.Tmpl?
  {
    if op.Tmpl? then Int(arguments[op.name]) else op
  }

  function SubstituteOperands(operands: seq<Operand>, arguments: map<string, int>): (r: seq<Operand>)
    requires Bound(operands, arguments)
  {
    seq(|operands|, j requires 0 <= j < |operands| => SubstituteOperand(operands[j], arguments))
  }

  /** An `ICmd` with its templates filled in. */
  function Rewrite(c: ProtoCommand, arguments: map<string, int>): (r: ProtoCommand)
    requires c.ICmd? && Bound(c.operands, arguments)
  {
    c.(operands := SubstituteOperands(c.operands, arguments))
  }

  /** The command list a successful `instantiate` leaves: the `ICmd`s, in order, with their templates filled in. */
  function Instantiated(commands: seq<ProtoCommand>, arguments: map<string, int>): seq<ProtoCommand>
    requires BoundBefore(commands, arguments, |commands|)
  {
    if commands == [] then []
    else
      var init := commands[..|commands| - 1];
      var last := commands[|commands| - 1];
      assert BoundBefore(init, arguments, |init|) by {
        forall i | 0 <= i < |init| ensures init[i] == commands[i] {}
      }
      Instantiated(init, arguments) + (if last.ICmd? then [Rewrite(last, arguments)] else [])
  }

  /**
   * The command list after `instantiate` raised KeyError at command `k`:
   * the `ICmd` objects before it were already rewritten in place, while the
   * list itself and everything from `k` on are as they were.
   */
  function RewrittenBefore(commands: seq<ProtoCommand>, arguments: map<string, int>, k: int): (r: seq<ProtoCommand>)
    requires BoundBefore(commands, arguments, k)
    ensures |r| == |commands|
  {
    seq(|commands|, i requires 0 <= i < |commands| =>
      if i < k && commands[i].ICmd? then Rewrite(commands[i], arguments) else commands[i])
  }

  /** The operands of a command after instantiation hold no template. */
  predicate TemplateFree(c: ProtoCommand)
  {
    c.ICmd? ==> forall j :: 0 <= j < |c.operands| ==> !c.operands[j].Tmpl?
  }

  /** A successful instantiation drops the labels, keeps each `ICmd`'s instruction, and leaves no template. */
  lemma {:induction false} InstantiatedShape(commands: seq<ProtoCommand>, arguments: map<string, int>)
    requires BoundBefore(commands, arguments, |commands|)
    ensures forall c :: c in Instantiated(commands, arguments) ==> c.ICmd? && TemplateFree(c)
    ensures TemplateNames(Instantiated(commands, arguments)) == []
  {
    if commands != [] {
      var init := commands[..|commands| - 1];
      var last := commands[|commands| - 1];
      assert BoundBefore(init, arguments, |init|) by {
        forall i | 0 <= i < |init| ensures init[i] == commands[i] {}
      }
      InstantiatedShape(init, arguments);
      var tail := if last.ICmd? then [Rewrite(last, arguments)] else [];
      TemplateNamesAppend(Instantiated(init, arguments), tail);
      if last.ICmd? {
        var r := Rewrite(last, arguments);
        assert TemplateNames(tail) == TemplateNames([]) + CommandTemplates(r);
        NoTemplateOperands(r.operands);
      }
    }
  }

  lemma {:induction false} NoTemplateOperands(operands: seq<Operand>)
    requires forall j :: 0 <= j < |operands| ==> !operands[j].Tmpl?
    ensures OperandTemplates(operands) == []
  {
    if operands != [] {
      NoTemplateOperands(operands[..|operands| - 1]);
    }
  }

  /** The collected template names are exactly what an argument map must bind for `instantiate` to succeed. */
  lemma BoundIffNamesBound(commands: seq<ProtoCommand>, arguments: map<string, int>)
    ensures BoundBefore(commands, arguments, |commands|) <==> forall n :: n in TemplateNames(commands) ==> n in arguments
  {
    if BoundBefore(commands, arguments, |commands|) {
      forall n | n in TemplateNames(commands) ensures n in arguments {
        TemplateNamesMembers(commands, n);
        var i :| 0 <= i < |commands| && commands[i].ICmd? && Tmpl(n) in commands[i].operands;
        var j :| 0 <= j < |commands[i].operands| && commands[i].operands[j] == Tmpl(n);
      }
    }
    if forall n :: n in TemplateNames(commands) ==> n in arguments {
      forall i, j | 0 <= i < |commands| && commands[i].ICmd? && 0 <= j < |commands[i].operands| && commands[i].operands[j].Tmpl?
        ensures commands[i].operands[j].name in arguments
      {
        var n := commands[i].operands[j].name;
        assert Tmpl(n) in commands[i].operands;
        TemplateNamesMembers(commands, n);
      }
    }
  }

  /** After a successful instantiation nothing is left to fill in: instantiating again changes nothing. */
  lemma {:induction false} InstantiateIdempotent(commands: seq<ProtoCommand>, arguments: map<string, int>, again: map<string, int>)
    requires BoundBefore(commands, arguments, |commands|)
    ensures BoundBefore(Instantiated(commands, arguments), again, |Instantiated(commands, arguments)|)
    ensures Instantiated(Instantiated(commands, arguments), again) == Instantiated(commands, arguments)
  {
    var r := Instantiated(commands, arguments);
    InstantiatedShape(commands, arguments);
    assert forall i :: 0 <= i < |r| ==> r[i] in r;
    TemplateFreeFixed(r, again);
  }

  lemma {:induction false} TemplateFreeFixed(commands: seq<ProtoCommand>, arguments: map<string, int>)
    requires forall i :: 0 <= i < |commands| ==> commands[i].ICmd? && TemplateFree(commands[i])
    ensures BoundBefore(commands, arguments, |commands|)
    ensures Instantiated(commands, arguments) == commands
  {
    if commands != [] {
      var init := commands[..|commands| - 1];
      var last := commands[|commands| - 1];
      assert forall i :: 0 <= i < |init| ==> init[i] == commands[i];
      TemplateFreeFixed(init, arguments);
      assert SubstituteOperands(last.operands, arguments) == last.operands;
      assert commands == init + [last];
    }
  }

  /** The loop of the `ProtoSubroutine` constructor that collects the template names of the commands. */
  method CollectTemplateNames(cmds: seq<ProtoCommand>) returns (names: seq<string>)
    ensures names == TemplateNames(cmds)
  {
    names := [];
    for i := 0 to |cmds|
      invariant names == TemplateNames(cmds[..i])
    {
      var cmd := cmds[i];
      assert cmds[..i + 1][..i] == cmds[..i];
      if cmd.ICmd? {
        var ops := cmd.operands;
        var before := names;
        for j := 0 to |ops|
          invariant names == before + OperandTemplates(ops[..j])
        {
          assert ops[..j + 1][..j] == ops[..j];
          if ops[j].Tmpl? {
            names := names + [ops[j].name];
          }
        }
        assert ops[..|ops|] == ops;
      }
    }
    assert cmds[..|cmds|] == cmds;
  }

  /**
   * `ProtoSubroutine`: a list of commands, the names of its arguments, the
   * NetQASM version and the application id.
   */
  class ProtoSubroutine {
    var netqasmVersion: (int, int)
    var appId: Option<int>
    var commands: seq<ProtoCommand>
    var arguments: seq<string>

    /**
     * `ProtoSubroutine(commands, arguments, netqasm_version, app_id)`: with
     * no argument list given, the arguments are the template names of the
     * commands' operands, in command order.
     */
    constructor(commands: Option<seq<ProtoCommand>>, arguments: Option<seq<string>>, netqasmVersion: (int, int), appId: Option<int>)
      ensures this.netqasmVersion == netqasmVersion && this.appId == appId
      ensures this.commands == (if commands.Some? then commands.value else [])
      ensures this.arguments == (if arguments.Some? then arguments.value else TemplateNames(this.commands))
    {
      this.netqasmVersion := netqasmVersion;
      this.appId := appId;
      var cmds := if commands.Some? then commands.value else [];
      this.commands := cmds;
      if arguments.Some? {
        this.arguments := arguments.value;
      } else {
        var names := CollectTemplateNames(cmds);
        this.arguments := names;
      }
    }

    /**
     * `instantiate(app_id, arguments)`: the labels are dropped and every
     * template operand is replaced by its value; the app id is set. A
     * template without a value raises KeyError, leaving the commands before
     * it rewritten (the source mutates them in place), the app id unchanged.
     */
    method Instantiate(appId: int, arguments: map<string, int>) returns (r: Result<Unit>)
      modifies this
      ensures this.netqasmVersion == old(this.netqasmVersion) && this.arguments == old(this.arguments)
      ensures r.Ok? <==> BoundBefore(old(commands), arguments, |old(commands)|)
      ensures r.Ok? ==> (BoundBefore(old(commands), arguments, |old(commands)|) &&
                         commands == Instantiated(old(commands), arguments) && this.appId == Some(appId))
      ensures r.Err? ==> r.error == Raise(KeyError) && this.appId == old(this.appId)
      ensures r.Err? ==> exists k :: (0 <= k < |old(commands)| && BoundBefore(old(commands), arguments, k) &&
                                      commands == RewrittenBefore(old(commands), arguments, k))
    {
      var cmds := commands;
      var acc: seq<ProtoCommand> := [];
      for i := 0 to |cmds|
        invariant commands == cmds && this.appId == old(this.appId)
        invariant BoundBefore(cmds, arguments, i)
        invariant BoundBefore(cmds[..i], arguments, i) && acc == Instantiated(cmds[..i], arguments)
      {
        var cmd := cmds[i];
        assert cmds[..i + 1][..i] == cmds[..i];
        if cmd.ICmd? {
          var ops: seq<Operand> := [];
          for j := 0 to |cmd.operands|
            invariant Bound(cmd.operands[..j], arguments)
            invariant |ops| == j && forall k :: 0 <= k < j ==> cmd.operands[k].Tmpl? ==> cmd.operands[k].name in arguments
            invariant forall k :: 0 <= k < j ==> ops[k] == SubstituteOperand(cmd.operands[k], arguments)
          {
            var op := cmd.operands[j];
            if op.Tmpl? {
              if op.name !in arguments {
                commands := RewrittenBefore(cmds, arguments, i);
                assert BoundBefore(old(commands), arguments, i);
                return Fail(KeyError);
              }
              ops := ops + [Int(arguments[op.name])];
            } else {
              ops := ops + [op];
            }
          }
          assert Bound(cmd.operands, arguments);
          assert ops == SubstituteOperands(cmd.operands, arguments);
          acc := acc + [Rewrite(cmd, arguments)];
        }
      }
      assert cmds[..|cmds|] == cmds;
      commands := acc;
      this.appId := Some(appId);
      return Ok(Unit);
    }
  }
}
