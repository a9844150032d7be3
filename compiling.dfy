// `netqasm/sdk/compiling.py`: `NVSubroutineCompiler`, which rewrites a
// vanilla-flavoured subroutine into the instructions an NV centre runs
// natively (rotations about x, y and z of one qubit, and rotations of a
// carbon controlled by the electron), and re-targets the branches.

module Compiling {
  import opened Wrappers
  import opened Operand
  import opened Instructions
  import opened Subroutine
  import Flavour

  // ---------------------------------------------------------------------
  // The instruction classes the compiler's isinstance tests pick out

  /** The static vanilla gates x, y, z, h, s, k and t. */
  predicate StaticGateOp(op: Opcode)
  {
    op.VanillaGateX? || op.VanillaGateY? || op.VanillaGateZ? || op.VanillaGateH? ||
    op.VanillaGateS? || op.VanillaGateK? || op.VanillaGateT?
  }

  /** `core.SingleQubitInstruction`: the vanilla gates and the NV x, y, z and h. */
  predicate SingleGateOp(op: Opcode)
  {
    StaticGateOp(op) || op.NvGateX? || op.NvGateY? || op.NvGateZ? || op.NvGateH?
  }

  predicate VanillaRotationOp(op: Opcode)
  {
    op.VanillaRotX? || op.VanillaRotY? || op.VanillaRotZ?
  }

  /** `core.RotationInstruction`: the vanilla and the NV rotations. */
  predicate RotationOp(op: Opcode)
  {
    VanillaRotationOp(op) || op.NvRotX? || op.NvRotY? || op.NvRotZ?
  }

  /** `core.TwoQubitInstruction`: cnot, cphase and mov. */
  predicate TwoQubitOp(op: Opcode)
  {
    op.VanillaCnot? || op.VanillaCphase? || op.VanillaMov?
  }

  /** The instructions `compile` replaces rather than copies. */
  predicate GateOp(op: Opcode)
  {
    SingleGateOp(op) || RotationOp(op) || TwoQubitOp(op)
  }

  /** jmp and the unary and binary branches. */
  predicate BranchOp(op: Opcode)
  {
    op.Jmp? || op.Bez? || op.Bnz? || op.Beq? || op.Bne? || op.Blt? || op.Bge?
  }

  /** The position of the `line` operand of a branch. */
  function LinePos(op: Opcode): nat
    requires BranchOp(op)
  {
    if op.Jmp? then 0 else if op.Bez? || op.Bnz? then 1 else 2
  }

  /** The classes of the vanilla module, which `VanillaFlavour().instrs` lists. */
  predicate VanillaOp(op: Opcode)
  {
    StaticGateOp(op) || VanillaRotationOp(op) || TwoQubitOp(op)
  }

  /** The classes the compiler emits: NV rotations, controlled rotations and set. */
  predicate EmittedOp(op: Opcode)
  {
    op.NvRotX? || op.NvRotY? || op.NvRotZ? || op.NvCrotX? || op.NvCrotY? || op.Set?
  }

  predicate Emitted(i: Instr)
  {
    i.Debug? || EmittedOp(i.op)
  }

  /** The operand shapes the compiler relies on, which every well-typed instruction has. */
  predicate Shaped(i: Instr)
  {
    i.Cmd? ==>
      (SingleGateOp(i.op) ==> |i.operands| == 1 && i.operands[0].Reg?) &&
      (RotationOp(i.op) ==> |i.operands| == 3 && i.operands[0].Reg?) &&
      (TwoQubitOp(i.op) ==> |i.operands| == 2 && i.operands[0].Reg? && i.operands[1].Reg?) &&
      (i.op.Set? ==> |i.operands| == 2 && i.operands[0].Reg?) &&
      (BranchOp(i.op) ==> |i.operands| == LinePos(i.op) + 1)
  }

  /** An instruction the compiler may emit in place of a gate. */
  predicate IsNative(i: Instr)
  {
    i.Cmd? ==>
      EmittedOp(i.op) &&
      (i.op.NvRotX? || i.op.NvRotY? || i.op.NvRotZ? ==> |i.operands| == 3 && i.operands[0].Reg?) &&
      (i.op.Set? ==> |i.operands| == 2 && i.operands[0].Reg?)
  }

  predicate AllNative(xs: seq<Instr>)
  {
    forall k :: 0 <= k < |xs| ==> IsNative(xs[k])
  }

  // ---------------------------------------------------------------------
  // Native instructions

  datatype Axis = AxisX | AxisY | AxisZ

  function RotOp(a: Axis): (op: Opcode)
    ensures op.NvRotX? || op.NvRotY? || op.NvRotZ?
  {
    match a
    case AxisX => NvRotX
    case AxisY => NvRotY
    case AxisZ => NvRotZ
  }

  /**
   * One instruction of the compiler's fixed NV sequences before its line
   * number is attached. Every angle in them is num·π/16, that is num over
   * the denominator 4.
   */
  datatype NvStep =
    | RotStep(axis: Axis, q: Register, num: int)
    | CrotStep(yAxis: bool, e: Register, c: Register, num: int)
    | SetStep(r: Register, v: int)
    | DebugStep(text: string)

  /** The instruction a step becomes; a `DebugInstruction` carries no line number. */
  function Lower(l: Option<int>, s: NvStep): (i: Instr)
    ensures IsNative(i)
  {
    match s
    case RotStep(a, q, n) => Cmd(RotOp(a), [Reg(q), Imm(n), Imm(4)], l)
    case CrotStep(y, e, c, n) => Cmd(if y then NvCrotY else NvCrotX, [Reg(e), Reg(c), Imm(n), Imm(4)], l)
    case SetStep(r, v) => Cmd(Set, [Reg(r), Imm(v)], l)
    case DebugStep(t) => Debug(t, None)
  }

  function LowerAll(l: Option<int>, ss: seq<NvStep>): (r: seq<Instr>)
    ensures |r| == |ss|
    ensures forall k :: 0 <= k < |ss| ==> r[k] == Lower(l, ss[k])
    ensures AllNative(r)
  {
    seq(|ss|, k requires 0 <= k < |ss| => Lower(l, ss[k]))
  }

  /** The `set C15 1337` appended when a branch targeted the end of the subroutine. */
  const NoOp: Instr := Lower(None, SetStep(Register(C, 15), 1337))

  /** A rotation about an axis by num·π/16, the unit of every compiler table. */
  datatype Turn = Turn(axis: Axis, num: int)

  function TurnSteps(q: Register, ts: seq<Turn>): (r: seq<NvStep>)
    ensures |r| == |ts|
    ensures forall k :: 0 <= k < |ts| ==> r[k] == RotStep(ts[k].axis, q, ts[k].num)
  {
    seq(|ts|, k requires 0 <= k < |ts| => RotStep(ts[k].axis, q, ts[k].num))
  }

  // ---------------------------------------------------------------------
  // Single-qubit gates

  /**
   * The rotations a static gate becomes, with s and t built so that they
   * apply a phase of +π/2 and +π/4; `StaticGateTurnsAsWritten` is the
   * table of `_map_single_gate`.
   */
  function StaticGateTurns(op: Opcode): (ts: seq<Turn>)
    requires StaticGateOp(op)
    ensures 1 <= |ts| <= 3
  {
    if op.VanillaGateX? then [Turn(AxisX, 16)]
    else if op.VanillaGateY? then [Turn(AxisY, 16)]
    else if op.VanillaGateZ? then [Turn(AxisX, 24), Turn(AxisY, 16), Turn(AxisX, 8)]
    else if op.VanillaGateH? then [Turn(AxisY, 8), Turn(AxisX, 16)]
    else if op.VanillaGateK? then [Turn(AxisX, 24), Turn(AxisY, 16)]
    else if op.VanillaGateS? then [Turn(AxisX, 24), Turn(AxisY, 8), Turn(AxisX, 8)]
    else [Turn(AxisX, 24), Turn(AxisY, 4), Turn(AxisX, 8)]
  }

  /** The table as written: s and t turn y by 3π/2 and 7π/4 instead. */
  function StaticGateTurnsAsWritten(op: Opcode): (ts: seq<Turn>)
    requires StaticGateOp(op)
    ensures !op.VanillaGateS? && !op.VanillaGateT? ==> ts == StaticGateTurns(op)
    ensures op.VanillaGateS? || op.VanillaGateT? ==>
      |ts| == 3 && ts[0] == StaticGateTurns(op)[0] && ts[2] == StaticGateTurns(op)[2] &&
      ts[1].axis == AxisY && ts[1].num == 32 - StaticGateTurns(op)[1].num
  {
    if op.VanillaGateS? then [Turn(AxisX, 24), Turn(AxisY, 24), Turn(AxisX, 8)]
    else if op.VanillaGateT? then [Turn(AxisX, 24), Turn(AxisY, 28), Turn(AxisX, 8)]
    else StaticGateTurns(op)
  }

  function Pow2(n: nat): (r: nat)
    ensures r >= 1
  {
    if n == 0 then 1 else 2 * Pow2(n - 1)
  }

  /**
   * `get_hardware_num_denom`: rewrites the angle num·π/2^denom over the
   * hardware's fixed denominator 4.
   */
  function GetHardwareNumDenom(num: Operand, denom: Operand): (r: Result<(Operand, Operand)>)
    ensures r.Ok? <==> denom.Imm? && 0 <= denom.imm <= 4 && num.Imm?
    ensures !denom.Imm? ==> r == Fail(AttributeError)
    ensures denom.Imm? && !(0 <= denom.imm <= 4) ==> r == Fail(ValueError)
    ensures denom.Imm? && 0 <= denom.imm <= 4 && !num.Imm? ==> r == Fail(AttributeError)
    ensures r.Ok? ==>
      (r.value.1 == Imm(4) && r.value.0.Imm? && r.value.0.imm * Pow2(denom.imm) == num.imm * Pow2(4))
  {
    if !denom.Imm? then Fail(AttributeError)
    else if !(0 <= denom.imm <= 4) then Fail(ValueError)
    else if !num.Imm? then Fail(AttributeError)
    else
      Pow2Add(4 - denom.imm, denom.imm);
      Ok((Imm(num.imm * Pow2(4 - denom.imm)), Imm(4)))
  }

  lemma {:induction false} Pow2Add(a: nat, b: nat)
    ensures Pow2(a) * Pow2(b) == Pow2(a + b)
  {
    if a > 0 {
      Pow2Add(a - 1, b);
    }
  }

  /** The angle operands a vanilla rotation is re-emitted with. */
  function RotationAngle(i: Instr, hardware: bool): (r: Result<(Operand, Operand)>)
    requires i.Cmd? && RotationOp(i.op) && Shaped(i)
    ensures !hardware ==> r == Ok((i.operands[1], i.operands[2]))
    ensures hardware ==> r == GetHardwareNumDenom(i.operands[1], i.operands[2])
  {
    if hardware then GetHardwareNumDenom(i.operands[1], i.operands[2])
    else Ok((i.operands[1], i.operands[2]))
  }

  function AxisOf(op: Opcode): Axis
    requires VanillaRotationOp(op)
  {
    if op.VanillaRotX? then AxisX else if op.VanillaRotY? then AxisY else AxisZ
  }

  /**
   * `_map_single_gate`: a static gate becomes its table of rotations, a
   * vanilla rotation the NV rotation about the same axis; the NV gates and
   * rotations are refused with ValueError.
   */
  function MapSingleGate(i: Instr, hardware: bool): (r: Result<seq<Instr>>)
    requires i.Cmd? && (SingleGateOp(i.op) || RotationOp(i.op)) && Shaped(i)
    ensures !VanillaOp(i.op) ==> r == Fail(ValueError)
    ensures StaticGateOp(i.op) ==> r == Ok(LowerAll(i.lineno, TurnSteps(i.operands[0].reg, StaticGateTurns(i.op))))
    ensures VanillaRotationOp(i.op) ==>
      (r.Ok? <==> RotationAngle(i, hardware).Ok?) &&
      (r.Ok? ==> r.value == [Cmd(RotOp(AxisOf(i.op)),
                               [i.operands[0], RotationAngle(i, hardware).value.0, RotationAngle(i, hardware).value.1],
                               i.lineno)])
    ensures r.Ok? ==> 1 <= |r.value| && AllNative(r.value)
  {
    var q := i.operands[0].reg;
    if StaticGateOp(i.op) then Ok(LowerAll(i.lineno, TurnSteps(q, StaticGateTurns(i.op))))
    else if VanillaRotationOp(i.op) then
      var angle :- RotationAngle(i, hardware);
      var x := Cmd(RotOp(AxisOf(i.op)), [i.operands[0], angle.0, angle.1], i.lineno);
      assert IsNative(x);
      Ok([x])
    else Fail(ValueError)
  }

  // ---------------------------------------------------------------------
  // Two-qubit gates

  /**
   * A step of the compiler's fixed two-qubit sequences, which act on two
   * qubits: the electron e and a carbon c. Every controlled rotation in
   * them is controlled by the electron and targets the carbon.
   */
  datatype SeqStep =
    | OnElectron(axis: Axis, num: int)
    | OnCarbon(axis: Axis, num: int)
    | Controlled(yAxis: bool, num: int)
    | Marker(text: string)

  function PlaceStep(e: Register, c: Register, t: SeqStep): (s: NvStep)
  {
    match t
    case OnElectron(a, n) => RotStep(a, e, n)
    case OnCarbon(a, n) => RotStep(a, c, n)
    case Controlled(y, n) => CrotStep(y, e, c, n)
    case Marker(text) => DebugStep(text)
  }

  /** A fixed sequence applied to the electron register e and the carbon register c. */
  function Place(e: Register, c: Register, ts: seq<SeqStep>): (r: seq<NvStep>)
    ensures |r| == |ts|
    ensures forall k :: 0 <= k < |ts| ==> r[k] == PlaceStep(e, c, ts[k])
  {
    seq(|ts|, k requires 0 <= k < |ts| => PlaceStep(e, c, ts[k]))
  }

  /** Rotations of the electron. */
  function ElectronTurns(ts: seq<Turn>): (r: seq<SeqStep>)
    ensures |r| == |ts|
  {
    if ts == [] then [] else [OnElectron(ts[0].axis, ts[0].num)] + ElectronTurns(ts[1..])
  }

  /** The gates of `swap`. */
  const SwapSteps: seq<SeqStep> :=
    [ Controlled(false, 8), OnElectron(AxisX, 24), OnElectron(AxisY, 16), OnCarbon(AxisZ, 24),
      Controlled(false, 8), OnElectron(AxisX, 8), OnElectron(AxisY, 8), OnCarbon(AxisX, 8),
      OnCarbon(AxisZ, 8), Controlled(false, 8), OnElectron(AxisY, 16), OnCarbon(AxisZ, 16) ]

  /** `swap`, with its debug markers when debugging. */
  function SwapSequence(debug: bool): (ts: seq<SeqStep>)
    ensures |ts| == if debug then 14 else 12
  {
    if debug then [Marker("begin SWAP")] + SwapSteps + [Marker("end SWAP")] else SwapSteps
  }

  /** `_move_electron_carbon` */
  const MoveElectronCarbonSteps: seq<SeqStep> :=
    [OnElectron(AxisY, 8), Controlled(true, 24), OnElectron(AxisX, 24), Controlled(false, 8)]

  /** `_move_carbon_electron`: the same, followed by two rotations of the electron. */
  const MoveCarbonElectronSteps: seq<SeqStep> :=
    MoveElectronCarbonSteps + [OnElectron(AxisY, 24), OnElectron(AxisZ, 24)]

  /** `_map_cnot_electron_carbon` */
  const CnotElectronCarbonSteps: seq<SeqStep> :=
    [Controlled(false, 8), OnElectron(AxisZ, 24), OnCarbon(AxisX, 24)]

  /** `_map_cphase_electron_carbon` */
  const CphaseElectronCarbonSteps: seq<SeqStep> :=
    [OnCarbon(AxisY, 8), Controlled(false, 8), OnElectron(AxisZ, 24), OnCarbon(AxisX, 24), OnCarbon(AxisY, 24)]

  /**
   * `_map_cnot_carbon_electron`: the cphase sequence between two
   * hadamards of the electron, as `_map_single_gate` maps h.
   */
  const CnotCarbonElectronSteps: seq<SeqStep> :=
    ElectronTurns(StaticGateTurns(VanillaGateH)) + CphaseElectronCarbonSteps + ElectronTurns(StaticGateTurns(VanillaGateH))

  /** `swap`: exchanges the states of the electron e and the carbon c. */
  function Swap(e: Register, c: Register, debug: bool): (r: seq<NvStep>)
    ensures |r| == if debug then 14 else 12
  {
    Place(e, c, SwapSequence(debug))
  }

  /** `_move_electron_carbon`: moves the state of the electron e into the carbon c. */
  function MoveElectronCarbon(e: Register, c: Register): (r: seq<NvStep>)
    ensures |r| == 4
  {
    Place(e, c, MoveElectronCarbonSteps)
  }

  /** `_move_carbon_electron`: moves the state of the carbon c into the electron e. */
  function MoveCarbonElectron(e: Register, c: Register): (r: seq<NvStep>)
    ensures |r| == 6
  {
    Place(e, c, MoveCarbonElectronSteps)
  }

  /** `_map_cnot_electron_carbon`: a cnot controlled by the electron e. */
  function CnotElectronCarbon(e: Register, c: Register): (r: seq<NvStep>)
    ensures |r| == 3
  {
    Place(e, c, CnotElectronCarbonSteps)
  }

  /** `_map_cnot_carbon_electron`: a cnot controlled by the carbon c and targeting the electron e. */
  function CnotCarbonElectron(e: Register, c: Register): (r: seq<NvStep>)
    ensures |r| == 9
  {
    Place(e, c, CnotCarbonElectronSteps)
  }

  /** `_map_cphase_electron_carbon`: a cphase of the electron e and the carbon c. */
  function CphaseElectronCarbon(e: Register, c: Register): (r: seq<NvStep>)
    ensures |r| == 5
  {
    Place(e, c, CphaseElectronCarbonSteps)
  }

  /**
   * `get_unused_register`: the lowest of Q0..Q15 that no operand has used
   * so far, or RuntimeError when all sixteen have been.
   */
  function UnusedRegister(used: set<Register>): (r: Result<Register>)
    ensures r.Ok? ==> FreshQ(used, r.value)
    ensures r.Err? <==> forall j :: 0 <= j < 16 ==> Register(Q, j) in used
    ensures r.Err? ==> r == Fail(RuntimeError)
  {
    UnusedRegisterFrom(used, 0)
  }

  /** q is the lowest of Q0..Q15 not in used. */
  predicate FreshQ(used: set<Register>, q: Register)
  {
    q.name == Q && 0 <= q.index < 16 && q !in used &&
    forall j :: 0 <= j < q.index ==> Register(Q, j) in used
  }

  function UnusedRegisterFrom(used: set<Register>, i: nat): (r: Result<Register>)
    requires i <= 16
    requires forall j :: 0 <= j < i ==> Register(Q, j) in used
    ensures r.Ok? ==> FreshQ(used, r.value)
    ensures r.Err? <==> forall j :: i <= j < 16 ==> Register(Q, j) in used
    ensures r.Err? ==> r == Fail(RuntimeError)
    decreases 16 - i
  {
    if i == 16 then Fail(RuntimeError)
    else if Register(Q, i) !in used then Ok(Register(Q, i))
    else UnusedRegisterFrom(used, i + 1)
  }

  /**
   * `_map_cnot_carbon_carbon` and `_map_cphase_carbon_carbon`: a fresh Q
   * register is set to 0 to name the electron, which is swapped with the
   * first carbon, used in the electron-carbon sequence and swapped back.
   */
  function CarbonCarbon(used: set<Register>, carbon: Register, other: Register, cphase: bool, debug: bool): (r: Result<seq<NvStep>>)
    ensures r.Ok? <==> UnusedRegister(used).Ok?
    ensures r.Err? ==> r == Fail(RuntimeError)
  {
    var e :- UnusedRegister(used);
    var mapped := if cphase then CphaseElectronCarbon(e, other) else CnotElectronCarbon(e, other);
    Ok([SetStep(e, 0)] + Swap(e, carbon, debug) + mapped + Swap(e, carbon, debug))
  }

  /** `get_reg_value`: the value a SET has given the register, or KeyError. */
  function RegValue(values: map<Register, Operand>, reg: Register): (r: Result<Operand>)
    ensures r.Ok? <==> reg in values
    ensures r.Ok? ==> r.value == values[reg]
    ensures r.Err? ==> r == Fail(KeyError)
  {
    if reg in values then Ok(values[reg]) else Fail(KeyError)
  }

  /** Both qubit ids of a two-qubit gate are known immediates. */
  predicate KnownIds(i: Instr, values: map<Register, Operand>)
    requires i.Cmd? && TwoQubitOp(i.op) && Shaped(i)
  {
    i.operands[0].reg in values && values[i.operands[0].reg].Imm? &&
    i.operands[1].reg in values && values[i.operands[1].reg].Imm?
  }

  /**
   * `_handle_two_qubit_gate`: the qubit ids are looked up in the order
   * reg0, reg1; an unknown register is only accepted for mov, which is
   * then taken to move the electron reg0 into the carbon reg1; an id with
   * no `value` raises AttributeError, equal ids AssertionError, and the
   * electron, id 0, decides which sequence is emitted.
   */
  function HandleTwoQubitGate(i: Instr, used: set<Register>, values: map<Register, Operand>, debug: bool): (r: Result<seq<NvStep>>)
    requires i.Cmd? && TwoQubitOp(i.op) && Shaped(i)
    ensures r.Ok? ==> |r.value| >= 3
  {
    var r0 := i.operands[0].reg;
    var r1 := i.operands[1].reg;
    if r0 !in values then UnknownIds(i)
    else if !values[r0].Imm? then Fail(AttributeError)
    else if r1 !in values then UnknownIds(i)
    else if !values[r1].Imm? then Fail(AttributeError)
    else
      var id0 := values[r0].imm;
      var id1 := values[r1].imm;
      if id0 == id1 then Fail(AssertionError)
      else if i.op.VanillaCnot? then
        if id0 == 0 then Ok(CnotElectronCarbon(r0, r1))
        else if id1 == 0 then Ok(CnotCarbonElectron(r1, r0))
        else CarbonCarbon(used, r0, r1, false, debug)
      else if i.op.VanillaCphase? then
        if id0 == 0 then Ok(CphaseElectronCarbon(r0, r1))
        else if id1 == 0 then Ok(CphaseElectronCarbon(r1, r0))
        else CarbonCarbon(used, r0, r1, true, debug)
      else if id0 == 0 then Ok(MoveElectronCarbon(r0, r1))
      else if id1 == 0 then Ok(MoveCarbonElectron(r1, r0))
      else Fail(RuntimeError)
  }

  /** The exceptions `_handle_two_qubit_gate` raises, and when it succeeds. */
  lemma TwoQubitOutcomes(i: Instr, used: set<Register>, values: map<Register, Operand>, debug: bool)
    requires i.Cmd? && TwoQubitOp(i.op) && Shaped(i)
    ensures HandleTwoQubitGate(i, used, values, debug).Ok? && !i.op.VanillaMov? ==>
      KnownIds(i, values) && values[i.operands[0].reg] != values[i.operands[1].reg]
    ensures KnownIds(i, values) && values[i.operands[0].reg] == values[i.operands[1].reg] ==> HandleTwoQubitGate(i, used, values, debug) == Fail(AssertionError)
    ensures HandleTwoQubitGate(i, used, values, debug) == Fail(AttributeError) <==>
      (i.operands[0].reg in values && !values[i.operands[0].reg].Imm?) ||
      (i.operands[0].reg in values && values[i.operands[0].reg].Imm? &&
       i.operands[1].reg in values && !values[i.operands[1].reg].Imm?)
    ensures i.op.VanillaMov? && KnownIds(i, values) ==>
      (HandleTwoQubitGate(i, used, values, debug).Ok? <==>
         (values[i.operands[0].reg] != values[i.operands[1].reg] &&
          (values[i.operands[0].reg] == Imm(0) || values[i.operands[1].reg] == Imm(0))))
    ensures !i.op.VanillaMov? && KnownIds(i, values) &&
            values[i.operands[0].reg] != values[i.operands[1].reg] ==>
      (HandleTwoQubitGate(i, used, values, debug).Ok? <==>
         (values[i.operands[0].reg] == Imm(0) || values[i.operands[1].reg] == Imm(0) || UnusedRegister(used).Ok?))
  {
  }

  /** The `except KeyError` branch: only a mov may use a register whose value is unknown. */
  function UnknownIds(i: Instr): (r: Result<seq<NvStep>>)
    requires i.Cmd? && TwoQubitOp(i.op) && Shaped(i)
    ensures i.op.VanillaMov? <==> r.Ok?
    ensures r.Err? ==> r == Fail(AssertionError)
  {
    if i.op.VanillaMov? then Ok(MoveElectronCarbon(i.operands[0].reg, i.operands[1].reg))
    else Fail(AssertionError)
  }

  // ---------------------------------------------------------------------
  // `compile`

  /** The first loop's value tracking: a SET of a Q register records its immediate. */
  function Learn(values: map<Register, Operand>, i: Instr): (v: map<Register, Operand>)
    requires Shaped(i)
  {
    if i.Cmd? && i.op.Set? && i.operands[0].reg.name == Q then values[i.operands[0].reg := i.operands[1]]
    else values
  }

  /** The registers among a list of operands. */
  function RegsOf(ops: seq<Operand>): (rs: set<Register>)
    ensures forall r :: r in rs <==> Reg(r) in ops
  {
    set o | o in ops && o.Reg? :: o.reg
  }

  /** What one instruction becomes, given the registers used and the values known. */
  function Expand(i: Instr, used: set<Register>, values: map<Register, Operand>, debug: bool, hardware: bool): (r: Result<seq<Instr>>)
    requires i.Cmd? && Shaped(i)
    ensures !GateOp(i.op) ==> r == Ok([i])
    ensures GateOp(i.op) && r.Ok? ==> 1 <= |r.value| && AllNative(r.value)
  {
    if SingleGateOp(i.op) || RotationOp(i.op) then MapSingleGate(i, hardware)
    else if TwoQubitOp(i.op) then
      var steps :- HandleTwoQubitGate(i, used, values, debug);
      Ok(LowerAll(i.lineno, steps))
    else Ok([i])
  }

  /**
   * The state of the first loop: the registers used and the values known,
   * the instructions emitted so far, `index_changes` as a sequence, and
   * the exception that stopped it.
   */
  datatype Scan = Scan(used: set<Register>, values: map<Register, Operand>, out: seq<Instr>, starts: seq<nat>, failure: Option<Error>)

  function ScanStep(s: Scan, i: Instr, debug: bool, hardware: bool): Scan
    requires Shaped(i)
  {
    if s.failure.Some? then s
    else if i.Debug? then s.(failure := Some(Raise(TypeError)))
    else
      var values := Learn(s.values, i);
      var used := s.used + RegsOf(i.operands);
      var starts := s.starts + [|s.out|];
      match Expand(i, used, values, debug, hardware)
      case Ok(xs) => Scan(used, values, s.out + xs, starts, None)
      case Err(e) => Scan(used, values, s.out, starts, Some(e))
  }

  /**
   * The first loop run over cmds[..k]; every instruction it emits has the
   * shapes the second loop relies on and belongs to no vanilla class.
   */
  function ScanUpTo(cmds: seq<Instr>, k: nat, used: set<Register>, values: map<Register, Operand>, debug: bool, hardware: bool): (r: Scan)
    requires k <= |cmds|
    requires forall j :: 0 <= j < |cmds| ==> Shaped(cmds[j])
    ensures forall j :: 0 <= j < |r.out| ==> Kept(r.out[j])
  {
    if k == 0 then Scan(used, values, [], [], None)
    else
      var prev := ScanUpTo(cmds, k - 1, used, values, debug, hardware);
      ScanStepKept(prev, cmds[k - 1], debug, hardware);
      ScanStep(prev, cmds[k - 1], debug, hardware)
  }

  /**
   * The second loop on one instruction: a branch whose line is the
   * original length is pointed at `end` (and asks for the no-op), any
   * other line t at `index_changes[t]`, KeyError when t was no index.
   */
  function Retarget(i: Instr, starts: seq<nat>, end: nat): (r: Result<(Instr, bool)>)
    requires Shaped(i)
  {
    if !(i.Cmd? && BranchOp(i.op)) then Ok((i, false))
    else
      var p := LinePos(i.op);
      var line := i.operands[p];
      if !line.Imm? then Fail(AttributeError)
      else if line.imm == |starts| then Ok((WithLine(i, end), true))
      else if 0 <= line.imm < |starts| then Ok((WithLine(i, starts[line.imm]), false))
      else Fail(KeyError)
  }

  /** The branch i with its `line` operand set to `Immediate(t)`. */
  function WithLine(i: Instr, t: int): (r: Instr)
    requires i.Cmd? && BranchOp(i.op) && Shaped(i)
    ensures r.Cmd? && r.op == i.op && Shaped(r)
  {
    Cmd(i.op, i.operands[LinePos(i.op) := Imm(t)], i.lineno)
  }

  /** The second loop over xs[..k]: the re-targeted instructions and whether a no-op is needed. */
  function RetargetUpTo(xs: seq<Instr>, k: nat, starts: seq<nat>, end: nat): (r: Result<(seq<Instr>, bool)>)
    requires k <= |xs|
    requires forall j :: 0 <= j < |xs| ==> Shaped(xs[j])
    ensures r.Ok? ==> |r.value.0| == k
  {
    if k == 0 then Ok(([], false))
    else
      var prefix :- RetargetUpTo(xs, k - 1, starts, end);
      var last :- Retarget(xs[k - 1], starts, end);
      Ok((prefix.0 + [last.0], prefix.1 || last.1))
  }

  /** The result of `compile` and the compiler's register bookkeeping afterwards. */
  datatype Outcome = Outcome(result: Result<Subroutine>, used: set<Register>, values: map<Register, Operand>)

  function CompileSpec(s: Subroutine, used: set<Register>, values: map<Register, Operand>, debug: bool, hardware: bool): Outcome
    requires forall j :: 0 <= j < |s.commands| ==> Shaped(s.commands[j])
  {
    var scan := ScanUpTo(s.commands, |s.commands|, used, values, debug, hardware);
    if scan.failure.Some? then Outcome(Err(scan.failure.value), scan.used, scan.values)
    else
      match RetargetUpTo(scan.out, |scan.out|, scan.starts, |scan.out|)
      case Err(e) => Outcome(Err(e), scan.used, scan.values)
      case Ok(rt) =>
        Outcome(Ok(s.(commands := if rt.1 then rt.0 + [NoOp] else rt.0)), scan.used, scan.values)
  }

  /** An instruction the second loop can read that belongs to no vanilla class. */
  predicate Kept(x: Instr)
  {
    Shaped(x) && !(x.Cmd? && VanillaOp(x.op))
  }

  /** One step of the first loop keeps every emitted instruction `Kept`. */
  lemma ScanStepKept(prev: Scan, i: Instr, debug: bool, hardware: bool)
    requires Shaped(i)
    requires forall j :: 0 <= j < |prev.out| ==> Kept(prev.out[j])
    ensures var s := ScanStep(prev, i, debug, hardware);
      forall j :: 0 <= j < |s.out| ==> Kept(s.out[j])
  {
    if prev.failure.None? && i.Cmd? {
      var r := Expand(i, prev.used + RegsOf(i.operands), Learn(prev.values, i), debug, hardware);
      if r.Ok? {
        forall j | 0 <= j < |r.value|
          ensures Kept(r.value[j])
        {
          if GateOp(i.op) {
            NativeKept(r.value[j]);
          }
        }
        KeptConcat(prev.out, r.value);
      }
    }
  }

  lemma NativeKept(x: Instr)
    requires IsNative(x)
    ensures Kept(x) && Emitted(x)
  {
  }

  lemma KeptConcat(a: seq<Instr>, b: seq<Instr>)
    requires forall j :: 0 <= j < |a| ==> Kept(a[j])
    requires forall j :: 0 <= j < |b| ==> Kept(b[j])
    ensures forall j :: 0 <= j < |a + b| ==> Kept((a + b)[j])
  {
    forall j | 0 <= j < |a + b|
      ensures Kept((a + b)[j])
    {
      if j >= |a| {
        assert (a + b)[j] == b[j - |a|];
      }
    }
  }

  // ---------------------------------------------------------------------
  // The compiler object

  class NvSubroutineCompiler {
    var subroutine: Subroutine
    var usedRegisters: set<Register>
    var registerValues: map<Register, Operand>
    const debug: bool
    /** `get_is_using_hardware()`, read from the runtime settings. */
    const usingHardware: bool

    constructor (s: Subroutine, debug: bool, usingHardware: bool)
      ensures subroutine == s && usedRegisters == {} && registerValues == map[]
      ensures this.debug == debug && this.usingHardware == usingHardware
    {
      subroutine := s;
      usedRegisters := {};
      registerValues := map[];
      this.debug := debug;
      this.usingHardware := usingHardware;
    }

    /** `get_unused_register` */
    method GetUnusedRegister() returns (r: Result<Register>)
      ensures r == UnusedRegister(usedRegisters)
    {
      var i := 0;
      while i < 16
        invariant 0 <= i <= 16
        invariant forall j :: 0 <= j < i ==> Register(Q, j) in usedRegisters
      {
        var reg := Register(Q, i);
        if reg !in usedRegisters {
          return Ok(reg);
        }
        i := i + 1;
      }
      return Fail(RuntimeError);
    }

    /** `compile`: rewrites the subroutine's commands and returns the subroutine. */
    method Compile() returns (r: Result<Subroutine>)
      requires forall j :: 0 <= j < |subroutine.commands| ==> Shaped(subroutine.commands[j])
      modifies this
      ensures var o := CompileSpec(old(subroutine), old(usedRegisters), old(registerValues), debug, usingHardware);
        r == o.result && usedRegisters == o.used && registerValues == o.values &&
        subroutine == (if r.Ok? then r.value else old(subroutine))
    {
      ghost var used0, values0 := usedRegisters, registerValues;
      var scanned := ScanCommands();
      if scanned.Err? {
        return Err(scanned.error);
      }
      var newCommands, indexChanges := scanned.value.0, scanned.value.1;
      var retargeted := RetargetBranches(newCommands, indexChanges);
      if retargeted.Err? {
        return Err(retargeted.error);
      }
      var commands := retargeted.value.0;
      if retargeted.value.1 {
        commands := commands + [NoOp];
      }
      subroutine := subroutine.(commands := commands);
      return Ok(subroutine);
    }

    /** One pass of the first loop of `compile`, over instr. */
    method ScanInstr(instr: Instr, out: seq<Instr>, starts: seq<nat>) returns (out': seq<Instr>, starts': seq<nat>, failure: Option<Error>)
      requires Shaped(instr)
      modifies this
      ensures subroutine == old(subroutine)
      ensures ScanStep(Scan(old(usedRegisters), old(registerValues), out, starts, None), instr, debug, usingHardware) ==
        Scan(usedRegisters, registerValues, out', starts', failure)
    {
      out', starts', failure := out, starts, None;
      if instr.Debug? {
        failure := Some(Raise(TypeError));
      } else {
        registerValues := Learn(registerValues, instr);
        usedRegisters := usedRegisters + RegsOf(instr.operands);
        starts' := starts + [|out|];
        var expanded := Expand(instr, usedRegisters, registerValues, debug, usingHardware);
        if expanded.Err? {
          failure := Some(expanded.error);
        } else {
          out' := out + expanded.value;
        }
      }
    }

    /**
     * The first loop of `compile`: value tracking, register use, the
     * expansions and `index_changes`.
     */
    method ScanCommands() returns (r: Result<(seq<Instr>, seq<nat>)>)
      requires forall j :: 0 <= j < |subroutine.commands| ==> Shaped(subroutine.commands[j])
      modifies this
      ensures subroutine == old(subroutine)
      ensures var s := ScanUpTo(subroutine.commands, |subroutine.commands|, old(usedRegisters), old(registerValues), debug, usingHardware);
        usedRegisters == s.used && registerValues == s.values &&
        r == (if s.failure.Some? then Err(s.failure.value) else Ok((s.out, s.starts)))
    {
      var cmds := subroutine.commands;
      ghost var used0, values0 := usedRegisters, registerValues;
      var newCommands: seq<Instr> := [];
      var indexChanges: seq<nat> := [];
      var failure: Option<Error> := None;
      var i := 0;
      while i < |cmds| && failure.None?
        invariant 0 <= i <= |cmds| && subroutine == old(subroutine)
        invariant ScanUpTo(cmds, i, used0, values0, debug, usingHardware) ==
          Scan(usedRegisters, registerValues, newCommands, indexChanges, failure)
      {
        newCommands, indexChanges, failure := ScanInstr(cmds[i], newCommands, indexChanges);
        i := i + 1;
      }
      if failure.Some? {
        ScanStops(cmds, i, used0, values0, debug, usingHardware);
        return Err(failure.value);
      }
      return Ok((newCommands, indexChanges));
    }
  }

  /** The second loop of `compile`: every branch is pointed into the new commands. */
  method RetargetBranches(xs: seq<Instr>, starts: seq<nat>) returns (r: Result<(seq<Instr>, bool)>)
    requires forall j :: 0 <= j < |xs| ==> Shaped(xs[j])
    ensures r == RetargetUpTo(xs, |xs|, starts, |xs|)
  {
    var addNoOp := false;
    var retargeted: seq<Instr> := [];
    var j := 0;
    while j < |xs|
      invariant 0 <= j <= |xs|
      invariant RetargetUpTo(xs, j, starts, |xs|) == Ok((retargeted, addNoOp))
    {
      var one := Retarget(xs[j], starts, |xs|);
      if one.Err? {
        RetargetStops(xs, j + 1, starts, |xs|);
        return Err(one.error);
      }
      retargeted := retargeted + [one.value.0];
      addNoOp := addNoOp || one.value.1;
      j := j + 1;
    }
    return Ok((retargeted, addNoOp));
  }

  /** Once the first loop has raised, the later instructions change nothing. */
  lemma {:induction false} ScanStops(cmds: seq<Instr>, k: nat, used: set<Register>, values: map<Register, Operand>, debug: bool, hardware: bool)
    requires k <= |cmds|
    requires forall j :: 0 <= j < |cmds| ==> Shaped(cmds[j])
    requires ScanUpTo(cmds, k, used, values, debug, hardware).failure.Some?
    ensures ScanUpTo(cmds, |cmds|, used, values, debug, hardware) == ScanUpTo(cmds, k, used, values, debug, hardware)
    decreases |cmds| - k
  {
    if k < |cmds| {
      ScanStops(cmds, k + 1, used, values, debug, hardware);
    }
  }

  /** Once the second loop has raised, the later instructions change nothing. */
  lemma {:induction false} RetargetStops(xs: seq<Instr>, k: nat, starts: seq<nat>, end: nat)
    requires k <= |xs|
    requires forall j :: 0 <= j < |xs| ==> Shaped(xs[j])
    requires RetargetUpTo(xs, k, starts, end).Err?
    ensures RetargetUpTo(xs, |xs|, starts, end) == RetargetUpTo(xs, k, starts, end)
    decreases |xs| - k
  {
    if k < |xs| {
      RetargetStops(xs, k + 1, starts, end);
    }
  }
}
