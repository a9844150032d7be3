// The programs of `tests/test_executor.py`, as the text parser leaves
// them (constants moved into temporary registers, labels replaced by
// command numbers), and what the executor does with them.

module VmPrograms {
  import opened Wrappers
  import opened Operand
  import opened Memory
  import opened Instructions
  import opened Vm
  import opened VmRun
  import Subroutine

  function Cmd0(op: Opcode, ops: seq<Operand>): Instr { Cmd(op, ops, None) }

  const R0 := Register(RegName.R, 0)
  const R1 := Register(RegName.R, 1)
  const R2 := Register(RegName.R, 2)
  const Q0 := Register(RegName.Q, 0)

  /**
   * `set R0 0; LOOP: beq R0 10 EXIT; add R0 R0 1; beq 0 0 LOOP; EXIT:`
   * after its constants went to R1 and R2.
   */
  function CountingLoop(): seq<Instr>
  {
    [ Cmd0(Set, [Reg(R0), Imm(0)]),
      Cmd0(Set, [Reg(R1), Imm(10)]),
      Cmd0(Beq, [Reg(R0), Reg(R1), Imm(8)]),
      Cmd0(Set, [Reg(R1), Imm(1)]),
      Cmd0(Add, [Reg(R0), Reg(R0), Reg(R1)]),
      Cmd0(Set, [Reg(R1), Imm(0)]),
      Cmd0(Set, [Reg(R2), Imm(0)]),
      Cmd0(Beq, [Reg(R1), Reg(R2), Imm(1)]) ]
  }

  /** `cmds` is the counting loop, command by command. */
  predicate IsCountingLoop(cmds: seq<Instr>)
  {
    |cmds| == 8 &&
    cmds[0] == Cmd0(Set, [Reg(R0), Imm(0)]) && cmds[1] == Cmd0(Set, [Reg(R1), Imm(10)]) &&
    cmds[2] == Cmd0(Beq, [Reg(R0), Reg(R1), Imm(8)]) && cmds[3] == Cmd0(Set, [Reg(R1), Imm(1)]) &&
    cmds[4] == Cmd0(Add, [Reg(R0), Reg(R0), Reg(R1)]) && cmds[5] == Cmd0(Set, [Reg(R1), Imm(0)]) &&
    cmds[6] == Cmd0(Set, [Reg(R2), Imm(0)]) && cmds[7] == Cmd0(Beq, [Reg(R1), Reg(R2), Imm(1)])
  }

  /** The application of subroutine `sid` has all its register banks. */
  predicate Ready(m: Machine, sid: int)
  {
    sid in m.subroutines && m.subroutines[sid].appId in m.registers && AllBanks(m.registers[m.subroutines[sid].appId].Keys)
  }

  /** Writing the registers keeps them writable. */
  lemma ReadyKept(m: Machine, m': Machine, sid: int)
    requires Ready(m, sid)
    requires m'.subroutines == m.subroutines
    requires m'.registers.Keys == m.registers.Keys
    requires forall a :: a in m.registers ==> m'.registers[a].Keys == m.registers[a].Keys
    ensures Ready(m', sid)
  {
  }

  lemma StepSet(cfg: Config, m: Machine, sid: int, reg: Register, imm: int) returns (m': Machine)
    requires Ready(m, sid) && reg in {R0, R1, R2, Q0} && 0 <= imm <= 10
    ensures Step(cfg, m, sid, VSet(reg, imm)) == Next(m')
    ensures SameQubits(m, m') && m'.subroutines == m.subroutines
    ensures Ready(m', sid) && Pc(m', sid) == Pc(m, sid) + 1
    ensures RegValue(m', sid, reg) == Ok(Some(imm))
    ensures forall g :: g != reg ==> RegValue(m', sid, g) == RegValue(m, sid, g)
  {
    var w := HandleSetOk(cfg, m, sid, reg, imm);
    HandledStep(cfg, m, sid, VSet(reg, imm), w);
    m' := IncPc(w, sid);
  }

  lemma SetWrite(hw: bool, m: Machine, sid: int, reg: Register, imm: int) returns (w: Machine)
    requires Ready(m, sid) && reg in {R0, R1, R2, Q0} && 0 <= imm <= 10
    ensures SetStep(hw, m, sid, reg, imm) == Ok(w)
    ensures Lift(m, SetStep(hw, m, sid, reg, imm)) == Next(w)
    ensures SameQubits(m, w) && w.subroutines == m.subroutines
    ensures Ready(w, sid) && Pc(w, sid) == Pc(m, sid)
    ensures RegValue(w, sid, reg) == Ok(Some(imm))
    ensures forall g :: g != reg ==> RegValue(w, sid, g) == RegValue(m, sid, g)
  {
    var r := WriteRegister(hw, m, m.subroutines[sid].appId, reg, imm);
    assert r.Ok?;
    w := r.value;
    ReadyKept(m, w, sid);
  }

  lemma HandleSet(cfg: Config, m: Machine, sid: int, reg: Register, imm: int)
    ensures Handle(cfg, m, sid, VSet(reg, imm)) == Lift(m, SetStep(cfg.hw, m, sid, reg, imm))
  {
  }

  lemma HandleSetOk(cfg: Config, m: Machine, sid: int, reg: Register, imm: int) returns (w: Machine)
    requires Ready(m, sid) && reg in {R0, R1, R2, Q0} && 0 <= imm <= 10
    ensures Handle(cfg, m, sid, VSet(reg, imm)) == Next(w)
    ensures SameQubits(m, w) && w.subroutines == m.subroutines
    ensures Ready(w, sid) && Pc(w, sid) == Pc(m, sid)
    ensures RegValue(w, sid, reg) == Ok(Some(imm))
    ensures forall g :: g != reg ==> RegValue(w, sid, g) == RegValue(m, sid, g)
  {
    w := SetWrite(cfg.hw, m, sid, reg, imm);
    HandleSet(cfg, m, sid, reg, imm);
  }

  lemma StepBeq(cfg: Config, m: Machine, sid: int, r0: Register, r1: Register, line: int) returns (m': Machine)
    requires Ready(m, sid) && r0 in {R0, R1, R2} && r1 in {R0, R1, R2}
    ensures m' == SetPc(m, sid, if RegValue(m, sid, r0) == RegValue(m, sid, r1) then line else Pc(m, sid) + 1)
    ensures Step(cfg, m, sid, VBranchBinary(CmpEq, r0, r1, line)) == Next(m')
    ensures Ready(m', sid)
  {
    m' := SetPc(m, sid, if RegValue(m, sid, r0) == RegValue(m, sid, r1) then line else Pc(m, sid) + 1);
  }

  lemma ArithAdd(hw: bool, m: Machine, sid: int, out: Register, a: Register, b: Register) returns (w: Machine)
    requires Ready(m, sid) && out in {R0, R1, R2} && a in {R0, R1, R2} && b in {R0, R1, R2}
    requires HoldsValue(m, sid, a) && HoldsValue(m, sid, b)
    requires 0 <= ValueOf(m, sid, a) <= 10 && 0 <= ValueOf(m, sid, b) <= 10
    ensures ArithStep(hw, m, sid, OpAdd, out, a, b, None) == Ok(w)
    ensures Lift(m, ArithStep(hw, m, sid, OpAdd, out, a, b, None)) == Next(w)
    ensures Ready(w, sid) && Pc(w, sid) == Pc(m, sid)
    ensures RegValue(w, sid, out) == Ok(Some(ValueOf(m, sid, a) + ValueOf(m, sid, b)))
  {
    var app := m.subroutines[sid].appId;
    var x, y := ValueOf(m, sid, a), ValueOf(m, sid, b);
    assert ReadRegister(m, app, a) == Ok(Some(x)) && ReadRegister(m, app, b) == Ok(Some(y));
    var r := WriteRegister(hw, m, app, out, x + y);
    assert r.Ok?;
    w := r.value;
    ReadyKept(m, w, sid);
  }

  /** A handler that completes is followed by one increment. */
  lemma HandledStep(cfg: Config, m: Machine, sid: int, v: VmInstr, w: Machine)
    requires !v.IsBranch() && Handle(cfg, m, sid, v) == Next(w)
    ensures Step(cfg, m, sid, v) == Next(IncPc(w, sid))
  {
  }

  lemma HandleArith(cfg: Config, m: Machine, sid: int, out: Register, a: Register, b: Register)
    ensures Handle(cfg, m, sid, VArith(OpAdd, out, a, b, None)) == Lift(m, ArithStep(cfg.hw, m, sid, OpAdd, out, a, b, None))
  {
  }

  lemma HandleAdd(cfg: Config, m: Machine, sid: int, out: Register, a: Register, b: Register) returns (w: Machine)
    requires Ready(m, sid) && out in {R0, R1, R2} && a in {R0, R1, R2} && b in {R0, R1, R2}
    requires HoldsValue(m, sid, a) && HoldsValue(m, sid, b)
    requires 0 <= ValueOf(m, sid, a) <= 10 && 0 <= ValueOf(m, sid, b) <= 10
    ensures Handle(cfg, m, sid, VArith(OpAdd, out, a, b, None)) == Next(w)
    ensures Ready(w, sid) && Pc(w, sid) == Pc(m, sid)
    ensures RegValue(w, sid, out) == Ok(Some(ValueOf(m, sid, a) + ValueOf(m, sid, b)))
  {
    w := ArithAdd(cfg.hw, m, sid, out, a, b);
    HandleArith(cfg, m, sid, out, a, b);
  }

  lemma StepAdd(cfg: Config, m: Machine, sid: int, out: Register, a: Register, b: Register) returns (m': Machine)
    requires Ready(m, sid) && out in {R0, R1, R2} && a in {R0, R1, R2} && b in {R0, R1, R2}
    requires HoldsValue(m, sid, a) && HoldsValue(m, sid, b)
    requires 0 <= ValueOf(m, sid, a) <= 10 && 0 <= ValueOf(m, sid, b) <= 10
    ensures Step(cfg, m, sid, VArith(OpAdd, out, a, b, None)) == Next(m')
    ensures Ready(m', sid) && Pc(m', sid) == Pc(m, sid) + 1
    ensures RegValue(m', sid, out) == Ok(Some(ValueOf(m, sid, a) + ValueOf(m, sid, b)))
  {
    var w := HandleAdd(cfg, m, sid, out, a, b);
    HandledStep(cfg, m, sid, VArith(OpAdd, out, a, b, None), w);
    m' := IncPc(w, sid);
  }

  /** `set reg imm` at the program counter, with `reg` writable and the value small. */
  lemma SetAt(cfg: Config, m: Machine, sid: int, cmds: seq<Instr>, reg: Register, imm: int, fuel: nat)
    returns (m': Machine)
    requires Ready(m, sid) && reg in {R0, R1, R2, Q0} && 0 <= imm <= 10
    requires 0 <= Pc(m, sid) < |cmds| && cmds[Pc(m, sid)] == Cmd0(Set, [Reg(reg), Imm(imm)]) && fuel > 0
    ensures SameQubits(m, m') && m'.subroutines == m.subroutines
    ensures Ready(m', sid) && Pc(m', sid) == Pc(m, sid) + 1
    ensures RegValue(m', sid, reg) == Ok(Some(imm))
    ensures forall g :: g != reg ==> RegValue(m', sid, g) == RegValue(m, sid, g)
    ensures Run(cfg, m, sid, cmds, fuel) == Run(cfg, m', sid, cmds, fuel - 1)
  {
    ViewSet(reg, imm);
    m' := StepSet(cfg, m, sid, reg, imm);
    RunNext(cfg, m, sid, cmds, fuel);
  }

  lemma ViewBeq(r0: Register, r1: Register, line: int)
    ensures View(Cmd0(Beq, [Reg(r0), Reg(r1), Imm(line)])) == VBranchBinary(CmpEq, r0, r1, line)
  {
  }

  lemma ViewAdd(out: Register, a: Register, b: Register)
    ensures View(Cmd0(Add, [Reg(out), Reg(a), Reg(b)])) == VArith(OpAdd, out, a, b, None)
  {
  }

  lemma ViewSet(reg: Register, imm: int)
    ensures View(Cmd0(Set, [Reg(reg), Imm(imm)])) == VSet(reg, imm)
  {
  }

  /** `beq r0 r1 line` at the program counter, on readable registers. */
  lemma BeqAt(cfg: Config, m: Machine, sid: int, cmds: seq<Instr>, r0: Register, r1: Register, line: int, fuel: nat)
    returns (m': Machine)
    requires Ready(m, sid) && r0 in {R0, R1, R2} && r1 in {R0, R1, R2}
    requires 0 <= Pc(m, sid) < |cmds| && cmds[Pc(m, sid)] == Cmd0(Beq, [Reg(r0), Reg(r1), Imm(line)]) && fuel > 0
    ensures m' == SetPc(m, sid, if RegValue(m, sid, r0) == RegValue(m, sid, r1) then line else Pc(m, sid) + 1)
    ensures Ready(m', sid)
    ensures Run(cfg, m, sid, cmds, fuel) == Run(cfg, m', sid, cmds, fuel - 1)
  {
    ViewBeq(r0, r1, line);
    m' := StepBeq(cfg, m, sid, r0, r1, line);
    RunNext(cfg, m, sid, cmds, fuel);
  }

  /** `add out a b` at the program counter, with both operands holding small values. */
  lemma AddAt(cfg: Config, m: Machine, sid: int, cmds: seq<Instr>, out: Register, a: Register, b: Register, fuel: nat)
    returns (m': Machine)
    requires Ready(m, sid) && out in {R0, R1, R2} && a in {R0, R1, R2} && b in {R0, R1, R2}
    requires HoldsValue(m, sid, a) && HoldsValue(m, sid, b)
    requires 0 <= ValueOf(m, sid, a) <= 10 && 0 <= ValueOf(m, sid, b) <= 10
    requires 0 <= Pc(m, sid) < |cmds| && cmds[Pc(m, sid)] == Cmd0(Add, [Reg(out), Reg(a), Reg(b)]) && fuel > 0
    ensures Ready(m', sid) && Pc(m', sid) == Pc(m, sid) + 1
    ensures RegValue(m', sid, out) == Ok(Some(ValueOf(m, sid, a) + ValueOf(m, sid, b)))
    ensures Run(cfg, m, sid, cmds, fuel) == Run(cfg, m', sid, cmds, fuel - 1)
  {
    ViewAdd(out, a, b);
    m' := StepAdd(cfg, m, sid, out, a, b);
    RunNext(cfg, m, sid, cmds, fuel);
  }

  /** Past the last command the run finishes at once. */
  lemma RunDone(cfg: Config, m: Machine, sid: int, cmds: seq<Instr>, fuel: nat)
    requires Pc(m, sid) >= |cmds|
    ensures Run(cfg, m, sid, cmds, fuel) == Finished(m)
  {
  }

  /** The run from `m` finishes with R0 = 10 and the registers still writable. */
  predicate CountedTo10(r: RunResult, sid: int)
  {
    r.Finished? && RegValue(r.m, sid, R0) == Ok(Some(10)) && Ready(r.m, sid)
  }

  /** At command `pc` with R0 holding `c`. */
  predicate At(m: Machine, sid: int, pc: int, c: int)
  {
    Ready(m, sid) && Pc(m, sid) == pc && RegValue(m, sid, R0) == Ok(Some(c))
  }

  // One lemma per command of the loop; each takes one step and hands on
  // to the next, and the measure is the number of passes left, then the
  // commands left in this pass.

  /** Loop head. */
  lemma {:induction false} FromLine1(cfg: Config, m: Machine, sid: int, cmds: seq<Instr>, c: int, fuel: nat)
    requires IsCountingLoop(cmds) && At(m, sid, 1, c) && 0 <= c <= 10 && fuel >= 7 * (10 - c) + 2
    ensures CountedTo10(Run(cfg, m, sid, cmds, fuel), sid)
    decreases 10 - c, 7
  {
    var m' := SetAt(cfg, m, sid, cmds, R1, 10, fuel);
    FromLine2(cfg, m', sid, cmds, c, fuel - 1);
  }

  /** `beq R0 R1 8` with R1 = 10: leave the loop when R0 is 10. */
  lemma {:induction false} FromLine2(cfg: Config, m: Machine, sid: int, cmds: seq<Instr>, c: int, fuel: nat)
    requires IsCountingLoop(cmds) && At(m, sid, 2, c) && 0 <= c <= 10 && fuel >= 7 * (10 - c) + 1
    requires RegValue(m, sid, R1) == Ok(Some(10))
    ensures CountedTo10(Run(cfg, m, sid, cmds, fuel), sid)
    decreases 10 - c, 6
  {
    var m' := BeqAt(cfg, m, sid, cmds, R0, R1, 8, fuel);
    if c == 10 {
      RunDone(cfg, m', sid, cmds, fuel - 1);
    } else {
      FromLine3(cfg, m', sid, cmds, c, fuel - 1);
    }
  }

  lemma {:induction false} FromLine3(cfg: Config, m: Machine, sid: int, cmds: seq<Instr>, c: int, fuel: nat)
    requires IsCountingLoop(cmds) && At(m, sid, 3, c) && 0 <= c < 10 && fuel >= 7 * (10 - c)
    ensures CountedTo10(Run(cfg, m, sid, cmds, fuel), sid)
    decreases 10 - c, 5
  {
    var m' := SetAt(cfg, m, sid, cmds, R1, 1, fuel);
    FromLine4(cfg, m', sid, cmds, c, fuel - 1);
  }

  /** `add R0 R0 R1` with R1 = 1. */
  lemma {:induction false} FromLine4(cfg: Config, m: Machine, sid: int, cmds: seq<Instr>, c: int, fuel: nat)
    requires IsCountingLoop(cmds) && At(m, sid, 4, c) && 0 <= c < 10 && fuel >= 7 * (10 - c) - 1
    requires RegValue(m, sid, R1) == Ok(Some(1))
    ensures CountedTo10(Run(cfg, m, sid, cmds, fuel), sid)
    decreases 10 - c, 4
  {
    var m' := AddAt(cfg, m, sid, cmds, R0, R0, R1, fuel);
    FromLine5(cfg, m', sid, cmds, c + 1, fuel - 1);
  }

  lemma {:induction false} FromLine5(cfg: Config, m: Machine, sid: int, cmds: seq<Instr>, c: int, fuel: nat)
    requires IsCountingLoop(cmds) && At(m, sid, 5, c) && 1 <= c <= 10 && fuel >= 7 * (10 - c) + 5
    ensures CountedTo10(Run(cfg, m, sid, cmds, fuel), sid)
    decreases 10 - c + 1, 3
  {
    var m' := SetAt(cfg, m, sid, cmds, R1, 0, fuel);
    FromLine6(cfg, m', sid, cmds, c, fuel - 1);
  }

  lemma {:induction false} FromLine6(cfg: Config, m: Machine, sid: int, cmds: seq<Instr>, c: int, fuel: nat)
    requires IsCountingLoop(cmds) && At(m, sid, 6, c) && 1 <= c <= 10 && fuel >= 7 * (10 - c) + 4
    requires RegValue(m, sid, R1) == Ok(Some(0))
    ensures CountedTo10(Run(cfg, m, sid, cmds, fuel), sid)
    decreases 10 - c + 1, 2
  {
    var m' := SetAt(cfg, m, sid, cmds, R2, 0, fuel);
    FromLine7(cfg, m', sid, cmds, c, fuel - 1);
  }

  /** `beq R1 R2 1` with both 0: back to the loop head. */
  lemma {:induction false} FromLine7(cfg: Config, m: Machine, sid: int, cmds: seq<Instr>, c: int, fuel: nat)
    requires IsCountingLoop(cmds) && At(m, sid, 7, c) && 1 <= c <= 10 && fuel >= 7 * (10 - c) + 3
    requires RegValue(m, sid, R1) == Ok(Some(0)) && RegValue(m, sid, R2) == Ok(Some(0))
    ensures CountedTo10(Run(cfg, m, sid, cmds, fuel), sid)
    decreases 10 - c + 1, 1
  {
    var m' := BeqAt(cfg, m, sid, cmds, R1, R2, 1, fuel);
    FromLine1(cfg, m', sid, cmds, c, fuel - 1);
  }

  /**
   * The counting loop, run from the start in any state where its
   * registers are writable, finishes with R0 = 10 and leaves them
   * writable, so running it again gives 10 again.
   */
  lemma CountingLoopCounts(cfg: Config, m: Machine, sid: int, cmds: seq<Instr>, fuel: nat)
    requires IsCountingLoop(cmds) && Ready(m, sid) && Pc(m, sid) == 0 && fuel >= 73
    ensures var r := Run(cfg, m, sid, cmds, fuel);
      r.Finished? && RegValue(r.m, sid, R0) == Ok(Some(10)) && Ready(r.m, sid)
  {
    var m' := SetAt(cfg, m, sid, cmds, R0, 0, fuel);
    FromLine1(cfg, m', sid, cmds, 0, fuel - 1);
  }

  lemma CountingLoopIs()
    ensures IsCountingLoop(CountingLoop())
  {
  }

  /** The state `init_new_application(app_id=0, max_qubits=1)` leaves. */
  function Initialised(): (m: Machine)
    ensures 0 in m.registers && m.registers[0] == NewRegisterFile()
    ensures m.unitModules == map[0 := [None]] && m.usedPhysical == {}
  {
    assert EmptyUnitModule(1) == [None];
    InitNewApplication(NewMachine(false), 0, 1, false).m
  }

  /**
   * `execute_subroutine` of the counting loop in application 0 finishes
   * with R0 = 10.
   */
  lemma ExecuteCountingLoop(cfg: Config, m: Machine, sub: Subroutine.Subroutine, fuel: nat)
    requires IsCountingLoop(sub.commands) && sub.appId == 0
    requires 0 in m.registers && AllBanks(m.registers[0].Keys)
    requires fuel >= 73
    ensures var r := ExecuteSubroutine(cfg, m, sub, fuel);
      r.Finished? && ReadRegister(r.m, 0, R0) == Ok(Some(10)) && 0 in r.m.registers && AllBanks(r.m.registers[0].Keys)
  {
    var sid := m.nextSubroutineId;
    var m1 := m.(nextSubroutineId := sid + 1, subroutines := m.subroutines[sid := sub],
                 programCounters := m.programCounters - {sid});
    CountingLoopCounts(cfg, m1, sid, sub.commands, fuel);
  }

  /** `run` applied `n` times in a row, each on the machine the last left, stopping at the first run that does not finish. */
  function RepeatRuns(run: Machine -> RunResult, m: Machine, n: nat): (r: RunResult)
    ensures n == 0 ==> r == Finished(m)
    ensures n > 0 && !run(m).Finished? ==> r == run(m)
    decreases n
  {
    if n == 0 then Finished(m)
    else
      var r := run(m);
      if r.Finished? then RepeatRuns(run, r.m, n - 1) else r
  }

  /** `execute_subroutine` called `n` times in a row, stopping at the first run that does not finish. */
  function Repeat(cfg: Config, m: Machine, sub: Subroutine.Subroutine, n: nat, fuel: nat): (r: RunResult)
    ensures n == 0 ==> r == Finished(m)
    ensures n > 0 && !ExecuteSubroutine(cfg, m, sub, fuel).Finished? ==> r == ExecuteSubroutine(cfg, m, sub, fuel)
  {
    RepeatRuns(m' => ExecuteSubroutine(cfg, m', sub, fuel), m, n)
  }

  /**
   * However many times the counting loop is executed after
   * `init_new_application`, each run finishes and R0 is 10 afterwards.
   */
  lemma CountingLoopRepeats(cfg: Config, m: Machine, sub: Subroutine.Subroutine, n: nat, fuel: nat)
    requires CountingRun(sub, fuel)
    requires 0 in m.registers && AllBanks(m.registers[0].Keys)
    ensures var r := Repeat(cfg, m, sub, n, fuel);
      r.Finished? && (n > 0 ==> ReadRegister(r.m, 0, R0) == Ok(Some(10)))
  {
    var run := m' => ExecuteSubroutine(cfg, m', sub, fuel);
    var ready := m' => CountStart(m');
    var done := m' => ReadRegister(m', 0, R0) == Ok(Some(10));
    CountingLoopRuns(cfg, sub, fuel);
    RepeatKeeps(run, ready, done, m, n);
    assert Repeat(cfg, m, sub, n, fuel) == RepeatRuns(run, m, n);
  }

  /** Each execution of the counting loop from a ready state counts to 10 and is ready for the next. */
  lemma CountingLoopRuns(cfg: Config, sub: Subroutine.Subroutine, fuel: nat)
    requires CountingRun(sub, fuel)
    ensures forall x: Machine {:trigger ExecuteSubroutine(cfg, x, sub, fuel)} :: CountStart(x) ==>
      var r := ExecuteSubroutine(cfg, x, sub, fuel);
      r.Finished? && CountStart(r.m) && ReadRegister(r.m, 0, R0) == Ok(Some(10))
  {
    forall x: Machine | CountStart(x)
      ensures var r := ExecuteSubroutine(cfg, x, sub, fuel);
        r.Finished? && CountStart(r.m) && ReadRegister(r.m, 0, R0) == Ok(Some(10))
    {
      ExecuteCountingLoop(cfg, x, sub, fuel);
    }
  }

  /** The counting loop in application 0, with fuel enough for one run. */
  predicate CountingRun(sub: Subroutine.Subroutine, fuel: nat)
  {
    IsCountingLoop(sub.commands) && sub.appId == 0 && fuel >= 73
  }

  /** R0 is ready for the counting loop: register bank 0 exists with all its banks. */
  predicate CountStart(m: Machine)
  {
    0 in m.registers && AllBanks(m.registers[0].Keys)
  }

  /**
   * Repeating a run that, from any state satisfying `ready`, finishes in
   * a state satisfying `ready` and `done`, finishes every time; after at
   * least one run, `done` holds.
   */
  lemma {:induction false} RepeatKeeps(run: Machine -> RunResult, ready: Machine -> bool, done: Machine -> bool, m: Machine, n: nat)
    requires ready(m)
    requires forall x: Machine {:trigger run(x)} :: ready(x) ==> run(x).Finished? && ready(run(x).m) && done(run(x).m)
    ensures var r := RepeatRuns(run, m, n);
      r.Finished? && ready(r.m) && (n > 0 ==> done(r.m))
    decreases n
  {
    if n > 0 {
      var r := run(m);
      RepeatKeeps(run, ready, done, r.m, n - 1);
      RepeatRunsStep(run, m, n);
    }
  }

  /** A run that finishes hands its machine to the next of the repeated runs. */
  lemma RepeatRunsStep(run: Machine -> RunResult, m: Machine, n: nat)
    requires n > 0 && run(m).Finished?
    ensures RepeatRuns(run, m, n) == RepeatRuns(run, run(m).m, n - 1)
  {
  }

  /** The test's ten runs after `init_new_application(app_id=0, max_qubits=1)`. */
  lemma CountingLoopTenTimes(cfg: Config)
    ensures var r := Repeat(cfg, Initialised(), Subroutine.Subroutine((1, 0), 0, CountingLoop()), 10, 73);
      r.Finished? && ReadRegister(r.m, 0, R0) == Ok(Some(10))
  {
    CountingLoopIs();
    CountingLoopRepeats(cfg, Initialised(), Subroutine.Subroutine((1, 0), 0, CountingLoop()), 10, 73);
  }

  // ---------------------------------------------------------------------
  // The failing programs

  /** `set R0 1; add R0 R0 R0; set R1 0; addm R0 R0 R0 R1` */
  function ZeroModulus(): seq<Instr>
  {
    [ Cmd0(Set, [Reg(R0), Imm(1)]),
      Cmd0(Add, [Reg(R0), Reg(R0), Reg(R0)]),
      Cmd0(Set, [Reg(R1), Imm(0)]),
      Cmd0(Addm, [Reg(R0), Reg(R0), Reg(R0), Reg(R1)]) ]
  }

  predicate IsZeroModulus(cmds: seq<Instr>)
  {
    |cmds| == 4 &&
    cmds[0] == Cmd0(Set, [Reg(R0), Imm(1)]) && cmds[1] == Cmd0(Add, [Reg(R0), Reg(R0), Reg(R0)]) &&
    cmds[2] == Cmd0(Set, [Reg(R1), Imm(0)]) && cmds[3] == Cmd0(Addm, [Reg(R0), Reg(R0), Reg(R0), Reg(R1)])
  }

  lemma ViewAddm(out: Register, a: Register, b: Register, mod: Register)
    ensures View(Cmd0(Addm, [Reg(out), Reg(a), Reg(b), Reg(mod)])) == VArith(OpAddm, out, a, b, Some(mod))
  {
  }

  /** addm with a modulus register holding a value below 1 raises RuntimeError and changes nothing. */
  lemma StepBadModulus(cfg: Config, m: Machine, sid: int, out: Register, a: Register, b: Register, mod: Register)
    requires HoldsValue(m, sid, mod) && ValueOf(m, sid, mod) < 1
    ensures Step(cfg, m, sid, VArith(OpAddm, out, a, b, Some(mod))) == Fault(Raise(RuntimeError), m)
  {
    assert Handle(cfg, m, sid, VArith(OpAddm, out, a, b, Some(mod))) == Lift(m, ArithStep(cfg.hw, m, sid, OpAddm, out, a, b, Some(mod)));
  }

  /** The run raised RuntimeError at `line`. */
  predicate RaisedAt(r: RunResult, line: int)
  {
    r.Raised? && r.error == Error(RuntimeError, Some(line))
  }

  /** The run stops at line 3 with RuntimeError, since the modulus R1 is 0. */
  lemma ZeroModulusRaises(cfg: Config, m: Machine, sid: int, cmds: seq<Instr>, fuel: nat)
    requires IsZeroModulus(cmds) && Ready(m, sid) && Pc(m, sid) == 0 && fuel >= 4
    ensures RaisedAt(Run(cfg, m, sid, cmds, fuel), 3)
  {
    var m1 := SetAt(cfg, m, sid, cmds, R0, 1, fuel);
    ZeroModulusLine1(cfg, m1, sid, cmds, fuel - 1);
  }

  lemma ZeroModulusLine1(cfg: Config, m: Machine, sid: int, cmds: seq<Instr>, fuel: nat)
    requires IsZeroModulus(cmds) && At(m, sid, 1, 1) && fuel >= 3
    ensures RaisedAt(Run(cfg, m, sid, cmds, fuel), 3)
  {
    var m2 := AddAt(cfg, m, sid, cmds, R0, R0, R0, fuel);
    ZeroModulusLine2(cfg, m2, sid, cmds, fuel - 1);
  }

  lemma ZeroModulusLine2(cfg: Config, m: Machine, sid: int, cmds: seq<Instr>, fuel: nat)
    requires IsZeroModulus(cmds) && Ready(m, sid) && Pc(m, sid) == 2 && fuel >= 2
    ensures RaisedAt(Run(cfg, m, sid, cmds, fuel), 3)
  {
    var m3 := SetAt(cfg, m, sid, cmds, R1, 0, fuel);
    ViewAddm(R0, R0, R0, R1);
    StepBadModulus(cfg, m3, sid, R0, R0, R0, R1);
    RunFault(cfg, m3, sid, cmds, fuel - 1);
  }

  /** `set Q0 0; qalloc Q0; qalloc Q0` */
  function DoubleAlloc(): seq<Instr>
  {
    [ Cmd0(Set, [Reg(Q0), Imm(0)]), Cmd0(QAlloc, [Reg(Q0)]), Cmd0(QAlloc, [Reg(Q0)]) ]
  }

  predicate IsDoubleAlloc(cmds: seq<Instr>)
  {
    |cmds| == 3 &&
    cmds[0] == Cmd0(Set, [Reg(Q0), Imm(0)]) && cmds[1] == Cmd0(QAlloc, [Reg(Q0)]) && cmds[2] == Cmd0(QAlloc, [Reg(Q0)])
  }

  lemma ViewQAlloc(reg: Register)
    ensures View(Cmd0(QAlloc, [Reg(reg)])) == VQAlloc(reg)
  {
  }

  lemma HandleQAlloc(cfg: Config, m: Machine, sid: int, reg: Register)
    ensures Handle(cfg, m, sid, VQAlloc(reg)) == Lift(m, QAllocStep(m, sid, reg))
  {
  }

  /** qalloc of a free slot maps it; the registers are untouched. */
  lemma StepQAllocFree(cfg: Config, m: Machine, sid: int, reg: Register) returns (m': Machine)
    requires Ready(m, sid) && HoldsValue(m, sid, reg) && Free(m, sid, ValueOf(m, sid, reg))
    requires ValueOf(m, sid, reg) < |UnitModuleOf(m, sid).value|
    ensures Step(cfg, m, sid, VQAlloc(reg)) == Next(m')
    ensures Ready(m', sid) && Pc(m', sid) == Pc(m, sid) + 1 && RegValue(m', sid, reg) == RegValue(m, sid, reg)
    ensures Occupied(m', sid, ValueOf(m, sid, reg))
  {
    var va := ValueOf(m, sid, reg);
    var r := AllocatePhysical(m, sid, va, None);
    assert r.Ok?;
    HandleQAlloc(cfg, m, sid, reg);
    HandledStep(cfg, m, sid, VQAlloc(reg), r.value);
    m' := IncPc(r.value, sid);
  }

  /** qalloc of an occupied slot raises RuntimeError. */
  lemma StepQAllocOccupied(cfg: Config, m: Machine, sid: int, reg: Register)
    requires HoldsValue(m, sid, reg) && Occupied(m, sid, ValueOf(m, sid, reg))
    ensures Step(cfg, m, sid, VQAlloc(reg)) == Fault(Raise(RuntimeError), m)
  {
    HandleQAlloc(cfg, m, sid, reg);
  }

  /**
   * With one qubit slot, free, the run stops at line 2 with RuntimeError:
   * the second qalloc finds virtual qubit 0 taken.
   */
  lemma DoubleAllocRaises(cfg: Config, m: Machine, sid: int, cmds: seq<Instr>, fuel: nat)
    requires IsDoubleAlloc(cmds) && Ready(m, sid) && Pc(m, sid) == 0 && fuel >= 3
    requires UnitModuleOf(m, sid).Ok? && |UnitModuleOf(m, sid).value| >= 1 && UnitModuleOf(m, sid).value[0].None?
    ensures RaisedAt(Run(cfg, m, sid, cmds, fuel), 2)
  {
    var m1 := SetAt(cfg, m, sid, cmds, Q0, 0, fuel);
    DoubleAllocLine1(cfg, m1, sid, cmds, fuel - 1);
  }

  lemma DoubleAllocLine1(cfg: Config, m: Machine, sid: int, cmds: seq<Instr>, fuel: nat)
    requires IsDoubleAlloc(cmds) && Ready(m, sid) && Pc(m, sid) == 1 && fuel >= 2
    requires RegValue(m, sid, Q0) == Ok(Some(0))
    requires UnitModuleOf(m, sid).Ok? && |UnitModuleOf(m, sid).value| >= 1 && UnitModuleOf(m, sid).value[0].None?
    ensures RaisedAt(Run(cfg, m, sid, cmds, fuel), 2)
  {
    ViewQAlloc(Q0);
    var m2 := StepQAllocFree(cfg, m, sid, Q0);
    RunNext(cfg, m, sid, cmds, fuel);
    DoubleAllocLine2(cfg, m2, sid, cmds, fuel - 1);
  }

  lemma DoubleAllocLine2(cfg: Config, m: Machine, sid: int, cmds: seq<Instr>, fuel: nat)
    requires IsDoubleAlloc(cmds) && Ready(m, sid) && Pc(m, sid) == 2 && fuel >= 1
    requires HoldsValue(m, sid, Q0) && Occupied(m, sid, ValueOf(m, sid, Q0))
    ensures RaisedAt(Run(cfg, m, sid, cmds, fuel), 2)
  {
    ViewQAlloc(Q0);
    StepQAllocOccupied(cfg, m, sid, Q0);
    RunFault(cfg, m, sid, cmds, fuel);
  }

  /** Both failing programs, executed in application 0 after `init_new_application(app_id=0, max_qubits=1)`. */
  lemma FailingProgramsRaise(cfg: Config)
    ensures RaisedAt(ExecuteSubroutine(cfg, Initialised(), Subroutine.Subroutine((0, 0), 0, ZeroModulus()), 4), 3)
    ensures RaisedAt(ExecuteSubroutine(cfg, Initialised(), Subroutine.Subroutine((0, 0), 0, DoubleAlloc()), 3), 2)
  {
    var m := Initialised();
    var sid := m.nextSubroutineId;
    var a := Subroutine.Subroutine((0, 0), 0, ZeroModulus());
    var m1 := m.(nextSubroutineId := sid + 1, subroutines := m.subroutines[sid := a], programCounters := m.programCounters - {sid});
    assert IsZeroModulus(ZeroModulus());
    ZeroModulusRaises(cfg, m1, sid, ZeroModulus(), 4);
    var b := Subroutine.Subroutine((0, 0), 0, DoubleAlloc());
    var m2 := m.(nextSubroutineId := sid + 1, subroutines := m.subroutines[sid := b], programCounters := m.programCounters - {sid});
    assert IsDoubleAlloc(DoubleAlloc());
    DoubleAllocRaises(cfg, m2, sid, DoubleAlloc(), 3);
  }
}
