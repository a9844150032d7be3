// The executor's dispatch, its program-counter loop and the application
// life cycle (`netqasm/backend/executor.py`): `_execute_command` chooses a
// handler by mnemonic or by instruction class, `_execute_commands` runs
// while the program counter is inside the subroutine, and
// `execute_subroutine` frames a run with a fresh subroutine id.

module VmRun {
  import opened Wrappers
  import opened Operand
  import opened Memory
  import opened Instructions
  import opened Vm
  import opened VmProps
  import Subroutine

  // ---------------------------------------------------------------------
  // Dispatch

  /** Operand `k` when it is a register. */
  function RegOp(ops: seq<Operand>, k: nat): Option<Register>
  {
    if k < |ops| && ops[k].Reg? then Some(ops[k].reg) else None
  }

  /** Operand `k` when it is an immediate. */
  function ImmOp(ops: seq<Operand>, k: nat): Option<int>
  {
    if k < |ops| && ops[k].Imm? then Some(ops[k].imm) else None
  }

  function AddrOp(ops: seq<Operand>, k: nat): Option<Address>
  {
    if k < |ops| && ops[k].Addr? then Some(ops[k].addr) else None
  }

  function EntryOp(ops: seq<Operand>, k: nat): Option<ArrayEntry>
  {
    if k < |ops| && ops[k].Entry? then Some(ops[k].entry) else None
  }

  function SliceOp(ops: seq<Operand>, k: nat): Option<ArraySlice>
  {
    if k < |ops| && ops[k].Slice? then Some(ops[k].slice) else None
  }

  /** The first `n` operands, when all are registers. */
  function RegsOp(ops: seq<Operand>, n: nat): (r: Option<seq<Register>>)
    ensures r.Some? ==> |r.value| == n && forall k :: 0 <= k < n ==> RegOp(ops, k) == Some(r.value[k])
    ensures (n <= |ops| && forall k :: 0 <= k < n ==> ops[k].Reg?) ==> r.Some?
  {
    if n <= |ops| && forall k :: 0 <= k < n ==> ops[k].Reg? then
      Some(seq(n, k requires 0 <= k < n && n <= |ops| && ops[k].Reg? => ops[k].reg))
    else None
  }

  predicate IsGate(op: Opcode)
  {
    op.Init? || op.VanillaGateX? || op.VanillaGateY? || op.VanillaGateZ? || op.VanillaGateH? ||
    op.VanillaGateS? || op.VanillaGateK? || op.VanillaGateT? ||
    op.NvGateX? || op.NvGateY? || op.NvGateZ? || op.NvGateH?
  }

  predicate IsRotationOp(op: Opcode)
  {
    op.VanillaRotX? || op.VanillaRotY? || op.VanillaRotZ? || op.NvRotX? || op.NvRotY? || op.NvRotZ?
  }

  /** The operation of a classical instruction. */
  function ArithOf(op: Opcode): Option<ArithOp>
  {
    if op.Add? then Some(OpAdd) else if op.Sub? then Some(OpSub)
    else if op.Addm? then Some(OpAddm) else if op.Subm? then Some(OpSubm)
    else if op.Mul? then Some(OpMul) else if op.Div? then Some(OpDiv)
    else if op.Rem? then Some(OpRem) else None
  }

  function CondOf(op: Opcode): Cond
  {
    if op.Bez? then IfZero else IfNonZero
  }

  function CmpOf(op: Opcode): Cmp
  {
    if op.Beq? then CmpEq else if op.Bne? then CmpNe else if op.Blt? then CmpLt else CmpGe
  }

  /**
   * `_execute_command`'s choice of handler: the mnemonic-named handlers
   * first, then the instruction classes; a debug instruction, a
   * breakpoint and any other class have no handler.
   */
  function View(i: Instr): VmInstr
  {
    if i.Debug? then VUnknown
    else
      var op := i.op;
      var ops := i.operands;
      var r0 := RegOp(ops, 0);
      if op.QAlloc? then (if r0.Some? then VQAlloc(r0.value) else VMalformed)
      else if op.ArrayDecl? then (if r0.Some? && AddrOp(ops, 1).Some? then VArray(r0.value, AddrOp(ops, 1).value) else VMalformed)
      else if op.Set? then (if r0.Some? && ImmOp(ops, 1).Some? then VSet(r0.value, ImmOp(ops, 1).value) else VMalformed)
      else if op.Store? then (if r0.Some? && EntryOp(ops, 1).Some? then VStore(r0.value, EntryOp(ops, 1).value) else VMalformed)
      else if op.Load? then (if r0.Some? && EntryOp(ops, 1).Some? then VLoad(r0.value, EntryOp(ops, 1).value) else VMalformed)
      else if op.Undef? then (if EntryOp(ops, 0).Some? then VUndef(EntryOp(ops, 0).value) else VMalformed)
      else if op.Lea? then (if r0.Some? && AddrOp(ops, 1).Some? then VLea(r0.value, AddrOp(ops, 1).value) else VMalformed)
      else if op.Meas? then (if RegsOp(ops, 2).Some? then VMeas(RegsOp(ops, 2).value[0], RegsOp(ops, 2).value[1]) else VMalformed)
      else if op.CreateEpr? then
        (var rs := RegsOp(ops, 5); if rs.Some? then VCreateEpr(rs.value[0], rs.value[1], rs.value[2], rs.value[3], rs.value[4]) else VMalformed)
      else if op.RecvEpr? then
        (var rs := RegsOp(ops, 4); if rs.Some? then VRecvEpr(rs.value[0], rs.value[1], rs.value[2], rs.value[3]) else VMalformed)
      else if op.WaitAll? then (if SliceOp(ops, 0).Some? then VWaitAll(SliceOp(ops, 0).value) else VMalformed)
      else if op.WaitAny? then (if SliceOp(ops, 0).Some? then VWaitAny(SliceOp(ops, 0).value) else VMalformed)
      else if op.WaitSingle? then (if EntryOp(ops, 0).Some? then VWaitSingle(EntryOp(ops, 0).value) else VMalformed)
      else if op.QFree? then (if r0.Some? then VQFree(r0.value) else VMalformed)
      else if op.RetReg? then (if r0.Some? then VRetReg(r0.value) else VMalformed)
      else if op.RetArr? then (if AddrOp(ops, 0).Some? then VRetArr(AddrOp(ops, 0).value) else VMalformed)
      else if IsGate(op) then (if r0.Some? then VQubit([r0.value], true) else VMalformed)
      else if op.VanillaCnot? || op.VanillaCphase? || op.VanillaMov? then
        (if RegsOp(ops, 2).Some? then VQubit(RegsOp(ops, 2).value, true) else VMalformed)
      else if IsRotationOp(op) then
        (if r0.Some? then VQubit([r0.value], ImmOp(ops, 1).Some? && ImmOp(ops, 2).Some?) else VMalformed)
      else if op.NvCrotX? || op.NvCrotY? then
        (if RegsOp(ops, 2).Some? then VQubit(RegsOp(ops, 2).value, ImmOp(ops, 2).Some? && ImmOp(ops, 3).Some?) else VMalformed)
      else if op.Jmp? then (if ImmOp(ops, 0).Some? then VJmp(ImmOp(ops, 0).value) else VMalformed)
      else if op.Bez? || op.Bnz? then
        (if r0.Some? && ImmOp(ops, 1).Some? then VBranchUnary(CondOf(op), r0.value, ImmOp(ops, 1).value) else VMalformed)
      else if op.Beq? || op.Bne? || op.Blt? || op.Bge? then
        (if RegsOp(ops, 2).Some? && ImmOp(ops, 2).Some?
         then VBranchBinary(CmpOf(op), RegsOp(ops, 2).value[0], RegsOp(ops, 2).value[1], ImmOp(ops, 2).value)
         else VMalformed)
      else if ArithOf(op).Some? then
        (var n := if op.Addm? || op.Subm? then 4 else 3;
         var rs := RegsOp(ops, n);
         if rs.Some? then VArith(ArithOf(op).value, rs.value[0], rs.value[1], rs.value[2], if n == 4 then Some(rs.value[3]) else None)
         else VMalformed)
      else VUnknown
  }

  /**
   * On defined values the executor's conditions are the instructions'
   * `check_condition`.
   */
  lemma ConditionsAgree(op: Opcode, a: int, b: int)
    requires IsBranchUnary(op) || IsBranchBinary(op)
    ensures IsBranchUnary(op) ==> UnaryHolds(CondOf(op), Some(a)) == CheckUnary(op, a)
    ensures IsBranchBinary(op) ==> BinaryHolds(CmpOf(op), Some(a), Some(b)) == Ok(CheckBinary(op, a, b))
  {
  }

  /**
   * A branch and its complement with the same operands, on defined values,
   * take opposite directions.
   */
  lemma ComplementFlips(op: Opcode, a: int, b: int)
    requires IsBranchUnary(op) || IsBranchBinary(op)
    ensures IsBranchUnary(op) ==> UnaryHolds(CondOf(Complement(op)), Some(a)) == !UnaryHolds(CondOf(op), Some(a))
    ensures IsBranchBinary(op) ==>
      BinaryHolds(CmpOf(Complement(op)), Some(a), Some(b)).value == !BinaryHolds(CmpOf(op), Some(a), Some(b)).value
  {
    ConditionsAgree(op, a, b);
    ConditionsAgree(Complement(op), a, b);
  }

  // ---------------------------------------------------------------------
  // The program-counter loop

  /**
   * How a run ends: the program counter left the subroutine, an exception
   * escaped, an instruction is waiting, or the step budget ran out.
   */
  datatype RunResult = Finished(m: Machine) | Raised(error: Error, m: Machine) | Waiting(m: Machine) | OutOfFuel(m: Machine)

  /** The program counters of other subroutines and the subroutine bookkeeping are as they were. */
  ghost predicate OnlyOwnPc(m: Machine, m': Machine, sid: int)
  {
    m'.subroutines == m.subroutines && m'.nextSubroutineId == m.nextSubroutineId &&
    forall s :: s != sid ==> Pc(m', s) == Pc(m, s)
  }

  /** A step moves only the running subroutine's program counter. */
  lemma StepOnlyOwnPc(cfg: Config, m: Machine, sid: int, v: VmInstr)
    ensures var o := Step(cfg, m, sid, v); o.Blocked? || OnlyOwnPc(m, o.m, sid)
  {
    if !v.IsBranch() {
      var h := Handle(cfg, m, sid, v);
      if h.Next? {
        assert OnlyOwnPc(m, h.m, sid);
      }
    }
  }

  /**
   * `_execute_commands`: while the program counter is below the number of
   * commands, the command at it (Python indexing, so IndexError below
   * minus that number) is executed; an exception from a handler is raised
   * again naming the program counter, which the handler left at the
   * faulting command. `fuel` bounds the number of steps.
   */
  function Run(cfg: Config, m: Machine, sid: int, cmds: seq<Instr>, fuel: nat): (r: RunResult)
    ensures r.Finished? ==> Pc(r.m, sid) >= |cmds|
    ensures r.Raised? && r.error.atLine.Some? ==>
      r.error.atLine.value == Pc(r.m, sid) && -|cmds| <= Pc(r.m, sid) < |cmds|
    ensures r.Raised? && r.error.atLine.None? ==> r.error.kind == IndexError && Pc(r.m, sid) < -|cmds|
    ensures r.Waiting? ==> -|cmds| <= Pc(r.m, sid) < |cmds|
    ensures OnlyOwnPc(m, r.m, sid)
    decreases fuel, 2
  {
    if Pc(m, sid) >= |cmds| then Finished(m)
    else if fuel == 0 then OutOfFuel(m)
    else RunCommand(cfg, m, sid, cmds, fuel)
  }

  /** One turn of the loop, first half: `commands[pc]`, an IndexError below minus the length. */
  function RunCommand(cfg: Config, m: Machine, sid: int, cmds: seq<Instr>, fuel: nat): (r: RunResult)
    requires Pc(m, sid) < |cmds| && fuel > 0
    ensures r.Finished? ==> Pc(r.m, sid) >= |cmds|
    ensures r.Raised? && r.error.atLine.Some? ==>
      r.error.atLine.value == Pc(r.m, sid) && -|cmds| <= Pc(r.m, sid) < |cmds|
    ensures r.Raised? && r.error.atLine.None? ==> r.error.kind == IndexError && Pc(r.m, sid) < -|cmds|
    ensures r.Waiting? ==> -|cmds| <= Pc(r.m, sid) < |cmds|
    ensures OnlyOwnPc(m, r.m, sid)
    decreases fuel, 1
  {
    var j := PyIndex(|cmds|, Pc(m, sid));
    if j.None? then Raised(Error(IndexError, None), m)
    else RunInstr(cfg, m, sid, cmds, cmds[j.value], fuel)
  }

  /**
   * Second half: the fetched command is executed; the loop goes on after a
   * completed step, and an exception is raised again naming the line.
   */
  function RunInstr(cfg: Config, m: Machine, sid: int, cmds: seq<Instr>, i: Instr, fuel: nat): (r: RunResult)
    requires -|cmds| <= Pc(m, sid) < |cmds| && fuel > 0
    ensures r.Finished? ==> Pc(r.m, sid) >= |cmds|
    ensures r.Raised? && r.error.atLine.Some? ==>
      r.error.atLine.value == Pc(r.m, sid) && -|cmds| <= Pc(r.m, sid) < |cmds|
    ensures r.Raised? && r.error.atLine.None? ==> r.error.kind == IndexError && Pc(r.m, sid) < -|cmds|
    ensures r.Waiting? ==> -|cmds| <= Pc(r.m, sid) < |cmds|
    ensures OnlyOwnPc(m, r.m, sid)
    decreases fuel, 0
  {
    var v := View(i);
    var o := Step(cfg, m, sid, v);
    StepOnlyOwnPc(cfg, m, sid, v);
    match o
    case Next(m') => Run(cfg, m', sid, cmds, fuel - 1)
    case Blocked => Waiting(m)
    case Fault(e, m') => Raised(Error(e.kind, Some(Pc(m, sid))), m')
  }

  /** A run keeps the qubit bookkeeping consistent, however it ends. */
  lemma {:induction false} RunKeeps(cfg: Config, m: Machine, sid: int, cmds: seq<Instr>, fuel: nat)
    requires QubitsConsistent(m)
    ensures QubitsConsistent(Run(cfg, m, sid, cmds, fuel).m)
    decreases fuel
  {
    var pc := Pc(m, sid);
    if pc < |cmds| && fuel > 0 && PyIndex(|cmds|, pc).Some? {
      var i := cmds[PyIndex(|cmds|, pc).value];
      assert Run(cfg, m, sid, cmds, fuel) == RunCommand(cfg, m, sid, cmds, fuel) == RunInstr(cfg, m, sid, cmds, i, fuel);
      var v := View(i);
      StepKeeps(cfg, m, sid, v);
      var o := Step(cfg, m, sid, v);
      if o.Next? {
        RunKeeps(cfg, o.m, sid, cmds, fuel - 1);
      }
    }
  }

  /**
   * One turn of the loop from a program counter that names a command:
   * a completed step goes on with one step less, a blocked one waits, and
   * an exception is raised again naming the program counter.
   */
  lemma RunUnfold(cfg: Config, m: Machine, sid: int, cmds: seq<Instr>, fuel: nat)
    requires Pc(m, sid) < |cmds| && fuel > 0 && PyIndex(|cmds|, Pc(m, sid)).Some?
    ensures var o := Step(cfg, m, sid, View(cmds[PyIndex(|cmds|, Pc(m, sid)).value]));
      Run(cfg, m, sid, cmds, fuel) ==
        match o
        case Next(m') => Run(cfg, m', sid, cmds, fuel - 1)
        case Blocked => Waiting(m)
        case Fault(e, m') => Raised(Error(e.kind, Some(Pc(m, sid))), m')
  {
    var i := cmds[PyIndex(|cmds|, Pc(m, sid)).value];
    assert Run(cfg, m, sid, cmds, fuel) == RunCommand(cfg, m, sid, cmds, fuel) == RunInstr(cfg, m, sid, cmds, i, fuel);
  }

  /** One completed step: the run continues from the next state with one step less. */
  lemma RunNext(cfg: Config, m: Machine, sid: int, cmds: seq<Instr>, fuel: nat)
    requires 0 <= Pc(m, sid) < |cmds| && fuel > 0
    requires Step(cfg, m, sid, View(cmds[Pc(m, sid)])).Next?
    ensures Run(cfg, m, sid, cmds, fuel) == Run(cfg, Step(cfg, m, sid, View(cmds[Pc(m, sid)])).m, sid, cmds, fuel - 1)
  {
    var i := cmds[Pc(m, sid)];
    assert Run(cfg, m, sid, cmds, fuel) == RunCommand(cfg, m, sid, cmds, fuel) == RunInstr(cfg, m, sid, cmds, i, fuel);
  }

  /** A command that raises: the run stops with the error, now naming the program counter. */
  lemma RunFault(cfg: Config, m: Machine, sid: int, cmds: seq<Instr>, fuel: nat)
    requires 0 <= Pc(m, sid) < |cmds| && fuel > 0
    requires Step(cfg, m, sid, View(cmds[Pc(m, sid)])).Fault?
    ensures var o := Step(cfg, m, sid, View(cmds[Pc(m, sid)]));
      Run(cfg, m, sid, cmds, fuel) == Raised(Error(o.error.kind, Some(Pc(m, sid))), o.m)
  {
    var i := cmds[Pc(m, sid)];
    assert Run(cfg, m, sid, cmds, fuel) == RunCommand(cfg, m, sid, cmds, fuel) == RunInstr(cfg, m, sid, cmds, i, fuel);
  }

  // ---------------------------------------------------------------------
  // Subroutines and applications

  /**
   * `execute_subroutine`: the subroutine gets the next id and a program
   * counter of 0 and is run; when the run finishes, its program counter
   * and its table entry are removed. An exception leaves both in place.
   */
  function ExecuteSubroutine(cfg: Config, m: Machine, sub: Subroutine.Subroutine, fuel: nat): (r: RunResult)
    ensures r.Finished? ==> (
      var sid := m.nextSubroutineId;
      r.m.nextSubroutineId == sid + 1 && sid !in r.m.subroutines && sid !in r.m.programCounters &&
      (forall s :: s != sid ==> (s in r.m.subroutines <==> s in m.subroutines)) &&
      (forall s :: s != sid && s in m.subroutines ==> r.m.subroutines[s] == m.subroutines[s]) &&
      forall s :: s != sid ==> Pc(r.m, s) == Pc(m, s))
    ensures r.Raised? ==> r.m.subroutines == m.subroutines[m.nextSubroutineId := sub]
  {
    var sid := m.nextSubroutineId;
    var m1 := m.(nextSubroutineId := sid + 1, subroutines := m.subroutines[sid := sub],
                 programCounters := m.programCounters - {sid});
    var r := Run(cfg, m1, sid, sub.commands, fuel);
    DropPc(m, m1, sid);
    if r.Finished? then
      var done := r.m.(programCounters := r.m.programCounters - {sid}, subroutines := r.m.subroutines - {sid});
      DropPc(r.m, done, sid);
      Finished(done)
    else r
  }

  lemma DropPc(m: Machine, m': Machine, sid: int)
    requires m'.programCounters == m.programCounters - {sid}
    ensures forall s :: s != sid ==> Pc(m', s) == Pc(m, s)
  {
  }

  /** `[None] * n` */
  function EmptyUnitModule(n: int): (um: UnitModule)
    ensures |um| == (if n < 0 then 0 else n)
    ensures forall k :: 0 <= k < |um| ==> um[k].None?
  {
    if n <= 0 then [] else EmptyUnitModule(n - 1) + [None]
  }

  /**
   * `init_new_application`: a unit module of `maxQubits` free slots, fresh
   * registers and arrays, then a new shared memory, which the manager
   * refuses with RuntimeError when one already exists for the key (after
   * the other three were installed).
   */
  function InitNewApplication(m: Machine, app: int, maxQubits: int, memoryExists: bool): (o: Outcome)
    ensures !o.Blocked?
    ensures o.m.unitModules == m.unitModules[app := EmptyUnitModule(maxQubits)]
    ensures o.m.registers == m.registers[app := NewRegisterFile()] && o.m.appArrays == m.appArrays[app := map[]]
    ensures o.Fault? <==> memoryExists
    ensures o.Fault? ==> o.error == Raise(RuntimeError) && o.m.shared == m.shared
    ensures o.Next? ==> o.m.shared == m.shared[app := SharedState(NewRegisterFile(), map[])]
    ensures o.m.usedPhysical == m.usedPhysical && o.m.subroutines == m.subroutines
  {
    var m1 := m.(unitModules := m.unitModules[app := EmptyUnitModule(maxQubits)],
                 registers := m.registers[app := NewRegisterFile()],
                 appArrays := m.appArrays[app := map[]]);
    if memoryExists then Fault(Raise(RuntimeError), m1)
    else Next(m1.(shared := m.shared[app := SharedState(NewRegisterFile(), map[])]))
  }

  /** The physical ids a unit module maps to. */
  function MappedIds(um: UnitModule): (ids: set<int>)
    ensures forall p :: p in ids <==> exists k :: 0 <= k < |um| && um[k] == Some(p)
  {
    if um == [] then {}
    else
      var rest := MappedIds(um[..|um| - 1]);
      var last := um[|um| - 1];
      assert forall k :: 0 <= k < |um| - 1 ==> um[..|um| - 1][k] == um[k];
      if last.Some? then rest + {last.value} else rest
  }

  /**
   * The loop of `_clear_qubits`: each mapped physical id, in slot order, is
   * removed from the used set; an id that is not there raises KeyError,
   * with the ids before it already removed. Returns the used set and
   * whether every removal succeeded.
   */
  function ReleaseAll(used: set<int>, um: UnitModule): (r: (set<int>, bool))
    ensures r.1 ==> r.0 == used - MappedIds(um)
    ensures ((forall k :: 0 <= k < |um| && um[k].Some? ==> um[k].value in used) &&
             (forall j, k :: 0 <= j < k < |um| && um[j].Some? ==> um[j] != um[k])) ==> r.1
    decreases |um|
  {
    if um == [] then (used, true)
    else if um[0].None? then
      var r := ReleaseAll(used, um[1..]);
      RestIds(um);
      r
    else if um[0].value !in used then (used, false)
    else
      var r := ReleaseAll(used - {um[0].value}, um[1..]);
      RestIds(um);
      r
  }

  lemma RestIds(um: UnitModule)
    requires um != []
    ensures MappedIds(um) == (if um[0].Some? then {um[0].value} else {}) + MappedIds(um[1..])
  {
    var rest := if um[0].Some? then {um[0].value} else {};
    forall p ensures p in MappedIds(um) <==> p in rest + MappedIds(um[1..]) {
      if p in MappedIds(um) {
        var k :| 0 <= k < |um| && um[k] == Some(p);
        if k > 0 {
          assert um[1..][k - 1] == Some(p);
        }
      }
      if p in MappedIds(um[1..]) {
        var k :| 0 <= k < |um[1..]| && um[1..][k] == Some(p);
        assert um[k + 1] == Some(p);
      }
    }
  }

  /**
   * `stop_application`: the unit module is removed (KeyError if absent)
   * and its physical ids released; then the registers, the arrays and the
   * executor's shared-memory entry are removed, each a KeyError when
   * absent. The qubit hooks do nothing.
   */
  function StopApplication(m: Machine, app: int): (o: Outcome)
    ensures !o.Blocked?
    ensures app !in m.unitModules ==> o == Fault(Raise(KeyError), m)
    ensures o.Next? ==> (
      app in m.unitModules && app in m.registers && app in m.appArrays && app in m.shared &&
      o.m == m.(unitModules := m.unitModules - {app}, registers := m.registers - {app},
                appArrays := m.appArrays - {app}, shared := m.shared - {app},
                usedPhysical := m.usedPhysical - MappedIds(m.unitModules[app])))
  {
    if app !in m.unitModules then Fault(Raise(KeyError), m)
    else
      var released := ReleaseAll(m.usedPhysical, m.unitModules[app]);
      var m1 := m.(unitModules := m.unitModules - {app}, usedPhysical := released.0);
      if !released.1 then Fault(Raise(KeyError), m1)
      else if app !in m.registers then Fault(Raise(KeyError), m1)
      else
        var m2 := m1.(registers := m.registers - {app});
        if app !in m.appArrays then Fault(Raise(KeyError), m2)
        else
          var m3 := m2.(appArrays := m.appArrays - {app});
          if app !in m.shared then Fault(Raise(KeyError), m3)
          else Next(m3.(shared := m.shared - {app}))
  }

  /**
   * Under the invariant, stopping an application with all its tables
   * succeeds, releases exactly its qubits, and keeps the bookkeeping
   * consistent.
   */
  lemma StopKeeps(m: Machine, app: int)
    requires QubitsConsistent(m)
    requires app in m.unitModules && app in m.registers && app in m.appArrays && app in m.shared
    ensures StopApplication(m, app).Next?
    ensures QubitsConsistent(StopApplication(m, app).m)
  {
    var um := m.unitModules[app];
    forall k | 0 <= k < |um| && um[k].Some? ensures um[k].value in m.usedPhysical {
      assert MappedAt(m, app, k);
    }
    forall j, k | 0 <= j < k < |um| && um[j].Some? ensures um[j] != um[k] {
      assert MappedAt(m, app, j);
    }
    var m' := StopApplication(m, app).m;
    forall a, i | MappedAt(m', a, i) ensures m'.unitModules[a][i].value in m'.usedPhysical {
      assert MappedAt(m, a, i);
    }
    forall a, i, b, k | MappedAt(m', a, i) && MappedAt(m', b, k) && m'.unitModules[a][i] == m'.unitModules[b][k]
      ensures a == b && i == k
    {
      assert MappedAt(m, a, i) && MappedAt(m, b, k);
    }
  }
}
