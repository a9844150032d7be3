// The `Executor` class of `netqasm/backend/executor.py` as a class whose
// fields are the executor's tables. Its methods update the fields in
// place, as the Python methods do, and each is proved to leave exactly
// the state that the corresponding function of Vm, VmRun or VmEpr
// computes from the state before the call.

module Executors {
  import opened Wrappers
  import opened Operand
  import opened Memory
  import opened QLink
  import opened Instructions
  import opened Vm
  import opened FreshIds
  import opened VmRun
  import opened VmEpr
  import Subroutine

  /** How one instruction ended: it completed, it waits, or it raised. */
  datatype Status = Completed | Waits | Failed(error: Error)

  function StatusOf(o: Outcome): (s: Status)
    ensures s == Completed <==> o.Next?
    ensures s == Waits <==> o.Blocked?
    ensures o.Fault? ==> s == Failed(o.error)
  {
    match o
    case Next(_) => Completed
    case Blocked => Waits
    case Fault(e, _) => Failed(e)
  }

  /** The state an outcome leaves: a blocked instruction changes nothing. */
  function After(m: Machine, o: Outcome): Machine
  {
    if o.Blocked? then m else o.m
  }

  class Executor {
    const cfg: Config
    var registers: map<int, RegisterFile>
    var appArrays: map<int, ArrayStore>
    var shared: map<int, SharedState>
    var unitModules: map<int, UnitModule>
    var programCounters: map<int, int>
    var subroutines: map<int, Subroutine.Subroutine>
    var nextSubroutineId: int
    var usedPhysical: set<int>
    var createRequests: map<RequestKey, seq<EprCmdData>>
    var recvRequests: map<RequestKey, seq<EprCmdData>>
    var pending: seq<Response>
    var sent: seq<LinkLayerCreate>
    var hasNetworkStack: bool

    /** The fields as one value. */
    function State(): Machine
      reads this
    {
      Machine(registers, appArrays, shared, unitModules, programCounters, subroutines, nextSubroutineId,
              usedPhysical, createRequests, recvRequests, pending, sent, hasNetworkStack)
    }

    constructor (cfg: Config, hasNetworkStack: bool)
      ensures this.cfg == cfg && State() == NewMachine(hasNetworkStack)
    {
      this.cfg := cfg;
      registers := map[];
      appArrays := map[];
      shared := map[];
      unitModules := map[];
      programCounters := map[];
      subroutines := map[];
      nextSubroutineId := 0;
      usedPhysical := {};
      createRequests := map[];
      recvRequests := map[];
      pending := [];
      sent := [];
      this.hasNetworkStack := hasNetworkStack;
    }

    /** Every field takes its value from `m`. */
    method Commit(m: Machine)
      modifies this
      ensures State() == m
    {
      CommitMemory(m);
      CommitQubits(m);
      CommitControl(m);
      CommitNetwork(m);
    }

    /** The registers and arrays of every application take their values from `m`. */
    method CommitMemory(m: Machine)
      modifies this`registers, this`appArrays, this`shared
      ensures registers == m.registers && appArrays == m.appArrays && shared == m.shared
    {
      registers := m.registers;
      appArrays := m.appArrays;
      shared := m.shared;
    }

    /** The unit modules and the used physical qubits take their values from `m`. */
    method CommitQubits(m: Machine)
      modifies this`unitModules, this`usedPhysical
      ensures unitModules == m.unitModules && usedPhysical == m.usedPhysical
    {
      unitModules := m.unitModules;
      usedPhysical := m.usedPhysical;
    }

    /** The program counters and the subroutine table take their values from `m`. */
    method CommitControl(m: Machine)
      modifies this`programCounters, this`subroutines, this`nextSubroutineId
      ensures programCounters == m.programCounters && subroutines == m.subroutines && nextSubroutineId == m.nextSubroutineId
    {
      programCounters := m.programCounters;
      subroutines := m.subroutines;
      nextSubroutineId := m.nextSubroutineId;
    }

    /** The request tables, the responses and the requests sent take their values from `m`. */
    method CommitNetwork(m: Machine)
      modifies this`createRequests, this`recvRequests, this`pending, this`sent, this`hasNetworkStack
      ensures createRequests == m.createRequests && recvRequests == m.recvRequests && pending == m.pending && sent == m.sent && hasNetworkStack == m.hasNetworkStack
    {
      createRequests := m.createRequests;
      recvRequests := m.recvRequests;
      pending := m.pending;
      sent := m.sent;
      hasNetworkStack := m.hasNetworkStack;
    }

    /** `self._program_counters[subroutine_id] += 1` on the defaultdict. */
    method IncProgramCounter(sid: int)
      modifies this
      ensures State() == IncPc(old(State()), sid)
    {
      var pc := if sid in programCounters then programCounters[sid] else 0;
      programCounters := programCounters[sid := pc + 1];
    }

    /**
     * `_get_unused_physical_qubit`: counts up from 0 to the first id not in
     * use, and marks it used.
     */
    method GetUnusedPhysicalQubit() returns (p: nat)
      modifies this
      ensures p == SmallestUnused(old(usedPhysical))
      ensures State() == old(State()).(usedPhysical := old(usedPhysical) + {p})
    {
      p := 0;
      while p in usedPhysical
        invariant forall q :: 0 <= q < p ==> q in usedPhysical
        invariant p <= |usedPhysical| && State() == old(State())
        decreases |usedPhysical| - p
      {
        SubsetSize(Below(p + 1), usedPhysical);
        p := p + 1;
      }
      SmallestUnusedUnique(usedPhysical, p);
      usedPhysical := usedPhysical + {p};
    }

    /**
     * `_allocate_physical_qubit`: the slot of the virtual address gets the
     * given physical id or, without one, the smallest unused id; the id is
     * returned.
     */
    method AllocatePhysicalQubit(sid: int, va: int, phys: Option<int>) returns (r: Result<int>)
      modifies this
      ensures var spec := AllocatePhysical(old(State()), sid, va, phys);
        (r.Ok? <==> spec.Ok?) &&
        (spec.Ok? ==> State() == spec.value &&
                      r.value == if phys.Some? then phys.value else SmallestUnused(old(usedPhysical))) &&
        (spec.Err? ==> State() == old(State()) && r == Err(spec.error))
    {
      if sid !in subroutines {
        return Fail(ValueError);
      }
      var app := subroutines[sid].appId;
      if app !in unitModules {
        return Fail(RuntimeError);
      }
      var um := unitModules[app];
      if va >= |um| {
        return Fail(ValueError);
      }
      var j := PyIndex(|um|, va);
      if j.None? {
        return Fail(IndexError);
      }
      if um[j.value].Some? {
        return Fail(RuntimeError);
      }
      var p: int;
      if phys.None? {
        var q := GetUnusedPhysicalQubit();
        p := q;
      } else {
        p := phys.value;
      }
      unitModules := unitModules[app := um[j.value := Some(p)]];
      return Ok(p);
    }

    /**
     * `_free_physical_qubit`: an unallocated slot raises; otherwise the slot
     * is cleared, then its id leaves the used set.
     */
    method FreePhysicalQubit(sid: int, va: int) returns (r: Result<Unit>)
      modifies this
      ensures var o := FreePhysical(old(State()), sid, va);
        State() == o.m && (r.Ok? <==> o.Next?) && (o.Fault? ==> r == Err(o.error))
    {
      if sid !in subroutines {
        return Fail(ValueError);
      }
      var app := subroutines[sid].appId;
      if app !in unitModules {
        return Fail(RuntimeError);
      }
      var um := unitModules[app];
      var j := PyIndex(|um|, va);
      if j.None? {
        return Fail(IndexError);
      }
      if um[j.value].None? {
        return Fail(RuntimeError);
      }
      var p := um[j.value].value;
      unitModules := unitModules[app := um[j.value := None]];
      if p !in usedPhysical {
        return Fail(KeyError);
      }
      usedPhysical := usedPhysical - {p};
      return Ok(Unit);
    }

    /** `_instr_set`: the register's group gets the immediate. */
    method InstrSet(sid: int, reg: Register, imm: int) returns (s: Status)
      modifies this
      ensures var o := Lift(old(State()), SetStep(cfg.hw, old(State()), sid, reg, imm));
        s == StatusOf(o) && State() == After(old(State()), o)
    {
      if sid !in subroutines {
        return Failed(Raise(ValueError));
      }
      var app := subroutines[sid].appId;
      if app !in registers || reg.name !in registers[app] {
        return Failed(Raise(KeyError));
      }
      var g := GroupSet(cfg.hw, registers[app][reg.name], reg.index, imm);
      if g.Err? {
        return Failed(g.error);
      }
      registers := registers[app := registers[app][reg.name := g.value]];
      return Completed;
    }

    /** `_instr_qalloc`: the register's value is the virtual address to allocate. */
    method InstrQAlloc(sid: int, reg: Register) returns (s: Status)
      modifies this
      ensures var o := Lift(old(State()), QAllocStep(old(State()), sid, reg));
        s == StatusOf(o) && State() == After(old(State()), o)
    {
      var v := RegValue(State(), sid, reg);
      if v.Err? {
        return Failed(v.error);
      }
      if v.value.None? {
        return Failed(Raise(RuntimeError));
      }
      var r := AllocatePhysicalQubit(sid, v.value.value, None);
      if r.Err? {
        return Failed(r.error);
      }
      return Completed;
    }

    /** `_instr_qfree`: the register's value is the virtual address to free. */
    method InstrQFree(sid: int, reg: Register) returns (s: Status)
      modifies this
      ensures var o := QFreeStep(old(State()), sid, reg);
        s == StatusOf(o) && State() == After(old(State()), o)
    {
      var v := RegValue(State(), sid, reg);
      if v.Err? {
        return Failed(v.error);
      }
      if v.value.None? {
        return Failed(Raise(AssertionError));
      }
      var r := FreePhysicalQubit(sid, v.value.value);
      if r.Err? {
        return Failed(r.error);
      }
      return Completed;
    }

    /** `_handle_branch_instr`: the program counter becomes the target or the next line. */
    method InstrBranch(sid: int, v: VmInstr) returns (s: Status)
      requires v.IsBranch()
      modifies this
      ensures var o := Lift(old(State()), BranchStep(old(State()), sid, v));
        s == StatusOf(o) && State() == After(old(State()), o)
    {
      if sid !in subroutines {
        return Failed(Raise(ValueError));
      }
      var app := subroutines[sid].appId;
      var pc := if sid in programCounters then programCounters[sid] else 0;
      var target: int;
      if v.VJmp? {
        target := v.line;
      } else if v.VBranchUnary? {
        var a := ReadRegister(State(), app, v.reg);
        if a.Err? {
          return Failed(a.error);
        }
        target := if UnaryHolds(v.cond, a.value) then v.line else pc + 1;
      } else {
        var a := ReadRegister(State(), app, v.reg0);
        if a.Err? {
          return Failed(a.error);
        }
        var b := ReadRegister(State(), app, v.reg1);
        if b.Err? {
          return Failed(b.error);
        }
        var holds := BinaryHolds(v.cmp, a.value, b.value);
        if holds.Err? {
          return Failed(holds.error);
        }
        target := if holds.value then v.line else pc + 1;
      }
      programCounters := programCounters[sid := target];
      return Completed;
    }

    /**
     * `_execute_command` with the `inc_program_counter` decorator: a
     * branch moves the program counter itself; any other handler that
     * completes is followed by one increment.
     */
    method ExecuteCommand(sid: int, v: VmInstr) returns (s: Status)
      modifies this
      ensures var o := Step(cfg, old(State()), sid, v);
        s == StatusOf(o) && State() == After(old(State()), o)
    {
      if v.IsBranch() {
        s := InstrBranch(sid, v);
      } else {
        s := ExecuteHandler(sid, v);
        if s == Completed {
          IncProgramCounter(sid);
        }
      }
    }

    /** The handler `_execute_command` dispatches a non-branch instruction to. */
    method ExecuteHandler(sid: int, v: VmInstr) returns (s: Status)
      requires !v.IsBranch()
      modifies this
      ensures var o := Handle(cfg, old(State()), sid, v);
        s == StatusOf(o) && State() == After(old(State()), o)
    {
      HandleCases(cfg, State(), sid, v);
      if v.VSet? {
        s := InstrSet(sid, v.reg, v.imm);
      } else if v.VQAlloc? {
        s := InstrQAlloc(sid, v.reg);
      } else if v.VQFree? {
        s := InstrQFree(sid, v.reg);
      } else {
        var o := Handle(cfg, State(), sid, v);
        if !o.Blocked? {
          Commit(o.m);
        }
        s := StatusOf(o);
      }
    }

    /**
     * `_execute_commands`: while the program counter is below the number of
     * commands, the command at it is executed; an exception stops the loop
     * and is raised again naming the program counter. `fuel` bounds the
     * number of turns.
     */
    method ExecuteCommands(sid: int, cmds: seq<Instr>, fuel: nat) returns (r: RunResult)
      modifies this
      ensures r == Run(cfg, old(State()), sid, cmds, fuel) && State() == r.m
    {
      var f := fuel;
      while true
        invariant Run(cfg, old(State()), sid, cmds, fuel) == Run(cfg, State(), sid, cmds, f)
        decreases f
      {
        ghost var m := State();
        var pc := if sid in programCounters then programCounters[sid] else 0;
        RunStops(cfg, m, sid, cmds, f);
        if pc >= |cmds| {
          return Finished(State());
        }
        if f == 0 {
          return OutOfFuel(State());
        }
        var j := PyIndex(|cmds|, pc);
        if j.None? {
          return Raised(Error(IndexError, None), State());
        }
        var s := ExecuteTurn(sid, cmds, f);
        if s.Waits? {
          return Waiting(State());
        }
        if s.Failed? {
          return Raised(Error(s.error.kind, Some(pc)), State());
        }
        f := f - 1;
      }
    }

    /** One turn of the loop of `_execute_commands`: the command at the program counter is executed. */
    method ExecuteTurn(sid: int, cmds: seq<Instr>, fuel: nat) returns (s: Status)
      requires Pc(State(), sid) < |cmds| && fuel > 0 && PyIndex(|cmds|, Pc(State(), sid)).Some?
      modifies this
      ensures s.Waits? ==> Run(cfg, old(State()), sid, cmds, fuel) == Waiting(State())
      ensures s.Failed? ==>
        Run(cfg, old(State()), sid, cmds, fuel) == Raised(Error(s.error.kind, Some(Pc(old(State()), sid))), State())
      ensures s.Completed? ==> Run(cfg, old(State()), sid, cmds, fuel) == Run(cfg, State(), sid, cmds, fuel - 1)
    {
      ghost var m := State();
      var j := PyIndex(|cmds|, Pc(State(), sid)).value;
      s := ExecuteCommand(sid, View(cmds[j]));
      RunTurn(cfg, m, sid, cmds, fuel, s, State());
    }

    /**
     * `execute_subroutine`: the subroutine is registered under the next id
     * with its program counter reset, run, and cleared when it finishes.
     */
    method ExecuteSubroutine(sub: Subroutine.Subroutine, fuel: nat) returns (r: RunResult)
      modifies this
      ensures r == VmRun.ExecuteSubroutine(cfg, old(State()), sub, fuel) && State() == r.m
    {
      var sid := nextSubroutineId;
      nextSubroutineId := nextSubroutineId + 1;
      subroutines := subroutines[sid := sub];
      programCounters := programCounters - {sid};
      ghost var m1 := State();
      r := ExecuteCommands(sid, sub.commands, fuel);
      SubroutineRun(cfg, old(State()), sub, fuel, m1, r);
      if r.Finished? {
        programCounters := programCounters - {sid};
        subroutines := subroutines - {sid};
        r := Finished(State());
      }
    }

    /**
     * `init_new_application`: a unit module of free slots, fresh registers
     * and arrays, then the shared memory, which the manager refuses when
     * one exists already.
     */
    method InitNewApplication(app: int, maxQubits: int, memoryExists: bool) returns (s: Status)
      modifies this
      ensures var o := VmRun.InitNewApplication(old(State()), app, maxQubits, memoryExists);
        s == StatusOf(o) && State() == o.m
    {
      unitModules := unitModules[app := EmptyUnitModule(maxQubits)];
      registers := registers[app := NewRegisterFile()];
      appArrays := appArrays[app := map[]];
      if memoryExists {
        return Failed(Raise(RuntimeError));
      }
      shared := shared[app := SharedState(NewRegisterFile(), map[])];
      return Completed;
    }

    /**
     * `_clear_qubits`: the unit module is popped and each mapped physical
     * id, in slot order, is removed from the used set.
     */
    method ClearQubits(app: int) returns (s: Status)
      modifies this
      ensures app !in old(unitModules) ==> s == Failed(Raise(KeyError)) && State() == old(State())
      ensures app in old(unitModules) ==> (
        var released := ReleaseAll(old(usedPhysical), old(unitModules)[app]);
        (s == Completed <==> released.1) && (!released.1 ==> s == Failed(Raise(KeyError))) &&
        State() == old(State()).(unitModules := old(unitModules) - {app}, usedPhysical := released.0))
    {
      if app !in unitModules {
        return Failed(Raise(KeyError));
      }
      var um := unitModules[app];
      unitModules := unitModules - {app};
      var k := 0;
      while k < |um|
        invariant 0 <= k <= |um| && unitModules == old(unitModules) - {app}
        invariant ReleaseAll(old(usedPhysical), um) == ReleaseAll(usedPhysical, um[k..])
        invariant State() == old(State()).(unitModules := unitModules, usedPhysical := usedPhysical)
        decreases |um| - k
      {
        assert um[k..][1..] == um[k + 1..];
        if um[k].Some? {
          if um[k].value !in usedPhysical {
            return Failed(Raise(KeyError));
          }
          usedPhysical := usedPhysical - {um[k].value};
        }
        k := k + 1;
      }
      return Completed;
    }

    /** `stop_application`: the qubits, then the registers, the arrays and the shared memory are cleared. */
    method StopApplication(app: int) returns (s: Status)
      modifies this
      ensures var o := VmRun.StopApplication(old(State()), app);
        s == StatusOf(o) && State() == o.m
    {
      s := ClearQubits(app);
      if s != Completed {
        return;
      }
      if app !in registers {
        return Failed(Raise(KeyError));
      }
      registers := registers - {app};
      if app !in appArrays {
        return Failed(Raise(KeyError));
      }
      appArrays := appArrays - {app};
      if app !in shared {
        return Failed(Raise(KeyError));
      }
      shared := shared - {app};
    }

    /**
     * One pass of `_handle_pending_epr_responses`: the `for` loop over the
     * pending responses, which stops at the first one that is handled (and
     * removed) or that raises.
     */
    method HandleOnePass() returns (p: PassResult)
      modifies this
      ensures p == PassFrom(cfg, old(State()), 0)
      ensures State() == if p.NoneHandled? then old(State()) else p.m
    {
      var i := 0;
      while i < |pending|
        invariant i <= |pending| && State() == old(State())
        invariant PassFrom(cfg, old(State()), 0) == PassFrom(cfg, State(), i)
        decreases |pending| - i
      {
        var o := TryResponse(cfg, State(), pending[i]);
        if o.Next? {
          var rest := pending[..i] + pending[i + 1..];
          Commit(o.m.(pending := rest));
          return HandledAt(i, State());
        }
        if o.Fault? {
          Commit(o.m);
          return PassFault(i, o.error, o.m);
        }
        i := i + 1;
      }
      return NoneHandled;
    }

    /**
     * `_handle_pending_epr_responses`: passes are repeated while one handles
     * a response; the wait-and-retry when none is handled is not modelled.
     */
    method HandlePendingEprResponses() returns (d: Drain)
      modifies this
      ensures d == HandlePending(cfg, old(State())) && State() == d.m
      decreases |pending|
    {
      if |pending| == 0 {
        return Drained(State());
      }
      var p := HandleOnePass();
      if p.HandledAt? {
        d := HandlePendingEprResponses();
      } else if p.NoneHandled? {
        d := Stuck(State());
      } else {
        d := DrainFault(p.error, State());
      }
    }

    /** `_handle_epr_response`: the response joins the pending list, which is then handled. */
    method HandleEprResponse(r: Response) returns (d: Drain)
      modifies this
      ensures d == VmEpr.HandleEprResponse(cfg, old(State()), r) && State() == d.m
    {
      pending := pending + [r];
      d := HandlePendingEprResponses();
    }
  }

  /** The ways `_execute_commands` stops before executing a command. */
  lemma RunStops(cfg: Config, m: Machine, sid: int, cmds: seq<Instr>, fuel: nat)
    ensures Pc(m, sid) >= |cmds| ==> Run(cfg, m, sid, cmds, fuel) == Finished(m)
    ensures Pc(m, sid) < |cmds| && fuel == 0 ==> Run(cfg, m, sid, cmds, fuel) == OutOfFuel(m)
    ensures Pc(m, sid) < |cmds| && fuel > 0 && PyIndex(|cmds|, Pc(m, sid)).None? ==>
      Run(cfg, m, sid, cmds, fuel) == Raised(Error(IndexError, None), m)
  {
    if Pc(m, sid) < |cmds| && fuel > 0 {
      assert Run(cfg, m, sid, cmds, fuel) == RunCommand(cfg, m, sid, cmds, fuel);
    }
  }

  /** One turn of `_execute_commands`, told by how the command ended and the state it left. */
  lemma RunTurn(cfg: Config, m: Machine, sid: int, cmds: seq<Instr>, fuel: nat, s: Status, m': Machine)
    requires Pc(m, sid) < |cmds| && fuel > 0 && PyIndex(|cmds|, Pc(m, sid)).Some?
    requires var o := Step(cfg, m, sid, View(cmds[PyIndex(|cmds|, Pc(m, sid)).value]));
      s == StatusOf(o) && m' == After(m, o)
    ensures s.Waits? ==> Run(cfg, m, sid, cmds, fuel) == Waiting(m')
    ensures s.Failed? ==> Run(cfg, m, sid, cmds, fuel) == Raised(Error(s.error.kind, Some(Pc(m, sid))), m')
    ensures s.Completed? ==> Run(cfg, m, sid, cmds, fuel) == Run(cfg, m', sid, cmds, fuel - 1)
  {
    RunUnfold(cfg, m, sid, cmds, fuel);
  }

  /** `execute_subroutine` is the run from the state with the subroutine registered. */
  lemma SubroutineRun(cfg: Config, m: Machine, sub: Subroutine.Subroutine, fuel: nat, m1: Machine, r: RunResult)
    requires m1 == m.(nextSubroutineId := m.nextSubroutineId + 1,
                      subroutines := m.subroutines[m.nextSubroutineId := sub],
                      programCounters := m.programCounters - {m.nextSubroutineId})
    requires r == Run(cfg, m1, m.nextSubroutineId, sub.commands, fuel)
    ensures !r.Finished? ==> ExecuteSubroutine(cfg, m, sub, fuel) == r
    ensures r.Finished? ==> (ExecuteSubroutine(cfg, m, sub, fuel) ==
      Finished(r.m.(programCounters := r.m.programCounters - {m.nextSubroutineId},
                    subroutines := r.m.subroutines - {m.nextSubroutineId})))
  {
  }

  /** The handlers the class runs itself are those of Handle. */
  lemma HandleCases(cfg: Config, m: Machine, sid: int, v: VmInstr)
    requires !v.IsBranch()
    ensures v.VSet? ==> Handle(cfg, m, sid, v) == Lift(m, SetStep(cfg.hw, m, sid, v.reg, v.imm))
    ensures v.VQAlloc? ==> Handle(cfg, m, sid, v) == Lift(m, QAllocStep(m, sid, v.reg))
    ensures v.VQFree? ==> Handle(cfg, m, sid, v) == QFreeStep(m, sid, v.reg)
  {
  }
}
