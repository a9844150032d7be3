// The instruction semantics of the `Executor` base class of
// `netqasm/backend/executor.py`, as functions on a value that holds every
// field the executor updates. The `Executor` class of executor.dfy keeps
// the same fields and its handler methods are proved against these
// functions.
//
// The base class's quantum hooks do nothing and its `_do_meas` returns 0;
// the network stack contributes only whether it is present, the purpose id
// it assigns (a parameter) and the requests put to it (a log).

module Vm {
  import opened Wrappers
  import opened Operand
  import opened Memory
  import opened QLink
  import opened FreshIds
  import Subroutine

  /** One application's registers: a group per bank. */
  type RegisterFile = map<RegName, Group>

  /** A unit module: for each virtual qubit address, the physical qubit it is mapped to. */
  type UnitModule = seq<Option<int>>

  /** The groups `setup_registers` creates: one empty group per bank. */
  function NewRegisterFile(): (f: RegisterFile)
    ensures AllBanks(f.Keys)
    ensures forall n :: n in f ==> f[n] == map[]
  {
    var f := map[R := map[], C := map[], Q := map[], M := map[]];
    EveryBank(f.Keys);
    f
  }

  /** A set holding the four bank names holds every bank name. */
  lemma EveryBank(names: set<RegName>)
    requires R in names && C in names && Q in names && M in names
    ensures AllBanks(names)
  {
    forall n: RegName ensures n in names {
      match n
      case R => case C => case Q => case M =>
    }
  }

  /** The contents of a `SharedMemory`: its register groups and arrays. */
  datatype SharedState = SharedState(registers: RegisterFile, arrays: ArrayStore)

  /** `EprCmdData`: an entanglement request in progress. */
  datatype EprCmdData = EprCmdData(
    subroutineId: int,
    resultsAddress: int,
    qArrayAddress: Option<int>,
    request: Option<LinkLayerCreate>,
    totPairs: int,
    pairsLeft: int)

  /** A request queue key: remote node id and purpose id. */
  type RequestKey = (int, int)

  /** The fields of an `Executor` that its handlers read and update. */
  datatype Machine = Machine(
    registers: map<int, RegisterFile>,
    appArrays: map<int, ArrayStore>,
    shared: map<int, SharedState>,
    unitModules: map<int, UnitModule>,
    programCounters: map<int, int>,
    subroutines: map<int, Subroutine.Subroutine>,
    nextSubroutineId: int,
    usedPhysical: set<int>,
    createRequests: map<RequestKey, seq<EprCmdData>>,
    recvRequests: map<RequestKey, seq<EprCmdData>>,
    pending: seq<Response>,
    sent: seq<LinkLayerCreate>,
    hasNetworkStack: bool)

  /**
   * What the executor takes from its surroundings: the "using hardware"
   * setting that turns on overflow checks, its node id, and the network
   * stack's `get_purpose_id`.
   */
  datatype Config = Config(hw: bool, nodeId: int, purposeId: (int, int) -> int)

  /** A freshly constructed executor, with or without a network stack. */
  function NewMachine(hasNetworkStack: bool): (m: Machine)
    ensures m.registers == map[] && m.subroutines == map[] && m.programCounters == map[]
    ensures m.nextSubroutineId == 0 && m.usedPhysical == {}
  {
    Machine(map[], map[], map[], map[], map[], map[], 0, {}, map[], map[], [], [], hasNetworkStack)
  }

  // ---------------------------------------------------------------------
  // Program counters

  /** `_program_counters[sid]`, a defaultdict of int. */
  function Pc(m: Machine, sid: int): int
  {
    if sid in m.programCounters then m.programCounters[sid] else 0
  }

  function SetPc(m: Machine, sid: int, pc: int): (m': Machine)
    ensures Pc(m', sid) == pc
    ensures forall s :: s != sid ==> Pc(m', s) == Pc(m, s)
    ensures m' == m.(programCounters := m'.programCounters)
  {
    m.(programCounters := m.programCounters[sid := pc])
  }

  /** The increment of the `inc_program_counter` decorator. */
  function IncPc(m: Machine, sid: int): (m': Machine)
    ensures Pc(m', sid) == Pc(m, sid) + 1
    ensures m' == m.(programCounters := m'.programCounters)
  {
    SetPc(m, sid, Pc(m, sid) + 1)
  }

  /** The unit modules and the used physical qubits are as they were. */
  predicate SameQubits(m: Machine, m': Machine)
  {
    m'.unitModules == m.unitModules && m'.usedPhysical == m.usedPhysical
  }

  /** The handler left the program counters and the subroutine table alone. */
  predicate SameControl(m: Machine, m': Machine)
  {
    m'.programCounters == m.programCounters && m'.subroutines == m.subroutines &&
    m'.nextSubroutineId == m.nextSubroutineId
  }

  // ---------------------------------------------------------------------
  // Reading and writing registers and arrays

  /** `_get_app_id`: the application of a known subroutine, else ValueError. */
  function AppOf(m: Machine, sid: int): (r: Result<int>)
    ensures r.Ok? <==> sid in m.subroutines
    ensures r.Ok? ==> r.value == m.subroutines[sid].appId
    ensures r.Err? ==> r.error == Raise(ValueError)
  {
    if sid !in m.subroutines then Fail(ValueError) else Ok(m.subroutines[sid].appId)
  }

  /** `_get_register`: KeyError for an application without registers, then the group's read. */
  function ReadRegister(m: Machine, app: int, reg: Register): (r: Result<Option<int>>)
    ensures app !in m.registers ==> r == Fail(KeyError)
    ensures app in m.registers && reg.name in m.registers[app] ==> r == GroupGet(m.registers[app][reg.name], reg.index)
    ensures r.Err? ==> r.error.atLine == None
  {
    if app !in m.registers then Fail(KeyError)
    else if reg.name !in m.registers[app] then Fail(KeyError)
    else GroupGet(m.registers[app][reg.name], reg.index)
  }

  /** A register as a handler of subroutine `sid` reads it: the application first, then the slot. */
  function RegValue(m: Machine, sid: int, reg: Register): (r: Result<Option<int>>)
    ensures sid !in m.subroutines ==> r == Fail(ValueError)
    ensures sid in m.subroutines ==> r == ReadRegister(m, m.subroutines[sid].appId, reg)
  {
    var app :- AppOf(m, sid);
    ReadRegister(m, app, reg)
  }

  /** The register can be read and is not None. */
  predicate HoldsValue(m: Machine, sid: int, reg: Register)
  {
    RegValue(m, sid, reg).Ok? && RegValue(m, sid, reg).value.Some?
  }

  function ValueOf(m: Machine, sid: int, reg: Register): int
    requires HoldsValue(m, sid, reg)
  {
    RegValue(m, sid, reg).value.value
  }

  /** The register can be read and is None. */
  predicate Undefined(m: Machine, sid: int, reg: Register)
  {
    RegValue(m, sid, reg) == Ok(None)
  }

  /** A readable register slot. */
  predicate Readable(m: Machine, app: int, reg: Register)
  {
    app in m.registers && reg.name in m.registers[app] && InGroup(reg.index)
  }

  /**
   * `_set_register`: the slot must be readable and, on hardware, the value
   * must fit; afterwards the slot holds the value and every other slot of
   * every application reads as before. Only the registers change.
   */
  function WriteRegister(hw: bool, m: Machine, app: int, reg: Register, value: int): (r: Result<Machine>)
    ensures r.Ok? <==> Readable(m, app, reg) && WithinWidth(hw, value).Ok?
    ensures r.Ok? ==> r.value == m.(registers := r.value.registers)
    ensures r.Ok? ==> ReadRegister(r.value, app, reg) == Ok(Some(value))
    ensures r.Ok? ==> forall a, g :: (a != app || g != reg) ==> ReadRegister(r.value, a, g) == ReadRegister(m, a, g)
    ensures r.Ok? ==> r.value.registers.Keys == m.registers.Keys
    ensures r.Ok? ==> forall a :: a in m.registers ==> r.value.registers[a].Keys == m.registers[a].Keys
    ensures r.Err? ==> r.error.atLine == None
  {
    if app !in m.registers then Fail(KeyError)
    else if reg.name !in m.registers[app] then Fail(KeyError)
    else
      var gs := GroupSet(hw, m.registers[app][reg.name], reg.index, value);
      if gs.Err? then Err(gs.error)
      else
        var m' := m.(registers := m.registers[app := m.registers[app][reg.name := gs.value]]);
        WriteRegisterFrame(hw, m, app, reg, value);
        Ok(m')
  }

  lemma WriteRegisterFrame(hw: bool, m: Machine, app: int, reg: Register, value: int)
    requires app in m.registers && reg.name in m.registers[app]
    requires GroupSet(hw, m.registers[app][reg.name], reg.index, value).Ok?
    ensures var g := GroupSet(hw, m.registers[app][reg.name], reg.index, value).value;
      var m' := m.(registers := m.registers[app := m.registers[app][reg.name := g]]);
      ReadRegister(m', app, reg) == Ok(Some(value)) &&
      forall a, x :: (a != app || x != reg) ==> ReadRegister(m', a, x) == ReadRegister(m, a, x)
  {
    var g := GroupSet(hw, m.registers[app][reg.name], reg.index, value).value;
    var m' := m.(registers := m.registers[app := m.registers[app][reg.name := g]]);
    GroupReadWrite(hw, m.registers[app][reg.name], reg.index, value, 0);
    forall a, x | a != app || x != reg ensures ReadRegister(m', a, x) == ReadRegister(m, a, x) {
      if a == app && x.name == reg.name {
        GroupReadWrite(hw, m.registers[app][reg.name], reg.index, value, x.index);
      }
    }
  }

  /** A Python `None` for a value that must be defined raises `kind`. */
  function Defined(v: Option<int>, kind: ErrorKind): (r: Result<int>)
    ensures r.Ok? <==> v.Some?
    ensures r.Ok? ==> r.value == v.value
    ensures r.Err? ==> r.error == Raise(kind)
  {
    if v.None? then Fail(kind) else Ok(v.value)
  }

  /** An array index: an int, or a register whose value must be defined (RuntimeError). */
  function IndexValue(m: Machine, app: int, i: Index): (r: Result<int>)
    ensures i.IInt? ==> r == Ok(i.value)
    ensures i.IReg? && ReadRegister(m, app, i.reg) == Ok(None) ==> r == Fail(RuntimeError)
    ensures i.IReg? && r.Ok? ==> ReadRegister(m, app, i.reg) == Ok(Some(r.value))
  {
    match i
    case IInt(v) => Ok(v)
    case IReg(reg) =>
      var v :- ReadRegister(m, app, reg);
      Defined(v, RuntimeError)
  }

  /** `_app_arrays[app]`: KeyError for an application without arrays. */
  function AppArrays(m: Machine, app: int): (r: Result<ArrayStore>)
    ensures r.Ok? <==> app in m.appArrays
    ensures r.Ok? ==> r.value == m.appArrays[app]
    ensures r.Err? ==> r.error == Raise(KeyError)
  {
    if app !in m.appArrays then Fail(KeyError) else Ok(m.appArrays[app])
  }

  /** `_get_array_entry`: the index is expanded, then the entry is read; an absent array reads as None. */
  function GetArrayEntry(hw: bool, m: Machine, app: int, e: ArrayEntry): (r: Result<Option<int>>)
  {
    var i :- IndexValue(m, app, e.index);
    var st :- AppArrays(m, app);
    var p :- ArraysGet(hw, st, e.address.address, At(i));
    Ok(EntryValue(p))
  }

  /**
   * `_set_array_entry`: the index is expanded, then one position of one
   * array is written; only the arrays change.
   */
  function SetArrayEntry(hw: bool, m: Machine, app: int, e: ArrayEntry, value: Option<int>): (r: Result<Machine>)
    ensures r.Ok? ==> (
      IndexValue(m, app, e.index).Ok? && app in m.appArrays &&
      var st' := ArraysSetEntry(hw, m.appArrays[app], e.address.address, IndexValue(m, app, e.index).value, value);
      st'.Ok? && r.value == m.(appArrays := m.appArrays[app := st'.value]))
  {
    var i :- IndexValue(m, app, e.index);
    var st :- AppArrays(m, app);
    var st' :- ArraysSetEntry(hw, st, e.address.address, i, value);
    Ok(m.(appArrays := m.appArrays[app := st']))
  }

  /** `_expand_array_part` of a slice: start, then stop. */
  function SliceBounds(m: Machine, app: int, s: ArraySlice): (r: Result<(int, int)>)
    ensures r.Ok? <==> IndexValue(m, app, s.start).Ok? && IndexValue(m, app, s.stop).Ok?
    ensures r.Ok? ==> r.value == (IndexValue(m, app, s.start).value, IndexValue(m, app, s.stop).value)
  {
    var start :- IndexValue(m, app, s.start);
    var stop :- IndexValue(m, app, s.stop);
    Ok((start, stop))
  }

  /** `_get_array_slice`: None for an absent array, else the slice's values. */
  function GetArraySlice(hw: bool, m: Machine, app: int, s: ArraySlice): (r: Result<Option<seq<Option<int>>>>)
  {
    var b :- SliceBounds(m, app, s);
    var st :- AppArrays(m, app);
    var p :- ArraysGet(hw, st, s.address.address, Range(Some(b.0), Some(b.1)));
    if p.Missing? then Ok(None)
    else if p.List? then Ok(Some(p.values))
    else Fail(AssertionError)
  }

  // ---------------------------------------------------------------------
  // Qubit unit modules

  /** `_get_unit_module`: RuntimeError when the application has none. */
  function UnitModuleOf(m: Machine, sid: int): (r: Result<UnitModule>)
    ensures r.Ok? <==> AppOf(m, sid).Ok? && AppOf(m, sid).value in m.unitModules
    ensures r.Ok? ==> r.value == m.unitModules[AppOf(m, sid).value]
    ensures AppOf(m, sid).Ok? && r.Err? ==> r.error == Raise(RuntimeError)
  {
    var app :- AppOf(m, sid);
    if app !in m.unitModules then Fail(RuntimeError) else Ok(m.unitModules[app])
  }

  /** The slot a virtual address names (Python indexing) exists and is mapped. */
  predicate Occupied(m: Machine, sid: int, va: int)
  {
    var um := UnitModuleOf(m, sid);
    um.Ok? && va < |um.value| && PyIndex(|um.value|, va).Some? && um.value[PyIndex(|um.value|, va).value].Some?
  }

  /** The slot a virtual address names exists and is free. */
  predicate Free(m: Machine, sid: int, va: int)
  {
    var um := UnitModuleOf(m, sid);
    um.Ok? && PyIndex(|um.value|, va).Some? && um.value[PyIndex(|um.value|, va).value].None?
  }

  /**
   * `_allocate_physical_qubit`: ValueError for a virtual address at or past
   * the end; Python indexing otherwise (a negative address counts from the
   * end, IndexError below the start); RuntimeError for an occupied slot.
   * A free slot is mapped to `phys`, or, when none is given, to the smallest
   * unused physical id, which is then marked used.
   */
  function AllocatePhysical(m: Machine, sid: int, va: int, phys: Option<int>): (r: Result<Machine>)
    ensures UnitModuleOf(m, sid).Ok? && va >= |UnitModuleOf(m, sid).value| ==> r == Fail(ValueError)
    ensures Occupied(m, sid, va) ==> r == Fail(RuntimeError)
    ensures r.Ok? ==> (
      UnitModuleOf(m, sid).Ok? && va < |UnitModuleOf(m, sid).value| && AppOf(m, sid).Ok? &&
      var app := AppOf(m, sid).value;
      var um := m.unitModules[app];
      PyIndex(|um|, va).Some? &&
      var j := PyIndex(|um|, va).value;
      var p := if phys.Some? then phys.value else SmallestUnused(m.usedPhysical);
      um[j].None? &&
      r.value == m.(unitModules := m.unitModules[app := um[j := Some(p)]],
                    usedPhysical := if phys.Some? then m.usedPhysical else m.usedPhysical + {p}))
  {
    var um :- UnitModuleOf(m, sid);
    var app := AppOf(m, sid).value;
    if va >= |um| then Fail(ValueError)
    else
      var j := PyIndex(|um|, va);
      if j.None? then Fail(IndexError)
      else if um[j.value].Some? then Fail(RuntimeError)
      else
        var p := if phys.Some? then phys.value else SmallestUnused(m.usedPhysical);
        Ok(m.(unitModules := m.unitModules[app := um[j.value := Some(p)]],
              usedPhysical := if phys.Some? then m.usedPhysical else m.usedPhysical + {p}))
  }

  /**
   * The outcome of one instruction: the next state, blocked on a wait,
   * or an exception together with the state at the point it was raised
   * (the executor does not roll back the updates made before it).
   */
  datatype Outcome = Next(m: Machine) | Blocked | Fault(error: Error, m: Machine)

  /** A handler that either completes or raises before changing anything. */
  function Lift(m: Machine, r: Result<Machine>): (o: Outcome)
    ensures r.Ok? <==> o.Next?
    ensures r.Ok? ==> o.m == r.value
    ensures r.Err? ==> o == Fault(r.error, m)
  {
    match r
    case Ok(m') => Next(m')
    case Err(e) => Fault(e, m)
  }

  /**
   * `_free_physical_qubit`: RuntimeError for an unallocated slot; otherwise
   * the slot is cleared and its physical id removed from the used set (a
   * KeyError there is raised after the slot was cleared).
   */
  function FreePhysical(m: Machine, sid: int, va: int): (o: Outcome)
    ensures Free(m, sid, va) ==> o == Fault(Raise(RuntimeError), m)
    ensures o.Next? ==>
      UnitModuleOf(m, sid).Ok? && AppOf(m, sid).Ok? &&
      var app := AppOf(m, sid).value;
      var um := m.unitModules[app];
      PyIndex(|um|, va).Some? &&
      var j := PyIndex(|um|, va).value;
      um[j].Some? && um[j].value in m.usedPhysical &&
      o.m == m.(unitModules := m.unitModules[app := um[j := None]], usedPhysical := m.usedPhysical - {um[j].value})
    ensures !o.Blocked?
    ensures SameControl(m, o.m)
  {
    var r := UnitModuleOf(m, sid);
    if r.Err? then Fault(r.error, m)
    else
      var app := AppOf(m, sid).value;
      var um := r.value;
      var j := PyIndex(|um|, va);
      if j.None? then Fault(Raise(IndexError), m)
      else if um[j.value].None? then Fault(Raise(RuntimeError), m)
      else
        var p := um[j.value].value;
        var m' := m.(unitModules := m.unitModules[app := um[j.value := None]]);
        if p !in m.usedPhysical then Fault(Raise(KeyError), m')
        else Next(m'.(usedPhysical := m.usedPhysical - {p}))
  }

  // ---------------------------------------------------------------------
  // The instructions, as the executor sees them

  /** The condition of bez and bnz. */
  datatype Cond = IfZero | IfNonZero

  /** The comparison of beq, bne, blt and bge. */
  datatype Cmp = CmpEq | CmpNe | CmpLt | CmpGe

  /** The binary classical operations. */
  datatype ArithOp = OpAdd | OpSub | OpAddm | OpSubm | OpMul | OpDiv | OpRem

  /**
   * An instruction reduced to what its handler reads. `VQubit` covers
   * init, the single- and two-qubit gates and the rotations, whose
   * handlers read and check qubit registers and hand them to a hook;
   * `anglesOk` says the angle operands are immediates. `VUnknown` is an
   * instruction no handler takes, `VMalformed` one whose operands do not
   * have its class's shape.
   */
  datatype VmInstr =
    | VSet(reg: Register, imm: int)
    | VQAlloc(reg: Register)
    | VQubit(qregs: seq<Register>, anglesOk: bool)
    | VArray(size: Register, address: Address)
    | VStore(reg: Register, entry: ArrayEntry)
    | VLoad(reg: Register, entry: ArrayEntry)
    | VUndef(entry: ArrayEntry)
    | VLea(reg: Register, address: Address)
    | VJmp(line: int)
    | VBranchUnary(cond: Cond, reg: Register, line: int)
    | VBranchBinary(cmp: Cmp, reg0: Register, reg1: Register, line: int)
    | VArith(op: ArithOp, regout: Register, regin0: Register, regin1: Register, regmod: Option<Register>)
    | VMeas(qreg: Register, creg: Register)
    | VCreateEpr(remote: Register, socket: Register, qubits: Register, args: Register, results: Register)
    | VRecvEpr(remote: Register, socket: Register, qubits: Register, results: Register)
    | VWaitAll(slice: ArraySlice)
    | VWaitAny(slice: ArraySlice)
    | VWaitSingle(entry: ArrayEntry)
    | VQFree(reg: Register)
    | VRetReg(reg: Register)
    | VRetArr(address: Address)
    | VUnknown
    | VMalformed
  {
    predicate IsBranch() { VJmp? || VBranchUnary? || VBranchBinary? }
  }

  /** `check_condition(a)` of bez and bnz, where an undefined register is Python's None. */
  function UnaryHolds(c: Cond, a: Option<int>): bool
  {
    match c
    case IfZero => a == Some(0)
    case IfNonZero => a != Some(0)
  }

  /** `check_condition(a, b)`: equality compares None too; an ordering with None raises TypeError. */
  function BinaryHolds(c: Cmp, a: Option<int>, b: Option<int>): (r: Result<bool>)
    ensures r.Err? <==> (c == CmpLt || c == CmpGe) && (a.None? || b.None?)
    ensures r.Err? ==> r.error == Raise(TypeError)
  {
    match c
    case CmpEq => Ok(a == b)
    case CmpNe => Ok(a != b)
    case CmpLt => if a.None? || b.None? then Fail(TypeError) else Ok(a.value < b.value)
    case CmpGe => if a.None? || b.None? then Fail(TypeError) else Ok(a.value >= b.value)
  }

  /**
   * `_handle_branch_instr`: jmp always jumps; a conditional branch jumps
   * to its line when the condition holds and otherwise moves to the next
   * instruction. Only the program counter changes.
   */
  function BranchStep(m: Machine, sid: int, v: VmInstr): (r: Result<Machine>)
    requires v.IsBranch()
    ensures r.Ok? ==> r.value == SetPc(m, sid, Pc(r.value, sid))
    ensures sid !in m.subroutines ==> r == Fail(ValueError)
    ensures v.VJmp? && sid in m.subroutines ==> r == Ok(SetPc(m, sid, v.line))
    ensures v.VBranchUnary? && RegValue(m, sid, v.reg).Ok? ==>
      r == Ok(SetPc(m, sid, if UnaryHolds(v.cond, RegValue(m, sid, v.reg).value) then v.line else Pc(m, sid) + 1))
    ensures v.VBranchBinary? && RegValue(m, sid, v.reg0).Ok? && RegValue(m, sid, v.reg1).Ok? ==> (
      var h := BinaryHolds(v.cmp, RegValue(m, sid, v.reg0).value, RegValue(m, sid, v.reg1).value);
      (h.Err? ==> r == Fail(TypeError)) &&
      (h.Ok? ==> r == Ok(SetPc(m, sid, if h.value then v.line else Pc(m, sid) + 1))))
  {
    var app :- AppOf(m, sid);
    match v
    case VJmp(line) => Ok(SetPc(m, sid, line))
    case VBranchUnary(c, reg, line) =>
      var a :- ReadRegister(m, app, reg);
      Ok(SetPc(m, sid, if UnaryHolds(c, a) then line else Pc(m, sid) + 1))
    case VBranchBinary(c, reg0, reg1, line) =>
      var a :- ReadRegister(m, app, reg0);
      var b :- ReadRegister(m, app, reg1);
      var holds :- BinaryHolds(c, a, b);
      Ok(SetPc(m, sid, if holds then line else Pc(m, sid) + 1))
  }

  /** Python's `%`: the remainder takes the sign of the divisor. */
  function PyMod(x: int, d: int): (r: int)
    requires d != 0
    ensures d > 0 ==> 0 <= r < d && r == x % d
    ensures d < 0 ==> d < r <= 0 && r == -((-x) % (-d))
  {
    if d > 0 then x % d else -((-x) % (-d))
  }

  /**
   * `_compute_binary_classical_instr`: add and sub; addm and subm take the
   * remainder by the modulus, which must be defined (AssertionError) and
   * non-zero (ZeroDivisionError); mul, div and rem raise ValueError.
   */
  function Compute(op: ArithOp, a: int, b: int, mod: Option<int>): (r: Result<int>)
    ensures op == OpAdd ==> r == Ok(a + b)
    ensures op == OpSub ==> r == Ok(a - b)
    ensures op == OpAddm && mod.Some? && mod.value >= 1 ==> r.Ok? && 0 <= r.value < mod.value && r.value == (a + b) % mod.value
    ensures op == OpSubm && mod.Some? && mod.value >= 1 ==> r.Ok? && 0 <= r.value < mod.value && r.value == (a - b) % mod.value
    ensures (op == OpAddm || op == OpSubm) && mod == Some(0) ==> r == Fail(ZeroDivisionError)
    ensures (op == OpAddm || op == OpSubm) && mod.None? ==> r == Fail(AssertionError)
    ensures (op == OpMul || op == OpDiv || op == OpRem) ==> r == Fail(ValueError)
  {
    match op
    case OpAdd => Ok(a + b)
    case OpSub => Ok(a - b)
    case OpAddm =>
      if mod.None? then Fail(AssertionError) else if mod.value == 0 then Fail(ZeroDivisionError)
      else Ok(PyMod(a + b, mod.value))
    case OpSubm =>
      if mod.None? then Fail(AssertionError) else if mod.value == 0 then Fail(ZeroDivisionError)
      else Ok(PyMod(a - b, mod.value))
    case _ => Fail(ValueError)
  }

  /**
   * `_handle_binary_classical_instr`: a defined modulus below 1 raises
   * RuntimeError before the operands are read; both operands must be
   * defined (AssertionError); the result goes to the output register.
   */
  function ArithStep(hw: bool, m: Machine, sid: int, op: ArithOp, out: Register, in0: Register, in1: Register,
                     regmod: Option<Register>): (r: Result<Machine>)
    ensures regmod.Some? && HoldsValue(m, sid, regmod.value) && ValueOf(m, sid, regmod.value) < 1 ==> r == Fail(RuntimeError)
    ensures regmod.None? && Undefined(m, sid, in0) && RegValue(m, sid, in1).Ok? ==> r == Fail(AssertionError)
    ensures (op == OpMul || op == OpDiv || op == OpRem) ==> r.Err?
    ensures r.Ok? ==> (
      HoldsValue(m, sid, in0) && HoldsValue(m, sid, in1) &&
      (regmod.Some? ==> RegValue(m, sid, regmod.value).Ok?) &&
      var mod := if regmod.Some? then RegValue(m, sid, regmod.value).value else None;
      var c := Compute(op, ValueOf(m, sid, in0), ValueOf(m, sid, in1), mod);
      c.Ok? && RegValue(r.value, sid, out) == Ok(Some(c.value)) &&
      r.value == m.(registers := r.value.registers) &&
      forall a, g :: (a != m.subroutines[sid].appId || g != out) ==> ReadRegister(r.value, a, g) == ReadRegister(m, a, g))
  {
    var app :- AppOf(m, sid);
    var mod :- if regmod.Some? then ReadRegister(m, app, regmod.value) else Ok(None);
    if mod.Some? && mod.value < 1 then Fail(RuntimeError)
    else
      var a :- ReadRegister(m, app, in0);
      var b :- ReadRegister(m, app, in1);
      var x :- Defined(a, AssertionError);
      var y :- Defined(b, AssertionError);
      var value :- Compute(op, x, y, mod);
      WriteRegister(hw, m, app, out, value)
  }

  /** The qubit registers of a gate are read, then each must be defined (AssertionError). */
  function ReadAll(m: Machine, app: int, regs: seq<Register>): (r: Result<seq<Option<int>>>)
    ensures r.Ok? ==> |r.value| == |regs|
    ensures r.Ok? ==> forall k :: 0 <= k < |regs| ==> ReadRegister(m, app, regs[k]) == Ok(r.value[k])
  {
    if regs == [] then Ok([])
    else
      var v :- ReadRegister(m, app, regs[0]);
      var rest :- ReadAll(m, app, regs[1..]);
      Ok([v] + rest)
  }

  function AllDefined(vs: seq<Option<int>>): (r: Result<Unit>)
    ensures r.Ok? <==> forall k :: 0 <= k < |vs| ==> vs[k].Some?
    ensures r.Err? ==> r.error == Raise(AssertionError)
  {
    if vs == [] then Ok(Unit)
    else if vs[0].None? then Fail(AssertionError)
    else AllDefined(vs[1..])
  }

  /** The gate handlers: registers read and checked; the quantum hook itself does nothing. */
  function QubitStep(m: Machine, sid: int, regs: seq<Register>, anglesOk: bool): (r: Result<Machine>)
    ensures r.Ok? ==> r.value == m
  {
    var app :- AppOf(m, sid);
    var vs :- ReadAll(m, app, regs);
    var _ :- AllDefined(vs);
    if anglesOk then Ok(m) else Fail(AttributeError)
  }

  /** `_instr_qalloc`: the register must hold a defined virtual address (RuntimeError), which is then allocated. */
  function QAllocStep(m: Machine, sid: int, reg: Register): (r: Result<Machine>)
    ensures Undefined(m, sid, reg) ==> r == Fail(RuntimeError)
    ensures HoldsValue(m, sid, reg) ==> r == AllocatePhysical(m, sid, ValueOf(m, sid, reg), None)
    ensures r.Ok? ==> HoldsValue(m, sid, reg) && SameControl(m, r.value)
  {
    var app :- AppOf(m, sid);
    var q :- ReadRegister(m, app, reg);
    var va :- Defined(q, RuntimeError);
    AllocatePhysical(m, sid, va, None)
  }

  /** `_instr_array`: the size register must be defined (AssertionError); a new array of that many Nones. */
  function ArrayStep(hw: bool, m: Machine, sid: int, size: Register, address: Address): (r: Result<Machine>)
    ensures Undefined(m, sid, size) ==> r == Fail(AssertionError)
    ensures r.Ok? ==> (
      HoldsValue(m, sid, size) && m.subroutines[sid].appId in m.appArrays &&
      var app := m.subroutines[sid].appId;
      var st := ArraysInit(hw, m.appArrays[app], address.address, ValueOf(m, sid, size));
      st.Ok? && r.value == m.(appArrays := m.appArrays[app := st.value]))
  {
    var app :- AppOf(m, sid);
    var n :- ReadRegister(m, app, size);
    var length :- Defined(n, AssertionError);
    var st :- AppArrays(m, app);
    var st' :- ArraysInit(hw, st, address.address, length);
    Ok(m.(appArrays := m.appArrays[app := st']))
  }

  /**
   * `_instr_create_epr`: the remote node, socket, argument-array and
   * results-array registers must be defined (AssertionError; the qubit
   * array may not be); a network stack must be present (RuntimeError);
   * the request is built from the remote node, the purpose id and the
   * argument array; for type K the qubit array must exist and have one
   * address per pair (AssertionError). The request is put to the network
   * stack and queued with all its pairs left.
   */
  function CreateEprStep(cfg: Config, m: Machine, sid: int, remoteReg: Register, socketReg: Register,
                         qubitsReg: Register, argsReg: Register, resultsReg: Register): (r: Result<Machine>)
    ensures (HoldsValue(m, sid, remoteReg) && HoldsValue(m, sid, socketReg) && RegValue(m, sid, qubitsReg).Ok? &&
             HoldsValue(m, sid, argsReg) && HoldsValue(m, sid, resultsReg) && !m.hasNetworkStack) ==> r == Fail(RuntimeError)
    ensures r.Ok? ==> (
      HoldsValue(m, sid, remoteReg) && HoldsValue(m, sid, socketReg) && RegValue(m, sid, qubitsReg).Ok? &&
      HoldsValue(m, sid, argsReg) && HoldsValue(m, sid, resultsReg) && m.hasNetworkStack &&
      var app := m.subroutines[sid].appId;
      var remote := ValueOf(m, sid, remoteReg);
      app in m.appArrays && ValueOf(m, sid, argsReg) in m.appArrays[app] &&
      var req := CreateFromArgs([Some(remote), Some(cfg.purposeId(remote, ValueOf(m, sid, socketReg)))] +
                                m.appArrays[app][ValueOf(m, sid, argsReg)]);
      req.Ok? &&
      r.value == m.(sent := m.sent + [req.value],
                    createRequests := Enqueue(m.createRequests, (remote, req.value.PurposeId()),
                      EprCmdData(sid, ValueOf(m, sid, resultsReg), RegValue(m, sid, qubitsReg).value, Some(req.value),
                                 req.value.Number(), req.value.Number()))))
  {
    var app :- AppOf(m, sid);
    var rn :- ReadRegister(m, app, remoteReg);
    var es :- ReadRegister(m, app, socketReg);
    var qa :- ReadRegister(m, app, qubitsReg);
    var aa :- ReadRegister(m, app, argsReg);
    var ra :- ReadRegister(m, app, resultsReg);
    var remote :- Defined(rn, AssertionError);
    var socket :- Defined(es, AssertionError);
    var args :- Defined(aa, AssertionError);
    var results :- Defined(ra, AssertionError);
    if !m.hasNetworkStack then Fail(RuntimeError)
    else
      var purpose := cfg.purposeId(remote, socket);
      var st :- AppArrays(m, app);
      var argList :- ArraysGet(cfg.hw, st, args, Range(None, None));
      if !argList.List? then Fail(AssertionError)
      else
        var req :- CreateFromArgs([Some(remote), Some(purpose)] + argList.values);
        var _ :- QubitArrayMatches(cfg.hw, st, req, qa);
        var d := EprCmdData(sid, results, qa, Some(req), req.Number(), req.Number());
        Ok(m.(sent := m.sent + [req], createRequests := Enqueue(m.createRequests, (remote, req.PurposeId()), d)))
  }

  /** For a type-K request, the qubit array must be given, exist and hold one address per pair. */
  function QubitArrayMatches(hw: bool, st: ArrayStore, req: LinkLayerCreate, qa: Option<int>): (r: Result<Unit>)
    requires req.Valid()
    ensures req.requestType != ReqK ==> r == Ok(Unit)
    ensures req.requestType == ReqK && qa.None? ==> r == Fail(AssertionError)
    ensures req.requestType == ReqK && qa.Some? && WithinWidth(hw, qa.value).Ok? && qa.value in st ==>
      (r.Ok? <==> |st[qa.value]| == req.Number())
  {
    if req.requestType != ReqK then Ok(Unit)
    else
      var q :- Defined(qa, AssertionError);
      var qs :- ArraysGet(hw, st, q, Range(None, None));
      if !qs.List? then Fail(AssertionError)
      else if |qs.values| != req.Number() then Fail(AssertionError)
      else Ok(Unit)
  }

  /** The queue of a key in a defaultdict of lists. */
  function Queue(q: map<RequestKey, seq<EprCmdData>>, key: RequestKey): seq<EprCmdData>
  {
    if key in q then q[key] else []
  }

  /** `requests[key].append(d)` */
  function Enqueue(q: map<RequestKey, seq<EprCmdData>>, key: RequestKey, d: EprCmdData): (q': map<RequestKey, seq<EprCmdData>>)
    ensures Queue(q', key) == Queue(q, key) + [d]
    ensures forall k :: k != key ==> Queue(q', k) == Queue(q, k)
  {
    q[key := Queue(q, key) + [d]]
  }

  /**
   * `_instr_recv_epr`: the remote node, socket and results-array registers
   * must be defined (AssertionError); a network stack must be present
   * (RuntimeError); the results array must exist (AssertionError) and its
   * length divided by the OK record size is the number of pairs.
   */
  function RecvEprStep(cfg: Config, m: Machine, sid: int, remoteReg: Register, socketReg: Register,
                       qubitsReg: Register, resultsReg: Register): (r: Result<Machine>)
    ensures (HoldsValue(m, sid, remoteReg) && HoldsValue(m, sid, socketReg) && RegValue(m, sid, qubitsReg).Ok? &&
             HoldsValue(m, sid, resultsReg) && !m.hasNetworkStack) ==> r == Fail(RuntimeError)
    ensures r.Ok? ==> (
      HoldsValue(m, sid, remoteReg) && HoldsValue(m, sid, socketReg) && RegValue(m, sid, qubitsReg).Ok? &&
      HoldsValue(m, sid, resultsReg) && m.hasNetworkStack &&
      var app := m.subroutines[sid].appId;
      var remote := ValueOf(m, sid, remoteReg);
      app in m.appArrays && ValueOf(m, sid, resultsReg) in m.appArrays[app] &&
      var pairs := |m.appArrays[app][ValueOf(m, sid, resultsReg)]| / OK_FIELDS_K;
      r.value == m.(recvRequests := Enqueue(m.recvRequests, (remote, cfg.purposeId(remote, ValueOf(m, sid, socketReg))),
        EprCmdData(sid, ValueOf(m, sid, resultsReg), RegValue(m, sid, qubitsReg).value, None, pairs, pairs))))
  {
    var app :- AppOf(m, sid);
    var rn :- ReadRegister(m, app, remoteReg);
    var es :- ReadRegister(m, app, socketReg);
    var qa :- ReadRegister(m, app, qubitsReg);
    var ra :- ReadRegister(m, app, resultsReg);
    var remote :- Defined(rn, AssertionError);
    var socket :- Defined(es, AssertionError);
    var results :- Defined(ra, AssertionError);
    if !m.hasNetworkStack then Fail(RuntimeError)
    else
      var st :- AppArrays(m, app);
      var info :- ArraysGet(cfg.hw, st, results, Range(None, None));
      if !info.List? then Fail(AssertionError)
      else
        var pairs := |info.values| / OK_FIELDS_K;
        var purpose := cfg.purposeId(remote, socket);
        var d := EprCmdData(sid, results, qa, None, pairs, pairs);
        Ok(m.(recvRequests := Enqueue(m.recvRequests, (remote, purpose), d)))
  }

  /** `_instr_wait_all`: blocked while any entry of the slice is undefined; an absent array raises RuntimeError. */
  function WaitAllStep(hw: bool, m: Machine, sid: int, s: ArraySlice): (o: Outcome)
    ensures o.Next? ==> o.m == m
    ensures o.Fault? ==> o.m == m
  {
    var app := AppOf(m, sid);
    if app.Err? then Fault(app.error, m)
    else
      var r := GetArraySlice(hw, m, app.value, s);
      if r.Err? then Fault(r.error, m)
      else if r.value.None? then Fault(Raise(RuntimeError), m)
      else if exists k :: 0 <= k < |r.value.value| && r.value.value[k].None? then Blocked
      else Next(m)
  }

  /** `_instr_wait_any`: blocked while every entry of the slice is undefined; an absent array raises RuntimeError. */
  function WaitAnyStep(hw: bool, m: Machine, sid: int, s: ArraySlice): (o: Outcome)
    ensures o.Next? ==> o.m == m
    ensures o.Fault? ==> o.m == m
  {
    var app := AppOf(m, sid);
    if app.Err? then Fault(app.error, m)
    else
      var r := GetArraySlice(hw, m, app.value, s);
      if r.Err? then Fault(r.error, m)
      else if r.value.None? then Fault(Raise(RuntimeError), m)
      else if forall k :: 0 <= k < |r.value.value| ==> r.value.value[k].None? then Blocked
      else Next(m)
  }

  /** `_instr_wait_single`: blocked while the entry is undefined (an absent array reads as undefined). */
  function WaitSingleStep(hw: bool, m: Machine, sid: int, e: ArrayEntry): (o: Outcome)
    ensures o.Next? ==> o.m == m
    ensures o.Fault? ==> o.m == m
  {
    var app := AppOf(m, sid);
    if app.Err? then Fault(app.error, m)
    else
      var r := GetArrayEntry(hw, m, app.value, e);
      if r.Err? then Fault(r.error, m)
      else if r.value.None? then Blocked
      else Next(m)
  }

  /** `_instr_ret_reg`: the register must be defined (RuntimeError); its value is written to the shared memory. */
  function RetRegStep(hw: bool, m: Machine, sid: int, reg: Register): (r: Result<Machine>)
    ensures Undefined(m, sid, reg) ==> r == Fail(RuntimeError)
    ensures r.Ok? ==> (
      HoldsValue(m, sid, reg) && m.subroutines[sid].appId in m.shared &&
      var app := m.subroutines[sid].appId;
      reg.name in m.shared[app].registers && app in r.value.shared && reg.name in r.value.shared[app].registers &&
      GroupGet(r.value.shared[app].registers[reg.name], reg.index) == Ok(Some(ValueOf(m, sid, reg))) &&
      r.value == m.(shared := r.value.shared))
  {
    var app :- AppOf(m, sid);
    var v :- ReadRegister(m, app, reg);
    var value :- Defined(v, RuntimeError);
    if app !in m.shared then Fail(KeyError)
    else
      var sh := m.shared[app];
      if reg.name !in sh.registers then Fail(KeyError)
      else
        var g :- GroupSet(hw, sh.registers[reg.name], reg.index, value);
        Ok(m.(shared := m.shared[app := sh.(registers := sh.registers[reg.name := g])]))
  }

  /**
   * `_instr_ret_arr`: the array must exist (IndexError); the shared memory
   * gets a new array of the same length, which is then set to the array's
   * values. On hardware the second step can raise OverflowError after the
   * first has been done.
   */
  function RetArrStep(hw: bool, m: Machine, sid: int, address: Address): (o: Outcome)
    ensures o.Next? ==> AppOf(m, sid).Ok? && var app := AppOf(m, sid).value;
      app in m.appArrays && address.address in m.appArrays[app] && app in m.shared &&
      o.m == m.(shared := m.shared[app := m.shared[app].(arrays :=
        m.shared[app].arrays[address.address := m.appArrays[app][address.address]])])
    ensures !o.Blocked? && SameControl(m, o.m)
  {
    var app := AppOf(m, sid);
    if app.Err? then Fault(app.error, m)
    else
      var st := AppArrays(m, app.value);
      if st.Err? then Fault(st.error, m)
      else
        var arr := ArraysGetArray(st.value, address.address);
        if arr.Err? then Fault(arr.error, m)
        else if app.value !in m.shared then Fault(Raise(KeyError), m)
        else
          var sh := m.shared[app.value];
          var init := ArraysInit(hw, sh.arrays, address.address, |arr.value|);
          if init.Err? then Fault(init.error, m)
          else
            var m' := m.(shared := m.shared[app.value := sh.(arrays := init.value)]);
            var stored := ArraysSetArray(hw, init.value, address.address, arr.value);
            if stored.Err? then Fault(stored.error, m')
            else
              InitWithList(hw, sh.arrays, address.address, arr.value);
              Next(m.(shared := m.shared[app.value := sh.(arrays := stored.value)]))
  }

  /** `_instr_meas`: the qubit register must be defined (AssertionError); the base hook's outcome 0 goes to the classical register. */
  function MeasStep(hw: bool, m: Machine, sid: int, qreg: Register, creg: Register): (r: Result<Machine>)
    ensures Undefined(m, sid, qreg) ==> r == Fail(AssertionError)
    ensures r.Ok? ==> HoldsValue(m, sid, qreg) && RegValue(r.value, sid, creg) == Ok(Some(0)) && r.value == m.(registers := r.value.registers)
  {
    var app :- AppOf(m, sid);
    var q :- ReadRegister(m, app, qreg);
    var _ :- Defined(q, AssertionError);
    WriteRegister(hw, m, app, creg, 0)
  }

  /** `_instr_set`: the register gets the immediate. */
  function SetStep(hw: bool, m: Machine, sid: int, reg: Register, imm: int): (r: Result<Machine>)
    ensures r.Ok? ==> RegValue(r.value, sid, reg) == Ok(Some(imm)) && r.value == m.(registers := r.value.registers)
    ensures r.Ok? ==> forall a, g :: (a != m.subroutines[sid].appId || g != reg) ==> ReadRegister(r.value, a, g) == ReadRegister(m, a, g)
    ensures sid in m.subroutines && Readable(m, m.subroutines[sid].appId, reg) && WithinWidth(hw, imm).Ok? ==> r.Ok?
  {
    var app :- AppOf(m, sid);
    WriteRegister(hw, m, app, reg, imm)
  }

  /** `_instr_store`: the register must be defined (RuntimeError); its value goes to the entry. */
  function StoreStep(hw: bool, m: Machine, sid: int, reg: Register, entry: ArrayEntry): (r: Result<Machine>)
    ensures Undefined(m, sid, reg) ==> r == Fail(RuntimeError)
    ensures HoldsValue(m, sid, reg) ==> r == SetArrayEntry(hw, m, m.subroutines[sid].appId, entry, Some(ValueOf(m, sid, reg)))
    ensures r.Ok? ==> HoldsValue(m, sid, reg) && r.value == m.(appArrays := r.value.appArrays)
  {
    var app :- AppOf(m, sid);
    var v :- ReadRegister(m, app, reg);
    var value :- Defined(v, RuntimeError);
    SetArrayEntry(hw, m, app, entry, Some(value))
  }

  /** `_instr_load`: the entry must be defined (RuntimeError); its value goes to the register. */
  function LoadStep(hw: bool, m: Machine, sid: int, reg: Register, entry: ArrayEntry): (r: Result<Machine>)
    ensures sid in m.subroutines && GetArrayEntry(hw, m, m.subroutines[sid].appId, entry) == Ok(None) ==> r == Fail(RuntimeError)
    ensures r.Ok? ==> (
      sid in m.subroutines &&
      var e := GetArrayEntry(hw, m, m.subroutines[sid].appId, entry);
      e.Ok? && e.value.Some? && RegValue(r.value, sid, reg) == Ok(Some(e.value.value)) &&
      r.value == m.(registers := r.value.registers))
  {
    var app :- AppOf(m, sid);
    var v :- GetArrayEntry(hw, m, app, entry);
    var value :- Defined(v, RuntimeError);
    WriteRegister(hw, m, app, reg, value)
  }

  /** `_instr_undef`: the entry becomes None. */
  function UndefStep(hw: bool, m: Machine, sid: int, entry: ArrayEntry): (r: Result<Machine>)
    ensures sid in m.subroutines ==> r == SetArrayEntry(hw, m, m.subroutines[sid].appId, entry, None)
    ensures r.Ok? ==> sid in m.subroutines
  {
    var app :- AppOf(m, sid);
    SetArrayEntry(hw, m, app, entry, None)
  }

  /** `_instr_lea`: the register gets the address. */
  function LeaStep(hw: bool, m: Machine, sid: int, reg: Register, address: Address): (r: Result<Machine>)
    ensures r.Ok? ==> RegValue(r.value, sid, reg) == Ok(Some(address.address)) && r.value == m.(registers := r.value.registers)
    ensures sid in m.subroutines && Readable(m, m.subroutines[sid].appId, reg) && !hw ==> r.Ok?
  {
    var app :- AppOf(m, sid);
    WriteRegister(hw, m, app, reg, address.address)
  }

  /** `_instr_qfree`: the register must be defined (AssertionError); the slot it names is freed. */
  function QFreeStep(m: Machine, sid: int, reg: Register): (o: Outcome)
    ensures Undefined(m, sid, reg) ==> o == Fault(Raise(AssertionError), m)
    ensures HoldsValue(m, sid, reg) ==> o == FreePhysical(m, sid, ValueOf(m, sid, reg))
    ensures !o.Blocked? && SameControl(m, o.m)
  {
    var app := AppOf(m, sid);
    if app.Err? then Fault(app.error, m)
    else
      var v := ReadRegister(m, app.value, reg);
      if v.Err? then Fault(v.error, m)
      else if v.value.None? then Fault(Raise(AssertionError), m)
      else FreePhysical(m, sid, v.value.value)
  }

  /** The decorated handlers, before the program counter is advanced. */
  function Handle(cfg: Config, m: Machine, sid: int, v: VmInstr): (o: Outcome)
    requires !v.IsBranch()
    ensures o.Next? || o.Fault? ==> SameControl(m, o.m)
    ensures (o.Next? || o.Fault?) && !v.VQAlloc? && !v.VQFree? ==> SameQubits(m, o.m)
  {
    match v
    case VSet(reg, imm) => Lift(m, SetStep(cfg.hw, m, sid, reg, imm))
    case VQAlloc(reg) => Lift(m, QAllocStep(m, sid, reg))
    case VQubit(regs, anglesOk) => Lift(m, QubitStep(m, sid, regs, anglesOk))
    case VArray(size, address) => Lift(m, ArrayStep(cfg.hw, m, sid, size, address))
    case VStore(reg, entry) => Lift(m, StoreStep(cfg.hw, m, sid, reg, entry))
    case VLoad(reg, entry) => Lift(m, LoadStep(cfg.hw, m, sid, reg, entry))
    case VUndef(entry) => Lift(m, UndefStep(cfg.hw, m, sid, entry))
    case VLea(reg, address) => Lift(m, LeaStep(cfg.hw, m, sid, reg, address))
    case VArith(op, out, in0, in1, regmod) => Lift(m, ArithStep(cfg.hw, m, sid, op, out, in0, in1, regmod))
    case VMeas(qreg, creg) => Lift(m, MeasStep(cfg.hw, m, sid, qreg, creg))
    case VCreateEpr(remote, socket, qubits, args, results) =>
      Lift(m, CreateEprStep(cfg, m, sid, remote, socket, qubits, args, results))
    case VRecvEpr(remote, socket, qubits, results) =>
      Lift(m, RecvEprStep(cfg, m, sid, remote, socket, qubits, results))
    case VWaitAll(s) => WaitAllStep(cfg.hw, m, sid, s)
    case VWaitAny(s) => WaitAnyStep(cfg.hw, m, sid, s)
    case VWaitSingle(e) => WaitSingleStep(cfg.hw, m, sid, e)
    case VQFree(reg) => QFreeStep(m, sid, reg)
    case VRetReg(reg) => Lift(m, RetRegStep(cfg.hw, m, sid, reg))
    case VRetArr(address) => RetArrStep(cfg.hw, m, sid, address)
    case VUnknown => Fault(Raise(RuntimeError), m)
    case VMalformed => Fault(Raise(AttributeError), m)
  }

  /**
   * `_execute_command` followed by the decorator: a branch sets the program
   * counter itself; every other handler that completes is followed by
   * exactly one increment; an instruction that raises or blocks leaves
   * the program counter where it was.
   */
  function Step(cfg: Config, m: Machine, sid: int, v: VmInstr): (o: Outcome)
    ensures o.Fault? ==> Pc(o.m, sid) == Pc(m, sid)
    ensures !v.IsBranch() && o.Next? ==> Pc(o.m, sid) == Pc(m, sid) + 1
    ensures o.Next? || o.Fault? ==> o.m.subroutines == m.subroutines
  {
    if v.IsBranch() then Lift(m, BranchStep(m, sid, v))
    else
      match Handle(cfg, m, sid, v)
      case Next(m') => Next(IncPc(m', sid))
      case o => o
  }
}
