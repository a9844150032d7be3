// `netqasm/sdk/futures.py`: classical values that become known only once
// a subroutine has run. A `Future` stands for one array entry and a
// `RegFuture` for one register; each caches its value once it is seen.
// The commands that load, store or add to a future are computed from the
// set of registers the builder's memory manager holds active.

module Futures {
  import opened Wrappers
  import opened Encoding
  import opened Operand
  import opened IR
  import opened Memory
  import opened Allocators
  import TextValues

  /** What a `Future`'s `_index` holds. */
  datatype FutureIndex =
    | ConstIndex(i: int)
    | RegIndex(reg: Register)
    | OfFuture(future: Future)
    | OfRegFuture(regFuture: RegFuture)

  /** `Future(connection, address, index)`: one entry of the array at `address`. */
  class Future {
    const address: int
    const index: FutureIndex
    /** How many futures deep the index chain runs. */
    ghost const depth: nat
    /** `_value`: None until a defined value has been read. */
    var cache: Option<int>

    /** An index future is shallower than the future it indexes. */
    ghost predicate Valid()
      decreases depth
    {
      if index.OfFuture? then depth == index.future.depth + 1 && index.future.Valid() else depth == 0
    }

    constructor (address: int, index: FutureIndex)
      requires index.OfFuture? ==> index.future.Valid()
      ensures Valid() && this.address == address && this.index == index && cache.None?
    {
      this.address := address;
      this.index := index;
      this.depth := if index.OfFuture? then index.future.depth + 1 else 0;
      this.cache := None;
    }

    /**
     * `value`: the cached value when there is one; otherwise the entry is
     * read from shared memory and cached once it is defined. A register
     * index cannot be resolved.
     */
    method Value(hw: bool, mem: SharedMemory) returns (r: Result<Option<int>>)
      requires !index.OfFuture? && !index.OfRegFuture?
      modifies this
      ensures old(cache).Some? ==> r == Ok(old(cache)) && cache == old(cache)
      ensures old(cache).None? ==> r == EntryValueOf(hw, mem.arrays.arrays, address, index)
      ensures old(cache).None? ==> cache == (if r.Ok? then r.value else None)
    {
      if cache.Some? {
        return Ok(cache);
      }
      if index.RegIndex? {
        return Fail(NonConstantIndexError);
      }
      var part := mem.GetArrayPart(hw, address, At(index.i));
      if part.Err? {
        return Err(part.error);
      }
      var v := EntryValue(part.value);
      if v.Some? {
        cache := v;
      }
      r := Ok(v);
    }
  }

  /**
   * `_try_get_value` of a `Future`: a register index raises
   * NonConstantIndexError; a constant index reads the entry, with an
   * absent array read as None.
   */
  function EntryValueOf(hw: bool, st: ArrayStore, address: int, index: FutureIndex): (r: Result<Option<int>>)
    requires index.ConstIndex? || index.RegIndex?
    ensures index.RegIndex? ==> r == Fail(NonConstantIndexError)
    ensures index.ConstIndex? && WithinWidth(hw, address).Ok? && address !in st ==> r == Ok(None)
    ensures index.ConstIndex? && address in st && WithinWidth(hw, address).Ok? ==>
      (r.Ok? <==> PyIndex(|st[address]|, index.i).Some?)
    ensures index.ConstIndex? && r.Ok? && address in st ==>
      PyIndex(|st[address]|, index.i).Some? && r.value == st[address][PyIndex(|st[address]|, index.i).value]
  {
    if index.RegIndex? then Fail(NonConstantIndexError)
    else
      var part :- ArraysGet(hw, st, address, At(index.i));
      Ok(EntryValue(part))
  }

  /** `RegFuture(connection, reg)`: the value a register will hold. */
  class RegFuture {
    /** `reg`, which the builder may set after construction. */
    var reg: Option<Register>
    var cache: Option<int>

    constructor (reg: Option<Register>)
      ensures this.reg == reg && cache.None?
    {
      this.reg := reg;
      this.cache := None;
    }

    /**
     * `value`: the cached value when there is one; otherwise the register
     * is read and cached once it is defined. A RegFuture without a
     * register fails its assertion.
     */
    method Value(mem: SharedMemory) returns (r: Result<Option<int>>)
      requires mem.Valid()
      modifies this
      ensures reg == old(reg)
      ensures old(cache).Some? ==> r == Ok(old(cache)) && cache == old(cache)
      ensures old(cache).None? && reg.None? ==> r == Fail(AssertionError) && cache.None?
      ensures old(cache).None? && reg.Some? ==>
        r == GroupGet(mem.registers[reg.value.name].register, reg.value.index) &&
        cache == (if r.Ok? then r.value else None)
    {
      if cache.Some? {
        return Ok(cache);
      }
      if reg.None? {
        return Fail(AssertionError);
      }
      r := mem.GetRegister(reg.value);
      if r.Ok? && r.value.Some? {
        cache := r.value;
      }
    }
  }

  /**
   * The wrapped int operations of `BaseFuture`: a future without a value
   * raises NoValueError; with one, an operation whose other operand is a
   * `Future` raises RuntimeError; otherwise the value takes part.
   */
  function IntOperand(value: Option<int>, otherIsFuture: bool): (r: Result<int>)
    ensures r.Ok? <==> value.Some? && !otherIsFuture
    ensures value.None? ==> r == Fail(NoValueError)
    ensures value.Some? && otherIsFuture ==> r == Fail(RuntimeError)
    ensures r.Ok? ==> r.value == value.value
  {
    if value.None? then Fail(NoValueError)
    else if otherIsFuture then Fail(RuntimeError)
    else Ok(value.value)
  }

  /** `ICmd(instruction, operands=[register, @address[index]])`. */
  function Access(instr: GenericInstr, register: Register, address: int, index: Index): (c: ProtoCommand)
  {
    ICmd(instr, [], [Reg(register), Entry(ArrayEntry(Address(address), index))], None)
  }

  /**
   * The entry operand is built as the text `@address[index]` and parsed
   * back; the parse gives exactly the entry.
   */
  lemma AccessEntryParsed(address: int, index: Index)
    ensures TextValues.ParseAddress(ArrayEntryText(ArrayEntry(Address(address), index)))
      == Ok(Entry(ArrayEntry(Address(address), index)))
  {
    TextValues.EntryRoundTrip(ArrayEntry(Address(address), index));
  }

  /** The register futures reachable through a future's index chain. */
  function Footprint(f: Future): (s: set<object>)
    requires f.Valid()
    ensures f.index.OfRegFuture? ==> f.index.regFuture in s
    decreases f.depth
  {
    match f.index
    case OfFuture(g) => Footprint(g)
    case OfRegFuture(rf) => {rf}
    case _ => {}
  }

  /**
   * The index of a future's own access command: the constant or the
   * register, the register future's register, or, for a future index,
   * the lowest register not active, into which that index is loaded.
   */
  function IndexOperand(f: Future, active: set<Register>): Index
    reads if f.index.OfRegFuture? then {f.index.regFuture} else {}
  {
    match f.index
    case ConstIndex(i) => IInt(i)
    case RegIndex(reg) => IReg(reg)
    case OfRegFuture(rf) => IReg(if rf.reg.Some? then rf.reg.value else RegR(0))
    case OfFuture(_) => IReg(if LowestInactive(active).Some? then LowestInactive(active).value else RegR(0))
  }

  /**
   * `_get_access_commands(instruction, register)`: LOAD or STORE of the
   * entry with `register`. A future index is first loaded into the
   * lowest inactive register, which stays active while the index's own
   * commands are built, so deeper indices take other registers; a
   * register future index must already have its register. The active
   * set is the same afterwards whatever happens.
   */
  function AccessCommands(f: Future, instr: GenericInstr, register: Register, active: set<Register>): (r: Result<seq<ProtoCommand>>)
    requires f.Valid()
    reads Footprint(f)
    ensures r.Ok? ==> |r.value| == f.depth + 1
    ensures r.Ok? ==> r.value[f.depth] == Access(instr, register, f.address, IndexOperand(f, active))
    ensures r.Ok? ==> forall k :: 0 <= k < f.depth ==> r.value[k].ICmd? && r.value[k].instruction == Load
    ensures r.Ok? && f.index.OfFuture? ==>
      LowestInactive(active).Some? && LowestInactive(active).value !in active &&
      r.value[f.depth - 1] == Access(Load, LowestInactive(active).value, f.index.future.address,
                                     IndexOperand(f.index.future, active + {LowestInactive(active).value}))
    ensures f.index.OfRegFuture? ==> (r.Ok? <==> (instr == Load || instr == Store) && f.index.regFuture.reg.Some?)
    ensures instr != Load && instr != Store ==> r == Fail(AssertionError)
    ensures r.Err? ==> r.error in {Raise(AssertionError), Raise(RuntimeError)}
    decreases f.depth
  {
    if instr != Load && instr != Store then Fail(AssertionError)
    else
      match f.index
      case OfFuture(g) =>
        var tmp := LowestInactive(active);
        if tmp.None? then Fail(RuntimeError)
        else
          var inner :- AccessCommands(g, Load, tmp.value, active + {tmp.value});
          Ok(inner + [Access(instr, register, f.address, IReg(tmp.value))])
      case OfRegFuture(rf) =>
        if rf.reg.None? then Fail(AssertionError)
        else Ok([Access(instr, register, f.address, IReg(rf.reg.value))])
      case ConstIndex(i) => Ok([Access(instr, register, f.address, IInt(i))])
      case RegIndex(reg) => Ok([Access(instr, register, f.address, IReg(reg))])
  }

  /**
   * A future indexed by a future indexed by a constant needs one
   * temporary: with every register active it raises, and with R0 free
   * it loads the inner entry into R0 and then accesses through it.
   */
  lemma {:induction false} NestedAccess(f: Future, register: Register)
    requires f.Valid() && f.index.OfFuture? && f.index.future.index.ConstIndex?
    ensures var g := f.index.future;
      AccessCommands(f, Store, register, {}) ==
        Ok([Access(Load, RegR(0), g.address, IInt(g.index.i)), Access(Store, register, f.address, IReg(RegR(0)))])
  {
    var g := f.index.future;
    LowestInactiveUnique({}, 0);
    assert LowestInactive({}) == Some(RegR(0));
    var inner := AccessCommands(g, Load, RegR(0), {RegR(0)});
    assert inner == Ok([Access(Load, RegR(0), g.address, IInt(g.index.i))]);
    var outer := Access(Store, register, f.address, IReg(RegR(0)));
    assert AccessCommands(f, Store, register, {}) == Ok(inner.value + [outer]);
    assert inner.value + [outer] == [inner.value[0], outer];
  }

  /** What `add` may be given as the value to add. */
  datatype Addend =
    | AddInt(value: int)
    | AddText(text: string)
    | AddReg(reg: Register)
    | AddFuture(future: Future)

  /** The ADD (or ADDM with the modulus) of `other` into `target`. */
  function AddCommand(target: Register, other: Operand, mod: Option<int>): (c: ProtoCommand)
    ensures c.ICmd? && c.args == [] && c.lineno.None?
    ensures mod.None? ==> c.instruction == Add && c.operands == [Reg(target), Reg(target), other]
    ensures mod.Some? ==> c.instruction == Addm && c.operands == [Reg(target), Reg(target), other, Int(mod.value)]
  {
    if mod.None? then ICmd(Add, [], [Reg(target), Reg(target), other], None)
    else ICmd(Addm, [], [Reg(target), Reg(target), other, Int(mod.value)], None)
  }

  /** A text addend is read as a register; the others are taken as given. */
  function ResolveAddend(other: Addend): (r: Result<Addend>)
    ensures other.AddText? ==> (r.Ok? <==> TextValues.ParseRegister(other.text).Ok?)
    ensures r.Ok? ==> !r.value.AddText?
    ensures other.AddText? && r.Ok? ==> r.value == AddReg(TextValues.ParseRegister(other.text).value)
    ensures !other.AddText? ==> r == Ok(other)
  {
    if other.AddText? then
      var reg :- TextValues.ParseRegister(other.text);
      Ok(AddReg(reg))
    else Ok(other)
  }

  /**
   * The other operand of an ADD: a future addend is loaded into the
   * lowest register inactive in `active` and stored back afterwards; an
   * int or a register is used as it is. Gives the loads, the operand,
   * the stores and the active set once the temporary is taken.
   */
  function OtherOperand(other: Addend, active: set<Register>): (r: (Result<(seq<ProtoCommand>, Operand, seq<ProtoCommand>)>, set<Register>))
    requires !other.AddText?
    requires other.AddFuture? ==> other.future.Valid()
    reads if other.AddFuture? then Footprint(other.future) else {}
    ensures !other.AddFuture? ==> r.1 == active && r.0.Ok? && r.0.value.0 == [] && r.0.value.2 == []
    ensures other.AddInt? ==> r.0.value.1 == Int(other.value)
    ensures other.AddReg? ==> r.0.value.1 == Reg(other.reg)
    ensures other.AddFuture? && LowestInactive(active).None? ==> r == (Fail(RuntimeError), active)
    ensures other.AddFuture? && LowestInactive(active).Some? ==> r.1 == active + {LowestInactive(active).value}
    ensures other.AddFuture? && r.0.Ok? ==> r.0.value.1 == Reg(LowestInactive(active).value)
  {
    match other
    case AddInt(v) => (Ok(([], Int(v), [])), active)
    case AddReg(reg) => (Ok(([], Reg(reg), [])), active)
    case AddFuture(g) =>
      var otmp := LowestInactive(active);
      if otmp.None? then (Fail(RuntimeError), active)
      else
        var active' := active + {otmp.value};
        var loads := AccessCommands(g, Load, otmp.value, active');
        var stores := AccessCommands(g, Store, otmp.value, active');
        if loads.Err? then (Err(loads.error), active')
        else if stores.Err? then (Err(stores.error), active')
        else (Ok((loads.value, Reg(otmp.value), stores.value)), active')
  }

  /**
   * `Future.add(other, mod)`: the commands handed to the builder and the
   * active register set afterwards. The entry is loaded into the lowest
   * inactive register, added to, and stored back; a future addend gets a
   * temporary of its own. Both temporaries are released on success; a
   * raise on the way leaves those already taken active.
   */
  function FutureAddEffect(f: Future, other: Addend, mod: Option<int>, active: set<Register>): (r: (Result<seq<ProtoCommand>>, set<Register>))
    requires f.Valid()
    requires other.AddFuture? ==> other.future.Valid()
    reads Footprint(f), if other.AddFuture? then Footprint(other.future) else {}
    ensures r.0.Ok? ==> r.1 == active
    ensures ResolveAddend(other).Ok? && LowestInactive(active).None? ==> r == (Fail(RuntimeError), active)
  {
    match ResolveAddend(other)
    case Err(e) => (Err(e), active)
    case Ok(other') =>
      var tmp := LowestInactive(active);
      if tmp.None? then (Fail(RuntimeError), active)
      else
        var active1 := active + {tmp.value};
        var loads := AccessCommands(f, Load, tmp.value, active1);
        var stores := AccessCommands(f, Store, tmp.value, active1);
        if loads.Err? then (Err(loads.error), active1)
        else if stores.Err? then (Err(stores.error), active1)
        else
          var (o, active2) := OtherOperand(other', active1);
          if o.Err? then (Err(o.error), active2)
          else
            var cmds := loads.value + o.value.0 + [AddCommand(tmp.value, o.value.1, mod)] + stores.value + o.value.2;
            var otmp := if other'.AddFuture? then {LowestInactive(active1).value} else {};
            (Ok(cmds), active2 - {tmp.value} - otmp)
  }

  /**
   * `RegFuture.add(other, mod)`: the register itself is added to; only a
   * future addend needs a temporary, released on success.
   */
  function RegFutureAddEffect(reg: Option<Register>, other: Addend, mod: Option<int>, active: set<Register>): (r: (Result<seq<ProtoCommand>>, set<Register>))
    requires other.AddFuture? ==> other.future.Valid()
    reads if other.AddFuture? then Footprint(other.future) else {}
    ensures reg.None? ==> r == (Fail(AssertionError), active)
    ensures r.0.Ok? ==> r.1 == active
  {
    if reg.None? then (Fail(AssertionError), active)
    else
      match ResolveAddend(other)
      case Err(e) => (Err(e), active)
      case Ok(other') =>
        var (o, active1) := OtherOperand(other', active);
        if o.Err? then (Err(o.error), active1)
        else
          var otmp := if other'.AddFuture? then {LowestInactive(active).value} else {};
          (Ok(o.value.0 + [AddCommand(reg.value, o.value.1, mod)] + o.value.2), active1 - otmp)
  }

  /** `Array(connection, length, address, init_values, lineno)`: an SDK handle to an array in shared memory. */
  datatype SdkArray = SdkArray(length: nat, address: int, initValues: Option<seq<Option<int>>>, lineno: Option<nat>)

  /**
   * The constructor's checks: given initial values fix the length, and
   * the length must be positive.
   */
  function NewArray(length: int, address: int, initValues: Option<seq<Option<int>>>, lineno: Option<nat>): (r: Result<SdkArray>)
    ensures initValues.Some? ==> (r.Ok? <==> |initValues.value| > 0)
    ensures initValues.None? ==> (r.Ok? <==> length > 0)
    ensures r.Ok? ==> r.value.address == address && r.value.initValues == initValues && r.value.lineno == lineno
    ensures r.Ok? ==> r.value.length == (if initValues.Some? then |initValues.value| else length)
    ensures r.Err? ==> r.error == Raise(AssertionError)
  {
    var n := if initValues.Some? then |initValues.value| else length;
    if n <= 0 then Fail(AssertionError) else Ok(SdkArray(n, address, initValues, lineno))
  }

  /** `get_future_index(index)` with an int, a register or a register future. */
  method GetFutureIndex(a: SdkArray, index: FutureIndex) returns (f: Future)
    requires !index.OfFuture?
    ensures fresh(f) && f.Valid() && f.address == a.address && f.index == index && f.cache.None?
  {
    f := new Future(a.address, index);
  }

  /** `get_future_index(name)`: a register's text is read by `parse_register` first. */
  method GetFutureIndexByName(a: SdkArray, name: string) returns (r: Result<Future>)
    ensures TextValues.ParseRegister(name).Err? <==> r.Err?
    ensures r.Ok? ==> (fresh(r.value) && r.value.address == a.address &&
      r.value.index == RegIndex(TextValues.ParseRegister(name).value) && r.value.cache.None?)
  {
    var reg := TextValues.ParseRegister(name);
    if reg.Err? {
      return Err(reg.error);
    }
    var f := new Future(a.address, RegIndex(reg.value));
    r := Ok(f);
  }

  /** `range(start, stop, step)` for a non-zero step. */
  function PyRange(start: int, stop: int, step: int): (xs: seq<int>)
    requires step != 0
    ensures step == 1 ==> |xs| == if stop <= start then 0 else stop - start
    ensures step > 0 ==> forall k :: 0 <= k < |xs| ==> xs[k] < stop
    ensures step < 0 ==> forall k :: 0 <= k < |xs| ==> xs[k] > stop
    ensures forall k :: 0 <= k < |xs| ==> xs[k] == start + k * step
    decreases if step > 0 then stop - start else start - stop
  {
    if (step > 0 && start >= stop) || (step < 0 && start <= stop) then []
    else [start] + PyRange(start + step, stop, step)
  }

  /** `range(*args)`: one, two or three ints; no argument is a TypeError and a zero step a ValueError. */
  function PyRangeOf(args: seq<int>): (r: Result<seq<int>>)
    requires |args| <= 3
    ensures |args| == 0 ==> r == Fail(TypeError)
    ensures |args| == 1 ==> r == Ok(PyRange(0, args[0], 1))
    ensures |args| == 2 ==> r == Ok(PyRange(args[0], args[1], 1))
    ensures |args| == 3 ==> (r.Ok? <==> args[2] != 0)
    ensures |args| == 3 && args[2] != 0 ==> r == Ok(PyRange(args[0], args[1], args[2]))
  {
    if |args| == 0 then Fail(TypeError)
    else if |args| == 1 then Ok(PyRange(0, args[0], 1))
    else if |args| == 2 then Ok(PyRange(args[0], args[1], 1))
    else if args[2] == 0 then Fail(ValueError)
    else Ok(PyRange(args[0], args[1], args[2]))
  }

  /** The bounds that are given, in the order start, stop, step. */
  function Given(start: Option<int>, stop: Option<int>, step: Option<int>): (args: seq<int>)
    ensures |args| <= 3
  {
    (if start.Some? then [start.value] else []) + (if stop.Some? then [stop.value] else [])
    + (if step.Some? then [step.value] else [])
  }

  /**
   * The indices `get_future_slice` as written produces: `range` over
   * just the bounds that are given, so a missing bound shifts the others
   * into its place.
   */
  function SliceIndicesAsWritten(start: Option<int>, stop: Option<int>, step: Option<int>): (r: Result<seq<int>>)
    ensures r == PyRangeOf(Given(start, stop, step))
  {
    PyRangeOf(Given(start, stop, step))
  }

  /**
   * One bound of `slice.indices(n)`: a negative bound counts from the end
   * of the array, and the result is then clamped into [lower, upper].
   */
  function ClampBound(b: int, n: nat, lower: int, upper: int): (r: int)
    requires lower <= upper
    ensures lower <= r <= upper
    ensures 0 <= b && lower <= b <= upper ==> r == b
    ensures b < 0 && lower <= b + n <= upper ==> r == b + n
  {
    var c := if b < 0 then b + n else b;
    if c < lower then lower else if c > upper then upper else c
  }

  /**
   * The indices of the slice `[start:stop:step]` of an array of length n,
   * as Python's `slice.indices(n)` reads it: a zero step is a ValueError,
   * a missing step is 1, negative bounds count from the end, bounds are
   * clamped to the array, and the default bounds run over the whole array
   * in the direction of the step.
   */
  function SliceIndices(n: nat, start: Option<int>, stop: Option<int>, step: Option<int>): (r: Result<seq<int>>)
    ensures r.Ok? <==> step != Some(0)
  {
    if step == Some(0) then Fail(ValueError)
    else
      var st := step.GetOr(1);
      var lower := if st < 0 then -1 else 0;
      var upper := if st < 0 then n - 1 else n;
      var lo := if start.None? then (if st < 0 then upper else lower) else ClampBound(start.value, n, lower, upper);
      var hi := if stop.None? then (if st < 0 then lower else upper) else ClampBound(stop.value, n, lower, upper);
      Ok(PyRange(lo, hi, st))
  }

  /** `range(lo, hi, step)` with both ends clamped as `slice.indices` does stays inside the array. */
  lemma RangeInside(n: nat, lo: int, hi: int, step: int)
    requires step != 0
    requires step > 0 ==> 0 <= lo && hi <= n
    requires step < 0 ==> lo <= n - 1 && -1 <= hi
    ensures forall k :: 0 <= k < |PyRange(lo, hi, step)| ==> 0 <= PyRange(lo, hi, step)[k] < n
  {
    var xs := PyRange(lo, hi, step);
    forall k | 0 <= k < |xs|
      ensures 0 <= xs[k] < n
    {
      assert xs[k] == lo + k * step;
      if step > 0 {
        assert k * step >= 0;
      } else {
        assert k * step <= 0;
      }
    }
  }

  /** Every index of a slice names an element of the array, and consecutive indices are one step apart. */
  lemma SliceIndicesInside(n: nat, start: Option<int>, stop: Option<int>, step: Option<int>)
    requires step != Some(0)
    ensures var ix := SliceIndices(n, start, stop, step).value;
      (forall k :: 0 <= k < |ix| ==> 0 <= ix[k] < n) &&
      (forall k :: 0 < k < |ix| ==> ix[k] == ix[k - 1] + step.GetOr(1))
  {
    var st := step.GetOr(1);
    var lower := if st < 0 then -1 else 0;
    var upper := if st < 0 then n - 1 else n;
    var lo := if start.None? then (if st < 0 then upper else lower) else ClampBound(start.value, n, lower, upper);
    var hi := if stop.None? then (if st < 0 then lower else upper) else ClampBound(stop.value, n, lower, upper);
    assert SliceIndices(n, start, stop, step) == Ok(PyRange(lo, hi, st));
    RangeInside(n, lo, hi, st);
    var xs := PyRange(lo, hi, st);
    forall k | 0 < k < |xs|
      ensures xs[k] == xs[k - 1] + st
    {
      assert xs[k] == lo + k * st && xs[k - 1] == lo + (k - 1) * st;
    }
  }

  /** Without a step, the slice from `lo` to `hi` within the array is exactly lo, lo + 1, ..., hi - 1. */
  lemma SliceIndicesContiguous(n: nat, lo: Option<int>, hi: Option<int>)
    requires 0 <= lo.GetOr(0) <= hi.GetOr(n) <= n
    ensures SliceIndices(n, lo, hi, None) == Ok(Interval(lo.GetOr(0), hi.GetOr(n)))
  {
    var xs := PyRange(lo.GetOr(0), hi.GetOr(n), 1);
    assert SliceIndices(n, lo, hi, None) == Ok(xs);
    assert xs == Interval(lo.GetOr(0), hi.GetOr(n));
  }

  /** `[-k:]` is the last k elements. */
  lemma SliceNegativeStart(n: nat, k: int)
    requires 0 < k <= n
    ensures SliceIndices(n, Some(0 - k), None, None) == Ok(Interval(n - k, n))
  {
    var xs := PyRange(n - k, n, 1);
    assert SliceIndices(n, Some(0 - k), None, None) == Ok(xs);
    assert xs == Interval(n - k, n);
  }

  /** `[::-1]` is every element, last first. */
  lemma SliceReversed(n: nat)
    ensures var ix := SliceIndices(n, None, None, Some(-1)).value;
      |ix| == n && forall k :: 0 <= k < n ==> ix[k] == n - 1 - k
  {
    var xs := PyRange(n - 1, -1, -1);
    assert SliceIndices(n, None, None, Some(-1)) == Ok(xs);
    ReverseRangeLength(n - 1);
  }

  lemma {:induction false} ReverseRangeLength(m: int)
    requires -1 <= m
    ensures |PyRange(m, -1, -1)| == m + 1
    decreases m + 1
  {
    if m > -1 {
      ReverseRangeLength(m - 1);
    }
  }

  /** With both bounds inside the array and a forward step, the code as written and the intended slice agree. */
  lemma SliceAsWrittenAgrees(n: nat, start: int, stop: int, step: Option<int>)
    requires 0 <= start <= n && 0 <= stop <= n && step.GetOr(1) > 0
    ensures SliceIndicesAsWritten(Some(start), Some(stop), step) == SliceIndices(n, Some(start), Some(stop), step)
  {
    assert SliceIndices(n, Some(start), Some(stop), step) == Ok(PyRange(start, stop, step.GetOr(1)));
  }

  /** `[2:]` on a length-4 array: the code as written gives indices 0, 1 instead of 2, 3. */
  lemma SliceMissingStop()
    ensures SliceIndicesAsWritten(Some(2), None, None) == Ok([0, 1])
    ensures SliceIndices(4, Some(2), None, None) == Ok([2, 3])
  {
    assert Given(Some(2), None, None) == [2];
    var xs := PyRange(0, 2, 1);
    assert |xs| == 2 && xs[0] == 0 && xs[1] == 1;
    assert xs == [0, 1];
    assert PyRangeOf([2]) == Ok(xs);
    var ys := PyRange(2, 4, 1);
    assert SliceIndices(4, Some(2), None, None) == Ok(ys);
    assert |ys| == 2 && ys[0] == 2 && ys[1] == 3;
    assert ys == [2, 3];
  }

  /** `[:]`: the code as written calls `range()` with no argument, a TypeError; the whole array is meant. */
  lemma SliceNoBounds(n: nat)
    ensures SliceIndicesAsWritten(None, None, None) == Fail(TypeError)
    ensures SliceIndices(n, None, None, None) == Ok(Interval(0, n))
  {
    assert Given(None, None, None) == [];
    SliceIndicesContiguous(n, None, None);
  }

  /** One fresh future per index, in order, on this array. */
  method FuturesAt(a: SdkArray, ix: seq<int>) returns (fs: seq<Future>)
    ensures |fs| == |ix|
    ensures forall k :: 0 <= k < |ix| ==> (fs[k].address == a.address && fs[k].index == ConstIndex(ix[k]) &&
      fs[k].cache.None? && fs[k].Valid())
  {
    fs := [];
    var k := 0;
    while k < |ix|
      invariant 0 <= k <= |ix| && |fs| == k
      invariant forall j :: 0 <= j < k ==> (fs[j].address == a.address && fs[j].index == ConstIndex(ix[j]) &&
        fs[j].cache.None? && fs[j].Valid())
    {
      var f := new Future(a.address, ConstIndex(ix[k]));
      fs := fs + [f];
      k := k + 1;
    }
  }

  /**
   * `get_future_slice(slice(start, stop, step))` as written: one fresh
   * future per index of `range` over the given bounds.
   */
  method GetFutureSlice(a: SdkArray, start: Option<int>, stop: Option<int>, step: Option<int>) returns (r: Result<seq<Future>>)
    ensures SliceIndicesAsWritten(start, stop, step).Err? ==> r == Err(SliceIndicesAsWritten(start, stop, step).error)
    ensures SliceIndicesAsWritten(start, stop, step).Ok? ==> r.Ok?
    ensures r.Ok? ==> var ix := SliceIndicesAsWritten(start, stop, step).value;
      |r.value| == |ix| &&
      forall k :: 0 <= k < |ix| ==> (r.value[k].address == a.address && r.value[k].index == ConstIndex(ix[k]) &&
        r.value[k].cache.None? && r.value[k].Valid())
  {
    var ix := SliceIndicesAsWritten(start, stop, step);
    if ix.Err? {
      return Err(ix.error);
    }
    var fs := FuturesAt(a, ix.value);
    r := Ok(fs);
  }

  /** The futures of the elements in the slice `[start:stop:step]` of the array, as the documentation describes. */
  method GetFutureSliceIntended(a: SdkArray, start: Option<int>, stop: Option<int>, step: Option<int>) returns (r: Result<seq<Future>>)
    ensures r.Err? <==> step == Some(0)
    ensures r.Ok? ==> var ix := SliceIndices(a.length, start, stop, step).value;
      |r.value| == |ix| &&
      forall k :: 0 <= k < |ix| ==> (r.value[k].address == a.address && r.value[k].index == ConstIndex(ix[k]) &&
        0 <= ix[k] < a.length && r.value[k].cache.None? && r.value[k].Valid())
  {
    var ix := SliceIndices(a.length, start, stop, step);
    if ix.Err? {
      return Err(ix.error);
    }
    SliceIndicesInside(a.length, start, stop, step);
    var fs := FuturesAt(a, ix.value);
    r := Ok(fs);
  }
}
