// `netqasm/sdk/shared_memory.py`: register groups, arrays with Python list
// indexing, the memory shared between the host and the quantum node
// controller, and the process-wide manager of shared memories.
//
// The specification of each operation is a function on values (a group is
// a map from index to value, an array store a map from address to list);
// the classes hold those values in fields and their methods are proved
// against the functions. The "using hardware" setting is the parameter
// `hw` of every operation that checks a width.

module Memory {
  import opened Wrappers
  import opened Encoding
  import opened Operand
  import TextValues

  /** `2 ** REG_INDEX_BITS` slots per register group. */
  const GROUP_SIZE: nat := 16
  /**
   * `_assert_within_width(value, ADDRESS_BITS)`, the only width (32 bits)
   * the module checks: nothing is checked in simulation; on hardware a value outside
   * the signed 32-bit range raises OverflowError.
   */
  function WithinWidth(hw: bool, value: int): (r: Result<Unit>)
    ensures r.Ok? <==> !hw || FitsInt32(value)
    ensures r.Err? ==> r.error == Raise(OverflowError)
  {
    if !hw then Ok(Unit)
    else if FitsInt32(value) then Ok(Unit)
    else Fail(OverflowError)
  }

  // ---------------------------------------------------------------------
  // Register groups

  /** The contents of a `RegisterGroup`: the indices that were set and their values. */
  type Group = map<int, int>

  predicate InGroup(index: int) { 0 <= index < GROUP_SIZE }

  /** `group[index]`: IndexError outside [0, 16), the value if set, else None. */
  function GroupGet(g: Group, index: int): (r: Result<Option<int>>)
    ensures r.Ok? <==> InGroup(index)
    ensures r.Err? ==> r.error == Raise(IndexError)
    ensures r.Ok? ==> (r.value.Some? <==> index in g)
  {
    if !InGroup(index) then Fail(IndexError)
    else if index in g then Ok(Some(g[index]))
    else Ok(None)
  }

  /** `group[index] = value`: the index is checked first, then the 32-bit width. */
  function GroupSet(hw: bool, g: Group, index: int, value: int): (r: Result<Group>)
    ensures !InGroup(index) ==> r == Fail(IndexError)
    ensures InGroup(index) ==> (r.Ok? <==> WithinWidth(hw, value).Ok?)
    ensures r.Err? ==> r.error.atLine == None
  {
    if !InGroup(index) then Fail(IndexError)
    else
      var _ :- WithinWidth(hw, value);
      Ok(g[index := value])
  }

  /** An unset slot reads as None; a set one reads back its value; the other slots are unchanged. */
  lemma GroupReadWrite(hw: bool, g: Group, index: int, value: int, other: int)
    requires GroupSet(hw, g, index, value).Ok?
    ensures GroupGet(GroupSet(hw, g, index, value).value, index) == Ok(Some(value))
    ensures other != index ==> GroupGet(GroupSet(hw, g, index, value).value, other) == GroupGet(g, other)
  {
  }

  /** In simulation every in-range write succeeds, whatever the value. */
  lemma GroupSetSimulation(g: Group, index: int, value: int)
    requires InGroup(index)
    ensures GroupSet(false, g, index, value) == Ok(g[index := value])
  {
  }

  /** `_get_active_values`: the (index, value) pairs that are set. */
  function GroupActiveValues(g: Group): (s: set<(int, int)>)
    ensures forall i, v :: (i, v) in s <==> i in g && g[i] == v
  {
    set i | i in g :: (i, g[i])
  }

  class RegisterGroup {
    var register: Group

    constructor ()
      ensures register == map[]
    {
      register := map[];
    }

    /** `len(group)` */
    function Len(): (n: nat)
      ensures n == GROUP_SIZE
    {
      GROUP_SIZE
    }

    /** `__getitem__` */
    function GetItem(index: int): (r: Result<Option<int>>)
      reads this
      ensures r == GroupGet(register, index)
    {
      GroupGet(register, index)
    }

    /** `__setitem__`: on an error nothing changes. */
    method SetItem(hw: bool, index: int, value: int) returns (r: Result<Unit>)
      modifies this
      ensures var s := GroupSet(hw, old(register), index, value);
        (r.Ok? <==> s.Ok?) && (r.Err? ==> r.error == s.error) &&
        register == (if s.Ok? then s.value else old(register))
    {
      if !(0 <= index < GROUP_SIZE) {
        return Fail(IndexError);
      }
      var w := WithinWidth(hw, value);
      if w.Err? {
        return Err(w.error);
      }
      register := register[index := value];
      r := Ok(Unit);
    }
  }

  predicate AllBanks(names: set<RegName>)
  {
    forall n: RegName :: n in names
  }

  /** The four groups of a register file are different objects. */
  predicate Independent(groups: map<RegName, RegisterGroup>)
  {
    forall a, b :: a in groups && b in groups && a != b ==> groups[a] != groups[b]
  }

  /** `setup_registers()`: one new, empty group per bank. */
  method SetupRegisters() returns (groups: map<RegName, RegisterGroup>)
    ensures AllBanks(groups.Keys) && Independent(groups)
    ensures forall n :: n in groups ==> fresh(groups[n]) && groups[n].register == map[]
  {
    var r := new RegisterGroup();
    var c := new RegisterGroup();
    var q := new RegisterGroup();
    var m := new RegisterGroup();
    groups := map[R := r, C := c, Q := q, M := m];
    forall n: RegName ensures n in groups.Keys {
      match n
      case R => case C => case Q => case M =>
    }
  }

  // ---------------------------------------------------------------------
  // Arrays

  /** The arrays of an application: address to list of optional values. */
  type ArrayStore = map<int, seq<Option<int>>>

  /** Python's position for `list[i]`: negative indices count from the end. */
  function PyIndex(n: nat, i: int): (r: Option<nat>)
    ensures r.Some? <==> -(n as int) <= i < n
    ensures r.Some? ==> r.value < n && r.value == (if i < 0 then n + i else i)
  {
    if 0 <= i < n then Some(i)
    else if -(n as int) <= i < 0 then Some(n + i)
    else None
  }

  /** A slice bound as Python adjusts it for a list of length n. */
  function SliceBound(b: Option<int>, n: nat, default: nat): (k: nat)
    requires default <= n
    ensures k <= n
  {
    if b.None? then default
    else if b.value < 0 then (if b.value + n < 0 then 0 else b.value + n)
    else if b.value > n then n
    else b.value
  }

  /** The positions `[lo, hi)` of `list[start:stop]`. */
  function SliceRange(n: nat, start: Option<int>, stop: Option<int>): (r: (nat, nat))
    ensures r.0 <= r.1 <= n
  {
    var lo := SliceBound(start, n, 0);
    var hi := SliceBound(stop, n, n);
    (lo, if hi < lo then lo else hi)
  }

  /** A non-negative slice within the list addresses exactly those positions. */
  lemma SliceRangeInBounds(n: nat, start: int, stop: int)
    requires 0 <= start <= stop <= n
    ensures SliceRange(n, Some(start), Some(stop)) == (start, stop)
  {
  }

  /** The index part of an array key: one position or a slice. */
  datatype ArrayIndex = At(i: int) | Range(start: Option<int>, stop: Option<int>)

  /** What reading a key gives. `Missing` is the None returned for an absent array. */
  datatype Part = Missing | Single(value: Option<int>) | List(values: seq<Option<int>>)

  /** The value Python returns, with the absent array and the undefined entry both None. */
  function EntryValue(p: Part): Option<int>
  {
    if p.Single? then p.value else None
  }

  /**
   * `arrays[address, index]`: the address width is checked; an absent
   * array reads as None; a position outside the list raises IndexError;
   * a slice never raises.
   */
  function ArraysGet(hw: bool, st: ArrayStore, address: int, index: ArrayIndex): (r: Result<Part>)
    ensures r.Ok? && r.value.Missing? ==> address !in st
    ensures WithinWidth(hw, address).Ok? && address !in st ==> r == Ok(Missing)
    ensures r.Ok? && index.At? && address in st ==>
      PyIndex(|st[address]|, index.i).Some? && r.value == Single(st[address][PyIndex(|st[address]|, index.i).value])
    ensures WithinWidth(hw, address).Ok? && address in st && index.At? ==>
      (r.Err? <==> PyIndex(|st[address]|, index.i).None?)
    ensures WithinWidth(hw, address).Ok? && index.Range? ==> r.Ok?
    ensures r.Ok? && index == Range(None, None) && address in st ==> r.value == List(st[address])
    ensures r.Err? ==> r.error == Raise(OverflowError) || r.error == Raise(IndexError)
  {
    var _ :- WithinWidth(hw, address);
    if address !in st then Ok(Missing)
    else
      var a := st[address];
      match index
      case At(i) =>
        var j := PyIndex(|a|, i);
        if j.None? then Fail(IndexError) else Ok(Single(a[j.value]))
      case Range(start, stop) =>
        var lohi := SliceRange(|a|, start, stop);
        Ok(List(a[lohi.0..lohi.1]))
  }

  /** Every defined value and the length fit 32 bits. */
  predicate ListFits(values: seq<Option<int>>)
  {
    (forall k :: 0 <= k < |values| && values[k].Some? ==> FitsInt32(values[k].value))
    && FitsInt32(|values|)
  }

  /** `_assert_list`: on hardware, every defined value and the length must fit 32 bits. */
  function AssertList(hw: bool, values: seq<Option<int>>): (r: Result<Unit>)
    ensures r.Ok? <==> !hw || ListFits(values)
    ensures r.Err? ==> r.error == Raise(OverflowError)
  {
    if !hw then Ok(Unit)
    else if ListFits(values) then Ok(Unit)
    else Fail(OverflowError)
  }

  /**
   * `arrays[address, i] = value`: the widths of the address and, for a
   * defined value, of the value and the index are checked; an absent array
   * or a position outside the list raises IndexError; otherwise only that
   * position changes.
   */
  function ArraysSetEntry(hw: bool, st: ArrayStore, address: int, i: int, value: Option<int>): (r: Result<ArrayStore>)
    ensures r.Ok? ==> address in st && PyIndex(|st[address]|, i).Some?
    ensures r.Ok? ==> r.value == st[address := st[address][PyIndex(|st[address]|, i).value := value]]
    ensures r.Err? ==> r.error == Raise(OverflowError) || r.error == Raise(IndexError)
  {
    var _ :- WithinWidth(hw, address);
    var _ :- if value.Some? then WithinWidth(hw, value.value) else Ok(Unit);
    var _ :- if value.Some? then WithinWidth(hw, i) else Ok(Unit);
    if address !in st then Fail(IndexError)
    else
      var a := st[address];
      var j := PyIndex(|a|, i);
      if j.None? then Fail(IndexError)
      else Ok(st[address := a[j.value := value]])
  }

  /**
   * `arrays[address, start:stop] = values`: the value list and the bounds
   * are width-checked, the array must exist (IndexError), and the list must
   * be as long as the slice (AssertionError); the slice is then replaced.
   */
  function ArraysSetSlice(hw: bool, st: ArrayStore, address: int, start: Option<int>, stop: Option<int>,
                          values: seq<Option<int>>): (r: Result<ArrayStore>)
    ensures r.Ok? ==> address in st
    ensures r.Ok? ==> var lohi := SliceRange(|st[address]|, start, stop);
      |values| == lohi.1 - lohi.0 &&
      r.value == st[address := st[address][..lohi.0] + values + st[address][lohi.1..]]
    ensures r.Err? ==> r.error == Raise(OverflowError) || r.error == Raise(IndexError) || r.error == Raise(AssertionError)
  {
    var _ :- WithinWidth(hw, address);
    var _ :- AssertList(hw, values);
    var _ :- if start.Some? then WithinWidth(hw, start.value) else Ok(Unit);
    var _ :- if stop.Some? then WithinWidth(hw, stop.value) else Ok(Unit);
    if address !in st then Fail(IndexError)
    else
      var a := st[address];
      var lohi := SliceRange(|a|, start, stop);
      if lohi.1 - lohi.0 != |values| then Fail(AssertionError)
      else Ok(st[address := a[..lohi.0] + values + a[lohi.1..]])
  }

  /** Writing to an absent array raises IndexError once the widths pass. */
  lemma SetMissingArray(st: ArrayStore, address: int, i: int, value: Option<int>, start: Option<int>, stop: Option<int>, values: seq<Option<int>>)
    requires address !in st
    ensures ArraysSetEntry(false, st, address, i, value) == Fail(IndexError)
    ensures ArraysSetSlice(false, st, address, start, stop, values) == Fail(IndexError)
  {
  }

  /** An entry write changes that one position of that one array. */
  lemma SetEntryFrame(hw: bool, st: ArrayStore, address: int, i: int, value: Option<int>, b: int, k: int)
    requires ArraysSetEntry(hw, st, address, i, value).Ok?
    ensures var st' := ArraysSetEntry(hw, st, address, i, value).value;
      st'.Keys == st.Keys && |st'[address]| == |st[address]| &&
      (b != address && b in st ==> st'[b] == st[b]) &&
      (0 <= k < |st[address]| ==>
        st'[address][k] == if k == PyIndex(|st[address]|, i).value then value else st[address][k])
  {
  }

  /** A slice write keeps the length, sets the slice to the values, and leaves everything else. */
  lemma SetSliceFrame(hw: bool, st: ArrayStore, address: int, start: Option<int>, stop: Option<int>,
                      values: seq<Option<int>>, b: int, k: int)
    requires ArraysSetSlice(hw, st, address, start, stop, values).Ok?
    ensures var st' := ArraysSetSlice(hw, st, address, start, stop, values).value;
      var lohi := SliceRange(|st[address]|, start, stop);
      st'.Keys == st.Keys && |st'[address]| == |st[address]| &&
      (b != address && b in st ==> st'[b] == st[b]) &&
      (0 <= k < |st[address]| ==>
        st'[address][k] == if lohi.0 <= k < lohi.1 then values[k - lohi.0] else st[address][k])
  {
    var a := st[address];
    var lohi := SliceRange(|a|, start, stop);
    var a' := a[..lohi.0] + values + a[lohi.1..];
    if 0 <= k < |a| {
      if k < lohi.0 {
        assert a'[k] == a[..lohi.0][k];
      } else if k < lohi.1 {
        assert a'[k] == (a[..lohi.0] + values)[k];
      } else {
        assert a'[k] == a[lohi.1..][k - lohi.1];
      }
    }
  }

  /** A slice write of a wrongly sized list fails with AssertionError and changes nothing. */
  lemma SetSliceLengthMismatch(st: ArrayStore, address: int, start: Option<int>, stop: Option<int>, values: seq<Option<int>>)
    requires address in st
    requires var lohi := SliceRange(|st[address]|, start, stop); |values| != lohi.1 - lohi.0
    ensures ArraysSetSlice(false, st, address, start, stop, values) == Fail(AssertionError)
  {
  }

  /** `init_new_array(address, length)`: whatever was at the address is replaced by length Nones. */
  function ArraysInit(hw: bool, st: ArrayStore, address: int, length: int): (r: Result<ArrayStore>)
    ensures r.Ok? <==> WithinWidth(hw, address).Ok?
    ensures r.Ok? ==> r.value.Keys == st.Keys + {address}
    ensures r.Ok? ==> |r.value[address]| == (if length < 0 then 0 else length)
    ensures r.Ok? ==> forall k :: 0 <= k < |r.value[address]| ==> r.value[address][k] == None
    ensures r.Ok? ==> forall b :: b in st && b != address ==> r.value[b] == st[b]
    ensures r.Err? ==> r.error == Raise(OverflowError)
  {
    var _ :- WithinWidth(hw, address);
    Ok(st[address := seq(if length < 0 then 0 else length, _ => None)])
  }

  /** `_set_array(address, array)`: the array must exist, then the list is checked and stored. */
  function ArraysSetArray(hw: bool, st: ArrayStore, address: int, list: seq<Option<int>>): (r: Result<ArrayStore>)
    ensures r.Ok? <==> address in st && AssertList(hw, list).Ok?
    ensures r.Ok? ==> r.value == st[address := list]
    ensures address !in st ==> r == Fail(IndexError)
  {
    if address !in st then Fail(IndexError)
    else
      var _ :- AssertList(hw, list);
      Ok(st[address := list])
  }

  /** `_get_array(address)`: the whole list, or IndexError when absent. */
  function ArraysGetArray(st: ArrayStore, address: int): (r: Result<seq<Option<int>>>)
    ensures r.Ok? <==> address in st
    ensures r.Ok? ==> r.value == st[address]
    ensures r.Err? ==> r.error == Raise(IndexError)
  {
    if address in st then Ok(st[address]) else Fail(IndexError)
  }

  /** An absent array reads as None; an existing one raises IndexError outside its length. */
  lemma ReadArrays(st: ArrayStore, address: int, i: int)
    ensures address !in st ==> ArraysGet(false, st, address, At(i)) == Ok(Missing)
    ensures address in st && !(-|st[address]| <= i < |st[address]|) ==> ArraysGet(false, st, address, At(i)) == Fail(IndexError)
    ensures address in st && 0 <= i < |st[address]| ==> ArraysGet(false, st, address, At(i)) == Ok(Single(st[address][i]))
  {
  }

  /** A freshly initialised array reads back None at each position and as n Nones as a whole. */
  lemma InitThenRead(st: ArrayStore, address: int, n: nat, i: int)
    requires 0 <= i < n
    ensures ArraysInit(false, st, address, n).Ok?
    ensures ArraysGet(false, ArraysInit(false, st, address, n).value, address, At(i)) == Ok(Single(None))
    ensures ArraysGet(false, ArraysInit(false, st, address, n).value, address, Range(None, None)) ==
      Ok(List(seq(n, _ => None)))
  {
    var st' := ArraysInit(false, st, address, n).value;
    assert st'[address][0..n] == st'[address];
  }

  /** A write followed by a read of the same position gives the written value. */
  lemma EntryReadWrite(hw: bool, st: ArrayStore, address: int, i: int, value: Option<int>)
    requires ArraysSetEntry(hw, st, address, i, value).Ok?
    requires WithinWidth(hw, address).Ok?
    ensures ArraysGet(hw, ArraysSetEntry(hw, st, address, i, value).value, address, At(i)) == Ok(Single(value))
  {
  }

  /** In simulation no operation raises OverflowError. */
  lemma SimulationNoOverflow(st: ArrayStore, g: Group, address: int, i: int, value: Option<int>,
                             start: Option<int>, stop: Option<int>, values: seq<Option<int>>, v: int)
    ensures GroupSet(false, g, i, v).Err? ==> GroupSet(false, g, i, v).error == Raise(IndexError)
    ensures ArraysGet(false, st, address, At(i)).Err? ==> ArraysGet(false, st, address, At(i)).error == Raise(IndexError)
    ensures ArraysSetEntry(false, st, address, i, value).Err? ==> ArraysSetEntry(false, st, address, i, value).error == Raise(IndexError)
    ensures ArraysSetSlice(false, st, address, start, stop, values).Err? ==>
      ArraysSetSlice(false, st, address, start, stop, values).error != Raise(OverflowError)
    ensures ArraysInit(false, st, address, v).Ok?
  {
  }

  /** On hardware a value outside int32 is refused before anything is written. */
  lemma HardwareOverflow(st: ArrayStore, g: Group, address: int, i: int, v: int)
    requires InGroup(i) && !FitsInt32(v) && FitsInt32(address)
    ensures GroupSet(true, g, i, v) == Fail(OverflowError)
    ensures ArraysSetEntry(true, st, address, i, Some(v)) == Fail(OverflowError)
  {
  }

  /** `Arrays._get_active_values`: the defined entries, as `@address[index]` entries with their values. */
  function ArraysActiveValues(st: ArrayStore): (s: set<(ArrayEntry, int)>)
    ensures forall a, k, v :: (ArrayEntry(Address(a), IInt(k)), v) in s <==>
      a in st && 0 <= k < |st[a]| && st[a][k] == Some(v)
  {
    set a, k | a in st && 0 <= k < |st[a]| && st[a][k].Some? :: (ArrayEntry(Address(a), IInt(k)), st[a][k].value)
  }

  class Arrays {
    var arrays: ArrayStore

    constructor ()
      ensures arrays == map[]
    {
      arrays := map[];
    }

    /** `__getitem__` */
    function GetItem(hw: bool, address: int, index: ArrayIndex): (r: Result<Part>)
      reads this
      ensures r == ArraysGet(hw, arrays, address, index)
    {
      ArraysGet(hw, arrays, address, index)
    }

    /** `__setitem__` with a position: nothing changes on an error. */
    method SetEntry(hw: bool, address: int, i: int, value: Option<int>) returns (r: Result<Unit>)
      modifies this
      ensures var s := ArraysSetEntry(hw, old(arrays), address, i, value);
        (r.Ok? <==> s.Ok?) && (r.Err? ==> r.error == s.error) &&
        arrays == (if s.Ok? then s.value else old(arrays))
    {
      var s := ArraysSetEntry(hw, arrays, address, i, value);
      if s.Err? {
        return Err(s.error);
      }
      arrays := s.value;
      r := Ok(Unit);
    }

    /** `__setitem__` with a slice: nothing changes on an error. */
    method SetSlice(hw: bool, address: int, start: Option<int>, stop: Option<int>, values: seq<Option<int>>)
      returns (r: Result<Unit>)
      modifies this
      ensures var s := ArraysSetSlice(hw, old(arrays), address, start, stop, values);
        (r.Ok? <==> s.Ok?) && (r.Err? ==> r.error == s.error) &&
        arrays == (if s.Ok? then s.value else old(arrays))
    {
      var s := ArraysSetSlice(hw, arrays, address, start, stop, values);
      if s.Err? {
        return Err(s.error);
      }
      arrays := s.value;
      r := Ok(Unit);
    }

    /** `init_new_array(address, length)` */
    method InitNewArray(hw: bool, address: int, length: int) returns (r: Result<Unit>)
      modifies this
      ensures var s := ArraysInit(hw, old(arrays), address, length);
        (r.Ok? <==> s.Ok?) && (r.Err? ==> r.error == s.error) &&
        arrays == (if s.Ok? then s.value else old(arrays))
    {
      var w := WithinWidth(hw, address);
      if w.Err? {
        return Err(w.error);
      }
      arrays := arrays[address := seq(if length < 0 then 0 else length, _ => None)];
      r := Ok(Unit);
    }

    /** `_set_array(address, array)` */
    method SetArray(hw: bool, address: int, list: seq<Option<int>>) returns (r: Result<Unit>)
      modifies this
      ensures var s := ArraysSetArray(hw, old(arrays), address, list);
        (r.Ok? <==> s.Ok?) && (r.Err? ==> r.error == s.error) &&
        arrays == (if s.Ok? then s.value else old(arrays))
    {
      var s := ArraysSetArray(hw, arrays, address, list);
      if s.Err? {
        return Err(s.error);
      }
      arrays := s.value;
      r := Ok(Unit);
    }

    function HasArray(address: int): (b: bool)
      reads this
      ensures b <==> address in arrays
    {
      address in arrays
    }
  }

  // ---------------------------------------------------------------------
  // Shared memory

  /** A register argument given as a Register or as its text. */
  datatype RegisterArg = ByValue(reg: Register) | ByText(text: string)

  /** What `SharedMemory.__getitem__` can be indexed by: a register, an (address, index) pair or an address. */
  datatype Key = RegKey(reg: Register) | PartKey(address: int, index: ArrayIndex) | ArrayKey(address: int)

  class SharedMemory {
    const registers: map<RegName, RegisterGroup>
    const arrays: Arrays

    ghost predicate Valid()
      reads this
    {
      AllBanks(registers.Keys) && Independent(registers)
    }

    constructor ()
      ensures Valid() && fresh(arrays) && arrays.arrays == map[]
      ensures forall n :: n in registers ==> fresh(registers[n]) && registers[n].register == map[]
    {
      var groups := SetupRegisters();
      registers := groups;
      arrays := new Arrays();
    }

    /** `get_register(register)`: the value in the register's bank group. */
    function GetRegister(reg: Register): (r: Result<Option<int>>)
      requires Valid()
      reads this, registers[reg.name]
      ensures r == GroupGet(registers[reg.name].register, reg.index)
    {
      registers[reg.name].GetItem(reg.index)
    }

    /** `set_register(register, value)`: only the register's bank group changes. */
    method SetRegister(hw: bool, reg: Register, value: int) returns (r: Result<Unit>)
      requires Valid()
      modifies registers[reg.name]
      ensures var s := GroupSet(hw, old(registers[reg.name].register), reg.index, value);
        (r.Ok? <==> s.Ok?) && (r.Err? ==> r.error == s.error) &&
        registers[reg.name].register == (if s.Ok? then s.value else old(registers[reg.name].register))
    {
      r := registers[reg.name].SetItem(hw, reg.index, value);
    }

    /** `get_register` / `set_register` also take a register's text, read by `parse_register`. */
    static function Resolve(arg: RegisterArg): (r: Result<Register>)
      ensures arg.ByValue? ==> r == Ok(arg.reg)
      ensures arg.ByText? ==> r == TextValues.ParseRegister(arg.text)
    {
      match arg
      case ByValue(reg) => Ok(reg)
      case ByText(s) => TextValues.ParseRegister(s)
    }

    /** `get_array_part(address, index)` */
    function GetArrayPart(hw: bool, address: int, index: ArrayIndex): (r: Result<Part>)
      reads this, arrays
      ensures r == ArraysGet(hw, arrays.arrays, address, index)
    {
      arrays.GetItem(hw, address, index)
    }

    /** `__getitem__`: a register, an array part, or a whole array. */
    function GetItem(hw: bool, key: Key): (r: Result<Part>)
      requires Valid()
      reads this, arrays, registers.Values
      ensures key.RegKey? ==> (r.Ok? <==> GetRegister(key.reg).Ok?) && (r.Ok? ==> r.value == Single(GetRegister(key.reg).value))
      ensures key.PartKey? ==> r == GetArrayPart(hw, key.address, key.index)
      ensures key.ArrayKey? ==> (r.Ok? <==> key.address in arrays.arrays)
      ensures key.ArrayKey? && r.Ok? ==> r.value == List(arrays.arrays[key.address])
    {
      match key
      case RegKey(reg) =>
        var v :- GetRegister(reg);
        Ok(Single(v))
      case PartKey(address, index) => GetArrayPart(hw, address, index)
      case ArrayKey(address) =>
        var a :- ArraysGetArray(arrays.arrays, address);
        Ok(List(a))
    }

    /** `set_array_part(address, i, value)` */
    method SetArrayEntry(hw: bool, address: int, i: int, value: Option<int>) returns (r: Result<Unit>)
      modifies arrays
      ensures var s := ArraysSetEntry(hw, old(arrays.arrays), address, i, value);
        (r.Ok? <==> s.Ok?) && (r.Err? ==> r.error == s.error) &&
        arrays.arrays == (if s.Ok? then s.value else old(arrays.arrays))
    {
      r := arrays.SetEntry(hw, address, i, value);
    }

    /** `set_array_part(address, start:stop, values)` */
    method SetArraySlice(hw: bool, address: int, start: Option<int>, stop: Option<int>, values: seq<Option<int>>)
      returns (r: Result<Unit>)
      modifies arrays
      ensures var s := ArraysSetSlice(hw, old(arrays.arrays), address, start, stop, values);
        (r.Ok? <==> s.Ok?) && (r.Err? ==> r.error == s.error) &&
        arrays.arrays == (if s.Ok? then s.value else old(arrays.arrays))
    {
      r := arrays.SetSlice(hw, address, start, stop, values);
    }

    /**
     * `init_new_array(address, length, new_array)`: a supplied list fixes the
     * length, the array is initialised to Nones, and then the list is stored.
     * A list that fails its width check leaves the Nones in place.
     */
    method InitNewArray(hw: bool, address: int, length: int, newArray: Option<seq<Option<int>>>) returns (r: Result<Unit>)
      modifies arrays
      ensures var n := if newArray.Some? then |newArray.value| else length;
        var init := ArraysInit(hw, old(arrays.arrays), address, n);
        if init.Err? then r == Err(init.error) && arrays.arrays == old(arrays.arrays)
        else if newArray.None? then r.Ok? && arrays.arrays == init.value
        else var set_ := ArraysSetArray(hw, init.value, address, newArray.value);
          (r.Ok? <==> set_.Ok?) && (r.Err? ==> r.error == set_.error) &&
          arrays.arrays == (if set_.Ok? then set_.value else init.value)
    {
      var n := if newArray.Some? then |newArray.value| else length;
      r := arrays.InitNewArray(hw, address, n);
      if r.Err? || newArray.None? {
        return;
      }
      r := arrays.SetArray(hw, address, newArray.value);
    }
  }

  /** A supplied list becomes the array: same length, same contents. */
  lemma InitWithList(hw: bool, st: ArrayStore, address: int, values: seq<Option<int>>)
    requires ArraysInit(hw, st, address, |values|).Ok? && AssertList(hw, values).Ok?
    ensures ArraysSetArray(hw, ArraysInit(hw, st, address, |values|).value, address, values) == Ok(st[address := values])
  {
    var init := ArraysInit(hw, st, address, |values|).value;
    assert init[address := values] == st[address := values];
  }

  // ---------------------------------------------------------------------
  // The manager of shared memories

  /** `SharedMemoryManager`: the class-level table from (node name, key) to memory. */
  class SharedMemoryManager {
    var memories: map<(string, Option<int>), SharedMemory>

    constructor ()
      ensures memories == map[]
    {
      memories := map[];
    }

    /** `create_shared_memory`: RuntimeError if the (node, key) pair exists; otherwise a new memory is recorded. */
    method CreateSharedMemory(nodeName: string, key: Option<int>) returns (r: Result<SharedMemory>)
      modifies this
      ensures (nodeName, key) in old(memories) <==> r.Err?
      ensures r.Err? ==> r.error == Raise(RuntimeError) && memories == old(memories)
      ensures r.Ok? ==> fresh(r.value) && r.value.Valid() && memories == old(memories)[(nodeName, key) := r.value]
    {
      if (nodeName, key) in memories {
        return Fail(RuntimeError);
      }
      var memory := new SharedMemory();
      memories := memories[(nodeName, key) := memory];
      r := Ok(memory);
    }

    /** `get_shared_memory`: the recorded memory, or None. */
    function GetSharedMemory(nodeName: string, key: Option<int>): (r: Option<SharedMemory>)
      reads this
      ensures r.None? <==> (nodeName, key) !in memories
      ensures r.Some? ==> r.value == memories[(nodeName, key)]
    {
      if (nodeName, key) in memories then Some(memories[(nodeName, key)]) else None
    }

    /** `reset_memories`: the table is emptied. */
    method ResetMemories()
      modifies this
      ensures memories == map[]
    {
      memories := map[];
    }
  }
}
