// `netqasm/lang/instr/flavour.py`: the core instruction list and the
// per-flavour id and mnemonic maps through which the binary decoder and
// the text assembler pick an instruction class.

module Flavour {
  import opened Wrappers
  import opened Encoding
  import opened Instructions

  /** `CORE_INSTRUCTIONS`, in declaration order (mul, div and rem are not in it). */
  const CoreInstructions: seq<Opcode> := CoreMemory + CoreBranching + CoreArithmetic + CoreQuantum + CoreEnd

  const CoreMemory: seq<Opcode> := [QAlloc, Init, ArrayDecl, Set, Store, Load, Undef, Lea]
  const CoreBranching: seq<Opcode> := [Jmp, Bez, Bnz, Beq, Bne, Blt, Bge]
  const CoreArithmetic: seq<Opcode> := [Add, Sub, Addm, Subm]
  const CoreQuantum: seq<Opcode> := [Meas, CreateEpr, RecvEpr, WaitAll, WaitAny, WaitSingle]
  const CoreEnd: seq<Opcode> := [QFree, RetReg, RetArr, Breakpoint]

  /** A flavour is the list of instruction classes it adds to the core. */
  datatype Flavour = Flavour(instrs: seq<Opcode>)

  /** `VanillaFlavour().instrs` */
  const VanillaInstrs: seq<Opcode> := VanillaSingleQubit + VanillaTwoQubit

  const VanillaSingleQubit: seq<Opcode> := [
    VanillaGateX, VanillaGateY, VanillaGateZ, VanillaGateH,
    VanillaGateS, VanillaGateK, VanillaGateT,
    VanillaRotX, VanillaRotY, VanillaRotZ
  ]
  const VanillaTwoQubit: seq<Opcode> := [VanillaCnot, VanillaCphase, VanillaMov]

  /** `NVFlavour().instrs`: the NV x, y, z and h classes are not registered. */
  const NvInstrs: seq<Opcode> := [NvRotX, NvRotY, NvRotZ, NvCrotX, NvCrotY]

  const VanillaFlavour: Flavour := Flavour(VanillaInstrs)

  const NVFlavour: Flavour := Flavour(NvInstrs)

  /** No entry after position k of ops has the same key as ops[k]. */
  predicate Latest<K(==)>(ops: seq<Opcode>, key: Opcode -> K, k: int)
    requires 0 <= k < |ops|
  {
    forall j :: k < j < |ops| ==> key(ops[j]) != key(ops[k])
  }

  /** `{key(instr): instr for instr in ops}`: later entries overwrite earlier ones. */
  function TableOf<K(==)>(ops: seq<Opcode>, key: Opcode -> K): map<K, Opcode>
  {
    if ops == [] then map[] else TableOf(ops[..|ops| - 1], key)[key(ops[|ops| - 1]) := ops[|ops| - 1]]
  }

  /**
   * Every entry's key is in the table, every value is an entry stored under
   * its own key, and an entry that no later entry shadows is the one stored.
   */
  lemma {:induction false} TableOfEntries<K>(ops: seq<Opcode>, key: Opcode -> K)
    ensures forall op :: op in ops ==> key(op) in TableOf(ops, key)
    ensures forall x :: x in TableOf(ops, key) ==> key(TableOf(ops, key)[x]) == x && TableOf(ops, key)[x] in ops
    ensures forall k :: 0 <= k < |ops| && Latest(ops, key, k) ==> TableOf(ops, key)[key(ops[k])] == ops[k]
  {
    if ops != [] {
      var init := ops[..|ops| - 1];
      var last := ops[|ops| - 1];
      assert ops == init + [last];
      TableOfEntries(init, key);
      assert forall k :: 0 <= k < |init| ==> init[k] == ops[k];
    }
  }

  predicate Registered(fl: Flavour, op: Opcode)
  {
    op in CoreInstructions || op in fl.instrs
  }

  /** A table built from `base` and then updated with a table built from `specific`. */
  function UpdatedTable<K(==)>(base: seq<Opcode>, specific: seq<Opcode>, key: Opcode -> K): map<K, Opcode>
  {
    TableOf(base, key) + TableOf(specific, key)
  }

  /**
   * Every entry of either list has its key in the updated table, every value
   * is an entry stored under its own key, and an entry of `specific` wins any
   * clash with an entry of `base`.
   */
  lemma UpdatedTableEntries<K>(base: seq<Opcode>, specific: seq<Opcode>, key: Opcode -> K)
    ensures forall op :: op in base || op in specific ==> key(op) in UpdatedTable(base, specific, key)
    ensures forall x :: x in UpdatedTable(base, specific, key) ==>
              key(UpdatedTable(base, specific, key)[x]) == x
              && (UpdatedTable(base, specific, key)[x] in base || UpdatedTable(base, specific, key)[x] in specific)
    ensures forall k :: 0 <= k < |specific| && Latest(specific, key, k)
                        ==> UpdatedTable(base, specific, key)[key(specific[k])] == specific[k]
    ensures forall x :: x in UpdatedTable(base, specific, key) && (exists op :: op in specific && key(op) == x)
                        ==> UpdatedTable(base, specific, key)[x] in specific
    ensures forall k :: (0 <= k < |base| && Latest(base, key, k)
                         && forall op :: op in specific ==> key(op) != key(base[k]))
                        ==> UpdatedTable(base, specific, key)[key(base[k])] == base[k]
  {
    TableOfEntries(base, key);
    TableOfEntries(specific, key);
  }

  /** `Flavour.__init__`: the core table updated with the flavour's own table. */
  function FlavourTable<K(==)>(fl: Flavour, key: Opcode -> K): (m: map<K, Opcode>)
  {
    UpdatedTable(CoreInstructions, fl.instrs, key)
  }

  function IdMap(fl: Flavour): map<Byte, Opcode>
  {
    FlavourTable(fl, OpId)
  }

  function NameMap(fl: Flavour): map<string, Opcode>
  {
    FlavourTable(fl, Mnemonic)
  }

  /**
   * `get_instr_by_id`: the registered class with that id, the flavour's
   * own class when both have it; KeyError when no registered class has it.
   */
  function GetInstrById(fl: Flavour, id: Byte): (r: Result<Opcode>)
    ensures r.Ok? ==> OpId(r.value) == id && Registered(fl, r.value)
    ensures r.Ok? && (exists op :: op in fl.instrs && OpId(op) == id) ==> r.value in fl.instrs
    ensures r.Err? ==> r.error == Raise(KeyError) && forall op :: Registered(fl, op) ==> OpId(op) != id
  {
    UpdatedTableEntries(CoreInstructions, fl.instrs, OpId);
    var m := IdMap(fl);
    if id in m then Ok(m[id]) else Fail(KeyError)
  }

  /** `get_instr_by_name`, likewise keyed by mnemonic. */
  function GetInstrByName(fl: Flavour, name: string): (r: Result<Opcode>)
    ensures r.Ok? ==> Mnemonic(r.value) == name && Registered(fl, r.value)
    ensures r.Ok? && (exists op :: op in fl.instrs && Mnemonic(op) == name) ==> r.value in fl.instrs
    ensures r.Err? ==> r.error == Raise(KeyError) && forall op :: Registered(fl, op) ==> Mnemonic(op) != name
  {
    UpdatedTableEntries(CoreInstructions, fl.instrs, Mnemonic);
    var m := NameMap(fl);
    if name in m then Ok(m[name]) else Fail(KeyError)
  }

  /** The core list holds exactly the core classes other than mul, div and rem. */
  lemma CoreListed(op: Opcode)
    ensures op in CoreInstructions <==> IsCore(op) && !op.Mul? && !op.Div? && !op.Rem?
  {
    if op in CoreInstructions {
      CoreListIsCore(op);
    }
  }

  lemma CoreListIsCore(op: Opcode)
    requires op in CoreInstructions
    ensures IsCore(op) && !op.Mul? && !op.Div? && !op.Rem?
  {
    var k :| 0 <= k < |CoreInstructions| && CoreInstructions[k] == op;
  }

  /** The vanilla flavour adds exactly the classes of the vanilla module. */
  lemma VanillaListed(op: Opcode)
    ensures op in VanillaInstrs <==> IsVanilla(op)
  {
    if op in VanillaInstrs {
      VanillaListIsVanilla(op);
    }
  }

  lemma VanillaListIsVanilla(op: Opcode)
    requires op in VanillaInstrs
    ensures IsVanilla(op)
  {
    var k :| 0 <= k < |VanillaInstrs| && VanillaInstrs[k] == op;
  }

  /** The NV flavour adds the classes of the NV module other than x, y, z and h. */
  lemma NvListed(op: Opcode)
    ensures op in NvInstrs <==> IsNv(op) && !op.NvGateX? && !op.NvGateY? && !op.NvGateZ? && !op.NvGateH?
  {
    if op in NvInstrs {
      var k :| 0 <= k < |NvInstrs| && NvInstrs[k] == op;
    }
  }

  /** No two classes registered by the vanilla flavour share an id ... */
  lemma VanillaIdsUnique(a: Opcode, b: Opcode)
    requires Registered(VanillaFlavour, a) && Registered(VanillaFlavour, b) && OpId(a) == OpId(b)
    ensures a == b
  {
    CoreListed(a);
    VanillaListed(a);
    CoreListed(b);
    VanillaListed(b);
    if IsVanilla(a) {
      VanillaIdsDistinct(a, b);
    } else if IsVanilla(b) {
      VanillaIdsDistinct(b, a);
    } else {
      CoreIds(a, b);
    }
  }

  /** ... or a mnemonic. */
  lemma VanillaNamesUnique(a: Opcode, b: Opcode)
    requires Registered(VanillaFlavour, a) && Registered(VanillaFlavour, b) && Mnemonic(a) == Mnemonic(b)
    ensures a == b
  {
    CoreListed(a);
    VanillaListed(a);
    CoreListed(b);
    VanillaListed(b);
    if IsVanilla(a) {
      VanillaMnemonicsDistinct(a, b);
    } else if IsVanilla(b) {
      VanillaMnemonicsDistinct(b, a);
    } else {
      CoreMnemonics(a, b);
    }
  }

  /** No two classes registered by the NV flavour share an id ... */
  lemma NvIdsUnique(a: Opcode, b: Opcode)
    requires Registered(NVFlavour, a) && Registered(NVFlavour, b) && OpId(a) == OpId(b)
    ensures a == b
  {
    CoreListed(a);
    NvListed(a);
    CoreListed(b);
    NvListed(b);
    if IsNv(a) {
      NvIdsDistinct(a, b);
    } else if IsNv(b) {
      NvIdsDistinct(b, a);
    } else {
      CoreIds(a, b);
    }
  }

  /** ... or a mnemonic. */
  lemma NvNamesUnique(a: Opcode, b: Opcode)
    requires Registered(NVFlavour, a) && Registered(NVFlavour, b) && Mnemonic(a) == Mnemonic(b)
    ensures a == b
  {
    CoreListed(a);
    NvListed(a);
    CoreListed(b);
    NvListed(b);
    if IsNv(a) {
      NvMnemonicsDistinct(a, b);
    } else if IsNv(b) {
      NvMnemonicsDistinct(b, a);
    } else {
      CoreMnemonics(a, b);
    }
  }

  /** The ids the vanilla flavour registers: 1..41 and the breakpoint's 100. */
  lemma VanillaRegisteredIds(op: Opcode)
    requires Registered(VanillaFlavour, op)
    ensures 1 <= OpId(op) <= 41 || OpId(op) == 100
  {
    CoreListed(op);
    VanillaListed(op);
    IdRanges(op);
  }

  /** The ids the NV flavour registers: none of 20..26 or 41. */
  lemma NvRegisteredIds(op: Opcode)
    requires Registered(NVFlavour, op)
    ensures 1 <= OpId(op) <= 19 || 27 <= OpId(op) <= 40 || OpId(op) == 100
  {
    CoreListed(op);
    NvListed(op);
    IdRanges(op);
  }

  /** Under the vanilla flavour every registered class is found by its own id and by its own mnemonic. */
  lemma VanillaLookups(op: Opcode)
    requires Registered(VanillaFlavour, op)
    ensures GetInstrById(VanillaFlavour, OpId(op)) == Ok(op)
    ensures GetInstrByName(VanillaFlavour, Mnemonic(op)) == Ok(op)
  {
    var byId := GetInstrById(VanillaFlavour, OpId(op));
    var byName := GetInstrByName(VanillaFlavour, Mnemonic(op));
    VanillaIdsUnique(op, byId.value);
    VanillaNamesUnique(op, byName.value);
  }

  /** Under the NV flavour every registered class is found by its own id and by its own mnemonic. */
  lemma NvLookups(op: Opcode)
    requires Registered(NVFlavour, op)
    ensures GetInstrById(NVFlavour, OpId(op)) == Ok(op)
    ensures GetInstrByName(NVFlavour, Mnemonic(op)) == Ok(op)
  {
    var byId := GetInstrById(NVFlavour, OpId(op));
    var byName := GetInstrByName(NVFlavour, Mnemonic(op));
    NvIdsUnique(op, byId.value);
    NvNamesUnique(op, byName.value);
  }

  /** Id 30 is cnot under the vanilla flavour ... */
  lemma VanillaId30(id: Byte)
    requires id == 30
    ensures GetInstrById(VanillaFlavour, id) == Ok(VanillaCnot)
  {
    var r := GetInstrById(VanillaFlavour, id);
    VanillaListed(VanillaCnot);
    assert Registered(VanillaFlavour, VanillaCnot) && OpId(VanillaCnot) == id;
    VanillaIdsUnique(VanillaCnot, r.value);
  }

  /** ... and crot_x under the NV flavour. */
  lemma NvId30(id: Byte)
    requires id == 30
    ensures GetInstrById(NVFlavour, id) == Ok(NvCrotX)
  {
    var r := GetInstrById(NVFlavour, id);
    NvListed(NvCrotX);
    assert Registered(NVFlavour, NvCrotX) && OpId(NvCrotX) == id;
    NvIdsUnique(NvCrotX, r.value);
  }

  /** The ids of the unregistered NV gates and of the vanilla-only classes do not decode under NV. */
  lemma NvUnknownIds(id: Byte)
    requires 20 <= id <= 26 || id == 41
    ensures GetInstrById(NVFlavour, id) == Fail(KeyError)
  {
    var r := GetInstrById(NVFlavour, id);
    if r.Ok? {
      NvRegisteredIds(r.value);
    }
  }

  /** mul, div and rem are in no map: their ids 200, 201 and 202 do not decode under either flavour. */
  lemma ArithmeticIdsUnknown(id: Byte)
    requires 200 <= id <= 202
    ensures GetInstrById(VanillaFlavour, id) == Fail(KeyError)
    ensures GetInstrById(NVFlavour, id) == Fail(KeyError)
  {
    var r := GetInstrById(VanillaFlavour, id);
    if r.Ok? {
      VanillaRegisteredIds(r.value);
    }
    var q := GetInstrById(NVFlavour, id);
    if q.Ok? {
      NvRegisteredIds(q.value);
    }
  }
}
