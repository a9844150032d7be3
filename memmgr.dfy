// `netqasm/sdk/memmgr.py` and `netqasm/sdk/qubit.py`: the builder's memory
// manager, which keeps book of the active qubits, the registers in use,
// the measurement registers, the array addresses handed out and what is
// to be returned at the end of a subroutine; and the `Qubit` handle, whose
// `active` flag is mirrored in the manager's list of active qubits.
//
// The manager and the qubit refer to each other (the manager lists
// qubits, a qubit reaches the manager through its connection's builder),
// so both live in this module. A qubit's connection and builder are
// reduced to the one manager it reaches.

module MemMgr {
  import opened Wrappers
  import opened Operand
  import opened Allocators
  import opened FreshIds
  import opened Seqs
  import opened QLink
  import opened Connection
  import opened Futures

  class MemoryManager {
    /** `_active_qubits`. */
    var activeQubits: seq<Qubit>
    /** `_active_registers`. */
    var activeRegisters: set<Register>
    /** `_used_meas_registers`, as its list of items. */
    var usedMeasRegisters: MeasTable
    /** `_registers_to_return`. */
    var registersToReturn: seq<Register>
    /** `_used_array_addresses`. */
    var usedArrayAddresses: seq<int>
    /** `_arrays_to_return`. */
    var arraysToReturn: seq<SdkArray>

    /**
     * The bookkeeping every operation keeps: the listed qubits belong to
     * this manager, are active and are listed once; the measurement table
     * is a dictionary; array addresses start at 0 and increase.
     */
    ghost predicate Valid()
      reads this, activeQubits
    {
      (forall i :: 0 <= i < |activeQubits| ==> activeQubits[i].mgr == this && activeQubits[i].active) &&
      Distinct(activeQubits) &&
      KeysDistinct(usedMeasRegisters) &&
      StrictlyIncreasing(usedArrayAddresses) &&
      (usedArrayAddresses != [] ==> usedArrayAddresses[0] >= 0)
    }

    constructor ()
      ensures Valid()
      ensures activeQubits == [] && activeRegisters == {} && usedMeasRegisters == InitialMeasTable()
      ensures registersToReturn == [] && usedArrayAddresses == [] && arraysToReturn == []
    {
      activeQubits := [];
      activeRegisters := {};
      usedMeasRegisters := InitialMeasTable();
      registersToReturn := [];
      usedArrayAddresses := [];
      arraysToReturn := [];
      new;
      assert KeysDistinct(usedMeasRegisters);
      assert Distinct(activeQubits);
    }

    /** The ids of the active qubits, in list order. */
    function QubitIds(): (ids: seq<int>)
      reads this, activeQubits
      ensures |ids| == |activeQubits|
      ensures forall i :: 0 <= i < |ids| ==> ids[i] == activeQubits[i].qubitId
    {
      seq(|activeQubits|, i reads this, activeQubits requires 0 <= i < |activeQubits| => activeQubits[i].qubitId)
    }

    /** `is_qubit_active`: membership by identity. */
    predicate IsQubitActive(q: Qubit)
      reads this
    {
      q in activeQubits
    }

    /** `is_qubit_id_used`: some active qubit has this id. */
    predicate IsQubitIdUsed(id: int)
      reads this, activeQubits
    {
      id in QubitIds()
    }

    /**
     * `inactivate_qubits`: pops every qubit and sets it inactive. Popping
     * first means the setter finds the qubit no longer listed.
     */
    method InactivateQubits()
      requires Valid()
      modifies this`activeQubits, activeQubits
      ensures Valid() && activeQubits == []
      ensures forall i :: 0 <= i < |old(activeQubits)| ==> !old(activeQubits)[i].active
    {
      ghost var qs := activeQubits;
      while |activeQubits| > 0
        invariant Valid()
        invariant |activeQubits| <= |qs| && activeQubits == qs[..|activeQubits|]
        invariant forall i :: |activeQubits| <= i < |qs| ==> !qs[i].active
        decreases |activeQubits|
      {
        var n := |activeQubits|;
        var q := activeQubits[n - 1];
        assert q !in activeQubits[..n - 1] by {
          assert forall i :: 0 <= i < n - 1 ==> activeQubits[i] != activeQubits[n - 1];
        }
        activeQubits := activeQubits[..n - 1];
        q.SetActive(false);
        assert forall i :: n - 1 <= i < |qs| ==> qs[i] != q ==> !qs[i].active;
      }
    }

    /** `activate_qubit`: appended, even if already listed. */
    method ActivateQubit(q: Qubit)
      modifies this`activeQubits
      ensures activeQubits == old(activeQubits) + [q]
    {
      activeQubits := activeQubits + [q];
    }

    /** `deactivate_qubit`: `list.remove`, which raises ValueError for an unlisted qubit. */
    method DeactivateQubit(q: Qubit) returns (r: Result<Unit>)
      modifies this`activeQubits
      ensures q in old(activeQubits) ==> r == Ok(Unit) && activeQubits == RemoveFirst(old(activeQubits), q)
      ensures q !in old(activeQubits) ==> r == Fail(ValueError) && activeQubits == old(activeQubits)
    {
      if q !in activeQubits {
        return Fail(ValueError);
      }
      activeQubits := RemoveFirst(activeQubits, q);
      r := Ok(Unit);
    }

    /**
     * `get_new_qubit_address`: counts up from 0 to the first id no active
     * qubit holds. Some id below |ids| + 1 is always free, so the
     * RuntimeError after the unbounded count cannot be reached.
     */
    method GetNewQubitAddress() returns (a: nat)
      ensures a == SmallestNotIn(QubitIds()) && !IsQubitIdUsed(a)
      ensures forall q :: 0 <= q < a ==> IsQubitIdUsed(q)
    {
      var ids := QubitIds();
      a := 0;
      while a in ids
        invariant forall q :: 0 <= q < a ==> q in ids
        decreases |ids| - a
      {
        ListHoldsBelow(ids, a + 1);
        a := a + 1;
      }
      SmallestNotInUnique(ids, a);
    }

    /** `is_register_active`. */
    predicate IsRegisterActive(reg: Register)
      reads this
    {
      reg in activeRegisters
    }

    /** `add_active_register`: ValueError if the register is already active. */
    method AddActiveRegister(reg: Register) returns (r: Result<Unit>)
      modifies this`activeRegisters
      ensures reg in old(activeRegisters) ==> r == Fail(ValueError) && activeRegisters == old(activeRegisters)
      ensures reg !in old(activeRegisters) ==> r == Ok(Unit) && activeRegisters == old(activeRegisters) + {reg}
    {
      if reg in activeRegisters {
        return Fail(ValueError);
      }
      activeRegisters := activeRegisters + {reg};
      r := Ok(Unit);
    }

    /** `remove_active_register`: `set.remove`, which raises KeyError for an inactive register. */
    method RemoveActiveRegister(reg: Register) returns (r: Result<Unit>)
      modifies this`activeRegisters
      ensures reg !in old(activeRegisters) ==> r == Fail(KeyError) && activeRegisters == old(activeRegisters)
      ensures reg in old(activeRegisters) ==> r == Ok(Unit) && activeRegisters == old(activeRegisters) - {reg}
    {
      if reg !in activeRegisters {
        return Fail(KeyError);
      }
      activeRegisters := activeRegisters - {reg};
      r := Ok(Unit);
    }

    /** `meas_register_set_used`. */
    method MeasRegisterSetUsed(reg: Register)
      requires Valid()
      modifies this`usedMeasRegisters
      ensures Valid() && usedMeasRegisters == MeasSet(old(usedMeasRegisters), reg, true)
    {
      usedMeasRegisters := MeasSet(usedMeasRegisters, reg, true);
    }

    /** `meas_register_set_unused`. */
    method MeasRegisterSetUnused(reg: Register)
      requires Valid()
      modifies this`usedMeasRegisters
      ensures Valid() && usedMeasRegisters == MeasSet(old(usedMeasRegisters), reg, false)
    {
      usedMeasRegisters := MeasSet(usedMeasRegisters, reg, false);
    }

    /**
     * `get_new_meas_outcome_register`: the first register of the table not
     * in use, now marked used; RuntimeError when all are in use.
     */
    method GetNewMeasOutcomeRegister() returns (r: Result<Register>)
      requires Valid()
      modifies this`usedMeasRegisters
      ensures Valid()
      ensures var t := old(usedMeasRegisters); var k := FirstUnused(t);
        if k < |t| then r == Ok(t[k].0) && usedMeasRegisters == TakeMeas(t, 1)
        else r == Fail(RuntimeError) && usedMeasRegisters == t
    {
      var t := usedMeasRegisters;
      var k := 0;
      while k < |t|
        invariant k <= |t| && forall i :: 0 <= i < k ==> t[i].1
        decreases |t| - k
      {
        if !t[k].1 {
          var reg := t[k].0;
          KeyPosOfDistinct(t, k);
          usedMeasRegisters := MeasSet(t, reg, true);
          assert k == FirstUnused(t);
          return Ok(reg);
        }
        k := k + 1;
      }
      r := Fail(RuntimeError);
    }

    /** `reset_used_meas_registers`: M0 .. M15, none in use. */
    method ResetUsedMeasRegisters()
      requires Valid()
      modifies this`usedMeasRegisters
      ensures Valid() && usedMeasRegisters == InitialMeasTable()
    {
      usedMeasRegisters := InitialMeasTable();
    }

    /** `add_register_to_return`. */
    method AddRegisterToReturn(reg: Register)
      modifies this`registersToReturn
      ensures registersToReturn == old(registersToReturn) + [reg]
    {
      registersToReturn := registersToReturn + [reg];
    }

    /** `reset_registers_to_return`. */
    method ResetRegistersToReturn()
      modifies this`registersToReturn
      ensures registersToReturn == []
    {
      registersToReturn := [];
    }

    /**
     * `get_inactive_register`: the lowest of R0 .. R15 not active, made
     * active when asked; RuntimeError when all sixteen are active.
     */
    method GetInactiveRegister(activate: bool) returns (r: Result<Register>)
      modifies this`activeRegisters
      ensures var l := LowestInactive(old(activeRegisters));
        if l.Some? then r == Ok(l.value) && activeRegisters == (if activate then old(activeRegisters) + {l.value} else old(activeRegisters))
        else r == Fail(RuntimeError) && activeRegisters == old(activeRegisters)
    {
      var i: nat := 0;
      while i < 16
        invariant i <= 16 && forall j :: 0 <= j < i ==> RegR(j) in activeRegisters
        invariant activeRegisters == old(activeRegisters)
        decreases 16 - i
      {
        var register := RegR(i);
        if register !in activeRegisters {
          LowestInactiveUnique(activeRegisters, i);
          if activate {
            var added := AddActiveRegister(register);
          }
          return Ok(register);
        }
        i := i + 1;
      }
      r := Fail(RuntimeError);
    }

    /** `get_new_array_address`: one past the last address, or 0; recorded as used. */
    method GetNewArrayAddress() returns (a: int)
      requires Valid()
      modifies this`usedArrayAddresses
      ensures Valid()
      ensures a == NextArrayAddress(old(usedArrayAddresses)) && a >= 0 && a !in old(usedArrayAddresses)
      ensures usedArrayAddresses == old(usedArrayAddresses) + [a]
    {
      NextArrayAddressFresh(usedArrayAddresses);
      if |usedArrayAddresses| > 0 {
        a := usedArrayAddresses[|usedArrayAddresses| - 1] + 1;
      } else {
        a := 0;
      }
      usedArrayAddresses := usedArrayAddresses + [a];
    }

    /** `add_array_to_return`. */
    method AddArrayToReturn(a: SdkArray)
      modifies this`arraysToReturn
      ensures arraysToReturn == old(arraysToReturn) + [a]
    {
      arraysToReturn := arraysToReturn + [a];
    }

    /** `reset_arrays_to_return`. */
    method ResetArraysToReturn()
      modifies this`arraysToReturn
      ensures arraysToReturn == []
    {
      arraysToReturn := [];
    }

    /**
     * `reset`: clears what is to be returned and the measurement-register
     * usage; the active qubits, the active registers and the used array
     * addresses are kept.
     */
    method Reset()
      requires Valid()
      modifies this`arraysToReturn, this`registersToReturn, this`usedMeasRegisters
      ensures Valid()
      ensures arraysToReturn == [] && registersToReturn == [] && usedMeasRegisters == InitialMeasTable()
    {
      ResetArraysToReturn();
      ResetRegistersToReturn();
      ResetUsedMeasRegisters();
    }
  }

  /** What `measure` returns: an array-entry future or a register future. */
  datatype Outcome = ArrayOutcome(future: Future) | RegOutcome(regFuture: RegFuture)

  /** `Qubit` (and, with `futureId` set, `FutureQubit`). */
  class Qubit {
    /** The manager of the qubit's connection's builder. */
    const mgr: MemoryManager
    /** `_qubit_id`. */
    var qubitId: int
    /** `_active`. */
    var active: bool
    /** `_ent_info`: the link-layer record of the EPR pair this qubit is half of. */
    const entInfo: Option<Response>
    /** `_remote_ent_node`: the cached remote node name. */
    var remoteEntNode: Option<string>
    /** For a `FutureQubit`, the future its id will be. */
    const futureId: Option<Future>

    /**
     * `Qubit(conn, ent_info=..., virtual_address=...)`: without a virtual
     * address the id is the smallest one no active qubit holds; the new
     * qubit is then activated, so the manager lists it once.
     */
    constructor (mgr: MemoryManager, entInfo: Option<Response>, virtualAddress: Option<int>)
      requires mgr.Valid()
      modifies mgr`activeQubits
      ensures mgr.Valid() && this.mgr == mgr && active
      ensures qubitId == (if virtualAddress.Some? then virtualAddress.value else SmallestNotIn(old(mgr.QubitIds())))
      ensures this.entInfo == entInfo && remoteEntNode.None? && futureId.None?
      ensures mgr.activeQubits == old(mgr.activeQubits) + [this]
    {
      var id: int;
      if virtualAddress.Some? {
        id := virtualAddress.value;
      } else {
        id := mgr.GetNewQubitAddress();
      }
      this.mgr := mgr;
      this.qubitId := id;
      this.active := false;
      this.entInfo := entInfo;
      this.remoteEntNode := None;
      this.futureId := None;
      new;
      Activate();
    }

    /**
     * `FutureQubit(conn, future_id)`: a qubit whose id is a future. As an
     * int a future is 0 (`BaseFuture.__new__`), which is the id kept here.
     */
    constructor OfFuture(mgr: MemoryManager, futureId: Future)
      requires mgr.Valid()
      modifies mgr`activeQubits
      ensures mgr.Valid() && this.mgr == mgr && active && qubitId == 0
      ensures this.futureId == Some(futureId) && entInfo.None? && remoteEntNode.None?
      ensures mgr.activeQubits == old(mgr.activeQubits) + [this]
    {
      this.mgr := mgr;
      this.qubitId := 0;
      this.active := false;
      this.entInfo := None;
      this.remoteEntNode := None;
      this.futureId := Some(futureId);
      new;
      Activate();
    }

    /** `_activate`: active, and listed unless already listed. */
    method Activate()
      modifies this`active, mgr`activeQubits
      ensures active
      ensures mgr.activeQubits == if this in old(mgr.activeQubits) then old(mgr.activeQubits) else old(mgr.activeQubits) + [this]
      ensures old(mgr.Valid()) && mgr == this.mgr ==> mgr.Valid()
    {
      active := true;
      if !mgr.IsQubitActive(this) {
        mgr.ActivateQubit(this);
      }
    }

    /** `_deactivate`: inactive, and taken off the list if listed. */
    method Deactivate()
      modifies this`active, mgr`activeQubits
      ensures !active
      ensures mgr.activeQubits == if this in old(mgr.activeQubits) then RemoveFirst(old(mgr.activeQubits), this) else old(mgr.activeQubits)
      ensures old(mgr.Valid()) ==> mgr.Valid() && this !in mgr.activeQubits
    {
      ghost var valid := mgr.Valid();
      active := false;
      if mgr.IsQubitActive(this) {
        if valid {
          RemoveFirstDistinct(mgr.activeQubits, this);
        }
        var removed := mgr.DeactivateQubit(this);
      }
    }

    /** The `active` setter: nothing happens when the value is unchanged. */
    method SetActive(a: bool)
      modifies this`active, mgr`activeQubits
      ensures active == a
      ensures old(active) == a ==> mgr.activeQubits == old(mgr.activeQubits)
      ensures old(active) != a && a ==>
        mgr.activeQubits == if this in old(mgr.activeQubits) then old(mgr.activeQubits) else old(mgr.activeQubits) + [this]
      ensures old(active) != a && !a ==>
        mgr.activeQubits == if this in old(mgr.activeQubits) then RemoveFirst(old(mgr.activeQubits), this) else old(mgr.activeQubits)
      ensures old(mgr.Valid()) ==> mgr.Valid()
    {
      if active == a {
        return;
      }
      if a {
        Activate();
      } else {
        Deactivate();
      }
    }

    /** `entanglement_info`; a future qubit cannot tell yet. */
    function EntanglementInfo(): (r: Result<Option<Response>>)
      ensures futureId.Some? <==> r == Fail(NotImplementedError)
      ensures futureId.None? ==> r == Ok(entInfo)
    {
      if futureId.Some? then Fail(NotImplementedError) else Ok(entInfo)
    }

    /**
     * `remote_entangled_node`: the cached name if there is one, None
     * without entanglement info, otherwise the name of the record's remote
     * node id, which is then cached.
     */
    method RemoteEntangledNode(nodes: NodeIds) returns (r: Result<Option<string>>)
      requires entInfo.Some? ==> entInfo.value.OkTypeK?
      modifies this`remoteEntNode
      ensures futureId.Some? ==> r == Fail(NotImplementedError) && remoteEntNode == old(remoteEntNode)
      ensures futureId.None? && old(remoteEntNode).Some? ==> r == Ok(old(remoteEntNode)) && remoteEntNode == old(remoteEntNode)
      ensures futureId.None? && old(remoteEntNode).None? && entInfo.None? ==> r == Ok(None) && remoteEntNode.None?
      ensures futureId.None? && old(remoteEntNode).None? && entInfo.Some? ==>
        var name := GetNodeName(nodes, entInfo.value.remoteNodeId);
        (name.Err? ==> r == Err(name.error) && remoteEntNode.None?) &&
        (name.Ok? ==> r == Ok(Some(name.value)) && remoteEntNode == Some(name.value))
    {
      if futureId.Some? {
        return Fail(NotImplementedError);
      }
      if remoteEntNode.Some? {
        return Ok(remoteEntNode);
      }
      if entInfo.None? {
        return Ok(None);
      }
      var name := GetNodeName(nodes, entInfo.value.remoteNodeId);
      if name.Err? {
        return Err(name.error);
      }
      remoteEntNode := Some(name.value);
      r := Ok(remoteEntNode);
    }

    /** `assert_active`: QubitNotActiveError exactly when the qubit is inactive. */
    function AssertActive(): (r: Result<Unit>)
      reads this
      ensures r.Ok? <==> active
      ensures r.Err? ==> r.error == Raise(QubitNotActiveError)
    {
      if active then Ok(Unit) else Fail(QubitNotActiveError)
    }

    /**
     * `measure`: the qubit must be active. Without a given future the
     * outcome goes to entry 0 of a new length-1 array (`store_array`) or
     * to a new register future. A measurement that is not in place
     * deactivates the qubit.
     */
    method Measure(future: Option<Outcome>, inplace: bool, storeArray: bool) returns (r: Result<Outcome>)
      requires mgr.Valid()
      modifies this`active, mgr`activeQubits, mgr`usedArrayAddresses, mgr`arraysToReturn
      ensures mgr.Valid()
      ensures r.Err? <==> !old(active)
      ensures r.Err? ==> (r.error == Raise(QubitNotActiveError) && active == old(active) &&
        mgr.activeQubits == old(mgr.activeQubits) && mgr.usedArrayAddresses == old(mgr.usedArrayAddresses))
      ensures r.Ok? ==> active == inplace
      ensures r.Ok? && inplace ==> mgr.activeQubits == old(mgr.activeQubits)
      ensures r.Ok? && !inplace && old(mgr.Valid()) ==> this !in mgr.activeQubits
      ensures r.Ok? && future.Some? ==> r.value == future.value && mgr.usedArrayAddresses == old(mgr.usedArrayAddresses)
      ensures r.Ok? && future.None? && storeArray ==>
        var a := NextArrayAddress(old(mgr.usedArrayAddresses));
        r.value.ArrayOutcome? && fresh(r.value.future) && r.value.future.address == a &&
        r.value.future.index == ConstIndex(0) && r.value.future.cache.None? &&
        mgr.usedArrayAddresses == old(mgr.usedArrayAddresses) + [a] &&
        mgr.arraysToReturn == old(mgr.arraysToReturn) + [SdkArray(1, a, None, None)]
      ensures r.Ok? && future.None? && !storeArray ==>
        r.value.RegOutcome? && fresh(r.value.regFuture) && r.value.regFuture.reg.None? &&
        mgr.usedArrayAddresses == old(mgr.usedArrayAddresses)
    {
      var ok := AssertActive();
      if ok.Err? {
        return Err(ok.error);
      }
      var outcome: Outcome;
      if future.Some? {
        outcome := future.value;
      } else if storeArray {
        var address := mgr.GetNewArrayAddress();
        var arr := SdkArray(1, address, None, None);
        mgr.AddArrayToReturn(arr);
        var f := GetFutureIndex(arr, ConstIndex(0));
        outcome := ArrayOutcome(f);
      } else {
        var g := new RegFuture(None);
        outcome := RegOutcome(g);
      }
      if !inplace {
        SetActive(false);
      }
      r := Ok(outcome);
    }
  }
}
