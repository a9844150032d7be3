// The hardware descriptions of `netqasm/sdk/build_types.py` that the
// builder consults for the number of qubits it may use.

module BuildTypes {
  import opened Wrappers

  /** `HardwareConfig`: the numbers of communication and memory qubits. */
  datatype HardwareConfig = HardwareConfig(commQubitCount: int, memQubitCount: int)
  {
    /** `qubit_count`: every qubit the hardware has. */
    function QubitCount(): int
    {
      commQubitCount + memQubitCount
    }
  }

  /** The constructor's assertions: at least one communication qubit, no negative memory count. */
  function NewHardwareConfig(numCommQubits: int, numMemQubits: int): (r: Result<HardwareConfig>)
    ensures r.Ok? <==> numCommQubits > 0 && numMemQubits >= 0
    ensures r.Ok? ==> r.value.commQubitCount == numCommQubits && r.value.memQubitCount == numMemQubits
    ensures r.Ok? ==> r.value.QubitCount() == numCommQubits + numMemQubits && r.value.QubitCount() > 0
    ensures r.Err? ==> r.error == Raise(AssertionError)
  {
    if numCommQubits > 0 && numMemQubits >= 0 then Ok(HardwareConfig(numCommQubits, numMemQubits))
    else Fail(AssertionError)
  }

  /** `NVHardwareConfig(n)`: one communication qubit and n - 1 memory qubits. */
  function NVHardwareConfig(numQubits: int): (r: Result<HardwareConfig>)
    ensures r.Ok? <==> numQubits >= 1
    ensures r.Ok? ==> r.value.commQubitCount == 1 && r.value.QubitCount() == numQubits
  {
    NewHardwareConfig(1, numQubits - 1)
  }

  /** `GenericHardwareConfig(n)`: n communication qubits and no memory qubits. */
  function GenericHardwareConfig(numQubits: int): (r: Result<HardwareConfig>)
    ensures r.Ok? <==> numQubits >= 1
    ensures r.Ok? ==> r.value.memQubitCount == 0 && r.value.QubitCount() == numQubits
  {
    NewHardwareConfig(numQubits, 0)
  }

  /** Both platforms with the same number of qubits offer the same total, split differently. */
  lemma SameTotal(n: int)
    requires n >= 1
    ensures NVHardwareConfig(n).Ok? && GenericHardwareConfig(n).Ok?
    ensures NVHardwareConfig(n).value.QubitCount() == GenericHardwareConfig(n).value.QubitCount()
    ensures n > 1 ==> NVHardwareConfig(n).value != GenericHardwareConfig(n).value
  {
  }
}
