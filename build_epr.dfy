// `netqasm/sdk/build_epr.py`: how an entanglement request is laid out in
// a NetQASM array, how the results the quantum node controller writes
// back are cut into futures, the six measurement bases, and the
// classical correction of a measured pair's outcome.

module BuildEpr {
  import opened Wrappers
  import opened QLink
  import opened Futures

  /** `EprMeasBasis`. */
  datatype EprMeasBasis = X | Y | Z | MX | MY | MZ

  /** Three rotation angles, in units of pi/16. */
  type Rotations = (int, int, int)

  /** `basis_to_rotation`. */
  function BasisToRotation(b: EprMeasBasis): Rotations
  {
    match b
    case X => (0, 24, 0)
    case Y => (8, 0, 0)
    case Z => (0, 0, 0)
    case MX => (0, 8, 0)
    case MY => (24, 0, 0)
    case MZ => (16, 0, 0)
  }

  /**
   * `rotation_to_basis`: the basis whose rotations these are, or None for
   * any other triple.
   */
  function RotationToBasis(rot: Rotations): (b: Option<EprMeasBasis>)
    ensures b.Some? ==> BasisToRotation(b.value) == rot
    ensures b.None? ==> forall c: EprMeasBasis :: BasisToRotation(c) != rot
  {
    if rot == (0, 24, 0) then Some(X)
    else if rot == (8, 0, 0) then Some(Y)
    else if rot == (0, 0, 0) then Some(Z)
    else if rot == (0, 8, 0) then Some(MX)
    else if rot == (24, 0, 0) then Some(MY)
    else if rot == (16, 0, 0) then Some(MZ)
    else None
  }

  /** Every basis is read back from its rotations. */
  lemma BasisRoundTrip(b: EprMeasBasis)
    ensures RotationToBasis(BasisToRotation(b)) == Some(b)
  {
  }

  /** `RandomBasis`; every member, NONE included, counts as set. */
  datatype RandomBasis = RbNone | RbXZ | RbXYZ | RbChsh

  function RandomBasisValue(b: RandomBasis): (v: nat)
    ensures v < 4
  {
    match b
    case RbNone => 0
    case RbXZ => 1
    case RbXYZ => 2
    case RbChsh => 3
  }

  /** `TimeUnit`. */
  datatype TimeUnit = MicroSeconds | MilliSeconds | Seconds

  function TimeUnitValue(u: TimeUnit): (v: nat)
    ensures v < 3
  {
    match u
    case MicroSeconds => 0
    case MilliSeconds => 1
    case Seconds => 2
  }

  /** `EntRequestParams`, without its post routine (a callable). */
  datatype EntRequestParams = EntRequestParams(
    remoteNodeId: int,
    eprSocketId: int,
    number: int,
    sequential: bool,
    timeUnit: TimeUnit,
    maxTime: int,
    expectPhiPlus: bool,
    minFidelityAllAtEnd: Option<int>,
    maxTries: Option<int>,
    randomBasisLocal: Option<RandomBasis>,
    randomBasisRemote: Option<RandomBasis>,
    rotationsLocal: Rotations,
    rotationsRemote: Rotations)

  /** The defaults of the dataclass fields after `sequential`. */
  function DefaultParams(remoteNodeId: int, eprSocketId: int, number: int, sequential: bool): (p: EntRequestParams)
    ensures p.timeUnit == MicroSeconds && p.maxTime == 0 && p.expectPhiPlus
    ensures p.randomBasisLocal.None? && p.randomBasisRemote.None?
    ensures p.rotationsLocal == (0, 0, 0) && p.rotationsRemote == (0, 0, 0)
  {
    EntRequestParams(remoteNodeId, eprSocketId, number, sequential, MicroSeconds, 0, true, None, None,
                     None, None, (0, 0, 0), (0, 0, 0))
  }

  // The layout of a serialised CREATE request.
  const SER_CREATE_IDX_TYPE: nat := 0
  const SER_CREATE_IDX_NUMBER: nat := 1
  const SER_CREATE_IDX_RANDOM_BASIS_LOCAL: nat := 2
  const SER_CREATE_IDX_RANDOM_BASIS_REMOTE: nat := 3
  const SER_CREATE_IDX_MINIMUM_FIDELITY: nat := 4
  const SER_CREATE_IDX_TIME_UNIT: nat := 5
  const SER_CREATE_IDX_MAX_TIME: nat := 6
  const SER_CREATE_IDX_ROTATION_X_LOCAL1: nat := 14
  const SER_CREATE_IDX_ROTATION_Y_LOCAL: nat := 15
  const SER_CREATE_IDX_ROTATION_X_LOCAL2: nat := 16
  const SER_CREATE_IDX_ROTATION_X_REMOTE1: nat := 17
  const SER_CREATE_IDX_ROTATION_Y_REMOTE: nat := 18
  const SER_CREATE_IDX_ROTATION_X_REMOTE2: nat := 19
  const SER_CREATE_LEN: nat := SER_CREATE_IDX_ROTATION_X_REMOTE2 + 1

  // The layout of one pair's results for a kept pair.
  const SER_RESPONSE_KEEP_IDX_LOGICAL_QUBIT_ID: nat := 2
  const SER_RESPONSE_KEEP_IDX_REMOTE_NODE_ID: nat := 6
  const SER_RESPONSE_KEEP_IDX_GOODNESS: nat := 7
  const SER_RESPONSE_KEEP_IDX_BELL_STATE: nat := 9
  const SER_RESPONSE_KEEP_LEN: nat := SER_RESPONSE_KEEP_IDX_BELL_STATE + 1

  // The layout of one pair's results for a measured pair.
  const SER_RESPONSE_MEASURE_IDX_MEASUREMENT_OUTCOME: nat := 2
  const SER_RESPONSE_MEASURE_IDX_REMOTE_NODE_ID: nat := 7
  const SER_RESPONSE_MEASURE_IDX_GOODNESS: nat := 8
  const SER_RESPONSE_MEASURE_IDX_BELL_STATE: nat := 9
  const SER_RESPONSE_MEASURE_LEN: nat := SER_RESPONSE_MEASURE_IDX_BELL_STATE + 1

  /**
   * The serialised request is the `LinkLayerCreate` record without its
   * first two fields (remote node and purpose, which travel as
   * immediates): entry k is field k + 2.
   */
  lemma CreateLayoutMatchesRecord()
    ensures SER_CREATE_LEN == CREATE_FIELD_COUNT - 2 == |CREATE_FIELD_NAMES| - 2
    ensures CREATE_FIELD_NAMES[SER_CREATE_IDX_TYPE + 2] == "type"
    ensures CREATE_FIELD_NAMES[SER_CREATE_IDX_NUMBER + 2] == "number"
    ensures CREATE_FIELD_NAMES[SER_CREATE_IDX_RANDOM_BASIS_LOCAL + 2] == "random_basis_local"
    ensures CREATE_FIELD_NAMES[SER_CREATE_IDX_RANDOM_BASIS_REMOTE + 2] == "random_basis_remote"
    ensures CREATE_FIELD_NAMES[SER_CREATE_IDX_MINIMUM_FIDELITY + 2] == "minimum_fidelity"
    ensures CREATE_FIELD_NAMES[SER_CREATE_IDX_TIME_UNIT + 2] == "time_unit"
    ensures CREATE_FIELD_NAMES[SER_CREATE_IDX_MAX_TIME + 2] == "max_time"
    ensures CREATE_FIELD_NAMES[SER_CREATE_IDX_ROTATION_X_LOCAL1 + 2] == "rotation_X_local1"
    ensures CREATE_FIELD_NAMES[SER_CREATE_IDX_ROTATION_Y_LOCAL + 2] == "rotation_Y_local"
    ensures CREATE_FIELD_NAMES[SER_CREATE_IDX_ROTATION_X_LOCAL2 + 2] == "rotation_X_local2"
    ensures CREATE_FIELD_NAMES[SER_CREATE_IDX_ROTATION_X_REMOTE1 + 2] == "rotation_X_remote1"
    ensures CREATE_FIELD_NAMES[SER_CREATE_IDX_ROTATION_Y_REMOTE + 2] == "rotation_Y_remote"
    ensures CREATE_FIELD_NAMES[SER_CREATE_IDX_ROTATION_X_REMOTE2 + 2] == "rotation_X_remote2"
  {
  }

  /**
   * One pair's results are the link-layer OK record in field order: the
   * kept-pair offsets pick a K record's fields, the measured-pair offsets
   * an M record's, and both records have as many fields as a pair has
   * entries.
   */
  lemma ResultLayoutsMatchRecords(k: Response, m: Response)
    requires k.OkTypeK? && m.OkTypeM?
    ensures |ResponseValues(k)| == SER_RESPONSE_KEEP_LEN && |ResponseValues(m)| == SER_RESPONSE_MEASURE_LEN
    ensures ResponseValues(k)[SER_RESPONSE_KEEP_IDX_LOGICAL_QUBIT_ID] == k.logicalQubitId
    ensures ResponseValues(k)[SER_RESPONSE_KEEP_IDX_REMOTE_NODE_ID] == k.remoteNodeId
    ensures ResponseValues(k)[SER_RESPONSE_KEEP_IDX_GOODNESS] == k.goodness
    ensures ResponseValues(k)[SER_RESPONSE_KEEP_IDX_BELL_STATE] == k.bellState
    ensures ResponseValues(m)[SER_RESPONSE_MEASURE_IDX_MEASUREMENT_OUTCOME] == m.measurementOutcome
    ensures ResponseValues(m)[SER_RESPONSE_MEASURE_IDX_REMOTE_NODE_ID] == m.remoteNodeId
    ensures ResponseValues(m)[SER_RESPONSE_MEASURE_IDX_GOODNESS] == m.goodness
    ensures ResponseValues(m)[SER_RESPONSE_MEASURE_IDX_BELL_STATE] == m.bellState
  {
  }

  /** Which entries of the serialised request hold a value. */
  predicate Written(tp: EprType, p: EntRequestParams, k: nat)
  {
    var measured := tp == EprM || tp == EprR;
    k == SER_CREATE_IDX_TYPE || k == SER_CREATE_IDX_NUMBER ||
    (p.maxTime != 0 && (k == SER_CREATE_IDX_TIME_UNIT || k == SER_CREATE_IDX_MAX_TIME)) ||
    (measured && p.rotationsLocal != (0, 0, 0) && SER_CREATE_IDX_ROTATION_X_LOCAL1 <= k <= SER_CREATE_IDX_ROTATION_X_LOCAL2) ||
    (measured && p.rotationsRemote != (0, 0, 0) && SER_CREATE_IDX_ROTATION_X_REMOTE1 <= k <= SER_CREATE_IDX_ROTATION_X_REMOTE2) ||
    (measured && p.randomBasisLocal.Some? && k == SER_CREATE_IDX_RANDOM_BASIS_LOCAL) ||
    (measured && p.randomBasisRemote.Some? && k == SER_CREATE_IDX_RANDOM_BASIS_REMOTE)
  }

  /**
   * `serialize_request`: twenty entries, None unless written: the type and
   * the number always; the time unit and the maximum time when a maximum
   * time is given; for M and R requests the rotations that are not all
   * zero and the random bases that are set.
   */
  function SerializeRequest(tp: EprType, p: EntRequestParams): (a: seq<Option<int>>)
    ensures |a| == SER_CREATE_LEN
    ensures forall k :: 0 <= k < |a| ==> (a[k].Some? <==> Written(tp, p, k))
    ensures a[SER_CREATE_IDX_TYPE] == Some(EprTypeValue(tp)) && a[SER_CREATE_IDX_NUMBER] == Some(p.number)
    ensures p.maxTime != 0 ==>
      a[SER_CREATE_IDX_TIME_UNIT] == Some(TimeUnitValue(p.timeUnit)) && a[SER_CREATE_IDX_MAX_TIME] == Some(p.maxTime)
    ensures (tp == EprM || tp == EprR) && p.rotationsLocal != (0, 0, 0) ==>
      a[SER_CREATE_IDX_ROTATION_X_LOCAL1] == Some(p.rotationsLocal.0) &&
      a[SER_CREATE_IDX_ROTATION_Y_LOCAL] == Some(p.rotationsLocal.1) &&
      a[SER_CREATE_IDX_ROTATION_X_LOCAL2] == Some(p.rotationsLocal.2)
    ensures (tp == EprM || tp == EprR) && p.rotationsRemote != (0, 0, 0) ==>
      a[SER_CREATE_IDX_ROTATION_X_REMOTE1] == Some(p.rotationsRemote.0) &&
      a[SER_CREATE_IDX_ROTATION_Y_REMOTE] == Some(p.rotationsRemote.1) &&
      a[SER_CREATE_IDX_ROTATION_X_REMOTE2] == Some(p.rotationsRemote.2)
    ensures (tp == EprM || tp == EprR) && p.randomBasisLocal.Some? ==>
      a[SER_CREATE_IDX_RANDOM_BASIS_LOCAL] == Some(RandomBasisValue(p.randomBasisLocal.value))
    ensures (tp == EprM || tp == EprR) && p.randomBasisRemote.Some? ==>
      a[SER_CREATE_IDX_RANDOM_BASIS_REMOTE] == Some(RandomBasisValue(p.randomBasisRemote.value))
  {
    var a0 := seq(SER_CREATE_LEN, _ => None);
    var a1 := a0[SER_CREATE_IDX_TYPE := Some(EprTypeValue(tp))][SER_CREATE_IDX_NUMBER := Some(p.number)];
    var a2 := if p.maxTime != 0 then
        a1[SER_CREATE_IDX_TIME_UNIT := Some(TimeUnitValue(p.timeUnit))][SER_CREATE_IDX_MAX_TIME := Some(p.maxTime)]
      else a1;
    if tp == EprM || tp == EprR then MeasuredEntries(a2, p) else a2
  }

  /** The entries only M and R requests write. */
  function MeasuredEntries(a: seq<Option<int>>, p: EntRequestParams): (a': seq<Option<int>>)
    requires |a| == SER_CREATE_LEN
    ensures |a'| == SER_CREATE_LEN
    ensures forall k :: 0 <= k < |a| && a'[k] != a[k] ==>
      (p.rotationsLocal != (0, 0, 0) && SER_CREATE_IDX_ROTATION_X_LOCAL1 <= k <= SER_CREATE_IDX_ROTATION_X_LOCAL2) ||
      (p.rotationsRemote != (0, 0, 0) && SER_CREATE_IDX_ROTATION_X_REMOTE1 <= k <= SER_CREATE_IDX_ROTATION_X_REMOTE2) ||
      (p.randomBasisLocal.Some? && k == SER_CREATE_IDX_RANDOM_BASIS_LOCAL) ||
      (p.randomBasisRemote.Some? && k == SER_CREATE_IDX_RANDOM_BASIS_REMOTE)
    ensures p.rotationsLocal != (0, 0, 0) ==>
      a'[SER_CREATE_IDX_ROTATION_X_LOCAL1] == Some(p.rotationsLocal.0) &&
      a'[SER_CREATE_IDX_ROTATION_Y_LOCAL] == Some(p.rotationsLocal.1) &&
      a'[SER_CREATE_IDX_ROTATION_X_LOCAL2] == Some(p.rotationsLocal.2)
    ensures p.rotationsRemote != (0, 0, 0) ==>
      a'[SER_CREATE_IDX_ROTATION_X_REMOTE1] == Some(p.rotationsRemote.0) &&
      a'[SER_CREATE_IDX_ROTATION_Y_REMOTE] == Some(p.rotationsRemote.1) &&
      a'[SER_CREATE_IDX_ROTATION_X_REMOTE2] == Some(p.rotationsRemote.2)
    ensures p.randomBasisLocal.Some? ==> a'[SER_CREATE_IDX_RANDOM_BASIS_LOCAL] == Some(RandomBasisValue(p.randomBasisLocal.value))
    ensures p.randomBasisRemote.Some? ==> a'[SER_CREATE_IDX_RANDOM_BASIS_REMOTE] == Some(RandomBasisValue(p.randomBasisRemote.value))
  {
    var (l0, l1, l2) := p.rotationsLocal;
    var (r0, r1, r2) := p.rotationsRemote;
    var b1 := if p.rotationsLocal != (0, 0, 0) then
        a[SER_CREATE_IDX_ROTATION_X_LOCAL1 := Some(l0)][SER_CREATE_IDX_ROTATION_Y_LOCAL := Some(l1)][SER_CREATE_IDX_ROTATION_X_LOCAL2 := Some(l2)]
      else a;
    var b2 := if p.rotationsRemote != (0, 0, 0) then
        b1[SER_CREATE_IDX_ROTATION_X_REMOTE1 := Some(r0)][SER_CREATE_IDX_ROTATION_Y_REMOTE := Some(r1)][SER_CREATE_IDX_ROTATION_X_REMOTE2 := Some(r2)]
      else b1;
    var b3 := if p.randomBasisLocal.Some? then b2[SER_CREATE_IDX_RANDOM_BASIS_LOCAL := Some(RandomBasisValue(p.randomBasisLocal.value))] else b2;
    if p.randomBasisRemote.Some? then b3[SER_CREATE_IDX_RANDOM_BASIS_REMOTE := Some(RandomBasisValue(p.randomBasisRemote.value))] else b3
  }

  /** A request with default parameters carries only its type and number. */
  lemma DefaultRequestMinimal(tp: EprType, remoteNodeId: int, eprSocketId: int, number: int, sequential: bool)
    ensures var a := SerializeRequest(tp, DefaultParams(remoteNodeId, eprSocketId, number, sequential));
      forall k :: 2 <= k < SER_CREATE_LEN ==> a[k].None?
  {
  }

  /** `EprKeepResult`: four futures into the results array. */
  datatype EprKeepResult = EprKeepResult(qubitId: Future, remoteNodeId: Future, generationDuration: Future, rawBellState: Future)

  /** `EprMeasureResult`. */
  datatype EprMeasureResult = EprMeasureResult(
    rawMeasurementOutcome: Future,
    measurementBasisLocal: Rotations,
    measurementBasisRemote: Rotations,
    postProcess: bool,
    remoteNodeId: Future,
    generationDuration: Future,
    rawBellState: Future)

  /** `f` is the future of entry `offset` of the array at `address`. */
  predicate EntryFuture(f: Future, address: int, offset: int)
  {
    f.address == address && f.index == ConstIndex(offset)
  }

  /** Pair i's kept-pair fields sit at offset 10·i plus their field index. */
  predicate KeepAt(r: EprKeepResult, address: int, i: int)
  {
    var base := i * SER_RESPONSE_KEEP_LEN;
    EntryFuture(r.qubitId, address, base + SER_RESPONSE_KEEP_IDX_LOGICAL_QUBIT_ID) &&
    EntryFuture(r.remoteNodeId, address, base + SER_RESPONSE_KEEP_IDX_REMOTE_NODE_ID) &&
    EntryFuture(r.generationDuration, address, base + SER_RESPONSE_KEEP_IDX_GOODNESS) &&
    EntryFuture(r.rawBellState, address, base + SER_RESPONSE_KEEP_IDX_BELL_STATE)
  }

  /** Pair i's measured-pair fields sit at offset 10·i plus their field index. */
  predicate MeasureAt(r: EprMeasureResult, address: int, i: int)
  {
    var base := i * SER_RESPONSE_MEASURE_LEN;
    EntryFuture(r.rawMeasurementOutcome, address, base + SER_RESPONSE_MEASURE_IDX_MEASUREMENT_OUTCOME) &&
    EntryFuture(r.remoteNodeId, address, base + SER_RESPONSE_MEASURE_IDX_REMOTE_NODE_ID) &&
    EntryFuture(r.generationDuration, address, base + SER_RESPONSE_MEASURE_IDX_GOODNESS) &&
    EntryFuture(r.rawBellState, address, base + SER_RESPONSE_MEASURE_IDX_BELL_STATE)
  }

  /**
   * `deserialize_epr_keep_results`: the array must hold ten entries per
   * pair; pair i's result is the futures of its entries.
   */
  method DeserializeEprKeepResults(request: EntRequestParams, a: SdkArray) returns (r: Result<seq<EprKeepResult>>)
    ensures r.Err? <==> a.length != request.number * SER_RESPONSE_KEEP_LEN
    ensures r.Err? ==> r.error == Raise(AssertionError)
    ensures r.Ok? ==> |r.value| == request.number && forall i :: 0 <= i < |r.value| ==> KeepAt(r.value[i], a.address, i)
  {
    if a.length != request.number * SER_RESPONSE_KEEP_LEN {
      return Fail(AssertionError);
    }
    var results: seq<EprKeepResult> := [];
    var i := 0;
    while i < request.number
      invariant 0 <= i <= request.number && |results| == i
      invariant forall j :: 0 <= j < i ==> KeepAt(results[j], a.address, j)
    {
      var base := i * SER_RESPONSE_KEEP_LEN;
      var q := GetFutureIndex(a, ConstIndex(base + SER_RESPONSE_KEEP_IDX_LOGICAL_QUBIT_ID));
      var n := GetFutureIndex(a, ConstIndex(base + SER_RESPONSE_KEEP_IDX_REMOTE_NODE_ID));
      var g := GetFutureIndex(a, ConstIndex(base + SER_RESPONSE_KEEP_IDX_GOODNESS));
      var b := GetFutureIndex(a, ConstIndex(base + SER_RESPONSE_KEEP_IDX_BELL_STATE));
      results := results + [EprKeepResult(q, n, g, b)];
      i := i + 1;
    }
    r := Ok(results);
  }

  /** `EPRRole`. */
  datatype EprRole = Create | Recv

  /**
   * `deserialize_epr_measure_results`: as for kept pairs, and each result
   * carries the request's rotations and is post-processed when the
   * receiver expects Phi+.
   */
  method DeserializeEprMeasureResults(request: EntRequestParams, a: SdkArray, role: EprRole)
    returns (r: Result<seq<EprMeasureResult>>)
    ensures r.Err? <==> a.length != request.number * SER_RESPONSE_MEASURE_LEN
    ensures r.Err? ==> r.error == Raise(AssertionError)
    ensures r.Ok? ==> |r.value| == request.number
    ensures r.Ok? ==> forall i :: 0 <= i < |r.value| ==>
      MeasureAt(r.value[i], a.address, i) &&
      r.value[i].measurementBasisLocal == request.rotationsLocal &&
      r.value[i].measurementBasisRemote == request.rotationsRemote &&
      r.value[i].postProcess == (request.expectPhiPlus && role == Recv)
  {
    if a.length != request.number * SER_RESPONSE_MEASURE_LEN {
      return Fail(AssertionError);
    }
    var results: seq<EprMeasureResult> := [];
    var i := 0;
    while i < request.number
      invariant 0 <= i <= request.number && |results| == i
      invariant forall j :: 0 <= j < i ==>
        MeasureAt(results[j], a.address, j) &&
        results[j].measurementBasisLocal == request.rotationsLocal &&
        results[j].measurementBasisRemote == request.rotationsRemote &&
        results[j].postProcess == (request.expectPhiPlus && role == Recv)
    {
      var base := i * SER_RESPONSE_MEASURE_LEN;
      var m := GetFutureIndex(a, ConstIndex(base + SER_RESPONSE_MEASURE_IDX_MEASUREMENT_OUTCOME));
      var n := GetFutureIndex(a, ConstIndex(base + SER_RESPONSE_MEASURE_IDX_REMOTE_NODE_ID));
      var g := GetFutureIndex(a, ConstIndex(base + SER_RESPONSE_MEASURE_IDX_GOODNESS));
      var b := GetFutureIndex(a, ConstIndex(base + SER_RESPONSE_MEASURE_IDX_BELL_STATE));
      var res := EprMeasureResult(m, request.rotationsLocal, request.rotationsRemote,
                                  request.expectPhiPlus && role == Recv, n, g, b);
      results := results + [res];
      i := i + 1;
    }
    r := Ok(results);
  }

  /** `BellState(v)`: ValueError for a value outside 0 .. 3. */
  function BellStateOf(v: int): (r: Result<BellState>)
    ensures r.Ok? <==> 0 <= v < 4
    ensures r.Ok? ==> BellStateValue(r.value) == v
    ensures r.Err? ==> r.error == Raise(ValueError)
  {
    if v == 0 then Ok(PhiPlus)
    else if v == 1 then Ok(PhiMinus)
    else if v == 2 then Ok(PsiPlus)
    else if v == 3 then Ok(PsiMinus)
    else Fail(ValueError)
  }

  /**
   * The `bell_state` property, given the value of the raw Bell-state
   * future: it must be known, and must name a Bell state.
   */
  function ResultBellState(bellValue: Option<int>): (r: Result<BellState>)
    ensures bellValue.None? ==> r == Fail(AssertionError)
    ensures bellValue.Some? ==> r == BellStateOf(bellValue.value)
  {
    if bellValue.None? then Fail(AssertionError) else BellStateOf(bellValue.value)
  }

  /** Whether `measurement_outcome` flips the bit for this Bell state and basis. */
  predicate Flips(bell: BellState, basis: EprMeasBasis)
  {
    match bell
    case PhiPlus => false
    case PhiMinus => basis in {X, MX, Y, MY}
    case PsiPlus => basis in {Y, MY, Z, MZ}
    case PsiMinus => basis in {X, MX, Z, MZ}
  }

  /**
   * `measurement_outcome`, given the values of the raw outcome and the raw
   * Bell-state futures. Without post-processing it is the raw outcome.
   * With it, both sides must have measured in the same one of the six
   * bases, the outcome must be a known bit, and that bit is flipped when
   * the pair was not Phi+ and its Pauli error shows in the basis. An
   * unknown outcome (NoValueError) is reported as ValueError.
   */
  function MeasurementOutcome(res: EprMeasureResult, outcome: Option<int>, bellValue: Option<int>): (r: Result<int>)
    ensures !res.postProcess ==> (outcome.Some? ==> r == Ok(outcome.value)) && (outcome.None? ==> r == Fail(ValueError))
    ensures res.postProcess && RotationToBasis(res.measurementBasisLocal) != RotationToBasis(res.measurementBasisRemote) ==>
      r == Fail(RuntimeError)
    ensures res.postProcess && RotationToBasis(res.measurementBasisLocal).None? ==> r == Fail(RuntimeError)
    ensures res.postProcess && r.Ok? ==>
      var basis := RotationToBasis(res.measurementBasisLocal);
      basis.Some? && basis == RotationToBasis(res.measurementBasisRemote) &&
      outcome.Some? && (outcome.value == 0 || outcome.value == 1) && ResultBellState(bellValue).Ok? &&
      r.value == (if Flips(ResultBellState(bellValue).value, basis.value) then 1 - outcome.value else outcome.value)
  {
    if !res.postProcess then
      if outcome.None? then Fail(ValueError) else Ok(outcome.value)
    else
      var local := RotationToBasis(res.measurementBasisLocal);
      var remote := RotationToBasis(res.measurementBasisRemote);
      if local != remote then Fail(RuntimeError)
      else if local.None? then Fail(RuntimeError)
      else if outcome.None? then Fail(ValueError)
      else
        var m := outcome.value;
        if !(m == 0 || m == 1) then Fail(AssertionError)
        else
          var bell :- ResultBellState(bellValue);
          Ok(if Flips(bell, local.value) then XorOne(m) else m)
  }

  /** `m ^ 1` on a bit. */
  function XorOne(m: int): (r: int)
    requires m == 0 || m == 1
    ensures r == 1 - m
  {
    if m == 0 then 1 else 0
  }

  /** The Pauli error that turns Phi+ into this Bell state, as its X and Z parts. */
  function PauliError(bell: BellState): (bool, bool)
  {
    match bell
    case PhiPlus => (false, false)
    case PhiMinus => (false, true)
    case PsiPlus => (true, false)
    case PsiMinus => (true, true)
  }

  /** The axis a basis measures along, ignoring its sign: 0 for X, 1 for Y, 2 for Z. */
  function Axis(b: EprMeasBasis): (k: nat)
    ensures k < 3
  {
    match b
    case X => 0
    case MX => 0
    case Y => 1
    case MY => 1
    case Z => 2
    case MZ => 2
  }

  /**
   * A Pauli error changes a measurement's outcome exactly when it
   * anticommutes with the measured Pauli: X is flipped by a Z part, Z by an
   * X part, and Y by exactly one of the two.
   */
  predicate Anticommutes(err: (bool, bool), axis: nat)
  {
    if axis == 0 then err.1 else if axis == 2 then err.0 else err.0 != err.1
  }

  /** The correction table is the anticommutation rule. */
  lemma FlipsIsAnticommutation(bell: BellState, basis: EprMeasBasis)
    ensures Flips(bell, basis) <==> Anticommutes(PauliError(bell), Axis(basis))
  {
  }

  /**
   * For a result with equal bases and known values, the corrected
   * outcome is the raw bit, flipped when the pair's error anticommutes
   * with the basis; a Phi+ pair is never corrected.
   */
  lemma CorrectedOutcome(res: EprMeasureResult, b: EprMeasBasis, m: int, bell: BellState)
    requires res.postProcess && (m == 0 || m == 1)
    requires res.measurementBasisLocal == BasisToRotation(b) && res.measurementBasisRemote == BasisToRotation(b)
    ensures MeasurementOutcome(res, Some(m), Some(BellStateValue(bell))) ==
      Ok(if Anticommutes(PauliError(bell), Axis(b)) then 1 - m else m)
    ensures bell == PhiPlus ==> MeasurementOutcome(res, Some(m), Some(BellStateValue(bell))) == Ok(m)
  {
    BasisRoundTrip(b);
    FlipsIsAnticommutation(bell, b);
    assert BellStateOf(BellStateValue(bell)) == Ok(bell);
  }

  /** `EprKeepResult.bell_state`. */
  function KeepBellState(bellValue: Option<int>): (r: Result<BellState>)
    ensures r.Ok? <==> bellValue.Some? && 0 <= bellValue.value < 4
    ensures r.Ok? ==> BellStateValue(r.value) == bellValue.value
  {
    ResultBellState(bellValue)
  }
}
