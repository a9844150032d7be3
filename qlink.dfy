// The link-layer records of `netqasm/qlink_compat.py`: the enumerations and
// their values, the CREATE request with its defaults, the OK and ERR
// responses, and `get_creator_node_id`. The conversions to and from the
// qlink-interface 1.0 package are not part of this model.

module QLink {
  import opened Wrappers

  datatype EprType = EprK | EprM | EprR

  function EprTypeValue(t: EprType): (v: nat)
    ensures v < 3
  {
    match t
    case EprK => 0
    case EprM => 1
    case EprR => 2
  }

  /** `RequestType`: the three EPR types, then RECV and STOP_RECV. */
  datatype RequestType = ReqK | ReqM | ReqR | ReqRecv | ReqStopRecv

  function RequestTypeValue(t: RequestType): (v: nat)
    ensures v < 5
  {
    match t
    case ReqK => 0
    case ReqM => 1
    case ReqR => 2
    case ReqRecv => 3
    case ReqStopRecv => 4
  }

  /** `RequestType(v)`: the member with value v, or ValueError. */
  function RequestTypeOf(v: int): (r: Result<RequestType>)
    ensures r.Ok? <==> 0 <= v < 5
    ensures r.Ok? ==> RequestTypeValue(r.value) == v
    ensures r.Err? ==> r.error == Raise(ValueError)
  {
    if v == 0 then Ok(ReqK)
    else if v == 1 then Ok(ReqM)
    else if v == 2 then Ok(ReqR)
    else if v == 3 then Ok(ReqRecv)
    else if v == 4 then Ok(ReqStopRecv)
    else Fail(ValueError)
  }

  lemma RequestTypeRoundTrip(t: RequestType)
    ensures RequestTypeOf(RequestTypeValue(t)) == Ok(t)
  {
  }

  /** `ReturnType`: the three OK types, then ERR and CREATE_ID. */
  datatype ReturnType = OkK | OkM | OkR | ReturnErr | CreateId

  function ReturnTypeValue(t: ReturnType): (v: nat)
    ensures v < 5
  {
    match t
    case OkK => 0
    case OkM => 1
    case OkR => 2
    case ReturnErr => 3
    case CreateId => 4
  }

  /** The request and return types of K, M and R reuse the values of the EPR types. */
  lemma TypesShareEprValues()
    ensures RequestTypeValue(ReqK) == EprTypeValue(EprK) == ReturnTypeValue(OkK)
    ensures RequestTypeValue(ReqM) == EprTypeValue(EprM) == ReturnTypeValue(OkM)
    ensures RequestTypeValue(ReqR) == EprTypeValue(EprR) == ReturnTypeValue(OkR)
  {
  }

  /** `RandomBasis`, `Basis` and `BellState` are enumerations numbered from 0. */
  const RANDOM_BASIS_NONE: nat := 0
  const BASIS_Z: nat := 0
  const BASIS_X: nat := 1
  const BASIS_Y: nat := 2

  datatype BellState = PhiPlus | PhiMinus | PsiPlus | PsiMinus

  function BellStateValue(b: BellState): (v: nat)
    ensures v < 4
  {
    match b
    case PhiPlus => 0
    case PhiMinus => 1
    case PsiPlus => 2
    case PsiMinus => 3
  }

  // ---------------------------------------------------------------------
  // LinkLayerCreate

  /** The 22 fields of the `LinkLayerCreate` named tuple, in order. */
  const CREATE_FIELD_NAMES: seq<string> := [
    "remote_node_id", "purpose_id", "type", "number",
    "random_basis_local", "random_basis_remote", "minimum_fidelity",
    "time_unit", "max_time", "priority", "atomic", "consecutive",
    "probability_dist_local1", "probability_dist_local2",
    "probability_dist_remote1", "probability_dist_remote2",
    "rotation_X_local1", "rotation_Y_local", "rotation_X_local2",
    "rotation_X_remote1", "rotation_Y_remote", "rotation_X_remote2"]

  const CREATE_FIELD_COUNT: nat := 22

  /** Position of the `type` field. */
  const CREATE_TYPE_FIELD: nat := 2

  /**
   * The field defaults by value: type K, number 1, both random bases
   * NONE, every other field 0.
   */
  function CreateDefault(k: nat): (v: int)
  {
    if k == 3 then 1 else 0
  }

  /**
   * A CREATE request: its type and the values of the other 21 fields in
   * field order (`others` skips the type field).
   */
  datatype LinkLayerCreate = LinkLayerCreate(requestType: RequestType, others: seq<int>)
  {
    predicate Valid() { |others| == CREATE_FIELD_COUNT - 1 }

    /** Field k by value, the type as its enumeration value. */
    function Field(k: nat): int
      requires Valid() && k < CREATE_FIELD_COUNT
    {
      if k < CREATE_TYPE_FIELD then others[k]
      else if k == CREATE_TYPE_FIELD then RequestTypeValue(requestType)
      else others[k - 1]
    }

    function RemoteNodeId(): int requires Valid() { others[0] }
    function PurposeId(): int requires Valid() { others[1] }
    function Number(): int requires Valid() { others[2] }
  }

  /**
   * The executor's construction of a request from a value list: the list
   * must hold one value per field, a None value takes the field's
   * default, and the type value is converted to a `RequestType`.
   */
  function CreateFromArgs(args: seq<Option<int>>): (r: Result<LinkLayerCreate>)
    ensures |args| != CREATE_FIELD_COUNT ==> r == Fail(ValueError)
    ensures r.Ok? ==> r.value.Valid()
    ensures r.Ok? ==> forall k :: 0 <= k < CREATE_FIELD_COUNT ==>
      r.value.Field(k) == (if args[k].Some? then args[k].value else CreateDefault(k))
    ensures r.Err? ==> r.error == Raise(ValueError)
  {
    if |args| != CREATE_FIELD_COUNT then Fail(ValueError)
    else
      var vals := seq(CREATE_FIELD_COUNT, k requires 0 <= k < CREATE_FIELD_COUNT =>
        if args[k].Some? then args[k].value else CreateDefault(k));
      var t :- RequestTypeOf(vals[CREATE_TYPE_FIELD]);
      Ok(LinkLayerCreate(t, vals[..CREATE_TYPE_FIELD] + vals[CREATE_TYPE_FIELD + 1..]))
  }

  /** The all-default request: type K and number 1. */
  lemma CreateDefaults()
    ensures var r := CreateFromArgs(seq(CREATE_FIELD_COUNT, _ => None));
      r.Ok? && r.value.requestType == ReqK && r.value.Number() == 1 &&
      forall k :: 0 <= k < CREATE_FIELD_COUNT && k != 3 ==> r.value.Field(k) == 0
  {
    var r := CreateFromArgs(seq(CREATE_FIELD_COUNT, _ => None));
    assert r.Ok?;
    assert r.value.Field(3) == 1;
  }

  // ---------------------------------------------------------------------
  // Responses

  /** The number of fields of the OK records of type K and M, and of a create request less its first two. */
  const OK_FIELDS_K: nat := 10
  const OK_FIELDS_M: nat := 10
  const CREATE_FIELDS: nat := CREATE_FIELD_COUNT - 2

  /**
   * The link-layer responses. Each carries its own `type` (OK_K, OK_M,
   * OK_R or ERR), so the type field is the constructor.
   */
  datatype Response =
    | OkTypeK(createId: int, logicalQubitId: int, directionalityFlag: int, sequenceNumber: int,
              purposeId: int, remoteNodeId: int, goodness: int, goodnessTime: int, bellState: int)
    | OkTypeM(createId: int, measurementOutcome: int, measurementBasis: int, directionalityFlag: int,
              sequenceNumber: int, purposeId: int, remoteNodeId: int, goodness: int, bellState: int)
    | OkTypeR(createId: int, measurementOutcome: int, directionalityFlag: int, sequenceNumber: int,
              purposeId: int, remoteNodeId: int, goodness: int, bellState: int)
    | ErrResponse(createId: int, errorCode: int, useSequenceNumberRange: int,
                  sequenceNumberLow: int, sequenceNumberHigh: int, originNodeId: int)

  function ResponseType(r: Response): ReturnType
  {
    match r
    case OkTypeK(_, _, _, _, _, _, _, _, _) => OkK
    case OkTypeM(_, _, _, _, _, _, _, _, _) => OkM
    case OkTypeR(_, _, _, _, _, _, _, _) => OkR
    case ErrResponse(_, _, _, _, _, _) => ReturnErr
  }

  /** The record's values in field order, enumeration members by value (the executor's `ent_info`). */
  function ResponseValues(r: Response): (vs: seq<int>)
    ensures |vs| > 0 && vs[0] == ReturnTypeValue(ResponseType(r))
    ensures r.OkTypeK? ==> |vs| == OK_FIELDS_K
    ensures r.OkTypeM? ==> |vs| == OK_FIELDS_M
  {
    var t := ReturnTypeValue(ResponseType(r));
    match r
    case OkTypeK(c, q, d, s, p, n, g, gt, b) => [t, c, q, d, s, p, n, g, gt, b]
    case OkTypeM(c, o, mb, d, s, p, n, g, b) => [t, c, o, mb, d, s, p, n, g, b]
    case OkTypeR(c, o, d, s, p, n, g, b) => [t, c, o, d, s, p, n, g, b]
    case ErrResponse(c, e, u, lo, hi, on) => [t, c, e, u, lo, hi, on]
  }

  /**
   * `get_creator_node_id(local, response)`: the remote node when the
   * directionality flag is 1, else the local node.
   */
  function CreatorNodeId(localNodeId: int, r: Response): (id: int)
    requires !r.ErrResponse?
    ensures r.directionalityFlag == 1 ==> id == r.remoteNodeId
    ensures r.directionalityFlag != 1 ==> id == localNodeId
  {
    if r.directionalityFlag == 1 then r.remoteNodeId else localNodeId
  }
}
