// `netqasm/sdk/epr_socket.py`: an EPR socket names a remote application
// and the socket ids on both sides, and turns each create or receive call
// into the entanglement-request parameters it hands to its connection's
// builder. The builder's `sdk_*` routines are not part of this model: a
// call is modelled by the routine it reaches and the parameters it
// passes. The connection is reduced to its node-id table.

module EprSockets {
  import opened Wrappers
  import opened QLink
  import opened Connection
  import opened BuildEpr

  /** The builder routine a socket call reaches. */
  datatype Routine =
    | CreateKeep | CreateMeasure | CreateRsp
    | RecvKeep | RecvMeasure | RecvRsp

  /** A builder call: the routine and the request it is given. */
  datatype BuilderCall = BuilderCall(routine: Routine, params: EntRequestParams)

  /** `_get_rotations_from_basis`. */
  function GetRotationsFromBasis(b: EprMeasBasis): (rot: Rotations)
    ensures rot == BasisToRotation(b)
  {
    match b
    case X => (0, 24, 0)
    case Y => (8, 0, 0)
    case Z => (0, 0, 0)
    case MX => (0, 8, 0)
    case MY => (24, 0, 0)
    case MZ => (16, 0, 0)
  }

  /** The basis when one is given, else the explicit rotations. */
  function RotationsOf(basis: Option<EprMeasBasis>, rotations: Rotations): (rot: Rotations)
    ensures basis.Some? ==> rot == BasisToRotation(basis.value)
    ensures basis.None? ==> rot == rotations
  {
    if basis.Some? then GetRotationsFromBasis(basis.value) else rotations
  }

  class EprSocket {
    /** `_conn`, as the node-id table of its network info. */
    var conn: Option<NodeIds>
    const remoteAppName: string
    /** `_remote_node_id`: set when a connection is set. */
    var remoteNodeIdField: Option<int>
    const eprSocketId: int
    const remoteEprSocketId: int
    const minFidelity: int

    constructor (remoteAppName: string, eprSocketId: int, remoteEprSocketId: int, minFidelity: int)
      requires 0 <= minFidelity <= 100
      ensures conn.None? && remoteNodeIdField.None?
      ensures this.remoteAppName == remoteAppName && this.eprSocketId == eprSocketId
      ensures this.remoteEprSocketId == remoteEprSocketId && this.minFidelity == minFidelity
    {
      this.conn := None;
      this.remoteAppName := remoteAppName;
      this.remoteNodeIdField := None;
      this.eprSocketId := eprSocketId;
      this.remoteEprSocketId := remoteEprSocketId;
      this.minFidelity := minFidelity;
    }

    /** The `conn` property: RuntimeError while no connection is set. */
    function Conn(): (r: Result<NodeIds>)
      reads this
      ensures r.Ok? <==> conn.Some?
      ensures r.Ok? ==> r.value == conn.value
      ensures r.Err? ==> r.error == Raise(RuntimeError)
    {
      if conn.None? then Fail(RuntimeError) else Ok(conn.value)
    }

    /**
     * The `conn` setter: the connection is kept, then the remote
     * application's node id is looked up; an unknown application raises
     * ValueError after the connection is set.
     */
    method SetConn(nodes: NodeIds) returns (r: Result<Unit>)
      modifies this
      ensures conn == Some(nodes)
      ensures var id := GetNodeIdForApp(nodes, remoteAppName);
        (id.Ok? ==> r == Ok(Unit) && remoteNodeIdField == Some(id.value)) &&
        (id.Err? ==> r == Err(id.error) && remoteNodeIdField == old(remoteNodeIdField))
    {
      conn := Some(nodes);
      var id := GetNodeIdForApp(nodes, remoteAppName);
      if id.Err? {
        return Err(id.error);
      }
      remoteNodeIdField := Some(id.value);
      r := Ok(Unit);
    }

    /** The `remote_node_id` property: RuntimeError until a connection set it. */
    function RemoteNodeId(): (r: Result<int>)
      reads this
      ensures r.Ok? <==> remoteNodeIdField.Some?
      ensures r.Ok? ==> r.value == remoteNodeIdField.value
      ensures r.Err? ==> r.error == Raise(RuntimeError)
    {
      if remoteNodeIdField.None? then Fail(RuntimeError) else Ok(remoteNodeIdField.value)
    }

    /**
     * The call every socket operation makes: the connection is needed
     * first, then the remote node id, which heads the request together
     * with the local socket id.
     */
    function Call(routine: Routine, number: int, sequential: bool, timeUnit: TimeUnit, maxTime: int,
                  minFidelityAllAtEnd: Option<int>, maxTries: Option<int>,
                  randomBasisLocal: Option<RandomBasis>, randomBasisRemote: Option<RandomBasis>,
                  rotationsLocal: Rotations, rotationsRemote: Rotations): (r: Result<BuilderCall>)
      reads this
      ensures conn.None? ==> r == Fail(RuntimeError)
      ensures conn.Some? && remoteNodeIdField.None? ==> r == Fail(RuntimeError)
      ensures r.Ok? <==> conn.Some? && remoteNodeIdField.Some?
      ensures r.Ok? ==> (r.value.routine == routine &&
        r.value.params == EntRequestParams(remoteNodeIdField.value, eprSocketId, number, sequential, timeUnit,
          maxTime, true, minFidelityAllAtEnd, maxTries, randomBasisLocal, randomBasisRemote,
          rotationsLocal, rotationsRemote))
    {
      var _ :- Conn();
      var remote :- RemoteNodeId();
      Ok(BuilderCall(routine, EntRequestParams(remote, eprSocketId, number, sequential, timeUnit, maxTime, true,
        minFidelityAllAtEnd, maxTries, randomBasisLocal, randomBasisRemote, rotationsLocal, rotationsRemote)))
    }

    /** `create_keep` (and `create_keep_with_info`, which passes no `max_tries`). */
    function CreateKeepCall(number: int, sequential: bool, timeUnit: TimeUnit, maxTime: int,
                            minFidelityAllAtEnd: Option<int>, maxTries: Option<int>): (r: Result<BuilderCall>)
      reads this
      ensures r == Call(CreateKeep, number, sequential, timeUnit, maxTime, minFidelityAllAtEnd, maxTries,
                        None, None, (0, 0, 0), (0, 0, 0))
    {
      Call(CreateKeep, number, sequential, timeUnit, maxTime, minFidelityAllAtEnd, maxTries, None, None, (0, 0, 0), (0, 0, 0))
    }

    /**
     * `create_measure`: never sequential; a basis given for either side
     * replaces that side's rotations.
     */
    function CreateMeasureCall(number: int, timeUnit: TimeUnit, maxTime: int,
                               basisLocal: Option<EprMeasBasis>, basisRemote: Option<EprMeasBasis>,
                               rotationsLocal: Rotations, rotationsRemote: Rotations,
                               randomBasisLocal: Option<RandomBasis>, randomBasisRemote: Option<RandomBasis>)
      : (r: Result<BuilderCall>)
      reads this
      ensures r.Ok? <==> conn.Some? && remoteNodeIdField.Some?
      ensures r.Ok? ==> r.value.routine == CreateMeasure && !r.value.params.sequential
      ensures r.Ok? && basisLocal.Some? ==> r.value.params.rotationsLocal == BasisToRotation(basisLocal.value)
      ensures r.Ok? && basisRemote.Some? ==> r.value.params.rotationsRemote == BasisToRotation(basisRemote.value)
      ensures r.Ok? && basisLocal.None? ==> r.value.params.rotationsLocal == rotationsLocal
      ensures r.Ok? && basisRemote.None? ==> r.value.params.rotationsRemote == rotationsRemote
      ensures r.Ok? ==> r.value.params.randomBasisLocal == randomBasisLocal && r.value.params.randomBasisRemote == randomBasisRemote
    {
      Call(CreateMeasure, number, false, timeUnit, maxTime, None, None, randomBasisLocal, randomBasisRemote,
           RotationsOf(basisLocal, rotationsLocal), RotationsOf(basisRemote, rotationsRemote))
    }

    /**
     * `create_rsp`: never sequential; only the local side is chosen, and a
     * basis replaces the local rotations.
     */
    function CreateRspCall(number: int, timeUnit: TimeUnit, maxTime: int, basisLocal: Option<EprMeasBasis>,
                           rotationsLocal: Rotations, randomBasisLocal: Option<RandomBasis>,
                           minFidelityAllAtEnd: Option<int>): (r: Result<BuilderCall>)
      reads this
      ensures r.Ok? <==> conn.Some? && remoteNodeIdField.Some?
      ensures r.Ok? ==> r.value.routine == CreateRsp && !r.value.params.sequential
      ensures r.Ok? ==> r.value.params.rotationsLocal == RotationsOf(basisLocal, rotationsLocal)
      ensures r.Ok? ==> r.value.params.rotationsRemote == (0, 0, 0) && r.value.params.randomBasisRemote.None?
    {
      Call(CreateRsp, number, false, timeUnit, maxTime, minFidelityAllAtEnd, None, randomBasisLocal, None,
           RotationsOf(basisLocal, rotationsLocal), (0, 0, 0))
    }

    /** `recv_keep` (and `recv_keep_with_info`): the default time unit and no maximum time. */
    function RecvKeepCall(number: int, sequential: bool, minFidelityAllAtEnd: Option<int>, maxTries: Option<int>)
      : (r: Result<BuilderCall>)
      reads this
      ensures r == Call(RecvKeep, number, sequential, MicroSeconds, 0, minFidelityAllAtEnd, maxTries, None, None, (0, 0, 0), (0, 0, 0))
    {
      Call(RecvKeep, number, sequential, MicroSeconds, 0, minFidelityAllAtEnd, maxTries, None, None, (0, 0, 0), (0, 0, 0))
    }

    /** `recv_measure`: the bases are the creator's to choose. */
    function RecvMeasureCall(number: int): (r: Result<BuilderCall>)
      reads this
      ensures r.Ok? ==> (r.value.routine == RecvMeasure && r.value.params.rotationsLocal == (0, 0, 0) &&
        r.value.params.rotationsRemote == (0, 0, 0) && !r.value.params.sequential)
      ensures r == Call(RecvMeasure, number, false, MicroSeconds, 0, None, None, None, None, (0, 0, 0), (0, 0, 0))
    {
      Call(RecvMeasure, number, false, MicroSeconds, 0, None, None, None, None, (0, 0, 0), (0, 0, 0))
    }

    /** `recv_rsp` (and `recv_rsp_with_info`). */
    function RecvRspCall(number: int, minFidelityAllAtEnd: Option<int>, maxTries: Option<int>): (r: Result<BuilderCall>)
      reads this
      ensures r == Call(RecvRsp, number, false, MicroSeconds, 0, minFidelityAllAtEnd, maxTries, None, None, (0, 0, 0), (0, 0, 0))
    {
      Call(RecvRsp, number, false, MicroSeconds, 0, minFidelityAllAtEnd, maxTries, None, None, (0, 0, 0), (0, 0, 0))
    }

    /**
     * The deprecated `create`: K goes to `create_keep`, M to
     * `create_measure` and R to `create_rsp`, which is given the local
     * basis and random basis but not the local rotations.
     */
    function CreateCall(number: int, sequential: bool, tp: EprType, timeUnit: TimeUnit, maxTime: int,
                        basisLocal: Option<EprMeasBasis>, basisRemote: Option<EprMeasBasis>,
                        rotationsLocal: Rotations, rotationsRemote: Rotations,
                        randomBasisLocal: Option<RandomBasis>, randomBasisRemote: Option<RandomBasis>)
      : (r: Result<BuilderCall>)
      reads this
      ensures r.Ok? <==> conn.Some? && remoteNodeIdField.Some?
      ensures r.Ok? ==> r.value.routine == (match tp case EprK => CreateKeep case EprM => CreateMeasure case EprR => CreateRsp)
      ensures tp == EprK ==> r == CreateKeepCall(number, sequential, timeUnit, maxTime, None, None)
      ensures tp == EprM ==> r == CreateMeasureCall(number, timeUnit, maxTime, basisLocal, basisRemote,
                                                    rotationsLocal, rotationsRemote, randomBasisLocal, randomBasisRemote)
      ensures tp == EprR ==> r == CreateRspCall(number, timeUnit, maxTime, basisLocal, (0, 0, 0), randomBasisLocal, None)
    {
      match tp
      case EprK => CreateKeepCall(number, sequential, timeUnit, maxTime, None, None)
      case EprM => CreateMeasureCall(number, timeUnit, maxTime, basisLocal, basisRemote,
                                     rotationsLocal, rotationsRemote, randomBasisLocal, randomBasisRemote)
      case EprR => CreateRspCall(number, timeUnit, maxTime, basisLocal, (0, 0, 0), randomBasisLocal, None)
    }

    /** The deprecated `recv`: K goes to `recv_keep`, M to `recv_measure` and R to `recv_rsp`. */
    function RecvCall(number: int, sequential: bool, tp: EprType): (r: Result<BuilderCall>)
      reads this
      ensures r.Ok? <==> conn.Some? && remoteNodeIdField.Some?
      ensures r.Ok? ==> r.value.routine == (match tp case EprK => RecvKeep case EprM => RecvMeasure case EprR => RecvRsp)
      ensures tp == EprK ==> r == RecvKeepCall(number, sequential, None, None)
      ensures tp == EprM ==> r == RecvMeasureCall(number)
      ensures tp == EprR ==> r == RecvRspCall(number, None, None)
    {
      match tp
      case EprK => RecvKeepCall(number, sequential, None, None)
      case EprM => RecvMeasureCall(number)
      case EprR => RecvRspCall(number, None, None)
    }
  }

  /**
   * `EPRSocket(remote_app_name, epr_socket_id, remote_epr_socket_id,
   * min_fidelity)`: ValueError unless the minimum fidelity is a
   * percentage.
   */
  method NewEprSocket(remoteAppName: string, eprSocketId: int, remoteEprSocketId: int, minFidelity: int)
    returns (r: Result<EprSocket>)
    ensures r.Ok? <==> 0 <= minFidelity <= 100
    ensures r.Err? ==> r.error == Raise(ValueError)
    ensures r.Ok? ==> (fresh(r.value) && r.value.conn.None? && r.value.remoteNodeIdField.None? &&
      r.value.remoteAppName == remoteAppName && r.value.minFidelity == minFidelity &&
      r.value.eprSocketId == eprSocketId && r.value.remoteEprSocketId == remoteEprSocketId)
  {
    if minFidelity < 0 || minFidelity > 100 {
      return Fail(ValueError);
    }
    var s := new EprSocket(remoteAppName, eprSocketId, remoteEprSocketId, minFidelity);
    r := Ok(s);
  }

  /**
   * A measured request made with a basis other than Z carries that basis's
   * rotations in the serialised request, and they read back as the basis.
   */
  lemma MeasureBasisSerialized(s: EprSocket, number: int, timeUnit: TimeUnit, maxTime: int, b: EprMeasBasis,
                               rotationsLocal: Rotations)
    requires s.conn.Some? && s.remoteNodeIdField.Some? && b != Z
    ensures var c := s.CreateMeasureCall(number, timeUnit, maxTime, Some(b), None, rotationsLocal, (0, 0, 0), None, None);
      c.Ok? && var a := SerializeRequest(EprM, c.value.params);
      a[SER_CREATE_IDX_ROTATION_X_LOCAL1].Some? && a[SER_CREATE_IDX_ROTATION_Y_LOCAL].Some? &&
      a[SER_CREATE_IDX_ROTATION_X_LOCAL2].Some? &&
      RotationToBasis((a[SER_CREATE_IDX_ROTATION_X_LOCAL1].value, a[SER_CREATE_IDX_ROTATION_Y_LOCAL].value,
                       a[SER_CREATE_IDX_ROTATION_X_LOCAL2].value)) == Some(b)
  {
    var c := s.CreateMeasureCall(number, timeUnit, maxTime, Some(b), None, rotationsLocal, (0, 0, 0), None, None);
    var rot := BasisToRotation(b);
    assert c.value.params.rotationsLocal == rot;
    assert rot != (0, 0, 0);
    BasisRoundTrip(b);
  }
}
