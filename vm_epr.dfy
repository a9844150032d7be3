// The entanglement responses of `netqasm/backend/executor.py`: the
// responses the network stack delivers are kept in a pending list and
// handled one at a time, each matched to the oldest request with its
// remote node and purpose; the pair's information goes into the request's
// results array, and the request leaves its queue with its last pair.

module VmEpr {
  import opened Wrappers
  import opened Operand
  import opened Memory
  import opened QLink
  import opened Vm
  import opened VmProps
  import opened Seqs

  /** The request table a response is matched against: create requests when this node created the pair. */
  function Requests(m: Machine, isCreator: bool): map<RequestKey, seq<EprCmdData>>
  {
    if isCreator then m.createRequests else m.recvRequests
  }

  /** The machine with one of its two request tables replaced. */
  function WithRequests(m: Machine, isCreator: bool, t: map<RequestKey, seq<EprCmdData>>): (m': Machine)
    ensures Requests(m', isCreator) == t && Requests(m', !isCreator) == Requests(m, !isCreator)
    ensures m' == m.(createRequests := m'.createRequests, recvRequests := m'.recvRequests)
  {
    if isCreator then m.(createRequests := t) else m.(recvRequests := t)
  }

  /** What `_extract_epr_info` finds for a response: the request, the pair's index, the table and the key. */
  datatype EprInfo = EprInfo(data: EprCmdData, pairIndex: int, isCreator: bool, key: RequestKey)

  /** The key a response belongs to: its remote node and its purpose. */
  function KeyOf(r: Response): RequestKey
    requires !r.ErrResponse?
  {
    (r.remoteNodeId, r.purposeId)
  }

  /** Whether this node created the pair of a response. */
  predicate IsCreator(cfg: Config, r: Response)
    requires !r.ErrResponse?
  {
    CreatorNodeId(cfg.nodeId, r) == cfg.nodeId
  }

  /**
   * `_extract_epr_info`: nothing while no request of the response's key is
   * queued; otherwise the oldest such request, and as the pair's index the
   * number of its pairs already handled.
   */
  function ExtractInfo(cfg: Config, m: Machine, r: Response): (info: Option<EprInfo>)
    requires !r.ErrResponse?
    ensures info.None? <==> Queue(Requests(m, IsCreator(cfg, r)), KeyOf(r)) == []
    ensures info.Some? ==> (
      var q := Queue(Requests(m, IsCreator(cfg, r)), KeyOf(r));
      info.value.data == q[0] && info.value.isCreator == IsCreator(cfg, r) && info.value.key == KeyOf(r) &&
      info.value.pairIndex == q[0].totPairs - q[0].pairsLeft)
  {
    var creator := IsCreator(cfg, r);
    var q := Queue(Requests(m, creator), KeyOf(r));
    if q == [] then None
    else Some(EprInfo(q[0], q[0].totPairs - q[0].pairsLeft, creator, KeyOf(r)))
  }

  /**
   * `_get_virtual_address_from_epr_data`: entry `pairIndex` of the
   * request's qubit array. The address text "@None[..]" of a request
   * without a qubit array does not parse (NetQASMSyntaxError), and an
   * undefined entry raises RuntimeError.
   */
  function VirtualAddress(hw: bool, m: Machine, app: int, d: EprCmdData, pairIndex: int): (r: Result<int>)
    ensures d.qArrayAddress.None? ==> r == Fail(SyntaxError)
    ensures r.Ok? ==> (d.qArrayAddress.Some? &&
      GetArrayEntry(hw, m, app, ArrayEntry(Address(d.qArrayAddress.value), IInt(pairIndex))) == Ok(Some(r.value)))
  {
    if d.qArrayAddress.None? then Fail(SyntaxError)
    else
      var v :- GetArrayEntry(hw, m, app, ArrayEntry(Address(d.qArrayAddress.value), IInt(pairIndex)));
      Defined(v, RuntimeError)
  }

  /** `_has_virtual_address`: the application has a unit module and the (non-negative) slot is mapped. */
  predicate HasVirtualAddress(m: Machine, app: int, va: int)
  {
    app in m.unitModules && 0 <= va < |m.unitModules[app]| && m.unitModules[app][va].Some?
  }

  /**
   * `_handle_epr_ok_k_response`: the pair waits (Blocked) while its virtual
   * qubit is still mapped; otherwise the response's physical qubit is
   * marked used and then mapped to the virtual qubit.
   */
  function HandleOkK(cfg: Config, m: Machine, d: EprCmdData, r: Response, pairIndex: int): (o: Outcome)
    requires r.OkTypeK?
    ensures o.Next? ==> (
      AppOf(m, d.subroutineId).Ok? &&
      var va := VirtualAddress(cfg.hw, m, AppOf(m, d.subroutineId).value, d, pairIndex);
      va.Ok? && !HasVirtualAddress(m, AppOf(m, d.subroutineId).value, va.value) &&
      var m1 := m.(usedPhysical := m.usedPhysical + {r.logicalQubitId});
      AllocatePhysical(m1, d.subroutineId, va.value, Some(r.logicalQubitId)) == Ok(o.m))
    ensures o.Blocked? ==> (
      AppOf(m, d.subroutineId).Ok? &&
      var va := VirtualAddress(cfg.hw, m, AppOf(m, d.subroutineId).value, d, pairIndex);
      va.Ok? && HasVirtualAddress(m, AppOf(m, d.subroutineId).value, va.value))
    ensures !o.Blocked? ==> (SameControl(m, o.m) && o.m.pending == m.pending &&
      o.m.createRequests == m.createRequests && o.m.recvRequests == m.recvRequests)
  {
    var app := AppOf(m, d.subroutineId);
    if app.Err? then Fault(app.error, m)
    else
      var va := VirtualAddress(cfg.hw, m, app.value, d, pairIndex);
      if va.Err? then Fault(va.error, m)
      else if HasVirtualAddress(m, app.value, va.value) then Blocked
      else
        var m1 := m.(usedPhysical := m.usedPhysical + {r.logicalQubitId});
        match AllocatePhysical(m1, d.subroutineId, va.value, Some(r.logicalQubitId))
        case Ok(m2) => Next(m2)
        case Err(e) => Fault(e, m1)
  }

  /**
   * The handler of an OK response: OK_K as above; OK_M is always handled;
   * the OK_R handler is called with keyword arguments it does not take
   * (TypeError).
   */
  function HandleOk(cfg: Config, m: Machine, d: EprCmdData, r: Response, pairIndex: int): (o: Outcome)
    requires !r.ErrResponse?
    ensures r.OkTypeM? ==> o == Next(m)
    ensures r.OkTypeR? ==> o == Fault(Raise(TypeError), m)
    ensures r.OkTypeK? ==> o == HandleOkK(cfg, m, d, r, pairIndex)
    ensures !o.Blocked? ==> (SameControl(m, o.m) && o.m.pending == m.pending &&
      o.m.createRequests == m.createRequests && o.m.recvRequests == m.recvRequests)
  {
    if r.OkTypeK? then HandleOkK(cfg, m, d, r, pairIndex)
    else if r.OkTypeM? then Next(m)
    else Fault(Raise(TypeError), m)
  }

  /** A queue after one more pair of its head request: the head leaves with its last pair. */
  function AfterPair(q: seq<EprCmdData>): (q': seq<EprCmdData>)
    requires q != []
    ensures |q'| == |q| - 1 <==> q[0].pairsLeft == 1
    ensures q[0].pairsLeft == 1 ==> q' == q[1..]
    ensures q[0].pairsLeft != 1 ==> q' == [q[0].(pairsLeft := q[0].pairsLeft - 1)] + q[1..]
  {
    var d := q[0].(pairsLeft := q[0].pairsLeft - 1);
    if d.pairsLeft == 0 then q[1..] else [d] + q[1..]
  }

  /** The values of a record as array entries. */
  function AsEntries(vs: seq<int>): (es: seq<Option<int>>)
    ensures |es| == |vs| && forall k :: 0 <= k < |vs| ==> es[k] == Some(vs[k])
  {
    seq(|vs|, k requires 0 <= k < |vs| => Some(vs[k]))
  }

  /**
   * `_store_ent_info`: pair `i`'s record goes into positions
   * `[i * OK_FIELDS, (i + 1) * OK_FIELDS)` of the request's results array.
   */
  function StoreEntInfo(hw: bool, m: Machine, d: EprCmdData, r: Response, pairIndex: int): (res: Result<Machine>)
    ensures res.Ok? ==> (
      AppOf(m, d.subroutineId).Ok? && AppOf(m, d.subroutineId).value in m.appArrays &&
      var app := AppOf(m, d.subroutineId).value;
      var st' := ArraysSetSlice(hw, m.appArrays[app], d.resultsAddress, Some(pairIndex * OK_FIELDS_K),
                                Some((pairIndex + 1) * OK_FIELDS_K), AsEntries(ResponseValues(r)));
      st'.Ok? && res.value == m.(appArrays := m.appArrays[app := st'.value]))
  {
    var app :- AppOf(m, d.subroutineId);
    if app !in m.appArrays then Fail(KeyError)
    else
      var st' :- ArraysSetSlice(hw, m.appArrays[app], d.resultsAddress, Some(pairIndex * OK_FIELDS_K),
                                Some((pairIndex + 1) * OK_FIELDS_K), AsEntries(ResponseValues(r)));
      Ok(m.(appArrays := m.appArrays[app := st']))
  }

  /**
   * A handled pair: the request counts one pair less (in place, at the head
   * of its queue), leaves the queue if that was its last pair, and the
   * pair's record is stored.
   */
  function Complete(cfg: Config, m: Machine, info: EprInfo, r: Response): (o: Outcome)
    requires Queue(Requests(m, info.isCreator), info.key) != []
  {
    var t := Requests(m, info.isCreator);
    var m1 := WithRequests(m, info.isCreator, t[info.key := AfterPair(Queue(t, info.key))]);
    Lift(m1, StoreEntInfo(cfg.hw, m1, info.data, r, info.pairIndex))
  }

  /**
   * One response of the pending list: an ERR response raises RuntimeError;
   * an OK response without a matching request, or one its handler declines,
   * is skipped (Blocked); otherwise the pair is completed.
   */
  function TryResponse(cfg: Config, m: Machine, r: Response): (o: Outcome)
    ensures r.ErrResponse? ==> o == Fault(Raise(RuntimeError), m)
    ensures !r.ErrResponse? && ExtractInfo(cfg, m, r).None? ==> o == Blocked
    ensures o.Next? ==> o.m.pending == m.pending
  {
    if r.ErrResponse? then Fault(Raise(RuntimeError), m)
    else
      var info := ExtractInfo(cfg, m, r);
      if info.None? then Blocked
      else
        var h := HandleOk(cfg, m, info.value.data, r, info.value.pairIndex);
        if h.Next? then Complete(cfg, h.m, info.value, r) else h
  }

  /** How one pass over the pending responses ends. */
  datatype PassResult =
    | HandledAt(index: nat, m: Machine)
    | NoneHandled
    | PassFault(index: nat, error: Error, m: Machine)

  /** Every pending response in `[i, j)` is skipped. */
  predicate SkippedFrom(cfg: Config, m: Machine, i: nat, j: nat)
    requires j <= |m.pending|
  {
    forall k :: i <= k < j ==> TryResponse(cfg, m, m.pending[k]).Blocked?
  }

  /**
   * What a pass from position `i` means: no response handled when all of
   * them skip; otherwise the first one that does not skip either is
   * handled, and removed from the list, or raises.
   */
  ghost predicate PassMeaning(cfg: Config, m: Machine, i: nat, p: PassResult)
    requires i <= |m.pending|
  {
    (p.NoneHandled? ==> SkippedFrom(cfg, m, i, |m.pending|)) &&
    (p.HandledAt? ==> (
      i <= p.index < |m.pending| && SkippedFrom(cfg, m, i, p.index) &&
      var o := TryResponse(cfg, m, m.pending[p.index]);
      o.Next? && p.m == o.m.(pending := m.pending[..p.index] + m.pending[p.index + 1..]))) &&
    (p.PassFault? ==> (
      i <= p.index < |m.pending| && SkippedFrom(cfg, m, i, p.index) &&
      TryResponse(cfg, m, m.pending[p.index]) == Fault(p.error, p.m)))
  }

  /**
   * The `for` loop of `_handle_pending_epr_responses` from position `i`:
   * the first response that does not skip is handled and removed from the
   * list, or its exception stops the pass.
   */
  function PassFrom(cfg: Config, m: Machine, i: nat): (p: PassResult)
    requires i <= |m.pending|
    ensures PassMeaning(cfg, m, i, p)
    decreases |m.pending| - i
  {
    if i == |m.pending| then NoneHandled
    else
      match TryResponse(cfg, m, m.pending[i])
      case Next(m') => HandledAt(i, m'.(pending := m.pending[..i] + m.pending[i + 1..]))
      case Blocked =>
        var p := PassFrom(cfg, m, i + 1);
        SkippedOneMore(cfg, m, i, if p.NoneHandled? then |m.pending| else p.index);
        p
      case Fault(e, m') => PassFault(i, e, m')
  }

  /** A skipped response in front of a skipped range extends it by one. */
  lemma SkippedOneMore(cfg: Config, m: Machine, i: nat, j: nat)
    requires i < j <= |m.pending| && TryResponse(cfg, m, m.pending[i]).Blocked? && SkippedFrom(cfg, m, i + 1, j)
    ensures SkippedFrom(cfg, m, i, j)
  {
  }

  /** How handling the pending responses ends. */
  datatype Drain = Drained(m: Machine) | Stuck(m: Machine) | DrainFault(error: Error, m: Machine)

  /**
   * `_handle_pending_epr_responses`: passes are repeated while one handles
   * a response. When a pass handles none the executor waits and tries
   * again (`_wait_to_handle_epr_responses`); the model stops there.
   */
  function HandlePending(cfg: Config, m: Machine): (d: Drain)
    ensures d.Drained? ==> d.m.pending == []
    ensures d.Stuck? ==> d.m.pending != [] && SkippedFrom(cfg, d.m, 0, |d.m.pending|)
    decreases |m.pending|
  {
    if |m.pending| == 0 then Drained(m)
    else
      match PassFrom(cfg, m, 0)
      case HandledAt(_, m') => HandlePending(cfg, m')
      case NoneHandled => Stuck(m)
      case PassFault(_, e, m') => DrainFault(e, m')
  }

  /** `_handle_epr_response`: the response is appended to the pending list, which is then handled. */
  function HandleEprResponse(cfg: Config, m: Machine, r: Response): (d: Drain)
  {
    HandlePending(cfg, m.(pending := m.pending + [r]))
  }

  // ---------------------------------------------------------------------
  // Properties

  /** An ERR response at the head of the pending list raises RuntimeError with the state unchanged. */
  lemma ErrResponseRaises(cfg: Config, m: Machine)
    requires m.pending != [] && m.pending[0].ErrResponse?
    ensures HandlePending(cfg, m) == DrainFault(Raise(RuntimeError), m)
  {
  }

  /**
   * A completed pair leaves its request at the head of its queue with one
   * pair less, or removes it when that was its last pair; every other
   * queue is as it was.
   */
  lemma CompleteDequeues(cfg: Config, m: Machine, info: EprInfo, r: Response)
    requires Queue(Requests(m, info.isCreator), info.key) != []
    requires Complete(cfg, m, info, r).Next?
    ensures var m' := Complete(cfg, m, info, r).m;
      var q := Queue(Requests(m, info.isCreator), info.key);
      var q' := Queue(Requests(m', info.isCreator), info.key);
      (|q'| == |q| - 1 <==> q[0].pairsLeft == 1) &&
      (q[0].pairsLeft == 1 ==> q' == q[1..]) &&
      (q[0].pairsLeft != 1 ==> q'[0].pairsLeft == q[0].pairsLeft - 1 && q'[1..] == q[1..]) &&
      Requests(m', !info.isCreator) == Requests(m, !info.isCreator) &&
      forall k :: k != info.key ==> Queue(Requests(m', info.isCreator), k) == Queue(Requests(m, info.isCreator), k)
  {
    var t := Requests(m, info.isCreator);
    var q := Queue(t, info.key);
    var m1 := WithRequests(m, info.isCreator, t[info.key := AfterPair(q)]);
    assert Complete(cfg, m, info, r).m == StoreEntInfo(cfg.hw, m1, info.data, r, info.pairIndex).value;
  }

  /**
   * A completed pair's record fills positions `[i * 10, (i + 1) * 10)` of
   * the results array; every other position and every other array is as
   * it was.
   */
  lemma CompleteStores(cfg: Config, m: Machine, info: EprInfo, r: Response, b: int, k: int)
    requires Queue(Requests(m, info.isCreator), info.key) != []
    requires Complete(cfg, m, info, r).Next?
    requires 0 <= info.pairIndex
    ensures var m' := Complete(cfg, m, info, r).m;
      var app := m.subroutines[info.data.subroutineId].appId;
      var a := info.data.resultsAddress;
      var lo := info.pairIndex * OK_FIELDS_K;
      info.data.subroutineId in m.subroutines && app in m.appArrays && a in m.appArrays[app] &&
      (lo + OK_FIELDS_K <= |m.appArrays[app][a]| ==> |ResponseValues(r)| == OK_FIELDS_K) &&
      m'.appArrays.Keys == m.appArrays.Keys && m'.appArrays[app].Keys == m.appArrays[app].Keys &&
      |m'.appArrays[app][a]| == |m.appArrays[app][a]| &&
      (b != a && b in m.appArrays[app] ==> m'.appArrays[app][b] == m.appArrays[app][b]) &&
      (lo + OK_FIELDS_K <= |m.appArrays[app][a]| && 0 <= k < |m.appArrays[app][a]| ==>
        m'.appArrays[app][a][k] == if lo <= k < lo + OK_FIELDS_K then Some(ResponseValues(r)[k - lo]) else m.appArrays[app][a][k])
  {
    var t := Requests(m, info.isCreator);
    var m1 := WithRequests(m, info.isCreator, t[info.key := AfterPair(Queue(t, info.key))]);
    var app := m.subroutines[info.data.subroutineId].appId;
    var a := info.data.resultsAddress;
    var lo := info.pairIndex * OK_FIELDS_K;
    var vs := AsEntries(ResponseValues(r));
    SetSliceFrame(cfg.hw, m.appArrays[app], a, Some(lo), Some(lo + OK_FIELDS_K), vs, b, k);
    if lo + OK_FIELDS_K <= |m.appArrays[app][a]| {
      SliceRangeInBounds(|m.appArrays[app][a]|, lo, lo + OK_FIELDS_K);
    }
  }

  /**
   * Pairs of one request are numbered in order: after a pair that was not
   * the request's last, the next response of the same key and direction
   * is matched to the same request as the following pair.
   */
  lemma NextPairIndex(cfg: Config, m: Machine, r: Response, r2: Response)
    requires !r.ErrResponse? && !r2.ErrResponse?
    requires IsCreator(cfg, r2) == IsCreator(cfg, r) && KeyOf(r2) == KeyOf(r)
    requires ExtractInfo(cfg, m, r).Some?
    requires ExtractInfo(cfg, m, r).value.data.pairsLeft != 1
    requires Complete(cfg, m, ExtractInfo(cfg, m, r).value, r).Next?
    ensures var info := ExtractInfo(cfg, m, r).value;
      var info2 := ExtractInfo(cfg, Complete(cfg, m, info, r).m, r2);
      info2.Some? && info2.value.pairIndex == info.pairIndex + 1 &&
      info2.value.data == info.data.(pairsLeft := info.data.pairsLeft - 1)
  {
    var info := ExtractInfo(cfg, m, r).value;
    CompleteDequeues(cfg, m, info, r);
  }

  /**
   * An OK_K response whose physical qubit is not in use keeps the qubit
   * bookkeeping consistent.
   */
  lemma OkKKeeps(cfg: Config, m: Machine, d: EprCmdData, r: Response, pairIndex: int)
    requires r.OkTypeK? && QubitsConsistent(m) && r.logicalQubitId !in m.usedPhysical
    ensures var o := HandleOkK(cfg, m, d, r, pairIndex); o.Next? ==> QubitsConsistent(o.m)
  {
    var o := HandleOkK(cfg, m, d, r, pairIndex);
    if o.Next? {
      var m1 := m.(usedPhysical := m.usedPhysical + {r.logicalQubitId});
      var app := AppOf(m, d.subroutineId).value;
      var va := VirtualAddress(cfg.hw, m, app, d, pairIndex).value;
      var um := m.unitModules[app];
      var j := PyIndex(|um|, va).value;
      assert AllocatePhysical(m1, d.subroutineId, va, Some(r.logicalQubitId)).Ok?;
      MapFreshKeeps(m, app, j, r.logicalQubitId);
    }
  }

  /** The response handled in a pass leaves the pending list; the others stay, in order. */
  lemma PassRemovesOne(cfg: Config, m: Machine)
    requires PassFrom(cfg, m, 0).HandledAt?
    ensures RemovedAt(PassFrom(cfg, m, 0).m.pending, m.pending, PassFrom(cfg, m, 0).index)
  {
    RemoveAt(m.pending, PassFrom(cfg, m, 0).index);
  }
}
