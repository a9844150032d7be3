// The parts of `netqasm/sdk/connection.py` that keep book of identities:
// the application ids a connection claims and releases in the class-level
// `_app_ids` table, the check that an EPR socket does not lead back to its
// own application, and the name/id lookups of `DebugNetworkInfo`.

module Connection {
  import opened Wrappers
  import opened Seqs
  import opened FreshIds

  /**
   * The class attribute `_app_ids` of `BaseNetQASMConnection`: for each
   * application name, the ids in use, in the order they were claimed.
   * Every connection shares the one table.
   */
  class AppIdTable {
    var appIds: map<string, seq<int>>

    constructor ()
      ensures appIds == map[]
    {
      appIds := map[];
    }

    /** The ids in use under `name`; the table starts a name with an empty list. */
    function IdsOf(name: string): seq<int>
      reads this
    {
      if name in appIds then appIds[name] else []
    }

    /**
     * `_get_new_app_id`: without an id, the smallest natural number not in
     * use under the name is claimed; an explicit id is claimed unless it is
     * in use, which raises ValueError. The name gets an entry either way.
     */
    method GetNewAppId(name: string, appId: Option<int>) returns (r: Result<int>)
      modifies this
      ensures appId.None? ==> r == Ok(SmallestNotIn(old(IdsOf(name))))
      ensures appId.Some? && appId.value in old(IdsOf(name)) ==> r == Fail(ValueError)
      ensures appId.Some? && appId.value !in old(IdsOf(name)) ==> r == Ok(appId.value)
      ensures r.Ok? ==> appIds == old(appIds)[name := old(IdsOf(name)) + [r.value]]
      ensures r.Err? ==> appIds == old(appIds)[name := old(IdsOf(name))]
    {
      if name !in appIds {
        appIds := appIds[name := []];
      }
      var ids := appIds[name];
      if appId.None? {
        var a := 0;
        ghost var before := appIds;
        while a in ids
          invariant forall q :: 0 <= q < a ==> q in ids
          invariant a <= |ids| && appIds == before
          decreases |ids| - a
        {
          ListHoldsBelow(ids, a + 1);
          a := a + 1;
        }
        SmallestUnusedUnique(Elems(ids), a);
        appIds := appIds[name := ids + [a]];
        return Ok(a);
      }
      if appId.value in ids {
        return Fail(ValueError);
      }
      appIds := appIds[name := ids + [appId.value]];
      return Ok(appId.value);
    }

    /**
     * `_pop_app_id`: the connection's id leaves the list of its name; an id
     * already gone is ignored, while a name never registered raises
     * KeyError (only ValueError is caught).
     */
    method PopAppId(name: string, appId: int) returns (r: Result<Unit>)
      modifies this
      ensures name !in old(appIds) ==> r == Fail(KeyError) && appIds == old(appIds)
      ensures name in old(appIds) ==> r == Ok(Unit)
      ensures name in old(appIds) && appId in old(appIds)[name] ==>
        appIds == old(appIds)[name := RemoveFirst(old(appIds)[name], appId)]
      ensures name in old(appIds) && appId !in old(appIds)[name] ==> appIds == old(appIds)
    {
      if name !in appIds {
        return Fail(KeyError);
      }
      if appId in appIds[name] {
        appIds := appIds[name := RemoveFirst(appIds[name], appId)];
      }
      return Ok(Unit);
    }
  }

  /** An id claimed by `GetNewAppId` is new under its name. */
  lemma ClaimedIdIsNew(ids: seq<int>, appId: Option<int>)
    requires appId.Some? ==> appId.value !in ids
    ensures var a := if appId.None? then SmallestNotIn(ids) else appId.value; a !in ids
  {
  }

  /** Claiming then releasing an id that was not in use gives back the list as it was. */
  lemma {:induction false} ClaimThenPop(ids: seq<int>, a: int)
    requires a !in ids
    ensures RemoveFirst(ids + [a], a) == ids
  {
    var i := IndexOf(ids + [a], a);
    assert (ids + [a])[|ids|] == a;
    assert forall k :: 0 <= k < |ids| ==> (ids + [a])[k] == ids[k];
    assert i == |ids|;
    assert (ids + [a])[..|ids|] == ids;
  }

  /**
   * `_setup_epr_sockets`: each socket is checked before it is set up; one
   * whose remote application is the connection's own raises ValueError.
   */
  function CheckEprSockets(appName: string, remoteAppNames: seq<string>): (r: Result<Unit>)
    ensures r.Ok? <==> appName !in remoteAppNames
    ensures r.Err? ==> r.error == Raise(ValueError)
  {
    if appName in remoteAppNames then Fail(ValueError) else Ok(Unit)
  }

  /**
   * `DebugConnection.node_ids`, a dictionary from node name to node id,
   * as its (name, id) items in insertion order; names are distinct.
   */
  type NodeIds = seq<(string, int)>

  predicate NamesDistinct(t: NodeIds)
  {
    forall i, j :: 0 <= i < j < |t| ==> t[i].0 != t[j].0
  }

  /** `DebugNetworkInfo._get_node_id`: the id of a known name, else ValueError. */
  function GetNodeId(t: NodeIds, nodeName: string): (r: Result<int>)
    ensures r.Ok? <==> exists i :: 0 <= i < |t| && t[i].0 == nodeName
    ensures r.Ok? ==> exists i :: 0 <= i < |t| && t[i] == (nodeName, r.value)
    ensures r.Err? ==> r.error == Raise(ValueError)
    decreases |t|
  {
    if t == [] then Fail(ValueError)
    else if t[0].0 == nodeName then Ok(t[0].1)
    else
      var r := GetNodeId(t[1..], nodeName);
      if r.Ok? then
        ghost var i :| 0 <= i < |t[1..]| && t[1..][i] == (nodeName, r.value);
        assert t[i + 1] == (nodeName, r.value);
        r
      else
        assert forall i :: 1 <= i < |t| ==> t[i] == t[1..][i - 1];
        r
  }

  /** `DebugNetworkInfo._get_node_name`: the first name mapped to the id, else ValueError. */
  function GetNodeName(t: NodeIds, nodeId: int): (r: Result<string>)
    ensures r.Ok? <==> exists i :: 0 <= i < |t| && t[i].1 == nodeId
    ensures r.Ok? ==> exists i :: (0 <= i < |t| && t[i] == (r.value, nodeId) &&
                                  forall k :: 0 <= k < i ==> t[k].1 != nodeId)
    ensures r.Err? ==> r.error == Raise(ValueError)
    decreases |t|
  {
    if t == [] then Fail(ValueError)
    else if t[0].1 == nodeId then Ok(t[0].0)
    else
      var r := GetNodeName(t[1..], nodeId);
      if r.Ok? then
        ghost var i :| 0 <= i < |t[1..]| && t[1..][i] == (r.value, nodeId) &&
          forall k :: 0 <= k < i ==> t[1..][k].1 != nodeId;
        assert t[i + 1] == (r.value, nodeId);
        assert forall k :: 1 <= k < i + 1 ==> t[k] == t[1..][k - 1];
        r
      else
        assert forall i :: 1 <= i < |t| ==> t[i] == t[1..][i - 1];
        r
  }

  /** `get_node_id_for_app`: an application's node is the node of the same name. */
  function GetNodeIdForApp(t: NodeIds, appName: string): (r: Result<int>)
    ensures r == GetNodeId(t, appName)
  {
    GetNodeId(t, appName)
  }

  /** `get_node_name_for_app`: the identity. */
  function GetNodeNameForApp(appName: string): (r: string)
    ensures r == appName
  {
    appName
  }

  /** With distinct names, looking a node's id up by name and its name up by id go back and forth. */
  lemma {:induction false} NodeLookupsAgree(t: NodeIds, nodeName: string)
    requires NamesDistinct(t)
    requires GetNodeId(t, nodeName).Ok?
    ensures GetNodeName(t, GetNodeId(t, nodeName).value).Ok?
    ensures GetNodeId(t, GetNodeName(t, GetNodeId(t, nodeName).value).value) == GetNodeId(t, nodeName)
  {
    var id := GetNodeId(t, nodeName).value;
    var i :| 0 <= i < |t| && t[i] == (nodeName, id);
    var name := GetNodeName(t, id).value;
    var j :| 0 <= j < |t| && t[j] == (name, id);
    NameDetermines(t, name, j);
  }

  /** With distinct names, the id of a listed name is the one next to it. */
  lemma {:induction false} NameDetermines(t: NodeIds, name: string, j: nat)
    requires NamesDistinct(t) && j < |t| && t[j].0 == name
    ensures GetNodeId(t, name) == Ok(t[j].1)
    decreases |t|
  {
    if j > 0 {
      assert t[0].0 != name;
      assert NamesDistinct(t[1..]) by {
        forall a, b | 0 <= a < b < |t[1..]| ensures t[1..][a].0 != t[1..][b].0 {
          assert t[1..][a] == t[a + 1] && t[1..][b] == t[b + 1];
        }
      }
      NameDetermines(t[1..], name, j - 1);
    }
  }
}
