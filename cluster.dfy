/**
 * The cluster API wrappers: each one calls the cluster layer once (or once
 * per node) and records what came back as affected items or failures.
 */
module Cluster {
  import opened Wrappers
  import opened Text
  import opened Values
  import opened Exceptions
  import opened Sorting
  import opened Results
  import Ordering

  /** The default "some" text is not part of this model; a single call can never need it. */
  const InfoMessages := Messages("All selected information was returned", "", "No information was returned")
  const HealthMessages := Messages("All selected nodes healthcheck information was returned",
                                   "Some nodes healthcheck information was not returned",
                                   "No healthcheck information was returned")
  const NodesMessages := Messages("All selected nodes information was returned",
                                  "Some nodes information was not returned",
                                  "No information was returned")
  const SyncMessages := Messages("Nodes ruleset synchronization status was successfully read",
                                 "Could not read ruleset synchronization status in some nodes",
                                 "Could not read ruleset synchronization status")

  /** `SecuricsResourceNotFound(1730)`: the node is not part of the cluster. */
  function NodeNotFound(catalog: Catalog): ErrorRecord
  {
    Simple(ResourceNotFound, 1730, catalog)
  }

  // ------------------------------------------------------------ one call

  /** The items and failures one guarded call of the cluster layer leaves. */
  function SingleCall(call: Result<Value, ErrorRecord>, nodeId: Id): (r: (seq<Value>, FailedMap))
    ensures call.Success? ==> r.0 == [call.value] && r.1 == map[]
    ensures call.Failure? ==> r.0 == [] && Pairs(r.1) == {(KeyOf(call.error), nodeId)}
  {
    if call.Success? then ([call.value], map[])
    else
      AddFailedPairs(map[], KeyOf(call.error), nodeId);
      assert Pairs(map[]) == {};
      ([], AddFailed(map[], KeyOf(call.error), nodeId))
  }

  /** Exactly one of the two lists is filled, so the message is never the "some" text. */
  lemma SingleCallMessage(call: Result<Value, ErrorRecord>, nodeId: Id, msgs: Messages)
    ensures var (affected, failed) := SingleCall(call, nodeId);
            |affected| + TotalFailed(failed) == 1 &&
            MessageOf(affected, failed, msgs) == if call.Success? then msgs.all else msgs.none
  {
  }

  /**
   * `read_config_wrapper()` and `get_node_wrapper()`: `call` is what
   * `read_config()` or `get_node()` returned or raised. Only the
   * `SecuricsError` family is caught; any other failure is `raised` and
   * nothing is recorded.
   */
  method NodeWrapper(call: Result<Value, ErrorRecord>, nodeId: Id)
    returns (result: AffectedItemsResult, raised: Option<ErrorRecord>)
    ensures fresh(result) && result.Valid()
    ensures raised.Some? <==> call.Failure? && !IsErrorFamily(call.error.kind)
    ensures raised.Some? ==> raised.value == call.error && result.affectedItems == [] && result.failedItems == map[]
    ensures raised.None? ==> (result.affectedItems, result.failedItems) == SingleCall(call, nodeId)
    ensures result.totalAffectedItems == |result.affectedItems|
    ensures result.messages == InfoMessages
  {
    result := new AffectedItemsResult(InfoMessages, [], [], []);
    raised := None;
    match call {
      case Success(v) =>
        result.AppendAffected(v);
        assert result.affectedItems == [v];
      case Failure(e) =>
        if IsErrorFamily(e.kind) {
          result.AddFailedItem(nodeId, e);
          assert result.failedItems == AddFailed(map[], KeyOf(e), nodeId);
        } else {
          raised := Some(e);
        }
    }
    result.totalAffectedItems := |result.affectedItems|;
  }

  // ------------------------------------------------------------ health

  /** `i['info']['name']`, the sort key of a health entry. */
  predicate Named(v: Value)
  {
    Ordering.Walk(v, ["info", "name"]).Found? && Ordering.Walk(v, ["info", "name"]).v.VStr?
  }

  function NameOf(v: Value): string
    requires Named(v)
  {
    Ordering.Walk(v, ["info", "name"]).v.s
  }

  function NameKey(v: Value): string
  {
    if Named(v) then NameOf(v) else ""
  }

  predicate NameBefore(a: Value, b: Value)
  {
    LexLess(NameKey(a), NameKey(b))
  }

  lemma NameBeforeStrict()
    ensures StrictOrder(NameBefore)
  {
    forall a ensures !NameBefore(a, a) {
      LexLessIrreflexive(NameKey(a));
    }
    forall a, b, c | NameBefore(a, b) && NameBefore(b, c) ensures NameBefore(a, c) {
      LexLessTransitive(NameKey(a), NameKey(b), NameKey(c));
    }
  }

  /** Health entries sorted by name keep every entry and come out in name order. */
  lemma SortedHealth(nodes: seq<Value>)
    ensures multiset(SortBy(nodes, NameBefore)) == multiset(nodes)
    ensures forall i, j :: 0 <= i < j < |nodes| ==> !LexLess(NameKey(SortBy(nodes, NameBefore)[j]), NameKey(SortBy(nodes, NameBefore)[i]))
  {
    NameBeforeStrict();
    SortBySorted(nodes, NameBefore);
  }

  /**
   * `get_health_nodes(lc, filter_node)`: `nodes` are the values of the
   * `nodes` dict `get_health` returns; every entry carries `info.name`.
   */
  method GetHealthNodes(nodes: seq<Value>) returns (result: AffectedItemsResult)
    requires forall i :: 0 <= i < |nodes| ==> Named(nodes[i])
    ensures fresh(result) && result.Valid()
    ensures result.View() == ResultView(SortBy(nodes, NameBefore), |nodes|, map[], [], [], [], HealthMessages)
  {
    result := new AffectedItemsResult(HealthMessages, [], [], []);
    for i := 0 to |nodes|
      invariant result.View() == ResultView(nodes[..i], 0, map[], [], [], [], HealthMessages)
      invariant result.Valid()
    {
      result.AppendAffected(nodes[i]);
      assert nodes[..i + 1] == nodes[..i] + [nodes[i]];
    }
    assert nodes[..|nodes|] == nodes;
    result.affectedItems := SortBy(result.affectedItems, NameBefore);
    result.totalAffectedItems := |result.affectedItems|;
  }

  // ------------------------------------------------------------ nodes

  /** The nodes `get_nodes` is asked about: the requested ones that the cluster has. */
  function Queried(filter: seq<Id>, clusterNodes: set<Id>): set<Id>
  {
    IdSet(filter) * clusterNodes
  }

  /** The requested nodes the cluster does not have. */
  function Missing(filter: seq<Id>, clusterNodes: set<Id>): set<Id>
  {
    IdSet(filter) - Queried(filter, clusterNodes)
  }

  /** Every requested node is either queried or failed, never both. */
  lemma NodesPartition(filter: seq<Id>, clusterNodes: set<Id>)
    ensures Queried(filter, clusterNodes) + Missing(filter, clusterNodes) == IdSet(filter)
    ensures Queried(filter, clusterNodes) * Missing(filter, clusterNodes) == {}
    ensures Missing(filter, clusterNodes) * clusterNodes == {}
  {
  }

  /** What `get_nodes` returns for a set of nodes. */
  datatype NodesReply = NodesReply(items: seq<Value>, totalItems: int)

  /**
   * `get_nodes_info(lc, filter_node)`: `getNodes` is what the `get_nodes`
   * request answers; `asked` is the node set it is sent.
   */
  method GetNodesInfo(filter: seq<Id>, clusterNodes: set<Id>, getNodes: set<Id> -> NodesReply, catalog: Catalog)
    returns (result: AffectedItemsResult, asked: set<Id>)
    ensures fresh(result) && result.Valid()
    ensures asked == Queried(filter, clusterNodes)
    ensures result.affectedItems == getNodes(asked).items
    ensures Pairs(result.failedItems) == ErrorPairs(KeyOf(NodeNotFound(catalog)), Missing(filter, clusterNodes))
    ensures result.totalAffectedItems == getNodes(asked).totalItems
    ensures result.messages == NodesMessages
  {
    result := new AffectedItemsResult(NodesMessages, [], [], []);
    var nodes := IdSet(filter) * clusterNodes;
    var nonExistent := IdSet(filter) - nodes;
    asked := nodes;
    var data := getNodes(nodes);
    for i := 0 to |data.items|
      invariant result.affectedItems == data.items[..i]
      invariant result.failedItems == map[] && result.Valid()
      invariant result.messages == NodesMessages
    {
      result.AppendAffected(data.items[i]);
      assert data.items[..i + 1] == data.items[..i] + [data.items[i]];
    }
    assert data.items[..|data.items|] == data.items;
    result.AddFailedIds(nonExistent, NodeNotFound(catalog));
    AddIdsPairs(map[], KeyOf(NodeNotFound(catalog)), nonExistent);
    assert Pairs(map[]) == {};
    result.totalAffectedItems := data.totalItems;
  }

  // ------------------------------------------------------------ ruleset

  /** The one item of a successful read: the node and whether its ruleset matches the master's. */
  function SyncItem(nodeId: Id, masterMd5: Value, integrity: Value): (r: Value)
    ensures r.VMap? && r.fields.Keys == {"name", "synced"}
    ensures r.fields["name"] == VStr(nodeId)
    ensures r.fields["synced"] == VBool(masterMd5 == integrity)
  {
    VMap(map["name" := VStr(nodeId), "synced" := VBool(masterMd5 == integrity)])
  }

  /**
   * `get_ruleset_sync_status(master_md5)`: `integrity` is what
   * `get_node_ruleset_integrity` returned or raised. A failure outside the
   * `SecuricsError` family is `raised` and nothing is recorded.
   */
  method GetRulesetSyncStatus(masterMd5: Value, integrity: Result<Value, ErrorRecord>, nodeId: Id)
    returns (result: AffectedItemsResult, raised: Option<ErrorRecord>)
    ensures fresh(result) && result.Valid()
    ensures raised.Some? <==> integrity.Failure? && !IsErrorFamily(integrity.error.kind)
    ensures raised.Some? ==> raised.value == integrity.error && result.affectedItems == [] && result.failedItems == map[]
    ensures integrity.Success? ==>
              result.affectedItems == [SyncItem(nodeId, masterMd5, integrity.value)] && result.failedItems == map[]
    ensures integrity.Failure? && raised.None? ==>
              result.affectedItems == [] && Pairs(result.failedItems) == {(KeyOf(integrity.error), nodeId)}
    ensures result.totalAffectedItems == |result.affectedItems|
    ensures result.sortCasting == ["str"]
    ensures result.messages == SyncMessages
  {
    result := new AffectedItemsResult(SyncMessages, [], ["str"], []);
    raised := None;
    match integrity {
      case Failure(e) =>
        if IsErrorFamily(e.kind) {
          result.AddFailedItem(nodeId, e);
          AddFailedPairs(map[], KeyOf(e), nodeId);
          assert Pairs(map[]) == {};
        } else {
          raised := Some(e);
        }
      case Success(v) =>
        result.AppendAffected(SyncItem(nodeId, masterMd5, v));
    }
    result.totalAffectedItems := |result.affectedItems|;
  }
}
