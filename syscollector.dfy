/**
 * `get_item_agent`: syscollector rows of several agents, each row tagged
 * with the agent it belongs to, then merged into one list under the
 * requested sort.
 */
module Syscollector {
  import opened Wrappers
  import opened Text
  import opened Values
  import opened Exceptions
  import opened Results
  import Ordering

  const SyscollectorMessages := Messages("All specified syscollector information was returned",
                                         "Some syscollector information was not returned",
                                         "No syscollector information was returned")

  const AgentIdField := "agent_id"

  /** The `sort` argument: `{'fields': [...], 'order': 'asc|desc'}`. */
  datatype SortSpec = SortSpec(fields: seq<string>, order: string)

  datatype SortSettings = SortSettings(fields: seq<string>, casting: seq<string>, ascending: seq<Value>)

  /**
   * The result's initial sort settings: by `agent_id` as text, ascending
   * (the list holding the string 'True'), when no sort is given; otherwise
   * the given fields, each ascending exactly when the order is 'asc'.
   */
  function InitialSort(sort: Option<SortSpec>): (r: SortSettings)
    ensures r.casting == ["str"] && |r.ascending| == |r.fields|
    ensures sort.None? ==> r.fields == [AgentIdField] && r.ascending == [VStr("True")]
    ensures sort.Some? ==>
              r.fields == sort.value.fields &&
              (forall i :: 0 <= i < |r.fields| ==> r.ascending[i] == VBool(sort.value.order == "asc"))
  {
    match sort
    case None => SortSettings([AgentIdField], ["str"], [VStr("True")])
    case Some(s) => SortSettings(s.fields, ["str"], seq(|s.fields|, _ => VBool(s.order == "asc")))
  }

  /** The default ascending flag is a non-empty string, so it reads as true. */
  lemma DefaultSortAscends()
    ensures forall i :: 0 <= i < |InitialSort(None).ascending| ==> Truthy(InitialSort(None).ascending[i])
  {
  }

  /** An agent the system does not know raises 1701, a `SecuricsResourceNotFound`. */
  function AgentNotFound(catalog: Catalog): (e: ErrorRecord)
    ensures e.kind == ResourceNotFound && e.code == 1701
  {
    Simple(ResourceNotFound, 1701, catalog)
  }

  /** What the syscollector query returns for one agent. */
  datatype QueryReply = QueryReply(items: seq<Row>, totalItems: int)

  /**
   * What one agent's turn of the loop gives: 1701 for an agent the system
   * does not know, otherwise `query(a)`, the rows `get_valid_fields` and the
   * syscollector query return for it or the exception either of them raised.
   */
  function Reply(a: Id, systemAgents: set<Id>, query: Id -> Result<QueryReply, ErrorRecord>, catalog: Catalog)
    : Result<QueryReply, ErrorRecord>
  {
    if a !in systemAgents then Failure(AgentNotFound(catalog)) else query(a)
  }

  /** A turn as an outcome: done with rows, or failed with the exception raised. */
  function Turn(systemAgents: set<Id>, query: Id -> Result<QueryReply, ErrorRecord>, catalog: Catalog): Id -> Outcome
  {
    a => if Reply(a, systemAgents, query, catalog).Success? then Done else Fails(Reply(a, systemAgents, query, catalog).error)
  }

  /** Whether `except SecuricsResourceNotFound` catches what a turn raised. */
  predicate Handled(o: Outcome)
  {
    o.Done? || o.error.kind == ResourceNotFound
  }

  /** The position of the first turn whose exception propagates, or `|agents|`. */
  function FirstEscape(agents: seq<Id>, turn: Id -> Outcome): (k: nat)
    ensures k <= |agents|
    ensures forall i :: 0 <= i < k ==> Handled(turn(agents[i]))
    ensures k < |agents| ==> !Handled(turn(agents[k]))
  {
    if |agents| == 0 || !Handled(turn(agents[0])) then 0
    else
      var k := 1 + FirstEscape(agents[1..], turn);
      assert forall i :: 1 <= i < k ==> agents[i] == agents[1..][i - 1];
      k
  }

  /** An escaping turn is a known agent whose query raised something other than ResourceNotFound. */
  lemma EscapeIsQueryError(agents: seq<Id>, systemAgents: set<Id>, query: Id -> Result<QueryReply, ErrorRecord>,
                           catalog: Catalog)
    requires FirstEscape(agents, Turn(systemAgents, query, catalog)) < |agents|
    ensures var a := agents[FirstEscape(agents, Turn(systemAgents, query, catalog))];
            a in systemAgents && query(a).Failure? && query(a).error.kind != ResourceNotFound
  {
  }

  /** `item['agent_id'] = agent` on every row. */
  function Tagged(rows: seq<Row>, agent: Id): (r: seq<Value>)
    ensures |r| == |rows|
    ensures forall i :: 0 <= i < |rows| ==> r[i].VMap? && r[i].fields.Keys == rows[i].Keys + {AgentIdField}
    ensures forall i :: 0 <= i < |rows| ==> r[i].fields[AgentIdField] == VStr(agent)
    ensures forall i, k :: 0 <= i < |rows| && k in rows[i] && k != AgentIdField ==> r[i].fields[k] == rows[i][k]
  {
    seq(|rows|, i requires 0 <= i < |rows| => VMap(rows[i][AgentIdField := VStr(agent)]))
  }

  /** The rows collected over the agents, in agent order: those of each known agent whose query answered. */
  function Collected(agents: seq<Id>, systemAgents: set<Id>, query: Id -> Result<QueryReply, ErrorRecord>): seq<Value>
  {
    if |agents| == 0 then []
    else
      var last := agents[|agents| - 1];
      Collected(agents[..|agents| - 1], systemAgents, query) +
        (if last in systemAgents && query(last).Success? then Tagged(query(last).value.items, last) else [])
  }

  /** `total_affected_items`: the sum of the totals of the queries that answered. */
  function Total(agents: seq<Id>, systemAgents: set<Id>, query: Id -> Result<QueryReply, ErrorRecord>): int
  {
    if |agents| == 0 then 0
    else
      var last := agents[|agents| - 1];
      Total(agents[..|agents| - 1], systemAgents, query) +
        (if last in systemAgents && query(last).Success? then query(last).value.totalItems else 0)
  }

  /** Every collected row is tagged with a requested agent the system knows and whose query answered. */
  lemma {:induction false} CollectedTagged(agents: seq<Id>, systemAgents: set<Id>,
                                           query: Id -> Result<QueryReply, ErrorRecord>)
    ensures forall v :: v in Collected(agents, systemAgents, query) ==>
              v.VMap? && AgentIdField in v.fields && v.fields[AgentIdField].VStr? &&
              v.fields[AgentIdField].s in agents && v.fields[AgentIdField].s in systemAgents &&
              query(v.fields[AgentIdField].s).Success?
  {
    if |agents| > 0 {
      var init, last := agents[..|agents| - 1], agents[|agents| - 1];
      CollectedTagged(init, systemAgents, query);
      forall v | v in Collected(agents, systemAgents, query)
        ensures v.VMap? && AgentIdField in v.fields && v.fields[AgentIdField].VStr? &&
                v.fields[AgentIdField].s in agents && v.fields[AgentIdField].s in systemAgents &&
                query(v.fields[AgentIdField].s).Success?
      {
        if v in Collected(init, systemAgents, query) {
          assert v.fields[AgentIdField].s in init;
        } else {
          assert last in systemAgents && query(last).Success? && v in Tagged(query(last).value.items, last);
        }
      }
    }
  }

  /** One more agent: its rows and its total join those of the agents before it. */
  lemma CollectedSnoc(agents: seq<Id>, i: nat, systemAgents: set<Id>, query: Id -> Result<QueryReply, ErrorRecord>)
    requires i < |agents|
    ensures Collected(agents[..i + 1], systemAgents, query) ==
              Collected(agents[..i], systemAgents, query) +
              (if agents[i] in systemAgents && query(agents[i]).Success? then Tagged(query(agents[i]).value.items, agents[i])
               else [])
    ensures Total(agents[..i + 1], systemAgents, query) ==
              Total(agents[..i], systemAgents, query) +
              (if agents[i] in systemAgents && query(agents[i]).Success? then query(agents[i]).value.totalItems else 0)
  {
    assert agents[..i + 1][..i] == agents[..i];
  }

  /**
   * The failures filed: each requested agent the system does not know under
   * 1701, and each known agent whose query raised, under that error.
   */
  lemma FailedAgents(agents: seq<Id>, systemAgents: set<Id>, query: Id -> Result<QueryReply, ErrorRecord>,
                     catalog: Catalog)
    ensures Pairs(FailedAfter(map[], agents, Turn(systemAgents, query, catalog))) ==
              ErrorPairs(KeyOf(AgentNotFound(catalog)), IdSet(agents) - systemAgents) +
              (set a | a in agents && a in systemAgents && query(a).Failure? :: (KeyOf(query(a).error), a))
  {
    var o := Turn(systemAgents, query, catalog);
    FailedAfterPairs(map[], agents, o);
    assert Pairs(map[]) == {};
    TurnFailurePairs(agents, systemAgents, query, catalog);
  }

  lemma TurnFailurePairs(agents: seq<Id>, systemAgents: set<Id>, query: Id -> Result<QueryReply, ErrorRecord>,
                         catalog: Catalog)
    ensures FailurePairs(IdSet(agents), Turn(systemAgents, query, catalog)) ==
              ErrorPairs(KeyOf(AgentNotFound(catalog)), IdSet(agents) - systemAgents) +
              (set a | a in agents && a in systemAgents && query(a).Failure? :: (KeyOf(query(a).error), a))
  {
    var o := Turn(systemAgents, query, catalog);
    var unknown := ErrorPairs(KeyOf(AgentNotFound(catalog)), IdSet(agents) - systemAgents);
    var queried := set a | a in agents && a in systemAgents && query(a).Failure? :: (KeyOf(query(a).error), a);
    forall p | p in FailurePairs(IdSet(agents), o) ensures p in unknown + queried {
      var a :| a in IdSet(agents) && o(a).Fails? && p == (KeyOf(o(a).error), a);
      if a in systemAgents {
        assert p in queried;
      } else {
        assert p in unknown;
      }
    }
    forall p | p in unknown + queried ensures p in FailurePairs(IdSet(agents), o) {
      if p in unknown {
        var a :| a in IdSet(agents) - systemAgents && p == (KeyOf(AgentNotFound(catalog)), a);
        assert o(a) == Fails(AgentNotFound(catalog));
      } else {
        var a :| a in agents && a in systemAgents && query(a).Failure? && p == (KeyOf(query(a).error), a);
        assert a in IdSet(agents) && o(a) == Fails(query(a).error);
      }
    }
  }

  /** When no turn escapes, every query error that was filed is a ResourceNotFound. */
  lemma FiledQueryErrors(agents: seq<Id>, systemAgents: set<Id>, query: Id -> Result<QueryReply, ErrorRecord>,
                         catalog: Catalog)
    requires FirstEscape(agents, Turn(systemAgents, query, catalog)) == |agents|
    ensures forall a :: a in agents && a in systemAgents && query(a).Failure? ==> query(a).error.kind == ResourceNotFound
  {
    var o := Turn(systemAgents, query, catalog);
    forall a | a in agents && a in systemAgents && query(a).Failure?
      ensures query(a).error.kind == ResourceNotFound
    {
      var i :| 0 <= i < |agents| && agents[i] == a;
      assert Handled(o(agents[i]));
    }
  }

  /**
   * The casting after the type check: with items and a single sort field,
   * the Python type name of the first item's value at that dotted path
   * (text types as 'str'); unchanged when a key is missing (KeyError).
   * None: the path runs into a value that cannot be indexed (TypeError).
   */
  function InferCasting(items: seq<Value>, sort: Option<SortSpec>, casting: seq<string>): (r: Option<seq<string>>)
    ensures r.Some? && r.value != casting ==>
              |items| > 0 && sort.Some? && |sort.value.fields| == 1 &&
              Ordering.Walk(items[0], Split(sort.value.fields[0], '.')).Found? &&
              r.value == [TypeName(Ordering.Walk(items[0], Split(sort.value.fields[0], '.')).v)]
    ensures !(|items| > 0 && sort.Some? && |sort.value.fields| == 1) ==> r == Some(casting)
    ensures |items| > 0 && sort.Some? && |sort.value.fields| == 1 ==>
              var w := Ordering.Walk(items[0], Split(sort.value.fields[0], '.'));
              (r.None? <==> w.NotMapping?) &&
              (w.NoKey? ==> r == Some(casting)) &&
              (w.Found? ==> r == Some(if TypeName(w.v) in {"str", "datetime"} then ["str"] else [TypeName(w.v)]))
  {
    if |items| > 0 && sort.Some? && |sort.value.fields| == 1 then
      match Ordering.Walk(items[0], Split(sort.value.fields[0], '.'))
      case Found(v) =>
        var name := TypeName(v);
        Some(if name == "str" || name == "datetime" then ["str"] else [name])
      case NoKey => Some(casting)
      case NotMapping => None
    else Some(casting)
  }

  /**
   * Integer sort fields are not cast to text: when the first item's value at
   * the single sort field is an int, the casting becomes ['int'].
   */
  lemma IntSortFieldCastAsInt(items: seq<Value>, field: string, order: string, casting: seq<string>)
    requires |items| > 0 && Ordering.Walk(items[0], Split(field, '.')).Found?
    requires Ordering.Walk(items[0], Split(field, '.')).v.VInt?
    ensures InferCasting(items, Some(SortSpec([field], order)), casting) == Some(["int"])
  {
  }

  /** Each item as a partition of its own. */
  function Singletons(items: seq<Value>): (parts: seq<seq<Value>>)
    ensures |parts| == |items| && forall i :: 0 <= i < |items| ==> parts[i] == [items[i]]
  {
    seq(|items|, i requires 0 <= i < |items| => [items[i]])
  }

  lemma {:induction false} FlattenSingletons(items: seq<Value>)
    ensures Ordering.Flatten(Singletons(items)) == items
  {
    if |items| > 0 {
      assert Singletons(items)[1..] == Singletons(items[1..]);
      FlattenSingletons(items[1..]);
      assert items == [items[0]] + items[1..];
    }
  }

  /** The final items and casting, or None when the type check or the merge raised. */
  function Finish(items: seq<Value>, sort: Option<SortSpec>): Option<(seq<Value>, seq<string>)>
  {
    var init := InitialSort(sort);
    match InferCasting(items, sort, init.casting)
    case None => None
    case Some(casting) =>
      match Ordering.Merge(Singletons(items), init.fields, Some(init.ascending), Some(casting))
      case None => None
      case Some(merged) => Some((merged, casting))
  }

  /** The merge only reorders: the final list holds exactly the collected rows. */
  lemma FinishPermutation(items: seq<Value>, sort: Option<SortSpec>)
    ensures Finish(items, sort).Some? ==> multiset(Finish(items, sort).value.0) == multiset(items)
  {
    var init := InitialSort(sort);
    var casting := InferCasting(items, sort, init.casting);
    if casting.Some? {
      FlattenSingletons(items);
    }
  }

  /** The inner loop: tag each row of one agent, in order. */
  method TagEach(rows: seq<Row>, agent: Id) returns (tagged: seq<Value>)
    ensures tagged == Tagged(rows, agent)
  {
    tagged := [];
    for j := 0 to |rows|
      invariant tagged == Tagged(rows[..j], agent)
    {
      var item := rows[j][AgentIdField := VStr(agent)];
      tagged := tagged + [VMap(item)];
      assert Tagged(rows[..j + 1], agent) == Tagged(rows[..j], agent) + [VMap(item)];
    }
    assert rows[..|rows|] == rows;
  }

  /**
   * The agent loop: the rows, the total and the failures it accumulates up
   * to the first turn whose exception propagates, which stops the loop and
   * is `raised`.
   */
  method CollectEach(agentList: seq<Id>, systemAgents: set<Id>, query: Id -> Result<QueryReply, ErrorRecord>,
                     catalog: Catalog)
    returns (affected: seq<Value>, total: int, failed: FailedMap, raised: Option<ErrorRecord>)
    ensures raised.None? <==> FirstEscape(agentList, Turn(systemAgents, query, catalog)) == |agentList|
    ensures raised.Some? ==>
              query(agentList[FirstEscape(agentList, Turn(systemAgents, query, catalog))]) == Failure(raised.value)
    ensures var done := agentList[..FirstEscape(agentList, Turn(systemAgents, query, catalog))];
            affected == Collected(done, systemAgents, query) && total == Total(done, systemAgents, query) &&
            failed == FailedAfter(map[], done, Turn(systemAgents, query, catalog))
  {
    var turn := Turn(systemAgents, query, catalog);
    ghost var k := FirstEscape(agentList, turn);
    affected, total, failed, raised := [], 0, map[], None;
    var i := 0;
    while i < |agentList| && raised.None?
      invariant i <= k
      invariant raised.Some? ==> i == k < |agentList| && query(agentList[i]) == Failure(raised.value)
      invariant affected == Collected(agentList[..i], systemAgents, query)
      invariant total == Total(agentList[..i], systemAgents, query)
      invariant failed == FailedAfter(map[], agentList[..i], turn)
      decreases |agentList| - i, if raised.None? then 1 else 0
    {
      var agent := agentList[i];
      CollectedSnoc(agentList, i, systemAgents, query);
      if agent !in systemAgents {
        FailedAfterSnoc(map[], agentList, i, turn);
        failed := AddFailed(failed, KeyOf(AgentNotFound(catalog)), agent);
        i := i + 1;
      } else {
        match query(agent) {
          case Success(data) =>
            FailedAfterSnoc(map[], agentList, i, turn);
            var tagged := TagEach(data.items, agent);
            affected := affected + tagged;
            total := total + data.totalItems;
            i := i + 1;
          case Failure(e) =>
            if e.kind == ResourceNotFound {
              FailedAfterSnoc(map[], agentList, i, turn);
              failed := AddFailed(failed, KeyOf(e), agent);
              i := i + 1;
            } else {
              raised := Some(e);
            }
        }
      }
    }
  }

  /**
   * The result `get_item_agent` returns, as values: the merged rows and the
   * casting of `Finish`, the summed totals and the failed agents, each under
   * the ResourceNotFound it raised. None: an agent's query raised another
   * exception, or the type check or the merge raised.
   */
  function ItemAgentView(agentList: seq<Id>, systemAgents: set<Id>, query: Id -> Result<QueryReply, ErrorRecord>,
                         sort: Option<SortSpec>, catalog: Catalog): Option<ResultView>
  {
    var turn := Turn(systemAgents, query, catalog);
    var init := InitialSort(sort);
    if FirstEscape(agentList, turn) < |agentList| then None
    else
      match Finish(Collected(agentList, systemAgents, query), sort)
      case None => None
      case Some(finished) =>
        Some(ResultView(finished.0, Total(agentList, systemAgents, query), FailedAfter(map[], agentList, turn),
                        init.fields, finished.1, init.ascending, SyscollectorMessages))
  }

  /**
   * `get_item_agent(agent_list, ..., sort, ...)`: `query(a)` is what
   * `get_valid_fields` and the syscollector query give for agent `a`.
   * `raised` says that an exception propagated, in which case no result is
   * returned.
   */
  method GetItemAgent(agentList: seq<Id>, systemAgents: set<Id>, query: Id -> Result<QueryReply, ErrorRecord>,
                      sort: Option<SortSpec>, catalog: Catalog)
    returns (result: AffectedItemsResult, raised: bool)
    ensures fresh(result) && result.Valid()
    ensures raised <==> ItemAgentView(agentList, systemAgents, query, sort, catalog).None?
    ensures !raised ==> result.View() == ItemAgentView(agentList, systemAgents, query, sort, catalog).value
  {
    var affected, view := ItemAgentValues(agentList, systemAgents, query, sort, catalog);
    result, raised := ResultFor(view, affected, sort);
  }

  /** The result object holding `view`; `raised` when there is no view, after the rows were collected. */
  method ResultFor(view: Option<ResultView>, affected: seq<Value>, sort: Option<SortSpec>)
    returns (result: AffectedItemsResult, raised: bool)
    requires view.Some? ==> Grouped(view.value.failedItems)
    ensures fresh(result) && result.Valid()
    ensures raised <==> view.None?
    ensures !raised ==> result.View() == view.value
  {
    var init := InitialSort(sort);
    result := new AffectedItemsResult(SyscollectorMessages, init.fields, init.casting, init.ascending);
    if view.None? {
      result.affectedItems := affected;
      raised := true;
    } else {
      var v := view.value;
      result.affectedItems, result.totalAffectedItems, result.failedItems := v.affectedItems, v.totalAffectedItems, v.failedItems;
      result.sortFields, result.sortCasting, result.sortAscending, result.messages :=
        v.sortFields, v.sortCasting, v.sortAscending, v.messages;
      raised := false;
    }
  }

  /** The agent loop and the final merge, on values: the collected rows and the result they make. */
  method ItemAgentValues(agentList: seq<Id>, systemAgents: set<Id>, query: Id -> Result<QueryReply, ErrorRecord>,
                         sort: Option<SortSpec>, catalog: Catalog)
    returns (affected: seq<Value>, view: Option<ResultView>)
    ensures affected == Collected(agentList[..FirstEscape(agentList, Turn(systemAgents, query, catalog))], systemAgents, query)
    ensures view == ItemAgentView(agentList, systemAgents, query, sort, catalog)
    ensures view.Some? ==> Grouped(view.value.failedItems)
  {
    var init := InitialSort(sort);
    var total, failed, escaped;
    affected, total, failed, escaped := CollectEach(agentList, systemAgents, query, catalog);
    if escaped.Some? {
      return affected, None;
    }
    assert agentList[..|agentList|] == agentList;
    var finished := FinishItems(affected, sort);
    if finished.None? {
      return affected, None;
    }
    view := Some(ResultView(finished.value.0, total, failed, init.fields, finished.value.1, init.ascending,
                            SyscollectorMessages));
  }

  /** The type check on the first row, then the merge of the one-row lists. */
  method FinishItems(items: seq<Value>, sort: Option<SortSpec>) returns (r: Option<(seq<Value>, seq<string>)>)
    ensures r == Finish(items, sort)
  {
    var init := InitialSort(sort);
    var casting := InferCasting(items, sort, init.casting);
    if casting.None? {
      return None;
    }
    var merged := Ordering.Merge(Singletons(items), init.fields, Some(init.ascending), Some(casting.value));
    if merged.None? {
      return None;
    }
    r := Some((merged.value, casting.value));
  }
}
