/**
 * The rootcheck API calls: restart a scan on, or clear the database of, a set
 * of agents, recording each agent as affected or failed.
 */
module Rootcheck {
  import opened Wrappers
  import opened Values
  import opened Exceptions
  import opened Sorting
  import opened Results

  const RunMessages := Messages("Rootcheck scan was restarted on returned agents",
                                "Rootcheck scan was not restarted on some agents",
                                "No rootcheck scan was restarted")
  const ClearMessages := Messages("Rootcheck database was cleared on returned agents",
                                  "Rootcheck database was not cleared on some agents",
                                  "No rootcheck database was cleared")
  const LastScanMessages := Messages("Last rootcheck scan of the agent was returned", "",
                                     "No last scan information was returned")

  /** `SecuricsResourceNotFound(1701)`: the agent does not exist. */
  function AgentNotFound(catalog: Catalog): ErrorRecord
  {
    Simple(ResourceNotFound, 1701, catalog)
  }

  /** `SecuricsError(1707)`: the agent is not active. */
  function AgentNotActive(catalog: Catalog): ErrorRecord
  {
    Simple(Error, 1707, catalog)
  }

  /** The requested agents that the system does not know. */
  function NotFound(agentList: seq<Id>, systemAgents: set<Id>): set<Id>
  {
    IdSet(agentList) - systemAgents
  }

  /** The agents a scan restart is sent to. */
  function Eligible(agentList: seq<Id>, systemAgents: set<Id>, nonEligible: seq<Id>): set<Id>
  {
    IdSet(agentList) - NotFound(agentList, systemAgents) - IdSet(nonEligible)
  }

  /** The failures `run` files, in filing order: unknown agents, inactive agents, then failed sends. */
  function RunFailed(agentList: seq<Id>, systemAgents: set<Id>, nonEligible: seq<Id>, sent: seq<Id>,
                     restart: Id -> Outcome, catalog: Catalog): FailedMap
  {
    var unknown := AddIds(map[], KeyOf(AgentNotFound(catalog)), NotFound(agentList, systemAgents));
    FailedAfter(AddAll(unknown, KeyOf(AgentNotActive(catalog)), nonEligible), sent, restart)
  }

  /**
   * `run(agent_list)`. `nonEligible` is what the query for agents whose status
   * is not active returns; `restart(a)` is what sending the restart message to
   * agent `a` does. `order` is the order the eligible agents are messaged in.
   * A failure `except SecuricsError` does not catch ends the loop and
   * propagates as `raised`; the result built so far is then dropped. Otherwise
   * the affected agents come out sorted by number (`SortByIntSorted`), and the
   * failures are described by `RunPairs`.
   */
  method Run(agentList: seq<Id>, systemAgents: set<Id>, nonEligible: seq<Id>, restart: Id -> Outcome, catalog: Catalog)
    returns (result: AffectedItemsResult, order: seq<Id>, raised: Option<ErrorRecord>)
    ensures fresh(result) && result.Valid()
    ensures IdSet(order) == Eligible(agentList, systemAgents, nonEligible)
    ensures |order| == |Eligible(agentList, systemAgents, nonEligible)|
    ensures raised.None? <==> forall a :: a in Eligible(agentList, systemAgents, nonEligible) ==> Caught(restart(a))
    ensures raised.Some? ==> exists a :: a in Eligible(agentList, systemAgents, nonEligible) &&
                                         restart(a) == Fails(raised.value) && !IsErrorFamily(raised.value.kind)
    ensures raised.None? ==>
              result.View() == ResultView(SortBy(Successes(order, restart), IntBefore), |Successes(order, restart)|,
                                          RunFailed(agentList, systemAgents, nonEligible, order, restart, catalog),
                                          [], [], [], RunMessages)
    ensures raised.Some? ==>
              var done := order[..FirstUncaught(order, restart)];
              result.View() == ResultView(Successes(done, restart), 0,
                                          RunFailed(agentList, systemAgents, nonEligible, done, restart, catalog),
                                          [], [], [], RunMessages)
  {
    var e1701, e1707 := AgentNotFound(catalog), AgentNotActive(catalog);
    result := new AffectedItemsResult(RunMessages, [], [], []);
    result.AddFailedIds(NotFound(agentList, systemAgents), e1701);
    result.AddFailedList(nonEligible, e1707);
    ghost var filed := AddAll(AddIds(map[], KeyOf(e1701), NotFound(agentList, systemAgents)), KeyOf(e1707), nonEligible);
    assert result.View() == ResultView([], 0, filed, [], [], [], RunMessages);
    order, raised := CallEach(result, Eligible(agentList, systemAgents, nonEligible), restart);
    FirstUncaughtIff(order, restart);
    ghost var done := order[..FirstUncaught(order, restart)];
    EmptyPrefix(Successes(done, restart));
    assert result.View() == ResultView(Successes(done, restart), 0, FailedAfter(filed, done, restart), [], [], [], RunMessages);
    if raised.None? {
      assert done == order;
      result.SortByIntAndCount();
    }
  }

  /** The failures `run` files: each unknown agent under 1701, each inactive one under 1707, and each failed send. */
  lemma RunPairs(agentList: seq<Id>, systemAgents: set<Id>, nonEligible: seq<Id>, sent: seq<Id>,
                 restart: Id -> Outcome, catalog: Catalog)
    ensures Pairs(RunFailed(agentList, systemAgents, nonEligible, sent, restart, catalog)) ==
              ErrorPairs(KeyOf(AgentNotFound(catalog)), NotFound(agentList, systemAgents)) +
              ErrorPairs(KeyOf(AgentNotActive(catalog)), IdSet(nonEligible)) +
              FailurePairs(IdSet(sent), restart)
  {
    var k1701, k1707 := KeyOf(AgentNotFound(catalog)), KeyOf(AgentNotActive(catalog));
    var notFound := NotFound(agentList, systemAgents);
    var m1 := AddIds(map[], k1701, notFound);
    FiledPairs(k1701, notFound);
    ListedPairs(m1, k1707, nonEligible);
    FailedAfterPairs(AddAll(m1, k1707, nonEligible), sent, restart);
  }

  /** The failures `clear` files, in filing order: unknown agents, then failed deletions. */
  function ClearFailed(agentList: seq<Id>, systemAgents: set<Id>, deleted: seq<Id>, delete: Id -> Outcome,
                       catalog: Catalog): FailedMap
  {
    FailedAfter(AddIds(map[], KeyOf(AgentNotFound(catalog)), NotFound(agentList, systemAgents)), deleted, delete)
  }

  /**
   * `clear(agent_list)`: `delete(a)` is what deleting agent `a`'s rootcheck
   * database does. As in `run`, a failure outside the `SecuricsError` family
   * ends the loop and propagates as `raised`.
   */
  method Clear(agentList: seq<Id>, systemAgents: set<Id>, delete: Id -> Outcome, catalog: Catalog)
    returns (result: AffectedItemsResult, order: seq<Id>, raised: Option<ErrorRecord>)
    ensures fresh(result) && result.Valid()
    ensures IdSet(order) == IdSet(agentList) - NotFound(agentList, systemAgents)
    ensures |order| == |IdSet(order)|
    ensures raised.None? <==> forall a :: a in IdSet(agentList) - NotFound(agentList, systemAgents) ==> Caught(delete(a))
    ensures raised.Some? ==> exists a :: a in IdSet(agentList) - NotFound(agentList, systemAgents) &&
                                         delete(a) == Fails(raised.value) && !IsErrorFamily(raised.value.kind)
    ensures raised.None? ==>
              result.View() == ResultView(SortBy(Successes(order, delete), IntBefore), |Successes(order, delete)|,
                                          ClearFailed(agentList, systemAgents, order, delete, catalog),
                                          [], [], [], ClearMessages)
    ensures raised.Some? ==>
              var done := order[..FirstUncaught(order, delete)];
              result.View() == ResultView(Successes(done, delete), 0,
                                          ClearFailed(agentList, systemAgents, done, delete, catalog),
                                          [], [], [], ClearMessages)
  {
    var notFound := NotFound(agentList, systemAgents);
    result := new AffectedItemsResult(ClearMessages, [], [], []);
    result.AddFailedIds(notFound, AgentNotFound(catalog));
    ghost var filed := AddIds(map[], KeyOf(AgentNotFound(catalog)), notFound);
    assert result.View() == ResultView([], 0, filed, [], [], [], ClearMessages);
    order, raised := CallEach(result, IdSet(agentList) - notFound, delete);
    FirstUncaughtIff(order, delete);
    ghost var done := order[..FirstUncaught(order, delete)];
    EmptyPrefix(Successes(done, delete));
    assert result.View() == ResultView(Successes(done, delete), 0, FailedAfter(filed, done, delete), [], [], [], ClearMessages);
    if raised.None? {
      assert done == order;
      result.SortByIntAndCount();
    }
  }

  /** The failures `clear` files: each unknown agent under 1701 and each failed deletion. */
  lemma ClearPairs(agentList: seq<Id>, systemAgents: set<Id>, deleted: seq<Id>, delete: Id -> Outcome, catalog: Catalog)
    ensures Pairs(ClearFailed(agentList, systemAgents, deleted, delete, catalog)) ==
              ErrorPairs(KeyOf(AgentNotFound(catalog)), NotFound(agentList, systemAgents)) +
              FailurePairs(IdSet(deleted), delete)
  {
    var k1701 := KeyOf(AgentNotFound(catalog));
    var notFound := NotFound(agentList, systemAgents);
    FiledPairs(k1701, notFound);
    FailedAfterPairs(AddIds(map[], k1701, notFound), deleted, delete);
  }

  /** `get_last_scan(agent_list)`: the last scan of the first agent, the only affected item. */
  method GetLastScan(agentList: seq<Id>, lastScan: Id -> Value) returns (result: AffectedItemsResult)
    requires |agentList| >= 1
    ensures fresh(result) && result.Valid()
    ensures result.affectedItems == [lastScan(agentList[0])]
    ensures result.totalAffectedItems == 1 && result.failedItems == map[]
    ensures result.messages == LastScanMessages
  {
    result := new AffectedItemsResult(LastScanMessages, [], [], []);
    result.AppendAffected(lastScan(agentList[0]));
    result.totalAffectedItems := |result.affectedItems|;
  }

  /**
   * A loop over a set of agents, in set iteration order (`order`): call once
   * for each and file each failure the `except SecuricsError` clause catches.
   * The first failure it does not catch stops the loop and is `raised`.
   */
  method CallEach(result: AffectedItemsResult, eligible: set<Id>, call: Id -> Outcome)
    returns (order: seq<Id>, raised: Option<ErrorRecord>)
    requires result.Valid()
    modifies result
    ensures result.Valid()
    ensures IdSet(order) == eligible && |order| == |eligible|
    ensures raised.None? <==> FirstUncaught(order, call) == |order|
    ensures raised.Some? ==> raised.value == call(order[FirstUncaught(order, call)]).error
    ensures var done := order[..FirstUncaught(order, call)];
            result.View() == old(result.View()).(affectedItems := old(result.affectedItems) + Successes(done, call),
                                                 failedItems := FailedAfter(old(result.failedItems), done, call))
  {
    order := SetToSeq(eligible);
    ghost var k := FirstUncaught(order, call);
    var affected := result.affectedItems;
    var failed := result.failedItems;
    raised := None;
    var i := 0;
    while i < |order| && raised.None?
      invariant i <= k
      invariant raised.Some? ==> i == k < |order| && raised.value == call(order[i]).error
      invariant affected == result.affectedItems + Successes(order[..i], call)
      invariant failed == FailedAfter(result.failedItems, order[..i], call)
      decreases |order| - i, if raised.None? then 1 else 0
      modifies {}
    {
      var a := order[i];
      match call(a) {
        case Done =>
          SuccessesSnoc(order, i, call);
          FailedAfterSnoc(result.failedItems, order, i, call);
          affected := affected + [VStr(a)];
          i := i + 1;
        case Fails(e) =>
          if IsErrorFamily(e.kind) {
            SuccessesSnoc(order, i, call);
            FailedAfterSnoc(result.failedItems, order, i, call);
            failed := AddFailed(failed, KeyOf(e), a);
            i := i + 1;
          } else {
            raised := Some(e);
          }
      }
    }
    result.affectedItems := affected;
    result.failedItems := failed;
  }
}
