/**
 * `run_command`: send an active-response command to each listed agent,
 * recording per agent whether it was sent.
 */
module ActiveResponseApi {
  import opened Values
  import opened Exceptions
  import opened Sorting
  import opened Results

  const RunCommandMessages := Messages("AR command was sent to all agents",
                                       "AR command was not sent to some agents",
                                       "AR command was not sent to any agent")

  /** `SecuricsResourceNotFound(1701)`: the agent does not exist. */
  function AgentNotFound(catalog: Catalog): ErrorRecord
  {
    Simple(ResourceNotFound, 1701, catalog)
  }

  /** `SecuricsError(1703)`: the command cannot target the manager, agent 000. */
  function ManagerTarget(catalog: Catalog): ErrorRecord
  {
    Simple(Error, 1703, catalog)
  }

  /** What happens for one agent: the two checks, in that order, then the send. */
  function AgentOutcome(a: Id, systemAgents: set<Id>, send: Id -> Outcome, catalog: Catalog): Outcome
  {
    if a !in systemAgents then Fails(AgentNotFound(catalog))
    else if a == "000" then Fails(ManagerTarget(catalog))
    else send(a)
  }

  function Outcomes(systemAgents: set<Id>, send: Id -> Outcome, catalog: Catalog): Id -> Outcome
  {
    a => AgentOutcome(a, systemAgents, send, catalog)
  }

  /** The agents the command is actually sent to, in list order. */
  function SentTo(agentList: seq<Id>, systemAgents: set<Id>): (r: seq<Id>)
    ensures forall a :: a in r <==> a in agentList && a in systemAgents && a != "000"
    ensures |r| <= |agentList|
  {
    if |agentList| == 0 then []
    else
      var rest := SentTo(agentList[..|agentList| - 1], systemAgents);
      var last := agentList[|agentList| - 1];
      if last in systemAgents && last != "000" then rest + [last] else rest
  }

  /**
   * `run_command(agent_list, command, arguments, alert)`. `send(a)` is what
   * `send_ar_message` does for agent `a`; `sent` lists the agents it is called
   * for, in order.
   */
  method RunCommand(agentList: seq<Id>, systemAgents: set<Id>, send: Id -> Outcome, catalog: Catalog)
    returns (result: AffectedItemsResult, sent: seq<Id>)
    ensures fresh(result) && result.Valid()
    ensures sent == SentTo(agentList, systemAgents)
    ensures var o := Outcomes(systemAgents, send, catalog);
            result.View() == ResultView(SortBy(Successes(agentList, o), IntBefore), |Successes(agentList, o)|,
                                        FailedAfter(map[], agentList, o), [], [], [], RunCommandMessages)
  {
    result := new AffectedItemsResult(RunCommandMessages, [], [], []);
    var affected, failed;
    affected, failed, sent := Dispatch(agentList, systemAgents, send, catalog);
    result.affectedItems := affected;
    result.failedItems := failed;
    assert result.View() == ResultView(affected, 0, failed, [], [], [], RunCommandMessages);
    result.SortByIntAndCount();
  }

  /** The loop of `run_command`: the two checks and the send, agent by agent. */
  method Dispatch(agentList: seq<Id>, systemAgents: set<Id>, send: Id -> Outcome, catalog: Catalog)
    returns (affected: seq<Value>, failed: FailedMap, sent: seq<Id>)
    ensures affected == Successes(agentList, Outcomes(systemAgents, send, catalog))
    ensures failed == FailedAfter(map[], agentList, Outcomes(systemAgents, send, catalog))
    ensures sent == SentTo(agentList, systemAgents)
  {
    var outcome := Outcomes(systemAgents, send, catalog);
    affected, failed, sent := [], map[], [];
    for i := 0 to |agentList|
      invariant affected == Successes(agentList[..i], outcome)
      invariant failed == FailedAfter(map[], agentList[..i], outcome)
      invariant sent == SentTo(agentList[..i], systemAgents)
    {
      var a := agentList[i];
      SuccessesSnoc(agentList, i, outcome);
      FailedAfterSnoc(map[], agentList, i, outcome);
      assert agentList[..i + 1][..i] == agentList[..i];
      if a in systemAgents && a != "000" {
        sent := sent + [a];
      }
      var o := AgentOutcome(a, systemAgents, send, catalog);
      assert outcome(a) == o;
      match o {
        case Done =>
          affected := affected + [VStr(a)];
        case Fails(e) =>
          failed := AddFailed(failed, KeyOf(e), a);
      }
    }
    assert agentList[..|agentList|] == agentList;
  }

  /**
   * 'AR command was sent to all agents' when every agent is sent the command;
   * 'AR command was not sent to any agent' when the only agent fails.
   */
  lemma RunCommandAllSent(agentList: seq<Id>, systemAgents: set<Id>, send: Id -> Outcome, catalog: Catalog)
    requires |agentList| > 0
    requires forall i :: 0 <= i < |agentList| ==> Outcomes(systemAgents, send, catalog)(agentList[i]).Done?
    ensures var o := Outcomes(systemAgents, send, catalog);
            MessageOf(SortBy(Successes(agentList, o), IntBefore), FailedAfter(map[], agentList, o), RunCommandMessages) ==
            RunCommandMessages.all
  {
    AllDoneMessage(agentList, Outcomes(systemAgents, send, catalog), RunCommandMessages);
  }

  /** A single agent whose command fails: the "none" message. */
  lemma RunCommandNoneSent(agentList: seq<Id>, systemAgents: set<Id>, send: Id -> Outcome, catalog: Catalog)
    requires |agentList| == 1 && Outcomes(systemAgents, send, catalog)(agentList[0]).Fails?
    ensures var o := Outcomes(systemAgents, send, catalog);
            MessageOf(SortBy(Successes(agentList, o), IntBefore), FailedAfter(map[], agentList, o), RunCommandMessages) ==
            RunCommandMessages.none
  {
    assert agentList[..0] == [];
  }
}
