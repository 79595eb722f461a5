/** `send_event_to_analysisd`: forward each event to analysisd, one datagram per event. */
module Event {
  import opened Wrappers
  import opened Text
  import opened Values
  import opened Exceptions
  import opened Results
  import opened Queue

  const Header := "1:API-Webhook:"

  const EventMessages := Messages("All events were forwarded to analisysd",
                                  "Some events were forwarded to analisysd",
                                  "No events were forwarded to analisysd")

  /** What `send_msg` does for one event: success, or the error it raises. */
  function EventOutcome(event: string, path: string, transport: Transport, catalog: Catalog): Outcome
  {
    match AnalysisdSend(Header, event, path, transport, catalog)
    case Sent(_, _) => Done
    case Refused(e) => Fails(e)
    case SendFailed(_, e) => Fails(e)
  }

  function Outcomes(path: string, transport: Transport, catalog: Catalog): Id -> Outcome
  {
    e => EventOutcome(e, path, transport, catalog)
  }

  /**
   * Both errors `send_msg` can raise (1012 and 1014) are plain `SecuricsError`s,
   * so the `except SecuricsError` around it catches every failure and the loop
   * always runs to the end.
   */
  lemma EventFailuresCaught(event: string, path: string, transport: Transport, catalog: Catalog)
    ensures Caught(EventOutcome(event, path, transport, catalog))
    ensures EventOutcome(event, path, transport, catalog).Fails? ==>
              EventOutcome(event, path, transport, catalog).error.code in {1012, 1014}
  {
  }

  /** An event that fits the limit. */
  predicate Fits(event: string)
  {
    Utf8Length(Header + event) <= AnalysisdMaxSize
  }

  /** The datagrams handed to the socket, in event order: one per event that fits. */
  function Written(events: seq<string>): (r: seq<string>)
    ensures forall e :: Header + e in r <==> e in events && Fits(e)
    ensures |r| <= |events|
  {
    if |events| == 0 then []
    else
      var init, last := events[..|events| - 1], events[|events| - 1];
      var rest := Written(init);
      assert forall e :: e in events <==> e in init || e == last by {
        assert events == init + [last];
      }
      assert forall e :: Header + e == Header + last ==> e == last by {
        forall e | Header + e == Header + last
          ensures e == last
        {
          assert e == (Header + e)[|Header|..];
        }
      }
      if Fits(last) then rest + [Header + last] else rest
  }

  /** The loop of `send_event_to_analysisd`. */
  method SendEach(events: seq<string>, path: string, transport: Transport, catalog: Catalog)
    returns (affected: seq<Value>, failed: FailedMap, written: seq<string>)
    ensures affected == Successes(events, Outcomes(path, transport, catalog))
    ensures failed == FailedAfter(map[], events, Outcomes(path, transport, catalog))
    ensures written == Written(events)
  {
    var outcome := Outcomes(path, transport, catalog);
    affected, failed, written := [], map[], [];
    for i := 0 to |events|
      invariant affected == Successes(events[..i], outcome)
      invariant failed == FailedAfter(map[], events[..i], outcome)
      invariant written == Written(events[..i])
    {
      var event := events[i];
      SendStep(events, i, path, transport, catalog);
      var reply := AnalysisdSend(Header, event, path, transport, catalog);
      if !reply.Refused? {
        written := written + [Header + event];
      }
      match reply {
        case Sent(_, _) =>
          affected := affected + [VStr(event)];
        case Refused(e) =>
          failed := AddFailed(failed, KeyOf(e), event);
        case SendFailed(_, e) =>
          failed := AddFailed(failed, KeyOf(e), event);
      }
    }
    assert events[..|events|] == events;
  }

  /** Sending event `i`: how the successes, the failures and the datagrams grow. */
  lemma SendStep(events: seq<string>, i: nat, path: string, transport: Transport, catalog: Catalog)
    requires i < |events|
    ensures var o, e := Outcomes(path, transport, catalog), events[i];
            var reply := AnalysisdSend(Header, e, path, transport, catalog);
            Successes(events[..i + 1], o) == Successes(events[..i], o) + (if reply.Sent? then [VStr(e)] else []) &&
            FailedAfter(map[], events[..i + 1], o) ==
              (if reply.Sent? then FailedAfter(map[], events[..i], o)
               else AddFailed(FailedAfter(map[], events[..i], o), KeyOf(reply.error), e)) &&
            Written(events[..i + 1]) == Written(events[..i]) + (if reply.Refused? then [] else [Header + e])
  {
    var o := Outcomes(path, transport, catalog);
    SuccessesSnoc(events, i, o);
    FailedAfterSnoc(map[], events, i, o);
    WrittenSnoc(events, i);
    assert o(events[i]) == EventOutcome(events[i], path, transport, catalog);
  }

  /** Event `i` adds its datagram when it fits. */
  lemma WrittenSnoc(events: seq<string>, i: nat)
    requires i < |events|
    ensures Written(events[..i + 1]) == Written(events[..i]) + (if Fits(events[i]) then [Header + events[i]] else [])
  {
    assert events[..i + 1][..i] == events[..i];
  }

  /**
   * `send_event_to_analysisd(events)`: the events that were forwarded, in
   * their order, and each failing event filed under the error it raised.
   */
  method SendEventToAnalysisd(events: seq<string>, path: string, transport: Transport, catalog: Catalog)
    returns (result: AffectedItemsResult, written: seq<string>)
    ensures fresh(result) && result.Valid()
    ensures result.affectedItems == Successes(events, Outcomes(path, transport, catalog))
    ensures result.totalAffectedItems == |result.affectedItems|
    ensures result.failedItems == FailedAfter(map[], events, Outcomes(path, transport, catalog))
    ensures written == Written(events)
    ensures result.messages == EventMessages
  {
    result := new AffectedItemsResult(EventMessages, [], [], []);
    var affected, failed;
    affected, failed, written := SendEach(events, path, transport, catalog);
    result.affectedItems := affected;
    result.failedItems := failed;
    result.totalAffectedItems := |affected|;
  }

  /** An event over the size limit is never written and is filed under error 1012. */
  lemma OversizeEventFails(events: seq<string>, e: string, path: string, transport: Transport, catalog: Catalog)
    requires e in events && !Fits(e)
    ensures Header + e !in Written(events)
    ensures (KeyOf(WithText(Error, 1012, TooLarge, catalog)), e) in
              Pairs(FailedAfter(map[], events, Outcomes(path, transport, catalog)))
  {
    var o := Outcomes(path, transport, catalog);
    FailedAfterPairs(map[], events, o);
    assert e in IdSet(events);
    assert o(e) == Fails(WithText(Error, 1012, TooLarge, catalog));
  }

  /** Every event forwarded: the message says all of them were. */
  lemma {:induction false} EventMessageAll(events: seq<string>, path: string, transport: Transport, catalog: Catalog)
    requires |events| > 0
    requires forall i :: 0 <= i < |events| ==> Outcomes(path, transport, catalog)(events[i]).Done?
    ensures var o := Outcomes(path, transport, catalog);
            MessageOf(Successes(events, o), FailedAfter(map[], events, o), EventMessages) == EventMessages.all
  {
    var o := Outcomes(path, transport, catalog);
    NoFailuresIff(events, o);
    SuccessesMembers(events, o);
    assert VStr(events[0]) in Successes(events, o);
  }

  /** Some events forwarded and some not: the message says some were. */
  lemma {:induction false} EventMessageSome(events: seq<string>, i: nat, j: nat, path: string, transport: Transport, catalog: Catalog)
    requires i < |events| && j < |events|
    requires Outcomes(path, transport, catalog)(events[i]).Done?
    requires Outcomes(path, transport, catalog)(events[j]).Fails?
    ensures var o := Outcomes(path, transport, catalog);
            MessageOf(Successes(events, o), FailedAfter(map[], events, o), EventMessages) == EventMessages.some
  {
    var o := Outcomes(path, transport, catalog);
    NoFailuresIff(events, o);
    SuccessesMembers(events, o);
    assert VStr(events[i]) in Successes(events, o);
  }

  /** No event forwarded: the message says none were. */
  lemma {:induction false} EventMessageNone(events: seq<string>, path: string, transport: Transport, catalog: Catalog)
    requires forall i :: 0 <= i < |events| ==> Outcomes(path, transport, catalog)(events[i]).Fails?
    ensures var o := Outcomes(path, transport, catalog);
            MessageOf(Successes(events, o), FailedAfter(map[], events, o), EventMessages) == EventMessages.none
  {
    NoSuccesses(events, Outcomes(path, transport, catalog));
  }
}
