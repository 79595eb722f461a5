/**
 * `AffectedItemsSecuricsResult`: the outcome of one operation fanned out over
 * many ids. Affected items are kept in order; failures are grouped as a map
 * from an error (its code and rendered message) to the set of ids that failed
 * with it.
 */
module Results {
  import opened Wrappers
  import opened Values
  import opened Exceptions
  import opened Sorting
  import opened Text

  type Id = string
  type FailedMap = map<ErrorKey, set<Id>>

  /** Every recorded error carries at least one id. */
  ghost predicate Grouped(m: FailedMap)
  {
    forall k :: k in m ==> m[k] != {}
  }

  /** The (error, id) pairs a failed map records. */
  function Pairs(m: FailedMap): set<(ErrorKey, Id)>
  {
    set k, id | k in m && id in m[k] :: (k, id)
  }

  /** `total_failed_items`: one per (error, id) pair. */
  function TotalFailed(m: FailedMap): nat
  {
    |Pairs(m)|
  }

  /** A grouped map records no pair exactly when it is empty. */
  lemma NoPairsIff(m: FailedMap)
    ensures Grouped(m) ==> (Pairs(m) == {} <==> m == map[])
  {
    if Grouped(m) && m != map[] {
      var k :| k in m;
      var id :| id in m[k];
      assert (k, id) in Pairs(m);
    }
  }

  /** `add_failed_item(id_, error)`: file `id` under `key`, creating the entry when it is new. */
  function AddFailed(m: FailedMap, key: ErrorKey, id: Id): (r: FailedMap)
    ensures r.Keys == m.Keys + {key}
    ensures Grouped(m) ==> Grouped(r)
  {
    m[key := (if key in m then m[key] else {}) + {id}]
  }

  /** Adding a failed item records exactly one more (error, id) pair. */
  lemma AddFailedPairs(m: FailedMap, key: ErrorKey, id: Id)
    ensures Pairs(AddFailed(m, key, id)) == Pairs(m) + {(key, id)}
  {
    var r := AddFailed(m, key, id);
    assert Pairs(r) == Pairs(m) + {(key, id)} by {
      forall p | p in Pairs(r) ensures p in Pairs(m) + {(key, id)} {
        var (k, x) := p;
        if k != key { assert x in m[k]; }
      }
      forall p | p in Pairs(m) + {(key, id)} ensures p in Pairs(r) {
        var (k, x) := p;
        assert k in r && x in r[k];
      }
    }
  }

  /** File every id of `ids` under `key`. */
  function AddIds(m: FailedMap, key: ErrorKey, ids: set<Id>): (r: FailedMap)
    ensures ids != {} ==> r.Keys == m.Keys + {key}
    ensures ids == {} ==> r == m
    ensures Grouped(m) ==> Grouped(r)
  {
    if ids == {} then m
    else m[key := (if key in m then m[key] else {}) + ids]
  }

  /** Adding a set of ids under one error records exactly those (error, id) pairs more. */
  lemma AddIdsPairs(m: FailedMap, key: ErrorKey, ids: set<Id>)
    ensures Pairs(AddIds(m, key, ids)) == Pairs(m) + set id | id in ids :: (key, id)
  {
    if ids != {} {
      var r := AddIds(m, key, ids);
      assert Pairs(r) == Pairs(m) + set id | id in ids :: (key, id) by {
        forall p | p in Pairs(r) ensures p in Pairs(m) + set id | id in ids :: (key, id) {
          var (k, x) := p;
          if k != key { assert x in m[k]; }
        }
        forall p | p in Pairs(m) + set id | id in ids :: (key, id) ensures p in Pairs(r) {
          var (k, x) := p;
          assert k in r && x in r[k];
        }
      }
    }
  }

  /** `add_failed_items_from(other)`: every (error, id) of `other` filed into `m`. */
  function MergeFailed(m: FailedMap, other: FailedMap): (r: FailedMap)
    ensures forall k :: k in r <==> k in m || (k in other && other[k] != {})
    ensures Grouped(m) ==> Grouped(r)
  {
    map k | k in m.Keys + (set j | j in other && other[j] != {}) ::
      (if k in m then m[k] else {}) + (if k in other then other[k] else {})
  }

  /** Merging records the pairs of both maps and nothing else. */
  lemma MergeFailedPairs(m: FailedMap, other: FailedMap)
    ensures Pairs(MergeFailed(m, other)) == Pairs(m) + Pairs(other)
  {
    var r := MergeFailed(m, other);
    assert Pairs(r) == Pairs(m) + Pairs(other) by {
      forall p | p in Pairs(r) ensures p in Pairs(m) + Pairs(other) {
        var (k, x) := p;
        if k in m && x in m[k] { assert p in Pairs(m); } else { assert p in Pairs(other); }
      }
      forall p | p in Pairs(m) + Pairs(other) ensures p in Pairs(r) {
        var (k, x) := p;
        assert k in r && x in r[k];
      }
    }
  }

  /** `remove_failed_items(code)`: drop every entry whose error has one of `codes`. */
  function RemoveFailed(m: FailedMap, codes: set<int>): (r: FailedMap)
    ensures Pairs(r) == set p | p in Pairs(m) && p.0.code !in codes
    ensures forall k :: k in r <==> k in m && k.code !in codes
    ensures forall k :: k in r ==> r[k] == m[k]
  {
    var r := map k | k in m && k.code !in codes :: m[k];
    assert Pairs(r) == set p | p in Pairs(m) && p.0.code !in codes by {
      forall p | p in Pairs(m) && p.0.code !in codes ensures p in Pairs(r) {
        var (k, x) := p;
        assert k in r && x in r[k];
      }
    }
    r
  }

  /** Two grouped maps that record the same pairs are the same map. */
  lemma {:induction false} PairsDetermine(a: FailedMap, b: FailedMap)
    requires Grouped(a) && Grouped(b)
    requires Pairs(a) == Pairs(b)
    ensures a == b
  {
    forall k | k in a ensures k in b && a[k] == b[k] {
      var x :| x in a[k];
      assert (k, x) in Pairs(b);
      forall y | y in a[k] ensures y in b[k] { assert (k, y) in Pairs(b); }
      forall y | y in b[k] ensures y in a[k] { assert (k, y) in Pairs(a); }
    }
    forall k | k in b ensures k in a {
      var x :| x in b[k];
      assert (k, x) in Pairs(a);
    }
  }

  /** Several ids failing with one error end up together in one entry. */
  lemma {:induction false} SameErrorGroups(key: ErrorKey, ids: seq<Id>)
    requires |ids| > 0
    ensures AddAll(map[], key, ids) == map[key := set id | id in ids]
  {
    AddAllPairs(map[], key, ids);
    var r := AddAll(map[], key, ids);
    var expected := map[key := set id | id in ids];
    assert ids[0] in expected[key];
    assert Pairs(expected) == set id | id in ids :: (key, id) by {
      forall p | p in Pairs(expected) ensures p in set id | id in ids :: (key, id) {
        var (k, x) := p;
        assert x in ids;
      }
    }
    PairsDetermine(r, expected);
  }

  /** `add_failed_item` called once per id, in order, with the same error. */
  function AddAll(m: FailedMap, key: ErrorKey, ids: seq<Id>): FailedMap
    decreases |ids|
  {
    if |ids| == 0 then m else AddAll(AddFailed(m, key, ids[0]), key, ids[1..])
  }

  lemma {:induction false} AddAllPairs(m: FailedMap, key: ErrorKey, ids: seq<Id>)
    ensures Pairs(AddAll(m, key, ids)) == Pairs(m) + set id | id in ids :: (key, id)
    ensures Grouped(m) ==> Grouped(AddAll(m, key, ids))
    decreases |ids|
  {
    if |ids| > 0 {
      AddFailedPairs(m, key, ids[0]);
      AddAllPairs(AddFailed(m, key, ids[0]), key, ids[1..]);
      assert forall id :: id in ids <==> id == ids[0] || id in ids[1..];
    }
  }

  /** Filing a set of ids under one error in an empty map records exactly their pairs. */
  lemma FiledPairs(key: ErrorKey, ids: set<Id>)
    ensures Pairs(AddIds(map[], key, ids)) == ErrorPairs(key, ids)
  {
    AddIdsPairs(map[], key, ids);
    assert Pairs(map[]) == {};
  }

  /** Filing a list of ids under one error adds the pairs of the ids it holds. */
  lemma ListedPairs(m: FailedMap, key: ErrorKey, ids: seq<Id>)
    ensures Pairs(AddAll(m, key, ids)) == Pairs(m) + ErrorPairs(key, IdSet(ids))
  {
    AddAllPairs(m, key, ids);
    assert (set id | id in ids :: (key, id)) == ErrorPairs(key, IdSet(ids));
  }

  /** A first failure counts one failed item; a repeated (error, id) counts nothing more. */
  lemma AddFailedCounts(m: FailedMap, key: ErrorKey, id: Id)
    ensures TotalFailed(AddFailed(m, key, id)) == TotalFailed(m) + (if (key, id) in Pairs(m) then 0 else 1)
    ensures TotalFailed(AddFailed(map[], key, id)) == 1
  {
    AddFailedPairs(m, key, id);
    AddFailedPairs(map[], key, id);
    assert Pairs(map[]) == {};
    assert Pairs(AddFailed(map[], key, id)) == {(key, id)};
    if (key, id) in Pairs(m) {
      assert Pairs(m) + {(key, id)} == Pairs(m);
    }
  }

  /** Merging into an empty result copies the other result's failures exactly. */
  lemma MergeIntoEmpty(other: FailedMap)
    requires Grouped(other)
    ensures MergeFailed(map[], other) == other
  {
    assert Grouped(map[]) && Pairs(map[]) == {};
    MergeFailedPairs(map[], other);
    PairsDetermine(MergeFailed(map[], other), other);
  }

  /** Removing the only codes present leaves no failed items. */
  lemma RemoveAllCodes(m: FailedMap, codes: set<int>)
    requires forall k :: k in m ==> k.code in codes
    ensures RemoveFailed(m, codes) == map[]
  {
  }

  datatype Messages = Messages(all: string, some: string, none: string)

  /** `message`: none when nothing was affected, all when nothing failed, some otherwise. */
  function MessageOf(affected: seq<Value>, failed: FailedMap, msgs: Messages): string
  {
    if |affected| == 0 then msgs.none else if failed == map[] then msgs.all else msgs.some
  }

  /** Every call succeeded on a non-empty list: the "all" message, whatever the order of the items. */
  lemma AllDoneMessage(ids: seq<Id>, outcome: Id -> Outcome, msgs: Messages)
    requires |ids| > 0 && forall i :: 0 <= i < |ids| ==> outcome(ids[i]).Done?
    ensures MessageOf(SortBy(Successes(ids, outcome), IntBefore), FailedAfter(map[], ids, outcome), msgs) == msgs.all
  {
    NoFailuresIff(ids, outcome);
    SuccessesMembers(ids, outcome);
    assert VStr(ids[0]) in Successes(ids, outcome);
  }

  /** `_merge_str(a, b, key)`: the first value for `older_than`, both values joined by '|' otherwise. */
  function MergeStr(a: string, b: string, key: Option<string>): (r: string)
    ensures key == Some("older_than") ==> r == a
    ensures key != Some("older_than") ==> |r| == |a| + 1 + |b| && r[..|a|] == a && r[|a|] == '|' && r[|a| + 1..] == b
  {
    if key == Some("older_than") then a else a + "|" + b
  }

  /** Integer order of agent ids, the key of `sort(key=int)`. */
  function IntKey(v: Value): int
  {
    if v.VStr? && ParseInt(v.s).Some? then ParseInt(v.s).value else 0
  }

  predicate IntBefore(a: Value, b: Value)
  {
    IntKey(a) < IntKey(b)
  }

  predicate IsIntText(v: Value)
  {
    v.VStr? && ParseInt(v.s).Some?
  }

  /** `sort(key=int)` orders the items by value and keeps them all. */
  lemma SortByIntSorted(xs: seq<Value>)
    ensures SortedBy(SortBy(xs, IntBefore), IntBefore)
    ensures multiset(SortBy(xs, IntBefore)) == multiset(xs)
    ensures forall i, j :: 0 <= i < j < |xs| ==> IntKey(SortBy(xs, IntBefore)[i]) <= IntKey(SortBy(xs, IntBefore)[j])
  {
    SortBySorted(xs, IntBefore);
  }

  /** The state of a result, as the value `encode_json` writes out. */
  datatype ResultView = ResultView(
    affectedItems: seq<Value>,
    totalAffectedItems: int,
    failedItems: FailedMap,
    sortFields: seq<string>,
    sortCasting: seq<string>,
    sortAscending: seq<Value>,
    messages: Messages)

  /** One failed entry as serialised: the error and its ids as a list. */
  datatype FailedEntry = FailedEntry(error: ErrorKey, ids: seq<Id>)

  datatype Payload = Payload(view: ResultView, failed: seq<FailedEntry>)

  /** What decoding the failed entries rebuilds. */
  function EntriesToMap(es: seq<FailedEntry>): FailedMap
  {
    if |es| == 0 then map[]
    else
      var last := es[|es| - 1];
      EntriesToMap(es[..|es| - 1])[last.error := IdSet(last.ids)]
  }

  function IdSet(ids: seq<Id>): set<Id>
  {
    set id | id in ids
  }

  /** The second operand of `|` or of `add_failed_items_from`. */
  datatype Operand = ResultOperand(r: AffectedItemsResult) | ErrorOperand(e: ErrorRecord) | OtherOperand

  datatype OrOutcome = Combined(r: AffectedItemsResult) | ReturnedException(e: ErrorRecord) | Raised(e: ErrorRecord)

  /** What one foreign call (a socket send, a database delete) did for one id. */
  datatype Outcome = Done | Fails(error: ErrorRecord)

  /** The ids whose call succeeded, in call order, as affected items. */
  function Successes(ids: seq<Id>, outcome: Id -> Outcome): (r: seq<Value>)
    ensures |r| <= |ids|
  {
    if |ids| == 0 then []
    else
      var rest := Successes(ids[..|ids| - 1], outcome);
      var last := ids[|ids| - 1];
      if outcome(last).Done? then rest + [VStr(last)] else rest
  }

  lemma EmptyPrefix(s: seq<Value>)
    ensures [] + s == s
  {
  }

  /** Calling id `i` appends it to the successes when the call succeeds. */
  lemma SuccessesSnoc(ids: seq<Id>, i: nat, outcome: Id -> Outcome)
    requires i < |ids|
    ensures Successes(ids[..i + 1], outcome) ==
              Successes(ids[..i], outcome) + (if outcome(ids[i]).Done? then [VStr(ids[i])] else [])
  {
    assert ids[..i + 1][..i] == ids[..i];
  }

  /** The affected items are exactly the ids whose call succeeded. */
  lemma {:induction false} SuccessesMembers(ids: seq<Id>, outcome: Id -> Outcome)
    ensures forall v :: v in Successes(ids, outcome) <==> v.VStr? && v.s in ids && outcome(v.s).Done?
  {
    if |ids| > 0 {
      SuccessesMembers(ids[..|ids| - 1], outcome);
      assert ids == ids[..|ids| - 1] + [ids[|ids| - 1]];
    }
  }

  /** When every call fails, nothing is affected. */
  lemma {:induction false} NoSuccesses(ids: seq<Id>, outcome: Id -> Outcome)
    requires forall i :: 0 <= i < |ids| ==> outcome(ids[i]).Fails?
    ensures Successes(ids, outcome) == []
  {
    if |ids| > 0 {
      NoSuccesses(ids[..|ids| - 1], outcome);
    }
  }

  /** The (error, id) pairs of the ids whose call failed. */
  function FailurePairs(ids: set<Id>, outcome: Id -> Outcome): set<(ErrorKey, Id)>
  {
    set a | a in ids && outcome(a).Fails? :: (KeyOf(outcome(a).error), a)
  }

  /** The failed map after calling once per id, in order, and filing each failure. */
  function FailedAfter(m: FailedMap, ids: seq<Id>, outcome: Id -> Outcome): (r: FailedMap)
    ensures Grouped(m) ==> Grouped(r)
    ensures m.Keys <= r.Keys
  {
    if |ids| == 0 then m
    else
      var prior := FailedAfter(m, ids[..|ids| - 1], outcome);
      var last := ids[|ids| - 1];
      match outcome(last)
      case Done => prior
      case Fails(e) => AddFailed(prior, KeyOf(e), last)
  }

  /** Calling id `i` files it under its error when the call fails. */
  lemma FailedAfterSnoc(m: FailedMap, ids: seq<Id>, i: nat, outcome: Id -> Outcome)
    requires i < |ids|
    ensures FailedAfter(m, ids[..i + 1], outcome) ==
              match outcome(ids[i])
              case Done => FailedAfter(m, ids[..i], outcome)
              case Fails(e) => AddFailed(FailedAfter(m, ids[..i], outcome), KeyOf(e), ids[i])
  {
    assert ids[..i + 1][..i] == ids[..i];
  }

  /**
   * `except SecuricsError` handles the call: it succeeded, or what it raised
   * is of the `SecuricsError` family. Any other exception propagates.
   */
  predicate Caught(o: Outcome)
  {
    o.Done? || IsErrorFamily(o.error.kind)
  }

  /** The position of the first call whose exception propagates, or `|ids|` when every one is caught. */
  function FirstUncaught(ids: seq<Id>, outcome: Id -> Outcome): (k: nat)
    ensures k <= |ids|
    ensures forall i :: 0 <= i < k ==> Caught(outcome(ids[i]))
    ensures k < |ids| ==> !Caught(outcome(ids[k]))
  {
    if |ids| == 0 || !Caught(outcome(ids[0])) then 0
    else
      var k := 1 + FirstUncaught(ids[1..], outcome);
      assert forall i :: 1 <= i < k ==> ids[i] == ids[1..][i - 1];
      k
  }

  /** The loop runs to the end exactly when no call raises an exception it does not catch. */
  lemma FirstUncaughtIff(ids: seq<Id>, outcome: Id -> Outcome)
    ensures FirstUncaught(ids, outcome) == |ids| <==> forall a :: a in ids ==> Caught(outcome(a))
    ensures FirstUncaught(ids, outcome) < |ids| ==> ids[FirstUncaught(ids, outcome)] in ids
  {
    var k := FirstUncaught(ids, outcome);
    if k == |ids| {
      forall a | a in ids
        ensures Caught(outcome(a))
      {
        var i :| 0 <= i < |ids| && ids[i] == a;
      }
    }
  }

  /** Exactly the failing ids are filed, each under the error its call raised. */
  lemma {:induction false} FailedAfterPairs(m: FailedMap, ids: seq<Id>, outcome: Id -> Outcome)
    ensures Pairs(FailedAfter(m, ids, outcome)) == Pairs(m) + FailurePairs(IdSet(ids), outcome)
  {
    if |ids| > 0 {
      var init, last := ids[..|ids| - 1], ids[|ids| - 1];
      FailedAfterPairs(m, init, outcome);
      assert IdSet(ids) == IdSet(init) + {last} by {
        assert ids == init + [last];
      }
      assert FailurePairs(IdSet(ids), outcome) == FailurePairs(IdSet(init), outcome) + FailurePairs({last}, outcome);
      match outcome(last) {
        case Done =>
          assert FailurePairs({last}, outcome) == {};
        case Fails(e) =>
          AddFailedPairs(FailedAfter(m, init, outcome), KeyOf(e), last);
          assert FailurePairs({last}, outcome) == {(KeyOf(e), last)};
      }
    }
  }

  /** Nothing is filed exactly when every call succeeds. */
  lemma {:induction false} NoFailuresIff(ids: seq<Id>, outcome: Id -> Outcome)
    ensures FailedAfter(map[], ids, outcome) == map[] <==> forall i :: 0 <= i < |ids| ==> outcome(ids[i]).Done?
  {
    if |ids| > 0 {
      var init, last := ids[..|ids| - 1], ids[|ids| - 1];
      NoFailuresIff(init, outcome);
      assert forall i :: 0 <= i < |init| ==> init[i] == ids[i];
      match outcome(last) {
        case Done =>
        case Fails(e) =>
          assert KeyOf(e) in FailedAfter(map[], ids, outcome);
      }
    }
  }

  /** Every id of `ids` filed under one error. */
  function ErrorPairs(key: ErrorKey, ids: set<Id>): set<(ErrorKey, Id)>
  {
    set a | a in ids :: (key, a)
  }

  class AffectedItemsResult {
    var affectedItems: seq<Value>
    var totalAffectedItems: int
    var failedItems: FailedMap
    var sortFields: seq<string>
    var sortCasting: seq<string>
    var sortAscending: seq<Value>
    var messages: Messages

    ghost predicate Valid()
      reads this
    {
      Grouped(failedItems)
    }

    function View(): ResultView
      reads this
    {
      ResultView(affectedItems, totalAffectedItems, failedItems, sortFields, sortCasting, sortAscending, messages)
    }

    /** `AffectedItemsSecuricsResult(all_msg=..., some_msg=..., none_msg=..., sort_... )` */
    constructor (msgs: Messages, sortFields: seq<string>, sortCasting: seq<string>, sortAscending: seq<Value>)
      ensures Valid()
      ensures View() == ResultView([], 0, map[], sortFields, sortCasting, sortAscending, msgs)
    {
      this.affectedItems := [];
      this.totalAffectedItems := 0;
      this.failedItems := map[];
      this.sortFields := sortFields;
      this.sortCasting := sortCasting;
      this.sortAscending := sortAscending;
      this.messages := msgs;
    }

    /** `total_failed_items`: zero exactly when nothing failed. */
    function TotalFailedItems(): (r: nat)
      reads this
      ensures Valid() ==> (r == 0 <==> failedItems == map[])
    {
      NoPairsIff(failedItems);
      TotalFailed(failedItems)
    }

    /**
     * `message`: one of the three texts; "none" when nothing was affected,
     * "all" when something was and nothing failed, "some" when both.
     */
    function Message(): (r: string)
      reads this
      ensures r == messages.all || r == messages.some || r == messages.none
      ensures |affectedItems| == 0 ==> r == messages.none
      ensures Valid() && |affectedItems| > 0 ==> (r == messages.all <== TotalFailedItems() == 0)
      ensures Valid() && |affectedItems| > 0 ==> (r == messages.some <== TotalFailedItems() > 0)
    {
      MessageOf(affectedItems, failedItems, messages)
    }

    method AddFailedItem(id: Id, error: ErrorRecord)
      requires Valid()
      modifies this
      ensures Valid()
      ensures View() == old(View()).(failedItems := AddFailed(old(failedItems), KeyOf(error), id))
    {
      failedItems := AddFailed(failedItems, KeyOf(error), id);
    }

    /** `affected_items.append(item)` */
    method AppendAffected(item: Value)
      modifies this
      ensures View() == old(View()).(affectedItems := old(affectedItems) + [item])
    {
      affectedItems := affectedItems + [item];
    }

    /** `add_failed_items_from(other)`; a non-result operand raises code 1000. */
    method AddFailedItemsFrom(other: Operand, catalog: Catalog) returns (raised: Option<ErrorRecord>)
      requires Valid()
      modifies this
      ensures Valid()
      ensures other.ResultOperand? ==>
                raised == None &&
                View() == old(View()).(failedItems := MergeFailed(old(failedItems), old(other.r.failedItems)))
      ensures !other.ResultOperand? ==> raised == Some(Simple(PlainException, 1000, catalog)) && View() == old(View())
    {
      if other.ResultOperand? {
        failedItems := MergeFailed(failedItems, other.r.failedItems);
        raised := None;
      } else {
        raised := Some(Simple(PlainException, 1000, catalog));
      }
    }

    method RemoveFailedItems(codes: set<int>)
      requires Valid()
      modifies this
      ensures Valid()
      ensures View() == old(View()).(failedItems := RemoveFailed(old(failedItems), codes))
    {
      failedItems := RemoveFailed(failedItems, codes);
    }

    /** `affected_items.sort(key=int)` followed by `total_affected_items = len(affected_items)`. */
    method SortByIntAndCount()
      modifies this
      ensures View() == old(View()).(affectedItems := SortBy(old(affectedItems), IntBefore),
                                     totalAffectedItems := |old(affectedItems)|)
    {
      affectedItems := SortBy(affectedItems, IntBefore);
      totalAffectedItems := |affectedItems|;
    }

    /**
     * `self | other`. Results combine into a new result; an Error with ids
     * folds them into a copy of this result as failures; another exception
     * is handed back; any other operand raises code 1000.
     */
    method Or(other: Operand, catalog: Catalog) returns (out: OrOutcome)
      requires Valid()
      requires other.ResultOperand? ==> other.r.Valid()
      ensures other.ResultOperand? ==>
                out.Combined? && fresh(out.r) && out.r.Valid() &&
                out.r.View() == ResultView(Dedup(affectedItems + other.r.affectedItems),
                                           totalAffectedItems + other.r.totalAffectedItems,
                                           MergeFailed(failedItems, other.r.failedItems),
                                           sortFields, sortCasting, sortAscending, messages)
      ensures other.ErrorOperand? && IsErrorFamily(other.e.kind) && other.e.ids != {} ==>
                out.Combined? && fresh(out.r) && out.r.Valid() &&
                out.r.View() == View().(failedItems := AddIds(failedItems, KeyOf(other.e), other.e.ids))
      ensures other.ErrorOperand? && !(IsErrorFamily(other.e.kind) && other.e.ids != {}) ==> out == ReturnedException(other.e)
      ensures other.OtherOperand? ==> out == Raised(Simple(PlainException, 1000, catalog))
    {
      match other
      case ResultOperand(o) =>
        var r := new AffectedItemsResult(messages, sortFields, sortCasting, sortAscending);
        r.affectedItems := Dedup(affectedItems + o.affectedItems);
        r.totalAffectedItems := totalAffectedItems + o.totalAffectedItems;
        var _ := r.AddFailedItemsFrom(ResultOperand(this), catalog);
        var _ := r.AddFailedItemsFrom(other, catalog);
        MergeAssociates(map[], failedItems, o.failedItems);
        out := Combined(r);
      case ErrorOperand(e) =>
        if IsErrorFamily(e.kind) && e.ids != {} {
          var r := new AffectedItemsResult(messages, sortFields, sortCasting, sortAscending);
          r.affectedItems := affectedItems;
          r.totalAffectedItems := totalAffectedItems;
          r.failedItems := failedItems;
          r.AddFailedIds(e.ids, e);
          out := Combined(r);
        } else {
          out := ReturnedException(e);
        }
      case OtherOperand =>
        out := Raised(Simple(PlainException, 1000, catalog));
    }

    /** `for id_ in ids: add_failed_item(id_, error)` */
    method AddFailedIds(ids: set<Id>, error: ErrorRecord)
      requires Valid()
      modifies this
      ensures Valid()
      ensures View() == old(View()).(failedItems := AddIds(old(failedItems), KeyOf(error), ids))
    {
      failedItems := FileEach(failedItems, KeyOf(error), ids);
    }

    /** `[add_failed_item(id_, error) for id_ in ids]` over a list. */
    method AddFailedList(ids: seq<Id>, error: ErrorRecord)
      requires Valid()
      modifies this
      ensures Valid()
      ensures View() == old(View()).(failedItems := AddAll(old(failedItems), KeyOf(error), ids))
    {
      AddAllPairs(failedItems, KeyOf(error), ids);
      failedItems := AddAll(failedItems, KeyOf(error), ids);
    }

    /** `encode_json()`: the state, with each failed entry's ids written out as a list. */
    method EncodeJson() returns (p: Payload)
      ensures p.view == View()
      ensures EntriesToMap(p.failed) == failedItems
      ensures forall i :: 0 <= i < |p.failed| ==> p.failed[i].error in failedItems &&
                                                  |p.failed[i].ids| == |failedItems[p.failed[i].error]|
    {
      var entries: seq<FailedEntry> := [];
      var todo := failedItems.Keys;
      while todo != {}
        invariant todo <= failedItems.Keys
        invariant EntriesToMap(entries) == map k | k in failedItems && k !in todo :: failedItems[k]
        invariant forall i :: 0 <= i < |entries| ==> entries[i].error in failedItems && entries[i].error !in todo &&
                                                     |entries[i].ids| == |failedItems[entries[i].error]|
        decreases |todo|
      {
        var k :| k in todo;
        var ids := SetToSeq(failedItems[k]);
        EncodeStep(entries, failedItems, todo, k, ids);
        entries := entries + [FailedEntry(k, ids)];
        todo := todo - {k};
      }
      p := Payload(View(), entries);
    }

    /** `decode_json(payload)`: a new result holding what the payload describes. */
    static method DecodeJson(p: Payload) returns (r: AffectedItemsResult)
      ensures fresh(r)
      ensures r.View() == p.view.(failedItems := EntriesToMap(p.failed))
    {
      var v := p.view;
      r := new AffectedItemsResult(v.messages, v.sortFields, v.sortCasting, v.sortAscending);
      r.affectedItems := v.affectedItems;
      r.totalAffectedItems := v.totalAffectedItems;
      r.failedItems := EntriesToMap(p.failed);
    }
  }

  /** `decode_json(encode_json(r)) == r` */
  method EncodeDecode(r: AffectedItemsResult) returns (d: AffectedItemsResult)
    ensures fresh(d)
    ensures d.View() == r.View()
  {
    var p := r.EncodeJson();
    d := AffectedItemsResult.DecodeJson(p);
  }

  /** `list(ids)`: the ids of a set, each once, in some order. */
  method SetToSeq(s: set<Id>) returns (xs: seq<Id>)
    ensures IdSet(xs) == s
    ensures |xs| == |s|
    ensures Distinct(xs)
  {
    xs := [];
    var todo := s;
    while todo != {}
      invariant todo <= s
      invariant IdSet(xs) == s - todo
      invariant |xs| == |s - todo|
      invariant Distinct(xs)
      decreases |todo|
    {
      var x :| x in todo;
      AppendFresh(xs, x, s, todo);
      xs := xs + [x];
      todo := todo - {x};
    }
  }

  lemma AppendFresh(xs: seq<Id>, x: Id, s: set<Id>, todo: set<Id>)
    requires x in todo && todo <= s
    requires IdSet(xs) == s - todo && Distinct(xs) && |xs| == |s - todo|
    ensures IdSet(xs + [x]) == s - (todo - {x})
    ensures Distinct(xs + [x])
    ensures |xs + [x]| == |s - (todo - {x})|
  {
    assert IdSet(xs + [x]) == IdSet(xs) + {x};
    assert x !in IdSet(xs);
    assert s - (todo - {x}) == (s - todo) + {x};
  }

  /** The loop of `AddFailedIds`: one `add_failed_item` per id, in any order. */
  method FileEach(m: FailedMap, key: ErrorKey, ids: set<Id>) returns (failed: FailedMap)
    ensures failed == AddIds(m, key, ids)
  {
    failed := m;
    var todo := ids;
    ghost var done: set<Id> := {};
    while todo != {}
      invariant todo <= ids && done == ids - todo
      invariant failed == AddIds(m, key, done)
      decreases todo
    {
      var id :| id in todo;
      AddIdsStep(m, key, done, id);
      failed := AddFailed(failed, key, id);
      todo := todo - {id};
      done := done + {id};
    }
    assert done == ids;
  }

  lemma AddIdsStep(m: FailedMap, key: ErrorKey, done: set<Id>, id: Id)
    requires id !in done
    ensures AddFailed(AddIds(m, key, done), key, id) == AddIds(m, key, done + {id})
  {
    var prior := if key in m then m[key] else {};
    if done == {} {
      assert done + {id} == {id};
      assert AddIds(m, key, done + {id}) == m[key := prior + {id}];
    } else {
      var mid := m[key := prior + done];
      assert AddIds(m, key, done) == mid;
      assert (prior + done) + {id} == prior + (done + {id});
      assert mid[key := (prior + done) + {id}] == m[key := prior + (done + {id})];
    }
  }

  lemma EncodeStep(entries: seq<FailedEntry>, m: FailedMap, todo: set<ErrorKey>, k: ErrorKey, ids: seq<Id>)
    requires k in todo && k in m && IdSet(ids) == m[k]
    requires EntriesToMap(entries) == map j | j in m && j !in todo :: m[j]
    ensures EntriesToMap(entries + [FailedEntry(k, ids)]) == map j | j in m && j !in todo - {k} :: m[j]
  {
    var next := entries + [FailedEntry(k, ids)];
    assert next[..|next| - 1] == entries;
  }

  /** Filling an empty result from two results gives the merge of their failures. */
  lemma MergeAssociates(e: FailedMap, a: FailedMap, b: FailedMap)
    requires e == map[] && Grouped(a) && Grouped(b)
    ensures MergeFailed(MergeFailed(e, a), b) == MergeFailed(a, b)
  {
    assert Pairs(e) == {} && Grouped(e);
    MergeFailedPairs(e, a);
    MergeFailedPairs(MergeFailed(e, a), b);
    MergeFailedPairs(a, b);
    PairsDetermine(MergeFailed(MergeFailed(e, a), b), MergeFailed(a, b));
  }
}
