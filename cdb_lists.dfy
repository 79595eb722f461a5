/**
 * The CDB lists of analysisd: the chain of loaded lists, the chain of rule
 * lookups that refer to them, and the lookup of a key in a list by exact
 * match or by dotted address prefix.
 *
 * Each chain is a sequence in link order; a rule's `db` pointer is the
 * index of the list node it points to. A node's `contents` is what its CDB
 * file holds (what `cdb_find`/`cdb_read` see), and whether `open` succeeds
 * on the file is a parameter of each search.
 */
module CdbLists {
  import opened Wrappers

  /** A `ListNode`: the list's two file names, whether its CDB is open, and the CDB's contents. */
  datatype ListNode = ListNode(txtFilename: string, cdbFilename: string, loaded: bool, contents: map<string, string>)

  /** The lookup types of a list rule (`LR_*`); any other value is `OtherLookup`. */
  datatype LookupType =
    | StringMatch | StringNotMatch | StringMatchValue
    | AddressMatch | AddressNotMatch | AddressMatchValue
    | OtherLookup(code: int)

  /**
   * A `ListRule`: `pattern` stands for its compiled matcher, `dfield` is
   * kept only for dynamic fields, `db` is the index of its list, if found.
   */
  datatype ListRule = ListRule(
    lookupType: LookupType, field: int, dfield: Option<string>, filename: string, pattern: string,
    loaded: bool, db: Option<nat>)

  /** The node is the one called `name`, by its text or its CDB file name. */
  predicate Names(node: ListNode, name: string)
  {
    node.txtFilename == name || node.cdbFilename == name
  }

  /** The first list, from head to tail, called `name`. */
  function FindIn(lists: seq<ListNode>, name: string): (r: Option<nat>)
    ensures r.Some? ==> r.value < |lists| && Names(lists[r.value], name)
    ensures r.Some? ==> forall j :: 0 <= j < r.value ==> !Names(lists[j], name)
    ensures r.None? <==> forall j :: 0 <= j < |lists| ==> !Names(lists[j], name)
  {
    if |lists| == 0 then None
    else if Names(lists[0], name) then Some(0)
    else
      var rest := FindIn(lists[1..], name);
      assert forall j :: 1 <= j < |lists| ==> lists[j] == lists[1..][j - 1];
      if rest.Some? then Some(rest.value + 1) else None
  }

  /** Appending a list never changes which list an existing name finds. */
  lemma {:induction false} FindAfterAdd(lists: seq<ListNode>, node: ListNode, name: string)
    ensures FindIn(lists, name).Some? ==> FindIn(lists + [node], name) == FindIn(lists, name)
    ensures FindIn(lists, name).None? ==>
              FindIn(lists + [node], name) == (if Names(node, name) then Some(|lists|) else None)
  {
    var r, s := FindIn(lists, name), FindIn(lists + [node], name);
    assert forall j :: 0 <= j < |lists| ==> (lists + [node])[j] == lists[j];
    if r.None? && Names(node, name) {
      assert (lists + [node])[|lists|] == node;
      assert s.Some? && s.value == |lists|;
    }
  }

  /** The value `OSMatch_Execute` returns: 1 on a match. */
  function MatchResult(matches: (string, string) -> bool, pattern: string, value: string): int
  {
    if matches(pattern, value) then 1 else 0
  }

  /** `key[..k]` ends in '.' and is a key of the CDB. */
  predicate SubnetHit(key: string, k: nat, contents: map<string, string>)
    requires 1 <= k <= |key|
  {
    key[k - 1] == '.' && key[..k] in contents
  }

  /**
   * The subnet walk: the longest prefix of `key[..n]` ending in '.' that the
   * CDB holds, as its length.
   */
  function Subnet(key: string, n: nat, contents: map<string, string>): (r: Option<nat>)
    requires n <= |key|
    ensures r.Some? ==> 1 <= r.value <= n && SubnetHit(key, r.value, contents)
    ensures r.Some? ==> forall k :: r.value < k <= n ==> !SubnetHit(key, k, contents)
    ensures r.None? <==> forall k :: 1 <= k <= n ==> !SubnetHit(key, k, contents)
  {
    if n == 0 then None
    else if SubnetHit(key, n, contents) then Some(n)
    else Subnet(key, n - 1, contents)
  }

  /** The node is open after `_OS_CDBOpen`: it was open already, or it opens now. */
  predicate Opens(node: ListNode, openSucceeds: bool)
  {
    node.loaded || openSucceeds
  }

  /** `OS_DBSeachKey`: 1 on a hit, 0 on a miss or without a list, -1 when the CDB cannot be opened. */
  function KeySearch(db: Option<ListNode>, key: string, openSucceeds: bool): (r: int)
    ensures r == 1 <==> db.Some? && Opens(db.value, openSucceeds) && key in db.value.contents
    ensures r == -1 <==> db.Some? && !Opens(db.value, openSucceeds)
  {
    if db.None? then 0
    else if !Opens(db.value, openSucceeds) then -1
    else if key in db.value.contents then 1
    else 0
  }

  /** `OS_DBSeachKeyAddress`: as `KeySearch`, and a hit may also be on a subnet of the key. */
  function AddressSearch(db: Option<ListNode>, key: string, openSucceeds: bool): (r: int)
    ensures r == 1 <==>
              db.Some? && Opens(db.value, openSucceeds) &&
              (key in db.value.contents || exists k :: 1 <= k <= |key| && SubnetHit(key, k, db.value.contents))
    ensures r == -1 <==> db.Some? && !Opens(db.value, openSucceeds)
  {
    if db.None? then 0
    else if !Opens(db.value, openSucceeds) then -1
    else if key in db.value.contents then 1
    else if Subnet(key, |key|, db.value.contents).Some? then 1
    else 0
  }

  /** `OS_DBSearchKeyValue`: the match of the key's value; 0 without a list, an open CDB or the key. */
  function ValueSearch(db: Option<ListNode>, key: string, openSucceeds: bool,
                       matches: (string, string) -> bool, pattern: string): (r: int)
    ensures r == 1 <==>
              db.Some? && Opens(db.value, openSucceeds) && key in db.value.contents &&
              matches(pattern, db.value.contents[key])
    ensures r == 0 || r == 1
  {
    if db.None? || !Opens(db.value, openSucceeds) then 0
    else if key in db.value.contents then MatchResult(matches, pattern, db.value.contents[key])
    else 0
  }

  /**
   * `OS_DBSearchKeyAddressValue`: the match of the value of the key, or of
   * its longest subnet in the CDB.
   */
  function AddressValueSearch(db: Option<ListNode>, key: string, openSucceeds: bool,
                              matches: (string, string) -> bool, pattern: string): (r: int)
    ensures r == 0 || r == 1
    ensures db.Some? && Opens(db.value, openSucceeds) && key !in db.value.contents &&
            Subnet(key, |key|, db.value.contents).Some? ==>
              r == MatchResult(matches, pattern, db.value.contents[key[..Subnet(key, |key|, db.value.contents).value]])
  {
    if db.None? || !Opens(db.value, openSucceeds) then 0
    else if key in db.value.contents then MatchResult(matches, pattern, db.value.contents[key])
    else
      match Subnet(key, |key|, db.value.contents)
      case Some(n) => MatchResult(matches, pattern, db.value.contents[key[..n]])
      case None => 0
  }

  /** The `switch` of `OS_DBSearch` on the rule's lookup type. */
  function Dispatch(lookupType: LookupType, db: Option<ListNode>, key: string, openSucceeds: bool,
                    matches: (string, string) -> bool, pattern: string): (r: int)
    ensures r == 0 || r == 1
  {
    match lookupType
    case StringMatch => if KeySearch(db, key, openSucceeds) == 1 then 1 else 0
    case StringNotMatch => if KeySearch(db, key, openSucceeds) == 1 then 0 else 1
    case StringMatchValue => if ValueSearch(db, key, openSucceeds, matches, pattern) == 1 then 1 else 0
    case AddressMatch => if AddressSearch(db, key, openSucceeds) == 1 then 1 else 0
    case AddressNotMatch => if AddressSearch(db, key, openSucceeds) == 0 then 1 else 0
    case AddressMatchValue => if AddressValueSearch(db, key, openSucceeds, matches, pattern) == 0 then 1 else 0
    case OtherLookup(_) => 0
  }

  /** Each negated lookup answers the opposite of its positive one, except where the CDB cannot be opened. */
  lemma NegatedLookups(db: Option<ListNode>, key: string, openSucceeds: bool,
                       matches: (string, string) -> bool, pattern: string)
    ensures Dispatch(StringNotMatch, db, key, openSucceeds, matches, pattern) ==
              1 - Dispatch(StringMatch, db, key, openSucceeds, matches, pattern)
    ensures db.None? || Opens(db.value, openSucceeds) ==>
              Dispatch(AddressNotMatch, db, key, openSucceeds, matches, pattern) ==
                1 - Dispatch(AddressMatch, db, key, openSucceeds, matches, pattern)
    ensures db.Some? && !Opens(db.value, openSucceeds) ==>
              Dispatch(AddressNotMatch, db, key, openSucceeds, matches, pattern) == 0 &&
              Dispatch(AddressMatch, db, key, openSucceeds, matches, pattern) == 0
  {
  }

  /**
   * What each lookup answers for a rule whose list is missing, and for one
   * whose CDB cannot be opened: a missing list fails every positive lookup
   * and passes every negated one; an unopenable CDB counts as a miss for
   * the string lookups but fails both address lookups. The address value
   * lookup answers 1 exactly when the value search gives 0.
   */
  lemma FailureOutcomes(node: ListNode, key: string, matches: (string, string) -> bool, pattern: string)
    requires !node.loaded
    ensures Dispatch(StringMatch, None, key, false, matches, pattern) == 0
    ensures Dispatch(StringNotMatch, None, key, false, matches, pattern) == 1
    ensures Dispatch(StringMatchValue, None, key, false, matches, pattern) == 0
    ensures Dispatch(AddressMatch, None, key, false, matches, pattern) == 0
    ensures Dispatch(AddressNotMatch, None, key, false, matches, pattern) == 1
    ensures Dispatch(AddressMatchValue, None, key, false, matches, pattern) == 1
    ensures Dispatch(StringMatch, Some(node), key, false, matches, pattern) == 0
    ensures Dispatch(StringNotMatch, Some(node), key, false, matches, pattern) == 1
    ensures Dispatch(StringMatchValue, Some(node), key, false, matches, pattern) == 0
    ensures Dispatch(AddressMatch, Some(node), key, false, matches, pattern) == 0
    ensures Dispatch(AddressNotMatch, Some(node), key, false, matches, pattern) == 0
    ensures Dispatch(AddressMatchValue, Some(node), key, false, matches, pattern) == 1
  {
  }

  /**
   * The value lookups on a key the CDB holds: the string one passes when
   * the value matches, the address one when it does not.
   */
  lemma ValueLookupsOnHit(node: ListNode, key: string, openSucceeds: bool,
                          matches: (string, string) -> bool, pattern: string)
    requires Opens(node, openSucceeds) && key in node.contents
    ensures Dispatch(StringMatchValue, Some(node), key, openSucceeds, matches, pattern) == 1 <==>
              matches(pattern, node.contents[key])
    ensures Dispatch(AddressMatchValue, Some(node), key, openSucceeds, matches, pattern) == 1 <==>
              !matches(pattern, node.contents[key])
  {
  }

  /** The lists after a search of `db` tried to open its CDB. */
  function AfterOpen(lists: seq<ListNode>, db: Option<nat>, openSucceeds: bool): (r: seq<ListNode>)
    requires db.Some? ==> db.value < |lists|
    ensures |r| == |lists|
    ensures forall j :: 0 <= j < |lists| && Some(j) != db ==> r[j] == lists[j]
    ensures db.Some? ==> r[db.value] == if openSucceeds then lists[db.value].(loaded := true) else lists[db.value]
  {
    if db.Some? && !lists[db.value].loaded && openSucceeds then lists[db.value := lists[db.value].(loaded := true)]
    else lists
  }

  /** The node a rule's `db` points to. */
  function NodeAt(lists: seq<ListNode>, db: Option<nat>): Option<ListNode>
    requires db.Some? ==> db.value < |lists|
  {
    if db.Some? then Some(lists[db.value]) else None
  }

  /** The rule once it has been resolved against the lists. */
  function Resolved(rule: ListRule, lists: seq<ListNode>): (r: ListRule)
    ensures r.loaded
    ensures rule.loaded ==> r == rule
    ensures !rule.loaded ==> r == rule.(db := FindIn(lists, rule.filename), loaded := true)
  {
    if rule.loaded then rule else rule.(db := FindIn(lists, rule.filename), loaded := true)
  }

  /**
   * The subnet walk of `OS_DBSeachKeyAddress` and `OS_DBSearchKeyAddressValue`:
   * the key is cut one character at a time, and each cut ending in '.' is
   * looked up.
   */
  method ProbeSubnets(key: string, contents: map<string, string>) returns (hit: Option<nat>)
    ensures hit == Subnet(key, |key|, contents)
  {
    var tmpkey := key;
    while |tmpkey| > 0
      invariant |tmpkey| <= |key| && tmpkey == key[..|tmpkey|]
      invariant Subnet(key, |key|, contents) == Subnet(key, |tmpkey|, contents)
    {
      if tmpkey[|tmpkey| - 1] == '.' {
        if tmpkey in contents {
          return Some(|tmpkey|);
        }
      }
      tmpkey := tmpkey[..|tmpkey| - 1];
    }
    hit := None;
  }

  /** The lists and rules analysisd holds (`os_analysisd_cdblists`, `os_analysisd_cdbrules`). */
  class Lists {
    var lists: seq<ListNode>
    var rules: seq<ListRule>

    /** Every resolved rule points at a list that exists. */
    ghost predicate Valid()
      reads this
    {
      forall i :: 0 <= i < |rules| && rules[i].db.Some? ==> rules[i].db.value < |lists|
    }

    /** `OS_CreateListsList()`. */
    constructor ()
      ensures lists == [] && rules == [] && Valid()
    {
      lists := [];
      rules := [];
    }

    /** `OS_AddList(new_listnode, &cdblists)`: links the node after the tail, the last node. */
    method AddList(node: ListNode)
      modifies this
      requires Valid()
      ensures lists == old(lists) + [node]
      ensures rules == old(rules)
      ensures Valid()
    {
      if |lists| == 0 {
        lists := [node];
      } else {
        var last := |lists| - 1;
        assert lists[..last + 1] == lists;
        lists := lists[..last + 1] + [node];
      }
    }

    /** `OS_FindList(listname, &l_node)`: the first node from the head called `name`. */
    method FindList(name: string) returns (found: Option<nat>)
      ensures found == FindIn(lists, name)
    {
      var i := 0;
      while i < |lists|
        invariant i <= |lists|
        invariant forall j :: 0 <= j < i ==> !Names(lists[j], name)
      {
        if lists[i].txtFilename == name || lists[i].cdbFilename == name {
          return Some(i);
        }
        i := i + 1;
      }
      return None;
    }

    /**
     * `OS_AddListRule(first_rule_list, ...)`: None (NULL) when no list is
     * called `listname`, leaving the rules as they were; otherwise the rule
     * is linked after the tail, resolved and loaded. The node returned is
     * the new rule when it is the only one, and the former tail otherwise.
     * `dynamicField` says whether `field` is `RULE_DYNAMIC`.
     */
    method AddListRule(lookupType: LookupType, field: int, dynamicField: bool, dfield: string,
                       listname: string, pattern: string) returns (returned: Option<nat>)
      modifies this
      requires Valid()
      ensures lists == old(lists)
      ensures FindIn(lists, listname).None? ==> returned.None? && rules == old(rules)
      ensures FindIn(lists, listname).Some? ==>
                rules == old(rules) + [ListRule(lookupType, field, if dynamicField then Some(dfield) else None,
                                                listname, pattern, true, FindIn(lists, listname))] &&
                returned == Some(if |old(rules)| == 0 then 0 else |old(rules)| - 1)
      ensures Valid()
    {
      var db := FindList(listname);
      if db.None? {
        return None;
      }
      var rule := ListRule(lookupType, field, if dynamicField then Some(dfield) else None, listname, pattern, true, db);
      if |rules| == 0 {
        rules := [rule];
        returned := Some(0);
      } else {
        var last := |rules| - 1;
        assert rules[..last + 1] == rules;
        rules := rules[..last + 1] + [rule];
        returned := Some(last);
      }
    }

    /**
     * `OS_ListLoadRules(&l_node, &lrule)`: every rule not yet loaded is
     * resolved against the lists and marked loaded; loaded rules are left
     * alone.
     */
    method ListLoadRules()
      modifies this
      requires Valid()
      ensures lists == old(lists)
      ensures |rules| == |old(rules)| && forall i :: 0 <= i < |rules| ==> rules[i] == Resolved(old(rules)[i], lists)
      ensures forall i :: 0 <= i < |rules| ==> rules[i].loaded
      ensures Valid()
    {
      var i := 0;
      while i < |rules|
        invariant i <= |rules| == |old(rules)| && lists == old(lists)
        invariant forall j :: 0 <= j < i ==> rules[j] == Resolved(old(rules)[j], lists)
        invariant forall j :: i <= j < |rules| ==> rules[j] == old(rules)[j]
        invariant Valid()
      {
        if !rules[i].loaded {
          var db := FindList(rules[i].filename);
          rules := rules[i := rules[i].(db := db, loaded := true)];
        }
        i := i + 1;
      }
    }

    /** `_OS_CDBOpen(lnode)`: opens the CDB of list `d` unless it is open already. */
    method OpenCdb(d: nat, openSucceeds: bool) returns (ok: bool)
      modifies this
      requires d < |lists|
      ensures ok == Opens(old(lists)[d], openSucceeds)
      ensures lists == AfterOpen(old(lists), Some(d), openSucceeds)
      ensures rules == old(rules)
    {
      if !lists[d].loaded {
        if !openSucceeds {
          return false;
        }
        lists := lists[d := lists[d].(loaded := true)];
      }
      return true;
    }

    /** `OS_DBSeachKey(lrule, key)`. */
    method SearchKey(db: Option<nat>, key: string, openSucceeds: bool) returns (r: int)
      modifies this
      requires db.Some? ==> db.value < |lists|
      ensures r == KeySearch(NodeAt(old(lists), db), key, openSucceeds)
      ensures lists == AfterOpen(old(lists), db, openSucceeds) && rules == old(rules)
    {
      if db.None? {
        return 0;
      }
      var ok := OpenCdb(db.value, openSucceeds);
      if !ok {
        return -1;
      }
      if key in lists[db.value].contents {
        return 1;
      }
      return 0;
    }

    /** `OS_DBSeachKeyAddress(lrule, key)`. */
    method SearchKeyAddress(db: Option<nat>, key: string, openSucceeds: bool) returns (r: int)
      modifies this
      requires db.Some? ==> db.value < |lists|
      ensures r == AddressSearch(NodeAt(old(lists), db), key, openSucceeds)
      ensures lists == AfterOpen(old(lists), db, openSucceeds) && rules == old(rules)
    {
      if db.None? {
        return 0;
      }
      var ok := OpenCdb(db.value, openSucceeds);
      if !ok {
        return -1;
      }
      if key in lists[db.value].contents {
        return 1;
      }
      var hit := ProbeSubnets(key, lists[db.value].contents);
      r := if hit.Some? then 1 else 0;
    }

    /** `OS_DBSearchKeyValue(lrule, key)`. */
    method SearchKeyValue(db: Option<nat>, key: string, openSucceeds: bool,
                          matches: (string, string) -> bool, pattern: string) returns (r: int)
      modifies this
      requires db.Some? ==> db.value < |lists|
      ensures r == ValueSearch(NodeAt(old(lists), db), key, openSucceeds, matches, pattern)
      ensures lists == AfterOpen(old(lists), db, openSucceeds) && rules == old(rules)
    {
      if db.None? {
        return 0;
      }
      var ok := OpenCdb(db.value, openSucceeds);
      if !ok {
        return 0;
      }
      if key in lists[db.value].contents {
        return MatchResult(matches, pattern, lists[db.value].contents[key]);
      }
      return 0;
    }

    /** `OS_DBSearchKeyAddressValue(lrule, key)`. */
    method SearchKeyAddressValue(db: Option<nat>, key: string, openSucceeds: bool,
                                 matches: (string, string) -> bool, pattern: string) returns (r: int)
      modifies this
      requires db.Some? ==> db.value < |lists|
      ensures r == AddressValueSearch(NodeAt(old(lists), db), key, openSucceeds, matches, pattern)
      ensures lists == AfterOpen(old(lists), db, openSucceeds) && rules == old(rules)
    {
      if db.None? {
        return 0;
      }
      var ok := OpenCdb(db.value, openSucceeds);
      if !ok {
        return 0;
      }
      var contents := lists[db.value].contents;
      if key in contents {
        return MatchResult(matches, pattern, contents[key]);
      }
      var hit := ProbeSubnets(key, contents);
      if hit.Some? {
        return MatchResult(matches, pattern, contents[key[..hit.value]]);
      }
      return 0;
    }

    /**
     * `OS_DBSearch(lrule, key, &l_node)` on rule `i`: resolves the rule if
     * it is not loaded yet, then answers by its lookup type. `openSucceeds`
     * is whether opening its CDB file would succeed; `matches` stands for
     * `OSMatch_Execute` on the rule's matcher.
     */
    method DBSearch(i: nat, key: string, openSucceeds: bool, matches: (string, string) -> bool) returns (r: int)
      modifies this
      requires i < |rules| && Valid()
      ensures rules == old(rules)[i := Resolved(old(rules)[i], old(lists))]
      ensures r == Dispatch(rules[i].lookupType, NodeAt(old(lists), rules[i].db), key, openSucceeds, matches, rules[i].pattern)
      ensures lists == if rules[i].lookupType.OtherLookup? then old(lists) else AfterOpen(old(lists), rules[i].db, openSucceeds)
      ensures r == 0 || r == 1
      ensures Valid()
    {
      if !rules[i].loaded {
        var db := FindList(rules[i].filename);
        rules := rules[i := rules[i].(db := db, loaded := true)];
      }
      assert rules == old(rules)[i := Resolved(old(rules)[i], old(lists))];
      r := Lookup(rules[i], key, openSucceeds, matches);
    }

    /** The switch on the lookup type once the rule's list is resolved. */
    method Lookup(rule: ListRule, key: string, openSucceeds: bool, matches: (string, string) -> bool) returns (r: int)
      modifies this
      requires rule.db.Some? ==> rule.db.value < |lists|
      ensures r == Dispatch(rule.lookupType, NodeAt(old(lists), rule.db), key, openSucceeds, matches, rule.pattern)
      ensures lists == if rule.lookupType.OtherLookup? then old(lists) else AfterOpen(old(lists), rule.db, openSucceeds)
      ensures rules == old(rules)
    {
      match rule.lookupType {
        case StringMatch =>
          var found := SearchKey(rule.db, key, openSucceeds);
          r := if found == 1 then 1 else 0;
        case StringNotMatch =>
          var found := SearchKey(rule.db, key, openSucceeds);
          r := if found == 1 then 0 else 1;
        case StringMatchValue =>
          var found := SearchKeyValue(rule.db, key, openSucceeds, matches, rule.pattern);
          r := if found == 1 then 1 else 0;
        case AddressMatch =>
          var found := SearchKeyAddress(rule.db, key, openSucceeds);
          r := if found == 1 then 1 else 0;
        case AddressNotMatch =>
          var found := SearchKeyAddress(rule.db, key, openSucceeds);
          r := if found == 0 then 1 else 0;
        case AddressMatchValue =>
          var found := SearchKeyAddressValue(rule.db, key, openSucceeds, matches, rule.pattern);
          r := if found == 0 then 1 else 0;
        case OtherLookup(_) =>
          r := 0;
      }
    }

    /** `os_remove_cdblist(&l_node)`: unlinks and frees every node from the head. */
    method RemoveCdbList()
      modifies this
      ensures lists == [] && rules == old(rules)
    {
      while |lists| > 0
        invariant rules == old(rules)
      {
        lists := lists[1..];
      }
    }

    /** `os_remove_cdbrules(&l_rule)`: unlinks and frees every rule from the head. */
    method RemoveCdbRules()
      modifies this
      ensures rules == [] && lists == old(lists)
      ensures Valid()
    {
      while |rules| > 0
        invariant lists == old(lists)
      {
        rules := rules[1..];
      }
    }
  }
}
