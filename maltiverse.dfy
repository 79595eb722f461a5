/**
 * The Maltiverse integration's enrichment helpers: the confidence rating of
 * an indicator of compromise (IOC), its MITRE software reference, the ECS
 * threat type, the alert built from an IOC, and the event line sent to the
 * manager with the agent's location escaped.
 */
module Maltiverse {
  import opened Wrappers
  import opened Text
  import opened Values
  import opened Sorting

  /** `d.get(key, default)` on a dict. */
  function Get(d: Value, key: string, default: Value): Value
    requires d.VMap?
  {
    if key in d.fields then d.fields[key] else default
  }

  /** A list of dicts (or a missing key, read as the empty list). */
  predicate ListOfDicts(v: Value)
  {
    v.VList? && forall i :: 0 <= i < |v.items| ==> v.items[i].VMap?
  }

  /** One MITRE reference is usable: its `external_id`, when present, is text. */
  predicate ReferenceShape(r: Value)
  {
    r.VMap? && Get(r, "external_id", VStr("")).VStr?
  }

  /** One blacklist entry: a dict with text description and source, and a list of references. */
  predicate EntryShape(b: Value)
  {
    b.VMap? && Get(b, "description", VNone).VStr? && Get(b, "source", VNone).VStr? &&
    ListOfDicts(Get(b, "external_references", VList([]))) &&
    forall j :: 0 <= j < |Get(b, "external_references", VList([])).items| ==>
      ReferenceShape(Get(b, "external_references", VList([])).items[j])
  }

  /** The shape of an IOC as the Maltiverse API returns it. */
  predicate WellFormedIoc(ioc: Value)
  {
    ioc.VMap? &&
    Get(ioc, "blacklist", VList([])).VList? &&
    (forall i :: 0 <= i < |Get(ioc, "blacklist", VList([])).items| ==> EntryShape(Get(ioc, "blacklist", VList([])).items[i])) &&
    (Get(ioc, "type", VNone).VNone? || Get(ioc, "type", VNone).VStr?)
  }

  function Blacklist(ioc: Value): (bl: seq<Value>)
    requires WellFormedIoc(ioc)
    ensures forall i :: 0 <= i < |bl| ==> EntryShape(bl[i])
  {
    Get(ioc, "blacklist", VList([])).items
  }

  // ---------------------------------------------------------- confidence

  /** `get_ioc_confidence(ioc)`; None is Python's None for an unknown classification. */
  function IocConfidence(classification: Value, sightings: nat): (r: Option<string>)
    ensures !Truthy(classification) ==> r == Some("Not Specified")
    ensures r.None? <==>
              (Truthy(classification) &&
               classification !in {VStr("malicious"), VStr("suspicious"), VStr("neutral"), VStr("whitelist")})
  {
    if !Truthy(classification) then Some("Not Specified")
    else if classification == VStr("malicious") then Some(if sightings > 1 then "High" else "Medium")
    else if classification == VStr("suspicious") then Some(if sightings > 1 then "Medium" else "Low")
    else if classification == VStr("neutral") || classification == VStr("whitelist") then
      Some(if sightings > 1 then "Low" else "None")
    else None
  }

  function GetIocConfidence(ioc: Value): Option<string>
    requires WellFormedIoc(ioc)
  {
    IocConfidence(Get(ioc, "classification", VNone), |Blacklist(ioc)|)
  }

  /** The scale the ratings lie on. */
  function Rank(rating: string): int
  {
    if rating == "None" then 0
    else if rating == "Low" then 1
    else if rating == "Medium" then 2
    else if rating == "High" then 3
    else -1
  }

  /**
   * For a known classification, more sightings never lower the rating, and
   * a malicious IOC always rates above a suspicious one, which rates above a
   * neutral one, for the same sightings.
   */
  lemma ConfidenceOrder(c: Value, s1: nat, s2: nat)
    requires c in {VStr("malicious"), VStr("suspicious"), VStr("neutral"), VStr("whitelist")}
    requires s1 <= s2
    ensures IocConfidence(c, s1).Some? && IocConfidence(c, s2).Some?
    ensures Rank(IocConfidence(c, s1).value) <= Rank(IocConfidence(c, s2).value)
    ensures Rank(IocConfidence(VStr("neutral"), s1).value) < Rank(IocConfidence(VStr("suspicious"), s1).value)
              < Rank(IocConfidence(VStr("malicious"), s1).value)
  {
  }

  // ---------------------------------------------------------------- MITRE

  function References(entry: Value): seq<Value>
    requires EntryShape(entry)
  {
    Get(entry, "external_references", VList([])).items
  }

  /** The references of the entries, in order. */
  function AllReferences(entries: seq<Value>): (refs: seq<Value>)
    requires forall i :: 0 <= i < |entries| ==> EntryShape(entries[i])
    ensures forall j :: 0 <= j < |refs| ==> ReferenceShape(refs[j])
  {
    if |entries| == 0 then []
    else AllReferences(entries[..|entries| - 1]) + References(entries[|entries| - 1])
  }

  /** A MITRE ATT&CK reference to a software entry ('S' identifiers). */
  predicate IsSoftware(r: Value)
    requires ReferenceShape(r)
  {
    Get(r, "source_name", VNone) == VStr("mitre-attack") &&
    |Get(r, "external_id", VStr("")).s| > 0 && Get(r, "external_id", VStr("")).s[0] == 'S'
  }

  function SoftwareOf(r: Value): Value
    requires r.VMap?
  {
    VMap(map["id" := Get(r, "external_id", VNone), "reference" := Get(r, "url", VNone),
             "name" := Get(r, "description", VNone)])
  }

  /** The software entry of the last software reference, if any. */
  function LastSoftware(refs: seq<Value>): Option<Value>
    requires forall j :: 0 <= j < |refs| ==> ReferenceShape(refs[j])
  {
    if |refs| == 0 then None
    else if IsSoftware(refs[|refs| - 1]) then Some(SoftwareOf(refs[|refs| - 1]))
    else LastSoftware(refs[..|refs| - 1])
  }

  predicate NoSoftwareAfter(refs: seq<Value>, k: nat)
    requires forall j :: 0 <= j < |refs| ==> ReferenceShape(refs[j])
  {
    forall j :: k < j < |refs| ==> !IsSoftware(refs[j])
  }

  /** There is a software entry exactly when some reference is one, and then it is the last one's. */
  lemma {:induction false} LastSoftwareIsLast(refs: seq<Value>)
    requires forall j :: 0 <= j < |refs| ==> ReferenceShape(refs[j])
    ensures LastSoftware(refs).None? <==> forall j :: 0 <= j < |refs| ==> !IsSoftware(refs[j])
    ensures LastSoftware(refs).Some? ==>
              exists k :: 0 <= k < |refs| && IsSoftware(refs[k]) && LastSoftware(refs).value == SoftwareOf(refs[k]) &&
                NoSoftwareAfter(refs, k)
  {
    if |refs| > 0 {
      var init, last := refs[..|refs| - 1], refs[|refs| - 1];
      LastSoftwareIsLast(init);
      if IsSoftware(last) {
        assert NoSoftwareAfter(refs, |refs| - 1);
      } else if LastSoftware(init).Some? {
        var k :| 0 <= k < |init| && IsSoftware(init[k]) && LastSoftware(init).value == SoftwareOf(init[k]) &&
                 NoSoftwareAfter(init, k);
        NoSoftwareAfterExtend(refs, k);
      } else {
        FrontAgrees(refs);
      }
    }
  }

  lemma FrontAgrees(refs: seq<Value>)
    requires |refs| > 0
    ensures forall j :: 0 <= j < |refs| - 1 ==> refs[..|refs| - 1][j] == refs[j]
  {
  }

  /** A reference that is not a software one extends the references without software after `k`. */
  lemma NoSoftwareAfterExtend(refs: seq<Value>, k: nat)
    requires forall j :: 0 <= j < |refs| ==> ReferenceShape(refs[j])
    requires k < |refs| - 1 && !IsSoftware(refs[|refs| - 1])
    requires NoSoftwareAfter(refs[..|refs| - 1], k)
    ensures NoSoftwareAfter(refs, k) && refs[..|refs| - 1][k] == refs[k]
  {
    FrontAgrees(refs);
  }

  /**
   * `get_mitre_information(ioc)`: the nested loops over the blacklist
   * entries and their references. None is the empty dict; Some(v) is
   * `{'software': v}`.
   */
  method GetMitreInformation(ioc: Value) returns (software: Option<Value>)
    requires WellFormedIoc(ioc)
    ensures software == LastSoftware(AllReferences(Blacklist(ioc)))
  {
    var entries := Blacklist(ioc);
    software := None;
    for i := 0 to |entries|
      invariant software == LastSoftware(AllReferences(entries[..i]))
    {
      AllReferencesStep(entries, i);
      software := ScanReferences(AllReferences(entries[..i]), References(entries[i]), software);
    }
    assert entries[..|entries|] == entries;
  }

  /** The inner loop: the references of one entry, after those already scanned (`done`). */
  method ScanReferences(ghost done: seq<Value>, refs: seq<Value>, software0: Option<Value>) returns (software: Option<Value>)
    requires forall j :: 0 <= j < |done| ==> ReferenceShape(done[j])
    requires forall j :: 0 <= j < |refs| ==> ReferenceShape(refs[j])
    requires software0 == LastSoftware(done)
    ensures software == LastSoftware(done + refs)
  {
    software := software0;
    assert done + refs[..0] == done;
    for j := 0 to |refs|
      invariant software == LastSoftware(done + refs[..j])
    {
      LastSoftwareStep(done, refs, j);
      if Get(refs[j], "source_name", VNone) != VStr("mitre-attack") {
        continue;
      }
      var id := Get(refs[j], "external_id", VStr(""));
      if |id.s| > 0 && id.s[0] == 'S' {
        software := Some(SoftwareOf(refs[j]));
      }
    }
    assert refs[..|refs|] == refs;
  }

  lemma AllReferencesStep(entries: seq<Value>, i: nat)
    requires i < |entries| && forall k :: 0 <= k < |entries| ==> EntryShape(entries[k])
    ensures AllReferences(entries[..i + 1]) == AllReferences(entries[..i]) + References(entries[i])
  {
    assert entries[..i + 1][..i] == entries[..i];
  }

  lemma LastSoftwareStep(done: seq<Value>, refs: seq<Value>, j: nat)
    requires j < |refs|
    requires forall k :: 0 <= k < |done| ==> ReferenceShape(done[k])
    requires forall k :: 0 <= k < |refs| ==> ReferenceShape(refs[k])
    ensures LastSoftware(done + refs[..j + 1]) ==
              if IsSoftware(refs[j]) then Some(SoftwareOf(refs[j])) else LastSoftware(done + refs[..j])
  {
    ExtendScanned(done, refs, j);
  }

  /** The scanned references after one more: those before it, then it. */
  lemma ExtendScanned(done: seq<Value>, refs: seq<Value>, j: nat)
    requires j < |refs|
    ensures var scanned := done + refs[..j + 1];
            |scanned| > 0 && scanned[..|scanned| - 1] == done + refs[..j] && scanned[|scanned| - 1] == refs[j]
  {
    var scanned := done + refs[..j + 1];
    assert scanned[..|scanned| - 1] == done + refs[..j];
  }

  // ------------------------------------------------------------ ECS type

  /** `match_ecs_type(maltiverse_type)`; None for a type without an ECS name. */
  function MatchEcsType(t: Value): (r: Option<string>)
    ensures r.Some? <==> t in {VStr("ip"), VStr("hostname"), VStr("sample"), VStr("url")}
  {
    if t == VStr("ip") then Some("ipv4-addr")
    else if t == VStr("hostname") then Some("domain-name")
    else if t == VStr("sample") then Some("file")
    else if t == VStr("url") then Some("url")
    else None
  }

  /** The ECS names back to the Maltiverse types. */
  function MaltiverseType(ecs: string): Option<Value>
  {
    if ecs == "ipv4-addr" then Some(VStr("ip"))
    else if ecs == "domain-name" then Some(VStr("hostname"))
    else if ecs == "file" then Some(VStr("sample"))
    else if ecs == "url" then Some(VStr("url"))
    else None
  }

  /** The mapping is one-to-one: each ECS name leads back to its type. */
  lemma EcsTypeRoundTrip(t: Value)
    ensures MatchEcsType(t).Some? ==> MaltiverseType(MatchEcsType(t).value) == Some(t)
  {
  }

  // ---------------------------------------------------------------- alert

  function Texts(entries: seq<Value>, key: string): (r: seq<string>)
    requires forall i :: 0 <= i < |entries| ==> EntryShape(entries[i])
    requires key == "description" || key == "source"
    ensures |r| == |entries|
    ensures forall i :: 0 <= i < |entries| ==> entries[i].VMap? && VStr(r[i]) == Get(entries[i], key, VNone)
  {
    seq(|entries|, i requires 0 <= i < |entries| && EntryShape(entries[i]) => Get(entries[i], key, VNone).s)
  }

  /** `sorted(set(xs))` for text values. */
  function SortedSet(xs: seq<string>): seq<string>
  {
    SortBy(Dedup(xs), LexLess)
  }

  lemma LexLessStrict()
    ensures StrictOrder(LexLess)
  {
    forall a ensures !LexLess(a, a) {
      LexLessIrreflexive(a);
    }
    forall a, b, c | LexLess(a, b) && LexLess(b, c) ensures LexLess(a, c) {
      LexLessTransitive(a, b, c);
    }
  }

  /** The sorted set holds each value once, and in strictly increasing order. */
  lemma SortedSetIncreasing(xs: seq<string>)
    ensures (set x | x in SortedSet(xs)) == (set x | x in xs)
    ensures forall i, j :: 0 <= i < j < |SortedSet(xs)| ==> LexLess(SortedSet(xs)[i], SortedSet(xs)[j])
  {
    var d := Dedup(xs);
    var r := SortedSet(xs);
    LexLessStrict();
    SortBySorted(d, LexLess);
    SortByDistinct(d, LexLess);
    assert forall x :: x in r <==> x in multiset(d);
    forall i, j | 0 <= i < j < |r| ensures LexLess(r[i], r[j]) {
      LexLessTotal(r[i], r[j]);
    }
  }

  /** `f'https://maltiverse.com/{_type}/{_ref}' if _type else ''`. */
  function Reference(t: Value, ref: string): string
    requires t.VNone? || t.VStr?
  {
    if Truthy(t) then "https://maltiverse.com/" + t.s + "/" + ref else ""
  }

  function OptionalText(o: Option<string>): Value
  {
    if o.Some? then VStr(o.value) else VNone
  }

  /**
   * The `threat.indicator` dict, one field per key; `ip` is present only
   * for IP indicators.
   */
  datatype Indicator = Indicator(
    name: string, ecsType: Option<string>, description: string, provider: string,
    firstSeen: Value, modifiedAt: Value, lastSeen: Value, confidence: Option<string>,
    sightings: nat, reference: string, ip: Option<string>)

  /** The `threat` dict: the indicator and, when one was found, the MITRE software. */
  datatype Threat = Threat(indicator: Indicator, software: Option<Value>)

  /** The alert dict; `fullSource` is the `maltiverse.source` entry when it is included. */
  datatype Alert = Alert(integration: string, alertId: int, fullSource: Option<Value>, threat: Threat)

  /** `threat.indicator` for an IOC. `iocRef` is "" when not given. */
  function MakeIndicator(ioc: Value, iocName: string, iocRef: string): (ind: Indicator)
    requires WellFormedIoc(ioc)
    ensures ind.name == iocName
    ensures ind.ip.Some? <==> Get(ioc, "type", VNone) == VStr("ip")
    ensures ind.ip.Some? ==> ind.ip.value == iocName
    ensures ind.ecsType == MatchEcsType(Get(ioc, "type", VNone))
    ensures ind.sightings == |Blacklist(ioc)|
    ensures ind.description == Join(", ", SortedSet(Texts(Blacklist(ioc), "description")))
    ensures ind.provider == Join(", ", SortedSet(Texts(Blacklist(ioc), "source")))
    ensures ind.reference == Reference(Get(ioc, "type", VNone), if iocRef != "" then iocRef else iocName)
    ensures ind.confidence == GetIocConfidence(ioc)
    ensures ind.firstSeen == Get(ioc, "creation_time", VNone)
    ensures ind.modifiedAt == ind.lastSeen == Get(ioc, "modification_time", VNone)
  {
    var bl := Blacklist(ioc);
    var t := Get(ioc, "type", VNone);
    Indicator(
      iocName, MatchEcsType(t),
      Join(", ", SortedSet(Texts(bl, "description"))), Join(", ", SortedSet(Texts(bl, "source"))),
      Get(ioc, "creation_time", VNone), Get(ioc, "modification_time", VNone), Get(ioc, "modification_time", VNone),
      GetIocConfidence(ioc), |bl|,
      Reference(t, if iocRef != "" then iocRef else iocName),
      if t == VStr("ip") then Some(iocName) else None)
  }

  /**
   * `maltiverse_alert(alert_id, ioc_dict, ioc_name, ioc_ref, include_full_source)`.
   * The MITRE software is what `get_mitre_information` finds.
   */
  function MaltiverseAlert(alertId: int, ioc: Value, iocName: string, iocRef: string, includeFullSource: bool): (alert: Alert)
    requires WellFormedIoc(ioc)
    ensures alert.integration == "maltiverse" && alert.alertId == alertId
    ensures alert.fullSource.Some? <==> includeFullSource
    ensures includeFullSource ==> alert.fullSource.value == ioc
    ensures alert.threat.indicator == MakeIndicator(ioc, iocName, iocRef)
    ensures alert.threat.software.Some? <==> exists r :: r in AllReferences(Blacklist(ioc)) && IsSoftware(r)
    ensures alert.threat.software == LastSoftware(AllReferences(Blacklist(ioc)))
  {
    var refs := AllReferences(Blacklist(ioc));
    LastSoftwareIsLast(refs);
    Alert("maltiverse", alertId, if includeFullSource then Some(ioc) else None,
          Threat(MakeIndicator(ioc, iocName, iocRef), LastSoftware(refs)))
  }

  /** The reference names the type and falls back from the reference to the name. */
  lemma ReferenceFallback(t: string, iocName: string)
    requires t != ""
    ensures Reference(VStr(t), "") == "https://maltiverse.com/" + t + "/"
    ensures Reference(VStr(t), if "" != "" then "" else iocName) == "https://maltiverse.com/" + t + "/" + iocName
    ensures Reference(VNone, iocName) == ""
  {
  }

  // ---------------------------------------------------------------- event

  /** The agent an alert came from: `id`, `name` and, when known, `ip`. */
  datatype Agent = Agent(id: string, name: string, ip: Option<string>)

  /** How one character of the location is written: '|' doubled, ':' prefixed by '|'. */
  function LocationChar(c: char): string
  {
    if c == '|' then "||" else if c == ':' then "|:" else [c]
  }

  function EscapeLocation(s: string): string
  {
    if |s| == 0 then "" else LocationChar(s[0]) + EscapeLocation(s[1..])
  }

  /** `location.replace('|', '||').replace(':', '|:')` escapes character by character. */
  lemma {:induction false} ReplacesEscape(s: string)
    ensures ReplaceChar(ReplaceChar(s, '|', "||"), ':', "|:") == EscapeLocation(s)
    decreases |s|
  {
    if |s| > 0 {
      ReplacesEscape(s[1..]);
      var first := ReplaceChar([s[0]], '|', "||");
      assert ReplaceChar(s, '|', "||") == first + ReplaceChar(s[1..], '|', "||") by {
        ReplaceCharAppend([s[0]], s[1..], '|', "||");
        assert s == [s[0]] + s[1..];
      }
      ReplaceCharAppend(first, ReplaceChar(s[1..], '|', "||"), ':', "|:");
      assert ReplaceChar(first, ':', "|:") == LocationChar(s[0]) by {
        assert ReplaceChar([], '|', "||") == [];
        assert ReplaceChar([], ':', "|:") == [];
        if s[0] == '|' {
          assert ReplaceChar("||", ':', "|:") == "||" by {
            assert "||"[1..] == "|";
            assert "|"[1..] == [];
          }
        }
      }
    }
  }

  /** Read an escaped location back. */
  function UnescapeLocation(t: string): string
    decreases |t|
  {
    if |t| == 0 then ""
    else if |t| >= 2 && t[0] == '|' && (t[1] == '|' || t[1] == ':') then [t[1]] + UnescapeLocation(t[2..])
    else [t[0]] + UnescapeLocation(t[1..])
  }

  /** Escaping the location loses nothing. */
  lemma {:induction false} LocationRoundTrip(s: string)
    ensures UnescapeLocation(EscapeLocation(s)) == s
    decreases |s|
  {
    if |s| > 0 {
      var rest := EscapeLocation(s[1..]);
      LocationRoundTrip(s[1..]);
      var t := EscapeLocation(s);
      assert t == LocationChar(s[0]) + rest;
      if s[0] == '|' || s[0] == ':' {
        assert t[2..] == rest;
      } else {
        assert t[1..] == rest;
      }
      assert s == [s[0]] + s[1..];
    }
  }

  /** Every ':' of an escaped location is preceded by a '|', so none of them ends the location field. */
  lemma {:induction false} EscapedLocationColons(s: string)
    ensures forall i :: 0 <= i < |EscapeLocation(s)| && EscapeLocation(s)[i] == ':' ==> i > 0 && EscapeLocation(s)[i - 1] == '|'
    decreases |s|
  {
    if |s| > 0 {
      EscapedLocationColons(s[1..]);
      var head, rest := LocationChar(s[0]), EscapeLocation(s[1..]);
      assert EscapeLocation(s) == head + rest;
      if |s| > 1 {
        assert rest[0] != ':' by {
          assert rest == LocationChar(s[1]) + EscapeLocation(s[2..]);
        }
      }
      forall i | 0 <= i < |head + rest| && (head + rest)[i] == ':'
        ensures i > 0 && (head + rest)[i - 1] == '|'
      {
        if i > |head| {
          assert (head + rest)[i] == rest[i - |head|];
          assert (head + rest)[i - 1] == rest[i - 1 - |head|];
        }
      }
    }
  }

  function AgentLocation(agent: Agent): string
  {
    "[" + agent.id + "] (" + agent.name + ") " + (if agent.ip.Some? then agent.ip.value else "any")
  }

  /**
   * `send_event(msg, agent)`: the event line. `payload` is `json.dumps(msg)`.
   * No agent (None or an empty dict) is `None`.
   */
  function EventLine(payload: string, agent: Option<Agent>): (event: string)
    ensures agent.None? || agent.value.id == "000" ==> event == "1:maltiverse:" + payload
    ensures agent.Some? && agent.value.id != "000" ==>
              event == "1:" + EscapeLocation(AgentLocation(agent.value)) + "->maltiverse:" + payload
  {
    if agent.None? || agent.value.id == "000" then "1:maltiverse:" + payload
    else
      var location := AgentLocation(agent.value);
      ReplacesEscape(location);
      "1:" + ReplaceChar(ReplaceChar(location, '|', "||"), ':', "|:") + "->maltiverse:" + payload
  }
}
