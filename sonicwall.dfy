/**
 * The SonicWall decoder plugin of analysisd: after its three regular
 * expressions have matched a firewall log line, it copies the captures
 * into the event, reads the protocol that follows, and classifies the event
 * by the message id and category.
 *
 * The regular-expression engine is a parameter: a run of one of the three
 * expressions either does not match, or matches, leaving the captures in
 * `sub_strings` (None for a NULL slot) and the text that follows the match.
 */
module SonicWall {
  import opened Wrappers

  datatype DecoderType = Syslog | Ids | Firewall | Squid

  /** `SONICWALL_REGID`, `SONICWALL_REGEX` and `SONICWALL_PROXY`. */
  datatype Pattern = PriorityId | Addresses | Proxy

  datatype RegexRun = NoMatch | Matched(rest: string, subs: seq<Option<string>>)

  /** `OSRegex_Execute_ex` on one of the compiled expressions. */
  type Regex = (Pattern, string) -> RegexRun

  type Captures = seq<Option<string>>

  function Sub(subs: Captures, k: nat): Option<string>
  {
    if k < |subs| then subs[k] else None
  }

  predicate Has(subs: Captures, k: nat)
  {
    Sub(subs, k).Some?
  }

  /** The index of the NULL that ends the captures (their length if none is NULL). */
  function FirstNone(subs: Captures): (n: nat)
    ensures n <= |subs| && (n < |subs| ==> subs[n].None?)
    ensures forall k :: 0 <= k < n ==> subs[k].Some?
  {
    if |subs| == 0 || subs[0].None? then 0 else 1 + FirstNone(subs[1..])
  }

  /** The captures after the clearing loop: every one before the terminating NULL is freed. */
  function Cleared(subs: Captures): (r: Captures)
    ensures |r| == |subs|
    ensures forall k :: 0 <= k < |subs| ==> r[k] == if k < FirstNone(subs) then None else subs[k]
    ensures forall k :: 0 <= k < |r| ==> r[k].None? || k > FirstNone(subs)
  {
    seq(|subs|, k requires 0 <= k < |subs| => if k < FirstNone(subs) then None else subs[k])
  }

  /** The captures with the first `n` slots set to NULL. */
  function ClearFirst(subs: Captures, n: nat): (r: Captures)
    ensures |r| == |subs|
    ensures forall k :: 0 <= k < |subs| ==> r[k] == if k < n then None else subs[k]
  {
    seq(|subs|, k requires 0 <= k < |subs| => if k < n then None else subs[k])
  }

  /** The fields of an `Eventinfo` the decoder writes. */
  datatype Event = Event(
    decoderType: DecoderType,
    status: Option<string>, id: Option<string>,
    srcip: Option<string>, srcport: Option<string>, dstip: Option<string>, dstport: Option<string>,
    protocol: Option<string>, action: Option<string>, url: Option<string>)

  /** `strncpy(category, c, 7)` into the 8-byte buffer: the first seven characters at most. */
  function Category(c: string): (r: string)
    ensures |r| <= 7 && r <= c
  {
    if |c| <= 7 then c else c[..7]
  }

  /** The category is "32" exactly when the capture is "32". */
  lemma CategoryIs32(c: string)
    ensures Category(c) == "32" <==> c == "32"
  {
  }

  const PassIds: set<string> := {"98", "597", "598"}
  const DropIds: set<string> := {"38", "36", "173", "174", "37"}
  const CloseId := "537"
  const ProxyId := "97"

  /**
   * The classification of an event by category and id, in the order the
   * decoder tests them; the proxy case is completed by `ProxyStage`.
   */
  function Classify(category: string, id: string): (r: (DecoderType, Option<string>))
    ensures r.0 == Ids <==> category == "32"
    ensures r.0 == Squid <==> category != "32" && id == ProxyId
    ensures r.0 == Syslog <==> category != "32" && id !in PassIds + DropIds + {CloseId, ProxyId}
    ensures r.1.Some? <==> r.0 == Firewall
    ensures r.1 == Some("pass") <==> category != "32" && id in PassIds
    ensures r.1 == Some("drop") <==> category != "32" && id in DropIds
    ensures r.1 == Some("close") <==> category != "32" && id == CloseId
  {
    if category == "32" then (Ids, None)
    else if id in PassIds then (Firewall, Some("pass"))
    else if id in DropIds then (Firewall, Some("drop"))
    else if id == CloseId then (Firewall, Some("close"))
    else if id == ProxyId then (Squid, None)
    else (Syslog, None)
  }

  /** The id sets are disjoint, so the order of the tests only matters for category 32. */
  lemma ClassesDisjoint()
    ensures PassIds * DropIds == {} && CloseId !in PassIds + DropIds && ProxyId !in PassIds + DropIds + {CloseId}
  {
  }

  /**
   * The protocol copied after "proto=": characters up to the first '/' or
   * invalid one, six at most (`budget`).
   */
  function ProtocolOf(s: string, isValidChar: char -> bool, budget: nat): (p: string)
    ensures |p| <= budget && p <= s
    ensures forall k :: 0 <= k < |p| ==> isValidChar(s[k]) && s[k] != '/'
    ensures |p| < budget && |p| < |s| ==> !isValidChar(s[|p|]) || s[|p|] == '/'
  {
    if budget == 0 || |s| == 0 || !isValidChar(s[0]) || s[0] == '/' then ""
    else [s[0]] + ProtocolOf(s[1..], isValidChar, budget - 1)
  }

  const ProtoTag := "proto="
  const MaxProtocol := 6

  /** The index of the first space of `s`, if any (`strchr(s, ' ')`). */
  function SpaceAt(s: string): (r: Option<nat>)
    ensures r.Some? ==> r.value < |s| && s[r.value] == ' ' && forall k :: 0 <= k < r.value ==> s[k] != ' '
    ensures r.None? ==> forall k :: 0 <= k < |s| ==> s[k] != ' '
  {
    if |s| == 0 then None
    else if s[0] == ' ' then Some(0)
    else
      var r := SpaceAt(s[1..]);
      if r.Some? then Some(r.value + 1) else None
  }

  /**
   * After the address captures: the protocol, when the word after the
   * first space is `proto=...`, and where the text continues (None when
   * there is no space).
   */
  function ProtocolStage(e: Event, rest: string, isValidChar: char -> bool): (r: (Event, Option<string>))
    ensures r.0 == e || (r.0 == e.(protocol := r.0.protocol) && r.0.protocol.Some?)
  {
    match SpaceAt(rest)
    case None => (e, None)
    case Some(i) =>
      var t := rest[i + 1..];
      if |t| >= |ProtoTag| && t[..|ProtoTag|] == ProtoTag then
        var p := ProtocolOf(t[|ProtoTag|..], isValidChar, MaxProtocol);
        (e.(protocol := Some(p)), Some(t[|ProtoTag| + |p|..]))
      else (e, Some(t))
  }

  /**
   * The proxy messages: the HTTP result replaces the id, and the URL is the
   * destination name followed by the argument.
   */
  function ProxyStage(e: Event, subs: Captures, tmp: Option<string>, regex: Regex): (r: (Event, Captures))
  {
    if tmp.None? then (e, subs)
    else
      match regex(Proxy, tmp.value)
      case NoMatch => (e, subs)
      case Matched(_, s3) =>
        if !Has(s3, 0) then (e, s3)
        else
          var e3 := e.(id := Sub(s3, 0));
          if Has(s3, 1) && Has(s3, 2) then
            (e3.(url := Some(Sub(s3, 1).value + Sub(s3, 2).value)), ClearFirst(s3, 3))
          else (e3, ClearFirst(s3, 1))
  }

  /** The classification and, for proxy messages, the proxy stage. */
  function ClassifyStage(e: Event, subs: Captures, category: string, tmp: Option<string>, regex: Regex): (r: (Event, Captures))
    requires e.id.Some?
  {
    var (t, action) := Classify(category, e.id.value);
    if t == Squid then ProxyStage(e.(decoderType := Squid), subs, tmp, regex)
    else if t == Syslog then (e, subs)
    else (e.(decoderType := t, action := if action.Some? then action else e.action), subs)
  }

  /** The second expression and what follows it, once the priority, category and id are known. */
  function AddressStage(e: Event, rest1: string, category: string, subs: Captures, regex: Regex,
                        isValidChar: char -> bool): (r: (Event, Captures))
    requires e.id.Some?
  {
    match regex(Addresses, rest1)
    case NoMatch => (e, subs)
    case Matched(rest2, s2) =>
      if !(Has(s2, 0) && Has(s2, 1) && Has(s2, 2) && Has(s2, 3)) then (e, Cleared(s2))
      else
        var e2 := e.(srcip := Sub(s2, 0), srcport := Sub(s2, 1), dstip := Sub(s2, 2), dstport := Sub(s2, 3));
        var (e3, tmp) := ProtocolStage(e2, rest2, isValidChar);
        ClassifyStage(e3, ClearFirst(s2, 4), category, tmp, regex)
  }

  /**
   * `SonicWall_Decoder_Exec(lf, decoder_match)`: the event's fields and the
   * captures after decoding `log`, from the fields `e0` and captures `subs0`
   * before.
   */
  function Decode(e0: Event, subs0: Captures, log: string, regex: Regex, isValidChar: char -> bool): (r: (Event, Captures))
  {
    var e := e0.(decoderType := Syslog);
    match regex(PriorityId, log)
    case NoMatch => (e, subs0)
    case Matched(rest1, s1) =>
      if !(Has(s1, 0) && Has(s1, 1) && Has(s1, 2)) then (e, Cleared(s1))
      else
        AddressStage(e.(status := Sub(s1, 0), id := Sub(s1, 2)), rest1, Category(Sub(s1, 1).value),
                     ClearFirst(s1, 3), regex, isValidChar)
  }

  // ------------------------------------------------------------ properties

  /**
   * A missing priority, category or id leaves the event as it was (but for
   * its type, reset to syslog) and clears the captures.
   */
  lemma MissingIdsLeaveEvent(e0: Event, subs0: Captures, log: string, regex: Regex, isValidChar: char -> bool)
    requires regex(PriorityId, log).Matched?
    requires var s1 := regex(PriorityId, log).subs; !(Has(s1, 0) && Has(s1, 1) && Has(s1, 2))
    ensures Decode(e0, subs0, log, regex, isValidChar).0 == e0.(decoderType := Syslog)
    ensures var s1 := regex(PriorityId, log).subs;
            var after := Decode(e0, subs0, log, regex, isValidChar).1;
            forall k :: 0 <= k < |after| ==> after[k].None? || k > FirstNone(s1)
  {
  }

  /** Both expressions matched with all their captures: the event fields they fill. */
  predicate FullMatch(log: string, regex: Regex)
  {
    regex(PriorityId, log).Matched? &&
    (var s1 := regex(PriorityId, log).subs;
     Has(s1, 0) && Has(s1, 1) && Has(s1, 2) &&
     regex(Addresses, regex(PriorityId, log).rest).Matched? &&
     (var s2 := regex(Addresses, regex(PriorityId, log).rest).subs;
      Has(s2, 0) && Has(s2, 1) && Has(s2, 2) && Has(s2, 3)))
  }

  /**
   * When both expressions match: status is the priority, the addresses
   * and ports are the second expression's captures, and the type follows
   * the precedence IDS (category 32), then pass, drop and close ids as
   * firewall events, then the proxy id as squid; anything else stays syslog.
   */
  lemma FullMatchEvent(e0: Event, subs0: Captures, log: string, regex: Regex, isValidChar: char -> bool)
    requires FullMatch(log, regex)
    ensures var s1 := regex(PriorityId, log).subs;
            var s2 := regex(Addresses, regex(PriorityId, log).rest).subs;
            var e := Decode(e0, subs0, log, regex, isValidChar).0;
            var c := Sub(s1, 1).value;
            var id := Sub(s1, 2).value;
            e.status == Sub(s1, 0) &&
            e.srcip == Sub(s2, 0) && e.srcport == Sub(s2, 1) && e.dstip == Sub(s2, 2) && e.dstport == Sub(s2, 3) &&
            (e.decoderType == Ids <==> c == "32") &&
            (c != "32" && id in PassIds ==> e.decoderType == Firewall && e.action == Some("pass")) &&
            (c != "32" && id in DropIds ==> e.decoderType == Firewall && e.action == Some("drop")) &&
            (c != "32" && id == CloseId ==> e.decoderType == Firewall && e.action == Some("close")) &&
            (c != "32" && id == ProxyId ==> e.decoderType == Squid) &&
            (c != "32" && id !in PassIds + DropIds + {CloseId, ProxyId} ==> e.decoderType == Syslog && e.id == Some(id)) &&
            (id != ProxyId || c == "32" ==> e.id == Some(id) && e.url == e0.url)
  {
    var s1 := regex(PriorityId, log).subs;
    CategoryIs32(Sub(s1, 1).value);
  }

  /** `rest` holds `proto=` followed by `p` from index `i` on. */
  predicate TaggedAt(rest: string, i: nat, p: string)
  {
    i + |ProtoTag| + |p| <= |rest| && rest[i..i + |ProtoTag| + |p|] == ProtoTag + p
  }

  /**
   * The protocol is only ever set to at most six valid characters other
   * than '/', found right after "proto=" at the start of the word that
   * follows the first space.
   */
  lemma ProtocolBounded(e: Event, rest: string, isValidChar: char -> bool)
    ensures var r := ProtocolStage(e, rest, isValidChar).0;
            r.protocol != e.protocol ==>
              r.protocol.Some? && |r.protocol.value| <= MaxProtocol && '/' !in r.protocol.value &&
              (forall k :: 0 <= k < |r.protocol.value| ==> isValidChar(r.protocol.value[k])) &&
              SpaceAt(rest).Some? && TaggedAt(rest, SpaceAt(rest).value + 1, r.protocol.value)
  {
    var r := ProtocolStage(e, rest, isValidChar).0;
    if r.protocol != e.protocol {
      var i := SpaceAt(rest).value;
      var t := rest[i + 1..];
      var s := t[|ProtoTag|..];
      var p := ProtocolOf(s, isValidChar, MaxProtocol);
      assert r.protocol == Some(p);
      TaggedAfter(rest, i + 1, p);
    }
  }

  /** A prefix of what follows a "proto=" that starts at `i` makes `rest` tagged there. */
  lemma TaggedAfter(rest: string, i: nat, p: string)
    requires i <= |rest| && |rest[i..]| >= |ProtoTag| && rest[i..][..|ProtoTag|] == ProtoTag
    requires p <= rest[i..][|ProtoTag|..]
    ensures TaggedAt(rest, i, p)
  {
    var n := |ProtoTag| + |p|;
    forall k | 0 <= k < n
      ensures rest[i..i + n][k] == (ProtoTag + p)[k]
    {
      if k < |ProtoTag| {
        assert rest[i..][..|ProtoTag|][k] == rest[i + k];
      } else {
        assert rest[i..][|ProtoTag|..][k - |ProtoTag|] == rest[i + k];
      }
    }
  }

  /**
   * A proxy message whose third expression captures all three values: the
   * id becomes the HTTP result and the URL is the destination name
   * followed by the argument.
   */
  lemma ProxyUrl(e: Event, subs: Captures, tmp: string, regex: Regex)
    requires regex(Proxy, tmp).Matched?
    requires var s3 := regex(Proxy, tmp).subs; Has(s3, 0) && Has(s3, 1) && Has(s3, 2)
    ensures var s3 := regex(Proxy, tmp).subs;
            var r := ProxyStage(e, subs, Some(tmp), regex).0;
            r.id == Sub(s3, 0) && r.url == Some(Sub(s3, 1).value + Sub(s3, 2).value) &&
            r.decoderType == e.decoderType && r.status == e.status
  {
  }

  // ------------------------------------------------------------ state

  /** The fields of `Eventinfo` the decoder reads and writes. */
  class Eventinfo {
    const log: string
    var decoderType: DecoderType
    var status: Option<string>
    var id: Option<string>
    var srcip: Option<string>
    var srcport: Option<string>
    var dstip: Option<string>
    var dstport: Option<string>
    var protocol: Option<string>
    var action: Option<string>
    var url: Option<string>

    function Fields(): Event
      reads this
    {
      Event(decoderType, status, id, srcip, srcport, dstip, dstport, protocol, action, url)
    }

    constructor (log: string, e: Event)
      ensures this.log == log && Fields() == e
    {
      this.log := log;
      decoderType, status, id := e.decoderType, e.status, e.id;
      srcip, srcport, dstip, dstport := e.srcip, e.srcport, e.dstip, e.dstport;
      protocol, action, url := e.protocol, e.action, e.url;
    }
  }

  /** `regex_matching`: the capture slots a regular expression run fills. */
  class RegexMatching {
    var subStrings: Captures

    constructor (subs: Captures)
      ensures subStrings == subs
    {
      subStrings := subs;
    }

    /** The loop that frees and NULLs each capture up to the terminating NULL. */
    method ClearAll()
      modifies this
      ensures subStrings == Cleared(old(subStrings))
    {
      var i := 0;
      ghost var before := subStrings;
      while i < |subStrings| && subStrings[i].Some?
        invariant i <= FirstNone(before) && |subStrings| == |before|
        invariant forall k :: 0 <= k < |before| ==> subStrings[k] == if k < i then None else before[k]
      {
        subStrings := subStrings[i := None];
        i := i + 1;
      }
      assert i == FirstNone(before);
    }
  }

  /**
   * The copy loop: at most six characters, stopping at '/' or an invalid
   * one. `rest` is the text after the copied characters, as the source's
   * advancing pointer.
   */
  method CopyProtocol(s: string, isValidChar: char -> bool) returns (proto: string)
    ensures proto == ProtocolOf(s, isValidChar, MaxProtocol)
  {
    var rest := s;
    var i := 0;
    proto := "";
    while i < MaxProtocol && |rest| > 0 && isValidChar(rest[0]) && rest[0] != '/'
      invariant i <= MaxProtocol
      invariant ProtocolOf(s, isValidChar, MaxProtocol) == proto + ProtocolOf(rest, isValidChar, MaxProtocol - i)
      decreases MaxProtocol - i
    {
      CopyStep(proto, rest, isValidChar, MaxProtocol - i);
      proto := proto + [rest[0]];
      rest := rest[1..];
      i := i + 1;
    }
    assert ProtocolOf(rest, isValidChar, MaxProtocol - i) == "";
    assert proto + "" == proto;
  }

  /** One copied character moves from the protocol still to read to the copied one. */
  lemma CopyStep(proto: string, rest: string, isValidChar: char -> bool, budget: nat)
    requires budget > 0 && |rest| > 0 && isValidChar(rest[0]) && rest[0] != '/'
    ensures proto + ProtocolOf(rest, isValidChar, budget) == (proto + [rest[0]]) + ProtocolOf(rest[1..], isValidChar, budget - 1)
  {
    var tail := ProtocolOf(rest[1..], isValidChar, budget - 1);
    assert ProtocolOf(rest, isValidChar, budget) == [rest[0]] + tail;
    assert proto + ([rest[0]] + tail) == (proto + [rest[0]]) + tail;
  }

  /** The decoder's state: whether its expressions have been compiled. */
  class SonicWallDecoder {
    var initialized: bool
    var compilations: nat

    constructor ()
      ensures !initialized && compilations == 0
    {
      initialized := false;
      compilations := 0;
    }

    /**
     * `SonicWall_Decoder_Init()`: compiles the three expressions once;
     * later calls return at once. `compileOk` is whether all three compile
     * with sub-strings.
     */
    method Init(compileOk: bool)
      modifies this
      ensures old(initialized) ==> initialized && compilations == old(compilations)
      ensures !old(initialized) ==> initialized == compileOk && compilations == old(compilations) + 1
    {
      if initialized {
        return;
      }
      compilations := compilations + 1;
      if !compileOk {
        return;
      }
      initialized := true;
    }

    /** `SonicWall_Decoder_Exec(lf, decoder_match)`. */
    method Exec(lf: Eventinfo, dm: RegexMatching, regex: Regex, isValidChar: char -> bool)
      modifies lf, dm
      ensures (lf.Fields(), dm.subStrings) == Decode(old(lf.Fields()), old(dm.subStrings), lf.log, regex, isValidChar)
    {
      ghost var e0, subs0 := lf.Fields(), dm.subStrings;
      lf.decoderType := Syslog;
      var run1 := regex(PriorityId, lf.log);
      if run1.NoMatch? {
        return;
      }
      dm.subStrings := run1.subs;
      if !(Has(dm.subStrings, 0) && Has(dm.subStrings, 1) && Has(dm.subStrings, 2)) {
        dm.ClearAll();
        return;
      }
      lf.status := Sub(dm.subStrings, 0);
      lf.id := Sub(dm.subStrings, 2);
      var category := Category(Sub(dm.subStrings, 1).value);
      dm.subStrings := ClearFirst(dm.subStrings, 3);
      DecodeAddresses(lf, dm, run1.rest, category, regex, isValidChar);
    }

    /** What `Exec` does once the priority, category and id are known. */
    method DecodeAddresses(lf: Eventinfo, dm: RegexMatching, rest1: string, category: string,
                           regex: Regex, isValidChar: char -> bool)
      modifies lf, dm
      requires lf.id.Some?
      ensures (lf.Fields(), dm.subStrings) ==
                AddressStage(old(lf.Fields()), rest1, category, old(dm.subStrings), regex, isValidChar)
    {
      var run2 := regex(Addresses, rest1);
      if run2.NoMatch? {
        return;
      }
      dm.subStrings := run2.subs;
      if !(Has(dm.subStrings, 0) && Has(dm.subStrings, 1) && Has(dm.subStrings, 2) && Has(dm.subStrings, 3)) {
        dm.ClearAll();
        return;
      }
      lf.srcip, lf.srcport := Sub(dm.subStrings, 0), Sub(dm.subStrings, 1);
      lf.dstip, lf.dstport := Sub(dm.subStrings, 2), Sub(dm.subStrings, 3);
      dm.subStrings := ClearFirst(dm.subStrings, 4);
      var tmp := ReadProtocol(lf, run2.rest, isValidChar);
      ClassifyEvent(lf, dm, category, tmp, regex);
    }

    /** The protocol lookup after the addresses: returns where the text continues. */
    method ReadProtocol(lf: Eventinfo, rest: string, isValidChar: char -> bool) returns (tmp: Option<string>)
      modifies lf
      ensures (lf.Fields(), tmp) == ProtocolStage(old(lf.Fields()), rest, isValidChar)
    {
      tmp := None;
      var space := SpaceAt(rest);
      if space.Some? {
        var t := rest[space.value + 1..];
        tmp := Some(t);
        if |t| >= |ProtoTag| && t[..|ProtoTag|] == ProtoTag {
          var proto := CopyProtocol(t[|ProtoTag|..], isValidChar);
          lf.protocol := Some(proto);
          tmp := Some(t[|ProtoTag| + |proto|..]);
        }
      }
    }

    /** The classification tail of `Exec`. */
    method ClassifyEvent(lf: Eventinfo, dm: RegexMatching, category: string, tmp: Option<string>, regex: Regex)
      modifies lf, dm
      requires lf.id.Some?
      ensures (lf.Fields(), dm.subStrings) == ClassifyStage(old(lf.Fields()), old(dm.subStrings), category, tmp, regex)
    {
      var id := lf.id.value;
      if category == "32" {
        lf.decoderType := Ids;
      } else if id in PassIds {
        lf.decoderType := Firewall;
        lf.action := Some("pass");
      } else if id in DropIds {
        lf.decoderType := Firewall;
        lf.action := Some("drop");
      } else if id == CloseId {
        lf.decoderType := Firewall;
        lf.action := Some("close");
      } else if id == ProxyId {
        lf.decoderType := Squid;
        if tmp.None? {
          return;
        }
        var run3 := regex(Proxy, tmp.value);
        if run3.NoMatch? {
          return;
        }
        dm.subStrings := run3.subs;
        if !Has(dm.subStrings, 0) {
          return;
        }
        lf.id := Sub(dm.subStrings, 0);
        dm.subStrings := ClearFirst(dm.subStrings, 1);
        if Has(run3.subs, 1) && Has(run3.subs, 2) {
          lf.url := Some(Sub(run3.subs, 1).value + Sub(run3.subs, 2).value);
          dm.subStrings := ClearFirst(run3.subs, 3);
        }
      }
    }
  }
}
