/**
 * The command-line parser of the keystore tool (`CmdLineArgs`): it reads the
 * values of the switches `-f`, `-k` and `-v` from `argv`, where `argv[0]` is
 * the program name. `-h` anywhere before the switch being looked for prints
 * the help text and ends the process with status 0.
 */
module ArgsParser {

  /** How one `paramValueOf` lookup ends. */
  datatype Lookup =
    | Value(value: string)
    | HelpExit                 // showHelp(); exit(0)
    | Thrown(message: string)  // CmdLineArgsException

  /** The values the parser keeps. */
  datatype CmdLineArgs = CmdLineArgs(columnFamily: string, key: string, value: string)

  datatype Parsed = Parsed(args: CmdLineArgs) | ParseHelp | ParseError(message: string)

  /** Position `i` stops the scan: the help switch, or the wanted switch with a value after it. */
  predicate Stops(argv: seq<string>, sw: string, i: nat)
    requires i < |argv|
  {
    argv[i] == "-h" || (argv[i] == sw && i + 1 < |argv|)
  }

  /** What the scan gives once it reaches position `i` (the reference definition). */
  function LookupFrom(argv: seq<string>, sw: string, required: bool, fallback: string, i: nat): Lookup
    decreases |argv| - i
  {
    if i >= |argv| then
      if required then Thrown("Switch value: " + sw + " not found.") else Value(fallback)
    else if argv[i] == "-h" then HelpExit
    else if argv[i] == sw && i + 1 < |argv| then
      if argv[i + 1] == "" then Thrown("Switch value: " + sw + " is empty.") else Value(argv[i + 1])
    else LookupFrom(argv, sw, required, fallback, i + 1)
  }

  /** `paramValueOf(argc, argv, switchValue, required)`: the loop from `i = 1`. */
  method ParamValueOf(argv: seq<string>, sw: string, required: bool, fallback: string) returns (r: Lookup)
    ensures r == LookupFrom(argv, sw, required, fallback, 1)
  {
    var i := 1;
    while i < |argv|
      invariant 1 <= i
      invariant LookupFrom(argv, sw, required, fallback, i) == LookupFrom(argv, sw, required, fallback, 1)
    {
      var current := argv[i];
      if current == "-h" {
        return HelpExit;
      }
      if current == sw && i + 1 < |argv| {
        var returned := argv[i + 1];
        if returned == "" {
          return Thrown("Switch value: " + sw + " is empty.");
        }
        return Value(returned);
      }
      i := i + 1;
    }
    if required {
      return Thrown("Switch value: " + sw + " not found.");
    }
    return Value(fallback);
  }

  /** No position from 1 up to `k` stops the scan. */
  predicate NoStopBefore(argv: seq<string>, sw: string, k: nat)
  {
    forall j :: 1 <= j < k && j < |argv| ==> !Stops(argv, sw, j)
  }

  /** The first stopping position at or after `i`, or `|argv|` when there is none. */
  function FirstStop(argv: seq<string>, sw: string, i: nat): (k: nat)
    ensures i <= k || k == |argv|
    ensures k <= |argv| || k == i
    ensures k < |argv| ==> Stops(argv, sw, k)
    ensures forall j :: i <= j < k && j < |argv| ==> !Stops(argv, sw, j)
    decreases |argv| - i
  {
    if i >= |argv| then |argv|
    else if Stops(argv, sw, i) then i
    else FirstStop(argv, sw, i + 1)
  }

  /** The lookup is decided by the first stopping position alone. */
  lemma {:induction false} LookupAtFirstStop(argv: seq<string>, sw: string, required: bool, fallback: string, i: nat)
    ensures var k := FirstStop(argv, sw, i);
      LookupFrom(argv, sw, required, fallback, i) ==
        if k >= |argv| then
          if required then Thrown("Switch value: " + sw + " not found.") else Value(fallback)
        else if argv[k] == "-h" then HelpExit
        else if argv[k + 1] == "" then Thrown("Switch value: " + sw + " is empty.")
        else Value(argv[k + 1])
    decreases |argv| - i
  {
    if i < |argv| && !Stops(argv, sw, i) {
      LookupAtFirstStop(argv, sw, required, fallback, i + 1);
    }
  }

  /**
   * A required lookup yields `v` exactly when the switch occurs at some
   * `k >= 1` followed by the non-empty `v`, and neither `-h` nor an earlier
   * occurrence of the switch with a value after it comes before `k`.
   */
  lemma FoundIff(argv: seq<string>, sw: string, v: string)
    requires sw != "-h"
    ensures LookupFrom(argv, sw, true, "", 1) == Value(v) <==>
      exists k :: 1 <= k && k + 1 < |argv| && argv[k] == sw && argv[k + 1] == v && v != "" &&
        NoStopBefore(argv, sw, k)
  {
    LookupAtFirstStop(argv, sw, true, "", 1);
    var f := FirstStop(argv, sw, 1);
    if LookupFrom(argv, sw, true, "", 1) == Value(v) {
      assert 1 <= f && f + 1 < |argv| && argv[f] == sw && argv[f + 1] == v && v != "";
    } else {
      forall k | 1 <= k && k + 1 < |argv| && argv[k] == sw && argv[k + 1] == v && v != ""
        ensures !NoStopBefore(argv, sw, k)
      {
        assert Stops(argv, sw, k);
        if f < k { assert 1 <= f < k && Stops(argv, sw, f); }
      }
    }
  }

  /** The constructor's outcome: `-f`, `-k` and `-v` are looked up in that order, all required. */
  function ParseSpec(argv: seq<string>): Parsed
  {
    var f := LookupFrom(argv, "-f", true, "", 1);
    var k := LookupFrom(argv, "-k", true, "", 1);
    var v := LookupFrom(argv, "-v", true, "", 1);
    if f.HelpExit? then ParseHelp
    else if f.Thrown? then ParseError(f.message)
    else if k.HelpExit? then ParseHelp
    else if k.Thrown? then ParseError(k.message)
    else if v.HelpExit? then ParseHelp
    else if v.Thrown? then ParseError(v.message)
    else Parsed(CmdLineArgs(f.value, k.value, v.value))
  }

  /** `CmdLineArgs(argc, argv)`: the member initialisers run in declaration order. */
  method Parse(argv: seq<string>) returns (r: Parsed)
    ensures r == ParseSpec(argv)
    ensures r.Parsed? ==> r.args.columnFamily != "" && r.args.key != "" && r.args.value != ""
  {
    var f := ParamValueOf(argv, "-f", true, "");
    if f.HelpExit? { return ParseHelp; }
    if f.Thrown? { return ParseError(f.message); }
    FoundIff(argv, "-f", f.value);
    var k := ParamValueOf(argv, "-k", true, "");
    if k.HelpExit? { return ParseHelp; }
    if k.Thrown? { return ParseError(k.message); }
    FoundIff(argv, "-k", k.value);
    var v := ParamValueOf(argv, "-v", true, "");
    if v.HelpExit? { return ParseHelp; }
    if v.Thrown? { return ParseError(v.message); }
    FoundIff(argv, "-v", v.value);
    return Parsed(CmdLineArgs(f.value, k.value, v.value));
  }

  /** A `-h` before any switch with a value always shows the help. */
  lemma HelpFirst(argv: seq<string>)
    requires 2 <= |argv| && argv[1] == "-h"
    ensures ParseSpec(argv) == ParseHelp
  {
  }

  /** The usage line of the help text parses into its three values. */
  lemma UsageExample()
    ensures ParseSpec(["securics-keystore", "-f", "indexer", "-k", "username", "-v", "admin"])
      == Parsed(CmdLineArgs("indexer", "username", "admin"))
  {
  }

  /** A switch given last has no value after it, so it counts as not found. */
  lemma TrailingSwitchExample()
    ensures ParseSpec(["securics-keystore", "-f", "indexer", "-k", "username", "-v"])
      == ParseError("Switch value: -v not found.")
  {
  }

  /** An empty value is refused. */
  lemma EmptyValueExample()
    ensures ParseSpec(["securics-keystore", "-f", ""]) == ParseError("Switch value: -f is empty.")
  {
  }
}
