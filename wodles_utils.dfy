/**
 * Helpers shared by the wodles: the installation path derived from the
 * wodles' own directory, and the fields of `securics-control info`.
 */
module WodlesUtils {
  import opened Wrappers
  import opened Text

  // ------------------------------------------------------------ POSIX paths

  /** The index just past the last '/' of `p` (0 when there is none). */
  function TailStart(p: string): (i: nat)
    ensures i <= |p|
    ensures i > 0 ==> p[i - 1] == '/'
    ensures forall j :: i <= j < |p| ==> p[j] != '/'
  {
    if |p| == 0 then 0
    else if p[|p| - 1] == '/' then |p|
    else TailStart(p[..|p| - 1])
  }

  predicate AllSlashes(h: string)
  {
    forall i :: 0 <= i < |h| ==> h[i] == '/'
  }

  /** `h.rstrip('/')`. */
  function RStripSlashes(h: string): (r: string)
    ensures r <= h
    ensures |r| == 0 || r[|r| - 1] != '/'
    ensures |h| > 0 && h[|h| - 1] == '/' ==> |r| < |h|
    ensures forall i :: |r| <= i < |h| ==> h[i] == '/'
  {
    if |h| > 0 && h[|h| - 1] == '/' then RStripSlashes(h[..|h| - 1]) else h
  }

  /**
   * `os.path.split(p)`: the tail is what follows the last '/', the head
   * what precedes it, with its trailing slashes removed unless it is all
   * slashes.
   */
  function PathSplit(p: string): (r: (string, string))
    ensures r.1 == p[TailStart(p)..] && '/' !in r.1
    ensures r.0 == p || |r.0| < |p|
  {
    var i := TailStart(p);
    var head := p[..i];
    (if |head| > 0 && !AllSlashes(head) then RStripSlashes(head) else head, p[i..])
  }

  /**
   * The components the walk of `find_securics_path` collects: split off
   * the tail until the head (absolute paths) or the tail (relative paths)
   * is the whole remaining path.
   */
  function PathParts(p: string): (parts: seq<string>)
    ensures |parts| >= 1
    decreases |p|
  {
    var split := PathSplit(p);
    if split.0 == p then [split.0]
    else if split.1 == p then [split.1]
    else PathParts(split.0) + [split.1]
  }

  /** `os.path.join(a, b)`: an absolute `b` replaces `a`. */
  function PathJoin(a: string, b: string): string
  {
    if |b| > 0 && b[0] == '/' then b
    else if |a| == 0 || a[|a| - 1] == '/' then a + b
    else a + "/" + b
  }

  /** The components joined one after the other, starting from ''. */
  function JoinAll(parts: seq<string>): string
  {
    if |parts| == 0 then "" else PathJoin(JoinAll(parts[..|parts| - 1]), parts[|parts| - 1])
  }

  /** `xs.index(x)`. */
  function FirstIndex(xs: seq<string>, x: string): (i: nat)
    requires x in xs
    ensures i < |xs| && xs[i] == x && x !in xs[..i]
  {
    if xs[0] == x then 0
    else
      assert x in xs[1..] by { assert xs == [xs[0]] + xs[1..]; }
      var k := FirstIndex(xs[1..], x);
      assert xs[..k + 1] == [xs[0]] + xs[1..][..k];
      k + 1
  }

  const WodlesDir := "wodles"

  /** The installation path: the components before the first `wodles` one, or '' without one. */
  function InstallPath(parts: seq<string>): string
  {
    if WodlesDir in parts then JoinAll(parts[..FirstIndex(parts, WodlesDir)]) else ""
  }

  /**
   * The `while` walk of `find_securics_path`: the components, outermost
   * first. The walk stops when the head or the tail of the split is the
   * whole remaining path, which then is the first component.
   */
  method SplitAll(absPath: string) returns (allparts: seq<string>)
    ensures allparts == PathParts(absPath)
  {
    var rest := absPath;
    allparts := [];
    var parts := PathSplit(rest);
    while parts.0 != rest && parts.1 != rest
      invariant parts == PathSplit(rest)
      invariant PathParts(absPath) == PathParts(rest) + allparts
      decreases |rest|
    {
      WalkStep(absPath, rest, allparts);
      rest := parts.0;
      allparts := [parts.1] + allparts;
      parts := PathSplit(rest);
    }
    PathPartsStep(rest);
    allparts := [rest] + allparts;
  }

  /** The walk's invariant survives a turn that splits off a tail. */
  lemma WalkStep(p: string, rest: string, allparts: seq<string>)
    requires PathParts(p) == PathParts(rest) + allparts
    requires PathSplit(rest).0 != rest && PathSplit(rest).1 != rest
    ensures PathParts(p) == PathParts(PathSplit(rest).0) + ([PathSplit(rest).1] + allparts)
  {
    PathPartsStep(rest);
  }

  /** One turn of the walk: the components of `p` from those of its head. */
  lemma PathPartsStep(p: string)
    ensures var split := PathSplit(p);
            PathParts(p) == if split.0 == p || split.1 == p then [p] else PathParts(split.0) + [split.1]
  {
  }

  /** The `for` loop of `find_securics_path`: joins the components before `wodles`. */
  method JoinBeforeWodles(allparts: seq<string>) returns (securicsPath: string)
    ensures securicsPath == InstallPath(allparts)
  {
    securicsPath := "";
    if WodlesDir in allparts {
      var stop := FirstIndex(allparts, WodlesDir);
      for i := 0 to stop
        invariant securicsPath == JoinAll(allparts[..i])
      {
        assert allparts[..i + 1][..i] == allparts[..i];
        securicsPath := PathJoin(securicsPath, allparts[i]);
      }
    }
  }

  /**
   * `find_securics_path()`: `moduleDir` is `os.path.abspath(os.path.dirname(__file__))`.
   */
  method FindSecuricsPath(moduleDir: string) returns (securicsPath: string)
    ensures securicsPath == InstallPath(PathParts(moduleDir))
  {
    var allparts := SplitAll(moduleDir);
    securicsPath := JoinBeforeWodles(allparts);
  }

  /** A directory name: not empty, no '/'. */
  predicate Component(c: string)
  {
    |c| > 0 && '/' !in c
  }

  /** The normalised absolute path of a list of directory names. */
  function Absolute(comps: seq<string>): string
  {
    "/" + Join("/", comps)
  }

  lemma {:induction false} JoinSnoc(sep: string, init: seq<string>, last: string)
    requires |init| >= 1
    ensures Join(sep, init + [last]) == Join(sep, init) + sep + last
    decreases |init|
  {
    if |init| == 1 {
      assert (init + [last])[1..] == [last];
    } else {
      JoinSnoc(sep, init[1..], last);
      assert (init + [last])[1..] == init[1..] + [last];
    }
  }

  lemma {:induction false} JoinNoSlash(comps: seq<string>)
    requires forall i :: 0 <= i < |comps| ==> Component(comps[i])
    ensures |comps| >= 1 ==> |Join("/", comps)| > 0 && Join("/", comps)[|Join("/", comps)| - 1] != '/'
    ensures |comps| >= 1 ==> Join("/", comps)[0] != '/'
    decreases |comps|
  {
    if |comps| > 1 {
      JoinNoSlash(comps[1..]);
    }
  }

  lemma {:induction false} TailStartAfter(a: string, b: string)
    requires |a| > 0 && a[|a| - 1] == '/' && '/' !in b
    ensures TailStart(a + b) == |a|
    decreases |b|
  {
    if |b| > 0 {
      assert (a + b)[..|a + b| - 1] == a + b[..|b| - 1];
      TailStartAfter(a, b[..|b| - 1]);
    } else {
      assert a + b == a;
    }
  }

  /** The root is its own head: the walk stops there. */
  lemma SplitRoot()
    ensures PathSplit("/") == ("/", "")
  {
    assert TailStart("/") == 1 by {
      assert "/"[|"/"| - 1] == '/';
    }
    assert "/"[..1] == "/" && "/"[1..] == "";
    assert AllSlashes("/");
  }

  /** Splitting the path of a directory directly under the root. */
  lemma SplitUnderRoot(last: string)
    requires Component(last)
    ensures PathSplit("/" + last) == ("/", last)
  {
    var p := "/" + last;
    TailStartAfter("/", last);
    assert p[..1] == "/" && p[1..] == last;
    assert AllSlashes(p[..1]);
  }

  /** Splitting the path of a directory below another. */
  lemma SplitBelow(init: seq<string>, last: string)
    requires |init| >= 1 && Component(last)
    requires forall i :: 0 <= i < |init| ==> Component(init[i])
    ensures PathSplit(Absolute(init) + "/" + last) == (Absolute(init), last)
  {
    var a := Absolute(init);
    var prefix := a + "/";
    var p := prefix + last;
    assert Absolute(init) + "/" + last == p;
    TailStartAfter(prefix, last);
    assert p[..|prefix|] == prefix && p[|prefix|..] == last;
    JoinNoSlash(init);
    assert !AllSlashes(prefix) by {
      assert prefix[1] == Join("/", init)[0];
    }
    assert prefix[..|prefix| - 1] == a;
    assert RStripSlashes(prefix) == RStripSlashes(a);
  }

  /** One step of the walk: the last directory name is split off. */
  lemma PartsStep(init: seq<string>, last: string)
    requires Component(last) && forall i :: 0 <= i < |init| ==> Component(init[i])
    ensures PathParts(Absolute(init + [last])) == PathParts(Absolute(init)) + [last]
  {
    var p := Absolute(init + [last]);
    if |init| == 0 {
      assert Absolute(init) == "/";
      assert p == "/" + last;
      SplitUnderRoot(last);
    } else {
      JoinSnoc("/", init, last);
      assert p == Absolute(init) + "/" + last;
      SplitBelow(init, last);
    }
    var split := PathSplit(p);
    assert split == (Absolute(init), last);
    assert |split.0| < |p|;
    assert split.1 != p by {
      assert p[0] == '/' && '/' !in last;
    }
  }

  /** A non-empty list is its front followed by its last element. */
  lemma FrontLast(comps: seq<string>)
    requires |comps| >= 1
    ensures comps == comps[..|comps| - 1] + [comps[|comps| - 1]]
    ensures ["/"] + comps == ["/"] + comps[..|comps| - 1] + [comps[|comps| - 1]]
  {
  }

  lemma PartsSnoc(comps: seq<string>)
    requires |comps| >= 1 && forall i :: 0 <= i < |comps| ==> Component(comps[i])
    requires PathParts(Absolute(comps[..|comps| - 1])) == ["/"] + comps[..|comps| - 1]
    ensures PathParts(Absolute(comps)) == ["/"] + comps
  {
    FrontLast(comps);
    PartsStep(comps[..|comps| - 1], comps[|comps| - 1]);
  }

  lemma PartsOfRoot(comps: seq<string>)
    requires |comps| == 0
    ensures PathParts(Absolute(comps)) == ["/"] + comps
  {
    assert Absolute(comps) == "/";
    SplitRoot();
    assert ["/"] + comps == ["/"];
  }

  /** The walk of a normalised absolute path yields '/' and then its directory names. */
  lemma {:induction false} PartsOfAbsolute(comps: seq<string>)
    requires forall i :: 0 <= i < |comps| ==> Component(comps[i])
    ensures PathParts(Absolute(comps)) == ["/"] + comps
    decreases |comps|
  {
    if |comps| == 0 {
      PartsOfRoot(comps);
    } else {
      PartsOfAbsolute(comps[..|comps| - 1]);
      PartsSnoc(comps);
    }
  }

  /** Joining '/' and the directory names one by one rebuilds the absolute path. */
  lemma {:induction false} JoinAllAbsolute(comps: seq<string>)
    requires forall i :: 0 <= i < |comps| ==> Component(comps[i])
    ensures JoinAll(["/"] + comps) == Absolute(comps)
    decreases |comps|
  {
    if |comps| == 0 {
      assert JoinAll(["/"]) == PathJoin("", "/");
    } else {
      var init, last := comps[..|comps| - 1], comps[|comps| - 1];
      assert (["/"] + comps)[..|comps|] == ["/"] + init;
      JoinAllAbsolute(init);
      if |init| > 0 {
        JoinNoSlash(init);
        JoinSnoc("/", init, last);
      }
      assert comps == init + [last];
    }
  }

  /**
   * For a module under `<prefix>/wodles/...` the installation path is
   * `<prefix>` (the root when `wodles` sits directly under it), and '' when
   * no directory is called `wodles`.
   */
  lemma InstallPathOfAbsolute(comps: seq<string>)
    requires forall i :: 0 <= i < |comps| ==> Component(comps[i])
    ensures WodlesDir !in comps ==> InstallPath(PathParts(Absolute(comps))) == ""
    ensures WodlesDir in comps ==>
              InstallPath(PathParts(Absolute(comps))) == Absolute(comps[..FirstIndex(comps, WodlesDir)])
  {
    PartsOfAbsolute(comps);
    InstallPathUnderRoot(comps);
    if WodlesDir in comps {
      JoinAllAbsolute(comps[..FirstIndex(comps, WodlesDir)]);
    }
  }

  lemma InstallPathUnderRoot(comps: seq<string>)
    ensures WodlesDir !in comps ==> InstallPath(["/"] + comps) == ""
    ensures WodlesDir in comps ==>
              InstallPath(["/"] + comps) == JoinAll(["/"] + comps[..FirstIndex(comps, WodlesDir)])
  {
    var parts := ["/"] + comps;
    assert parts[1..] == comps;
    assert "/" != WodlesDir;
    if WodlesDir in comps {
      var k := FirstIndex(comps, WodlesDir);
      assert FirstIndex(parts, WodlesDir) == k + 1;
      assert parts[..k + 1] == ["/"] + comps[..k];
    } else {
      assert WodlesDir !in parts;
    }
  }

  // ------------------------------------------------------ securics-control info

  /** What `get_securics_info` raises. */
  datatype InfoError =
    | NoEmptyLine               // `list.remove('')` finds no empty line: ValueError
    | MalformedLine(line: string) // a line without exactly one '=': ValueError
    | UnknownField(field: string) // KeyError

  /** `xs.remove(x)`: drops the first occurrence. */
  function RemoveFirst(xs: seq<string>, x: string): (r: seq<string>)
    requires x in xs
    ensures |r| == |xs| - 1
    ensures x !in xs[..FirstIndex(xs, x)] && r == xs[..FirstIndex(xs, x)] + xs[FirstIndex(xs, x) + 1..]
  {
    var k := FirstIndex(xs, x);
    xs[..k] + xs[k + 1..]
  }

  /** `value.replace('"', '')`. */
  function Unquote(v: string): string
  {
    ReplaceChar(v, '"', "")
  }

  /** The variables of the lines in order, a later key overriding an earlier one. */
  function EnvOf(lines: seq<string>): Result<map<string, string>, InfoError>
  {
    if |lines| == 0 then Success(map[])
    else
      match EnvOf(lines[..|lines| - 1])
      case Failure(e) => Failure(e)
      case Success(env) =>
        var kv := Split(lines[|lines| - 1], '=');
        if |kv| != 2 then Failure(MalformedLine(lines[|lines| - 1]))
        else Success(env[kv[0] := Unquote(kv[1])])
  }

  /**
   * `get_securics_info(field)` on `output`, the text `securics-control
   * info` printed.
   */
  function SecuricsInfo(output: string, field: string): (r: Result<string, InfoError>)
    ensures output == "" ==> r == Success("ERROR")
    ensures output != "" && field == "" ==> r == Success(output)
    ensures output != "" && field != "" && "" !in Split(output, '\n') ==> r == Failure(NoEmptyLine)
  {
    if output == "" then Success("ERROR")
    else if field == "" then Success(output)
    else
      var lines := Split(output, '\n');
      if "" !in lines then Failure(NoEmptyLine)
      else
        match EnvOf(RemoveFirst(lines, ""))
        case Failure(e) => Failure(e)
        case Success(env) => if field in env then Success(env[field]) else Failure(UnknownField(field))
  }

  /** A failure on a prefix of the lines is the failure of all of them. */
  lemma {:induction false} EnvOfFailureStays(lines: seq<string>, j: nat)
    requires j <= |lines| && EnvOf(lines[..j]).Failure?
    ensures EnvOf(lines) == EnvOf(lines[..j])
    decreases |lines| - j
  {
    if j < |lines| {
      var init := lines[..|lines| - 1];
      assert init[..j] == lines[..j];
      EnvOfFailureStays(init, j);
    } else {
      assert lines[..j] == lines;
    }
  }

  /** `get_securics_info(field)`: the lines are split, the first empty one removed, and each line read into a dict. */
  method GetSecuricsInfo(output: string, field: string) returns (r: Result<string, InfoError>)
    ensures r == SecuricsInfo(output, field)
  {
    if output == "" {
      return Success("ERROR");
    }
    if field == "" {
      return Success(output);
    }
    var envVariables := Split(output, '\n');
    if "" !in envVariables {
      return Failure(NoEmptyLine);
    }
    envVariables := RemoveFirst(envVariables, "");
    var env: map<string, string> := map[];
    for i := 0 to |envVariables|
      invariant EnvOf(envVariables[..i]) == Success(env)
    {
      assert envVariables[..i + 1][..i] == envVariables[..i];
      var kv := Split(envVariables[i], '=');
      if |kv| != 2 {
        EnvOfFailureStays(envVariables, i + 1);
        return Failure(MalformedLine(envVariables[i]));
      }
      env := env[kv[0] := Unquote(kv[1])];
    }
    assert envVariables[..|envVariables|] == envVariables;
    if field !in env {
      return Failure(UnknownField(field));
    }
    r := Success(env[field]);
  }

  // ---------------------------------------------------- the printed output

  /** A key or a value the info output can carry without ambiguity. */
  predicate Plain(s: string)
  {
    '=' !in s && '\n' !in s && '"' !in s
  }

  /** One `KEY="VALUE"` line. */
  function InfoLine(key: string, value: string): string
  {
    key + "=" + "\"" + value + "\""
  }

  function InfoLines(vars: seq<(string, string)>): (lines: seq<string>)
    ensures |lines| == |vars| && forall i :: 0 <= i < |vars| ==> lines[i] == InfoLine(vars[i].0, vars[i].1)
  {
    seq(|vars|, i requires 0 <= i < |vars| => InfoLine(vars[i].0, vars[i].1))
  }

  /** The output of `securics-control info`: each variable on a line ended by a newline. */
  function InfoOutput(vars: seq<(string, string)>): string
  {
    Join("\n", InfoLines(vars) + [""])
  }

  /** The variables as a dict, a later key overriding an earlier one. */
  function VarMap(vars: seq<(string, string)>): map<string, string>
  {
    if |vars| == 0 then map[] else VarMap(vars[..|vars| - 1])[vars[|vars| - 1].0 := vars[|vars| - 1].1]
  }

  /** The quotes around a plain value are all `Unquote` removes. */
  lemma UnquoteQuoted(value: string)
    requires '"' !in value
    ensures Unquote("\"" + value + "\"") == value
  {
    ReplaceCharAppend("\"", value + "\"", '"', "");
    ReplaceCharAppend(value, "\"", '"', "");
    assert "\"" + value + "\"" == "\"" + (value + "\"");
    assert ReplaceChar("\"", '"', "") == "" by {
      assert "\""[1..] == "";
    }
  }

  lemma ReadInfoLine(key: string, value: string)
    requires Plain(key) && Plain(value)
    ensures Split(InfoLine(key, value), '=') == [key, "\"" + value + "\""]
  {
    var quoted := "\"" + value + "\"";
    assert InfoLine(key, value) == key + ['='] + quoted;
    JoinCons(['='], key, [quoted]);
    assert '=' !in quoted by {
      assert forall i :: 0 <= i < |quoted| ==> quoted[i] == '"' || quoted[i] == value[i - 1];
    }
    SplitJoin([key, quoted], '=');
  }

  lemma {:induction false} EnvOfInfoLines(vars: seq<(string, string)>)
    requires forall i :: 0 <= i < |vars| ==> Plain(vars[i].0) && Plain(vars[i].1)
    ensures EnvOf(InfoLines(vars)) == Success(VarMap(vars))
    decreases |vars|
  {
    if |vars| > 0 {
      var init := vars[..|vars| - 1];
      assert InfoLines(vars)[..|vars| - 1] == InfoLines(init);
      EnvOfInfoLines(init);
      ReadInfoLine(vars[|vars| - 1].0, vars[|vars| - 1].1);
      UnquoteQuoted(vars[|vars| - 1].1);
    }
  }

  lemma {:induction false} VarMapLookup(vars: seq<(string, string)>, j: nat)
    requires j < |vars| && forall i :: j < i < |vars| ==> vars[i].0 != vars[j].0
    ensures vars[j].0 in VarMap(vars) && VarMap(vars)[vars[j].0] == vars[j].1
    decreases |vars|
  {
    if j < |vars| - 1 {
      VarMapLookup(vars[..|vars| - 1], j);
    }
  }

  lemma {:induction false} VarMapKeys(vars: seq<(string, string)>)
    ensures forall k :: k in VarMap(vars) <==> exists i :: 0 <= i < |vars| && vars[i].0 == k
    decreases |vars|
  {
    if |vars| > 0 {
      VarMapKeys(vars[..|vars| - 1]);
      assert forall i :: 0 <= i < |vars| - 1 ==> vars[..|vars| - 1][i] == vars[i];
    }
  }

  /** No printed line is empty: each holds at least its '='. */
  lemma InfoLinesNotEmpty(vars: seq<(string, string)>)
    ensures "" !in InfoLines(vars)
  {
    var lines := InfoLines(vars);
    assert forall i :: 0 <= i < |lines| ==> lines[i][|vars[i].0|] == '=';
  }

  /** No printed line holds a newline. */
  lemma InfoLinesOneLine(vars: seq<(string, string)>)
    requires forall i :: 0 <= i < |vars| ==> Plain(vars[i].0) && Plain(vars[i].1)
    ensures forall i :: 0 <= i < |InfoLines(vars) + [""]| ==> '\n' !in (InfoLines(vars) + [""])[i]
  {
    var lines := InfoLines(vars);
    forall i | 0 <= i < |lines|
      ensures '\n' !in lines[i]
    {
      assert lines[i] == vars[i].0 + "=" + "\"" + vars[i].1 + "\"";
    }
  }

  /** The printed output splits back into its lines and a last empty one. */
  lemma InfoOutputLines(vars: seq<(string, string)>)
    requires |vars| >= 1
    requires forall i :: 0 <= i < |vars| ==> Plain(vars[i].0) && Plain(vars[i].1)
    ensures InfoOutput(vars) != ""
    ensures Split(InfoOutput(vars), '\n') == InfoLines(vars) + [""]
    ensures "" in InfoLines(vars) + [""] && RemoveFirst(InfoLines(vars) + [""], "") == InfoLines(vars)
  {
    var lines := InfoLines(vars);
    InfoLinesOneLine(vars);
    SplitJoin(lines + [""], '\n');
    InfoLinesNotEmpty(vars);
    assert FirstIndex(lines + [""], "") == |lines|;
    assert RemoveFirst(lines + [""], "") == lines;
    JoinCons("\n", lines[0], lines[1..] + [""]);
    assert lines + [""] == [lines[0]] + (lines[1..] + [""]);
  }

  /** Reading a field back from the printed output looks it up in the variables' dict. */
  lemma ReadInfoOutput(vars: seq<(string, string)>, field: string)
    requires |vars| >= 1 && field != ""
    requires forall i :: 0 <= i < |vars| ==> Plain(vars[i].0) && Plain(vars[i].1)
    ensures SecuricsInfo(InfoOutput(vars), field) ==
              if field in VarMap(vars) then Success(VarMap(vars)[field]) else Failure(UnknownField(field))
  {
    InfoOutputLines(vars);
    EnvOfInfoLines(vars);
  }

  /**
   * Reading back the printed output: a field gives the value printed for it
   * (the last one, were it printed twice), and a field that was not printed
   * is a KeyError.
   */
  lemma InfoRoundTrip(vars: seq<(string, string)>, field: string)
    requires |vars| >= 1 && field != ""
    requires forall i :: 0 <= i < |vars| ==> Plain(vars[i].0) && Plain(vars[i].1)
    ensures (forall i :: 0 <= i < |vars| ==> vars[i].0 != field) ==>
              SecuricsInfo(InfoOutput(vars), field) == Failure(UnknownField(field))
    ensures forall j :: 0 <= j < |vars| && vars[j].0 == field && (forall i :: j < i < |vars| ==> vars[i].0 != field) ==>
              SecuricsInfo(InfoOutput(vars), field) == Success(vars[j].1)
  {
    ReadInfoOutput(vars, field);
    VarMapKeys(vars);
    forall j | 0 <= j < |vars| && vars[j].0 == field && (forall i :: j < i < |vars| ==> vars[i].0 != field)
      ensures SecuricsInfo(InfoOutput(vars), field) == Success(vars[j].1)
    {
      VarMapLookup(vars, j);
    }
  }
}
