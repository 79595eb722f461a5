/**
 * `SecuricsDBQueryBuilder`: a fluent builder of SecuricsDB query strings. Each
 * step appends a fragment to the query; the steps that take a name, value or
 * command check it first and throw `std::runtime_error` without appending
 * anything when the check fails.
 */
module DbQueryBuilder {
  import opened Wrappers
  import Text

  /** `SECURICS_DB_ALLOWED_CHARS`: the characters allowed besides letters and digits. */
  const AllowedChars: string := "-_ "

  predicate IsAsciiAlphaNumeric(c: char)
  {
    ('a' <= c <= 'z') || ('A' <= c <= 'Z') || ('0' <= c <= '9')
  }

  /** `Utils::isAlphaNumericWithSpecialCharacters(s, AllowedChars)`. */
  predicate IsSafeText(s: string)
  {
    forall i :: 0 <= i < |s| ==> IsAsciiAlphaNumeric(s[i]) || s[i] in AllowedChars
  }

  /** `Utils::isNumber(s)`: a non-empty run of decimal digits. */
  predicate IsNumber(s: string)
  {
    |s| > 0 && Text.AllDigits(s)
  }

  /** The builder's operations. */
  datatype Op =
    | Global | Agent | SelectAll | FromTable | WhereColumn | IsNull | IsNotNull | EqualsTo
    | AndColumn | OrColumn | GlobalGetCommand | GlobalFindCommand | GlobalSelectCommand
    | AgentGetOsInfoCommand | AgentGetHotfixesCommand | AgentGetPackagesCommand

  /** One call of the chain: the operation and its argument (`""` for those that take none). */
  datatype Step = Step(op: Op, arg: string)

  /** The check an operation makes of its argument before appending. */
  datatype Guard = Unchecked | AgentId | SafeText(message: string)

  function GuardOf(op: Op): Guard
  {
    match op
    case Agent | AgentGetOsInfoCommand | AgentGetHotfixesCommand | AgentGetPackagesCommand => AgentId
    case FromTable => SafeText("Invalid table name")
    case WhereColumn | AndColumn | OrColumn => SafeText("Invalid column name")
    case EqualsTo => SafeText("Invalid value")
    case GlobalGetCommand | GlobalFindCommand | GlobalSelectCommand => SafeText("Invalid command")
    case Global | SelectAll | IsNull | IsNotNull => Unchecked
  }

  /** The check a step makes before appending: `Success(())`, or the message it throws. */
  function Check(s: Step): Result<(), string>
  {
    match GuardOf(s.op)
    case Unchecked => Success(())
    case AgentId => if IsNumber(s.arg) then Success(()) else Failure("Invalid agent id")
    case SafeText(m) => if IsSafeText(s.arg) then Success(()) else Failure(m)
  }

  /** The text each operation appends before its argument. */
  function Prefix(op: Op): string
  {
    match op
    case Global => "global sql "
    case Agent | AgentGetOsInfoCommand | AgentGetHotfixesCommand | AgentGetPackagesCommand => "agent "
    case SelectAll => "SELECT * "
    case FromTable => "FROM "
    case WhereColumn => "WHERE "
    case IsNull => "IS NULL "
    case IsNotNull => "IS NOT NULL "
    case EqualsTo => "= '"
    case AndColumn => "AND "
    case OrColumn => "OR "
    case GlobalGetCommand => "global get-"
    case GlobalFindCommand => "global find-"
    case GlobalSelectCommand => "global select-"
  }

  /** The text each operation that takes an argument appends after it; `None` for those that take none. */
  function Suffix(op: Op): Option<string>
  {
    match op
    case Global | SelectAll | IsNull | IsNotNull => None
    case Agent => Some(" sql ")
    case EqualsTo => Some("' ")
    case AgentGetOsInfoCommand => Some(" osinfo get ")
    case AgentGetHotfixesCommand => Some(" hotfix get ")
    case AgentGetPackagesCommand => Some(" package get ")
    case FromTable | WhereColumn | AndColumn | OrColumn => Some(" ")
    case GlobalGetCommand | GlobalFindCommand | GlobalSelectCommand => Some(" ")
  }

  /** The text a step appends once its check has passed. */
  function Fragment(s: Step): string
  {
    if Suffix(s.op).Some? then Prefix(s.op) + s.arg + Suffix(s.op).value else Prefix(s.op)
  }

  /** The result of one more step after `r`: the first failure is kept. */
  function Then(r: Result<string, string>, s: Step): Result<string, string>
  {
    if r.Failure? then r
    else if Check(s).Failure? then Failure(Check(s).error)
    else Success(r.value + Fragment(s))
  }

  /**
   * The query a chain of steps builds from a fresh builder, or the message of
   * the first step that throws.
   */
  function Build(steps: seq<Step>): (r: Result<string, string>)
    ensures r.Success? ==> forall i :: 0 <= i < |steps| ==> Check(steps[i]).Success?
    ensures r.Failure? ==> exists i :: 0 <= i < |steps| && Check(steps[i]) == Failure(r.error)
  {
    if |steps| == 0 then Success("")
    else
      var init := steps[..|steps| - 1];
      var r := Then(Build(init), steps[|steps| - 1]);
      assert forall i :: 0 <= i < |init| ==> init[i] == steps[i];
      r
  }

  /** A chain succeeds exactly when every one of its steps passes its check. */
  lemma {:induction false} BuildSucceedsIff(steps: seq<Step>)
    ensures Build(steps).Success? <==> forall i :: 0 <= i < |steps| ==> Check(steps[i]).Success?
    decreases |steps|
  {
    if |steps| > 0 {
      BuildSucceedsIff(steps[..|steps| - 1]);
      ChecksSnoc(steps);
    }
  }

  /** Every step of the chain passes its check. */
  predicate AllPass(steps: seq<Step>)
  {
    forall i :: 0 <= i < |steps| ==> Check(steps[i]).Success?
  }

  /** Every step of a chain passes exactly when those before the last do and the last does. */
  lemma ChecksSnoc(steps: seq<Step>)
    requires |steps| > 0
    ensures AllPass(steps) <==> AllPass(steps[..|steps| - 1]) && Check(steps[|steps| - 1]).Success?
  {
    var init := steps[..|steps| - 1];
    assert forall i :: 0 <= i < |init| ==> init[i] == steps[i];
  }

  /** A chain that throws throws the message of its first failing step. */
  lemma {:induction false} BuildFirstFailure(steps: seq<Step>, k: nat)
    requires k < |steps| && Check(steps[k]).Failure?
    requires forall i :: 0 <= i < k ==> Check(steps[i]).Success?
    ensures Build(steps) == Failure(Check(steps[k]).error)
    decreases |steps|
  {
    var init := steps[..|steps| - 1];
    if k < |steps| - 1 {
      BuildFirstFailure(init, k);
    } else {
      BuildSucceedsIff(init);
    }
  }

  /** The builder object: `m_query` is the only state. */
  class QueryBuilder {
    var query: string

    /** `Utils::Builder<T>::builder()`: a fresh builder with an empty query. */
    constructor()
      ensures query == ""
    {
      query := "";
    }

    /**
     * Runs one step. On success the fragment is appended; on failure the
     * query is left as it was and the step's message is returned: the
     * outcome `Then` gives for a builder holding the old query.
     */
    method Apply(s: Step) returns (thrown: Option<string>)
      modifies this
      ensures thrown.None? <==> Check(s).Success?
      ensures thrown.Some? ==> thrown.value == Check(s).error && query == old(query)
      ensures thrown.None? ==> query == old(query) + Fragment(s)
    {
      var c := Check(s);
      if c.Failure? {
        return Some(c.error);
      }
      query := query + Fragment(s);
      return None;
    }

    /** `build()`: the query so far. */
    method BuildQuery() returns (q: string)
      ensures q == query
    {
      return query;
    }
  }

  /** A step after a query `x + y` appends to `y` what it would append to `y` alone. */
  lemma ThenShift(x: string, y: string, s: Step)
    ensures Then(Success(x + y), s) ==
      if Then(Success(y), s).Success? then Success(x + Then(Success(y), s).value) else Then(Success(y), s)
  {
    if Check(s).Success? {
      var f := Fragment(s);
      assert x + y + f == x + (y + f);
    }
  }

  /** Successful chains compose: the query of `a + b` is the query of `a` followed by that of `b`. */
  lemma {:induction false} BuildAppend(a: seq<Step>, b: seq<Step>)
    requires Build(a).Success? && Build(b).Success?
    ensures Build(a + b) == Success(Build(a).value + Build(b).value)
    decreases |b|
  {
    if |b| == 0 {
      assert a + b == a;
      assert Build(a).value + Build(b).value == Build(a).value;
    } else {
      var b' := b[..|b| - 1];
      var last := b[|b| - 1];
      assert (a + b)[..|a + b| - 1] == a + b';
      assert (a + b)[|a + b| - 1] == last;
      assert Build(b').Success?;
      BuildAppend(a, b');
      ThenShift(Build(a).value, Build(b').value, last);
    }
  }

  /** The number of occurrences of `c` in `s`. */
  function Count(s: string, c: char): nat
  {
    if |s| == 0 then 0 else (if s[0] == c then 1 else 0) + Count(s[1..], c)
  }

  lemma {:induction false} CountAppend(a: string, b: string, c: char)
    ensures Count(a + b, c) == Count(a, c) + Count(b, c)
    decreases |a|
  {
    if |a| == 0 {
      assert a + b == b;
    } else {
      assert (a + b)[1..] == a[1..] + b;
      CountAppend(a[1..], b, c);
    }
  }

  lemma {:induction false} CountAbsent(s: string, c: char)
    requires c !in s
    ensures Count(s, c) == 0
    decreases |s|
  {
    if |s| > 0 {
      CountAbsent(s[1..], c);
    }
  }

  /** The number of `equalsTo` steps in a chain. */
  function ValueCount(steps: seq<Step>): nat
  {
    if |steps| == 0 then 0
    else ValueCount(steps[..|steps| - 1]) + (if steps[|steps| - 1].op.EqualsTo? then 1 else 0)
  }

  /** Only the value of `equalsTo` is quoted: no other fixed text holds an apostrophe. */
  lemma FixedTextQuotes(op: Op)
    ensures op != EqualsTo ==> '\'' !in Prefix(op)
    ensures op != EqualsTo && Suffix(op).Some? ==> '\'' !in Suffix(op).value
  {
  }

  /** A step that passes its check appends exactly two quotes for `equalsTo` and none otherwise. */
  lemma FragmentQuotes(s: Step)
    requires Check(s).Success?
    ensures Count(Fragment(s), '\'') == if s.op.EqualsTo? then 2 else 0
  {
    var q, x := '\'', s.arg;
    if !GuardOf(s.op).Unchecked? {
      assert q !in x by { assert forall i :: 0 <= i < |x| ==> x[i] != q; }
    }
    if s.op.EqualsTo? {
      assert Fragment(s) == "= '" + x + "' ";
      CountAbsent(x, q);
      CountAppend("= '", x, q);
      CountAppend("= '" + x, "' ", q);
    } else {
      FixedTextQuotes(s.op);
      assert q !in Fragment(s);
      CountAbsent(Fragment(s), q);
    }
  }

  /**
   * No injected quote: a successfully built query holds exactly two
   * apostrophes per `equalsTo` step, those that delimit its value.
   */
  lemma {:induction false} BuildQuotes(steps: seq<Step>)
    requires Build(steps).Success?
    ensures Count(Build(steps).value, '\'') == 2 * ValueCount(steps)
    decreases |steps|
  {
    if |steps| > 0 {
      var init := steps[..|steps| - 1];
      var last := steps[|steps| - 1];
      BuildQuotes(init);
      FragmentQuotes(last);
      CountAppend(Build(init).value, Fragment(last), '\'');
    }
  }

  /** `GlobalGetCommand` of the unit tests. */
  method GlobalGetCommandTest() returns (message: string)
    ensures message == "global get-agent-info 1 "
  {
    assert Check(Step(GlobalGetCommand, "agent-info 1")).Success? by { assert IsSafeText("agent-info 1"); }
    var b := new QueryBuilder();
    var e := b.Apply(Step(GlobalGetCommand, "agent-info 1"));
    message := b.BuildQuery();
  }

  /** `AgentGetPackagesCommand` of the unit tests. */
  method AgentGetPackagesCommandTest() returns (message: string)
    ensures message == "agent 1 package get "
  {
    assert Check(Step(AgentGetPackagesCommand, "1")).Success? by { assert IsNumber("1"); }
    var b := new QueryBuilder();
    var e := b.Apply(Step(AgentGetPackagesCommand, "1"));
    message := b.BuildQuery();
  }

  /** `InvalidValue` of the unit tests: a quote in a value is refused and nothing is appended. */
  method InvalidValueTest() returns (thrown: Option<string>, message: string)
    ensures thrown == Some("Invalid value") && message == ""
  {
    assert !IsSafeText("bash'") by { assert "bash'"[4] == '\''; }
    var b := new QueryBuilder();
    thrown := b.Apply(Step(EqualsTo, "bash'"));
    message := b.BuildQuery();
  }

  /** `InvalidColumn` of the unit tests. */
  method InvalidColumnTest() returns (thrown: Option<string>)
    ensures thrown == Some("Invalid column name")
  {
    assert !IsSafeText("name'") by { assert "name'"[4] == '\''; }
    var b := new QueryBuilder();
    thrown := b.Apply(Step(WhereColumn, "name'"));
  }

  /** `InvalidTable` of the unit tests. */
  method InvalidTableTest() returns (thrown: Option<string>)
    ensures thrown == Some("Invalid table name")
  {
    assert !IsSafeText("sys_programs'") by { assert "sys_programs'"[12] == '\''; }
    var b := new QueryBuilder();
    thrown := b.Apply(Step(FromTable, "sys_programs'"));
  }
}
