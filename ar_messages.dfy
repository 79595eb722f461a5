/**
 * Active-response messages for agents: the list of configured commands,
 * command validation, shell escaping of the arguments, the legacy text
 * message, the choice between the text and the JSON builder by agent
 * version, and the checks made before a message is sent.
 */
module ActiveResponse {
  import opened Wrappers
  import opened Text
  import opened Values
  import opened Exceptions
  import opened Queue

  // ------------------------------------------------------------ commands

  const CommandSeparator := " - "

  /** The command name of one line of the active-response configuration file. */
  function CommandName(line: string): (name: string)
    ensures name <= line
    ensures forall i: nat :: i < |name| ==> !OccursAt(line, CommandSeparator, i)
    ensures name == line || OccursAt(line, CommandSeparator, |name|)
  {
    TextBefore(line, CommandSeparator)
  }

  function CommandNames(lines: seq<string>): (names: seq<string>)
    ensures |names| == |lines| && forall i :: 0 <= i < |lines| ==> names[i] == CommandName(lines[i])
  {
    seq(|lines|, i requires 0 <= i < |lines| => CommandName(lines[i]))
  }

  /** `get_commands()`: `lines` are the lines of the configuration file, in file order. */
  method GetCommands(lines: seq<string>) returns (commands: seq<string>)
    ensures commands == CommandNames(lines)
  {
    commands := [];
    for i := 0 to |lines|
      invariant commands == CommandNames(lines[..i])
    {
      var cmd := TextBefore(lines[i], CommandSeparator);
      commands := commands + [cmd];
    }
    assert lines[..|lines|] == lines;
  }

  // ------------------------------------------------------------ escaping

  /** The characters `shell_escape` puts a backslash in front of, in replacement order. */
  const ShellEscapes: seq<char> :=
    ['"', '\'', '\t', ';', '`', '>', '<', '|', '#', '*', '[', ']', '{', '}', '&', '$', '!', ':', '(', ')']

  const Backslash: char := '\\'

  lemma ShellEscapesDistinct()
    ensures forall i, j :: 0 <= i < j < |ShellEscapes| ==> ShellEscapes[i] != ShellEscapes[j]
    ensures Backslash !in ShellEscapes
  {
  }

  /** One character with the characters of `listed` escaped. */
  function EscapeOne(c: char, listed: seq<char>): string
  {
    if c in listed then [Backslash, c] else [c]
  }

  /** Every character of `s` with the characters of `listed` escaped. */
  function EscapeWith(s: string, listed: seq<char>): string
  {
    if |s| == 0 then "" else EscapeOne(s[0], listed) + EscapeWith(s[1..], listed)
  }

  /** The meaning of `shell_escape`: each listed character gets a backslash in front, each other one is kept. */
  function Escaped(s: string): string
  {
    EscapeWith(s, ShellEscapes)
  }

  /** Replacing one more character that is neither a backslash nor already escaped escapes it too. */
  lemma {:induction false} ReplaceStep(s: string, listed: seq<char>, c: char)
    requires c !in listed && c != Backslash
    ensures ReplaceChar(EscapeWith(s, listed), c, [Backslash, c]) == EscapeWith(s, listed + [c])
    decreases |s|
  {
    if |s| > 0 {
      var head := EscapeOne(s[0], listed);
      ReplaceCharAppend(head, EscapeWith(s[1..], listed), c, [Backslash, c]);
      ReplaceStep(s[1..], listed, c);
      if s[0] in listed {
        assert c !in head;
      } else if s[0] == c {
        assert ReplaceChar(head, c, [Backslash, c]) == [Backslash, c] + ReplaceChar([], c, [Backslash, c]);
      } else {
        assert c !in head;
      }
    }
  }

  /** `shell_escape(command)`: one `replace` per listed character, in list order. */
  method ShellEscape(command: string) returns (escaped: string)
    ensures escaped == Escaped(command)
  {
    ShellEscapesDistinct();
    escaped := command;
    assert EscapeWith(command, []) == command by {
      EscapeNothing(command);
    }
    for k := 0 to |ShellEscapes|
      invariant escaped == EscapeWith(command, ShellEscapes[..k])
    {
      var c := ShellEscapes[k];
      assert c !in ShellEscapes[..k];
      ReplaceStep(command, ShellEscapes[..k], c);
      assert [Backslash] + [c] == [Backslash, c];
      escaped := ReplaceChar(escaped, c, [Backslash] + [c]);
      assert ShellEscapes[..k + 1] == ShellEscapes[..k] + [c];
    }
    assert ShellEscapes[..|ShellEscapes|] == ShellEscapes;
  }

  lemma {:induction false} EscapeNothing(s: string)
    ensures EscapeWith(s, []) == s
    decreases |s|
  {
    if |s| > 0 {
      EscapeNothing(s[1..]);
      assert s == [s[0]] + s[1..];
    }
  }

  /** The number of listed characters in `s`. */
  function ListedCount(s: string): nat
  {
    if |s| == 0 then 0 else (if s[0] in ShellEscapes then 1 else 0) + ListedCount(s[1..])
  }

  /** Escaping adds exactly one character per listed character. */
  lemma {:induction false} EscapedLength(s: string)
    ensures |Escaped(s)| == |s| + ListedCount(s)
    decreases |s|
  {
    if |s| > 0 {
      EscapedLength(s[1..]);
    }
  }

  /** Every listed character of the escaped text has a backslash right before it. */
  lemma {:induction false} EscapedIsSafe(s: string)
    ensures forall i :: 0 <= i < |Escaped(s)| && Escaped(s)[i] in ShellEscapes ==> i > 0 && Escaped(s)[i - 1] == Backslash
    decreases |s|
  {
    ShellEscapesDistinct();
    if |s| > 0 {
      EscapedIsSafe(s[1..]);
      var head, rest := EscapeOne(s[0], ShellEscapes), Escaped(s[1..]);
      assert Escaped(s) == head + rest;
      if |s| > 1 {
        EscapedStart(s[1..]);
      }
      forall i | 0 <= i < |Escaped(s)| && Escaped(s)[i] in ShellEscapes
        ensures i > 0 && Escaped(s)[i - 1] == Backslash
      {
        if i > |head| {
          assert Escaped(s)[i] == rest[i - |head|];
          assert Escaped(s)[i - 1] == rest[i - 1 - |head|];
        }
      }
    }
  }

  /** An escaped text never starts with a listed character. */
  lemma EscapedStart(s: string)
    requires |s| > 0
    ensures Escaped(s)[0] !in ShellEscapes
  {
    ShellEscapesDistinct();
  }

  /** Undo the escaping: a backslash in front of a listed character is dropped. */
  function Unescape(t: string): string
    decreases |t|
  {
    if |t| == 0 then ""
    else if |t| >= 2 && t[0] == Backslash && t[1] in ShellEscapes then [t[1]] + Unescape(t[2..])
    else [t[0]] + Unescape(t[1..])
  }

  /** Unescaping the escaped text gives the original back. */
  lemma {:induction false} UnescapeEscaped(s: string)
    ensures Unescape(Escaped(s)) == s
    decreases |s|
  {
    ShellEscapesDistinct();
    if |s| > 0 {
      var rest := Escaped(s[1..]);
      UnescapeEscaped(s[1..]);
      if s[0] in ShellEscapes {
        assert Escaped(s) == [Backslash, s[0]] + rest;
        assert Escaped(s)[2..] == rest;
      } else {
        assert Escaped(s) == [s[0]] + rest;
        assert Escaped(s)[1..] == rest;
        if |rest| > 0 {
          EscapedStart(s[1..]);
        }
      }
      assert s == [s[0]] + s[1..];
    }
  }

  /** A space is never escaped, so escaping keeps the text free of spaces when it was. */
  lemma {:induction false} EscapedSpaces(s: string)
    ensures ' ' in Escaped(s) <==> ' ' in s
    decreases |s|
  {
    if |s| > 0 {
      EscapedSpaces(s[1..]);
      assert Escaped(s) == EscapeOne(s[0], ShellEscapes) + Escaped(s[1..]);
      assert s == [s[0]] + s[1..];
    }
  }

  // ------------------------------------------------------------ builders

  /** `validate_command(command)`: 1650 when empty, 1652 when not a '!' script and not configured. */
  function ValidateCommand(command: string, commands: seq<string>, catalog: Catalog): (r: Option<ErrorRecord>)
    ensures r.None? <==> command != "" && (command[0] == '!' || command in commands)
    ensures command == "" ==> r == Some(Simple(Error, 1650, catalog))
    ensures command != "" && command[0] != '!' && command !in commands ==> r == Some(Simple(Error, 1652, catalog))
  {
    if command == "" then Some(Simple(Error, 1650, catalog))
    else if command[0] != '!' && command !in commands then Some(Simple(Error, 1652, catalog))
    else None
  }

  /** `str(x)` is defined on each argument (the arguments are scalars). */
  predicate PrintableArgs(arguments: seq<Value>)
  {
    forall i :: 0 <= i < |arguments| ==> PyStr(arguments[i]).Some?
  }

  function EscapedArgs(arguments: seq<Value>): (r: seq<string>)
    requires PrintableArgs(arguments)
    ensures |r| == |arguments| && forall i :: 0 <= i < |arguments| ==> r[i] == Escaped(PyStr(arguments[i]).value)
  {
    seq(|arguments|, i requires 0 <= i < |arguments| && PrintableArgs(arguments) => Escaped(PyStr(arguments[i]).value))
  }

  /** The text of a legacy message: the command, then the escaped arguments, or " - -" without arguments. */
  function StrMessage(command: string, arguments: seq<Value>): string
    requires PrintableArgs(arguments)
  {
    if |arguments| > 0 then command + " " + Join(" ", EscapedArgs(arguments)) else command + " - -"
  }

  /**
   * `ARStrMessage().create_message(command, arguments)`. No arguments (None
   * or an empty list) is the empty sequence.
   */
  function CreateStrMessage(command: string, arguments: seq<Value>, commands: seq<string>, catalog: Catalog): (r: Result<string, ErrorRecord>)
    requires PrintableArgs(arguments)
    ensures r.Failure? <==> ValidateCommand(command, commands, catalog).Some?
    ensures r.Failure? ==> r.error == ValidateCommand(command, commands, catalog).value
    ensures r.Success? && |arguments| == 0 ==> r.value == command + " - -"
    ensures r.Success? && |arguments| > 0 ==>
              |r.value| > |command| && r.value[..|command| + 1] == command + " " &&
              r.value[|command| + 1..] == Join(" ", EscapedArgs(arguments))
  {
    match ValidateCommand(command, commands, catalog)
    case Some(e) => Failure(e)
    case None =>
      var m := StrMessage(command, arguments);
      assert |arguments| > 0 ==> m == (command + " ") + Join(" ", EscapedArgs(arguments));
      Success(m)
  }

  /**
   * The arguments can be read back from a legacy message: split the part
   * after the command on spaces and unescape each piece. This holds when no
   * argument text holds a space (spaces are not escaped).
   */
  lemma ArgumentsRoundTrip(command: string, arguments: seq<Value>, commands: seq<string>, catalog: Catalog)
    requires PrintableArgs(arguments) && |arguments| > 0
    requires forall i :: 0 <= i < |arguments| ==> ' ' !in PyStr(arguments[i]).value
    requires CreateStrMessage(command, arguments, commands, catalog).Success?
    ensures var m := CreateStrMessage(command, arguments, commands, catalog).value;
            var parts := Split(m[|command| + 1..], ' ');
            |parts| == |arguments| &&
            forall i :: 0 <= i < |arguments| ==> Unescape(parts[i]) == PyStr(arguments[i]).value
  {
    var escaped := EscapedArgs(arguments);
    forall i | 0 <= i < |escaped| ensures ' ' !in escaped[i] {
      EscapedSpaces(PyStr(arguments[i]).value);
    }
    SplitJoin(escaped, ' ');
    forall i | 0 <= i < |arguments| ensures Unescape(escaped[i]) == PyStr(arguments[i]).value {
      UnescapeEscaped(PyStr(arguments[i]).value);
    }
  }

  /** The two message builders, in the order `choose_builder` tries them. */
  datatype Builder = StrBuilder | JsonBuilder

  /**
   * `choose_builder(agent_version)`: the first builder whose `can_handle`
   * accepts the version, else error 1000. `strHandles` is the string
   * builder's test, `SecuricsVersion(agent_version) <
   * SecuricsVersion(AR_LEGACY_VERSION)`; `jsonHandles` is the JSON builder's,
   * the same comparison with `>=`. Version parsing is not modelled, so both
   * outcomes are inputs.
   */
  function ChooseBuilder(agentVersion: string, strHandles: bool, jsonHandles: bool, catalog: Catalog): (r: Result<Builder, ErrorRecord>)
    ensures r.Success? <==> strHandles || jsonHandles
    ensures r.Success? ==> (r.value == StrBuilder <==> strHandles)
    ensures r.Failure? ==> r.error.kind == Error && r.error.code == 1000
  {
    if strHandles then Success(StrBuilder)
    else if jsonHandles then Success(JsonBuilder)
    else Failure(WithText(Error, 1000, "No suitable message builder found for agent version: " + agentVersion, catalog))
  }

  /**
   * When the two tests are complementary, as `<` and `>=` on one version
   * order are, exactly one builder is chosen and error 1000 never arises.
   */
  lemma ChooseBuilderTotal(agentVersion: string, strHandles: bool, jsonHandles: bool, catalog: Catalog)
    requires jsonHandles == !strHandles
    ensures ChooseBuilder(agentVersion, strHandles, jsonHandles, catalog).Success?
    ensures ChooseBuilder(agentVersion, strHandles, jsonHandles, catalog).value == StrBuilder <==> strHandles
  {
  }

  /** What the agent database says about the target agent. */
  datatype AgentInfo = AgentInfo(status: string, version: string, arDisabled: string, olderThanLegacy: bool)

  /** How `send_ar_message` ends: an error before anything is sent, or the queue's reply. */
  datatype ArSend = Rejected(error: ErrorRecord) | Attempted(reply: Reply)

  /**
   * `send_ar_message(agent_id, wq, command, arguments, alert)`. `jsonMessage`
   * is the JSON text the JSON builder produces (its serialisation is not
   * modelled).
   */
  function SendArMessage(agentId: string, info: AgentInfo, command: string, arguments: seq<Value>, jsonMessage: string,
                         commands: seq<string>, restartJson: string, path: string, transport: Transport,
                         catalog: Catalog): (r: ArSend)
    requires PrintableArgs(arguments)
    ensures Lower(info.status) != "active" ==> r == Rejected(Simple(Error, 1707, catalog))
    ensures Lower(info.status) == "active" && info.arDisabled == "yes" ==> r == Rejected(Simple(Error, 1750, catalog))
    ensures Lower(info.status) == "active" && info.arDisabled != "yes" && ValidateCommand(command, commands, catalog).Some? ==>
              r == Rejected(ValidateCommand(command, commands, catalog).value)
    ensures Lower(info.status) == "active" && info.arDisabled != "yes" && ValidateCommand(command, commands, catalog).None? ==>
              r == Attempted(SendMsgToAgent(if info.olderThanLegacy then StrMessage(command, arguments) else jsonMessage,
                                            agentId, ArType, restartJson, path, transport, catalog))
  {
    if Lower(info.status) != "active" then Rejected(Simple(Error, 1707, catalog))
    else if info.arDisabled == "yes" then Rejected(Simple(Error, 1750, catalog))
    else
      var builder := ChooseBuilder(info.version, info.olderThanLegacy, !info.olderThanLegacy, catalog);
      match builder
      case Failure(e) => Rejected(e)
      case Success(b) =>
        var msg := if b == StrBuilder then CreateStrMessage(command, arguments, commands, catalog)
                   else match ValidateCommand(command, commands, catalog)
                        case Some(e) => Failure(e)
                        case None => Success(jsonMessage);
        match msg
        case Failure(e) => Rejected(e)
        case Success(m) => Attempted(SendMsgToAgent(m, agentId, ArType, restartJson, path, transport, catalog))
  }

  /**
   * A legacy message for an agent other than the manager is framed with
   * flag 'NNS' and the agent's id, and the reply on success is "Command sent.".
   * (A message that reads exactly "syscheck restart" would get the flag of
   * that command instead.)
   */
  lemma LegacyMessageFraming(agentId: string, info: AgentInfo, command: string, arguments: seq<Value>, jsonMessage: string,
                             commands: seq<string>, restartJson: string, path: string, transport: Transport, catalog: Catalog)
    requires PrintableArgs(arguments)
    requires Lower(info.status) == "active" && info.arDisabled != "yes" && info.olderThanLegacy
    requires ValidateCommand(command, commands, catalog).None? && agentId != "" && agentId != "000"
    requires !IsNoAr(StrMessage(command, arguments))
    ensures var r := SendArMessage(agentId, info, command, arguments, jsonMessage, commands, restartJson, path, transport, catalog);
            r.Attempted? && r.reply.socketMsg == SocketMsg("NNS", agentId, StrMessage(command, arguments), false) &&
            (r.reply.Sent? ==> r.reply.text == "Command sent.")
  {
    var m := StrMessage(command, arguments);
    assert FlagFor(agentId, m) == ("NNS", agentId);
  }
}
