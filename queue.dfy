/**
 * Message framing and the refusal and failure rules of the two queues the
 * framework writes to: the agent queue (`SecuricsQueue`) and the analysisd
 * queue (`SecuricsAnalysisdQueue`). The datagram socket is a `Transport`.
 */
module Queue {
  import opened Wrappers
  import opened Text
  import opened Exceptions

  const Prefix := "(msg_to_agent) [] "
  const RestartSuffix := " - null (from_the_server) (no_rule_id)"

  const SyscheckRestart := "syscheck restart"
  const ForceReconnect := "force_reconnect"
  const RestartAgents := "restart-ossec0"
  const ArType := "ar-message"

  /** `SecuricsAnalysisdQueue.MAX_MSG_SIZE`, in bytes. */
  const AnalysisdMaxSize := 65535
  const TooLarge := "The event is too large to be sent to analysisd (maximum is 65535B)"

  /**
   * The socket: `None` when the datagram goes out, `Some(text)` when sending
   * it raises, with the text of that exception.
   */
  type Transport = string -> Option<string>

  /** What a `send_*` call does: sends and returns a text, refuses, or fails while sending. */
  datatype Reply =
    | Sent(socketMsg: string, text: string)
    | Refused(error: ErrorRecord)
    | SendFailed(socketMsg: string, error: ErrorRecord)

  /** `create_securics_queue_socket_msg(flag, str_agent_id, msg, is_restart)` */
  function SocketMsg(flag: string, agentId: string, msg: string, isRestart: bool): string
  {
    Prefix + flag + " " + agentId + " " + msg + (if isRestart then RestartSuffix else "")
  }

  /** The text before the first space and the text after it. */
  function SplitAtSpace(t: string): Option<(string, string)>
  {
    if ' ' !in t then None
    else
      var i := IndexOf(t, ' ');
      Some((t[..i], t[i + 1..]))
  }

  lemma SplitAtSpaceJoin(a: string, rest: string)
    requires ' ' !in a
    ensures SplitAtSpace(a + " " + rest) == Some((a, rest))
  {
    var t := a + " " + rest;
    assert t == a + (" " + rest);
    IndexOfAfterFree(a, " " + rest, ' ');
    assert t[..|a|] == a;
    assert t[|a| + 1..] == rest;
  }

  /** How the receiving side splits a queue message: flag, agent and the rest. */
  function ParseSocketMsg(s: string): Option<(string, string, string)>
  {
    if |s| < |Prefix| || s[..|Prefix|] != Prefix then None
    else match SplitAtSpace(s[|Prefix|..])
      case None => None
      case Some((flag, u)) =>
        match SplitAtSpace(u)
        case None => None
        case Some((agentId, rest)) => Some((flag, agentId, rest))
  }

  /** A framed message gives back its flag, its agent and its payload. */
  lemma SocketMsgRoundTrip(flag: string, agentId: string, msg: string, isRestart: bool)
    requires ' ' !in flag && ' ' !in agentId
    ensures ParseSocketMsg(SocketMsg(flag, agentId, msg, isRestart)) ==
            Some((flag, agentId, msg + if isRestart then RestartSuffix else ""))
  {
    var tail := msg + if isRestart then RestartSuffix else "";
    var u := agentId + " " + tail;
    var t := flag + " " + u;
    var s := SocketMsg(flag, agentId, msg, isRestart);
    assert s == Prefix + t;
    assert s[..|Prefix|] == Prefix;
    assert s[|Prefix|..] == t;
    SplitAtSpaceJoin(flag, u);
    SplitAtSpaceJoin(agentId, tail);
  }

  /** The two commands that are not active responses. */
  predicate IsNoAr(msg: string)
  {
    msg == SyscheckRestart || msg == ForceReconnect
  }

  /** The restart command, in its legacy and its JSON form. */
  predicate IsRestart(msg: string, restartJson: string)
  {
    msg == RestartAgents || msg == restartJson
  }

  /**
   * The flag and the agent field: 'N' for one agent and 'A' for all of them
   * (the field then reads '(null)'); '!' for the two commands that are not
   * active responses.
   */
  function FlagFor(agentId: string, msg: string): (r: (string, string))
    ensures |r.0| == 3 && r.0[2] == (if agentId != "" then 'S' else 'N')
    ensures r.0[0] == 'N' <==> agentId != ""
    ensures r.0[0] == 'A' <==> agentId == ""
    ensures r.0[1] == '!' <==> IsNoAr(msg)
    ensures r.0[1] == 'N' <==> !IsNoAr(msg)
    ensures r.1 == if agentId != "" then agentId else "(null)"
  {
    if agentId != "" then ((if !IsNoAr(msg) then "NNS" else "N!S"), agentId)
    else ((if !IsNoAr(msg) then "ANN" else "A!N"), "(null)")
  }

  /** The confirmation text of a command that is not an active response. */
  function ReplyText(msg: string, agentId: string): (r: string)
    ensures (|r| >= 10 && r[|r| - 10..] == "all agents") <==> agentId == ""
  {
    if msg == SyscheckRestart then
      (if agentId != "" then "Restarting Syscheck on agent" else "Restarting Syscheck on all agents")
    else if msg == ForceReconnect then
      (if agentId != "" then "Reconnecting agent" else "Reconnecting all agents")
    else
      (if agentId != "" then "Restarting agent" else "Restarting all agents")
  }

  /** The send step shared by both branches of `send_msg_to_agent`. */
  function Deliver(socketMsg: string, text: string, path: string, transport: Transport, catalog: Catalog): (r: Reply)
  {
    if transport(socketMsg).None? then Sent(socketMsg, text)
    else SendFailed(socketMsg, WithText(Error, 1014, ": SecuricsQueue socket with path " + path, catalog))
  }

  /**
   * `SecuricsQueue.send_msg_to_agent(msg, agent_id, msg_type)`. `restartJson`
   * is `RESTART_AGENTS_JSON`, whose text depends on the calling module.
   */
  function SendMsgToAgent(msg: string, agentId: string, msgType: string, restartJson: string,
                          path: string, transport: Transport, catalog: Catalog): (r: Reply)
    ensures r.Refused? <==> msgType != ArType && !IsNoAr(msg) && !IsRestart(msg, restartJson)
    ensures r.Refused? ==> r.error == WithText(InternalError, 1012, msg, catalog)
    ensures !r.Refused? ==> (r.Sent? <==> transport(r.socketMsg).None?)
    ensures r.SendFailed? ==> r.error.kind == Error && r.error.code == 1014
    ensures msgType == ArType && agentId == "000" ==> !r.Refused? && r.socketMsg == msg
    ensures msgType == ArType && agentId != "000" ==>
              !r.Refused? && r.socketMsg == SocketMsg(FlagFor(agentId, msg).0, FlagFor(agentId, msg).1, msg, false)
    ensures msgType != ArType && !r.Refused? ==>
              r.socketMsg == SocketMsg(FlagFor(agentId, msg).0, FlagFor(agentId, msg).1, msg, IsRestart(msg, restartJson))
    ensures r.Sent? ==> r.text == if msgType == ArType then "Command sent." else ReplyText(msg, agentId)
  {
    var (flag, strAgentId) := FlagFor(agentId, msg);
    if msgType == ArType then
      var socketMsg := if agentId != "000" then SocketMsg(flag, strAgentId, msg, false) else msg;
      Deliver(socketMsg, "Command sent.", path, transport, catalog)
    else if !IsNoAr(msg) && !IsRestart(msg, restartJson) then
      Refused(WithText(InternalError, 1012, msg, catalog))
    else
      Deliver(SocketMsg(flag, strAgentId, msg, IsRestart(msg, restartJson)), ReplyText(msg, agentId), path, transport, catalog)
  }

  /**
   * An active response for one agent other than the manager reaches it with
   * flag 'NNS', its own id and the command untouched.
   */
  lemma ArToAgentFraming(msg: string, agentId: string, restartJson: string, path: string,
                         transport: Transport, catalog: Catalog)
    requires agentId != "" && agentId != "000" && ' ' !in agentId && !IsNoAr(msg)
    ensures var r := SendMsgToAgent(msg, agentId, ArType, restartJson, path, transport, catalog);
            !r.Refused? && ParseSocketMsg(r.socketMsg) == Some(("NNS", agentId, msg))
  {
    SocketMsgRoundTrip("NNS", agentId, msg, false);
    assert msg + "" == msg;
  }

  /** A restart broadcast goes to every agent with flag 'ANN' and the restart suffix. */
  lemma RestartAllFraming(restartJson: string, path: string, transport: Transport, catalog: Catalog)
    ensures var r := SendMsgToAgent(RestartAgents, "", "", restartJson, path, transport, catalog);
            !r.Refused? && ParseSocketMsg(r.socketMsg) == Some(("ANN", "(null)", RestartAgents + RestartSuffix)) &&
            (r.Sent? ==> r.text == "Restarting all agents")
  {
    SocketMsgRoundTrip("ANN", "(null)", RestartAgents, true);
  }

  /**
   * `SecuricsAnalysisdQueue.send_msg(msg_header, msg)`: one datagram,
   * header and message, unless its UTF-8 encoding is over the limit.
   */
  function AnalysisdSend(header: string, msg: string, path: string, transport: Transport, catalog: Catalog): (r: Reply)
    ensures r.Refused? <==> Utf8Length(header + msg) > AnalysisdMaxSize
    ensures r.Refused? ==> r.error == WithText(Error, 1012, TooLarge, catalog)
    ensures !r.Refused? ==> r.socketMsg == header + msg && (r.Sent? <==> transport(header + msg).None?)
    ensures r.SendFailed? ==> r.error.kind == Error && r.error.code == 1014
    ensures r.Sent? ==> r.text == ""
  {
    var socketMsg := header + msg;
    if Utf8Length(socketMsg) > AnalysisdMaxSize then Refused(WithText(Error, 1012, TooLarge, catalog))
    else match transport(socketMsg)
      case None => Sent(socketMsg, "")
      case Some(text) =>
        SendFailed(socketMsg, WithText(Error, 1014, ": SecuricsAnalysisdQueue socket with path " + path + ". " + text, catalog))
  }

  /** For ASCII text the limit is on characters: 65535 pass, 65536 do not. */
  lemma AnalysisdAsciiLimit(header: string, msg: string, path: string, transport: Transport, catalog: Catalog)
    requires forall i :: 0 <= i < |header| ==> header[i] as int < 0x80
    requires forall i :: 0 <= i < |msg| ==> msg[i] as int < 0x80
    ensures AnalysisdSend(header, msg, path, transport, catalog).Refused? <==> |header| + |msg| > 65535
  {
    var s := header + msg;
    assert forall i :: 0 <= i < |s| ==> s[i] as int < 0x80 by {
      forall i | 0 <= i < |s|
        ensures s[i] as int < 0x80
      {
        if i < |header| { assert s[i] == header[i]; } else { assert s[i] == msg[i - |header|]; }
      }
    }
  }
}
