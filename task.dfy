/**
 * `get_task_status`: the task rows the task database returns, with each
 * row's agent id rewritten as a string zero-padded to three characters.
 */
module Task {
  import opened Wrappers
  import opened Text
  import opened Values
  import opened Results

  const TaskMessages := Messages("All specified task's status were returned",
                                 "Some status were not returned",
                                 "No status was returned")

  const AgentIdField := "agent_id"

  /** `str(v)` is defined on the row's agent id (a scalar, as the database stores it). */
  predicate PaddableRow(row: Row)
  {
    AgentIdField in row ==> PyStr(row[AgentIdField]).Some?
  }

  /**
   * `element['agent_id'] = str(element['agent_id']).zfill(3)`; a row without
   * the key (KeyError) is left as it is.
   */
  function PadRow(row: Row): (r: Row)
    requires PaddableRow(row)
    ensures r.Keys == row.Keys
    ensures forall k :: k in row && k != AgentIdField ==> r[k] == row[k]
    ensures AgentIdField in row ==> r[AgentIdField].VStr? && |r[AgentIdField].s| >= 3
    ensures AgentIdField !in row ==> r == row
  {
    if AgentIdField in row then
      var s := PyStr(row[AgentIdField]).value;
      ZFillProperties(s, 3);
      row[AgentIdField := VStr(ZFill(s, 3))]
    else row
  }

  /** The padded agent id of a numeric id still reads as the same number. */
  lemma PadRowKeepsNumber(row: Row, n: int)
    requires AgentIdField in row && row[AgentIdField] == VInt(n)
    ensures PadRow(row)[AgentIdField].VStr? && ParseInt(PadRow(row)[AgentIdField].s) == Some(n)
  {
    DecimalRoundTrip(n);
    ZFillProperties(Decimal(n), 3);
  }

  /** An id that already has three or more characters is kept as it is. */
  lemma PadRowKeepsLongIds(row: Row)
    requires AgentIdField in row && row[AgentIdField].VStr? && |row[AgentIdField].s| >= 3
    ensures PadRow(row) == row
  {
  }

  /** Padding twice pads once. */
  lemma PadRowIdempotent(row: Row)
    requires PaddableRow(row)
    ensures PaddableRow(PadRow(row)) && PadRow(PadRow(row)) == PadRow(row)
  {
    if AgentIdField in row {
      PadRowKeepsLongIds(PadRow(row));
    }
  }

  /** The task id `1` of agent `1` becomes agent `"001"`. */
  lemma PadRowExample()
    ensures PadRow(map["task_id" := VInt(1), "agent_id" := VInt(1)]) == map["task_id" := VInt(1), "agent_id" := VStr("001")]
  {
    var row := map["task_id" := VInt(1), "agent_id" := VInt(1)];
    assert PyStr(row[AgentIdField]) == Some("1") by {
      assert Digits(1) == [DigitChar(1)] == "1";
    }
    assert ZFill("1", 3) == "001" by {
      assert Zeros(2) == "00";
    }
    assert PadRow(row) == row[AgentIdField := VStr("001")];
  }

  /** The rows as result items. */
  function Items(rows: seq<Row>): (r: seq<Value>)
    ensures |r| == |rows| && forall i :: 0 <= i < |rows| ==> r[i] == VMap(rows[i])
  {
    seq(|rows|, i requires 0 <= i < |rows| => VMap(rows[i]))
  }

  /**
   * `get_task_status(...)`: `rows` and `totalItems` are what the task query
   * returns. Each row is padded in place, then all rows are appended in
   * order and the total is the query's total.
   */
  method GetTaskStatus(rows: seq<Row>, totalItems: int) returns (result: AffectedItemsResult)
    requires forall i :: 0 <= i < |rows| ==> PaddableRow(rows[i])
    ensures fresh(result) && result.Valid()
    ensures |result.affectedItems| == |rows|
    ensures forall i :: 0 <= i < |rows| ==> result.affectedItems[i] == VMap(PadRow(rows[i]))
    ensures result.totalAffectedItems == totalItems
    ensures result.failedItems == map[]
    ensures result.messages == TaskMessages
  {
    result := new AffectedItemsResult(TaskMessages, [], [], []);
    var data := rows;
    for i := 0 to |data|
      invariant |data| == |rows|
      invariant forall j :: 0 <= j < i ==> data[j] == PadRow(rows[j])
      invariant forall j :: i <= j < |rows| ==> data[j] == rows[j]
    {
      var element := data[i];
      if AgentIdField in element {
        element := element[AgentIdField := VStr(ZFill(PyStr(element[AgentIdField]).value, 3))];
      }
      data := data[i := element];
    }
    result.affectedItems := result.affectedItems + Items(data);
    result.totalAffectedItems := totalItems;
  }
}
