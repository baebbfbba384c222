/** What a converted message shows, field by field (convertHistoryMessage,
    historyToolCall and plannerDisplaySuppressesCanonical in desktop/app.go). */
module HistoryRows {
  import opened Options
  import opened HistoryTypes
  import opened HistoryConvert

  /** A tool call keeps its id, name and diff. Only a todo list is replayed, and only it,
      or a call without id, carries its arguments; any other says whether it has some. */
  predicate ShowsCall(rules: TextRules, tc: ToolCall, look: Lookups, call: RowCall) {
    var replayed := tc.name == "todo_write" && tc.id in look.todoArgs;
    var args := if replayed then look.todoArgs[tc.id] else tc.arguments;
    var result := if tc.id in look.toolResults then look.toolResults[tc.id].content else "";
    && call.id == tc.id && call.name == tc.name && call.diff == tc.diff
    && call.subject == rules.toolSubject(tc.name, args) && call.summary == rules.toolSummary(tc.name, args, result)
    && (tc.name == "todo_write" || tc.id == "" ==> call.arguments == args && !call.argumentsArchived)
    && (tc.name != "todo_write" && tc.id != "" ==>
          call.arguments == "" && (call.argumentsArchived <==> tc.arguments != ""))
  }

  /** Partial output kept locally is shown as the assistant's. */
  predicate ShowsRole(m: Message, role: string) {
    && (m.localOnly || m.role == Assistant ==> role == "assistant")
    && (!m.localOnly && m.role == User ==> role == "user")
    && (!m.localOnly && m.role == Tool ==> role == "tool")
    && (!m.localOnly && m.role == System ==> role == "system")
  }

  function ShownText(rules: TextRules, m: Message): string {
    if m.role == User then rules.displayContent(m) else m.content
  }

  /** The text to submit again: what was typed, where that is not what is shown, except
      that of a compiled contract only a slash invocation is given. */
  predicate ShowsSubmitText(rules: TextRules, m: Message, submitText: string) {
    var shown, typed := rules.displayContent(m), rules.replayContent(m.content);
    var differs := shown != m.content && shown != typed;
    var secret := rules.compiledContract(m.content) && !rules.slashInvocation(typed);
    && (m.role == User && differs && !secret ==> submitText == typed)
    && (m.role != User || !differs || secret ==> submitText == "")
  }

  predicate ShowsCalls(rules: TextRules, m: Message, look: Lookups, calls: seq<RowCall>) {
    && (m.role == Assistant || m.localOnly ==>
          |calls| == |m.toolCalls| && forall k :: 0 <= k < |calls| ==> ShowsCall(rules, m.toolCalls[k], look, calls[k]))
    && (m.role != Assistant && !m.localOnly ==> calls == [])
  }

  /** The result of a tool shows what the view of it says, and which call it answers. */
  predicate ShowsResult(rules: TextRules, m: Message, row: Row) {
    var view := rules.toolResultView(m.content, m.toolCallId != "");
    && row.content == view.display && row.toolResultArchived == view.archived && row.toolResultError == view.error
    && row.toolCallId == m.toolCallId && row.toolName == m.name && row.execution == m.execution
  }

  predicate NoResult(row: Row) {
    && row.toolCallId == "" && row.toolName == "" && row.execution.None?
    && !row.toolResultArchived && row.toolResultError == ""
  }

  /** The main row of a message, every field of it. */
  predicate ShowsMessage(rules: TextRules, index: int, m: Message, look: Lookups, row: Row) {
    && ShowsRole(m, row.role) && row.code == "" && row.level == "" && row.decisionReceipt.None?
    && (m.role == Tool && !m.localOnly ==> ShowsResult(rules, m, row))
    && (m.role != Tool || m.localOnly ==> row.content == ShownText(rules, m) && NoResult(row))
    && row.reasoning == (if m.role == Assistant || m.localOnly then m.reasoning else "")
    && row.citations == (if m.role == Assistant then m.citations else [])
    && row.workDurationMs == m.workDurationMs
    && (m.role == User && index in look.checkpoints ==> row.checkpointTurn == Some(look.checkpoints[index]))
    && (m.role != User || index !in look.checkpoints ==> row.checkpointTurn.None?)
    && ShowsSubmitText(rules, m, row.submitText)
    && ShowsCalls(rules, m, look, row.toolCalls)
  }

  /** The fields leave nothing open. */
  lemma ShowsOneRow(rules: TextRules, index: int, m: Message, look: Lookups, a: Row, b: Row)
    requires ShowsMessage(rules, index, m, look, a) && ShowsMessage(rules, index, m, look, b)
    ensures a == b
  {
    forall k | 0 <= k < |a.toolCalls| ensures a.toolCalls[k] == b.toolCalls[k] {
      assert ShowsCall(rules, m.toolCalls[k], look, a.toolCalls[k]);
      assert ShowsCall(rules, m.toolCalls[k], look, b.toolCalls[k]);
    }
    assert a.toolCalls == b.toolCalls;
  }

  predicate IsReceipt(row: Row, receipt: string) {
    row == BLANK_ROW.(role := "notice", code := "decision_receipt", level := "info", decisionReceipt := Some(receipt))
  }

  predicate IsInterruption(row: Row) {
    && row.role == "notice" && row.code == "cancelled_turn_display" && row.level == "info" && row.content != ""
    && row == BLANK_ROW.(role := row.role, code := row.code, level := row.level, content := row.content)
  }

  /** How many of the first n receipts are there at all. */
  function PresentBefore(receipts: seq<Option<string>>, n: nat): nat
    requires n <= |receipts|
  {
    if n == 0 then 0 else PresentBefore(receipts, n - 1) + if receipts[n - 1].Some? then 1 else 0
  }

  /** The oldest display still recorded for a user's text. */
  function NextDisplay(rules: TextRules, s: PlannerState, m: Message): seq<Row> {
    var key := rules.displayKey(rules.userText(m));
    if m.role == User && key in s.queues && s.queues[key] != [] then s.queues[key][0].messages else []
  }

  /** Nothing is shown of local output that is empty. */
  predicate HasMainRow(rules: TextRules, m: Message) {
    !m.localOnly || !rules.blank(ShownText(rules, m)) || !rules.blank(m.reasoning) || m.toolCalls != []
  }

  /** The main row, then the receipts that are there in order, the interruption, and the
      rows of the next display. */
  predicate ShowsInOrder(rules: TextRules, s: PlannerState, index: int, m: Message, look: Lookups, rows: seq<Row>) {
    var receipts, display := m.decisionReceipts, NextDisplay(rules, s, m);
    var lead := if HasMainRow(rules, m) then 1 else 0;
    var cut := lead + PresentBefore(receipts, |receipts|);
    var tail := cut + if m.localOnly && m.interrupted then 1 else 0;
    && |rows| == tail + |display|
    && (lead == 1 ==> ShowsMessage(rules, index, m, look, rows[0]))
    && (forall i :: 0 <= i < |receipts| && receipts[i].Some? ==>
          && lead + PresentBefore(receipts, i) < cut
          && IsReceipt(rows[lead + PresentBefore(receipts, i)], receipts[i].value))
    && (tail > cut ==> IsInterruption(rows[cut]))
    && rows[tail..] == display
  }

  predicate IsSteerRow(rules: TextRules, m: Message) {
    rules.steer(rules.userText(m)).Some?
  }

  /** A planner's cancelled turn is behind and no authored user row has come since. */
  predicate StaysHidden(rules: TextRules, s: PlannerState, m: Message) {
    s.suppress && !(m.role == User && rules.authored(rules.userText(m)))
  }

  /** What a message shows, by the first of the tests it meets. */
  lemma ShowsWhat(rules: TextRules, s: PlannerState, index: int, m: Message, look: Lookups)
    ensures
      var rows := ConvertRows(rules, s, index, m, look);
      if m.decisionReceipt.Some? then
        |rows| == 1 && IsReceipt(rows[0], m.decisionReceipt.value)
      else if m.localOnly && IsSteerRow(rules, m) then
        var content := rules.unappliedNotice(rules.steer(rules.userText(m)).value);
        rows == [BLANK_ROW.(role := "notice", content := content, code := "unapplied_steer", level := "warn")]
      else if StaysHidden(rules, s, m) then
        rows == []
      else if m.role == User && IsSteerRow(rules, m) then
        rows == [BLANK_ROW.(role := "notice", content := "\U{21AA} " + rules.steer(rules.userText(m)).value)]
      else if m.role == User && rules.synthetic(rules.displayContent(m)) then
        rows == []
      else
        ShowsInOrder(rules, s, index, m, look, rows)
  {
    hide BodyRow, ShownRows, PresentBefore, ShowsInOrder, AttachedRows;
    if GateOf(rules, s.suppress, m).Shown? {
      ShowsShown(rules, s, index, m, look);
    }
  }

  lemma ShowsShown(rules: TextRules, s: PlannerState, index: int, m: Message, look: Lookups)
    requires GateOf(rules, s.suppress, m).Shown?
    ensures ShowsInOrder(rules, s, index, m, look, ConvertRows(rules, s, index, m, look))
  {
    var main, receipts := BodyRow(rules, index, m, look), ReceiptRows(m.decisionReceipts);
    ShowsMain(rules, index, m, look);
    ShowsReceipts(m.decisionReceipts, |m.decisionReceipts|);
    assert m.decisionReceipts[..|m.decisionReceipts|] == m.decisionReceipts;
    hide *;
    PiecesInOrder(rules, s, index, m, look, main, receipts);
    RowsInPieces(rules, s, index, m, look);
  }

  lemma RowsInPieces(rules: TextRules, s: PlannerState, index: int, m: Message, look: Lookups)
    requires GateOf(rules, s.suppress, m).Shown?
    ensures ConvertRows(rules, s, index, m, look) ==
              (if BodyVisible(rules, m, BodyRow(rules, index, m, look)) then [BodyRow(rules, index, m, look)] else [])
              + ReceiptRows(m.decisionReceipts)
              + (if m.localOnly && m.interrupted then [INTERRUPTED_ROW] else []) + NextDisplay(rules, s, m)
  {
    hide BodyRow, BodyVisible, ReceiptRows;
  }

  lemma PiecesInOrder(rules: TextRules, s: PlannerState, index: int, m: Message, look: Lookups, main: Row,
                      receipts: seq<Row>)
    requires HasMainRow(rules, m) ==> ShowsMessage(rules, index, m, look, main)
    requires |receipts| == PresentBefore(m.decisionReceipts, |m.decisionReceipts|)
    requires forall i :: 0 <= i < |m.decisionReceipts| && m.decisionReceipts[i].Some? ==>
               && PresentBefore(m.decisionReceipts, i) < |receipts|
               && IsReceipt(receipts[PresentBefore(m.decisionReceipts, i)], m.decisionReceipts[i].value)
    ensures ShowsInOrder(rules, s, index, m, look,
              (if HasMainRow(rules, m) then [main] else []) + receipts
              + (if m.localOnly && m.interrupted then [INTERRUPTED_ROW] else []) + NextDisplay(rules, s, m))
  {
    hide ShowsMessage, HasMainRow, PresentBefore, IsReceipt, NextDisplay;
    var lead := if HasMainRow(rules, m) then [main] else [];
    var last := if m.localOnly && m.interrupted then [INTERRUPTED_ROW] else [];
    var rows := lead + receipts + last + NextDisplay(rules, s, m);
    assert rows[|lead + receipts + last|..] == NextDisplay(rules, s, m);
    forall i | 0 <= i < |m.decisionReceipts| && m.decisionReceipts[i].Some?
      ensures rows[|lead| + PresentBefore(m.decisionReceipts, i)] == receipts[PresentBefore(m.decisionReceipts, i)]
    {
    }
    assert last != [] ==> rows[|lead + receipts|] == last[0];
  }

  lemma ShowsMain(rules: TextRules, index: int, m: Message, look: Lookups)
    ensures ShowsMessage(rules, index, m, look, BodyRow(rules, index, m, look))
    ensures BodyVisible(rules, m, BodyRow(rules, index, m, look)) <==> HasMainRow(rules, m)
  {
  }

  lemma {:induction false} ShowsReceipts(receipts: seq<Option<string>>, n: nat)
    requires n <= |receipts|
    ensures |ReceiptRows(receipts[..n])| == PresentBefore(receipts, n)
    ensures forall i :: 0 <= i < n && receipts[i].Some? ==>
              && PresentBefore(receipts, i) < PresentBefore(receipts, n)
              && IsReceipt(ReceiptRows(receipts[..n])[PresentBefore(receipts, i)], receipts[i].value)
  {
    if n > 0 {
      ShowsReceipts(receipts, n - 1);
      assert receipts[..n][..n - 1] == receipts[..n - 1];
    }
  }

  predicate HasCancelledTurn(rows: seq<Row>) {
    exists row :: row in rows && row.role == "notice" && row.code == "cancelled_turn_display"
  }

  /** A display that holds a cancelled turn hides what follows up to the next authored
      user row; a display once shown is gone from its queue, and only from that. */
  lemma HidesAfterCancelledTurn(rules: TextRules, s: PlannerState, m: Message)
    requires m.decisionReceipt.None? && !(m.localOnly && IsSteerRow(rules, m)) && !StaysHidden(rules, s, m)
    ensures
      var t, key := ConvertState(rules, s, m), rules.displayKey(rules.userText(m));
      var shows := m.role == User && !IsSteerRow(rules, m) && !rules.synthetic(rules.displayContent(m));
      && (t.suppress <==> shows && HasCancelledTurn(NextDisplay(rules, s, m)))
      && (shows && key in s.queues && s.queues[key] != [] ==> t.queues == s.queues[key := s.queues[key][1..]])
      && (!(shows && key in s.queues && s.queues[key] != []) ==> t.queues == s.queues)
  {
  }

  /** A message that shows a receipt or an unapplied steer, or stays hidden, leaves the
      state alone. */
  lemma LeavesStateAlone(rules: TextRules, s: PlannerState, m: Message)
    requires m.decisionReceipt.Some? || (m.localOnly && IsSteerRow(rules, m)) || StaysHidden(rules, s, m)
    ensures ConvertState(rules, s, m) == s
  {
  }
}
