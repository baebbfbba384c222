/** The stateful provider-to-display converter (historyMessageConvertState in
    desktop/app.go) and the state-only consumer that primes a page with the
    messages before it. */
module HistoryConvert {
  import opened Options
  import opened HistoryTypes

  /** The cross-message state: pending planner displays per user text, and the
      suppression an interrupted planner turn arms. */
  datatype PlannerState = PlannerState(queues: map<string, seq<PlannerDisplayTurn>>, suppress: bool)

  /** Which early return, if any, a message takes. */
  datatype Gate =
    | ReceiptOnly(receipt: string)
    | Unapplied(steer: string)
    | Held
    | SteerNotice(steer: string)
    | Hidden
    | Shown

  function GateOf(rules: TextRules, suppress: bool, m: Message): Gate {
    var text := rules.userText(m);
    if m.decisionReceipt.Some? then
      ReceiptOnly(m.decisionReceipt.value)
    else if m.localOnly && rules.steer(text).Some? then
      Unapplied(rules.steer(text).value)
    else if suppress && (m.role != User || !rules.authored(text)) then
      Held
    else if m.role == User && rules.steer(text).Some? then
      SteerNotice(rules.steer(text).value)
    else if m.role == User && rules.synthetic(rules.displayContent(m)) then
      Hidden
    else
      Shown
  }

  predicate Suppresses(turn: PlannerDisplayTurn) {
    exists row :: row in turn.messages && row.role == "notice" && row.code == CODE_CANCELLED_TURN
  }

  predicate Queued(s: PlannerState, key: string) {
    key in s.queues && s.queues[key] != []
  }

  /** The oldest display queued for key is attached and leaves its queue. */
  function Attach(s: PlannerState, key: string): PlannerState {
    if Queued(s, key) then
      PlannerState(s.queues[key := s.queues[key][1..]], Suppresses(s.queues[key][0]))
    else
      s
  }

  function ConvertState(rules: TextRules, s: PlannerState, m: Message): PlannerState {
    match GateOf(rules, s.suppress, m)
    case ReceiptOnly(_) | Unapplied(_) | Held => s
    case SteerNotice(_) | Hidden => s.(suppress := false)
    case Shown =>
      if m.role == User then Attach(s.(suppress := false), rules.displayKey(rules.userText(m)))
      else s.(suppress := false)
  }

  /** The same step without rendering, as consumeHistoryPlannerState takes it:
      it has no steer test for rows that are not local-only. */
  function ConsumeState(rules: TextRules, s: PlannerState, m: Message): PlannerState {
    match GateOf(rules, s.suppress, m)
    case ReceiptOnly(_) | Unapplied(_) | Held => s
    case _ =>
      if m.role == User && !rules.synthetic(rules.displayContent(m)) then
        Attach(s.(suppress := false), rules.displayKey(rules.userText(m)))
      else
        s.(suppress := false)
  }

  // ------------------------------------------------------------------ rows

  /** Absolute checkpoint turns, replayed todo arguments and tool results a
      conversion looks up. */
  datatype Lookups = Lookups(
    checkpoints: map<int, int>,
    todoArgs: map<string, string>,
    toolResults: map<string, Message>)

  function ResultContent(toolResults: map<string, Message>, id: string): string {
    if id in toolResults then toolResults[id].content else ""
  }

  function CallRow(rules: TextRules, tc: ToolCall, args: string, result: string): RowCall {
    var subject, summary := rules.toolSubject(tc.name, args), rules.toolSummary(tc.name, args, result);
    var call := RowCall(tc.id, tc.name, subject, summary, tc.diff, "", false);
    if tc.name == TODO_WRITE || tc.id == "" then call.(arguments := args)
    else call.(argumentsArchived := args != "")
  }

  function ReplayedArguments(todoArgs: map<string, string>, tc: ToolCall): string {
    if tc.name == TODO_WRITE && tc.id in todoArgs then todoArgs[tc.id] else tc.arguments
  }

  function CallRows(rules: TextRules, calls: seq<ToolCall>, look: Lookups): (rows: seq<RowCall>)
    ensures |rows| == |calls|
  {
    seq(|calls|, k requires 0 <= k < |calls| =>
      CallRow(rules, calls[k], ReplayedArguments(look.todoArgs, calls[k]),
              ResultContent(look.toolResults, calls[k].id)))
  }

  function SubmitText(rules: TextRules, m: Message, content: string): string {
    var replay := rules.replayContent(m.content);
    if m.role != User || content == m.content || replay == content then ""
    else if rules.compiledContract(m.content) && !rules.slashInvocation(replay) then ""
    else replay
  }

  function RoleName(role: Role): string {
    match role
    case System => "system"
    case User => "user"
    case Assistant => "assistant"
    case Tool => "tool"
  }

  /** The main row of a message no gate holds back. */
  function BodyRow(rules: TextRules, index: int, m: Message, look: Lookups): Row {
    var content := if m.role == User then rules.displayContent(m) else m.content;
    var base := BLANK_ROW.(
      role := if m.localOnly then "assistant" else RoleName(m.role),
      content := content,
      reasoning := if m.role == Assistant || m.localOnly then m.reasoning else "",
      submitText := SubmitText(rules, m, content),
      checkpointTurn := if m.role == User && index in look.checkpoints then Some(look.checkpoints[index]) else None,
      workDurationMs := m.workDurationMs,
      citations := if m.role == Assistant then m.citations else [],
      toolCalls := if m.role == Assistant || m.localOnly then CallRows(rules, m.toolCalls, look) else []);
    if m.role == Tool && !m.localOnly then
      var view := rules.toolResultView(m.content, m.toolCallId != "");
      base.(content := view.display, toolResultArchived := view.archived, toolResultError := view.error,
            toolCallId := m.toolCallId, toolName := m.name, execution := m.execution)
    else
      base
  }

  predicate BodyVisible(rules: TextRules, m: Message, row: Row) {
    !m.localOnly || !rules.blank(row.content) || !rules.blank(row.reasoning) || row.toolCalls != []
  }

  function ReceiptRow(receipt: string): Row {
    BLANK_ROW.(role := "notice", code := CODE_DECISION_RECEIPT, level := "info", decisionReceipt := Some(receipt))
  }

  function ReceiptRows(receipts: seq<Option<string>>): seq<Row> {
    if receipts == [] then []
    else
      var last := receipts[|receipts| - 1];
      ReceiptRows(receipts[..|receipts| - 1]) + if last.Some? then [ReceiptRow(last.value)] else []
  }

  const INTERRUPTED_ROW: Row :=
    BLANK_ROW.(role := "notice", level := "info", code := CODE_CANCELLED_TURN, content :=
      "This turn was interrupted. Partial output is kept for reference; only completed tool pairs and a bounded "
      + "recovery summary enter the next model turn. Inspect the workspace before continuing or reverting changes.")

  function ShownRows(rules: TextRules, index: int, m: Message, look: Lookups): seq<Row> {
    var row := BodyRow(rules, index, m, look);
    (if BodyVisible(rules, m, row) then [row] else [])
    + ReceiptRows(m.decisionReceipts)
    + (if m.localOnly && m.interrupted then [INTERRUPTED_ROW] else [])
  }

  function AttachedRows(s: PlannerState, key: string): seq<Row> {
    if Queued(s, key) then s.queues[key][0].messages else []
  }

  function ConvertRows(rules: TextRules, s: PlannerState, index: int, m: Message, look: Lookups): seq<Row> {
    match GateOf(rules, s.suppress, m)
    case ReceiptOnly(receipt) => [ReceiptRow(receipt)]
    case Unapplied(steer) =>
      [BLANK_ROW.(role := "notice", content := rules.unappliedNotice(steer),
                  code := CODE_UNAPPLIED_STEER, level := "warn")]
    case Held | Hidden => []
    case SteerNotice(steer) => [BLANK_ROW.(role := "notice", content := "\U{21AA} " + steer)]
    case Shown =>
      ShownRows(rules, index, m, look)
      + if m.role == User then AttachedRows(s, rules.displayKey(rules.userText(m))) else []
  }

  // -------------------------------------------------------- initial state

  /** The displays recorded for one user text, in recording order. */
  function DisplaysFor(rules: TextRules, turns: seq<PlannerDisplayTurn>, hash: string): seq<PlannerDisplayTurn> {
    if turns == [] then []
    else
      var last := turns[|turns| - 1];
      DisplaysFor(rules, turns[..|turns| - 1], hash)
      + if last.userHash == hash && !rules.blank(hash) && last.messages != [] then [last] else []
  }

  function Hashes(turns: seq<PlannerDisplayTurn>): set<string> {
    set turn | turn in turns :: turn.userHash
  }

  function InitialState(rules: TextRules, turns: seq<PlannerDisplayTurn>): PlannerState {
    var queues :=
      map hash | hash in Hashes(turns) && DisplaysFor(rules, turns, hash) != [] :: DisplaysFor(rules, turns, hash);
    PlannerState(queues, false)
  }

  lemma {:induction false} DisplaysAppend(rules: TextRules, turns: seq<PlannerDisplayTurn>, n: nat, hash: string)
    requires n < |turns|
    ensures DisplaysFor(rules, turns[..n + 1], hash) ==
            DisplaysFor(rules, turns[..n], hash) +
            if turns[n].userHash == hash && !rules.blank(hash) && turns[n].messages != [] then [turns[n]] else []
  {
    assert turns[..n + 1][..n] == turns[..n];
  }

  lemma {:induction false} DisplaysHaveHash(rules: TextRules, turns: seq<PlannerDisplayTurn>, hash: string)
    requires DisplaysFor(rules, turns, hash) != []
    ensures hash in Hashes(turns)
  {
    if turns != [] {
      var last := turns[|turns| - 1];
      if last.userHash == hash {
        assert last in turns;
      } else {
        DisplaysHaveHash(rules, turns[..|turns| - 1], hash);
        var turn :| turn in turns[..|turns| - 1] && turn.userHash == hash;
        assert turn in turns;
      }
    }
  }

  lemma OneDisplay(rules: TextRules, turn: PlannerDisplayTurn)
    requires !rules.blank(turn.userHash) && turn.messages != []
    ensures InitialState(rules, [turn]) == PlannerState(map[turn.userHash := [turn]], false)
  {
    var turns := [turn];
    assert turns[..0] == [];
    forall hash ensures DisplaysFor(rules, turns, hash) == if hash == turn.userHash then [turn] else [] {
      assert DisplaysFor(rules, turns[..0], hash) == [];
    }
    assert Hashes(turns) == {turn.userHash};
    hide DisplaysFor, Hashes;
    assert InitialState(rules, turns).queues == map[turn.userHash := [turn]];
  }

  /** out holds the displays of the first n recordings. */
  ghost predicate QueuesHold(rules: TextRules, turns: seq<PlannerDisplayTurn>, n: nat,
                             out: map<string, seq<PlannerDisplayTurn>>)
    requires n <= |turns|
  {
    && (forall hash :: hash in out <==> DisplaysFor(rules, turns[..n], hash) != [])
    && (forall hash :: hash in out ==> out[hash] == DisplaysFor(rules, turns[..n], hash))
  }

  lemma OneMoreQueued(rules: TextRules, turns: seq<PlannerDisplayTurn>, n: nat,
                      out: map<string, seq<PlannerDisplayTurn>>)
    requires n < |turns| && QueuesHold(rules, turns, n, out)
    ensures
      var turn := turns[n];
      var before := if turn.userHash in out then out[turn.userHash] else [];
      if rules.blank(turn.userHash) || turn.messages == [] then QueuesHold(rules, turns, n + 1, out)
      else QueuesHold(rules, turns, n + 1, out[turn.userHash := before + [turn]])
  {
    forall hash {
      DisplaysAppend(rules, turns, n, hash);
    }
    hide DisplaysFor;
  }

  lemma AllQueued(rules: TextRules, turns: seq<PlannerDisplayTurn>, out: map<string, seq<PlannerDisplayTurn>>)
    requires QueuesHold(rules, turns, |turns|, out)
    ensures out == InitialState(rules, turns).queues
  {
    assert turns[..|turns|] == turns;
    forall hash | DisplaysFor(rules, turns, hash) != [] ensures hash in Hashes(turns) {
      DisplaysHaveHash(rules, turns, hash);
    }
    hide DisplaysFor, Hashes;
  }

  method PlannerTurnsByUserHash(rules: TextRules, turns: seq<PlannerDisplayTurn>)
    returns (out: map<string, seq<PlannerDisplayTurn>>)
    ensures out == InitialState(rules, turns).queues
  {
    out := map[];
    assert QueuesHold(rules, turns, 0, out);
    hide QueuesHold, InitialState;
    for n := 0 to |turns|
      invariant QueuesHold(rules, turns, n, out)
    {
      var turn := turns[n];
      OneMoreQueued(rules, turns, n, out);
      if rules.blank(turn.userHash) || turn.messages == [] {
        continue;
      }
      out := out[turn.userHash := (if turn.userHash in out then out[turn.userHash] else []) + [turn]];
    }
    AllQueued(rules, turns, out);
  }

  // ------------------------------------------------------------ the class

  class HistoryMessageConvertState {
    var plannerByUserHash: map<string, seq<PlannerDisplayTurn>>
    var suppressCanonicalTurn: bool

    function State(): PlannerState
      reads this
    {
      PlannerState(plannerByUserHash, suppressCanonicalTurn)
    }

    constructor (rules: TextRules, turns: seq<PlannerDisplayTurn>)
      ensures State() == InitialState(rules, turns)
    {
      var queues := PlannerTurnsByUserHash(rules, turns);
      plannerByUserHash, suppressCanonicalTurn := queues, false;
    }

    /** historyToolCall. */
    static method HistoryToolCall(rules: TextRules, tc: ToolCall, args: string, result: string) returns (call: RowCall)
      ensures call == CallRow(rules, tc, args, result)
    {
      var subject, summary := rules.toolSubject(tc.name, args), rules.toolSummary(tc.name, args, result);
      call := RowCall(tc.id, tc.name, subject, summary, tc.diff, "", false);
      if tc.name == TODO_WRITE {
        return call.(arguments := args);
      }
      if tc.id == "" {
        return call.(arguments := args);
      }
      if args != "" {
        call := call.(argumentsArchived := true);
      }
    }

    static method ToolCallRows(rules: TextRules, calls: seq<ToolCall>, look: Lookups) returns (rows: seq<RowCall>)
      ensures rows == CallRows(rules, calls, look)
    {
      hide CallRow;
      rows := [];
      for k := 0 to |calls|
        invariant |rows| == k && forall j :: 0 <= j < k ==> rows[j] == CallRows(rules, calls, look)[j]
      {
        var tc := calls[k];
        var args := tc.arguments;
        if tc.name == TODO_WRITE {
          if tc.id in look.todoArgs {
            args := look.todoArgs[tc.id];
          }
        }
        var result := if tc.id in look.toolResults then look.toolResults[tc.id].content else "";
        var call := HistoryToolCall(rules, tc, args, result);
        rows := rows + [call];
      }
    }

    /** The main row of a message no gate holds back. */
    static method MainRow(rules: TextRules, index: int, m: Message, look: Lookups) returns (hm: Row)
      ensures hm == BodyRow(rules, index, m, look)
    {
      hide CallRows;
      var content, checkpointTurn := m.content, None;
      if m.role == User {
        content := rules.displayContent(m);
        if index in look.checkpoints {
          checkpointTurn := Some(look.checkpoints[index]);
        }
      }
      var reasoning := "";
      if m.role == Assistant || m.localOnly {
        reasoning := m.reasoning;
      }
      var displayRole := RoleName(m.role);
      if m.localOnly {
        displayRole := "assistant";
      }
      hm := BLANK_ROW.(role := displayRole, content := content, checkpointTurn := checkpointTurn,
                       reasoning := reasoning, workDurationMs := m.workDurationMs);
      if m.role == Assistant && m.citations != [] {
        hm := hm.(citations := m.citations);
      }
      if m.role == User && content != m.content {
        var replay := rules.replayContent(m.content);
        if rules.compiledContract(m.content) {
          if rules.slashInvocation(replay) && replay != content {
            hm := hm.(submitText := replay);
          }
        } else if replay != content {
          hm := hm.(submitText := replay);
        }
      }
      if (m.role == Assistant || m.localOnly) && m.toolCalls != [] {
        var calls := ToolCallRows(rules, m.toolCalls, look);
        hm := hm.(toolCalls := calls);
      }
      if m.role == Tool && !m.localOnly {
        var view := rules.toolResultView(m.content, m.toolCallId != "");
        hm := hm.(toolCallId := m.toolCallId, toolName := m.name, content := view.display,
                  toolResultArchived := view.archived, toolResultError := view.error, execution := m.execution);
      }
    }

    /** The rows of a message no gate holds back. */
    static method ShowMessage(rules: TextRules, index: int, m: Message, look: Lookups) returns (out: seq<Row>)
      ensures out == ShownRows(rules, index, m, look)
    {
      hide BodyRow;
      out := [];
      var hm := MainRow(rules, index, m, look);
      var visible := !rules.blank(hm.content) || !rules.blank(hm.reasoning) || hm.toolCalls != []
        || (!m.localOnly && m.role == Tool);
      if !m.localOnly || visible {
        out := [hm];
      }
      ghost var head := out;
      for k := 0 to |m.decisionReceipts|
        invariant out == head + ReceiptRows(m.decisionReceipts[..k])
      {
        assert m.decisionReceipts[..k + 1][..k] == m.decisionReceipts[..k];
        if m.decisionReceipts[k].Some? {
          out := out + [ReceiptRow(m.decisionReceipts[k].value)];
        }
      }
      assert m.decisionReceipts[..|m.decisionReceipts|] == m.decisionReceipts;
      if m.localOnly && m.interrupted {
        out := out + [INTERRUPTED_ROW];
      }
    }

    method ConvertHistoryMessage(rules: TextRules, index: int, m: Message, look: Lookups) returns (out: seq<Row>)
      modifies this
      ensures out == ConvertRows(rules, old(State()), index, m, look)
      ensures State() == ConvertState(rules, old(State()), m)
    {
      hide ShownRows;
      out := [];
      if m.decisionReceipt.Some? {
        return [ReceiptRow(m.decisionReceipt.value)];
      }
      if m.localOnly {
        var steer := rules.steer(rules.userText(m));
        if steer.Some? {
          return [BLANK_ROW.(role := "notice", content := rules.unappliedNotice(steer.value),
                             code := CODE_UNAPPLIED_STEER, level := "warn")];
        }
      }
      if suppressCanonicalTurn {
        if m.role != User || !rules.authored(rules.userText(m)) {
          return;
        }
        suppressCanonicalTurn := false;
      }
      if m.role == User {
        var steer := rules.steer(rules.userText(m));
        if steer.Some? {
          return [BLANK_ROW.(role := "notice", content := "\U{21AA} " + steer.value)];
        }
        if rules.synthetic(rules.displayContent(m)) {
          return;
        }
      }
      out := ShowMessage(rules, index, m, look);
      if m.role == User {
        var key := rules.displayKey(rules.userText(m));
        if key in plannerByUserHash && plannerByUserHash[key] != [] {
          var turns := plannerByUserHash[key];
          out := out + turns[0].messages;
          suppressCanonicalTurn := Suppresses(turns[0]);
          plannerByUserHash := plannerByUserHash[key := turns[1..]];
        }
      }
    }

    method ConsumeHistoryPlannerState(rules: TextRules, m: Message)
      modifies this
      ensures State() == ConsumeState(rules, old(State()), m)
    {
      if m.decisionReceipt.Some? {
        return;
      }
      if m.localOnly && rules.steer(rules.userText(m)).Some? {
        return;
      }
      if suppressCanonicalTurn {
        if m.role != User || !rules.authored(rules.userText(m)) {
          return;
        }
        suppressCanonicalTurn := false;
      }
      if m.role != User {
        return;
      }
      if rules.synthetic(rules.displayContent(m)) {
        return;
      }
      var key := rules.displayKey(rules.userText(m));
      if key in plannerByUserHash && plannerByUserHash[key] != [] {
        var turns := plannerByUserHash[key];
        suppressCanonicalTurn := Suppresses(turns[0]);
        plannerByUserHash := plannerByUserHash[key := turns[1..]];
      }
    }
  }

  // --------------------------------------------- folding over a message log

  /** State before message hi when messages lo..hi are rendered from s. */
  function Converted(rules: TextRules, msgs: seq<Message>, s: PlannerState, lo: nat, hi: nat): PlannerState
    requires lo <= hi <= |msgs|
    decreases hi
  {
    if hi == lo then s else ConvertState(rules, Converted(rules, msgs, s, lo, hi - 1), msgs[hi - 1])
  }

  /** State before message hi when messages 0..hi are only consumed. */
  function Consumed(rules: TextRules, msgs: seq<Message>, s: PlannerState, hi: nat): PlannerState
    requires hi <= |msgs|
    decreases hi
  {
    if hi == 0 then s else ConsumeState(rules, Consumed(rules, msgs, s, hi - 1), msgs[hi - 1])
  }

  /** The one branch on which the two steps part: a steer row, not local-only
      and not shown as synthetic, whose text still has a planner display queued. */
  predicate Divergent(rules: TextRules, s: PlannerState, m: Message) {
    && GateOf(rules, s.suppress, m).SteerNotice?
    && !rules.synthetic(rules.displayContent(m))
    && Queued(s, rules.displayKey(rules.userText(m)))
  }

  predicate NoSteerDivergence(rules: TextRules, msgs: seq<Message>, s: PlannerState, end: nat)
    requires end <= |msgs|
  {
    forall i :: 0 <= i < end ==> !Divergent(rules, Converted(rules, msgs, s, 0, i), msgs[i])
  }

  predicate PrimingExact(rules: TextRules, msgs: seq<Message>, s: PlannerState, end: nat)
    requires end <= |msgs|
  {
    forall k :: 0 <= k <= end ==> Consumed(rules, msgs, s, k) == Converted(rules, msgs, s, 0, k)
  }

  lemma StepsAgreeIff(rules: TextRules, s: PlannerState, m: Message)
    ensures ConsumeState(rules, s, m) == ConvertState(rules, s, m) <==> !Divergent(rules, s, m)
  {
    if Divergent(rules, s, m) {
      var key := rules.displayKey(rules.userText(m));
      assert |ConsumeState(rules, s, m).queues[key]| == |s.queues[key]| - 1;
      assert ConvertState(rules, s, m).queues[key] == s.queues[key];
    }
  }

  /** Priming leaves the state of a full conversion at every prefix exactly
      when no prefix message diverges. */
  lemma {:induction false} PrimingAgreesIff(rules: TextRules, msgs: seq<Message>, s: PlannerState, end: nat)
    requires end <= |msgs|
    ensures PrimingExact(rules, msgs, s, end) <==> NoSteerDivergence(rules, msgs, s, end)
  {
    hide ConvertState, ConsumeState, Divergent;
    if end > 0 {
      PrimingAgreesIff(rules, msgs, s, end - 1);
      StepsAgreeIff(rules, Converted(rules, msgs, s, 0, end - 1), msgs[end - 1]);
      if PrimingExact(rules, msgs, s, end) {
        assert PrimingExact(rules, msgs, s, end - 1);
        assert Consumed(rules, msgs, s, end) == Converted(rules, msgs, s, 0, end);
      }
      if NoSteerDivergence(rules, msgs, s, end) {
        assert NoSteerDivergence(rules, msgs, s, end - 1);
        assert !Divergent(rules, Converted(rules, msgs, s, 0, end - 1), msgs[end - 1]);
      }
    }
  }

  /** Conversion from the middle continues conversion from the start. */
  lemma {:induction false} ConvertedSplit(rules: TextRules, msgs: seq<Message>, s: PlannerState, mid: nat, hi: nat)
    requires mid <= hi <= |msgs|
    ensures Converted(rules, msgs, Converted(rules, msgs, s, 0, mid), mid, hi) == Converted(rules, msgs, s, 0, hi)
    decreases hi
  {
    if hi > mid {
      ConvertedSplit(rules, msgs, s, mid, hi - 1);
    }
  }

  /** With no planner turns the state never leaves its initial value, so the
      early return of primeHistoryPlannerState skips nothing. */
  lemma {:induction false} NoPlannerTurnsNoState(rules: TextRules, msgs: seq<Message>, s: PlannerState, end: nat)
    requires end <= |msgs|
    requires s.queues == map[] && !s.suppress
    ensures Consumed(rules, msgs, s, end) == s && Converted(rules, msgs, s, 0, end) == s
  {
    if end > 0 {
      NoPlannerTurnsNoState(rules, msgs, s, end - 1);
    }
  }

  /** Rendered user rows among the first end messages whose text has this key. */
  function Occurrences(rules: TextRules, msgs: seq<Message>, s: PlannerState, end: nat, key: string): nat
    requires end <= |msgs|
  {
    if end == 0 then 0
    else
      var m := msgs[end - 1];
      Occurrences(rules, msgs, s, end - 1, key)
      + if GateOf(rules, Converted(rules, msgs, s, 0, end - 1).suppress, m).Shown? && m.role == User
           && rules.displayKey(rules.userText(m)) == key then 1 else 0
  }

  /** Planner displays are first-in first-out per repeated user text: after n
      rendered rows with that text the queue lost exactly its n oldest entries. */
  lemma {:induction false} DisplaysAreFifo(rules: TextRules, msgs: seq<Message>, s: PlannerState, end: nat, key: string)
    requires end <= |msgs| && key in s.queues
    ensures
      var n := Occurrences(rules, msgs, s, end, key);
      var now := Converted(rules, msgs, s, 0, end).queues;
      key in now && now[key] == if n <= |s.queues[key]| then s.queues[key][n..] else []
  {
    if end > 0 {
      DisplaysAreFifo(rules, msgs, s, end - 1, key);
    }
  }
}
