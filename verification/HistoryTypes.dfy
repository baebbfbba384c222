/** Provider messages, display rows and the text rules the history converter
    takes from other packages (desktop/app.go and desktop/history_slice.go). */
module HistoryTypes {
  import opened Options

  datatype Role = System | User | Assistant | Tool

  datatype ToolCall = ToolCall(id: string, name: string, arguments: string, diff: string)

  /** A persisted session message. A decision receipt is an opaque payload. */
  datatype Message = Message(
    role: Role,
    content: string,
    rawContent: string,
    reasoning: string,
    localOnly: bool,
    toolCalls: seq<ToolCall>,
    toolCallId: string,
    name: string,
    citations: seq<string>,
    workDurationMs: int,
    execution: Option<string>,
    decisionReceipt: Option<string>,
    decisionReceipts: seq<Option<string>>,
    interrupted: bool)

  datatype RowCall = RowCall(
    id: string, name: string, subject: string, summary: string, diff: string,
    arguments: string, argumentsArchived: bool)

  /** One display row (HistoryMessage). */
  datatype Row = Row(
    role: string,
    content: string,
    code: string,
    level: string,
    reasoning: string,
    submitText: string,
    checkpointTurn: Option<int>,
    workDurationMs: int,
    citations: seq<string>,
    toolCalls: seq<RowCall>,
    toolCallId: string,
    toolName: string,
    toolResultArchived: bool,
    toolResultError: string,
    execution: Option<string>,
    decisionReceipt: Option<string>)

  const BLANK_ROW: Row := Row("", "", "", "", "", "", None, 0, [], [], "", "", false, "", None, None)

  const CODE_DECISION_RECEIPT := "decision_receipt"
  const CODE_UNAPPLIED_STEER := "unapplied_steer"
  const CODE_CANCELLED_TURN := "cancelled_turn_display"
  const TODO_WRITE := "todo_write"
  const COMPLETE_STEP := "complete_step"

  /** A planner display recorded for one user text. */
  datatype PlannerDisplayTurn = PlannerDisplayTurn(userHash: string, messages: seq<Row>)

  datatype Todo = Todo(text: string, status: string, level: nat)

  /** What a tool result contributes to its own row (historyToolResultContent). */
  datatype ToolResultView = ToolResultView(display: string, archived: bool, error: string)

  /** Functions the converter calls in packages outside this model. Nothing is
      assumed about them; every theorem holds for every choice. */
  datatype TextRules = TextRules(
    userText: Message -> string,             // agent.UserMessageText
    steer: string -> Option<string>,         // agent.SteerText
    unappliedNotice: string -> string,       // agent.UnappliedSteerNotice
    authored: string -> bool,                // agent.IsUserAuthoredTurn
    synthetic: string -> bool,               // control.IsSyntheticUserMessage
    displayKey: string -> string,            // messageDisplayKey
    displayContent: Message -> string,       // historyUserDisplayContent with its resolver
    replayContent: string -> string,         // historyReplayUserContent
    compiledContract: string -> bool,        // agent.ContainsMemoryCompilerExecution
    slashInvocation: string -> bool,         // trimmed text starts with a slash
    blank: string -> bool,                   // trimmed text is empty
    toolFailed: string -> bool,              // historyToolResultFailed
    toolResultView: (string, bool) -> ToolResultView,
    toolSubject: (string, string) -> string,
    toolSummary: (string, string, string) -> string,
    inlineBytes: Row -> nat,                 // newHistoryEntry then inlineBytes
    receiptTodos: string -> seq<Todo>,       // evidence.ReceiptFromToolCall(..).Todos
    normalizeTodos: seq<Todo> -> seq<Todo>,  // evidence.NormalizeSerialTodos
    matchStep: (string, seq<Todo>) -> Option<int>,            // evidence.MatchStep on the receipt's step
    advanceTodo: (seq<Todo>, int) -> Option<seq<Todo>>,       // evidence.AdvanceSerialTodo
    todoJson: seq<Todo> -> Option<string>)   // todoArgsJSON
}
