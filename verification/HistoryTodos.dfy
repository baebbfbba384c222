/** Todo arguments replayed over the whole log: one pass over an in-memory
    slice (desktop/app.go) against two bounded streaming passes
    (desktop/history_slice.go). */
module HistoryTodos {
  import opened Options
  import opened HistoryTypes
  import opened HistoryLookups

  /** The derived state of historyTodoArgsState. */
  datatype TodoState = TodoState(out: map<string, string>, todos: seq<Todo>, latest: string)

  const NO_TODOS := TodoState(map[], [], "")

  function Published(rules: TextRules, st: TodoState): TodoState {
    var args := rules.todoJson(st.todos);
    if args.Some? then st.(out := st.out[st.latest := args.value]) else st
  }

  function AfterCall(rules: TextRules, successful: set<string>, st: TodoState, tc: ToolCall): TodoState {
    if tc.id == "" || tc.id !in successful then
      st
    else if tc.name == TODO_WRITE then
      var todos := rules.receiptTodos(tc.arguments);
      if todos == [] then st else Published(rules, TodoState(st.out, rules.normalizeTodos(todos), tc.id))
    else if tc.name == COMPLETE_STEP then
      if st.latest == "" || st.todos == [] then st
      else
        var step := rules.matchStep(tc.arguments, st.todos);
        if step.None? then st
        else
          var advanced := rules.advanceTodo(st.todos, step.value - 1);
          if advanced.None? then st else Published(rules, st.(todos := advanced.value))
    else
      st
  }

  function AfterCalls(rules: TextRules, successful: set<string>, st: TodoState, calls: seq<ToolCall>): TodoState {
    if calls == [] then st
    else AfterCall(rules, successful, AfterCalls(rules, successful, st, calls[..|calls| - 1]), calls[|calls| - 1])
  }

  /** One pass over the first end messages. */
  function AfterLog(rules: TextRules, successful: set<string>, msgs: seq<Message>, end: nat): TodoState
    requires end <= |msgs|
  {
    if end == 0 then NO_TODOS
    else AfterCalls(rules, successful, AfterLog(rules, successful, msgs, end - 1), msgs[end - 1].toolCalls)
  }

  predicate Succeeds(rules: TextRules, m: Message) {
    m.role == Tool && m.toolCallId != "" && !rules.toolFailed(m.content)
  }

  function Successful(rules: TextRules, msgs: seq<Message>): set<string> {
    set m | m in msgs && Succeeds(rules, m) :: m.toolCallId
  }

  /** A call succeeded if one of its results says so. */
  lemma SuccessfulIff(rules: TextRules, msgs: seq<Message>, id: string)
    ensures id in Successful(rules, msgs) <==>
              id != "" && exists m :: m in msgs && m.role == Tool && m.toolCallId == id && !rules.toolFailed(m.content)
  {
    if id in Successful(rules, msgs) {
      var m :| m in msgs && Succeeds(rules, m) && m.toolCallId == id;
    }
    if m :| m in msgs && m.role == Tool && m.toolCallId == id && !rules.toolFailed(m.content) && id != "" {
      assert Succeeds(rules, m);
    }
  }

  /** historyTodoArgsWithCompleteSteps. */
  function LogTodoArgs(rules: TextRules, msgs: seq<Message>): map<string, string> {
    AfterLog(rules, Successful(rules, msgs), msgs, |msgs|).out
  }

  class HistoryTodoArgsState {
    const successful: set<string>
    var out: map<string, string>
    var todos: seq<Todo>
    var latestTodoId: string

    function State(): TodoState
      reads this
    {
      TodoState(out, todos, latestTodoId)
    }

    constructor (successful: set<string>)
      ensures State() == NO_TODOS && this.successful == successful
    {
      this.successful := successful;
      out, todos, latestTodoId := map[], [], "";
    }

    /** One call of a message. */
    method ConsumeCall(rules: TextRules, tc: ToolCall)
      modifies this
      ensures State() == AfterCall(rules, successful, old(State()), tc)
    {
      if tc.id == "" || tc.id !in successful {
        return;
      }
      if tc.name == TODO_WRITE {
        var items := rules.receiptTodos(tc.arguments);
        if items == [] {
          return;
        }
        todos := rules.normalizeTodos(items);
        latestTodoId := tc.id;
        var args := rules.todoJson(todos);
        if args.Some? {
          out := out[latestTodoId := args.value];
        }
      } else if tc.name == COMPLETE_STEP {
        if latestTodoId == "" || todos == [] {
          return;
        }
        var step := rules.matchStep(tc.arguments, todos);
        if step.None? {
          return;
        }
        var advanced := rules.advanceTodo(todos, step.value - 1);
        if advanced.None? {
          return;
        }
        todos := advanced.value;
        var args := rules.todoJson(todos);
        if args.Some? {
          out := out[latestTodoId := args.value];
        }
      }
    }

    method Consume(rules: TextRules, m: Message)
      modifies this
      ensures State() == AfterCalls(rules, successful, old(State()), m.toolCalls)
    {
      for k := 0 to |m.toolCalls|
        invariant State() == AfterCalls(rules, successful, old(State()), m.toolCalls[..k])
      {
        assert m.toolCalls[..k + 1][..k] == m.toolCalls[..k];
        hide AfterCall;
        ConsumeCall(rules, m.toolCalls[k]);
      }
      assert m.toolCalls[..|m.toolCalls|] == m.toolCalls;
    }
  }

  /** First streaming pass: ids of calls with a successful result. */
  method StreamSuccessful(rules: TextRules, src: Source) returns (r: Result<set<string>>)
    requires SourceValid(src)
    ensures AlwaysReadable(src) ==> r.Ok?
    ensures r.Ok? ==> r.value == Successful(rules, src.msgs)
  {
    var end := |src.msgs|;
    var successful: set<string> := {};
    var lo := 0;
    while lo < end
      invariant successful == Successful(rules, src.msgs[..Min(lo, end)])
    {
      var hi := Min(lo + LOOKUP_CHUNK_MESSAGES, end);
      var chunk := Fetch(src, lo, hi);
      if chunk.Err? {
        return Err;
      }
      for k := 0 to |chunk.value|
        invariant successful == Successful(rules, src.msgs[..lo + k])
      {
        assert src.msgs[..lo + k + 1] == src.msgs[..lo + k] + [chunk.value[k]];
        if Succeeds(rules, chunk.value[k]) {
          successful := successful + {chunk.value[k].toolCallId};
        }
      }
      lo := lo + LOOKUP_CHUNK_MESSAGES;
    }
    assert src.msgs[..end] == src.msgs;
    r := Ok(successful);
  }

  method ConsumeTodoChunk(rules: TextRules, ghost successful: set<string>, ghost msgs: seq<Message>,
                          state: HistoryTodoArgsState, lo: nat, chunk: seq<Message>)
    requires lo + |chunk| <= |msgs| && chunk == msgs[lo..lo + |chunk|]
    requires state.successful == successful && state.State() == AfterLog(rules, successful, msgs, lo)
    modifies state
    ensures state.State() == AfterLog(rules, successful, msgs, lo + |chunk|)
  {
    hide AfterCalls;
    for k := 0 to |chunk|
      invariant state.State() == AfterLog(rules, successful, msgs, lo + k)
    {
      assert chunk[k] == msgs[lo + k];
      state.Consume(rules, chunk[k]);
    }
  }

  lemma AfterNothing(rules: TextRules, successful: set<string>, msgs: seq<Message>)
    ensures AfterLog(rules, successful, msgs, 0) == NO_TODOS
  {
  }

  /** historyTodoArgsForSource: reading the log twice in chunks of 128 derives
      what the one-pass form derives, for every log length. */
  method HistoryTodoArgsForSource(rules: TextRules, src: Source) returns (r: Result<map<string, string>>)
    requires SourceValid(src)
    ensures AlwaysReadable(src) ==> r.Ok?
    ensures r.Ok? ==> r.value == LogTodoArgs(rules, src.msgs)
  {
    hide AfterLog, Successful;
    var successful := StreamSuccessful(rules, src);
    if successful.Err? {
      return Err;
    }
    var state := new HistoryTodoArgsState(successful.value);
    var end := |src.msgs|;
    var lo: nat := 0;
    AfterNothing(rules, successful.value, src.msgs);
    while lo < end
      invariant state.State() == AfterLog(rules, successful.value, src.msgs, Min(lo, end))
    {
      var hi := Min(lo + LOOKUP_CHUNK_MESSAGES, end);
      var chunk := Fetch(src, lo, hi);
      if chunk.Err? {
        return Err;
      }
      ConsumeTodoChunk(rules, successful.value, src.msgs, state, lo, chunk.value);
      lo := lo + LOOKUP_CHUNK_MESSAGES;
    }
    r := Ok(state.out);
  }

  predicate ContainsTodoWrite(msgs: seq<Message>) {
    exists m :: m in msgs && exists tc :: tc in m.toolCalls && tc.name == TODO_WRITE
  }
}
