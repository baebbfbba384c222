/** Windowed history pages against one full conversion
    (pageHistorySliceSource and historyFieldValueForSource in
    desktop/history_slice.go). */
module HistoryPaging {
  import opened Options
  import opened HistoryTypes
  import opened HistoryConvert
  import opened HistoryLookups
  import opened HistoryTodos
  import opened HistoryCut

  const DEFAULT_TURNS: nat := 12
  const DEFAULT_ENTRIES: nat := 120
  const DEFAULT_BYTES: nat := 512 * 1024
  const MAX_TURNS: nat := 500
  const MAX_ENTRIES: nat := 1000
  const MAX_BYTES: nat := 8 * 1024 * 1024
  const COLD_WINDOW_BYTES: nat := 32 * 1024 * 1024

  /** The decoded page position; an absent or undecodable cursor asks for the
      latest page. */
  datatype Cursor = Cursor(revision: int, revKnown: bool, digest: string, before: nat)

  datatype Request = Request(cursor: Option<Cursor>, turns: int, entries: int, bytes: int)

  function Limit(value: int, byDefault: nat, most: nat): nat {
    if value <= 0 then byDefault else if value > most then most else value
  }

  function Normalized(req: Request): (r: Request)
    ensures r.cursor == req.cursor && 1 <= r.turns <= MAX_TURNS && 1 <= r.entries <= MAX_ENTRIES
    ensures 1 <= r.bytes <= MAX_BYTES
    ensures 1 <= req.turns <= 500 ==> r.turns == req.turns
    ensures 1 <= req.entries <= 1000 ==> r.entries == req.entries
    ensures 1 <= req.bytes <= 8 * 1024 * 1024 ==> r.bytes == req.bytes
    ensures req.turns <= 0 && req.entries <= 0 && req.bytes <= 0 ==> r == Request(req.cursor, 12, 120, 512 * 1024)
  {
    Request(req.cursor, Limit(req.turns, DEFAULT_TURNS, MAX_TURNS), Limit(req.entries, DEFAULT_ENTRIES, MAX_ENTRIES),
            Limit(req.bytes, DEFAULT_BYTES, MAX_BYTES))
  }

  /** One display row of a page; sub is its number among its message's rows. */
  datatype Entry = Entry(sessionId: string, epoch: int, order: nat, sub: nat, turn: int, row: Row)

  datatype Slice = Slice(
    entries: seq<Entry>, next: Option<Cursor>, hasOlder: bool,
    totalTurns: int, startTurn: int, endTurn: int, stale: bool, revision: int)

  /** Everything one conversion depends on. */
  datatype Session = Session(
    rules: TextRules,
    src: Source,
    planner: seq<PlannerDisplayTurn>,
    checkpoints: map<int, int>)
  {
    function Initial(): PlannerState {
      InitialState(rules, planner)
    }

    predicate Valid() {
      SourceValid(src)
    }
  }

  // --------------------------------------------------------------- entries

  /** Rows per message; empty where a message has none or was not converted. */
  type RowTable = seq<seq<Row>>

  /** The identity and visible turns entries are stamped with. */
  datatype Frame = Frame(sessionId: string, epoch: int, turns: seq<int>)

  function FrameOf(src: Source): Frame {
    Frame(src.sessionId, src.epoch, src.turns)
  }

  predicate TableFor(fr: Frame, table: RowTable) {
    |table| == |fr.turns|
  }

  function EntriesOf(fr: Frame, i: nat, rows: seq<Row>): (es: seq<Entry>)
    requires i < |fr.turns|
    ensures |es| == |rows|
  {
    seq(|rows|, sub requires 0 <= sub < |rows| => Entry(fr.sessionId, fr.epoch, i, sub, fr.turns[i], rows[sub]))
  }

  /** Entries of messages lo..hi, in display order. */
  function Entries(fr: Frame, table: RowTable, lo: nat, hi: nat): seq<Entry>
    requires TableFor(fr, table) && lo <= hi <= |table|
    decreases hi
  {
    if hi == lo then [] else Entries(fr, table, lo, hi - 1) + EntriesOf(fr, hi - 1, table[hi - 1])
  }

  lemma {:induction false} EntriesJoin(fr: Frame, table: RowTable, lo: nat, mid: nat, hi: nat)
    requires TableFor(fr, table) && lo <= mid <= hi <= |table|
    ensures Entries(fr, table, lo, mid) + Entries(fr, table, mid, hi) == Entries(fr, table, lo, hi)
    decreases hi
  {
    if hi > mid {
      EntriesJoin(fr, table, lo, mid, hi - 1);
      var last := EntriesOf(fr, hi - 1, table[hi - 1]);
      assert Entries(fr, table, lo, mid) + (Entries(fr, table, mid, hi - 1) + last)
          == (Entries(fr, table, lo, mid) + Entries(fr, table, mid, hi - 1)) + last;
    }
  }

  lemma {:induction false} EntriesAgree(fr: Frame, a: RowTable, b: RowTable, lo: nat, hi: nat)
    requires TableFor(fr, a) && TableFor(fr, b) && lo <= hi <= |a|
    requires forall i :: lo <= i < hi ==> a[i] == b[i]
    ensures Entries(fr, a, lo, hi) == Entries(fr, b, lo, hi)
    decreases hi
  {
    if hi > lo {
      EntriesAgree(fr, a, b, lo, hi - 1);
    }
  }

  predicate EntryBefore(a: Entry, b: Entry) {
    a.order < b.order || (a.order == b.order && a.sub < b.sub)
  }

  /** Message index and sub-order number the rows in display order. */
  lemma {:induction false} EntryOrderIncreases(fr: Frame, table: RowTable, lo: nat, hi: nat)
    requires TableFor(fr, table) && lo <= hi <= |table|
    ensures forall k :: 0 <= k < |Entries(fr, table, lo, hi)| ==>
              lo <= Entries(fr, table, lo, hi)[k].order < hi
                && Entries(fr, table, lo, hi)[k].turn == fr.turns[Entries(fr, table, lo, hi)[k].order]
    ensures forall j, k :: 0 <= j < k < |Entries(fr, table, lo, hi)| ==>
              EntryBefore(Entries(fr, table, lo, hi)[j], Entries(fr, table, lo, hi)[k])
    decreases hi
  {
    if hi > lo {
      EntryOrderIncreases(fr, table, lo, hi - 1);
    }
  }

  /** What an entry is named by leads back to its row. */
  lemma {:induction false} EntryNamesItsRow(fr: Frame, table: RowTable, lo: nat, hi: nat, e: Entry)
    requires TableFor(fr, table) && lo <= hi <= |table| && e in Entries(fr, table, lo, hi)
    ensures e.sessionId == fr.sessionId && e.epoch == fr.epoch
    ensures lo <= e.order < hi && e.sub < |table[e.order]| && e.row == table[e.order][e.sub]
    decreases hi
  {
    var last := EntriesOf(fr, hi - 1, table[hi - 1]);
    if e !in last {
      EntryNamesItsRow(fr, table, lo, hi - 1, e);
    }
  }

  // --------------------------------------------------- the full conversion

  function FullLookups(ss: Session): Lookups {
    Lookups(ss.checkpoints, LogTodoArgs(ss.rules, ss.src.msgs), LogResults(ss.src.msgs))
  }

  function FullRows(ss: Session, i: nat): seq<Row>
    requires i < |ss.src.msgs|
  {
    ConvertRows(ss.rules, Converted(ss.rules, ss.src.msgs, ss.Initial(), 0, i), i, ss.src.msgs[i], FullLookups(ss))
  }

  function FullTable(ss: Session): (table: RowTable)
    ensures |table| == |ss.src.msgs|
  {
    seq(|ss.src.msgs|, i requires 0 <= i < |ss.src.msgs| => FullRows(ss, i))
  }

  function Concat(table: RowTable): seq<Row> {
    if table == [] then [] else Concat(table[..|table| - 1]) + table[|table| - 1]
  }

  /** historyMessagesWithPlannerDisplaysAndLookups over the whole log. */
  method ConvertAll(ss: Session) returns (out: seq<Row>)
    ensures out == Concat(FullTable(ss))
  {
    out := [];
    var look := FullLookups(ss);
    var state := new HistoryMessageConvertState(ss.rules, ss.planner);
    ghost var table := FullTable(ss);
    for i := 0 to |ss.src.msgs|
      invariant out == Concat(table[..i])
      invariant state.State() == Converted(ss.rules, ss.src.msgs, ss.Initial(), 0, i)
    {
      var rows := state.ConvertHistoryMessage(ss.rules, i, ss.src.msgs[i], look);
      assert rows == FullRows(ss, i) == table[i];
      assert table[..i + 1][..i] == table[..i];
      out := out + rows;
    }
    assert table[..|table|] == table;
  }

  function RowsOf(es: seq<Entry>): (rows: seq<Row>)
    ensures |rows| == |es|
  {
    seq(|es|, k requires 0 <= k < |es| => es[k].row)
  }

  /** The entries of a whole table carry exactly its rows. */
  lemma {:induction false} EntriesCarryRows(fr: Frame, table: RowTable, end: nat)
    requires TableFor(fr, table) && end <= |table|
    ensures RowsOf(Entries(fr, table, 0, end)) == Concat(table[..end])
  {
    if end > 0 {
      EntriesCarryRows(fr, table, end - 1);
      var last := EntriesOf(fr, end - 1, table[end - 1]);
      assert RowsOf(last) == table[end - 1] && table[..end][..end - 1] == table[..end - 1];
      assert RowsOf(Entries(fr, table, 0, end - 1) + last) == RowsOf(Entries(fr, table, 0, end - 1)) + RowsOf(last);
    }
  }

  // ------------------------------------------------------------ one window

  function WindowState(ss: Session, lo: nat, i: nat): PlannerState
    requires lo <= i <= |ss.src.msgs|
  {
    Converted(ss.rules, ss.src.msgs, Consumed(ss.rules, ss.src.msgs, ss.Initial(), lo), lo, i)
  }

  function WindowTodoArgs(ss: Session, lo: nat, hi: nat): map<string, string>
    requires lo <= hi <= |ss.src.msgs|
  {
    if ContainsTodoWrite(ss.src.msgs[lo..hi]) then LogTodoArgs(ss.rules, ss.src.msgs) else map[]
  }

  function WindowLookups(ss: Session, lo: nat, hi: nat): Lookups
    requires lo <= hi <= |ss.src.msgs|
  {
    Lookups(ss.checkpoints, WindowTodoArgs(ss, lo, hi), WindowResults(ss.src.msgs, lo, hi))
  }

  /** Rows of message i when only the window lo..hi is converted. */
  function WindowRows(ss: Session, lo: nat, hi: nat, i: nat): seq<Row>
    requires lo <= i < hi <= |ss.src.msgs|
  {
    ConvertRows(ss.rules, WindowState(ss, lo, i), i, ss.src.msgs[i], WindowLookups(ss, lo, hi))
  }

  function WindowTable(ss: Session, lo: nat, hi: nat): (table: RowTable)
    requires lo <= hi <= |ss.src.msgs|
    ensures |table| == |ss.src.msgs|
  {
    seq(|ss.src.msgs|, i requires 0 <= i < |ss.src.msgs| => if lo <= i < hi then WindowRows(ss, lo, hi, i) else [])
  }

  /** Two lookups a message's rows cannot tell apart. */
  predicate SameCheckpoint(i: nat, a: map<int, int>, b: map<int, int>) {
    (i in a <==> i in b) && (i in a ==> a[i] == b[i])
  }

  ghost predicate LookAlike(i: nat, m: Message, a: Lookups, b: Lookups) {
    && SameCheckpoint(i, a.checkpoints, b.checkpoints)
    && (forall tc :: tc in m.toolCalls ==> ResultContent(a.toolResults, tc.id) == ResultContent(b.toolResults, tc.id))
    && (forall tc :: tc in m.toolCalls ==> ReplayedArguments(a.todoArgs, tc) == ReplayedArguments(b.todoArgs, tc))
  }

  lemma RowsAlike(rules: TextRules, s: PlannerState, i: nat, m: Message, a: Lookups, b: Lookups)
    requires LookAlike(i, m, a, b)
    ensures ConvertRows(rules, s, i, m, a) == ConvertRows(rules, s, i, m, b)
  {
    assert CallRows(rules, m.toolCalls, a) == CallRows(rules, m.toolCalls, b);
  }

  lemma WindowContentOfCall(msgs: seq<Message>, lo: nat, hi: nat, i: nat, tc: ToolCall)
    requires lo <= i < hi <= |msgs| && tc in msgs[i].toolCalls
    ensures ResultContent(WindowResults(msgs, lo, hi), tc.id) == WindowContent(msgs, lo, hi, tc.id)
  {
    if tc.id != "" {
      assert msgs[lo..hi][i - lo] == msgs[i];
      CallIdsHas(msgs[lo..hi], i - lo, tc);
    }
  }

  lemma WindowLooksLikeFull(ss: Session, lo: nat, hi: nat, i: nat)
    requires LookupsExact(ss.src.msgs) && lo <= i < hi <= |ss.src.msgs|
    ensures LookAlike(i, ss.src.msgs[i], WindowLookups(ss, lo, hi), FullLookups(ss))
  {
    var msgs := ss.src.msgs;
    forall tc | tc in msgs[i].toolCalls
      ensures ResultContent(WindowResults(msgs, lo, hi), tc.id) == ResultContent(LogResults(msgs), tc.id)
      ensures ReplayedArguments(WindowTodoArgs(ss, lo, hi), tc) == ReplayedArguments(LogTodoArgs(ss.rules, msgs), tc)
    {
      WindowContentOfCall(msgs, lo, hi, i, tc);
      LogResultsContent(msgs, tc.id);
      LookupExactIff(msgs, i, tc.id);
      assert msgs[lo..hi][i - lo] == msgs[i];
    }
  }

  // ---------------------------------------------------------- where to cut

  /** Partition point of the non-decreasing turns. */
  function FirstAtLeast(turns: seq<int>, hi: nat, x: int): (r: nat)
    requires hi <= |turns|
    ensures r <= hi && forall i :: r <= i < hi ==> turns[i] >= x
    ensures r > 0 ==> turns[r - 1] < x
  {
    if hi == 0 || turns[hi - 1] < x then hi else FirstAtLeast(turns, hi - 1, x)
  }

  lemma {:induction false} PartitionPoint(turns: seq<int>, hi: nat, x: int, r: nat)
    requires r <= hi <= |turns|
    requires forall k :: 0 <= k < r ==> turns[k] < x
    requires forall k :: r <= k < hi ==> turns[k] >= x
    ensures FirstAtLeast(turns, hi, x) == r
  {
    if hi > r {
      PartitionPoint(turns, hi - 1, x, r);
    }
  }

  /** sort.Search over the turns. */
  method SearchTurns(turns: seq<int>, hi: nat, x: int) returns (r: nat)
    requires hi <= |turns| && forall i, j :: 0 <= i <= j < |turns| ==> turns[i] <= turns[j]
    ensures r == FirstAtLeast(turns, hi, x)
  {
    var i, j := 0, hi;
    while i < j
      invariant 0 <= i <= j <= hi
      invariant forall k :: 0 <= k < i ==> turns[k] < x
      invariant forall k :: j <= k < hi ==> turns[k] >= x
    {
      var h := (i + j) / 2;
      if turns[h] < x {
        i := h + 1;
      } else {
        j := h;
      }
    }
    PartitionPoint(turns, hi, x, i);
    r := i;
  }

  function OldestTurn(newest: int, turns: nat): int {
    if newest <= 0 then 0 else if newest - turns + 1 >= 1 then newest - turns + 1 else 1
  }

  /** Cold windows shrink forward while their raw span is excessive. */
  function Shrunk(src: Source, lo: nat, hi: nat): (r: nat)
    requires lo < hi
    ensures lo <= r < hi
    decreases hi - lo
  {
    if OverCap(src, lo, hi) then Shrunk(src, lo + 1, hi) else lo
  }

  /** A window of more than one message whose raw span is excessive. */
  predicate OverCap(src: Source, lo: nat, hi: nat) {
    src.spanBytes.Some? && lo < hi - 1 && src.spanBytes.value(lo, hi) > COLD_WINDOW_BYTES
  }

  /** The first message of the oldest turn wanted. */
  function TurnLo(src: Source, turns: nat, hi: nat): (lo: nat)
    requires SourceValid(src) && turns >= 1 && 0 < hi <= |src.msgs|
    ensures lo < hi
  {
    var oldest := OldestTurn(src.turns[hi - 1], turns);
    if oldest <= 1 then 0 else FirstAtLeast(src.turns, hi, oldest)
  }

  function CandidateLo(src: Source, turns: nat, hi: nat): (lo: nat)
    requires SourceValid(src) && turns >= 1 && 0 < hi <= |src.msgs|
    ensures lo < hi
  {
    Shrunk(src, TurnLo(src, turns, hi), hi)
  }

  datatype Group = Group(index: nat, entries: seq<Entry>)

  function InlineBytes(rules: TextRules, es: seq<Entry>): nat {
    if es == [] then 0 else InlineBytes(rules, es[..|es| - 1]) + rules.inlineBytes(es[|es| - 1].row)
  }

  function WeightOf(rules: TextRules, es: seq<Entry>): Weight {
    Weight(|es|, InlineBytes(rules, es))
  }

  function Groups(fr: Frame, table: RowTable, lo: nat, n: nat): seq<Group>
    requires TableFor(fr, table) && lo <= n <= |table|
    decreases n
  {
    if n == lo then []
    else if table[n - 1] == [] then Groups(fr, table, lo, n - 1)
    else Groups(fr, table, lo, n - 1) + [Group(n - 1, EntriesOf(fr, n - 1, table[n - 1]))]
  }

  function Weights(rules: TextRules, gs: seq<Group>): (ws: seq<Weight>)
    ensures |ws| == |gs|
  {
    seq(|gs|, k requires 0 <= k < |gs| => WeightOf(rules, gs[k].entries))
  }

  function Flatten(gs: seq<Group>): seq<Entry> {
    if gs == [] then [] else Flatten(gs[..|gs| - 1]) + gs[|gs| - 1].entries
  }

  lemma {:induction false} GroupsInRange(fr: Frame, table: RowTable, lo: nat, n: nat)
    requires TableFor(fr, table) && lo <= n <= |table|
    ensures forall k :: 0 <= k < |Groups(fr, table, lo, n)| ==> lo <= Groups(fr, table, lo, n)[k].index < n
    decreases n
  {
    if n > lo {
      GroupsInRange(fr, table, lo, n - 1);
    }
  }

  /** The oldest group kept within the budgets, or lo when there are no rows. */
  function CutStart(rules: TextRules, fr: Frame, table: RowTable, lo: nat, hi: nat, maxRows: nat,
                    maxBytes: nat): (start: nat)
    requires TableFor(fr, table) && lo < hi <= |table|
    ensures lo <= start < hi
  {
    var gs := Groups(fr, table, lo, hi);
    GroupsInRange(fr, table, lo, hi);
    if gs == [] then lo
    else
      CutIsCut(Weights(rules, gs), maxRows, maxBytes);
      gs[Cut(Weights(rules, gs), maxRows, maxBytes)].index
  }

  /** Kept groups, flattened, are the entries from the oldest kept message on:
      messages without rows leave no gap. */
  lemma {:induction false} KeptGroupsFlatten(fr: Frame, table: RowTable, lo: nat, n: nat, k: nat)
    requires TableFor(fr, table) && lo <= n <= |table| && k < |Groups(fr, table, lo, n)|
    ensures lo <= Groups(fr, table, lo, n)[k].index < n
    ensures Flatten(Groups(fr, table, lo, n)[k..]) == Entries(fr, table, Groups(fr, table, lo, n)[k].index, n)
    decreases n
  {
    var gs := Groups(fr, table, lo, n);
    var before := Groups(fr, table, lo, n - 1);
    GroupsInRange(fr, table, lo, n);
    if k < |before| {
      KeptGroupsFlatten(fr, table, lo, n - 1, k);
      if table[n - 1] == [] {
        assert gs == before;
        assert EntriesOf(fr, n - 1, table[n - 1]) == [];
      } else {
        assert gs[k..][..|gs[k..]| - 1] == before[k..];
      }
    } else {
      assert gs[k..] == [gs[k]] && Flatten(gs[k..]) == gs[k].entries;
    }
  }

  lemma {:induction false} NoGroupsNoEntries(fr: Frame, table: RowTable, lo: nat, n: nat)
    requires TableFor(fr, table) && lo <= n <= |table| && Groups(fr, table, lo, n) == []
    ensures Entries(fr, table, lo, n) == []
    decreases n
  {
    if n > lo {
      NoGroupsNoEntries(fr, table, lo, n - 1);
    }
  }

  // ------------------------------------------------------------- one page

  predicate IdentityMatches(src: Source, revision: int, revKnown: bool, digest: string) {
    src.revKnown == revKnown && src.revision == (if revKnown then revision else 0) && src.digest == digest
  }

  function PageEnd(ss: Session, cursor: Option<Cursor>): nat {
    if cursor.Some? && cursor.value.before < |ss.src.msgs| then cursor.value.before else |ss.src.msgs|
  }

  function StartTurn(es: seq<Entry>): int {
    if es == [] then 0
    else
      var older := StartTurn(es[..|es| - 1]);
      var turn := es[|es| - 1].turn;
      if turn > 0 && (older == 0 || turn < older) then turn else older
  }

  function EndTurn(es: seq<Entry>): int {
    if es == [] then 0
    else
      var older := EndTurn(es[..|es| - 1]);
      var turn := es[|es| - 1].turn;
      if turn > 0 && turn > older then turn else older
  }

  lemma {:induction false} TurnSpan(es: seq<Entry>)
    ensures forall e :: e in es && e.turn > 0 ==> 0 < StartTurn(es) <= e.turn <= EndTurn(es)
    ensures StartTurn(es) == 0 <==> EndTurn(es) == 0
    ensures StartTurn(es) != 0 ==> exists e :: e in es && e.turn == StartTurn(es)
    ensures EndTurn(es) != 0 ==> exists e :: e in es && e.turn == EndTurn(es)
    ensures 0 <= StartTurn(es) <= EndTurn(es)
  {
    if es != [] {
      var init, last := es[..|es| - 1], es[|es| - 1];
      TurnSpan(init);
      assert es == init + [last];
      assert forall e :: e in init ==> e in es;
      assert last in es;
    }
  }

  /** Where the page ending before message hi starts. */
  function PageStart(ss: Session, req: Request, hi: nat): (start: nat)
    requires ss.Valid() && 0 < hi <= |ss.src.msgs|
    ensures CandidateLo(ss.src, Normalized(req).turns, hi) <= start < hi
  {
    var budget := Normalized(req);
    var lo := CandidateLo(ss.src, budget.turns, hi);
    CutStart(ss.rules, FrameOf(ss.src), WindowTable(ss, lo, hi), lo, hi, budget.entries, budget.bytes)
  }

  /** The page a request gets, stated declaratively. */
  function PageOf(ss: Session, req: Request): Slice
    requires ss.Valid()
  {
    if
      && req.cursor.Some?
      && !IdentityMatches(ss.src, req.cursor.value.revision, req.cursor.value.revKnown, req.cursor.value.digest)
    then
      Slice([], None, false, 0, 0, 0, true, ss.src.revision)
    else
      var hi := PageEnd(ss, req.cursor);
      if hi == 0 then Slice([], None, false, ss.src.totalTurns, 0, 0, false, ss.src.revision)
      else
        var lo := CandidateLo(ss.src, Normalized(req).turns, hi);
        var start := PageStart(ss, req, hi);
        var es := Entries(FrameOf(ss.src), WindowTable(ss, lo, hi), start, hi);
        Slice(es,
              if start > 0 then Some(Cursor(ss.src.revision, ss.src.revKnown, ss.src.digest, start)) else None,
              start > 0, ss.src.totalTurns, StartTurn(es), EndTurn(es), false, ss.src.revision)
  }

  /** The inner loop of primeHistoryPlannerState. */
  method ConsumeChunk(ss: Session, state: HistoryMessageConvertState, lo: nat, chunk: seq<Message>)
    requires lo + |chunk| <= |ss.src.msgs| && chunk == ss.src.msgs[lo..lo + |chunk|]
    requires state.State() == Consumed(ss.rules, ss.src.msgs, ss.Initial(), lo)
    modifies state
    ensures state.State() == Consumed(ss.rules, ss.src.msgs, ss.Initial(), lo + |chunk|)
  {
    hide ConsumeState;
    ghost var initial := ss.Initial();
    for k := 0 to |chunk|
      invariant state.State() == Consumed(ss.rules, ss.src.msgs, initial, lo + k)
    {
      assert chunk[k] == ss.src.msgs[lo + k];
      state.ConsumeHistoryPlannerState(ss.rules, chunk[k]);
    }
  }

  /** primeHistoryPlannerState, streamed in bounded chunks and skipped when no
      planner display exists. */
  method PrimeHistoryPlannerState(ss: Session, state: HistoryMessageConvertState, end: nat) returns (ok: bool)
    requires ss.Valid() && end <= |ss.src.msgs| && state.State() == ss.Initial()
    modifies state
    ensures AlwaysReadable(ss.src) ==> ok
    ensures ok ==> state.State() == Consumed(ss.rules, ss.src.msgs, ss.Initial(), end)
  {
    hide Consumed;
    if end == 0 || state.plannerByUserHash == map[] {
      ConsumedNothing(ss);
      if end > 0 {
        NoPlannerTurnsNoState(ss.rules, ss.src.msgs, ss.Initial(), end);
      }
      return true;
    }
    var lo: nat := 0;
    ConsumedNothing(ss);
    while lo < end
      invariant state.State() == Consumed(ss.rules, ss.src.msgs, ss.Initial(), Min(lo, end))
    {
      var hi := Min(lo + LOOKUP_CHUNK_MESSAGES, end);
      var chunk := Fetch(ss.src, lo, hi);
      if chunk.Err? {
        return false;
      }
      ConsumeChunk(ss, state, lo, chunk.value);
      lo := lo + LOOKUP_CHUNK_MESSAGES;
    }
    ok := true;
  }

  lemma ConsumedNothing(ss: Session)
    ensures Consumed(ss.rules, ss.src.msgs, ss.Initial(), 0) == ss.Initial()
  {
  }

  lemma ReadResultsServe(msgs: seq<Message>, lo: nat, hi: nat, results: map<string, Message>)
    requires lo <= hi <= |msgs| && ResultContent(results, "") == ""
    requires forall id :: id in CallIds(msgs[lo..hi]) ==> ResultContent(results, id) == WindowContent(msgs, lo, hi, id)
    ensures forall i, tc :: lo <= i < hi && tc in msgs[i].toolCalls ==>
                              ResultContent(results, tc.id) == ResultContent(WindowResults(msgs, lo, hi), tc.id)
  {
    forall i, tc | lo <= i < hi && tc in msgs[i].toolCalls
      ensures ResultContent(results, tc.id) == ResultContent(WindowResults(msgs, lo, hi), tc.id)
    {
      WindowContentOfCall(msgs, lo, hi, i, tc);
      if tc.id != "" {
        assert msgs[lo..hi][i - lo] == msgs[i];
        CallIdsHas(msgs[lo..hi], i - lo, tc);
      } else {
        NoBlankCall(msgs[lo..hi]);
      }
    }
  }

  lemma {:induction false} NoBlankCall(msgs: seq<Message>)
    ensures "" !in CallIds(msgs)
  {
    if msgs != [] {
      NoBlankCall(msgs[..|msgs| - 1]);
    }
  }

  /** Todo arguments and tool results for one window. */
  method ReadLookups(ss: Session, lo: nat, hi: nat) returns (r: Result<Lookups>)
    requires ss.Valid() && lo <= hi <= |ss.src.msgs|
    ensures AlwaysReadable(ss.src) ==> r.Ok?
    ensures r.Ok? ==> forall i :: lo <= i < hi ==> LookAlike(i, ss.src.msgs[i], r.value, WindowLookups(ss, lo, hi))
  {
    var todoArgs: map<string, string> := map[];
    if ContainsTodoWrite(ss.src.msgs[lo..hi]) {
      var derived := HistoryTodoArgsForSource(ss.rules, ss.src);
      if derived.Err? {
        return Err;
      }
      todoArgs := derived.value;
    }
    var results := WindowToolResults(ss.src, lo, hi);
    if results.Err? {
      return Err;
    }
    ReadResultsServe(ss.src.msgs, lo, hi, results.value);
    r := Ok(Lookups(ss.checkpoints, todoArgs, results.value));
  }

  method MakeEntries(rules: TextRules, fr: Frame, i: nat, rows: seq<Row>) returns (es: seq<Entry>, bytes: nat)
    requires i < |fr.turns|
    ensures es == EntriesOf(fr, i, rows) && Weight(|es|, bytes) == WeightOf(rules, es)
  {
    es, bytes := [], 0;
    for sub := 0 to |rows|
      invariant es == EntriesOf(fr, i, rows)[..sub] && bytes == InlineBytes(rules, es)
    {
      var entry := Entry(fr.sessionId, fr.epoch, i, sub, fr.turns[i], rows[sub]);
      assert (es + [entry])[..sub] == es;
      es, bytes := es + [entry], bytes + rules.inlineBytes(entry.row);
    }
  }

  /** kept is the suffix of the window's groups the budgets allow. */
  ghost predicate KeptSuffix(rules: TextRules, fr: Frame, table: RowTable, lo: nat, i: nat, start: nat,
                             groups: seq<Group>, kept: seq<Weight>, counts: Weight, maxRows: nat, maxBytes: nat)
    requires TableFor(fr, table) && lo <= i <= |table|
  {
    var all := Groups(fr, table, lo, i);
    var ws := Weights(rules, all);
    && (all == [] ==> start == 0)
    && (all != [] ==> IsCut(ws, start, maxRows, maxBytes))
    && start <= |all| && groups == all[start..] && kept == ws[start..] && counts == Total(kept)
  }

  lemma NothingKept(rules: TextRules, fr: Frame, table: RowTable, lo: nat, maxRows: nat, maxBytes: nat)
    requires TableFor(fr, table) && lo <= |table|
    ensures KeptSuffix(rules, fr, table, lo, lo, 0, [], [], Weight(0, 0), maxRows, maxBytes)
  {
  }

  lemma KeptStays(rules: TextRules, fr: Frame, table: RowTable, lo: nat, i: nat, start: nat,
                  groups: seq<Group>, kept: seq<Weight>, counts: Weight, maxRows: nat, maxBytes: nat)
    requires TableFor(fr, table) && lo <= i < |table| && table[i] == []
    requires KeptSuffix(rules, fr, table, lo, i, start, groups, kept, counts, maxRows, maxBytes)
    ensures KeptSuffix(rules, fr, table, lo, i + 1, start, groups, kept, counts, maxRows, maxBytes)
  {
    assert Groups(fr, table, lo, i + 1) == Groups(fr, table, lo, i);
  }

  lemma KeptIs(rules: TextRules, fr: Frame, table: RowTable, lo: nat, i: nat, start: nat,
               groups: seq<Group>, kept: seq<Weight>, counts: Weight, maxRows: nat, maxBytes: nat)
    requires TableFor(fr, table) && lo <= i <= |table|
    requires KeptSuffix(rules, fr, table, lo, i, start, groups, kept, counts, maxRows, maxBytes)
    ensures
      var all := Groups(fr, table, lo, i);
      start <= |all| && groups == all[start..] && (all != [] ==> IsCut(Weights(rules, all), start, maxRows, maxBytes))
  {
  }

  lemma GroupAppended(rules: TextRules, fr: Frame, table: RowTable, lo: nat, i: nat, es: seq<Entry>)
    requires TableFor(fr, table) && lo <= i < |table| && table[i] != [] && es == EntriesOf(fr, i, table[i])
    ensures Groups(fr, table, lo, i + 1) == Groups(fr, table, lo, i) + [Group(i, es)]
    ensures Weights(rules, Groups(fr, table, lo, i + 1)) ==
        Weights(rules, Groups(fr, table, lo, i)) + [WeightOf(rules, es)]
  {
  }

  lemma LaterSuffix(all: seq<Group>, g: Group, start: nat, dropped: nat)
    requires start <= |all| && dropped <= |all| - start
    ensures (all[start..] + [g])[dropped..] == (all + [g])[start + dropped..]
  {
  }

  /** Appending one message's rows and dropping what no longer fits. */
  method KeepGroup(rules: TextRules, fr: Frame, ghost table: RowTable, ghost lo: nat, i: nat, rows: seq<Row>,
                   ghost start: nat, groups: seq<Group>, kept: seq<Weight>, counts: Weight, maxRows: nat,
                   maxBytes: nat)
    returns (ghost start': nat, groups': seq<Group>, kept': seq<Weight>, counts': Weight)
    requires TableFor(fr, table) && lo <= i < |table| && rows == table[i] && rows != []
    requires KeptSuffix(rules, fr, table, lo, i, start, groups, kept, counts, maxRows, maxBytes)
    ensures KeptSuffix(rules, fr, table, lo, i + 1, start', groups', kept', counts', maxRows, maxBytes)
  {
    ghost var all, ws := Groups(fr, table, lo, i), Weights(rules, Groups(fr, table, lo, i));
    var es, bytes := MakeEntries(rules, fr, i, rows);
    var dropped;
    dropped, kept', counts' := Slide(ws, start, kept, counts, Weight(|es|, bytes), maxRows, maxBytes);
    groups', start' := (groups + [Group(i, es)])[dropped..], start + dropped;
    GroupAppended(rules, fr, table, lo, i, es);
    LaterSuffix(all, Group(i, es), start, dropped);
    hide Groups, Weights, IsCut, TableFor;
  }

  /** The conversion loop of one candidate window. */
  method ConvertWindow(ss: Session, lo: nat, hi: nat, maxRows: nat, maxBytes: nat)
    returns (ok: bool, groups: seq<Group>, ghost start: nat)
    requires ss.Valid() && lo < hi <= |ss.src.msgs|
    ensures AlwaysReadable(ss.src) ==> ok
    ensures ok ==>
              var all := Groups(FrameOf(ss.src), WindowTable(ss, lo, hi), lo, hi);
              && start <= |all| && groups == all[start..]
              && (all != [] ==> IsCut(Weights(ss.rules, all), start, maxRows, maxBytes))
  {
    hide ConvertRows, ConvertState, Consumed, WindowLookups, IsCut, LookAlike, KeptSuffix;
    groups, start := [], 0;
    var look := ReadLookups(ss, lo, hi);
    if look.Err? {
      return false, [], 0;
    }
    var state := new HistoryMessageConvertState(ss.rules, ss.planner);
    var primed := PrimeHistoryPlannerState(ss, state, lo);
    if !primed {
      return false, [], 0;
    }
    ghost var table := WindowTable(ss, lo, hi);
    var kept: seq<Weight>, counts := [], Weight(0, 0);
    NothingKept(ss.rules, FrameOf(ss.src), table, lo, maxRows, maxBytes);
    for i := lo to hi
      invariant state.State() == WindowState(ss, lo, i)
      invariant KeptSuffix(ss.rules, FrameOf(ss.src), table, lo, i, start, groups, kept, counts, maxRows, maxBytes)
    {
      RowsAlike(ss.rules, state.State(), i, ss.src.msgs[i], look.value, WindowLookups(ss, lo, hi));
      var rows := state.ConvertHistoryMessage(ss.rules, i, ss.src.msgs[i], look.value);
      assert rows == WindowRows(ss, lo, hi, i) == table[i];
      if rows == [] {
        KeptStays(ss.rules, FrameOf(ss.src), table, lo, i, start, groups, kept, counts, maxRows, maxBytes);
      } else {
        start, groups, kept, counts :=
          KeepGroup(ss.rules, FrameOf(ss.src), table, lo, i, rows, start, groups, kept, counts, maxRows, maxBytes);
      }
    }
    KeptIs(ss.rules, FrameOf(ss.src), table, lo, hi, start, groups, kept, counts, maxRows, maxBytes);
    ok := true;
  }

  method JoinGroups(groups: seq<Group>) returns (entries: seq<Entry>)
    ensures entries == Flatten(groups)
  {
    entries := [];
    for k := 0 to |groups|
      invariant entries == Flatten(groups[..k])
    {
      assert groups[..k + 1][..k] == groups[..k];
      entries := entries + groups[k].entries;
    }
    assert groups[..|groups|] == groups;
  }

  /** The page cut from one candidate window: where it starts and its entries. */
  method CutWindow(ss: Session, lo: nat, hi: nat, maxRows: nat, maxBytes: nat) returns (r: Result<(nat, seq<Entry>)>)
    requires ss.Valid() && lo < hi <= |ss.src.msgs|
    ensures AlwaysReadable(ss.src) ==> r.Ok?
    ensures r.Ok? ==>
              var table := WindowTable(ss, lo, hi);
              && r.value.0 == CutStart(ss.rules, FrameOf(ss.src), table, lo, hi, maxRows, maxBytes)
              && r.value.1 == Entries(FrameOf(ss.src), table, r.value.0, hi)
  {
    hide WindowTable;
    ghost var table := WindowTable(ss, lo, hi);
    ghost var all, start := Groups(FrameOf(ss.src), table, lo, hi), 0;
    var ok, groups;
    ok, groups, start := ConvertWindow(ss, lo, hi, maxRows, maxBytes);
    if !ok {
      return Err;
    }
    var pageStart := lo;
    if groups != [] {
      pageStart := groups[0].index;
      CutIsCut(Weights(ss.rules, all), maxRows, maxBytes);
      CutUnique(Weights(ss.rules, all), start, Cut(Weights(ss.rules, all), maxRows, maxBytes), maxRows, maxBytes);
      KeptGroupsFlatten(FrameOf(ss.src), table, lo, hi, start);
    } else {
      NoGroupsNoEntries(FrameOf(ss.src), table, lo, hi);
    }
    var entries := JoinGroups(groups);
    r := Ok((pageStart, entries));
  }

  /** The oldest message the turn budget and the raw-span cap admit. */
  method FindCandidate(src: Source, turns: nat, hi: nat) returns (lo: nat)
    requires SourceValid(src) && turns >= 1 && 0 < hi <= |src.msgs|
    ensures lo == CandidateLo(src, turns, hi)
  {
    var newest, oldest := src.turns[hi - 1], 0;
    if newest > 0 {
      oldest := if newest - turns + 1 >= 1 then newest - turns + 1 else 1;
    }
    lo := SearchTurns(src.turns, hi, oldest);
    if oldest <= 1 {
      lo := 0;
    }
    ghost var unshrunk := lo;
    if src.spanBytes.Some? {
      while lo < hi - 1 && src.spanBytes.value(lo, hi) > COLD_WINDOW_BYTES
        invariant lo < hi && Shrunk(src, lo, hi) == Shrunk(src, unshrunk, hi)
      {
        lo := lo + 1;
      }
    }
  }

  /** Oldest and newest visible turn of a page. */
  method TurnRange(entries: seq<Entry>) returns (startTurn: int, endTurn: int)
    ensures startTurn == StartTurn(entries) && endTurn == EndTurn(entries)
  {
    startTurn, endTurn := 0, 0;
    for k := 0 to |entries|
      invariant startTurn == StartTurn(entries[..k]) && endTurn == EndTurn(entries[..k])
    {
      assert entries[..k + 1][..k] == entries[..k];
      if entries[k].turn <= 0 {
        continue;
      }
      if startTurn == 0 || entries[k].turn < startTurn {
        startTurn := entries[k].turn;
      }
      if entries[k].turn > endTurn {
        endTurn := entries[k].turn;
      }
    }
    assert entries[..|entries|] == entries;
  }

  /** pageHistorySliceSource, after request normalisation. */
  method PageHistorySliceSource(ss: Session, req: Request) returns (r: Result<Slice>)
    requires ss.Valid()
    ensures AlwaysReadable(ss.src) ==> r.Ok?
    ensures r.Ok? ==> r.value == PageOf(ss, req)
  {
    hide WindowTable, CutStart, CandidateLo, StartTurn, EndTurn, Entries;
    var src, budget := ss.src, Normalized(req);
    if req.cursor.Some?
      && !IdentityMatches(src, req.cursor.value.revision, req.cursor.value.revKnown, req.cursor.value.digest) {
      return Ok(Slice([], None, false, 0, 0, 0, true, src.revision));
    }
    var hi := |src.msgs|;
    if req.cursor.Some? && req.cursor.value.before < hi {
      hi := req.cursor.value.before;
    }
    if hi == 0 {
      return Ok(Slice([], None, false, src.totalTurns, 0, 0, false, src.revision));
    }
    var lo := FindCandidate(src, budget.turns, hi);
    var window := Fetch(src, lo, hi);
    if window.Err? {
      return Err;
    }
    var cut := CutWindow(ss, lo, hi, budget.entries, budget.bytes);
    if cut.Err? {
      return Err;
    }
    var (pageStart, entries) := cut.value;
    var startTurn, endTurn := TurnRange(entries);
    var next := if pageStart > 0 then Some(Cursor(src.revision, src.revKnown, src.digest, pageStart)) else None;
    r := Ok(Slice(entries, next, pageStart > 0, src.totalTurns, startTurn, endTurn, false, src.revision));
  }
}
