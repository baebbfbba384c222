/** Pages over already converted rows (pageHistoryEventRows in
    desktop/history_slice.go): every row is its own group, and the page is cut by
    a backward walk instead of a sliding window. */
module HistoryEventRows {
  import opened Options
  import opened HistoryTypes
  import opened HistoryLookups
  import opened HistoryCut
  import opened HistoryPaging

  function EventTurns(rows: seq<Row>): (turns: seq<int>)
    ensures |turns| == |rows|
    ensures forall i :: 0 <= i < |turns| ==> turns[i] >= 0
    ensures forall i, j :: 0 <= i <= j < |turns| ==> turns[i] <= turns[j]
  {
    if rows == [] then []
    else
      var before := EventTurns(rows[..|rows| - 1]);
      var last := if before == [] then 0 else before[|before| - 1];
      before + [if rows[|rows| - 1].role == "user" then last + 1 else last]
  }

  function EventTable(rows: seq<Row>): (table: RowTable)
    ensures |table| == |rows| && forall i :: 0 <= i < |rows| ==> table[i] == [rows[i]]
  {
    seq(|rows|, i requires 0 <= i < |rows| => [rows[i]])
  }

  function EventFrame(sessionId: string, rows: seq<Row>): Frame {
    Frame(sessionId, 0, EventTurns(rows))
  }

  function EventEnd(rows: seq<Row>, cursor: Option<Cursor>): nat {
    if cursor.Some? && cursor.value.before < |rows| then cursor.value.before else |rows|
  }

  function EventLo(turns: seq<int>, budget: nat, hi: nat): (lo: nat)
    requires budget >= 1 && 0 < hi <= |turns| && forall i :: 0 <= i < |turns| ==> turns[i] >= 0
    ensures lo < hi
  {
    var oldest := OldestTurn(turns[hi - 1], budget);
    if oldest <= 1 then 0 else FirstAtLeast(turns, hi, oldest)
  }

  function EventPageOf(rules: TextRules, sessionId: string, digest: string, rows: seq<Row>, req: Request): Slice {
    if req.cursor.Some? && req.cursor.value.digest != digest then
      Slice([], None, false, 0, 0, 0, true, 0)
    else
      var fr, budget, hi := EventFrame(sessionId, rows), Normalized(req), EventEnd(rows, req.cursor);
      var total := if rows == [] then 0 else fr.turns[|rows| - 1];
      if hi == 0 then Slice([], None, false, total, 0, 0, false, 0)
      else
        var start := CutStart(rules, fr, EventTable(rows), EventLo(fr.turns, budget.turns, hi), hi, budget.entries,
          budget.bytes);
        var es := Entries(fr, EventTable(rows), start, hi);
        var next := if start > 0 then Some(Cursor(0, false, digest, start)) else None;
        Slice(es, next, start > 0, total, StartTurn(es), EndTurn(es), false, 0)
  }

  // ------------------------------------ the backward walk cuts where the window does

  function RowBytes(rules: TextRules, rows: seq<Row>): (bytes: seq<nat>)
    ensures |bytes| == |rows|
  {
    seq<nat>(|rows|, i requires 0 <= i < |rows| => rules.inlineBytes(rows[i]))
  }

  lemma {:induction false} EventGroups(rules: TextRules, fr: Frame, rows: seq<Row>, lo: nat, n: nat)
    requires |fr.turns| == |rows| && lo <= n <= |rows|
    ensures
      var gs := Groups(fr, EventTable(rows), lo, n);
      && |gs| == n - lo
      && (forall k :: 0 <= k < |gs| ==> gs[k].index == lo + k)
      && Weights(rules, gs) == RowWeights(RowBytes(rules, rows[lo..n]))
    decreases n
  {
    if n > lo {
      EventGroups(rules, fr, rows, lo, n - 1);
      var es := EntriesOf(fr, n - 1, [rows[n - 1]]);
      assert es[..0] == [] && InlineBytes(rules, es) == rules.inlineBytes(rows[n - 1]);
      assert WeightOf(rules, es) == Weight(1, rules.inlineBytes(rows[n - 1]));
      var before := Groups(fr, EventTable(rows), lo, n - 1);
      assert Groups(fr, EventTable(rows), lo, n) == before + [Group(n - 1, es)];
      assert Weights(rules, before + [Group(n - 1, es)]) == Weights(rules, before) + [WeightOf(rules, es)];
      assert rows[lo..n] == rows[lo..n - 1] + [rows[n - 1]];
      assert RowBytes(rules, rows[lo..n]) == RowBytes(rules, rows[lo..n - 1]) + [rules.inlineBytes(rows[n - 1])];
    }
  }

  lemma BackwardWalkAgrees(rules: TextRules, fr: Frame, rows: seq<Row>, lo: nat, hi: nat, maxRows: nat, maxBytes: nat)
    requires |fr.turns| == |rows| && lo < hi <= |rows|
    ensures CutStart(rules, fr, EventTable(rows), lo, hi, maxRows, maxBytes)
         == lo + Cut(RowWeights(RowBytes(rules, rows[lo..hi])), maxRows, maxBytes)
  {
    EventGroups(rules, fr, rows, lo, hi);
    CutIsCut(RowWeights(RowBytes(rules, rows[lo..hi])), maxRows, maxBytes);
  }

  method ClassifyTurns(rows: seq<Row>) returns (turns: seq<int>, turn: int)
    ensures turns == EventTurns(rows)
    ensures turn == if rows == [] then 0 else turns[|rows| - 1]
  {
    turns, turn := [], 0;
    for i := 0 to |rows|
      invariant turns == EventTurns(rows[..i])
      invariant turn == if i == 0 then 0 else turns[i - 1]
    {
      assert rows[..i + 1][..i] == rows[..i];
      if rows[i].role == "user" {
        turn := turn + 1;
      }
      turns := turns + [turn];
    }
    assert rows[..|rows|] == rows;
  }

  method PageHistoryEventRows(rules: TextRules, sessionId: string, digest: string, rows: seq<Row>, req: Request)
    returns (page: Slice)
    ensures page == EventPageOf(rules, sessionId, digest, rows, req)
  {
    hide CutStart, Entries, StartTurn, EndTurn;
    if req.cursor.Some? && req.cursor.value.digest != digest {
      return Slice([], None, false, 0, 0, 0, true, 0);
    }
    var budget, hi := Normalized(req), |rows|;
    if req.cursor.Some? && req.cursor.value.before < hi {
      hi := req.cursor.value.before;
    }
    var turns, total := ClassifyTurns(rows);
    if hi == 0 {
      return Slice([], None, false, total, 0, 0, false, 0);
    }
    var start, entries := CutEventRows(rules, sessionId, rows, turns, budget, hi);
    var startTurn, endTurn := TurnRange(entries);
    var next := if start > 0 then Some(Cursor(0, false, digest, start)) else None;
    page := Slice(entries, next, start > 0, total, startTurn, endTurn, false, 0);
  }

  /** The backward walk and the entries it keeps. */
  method CutEventRows(rules: TextRules, sessionId: string, rows: seq<Row>, turns: seq<int>, budget: Request, hi: nat)
    returns (start: nat, entries: seq<Entry>)
    requires turns == EventTurns(rows) && 0 < hi <= |rows| && budget.turns >= 1 && budget.entries >= 1
    requires budget.bytes >= 1
    ensures start == CutStart(rules, EventFrame(sessionId, rows), EventTable(rows), EventLo(turns, budget.turns, hi),
        hi, budget.entries, budget.bytes)
    ensures entries == Entries(EventFrame(sessionId, rows), EventTable(rows), start, hi)
  {
    hide CutStart, EventTurns;
    var oldest := OldestTurn(turns[hi - 1], budget.turns);
    var lo := SearchTurns(turns, hi, oldest);
    if oldest <= 1 {
      lo := 0;
    }
    var fr := Frame(sessionId, 0, turns);
    var keep := BackwardCut(RowBytes(rules, rows[lo..hi]), budget.entries, budget.bytes);
    BackwardWalkAgrees(rules, fr, rows, lo, hi, budget.entries, budget.bytes);
    start := lo + keep;
    entries := RowEntries(fr, rows, start, hi);
  }

  method RowEntries(fr: Frame, rows: seq<Row>, start: nat, hi: nat) returns (entries: seq<Entry>)
    requires |fr.turns| == |rows| && start <= hi <= |rows|
    ensures entries == Entries(fr, EventTable(rows), start, hi)
  {
    entries := [];
    for i := start to hi
      invariant entries == Entries(fr, EventTable(rows), start, i)
    {
      entries := entries + EntriesOf(fr, i, [rows[i]]);
    }
  }

  /** A page is refused if and only if its cursor is of rows with another digest. */
  lemma EventStaleIff(rules: TextRules, sessionId: string, digest: string, rows: seq<Row>, req: Request)
    ensures
      var page := EventPageOf(rules, sessionId, digest, rows, req);
      && (page.stale <==> req.cursor.Some? && req.cursor.value.digest != digest)
      && (page.stale ==> page.entries == [] && page.next.None? && !page.hasOlder)
      && (page.next.Some? ==> page.next.value.digest == digest)
  {
  }

  // ------------------------------------------------- following the cursors

  function FollowEvents(rules: TextRules, sessionId: string, digest: string, rows: seq<Row>, requests: nat -> Request,
                        k: nat, cursor: Option<Cursor>): seq<Entry>
    decreases EventEnd(rows, cursor)
  {
    var page := EventPageOf(rules, sessionId, digest, rows, requests(k).(cursor := cursor));
    (if page.hasOlder then FollowEvents(rules, sessionId, digest, rows, requests, k + 1, page.next) else [])
        + page.entries
  }

  /** Event pages joined oldest first are exactly the rows, unconditionally. */
  lemma {:induction false} EventPagesJoin(rules: TextRules, sessionId: string, digest: string, rows: seq<Row>,
                                          requests: nat -> Request, k: nat, cursor: Option<Cursor>)
    requires cursor.Some? ==> cursor.value.digest == digest
    ensures FollowEvents(rules, sessionId, digest, rows, requests, k, cursor)
         == Entries(EventFrame(sessionId, rows), EventTable(rows), 0, EventEnd(rows, cursor))
    decreases EventEnd(rows, cursor)
  {
    var req, hi := requests(k).(cursor := cursor), EventEnd(rows, cursor);
    var page := EventPageOf(rules, sessionId, digest, rows, req);
    if page.hasOlder {
      hide CutStart;
      EventPagesJoin(rules, sessionId, digest, rows, requests, k + 1, page.next);
      EntriesJoin(EventFrame(sessionId, rows), EventTable(rows), 0, page.next.value.before, hi);
    }
  }

  /** Every row is shown once and in order. */
  lemma EventChainShowsEveryRow(rules: TextRules, sessionId: string, digest: string, rows: seq<Row>,
                                requests: nat -> Request)
    ensures RowsOf(FollowEvents(rules, sessionId, digest, rows, requests, 0, None)) == rows
  {
    EventPagesJoin(rules, sessionId, digest, rows, requests, 0, None);
    EntriesCarryRows(EventFrame(sessionId, rows), EventTable(rows), |rows|);
    ConcatSingletons(rows, |rows|);
    assert rows[..|rows|] == rows && EventTable(rows)[..|rows|] == EventTable(rows);
  }

  lemma {:induction false} ConcatSingletons(rows: seq<Row>, n: nat)
    requires n <= |rows|
    ensures Concat(EventTable(rows)[..n]) == rows[..n]
  {
    if n > 0 {
      ConcatSingletons(rows, n - 1);
      assert EventTable(rows)[..n][..n - 1] == EventTable(rows)[..n - 1];
    }
  }
}
