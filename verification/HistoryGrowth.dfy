/** Paging a live log that grows between requests. A cursor is bound to the saved
    state only (identityMatches and liveHistorySliceSource in
    desktop/history_slice.go), so it stays valid while unsaved messages are
    appended, and with them answers to older calls. */
module HistoryGrowth {
  import opened Options
  import opened HistoryTypes
  import opened HistoryConvert
  import opened HistoryLookups
  import opened HistoryTodos
  import opened HistoryPaging
  import opened HistorySteers
  import opened HistoryTheorems

  /** The same saved state and, beyond what was there, messages appended to it. */
  ghost predicate Grows(a: Session, b: Session) {
    && b.rules == a.rules && b.planner == a.planner
    && b.src.sessionId == a.src.sessionId && b.src.epoch == a.src.epoch
    && b.src.revision == a.src.revision && b.src.revKnown == a.src.revKnown && b.src.digest == a.src.digest
    && |a.src.msgs| <= |b.src.msgs| && b.src.msgs[..|a.src.msgs|] == a.src.msgs
    && |a.src.turns| <= |b.src.turns| && b.src.turns[..|a.src.turns|] == a.src.turns
    && (forall i :: 0 <= i < |a.src.msgs| ==> SameCheckpoint(i, a.checkpoints, b.checkpoints))
  }

  lemma GrowsOn(a: Session, b: Session, c: Session)
    requires Grows(a, b) && Grows(b, c)
    ensures Grows(a, c)
  {
    assert c.src.msgs[..|a.src.msgs|] == c.src.msgs[..|b.src.msgs|][..|a.src.msgs|];
    assert c.src.turns[..|a.src.turns|] == c.src.turns[..|b.src.turns|][..|a.src.turns|];
    forall i | 0 <= i < |a.src.msgs| ensures SameCheckpoint(i, a.checkpoints, c.checkpoints) {
      assert SameCheckpoint(i, a.checkpoints, b.checkpoints) && SameCheckpoint(i, b.checkpoints, c.checkpoints);
    }
  }

  /** What was appended leaves the lookups of older message i as they were. */
  ghost predicate LeavesLookupsAt(a: Session, b: Session, i: nat)
    requires i < |a.src.msgs|
  {
    LookAlike(i, a.src.msgs[i], FullLookups(a), FullLookups(b))
  }

  lemma {:induction false} SameStateBefore(a: Session, b: Session, n: nat)
    requires Grows(a, b) && n <= |a.src.msgs|
    ensures Converted(b.rules, b.src.msgs, b.Initial(), 0, n) == Converted(a.rules, a.src.msgs, a.Initial(), 0, n)
  {
    if n > 0 {
      SameStateBefore(a, b, n - 1);
      assert b.src.msgs[n - 1] == b.src.msgs[..|a.src.msgs|][n - 1] == a.src.msgs[n - 1];
      hide ConvertState;
    }
  }

  /** A message whose lookups did not change keeps its rows: the state that crosses
      messages does not depend on what comes later. */
  lemma GrowthKeepsRows(a: Session, b: Session, i: nat)
    requires Grows(a, b) && i < |a.src.msgs| && LeavesLookupsAt(a, b, i)
    ensures FullRows(b, i) == FullRows(a, i)
  {
    hide ConvertRows, LookAlike, FullLookups, Converted;
    SameStateBefore(a, b, i);
    assert b.src.msgs[i] == b.src.msgs[..|a.src.msgs|][i] == a.src.msgs[i];
    var state := Converted(a.rules, a.src.msgs, a.Initial(), 0, i);
    RowsAlike(a.rules, state, i, a.src.msgs[i], FullLookups(a), FullLookups(b));
  }

  // ------------------------------------------------- when lookups stay the same

  lemma {:induction false} LastResultInPrefix(a: seq<Message>, b: seq<Message>, n: nat, id: string)
    requires a <= b && n <= |a|
    ensures LastResult(b, 0, n, id) == LastResult(a, 0, n, id)
  {
    if n > 0 {
      LastResultInPrefix(a, b, n - 1, id);
    }
  }

  lemma {:induction false} LastResultOfTail(msgs: seq<Message>, n: nat, m: nat, id: string)
    requires n <= m <= |msgs|
    ensures LastResult(msgs, 0, m, id) ==
            if LastResult(msgs, n, m, id) != -1 then LastResult(msgs, n, m, id) else LastResult(msgs, 0, n, id)
    decreases m
  {
    if m > n {
      LastResultOfTail(msgs, n, m - 1, id);
    }
  }

  /** Where calls are looked up exactly, an answer once given stays: an older call
      shows other content if and only if it had no result and its first non-empty one
      was appended. */
  lemma AnswerChangesIff(a: seq<Message>, b: seq<Message>, i: nat, id: string)
    requires a <= b && i < |a| && LookupExactAt(b, i, id)
    ensures LogContent(b, id) != LogContent(a, id) <==> LastResult(a, 0, |a|, id) == -1 && LogContent(b, id) != ""
  {
    var r := LastResult(a, 0, |a|, id);
    if r != -1 && r < i {
      LastResultIsNewest(a, 0, |a|, id);
      assert forall k :: r < k <= i ==> b[k] == a[k];
      LastResultIs(b, 0, i + 1, id, r);
    }
  }

  /** One of the first n messages has a call with this id. */
  predicate IsOlderCall(msgs: seq<Message>, n: nat, id: string)
    requires n <= |msgs|
  {
    exists i :: 0 <= i < n && exists tc :: tc in msgs[i].toolCalls && tc.id == id
  }

  /** What was appended makes no older call succeed, completes no step, and writes its
      todos under ids of its own. */
  ghost predicate FinishesNoTodo(rules: TextRules, a: seq<Message>, b: seq<Message>)
    requires a <= b
  {
    && (forall id :: IsOlderCall(a, |a|, id) && id in Successful(rules, b) ==> id in Successful(rules, a))
    && (forall i, tc :: |a| <= i < |b| && tc in b[i].toolCalls && tc.id in Successful(rules, b) ==>
          tc.name != COMPLETE_STEP && !IsOlderCall(a, |a|, tc.id))
  }

  lemma {:induction false} SameSuccessSameCalls(rules: TextRules, s: set<string>, t: set<string>, st: TodoState,
                                                calls: seq<ToolCall>)
    requires forall tc :: tc in calls ==> (tc.id in s <==> tc.id in t)
    ensures AfterCalls(rules, s, st, calls) == AfterCalls(rules, t, st, calls)
  {
    if calls != [] {
      assert calls[|calls| - 1] in calls && forall tc :: tc in calls[..|calls| - 1] ==> tc in calls;
      SameSuccessSameCalls(rules, s, t, st, calls[..|calls| - 1]);
      assert calls[|calls| - 1].id in s <==> calls[|calls| - 1].id in t;
    }
  }

  lemma {:induction false} SameTodosBefore(rules: TextRules, a: seq<Message>, b: seq<Message>, n: nat)
    requires a <= b && n <= |a| && FinishesNoTodo(rules, a, b)
    ensures AfterLog(rules, Successful(rules, b), b, n) == AfterLog(rules, Successful(rules, a), a, n)
  {
    if n > 0 {
      SameTodosBefore(rules, a, b, n - 1);
      forall tc | tc in a[n - 1].toolCalls ensures tc.id in Successful(rules, a) <==> tc.id in Successful(rules, b) {
        assert IsOlderCall(a, |a|, tc.id);
        assert forall m :: m in a ==> m in b;
      }
      var st := AfterLog(rules, Successful(rules, a), a, n - 1);
      SameSuccessSameCalls(rules, Successful(rules, a), Successful(rules, b), st, a[n - 1].toolCalls);
    }
  }

  /** New todos written under ids of their own leave what is recorded under an old id. */
  lemma {:induction false} CallsLeaveOldArgs(rules: TextRules, s: set<string>, st: TodoState, calls: seq<ToolCall>,
                                             id: string)
    requires forall tc :: tc in calls && tc.id in s ==> tc.name != COMPLETE_STEP && tc.id != id
    ensures
      var out := AfterCalls(rules, s, st, calls).out;
      (id in out <==> id in st.out) && (id in out ==> out[id] == st.out[id])
  {
    if calls != [] {
      var tc := calls[|calls| - 1];
      assert tc in calls && forall tc :: tc in calls[..|calls| - 1] ==> tc in calls;
      CallsLeaveOldArgs(rules, s, st, calls[..|calls| - 1], id);
    }
  }

  lemma {:induction false} TailLeavesOldArgs(rules: TextRules, a: seq<Message>, b: seq<Message>, n: nat, id: string)
    requires a <= b && |a| <= n <= |b| && FinishesNoTodo(rules, a, b) && IsOlderCall(a, |a|, id)
    ensures
      var was, out := LogTodoArgs(rules, a), AfterLog(rules, Successful(rules, b), b, n).out;
      (id in out <==> id in was) && (id in out ==> out[id] == was[id])
  {
    if n == |a| {
      SameTodosBefore(rules, a, b, n);
    } else {
      TailLeavesOldArgs(rules, a, b, n - 1, id);
      var st := AfterLog(rules, Successful(rules, b), b, n - 1);
      CallsLeaveOldArgs(rules, Successful(rules, b), st, b[n - 1].toolCalls, id);
    }
  }

  /** The lookups of an older message stay as they were if none of its unanswered calls
      is answered and no older todo is finished. */
  lemma LookupsStay(a: Session, b: Session, i: nat)
    requires Grows(a, b) && i < |a.src.msgs| && LookupsExact(b.src.msgs)
    requires FinishesNoTodo(a.rules, a.src.msgs, b.src.msgs)
    requires forall tc :: tc in a.src.msgs[i].toolCalls && LastResult(a.src.msgs, 0, |a.src.msgs|, tc.id) == -1 ==>
               LogContent(b.src.msgs, tc.id) == ""
    ensures LeavesLookupsAt(a, b, i)
  {
    var before, after := FullLookups(a), FullLookups(b);
    forall tc | tc in a.src.msgs[i].toolCalls
      ensures ResultContent(before.toolResults, tc.id) == ResultContent(after.toolResults, tc.id)
      ensures ReplayedArguments(before.todoArgs, tc) == ReplayedArguments(after.todoArgs, tc)
    {
      assert b.src.msgs[i] == b.src.msgs[..|a.src.msgs|][i];
      AnswerChangesIff(a.src.msgs, b.src.msgs, i, tc.id);
      LogResultsContent(a.src.msgs, tc.id);
      LogResultsContent(b.src.msgs, tc.id);
      TailLeavesOldArgs(a.rules, a.src.msgs, b.src.msgs, |b.src.msgs|, tc.id);
    }
  }

  // ------------------------------------------------------- pages of a growing log

  /** Request k finds log k: every page of it is exact, and the next log has all that
      it has. */
  ghost predicate LogAt(logs: nat -> Session, k: nat) {
    logs(k).Valid() && PagesExactly(logs(k)) && Grows(logs(k), logs(k + 1))
  }

  ghost predicate GrowingLogs(logs: nat -> Session) {
    forall k: nat :: LogAt(logs, k)
  }

  /** A cursor of this session that does not point past log k. */
  predicate CursorFor(logs: nat -> Session, k: nat, cursor: Option<Cursor>) {
    OwnCursor(logs(k), cursor) && (cursor.Some? ==> cursor.value.before <= |logs(k).src.msgs|)
  }

  lemma LogGrows(logs: nat -> Session, k: nat)
    requires GrowingLogs(logs)
    ensures logs(k).Valid() && logs(k + 1).Valid() && PagesExactly(logs(k)) && Grows(logs(k), logs(k + 1))
  {
    hide Grows, PagesExactly, SourceValid;
    assert LogAt(logs, k) && LogAt(logs, k + 1);
  }

  lemma NextCursor(ss: Session, req: Request)
    requires ss.Valid()
    ensures
      var page := PageOf(ss, req);
      page.hasOlder ==>
        page.next.Some? && OwnCursor(ss, page.next) && page.next.value.before < PageEnd(ss, req.cursor)
  {
    hide WindowTable, PageStart, CandidateLo, Entries, StartTurn, EndTurn;
  }

  lemma NextCursorFor(logs: nat -> Session, requests: nat -> Request, k: nat, cursor: Option<Cursor>)
    requires GrowingLogs(logs) && CursorFor(logs, k, cursor) && logs(k).Valid()
    ensures
      var page := PageOf(logs(k), requests(k).(cursor := cursor));
      page.hasOlder ==>
        page.next.Some? && CursorFor(logs, k + 1, page.next)
        && PageEnd(logs(k + 1), page.next) == page.next.value.before < PageEnd(logs(k), cursor)
  {
    LogGrows(logs, k);
    NextCursor(logs(k), requests(k).(cursor := cursor));
    hide PagesExactly, PageOf, GrowingLogs, SourceValid;
  }

  /** Every page, oldest first; request k finds the log as it is by then. */
  ghost function FollowGrowing(logs: nat -> Session, requests: nat -> Request, k: nat,
                               cursor: Option<Cursor>): seq<Entry>
    requires GrowingLogs(logs) && CursorFor(logs, k, cursor)
    decreases PageEnd(logs(k), cursor)
  {
    LogGrows(logs, k);
    NextCursorFor(logs, requests, k, cursor);
    var page := PageOf(logs(k), requests(k).(cursor := cursor));
    (if page.hasOlder then FollowGrowing(logs, requests, k + 1, page.next) else []) + page.entries
  }

  /** The request whose page shows message i. */
  ghost function ShownAt(logs: nat -> Session, requests: nat -> Request, k: nat, cursor: Option<Cursor>,
                         i: nat): (j: nat)
    requires GrowingLogs(logs) && CursorFor(logs, k, cursor) && i < |logs(k).src.msgs|
    ensures k <= j && i < |logs(j).src.msgs|
    decreases PageEnd(logs(k), cursor)
  {
    LogGrows(logs, k);
    NextCursorFor(logs, requests, k, cursor);
    hide PageOf, PagesExactly, SourceValid;
    var page := PageOf(logs(k), requests(k).(cursor := cursor));
    if page.hasOlder && i < page.next.value.before then ShownAt(logs, requests, k + 1, page.next, i) else k
  }

  /** Each message with the rows a full conversion gave it when its page was read. */
  ghost function ShownTable(logs: nat -> Session, requests: nat -> Request, k: nat,
                            cursor: Option<Cursor>): (t: RowTable)
    requires GrowingLogs(logs) && CursorFor(logs, k, cursor)
    ensures |t| == |logs(k).src.msgs|
  {
    seq(|logs(k).src.msgs|, i requires 0 <= i < |logs(k).src.msgs| =>
      FullRows(logs(ShownAt(logs, requests, k, cursor, i)), i))
  }

  lemma SameEntriesOf(a: Frame, b: Frame, i: nat, rows: seq<Row>)
    requires a.sessionId == b.sessionId && a.epoch == b.epoch
    requires i < |a.turns| <= |b.turns| && b.turns[..|a.turns|] == a.turns
    ensures EntriesOf(a, i, rows) == EntriesOf(b, i, rows)
  {
    assert b.turns[i] == b.turns[..|a.turns|][i];
  }

  lemma {:induction false} EntriesAgreeAcross(fa: Frame, ta: RowTable, fb: Frame, tb: RowTable, hi: nat)
    requires TableFor(fa, ta) && TableFor(fb, tb) && hi <= |ta| <= |tb|
    requires fa.sessionId == fb.sessionId && fa.epoch == fb.epoch && fb.turns[..|fa.turns|] == fa.turns
    requires forall i :: 0 <= i < hi ==> ta[i] == tb[i]
    ensures Entries(fb, tb, 0, hi) == Entries(fa, ta, 0, hi)
  {
    hide EntriesOf;
    if hi > 0 {
      EntriesAgreeAcross(fa, ta, fb, tb, hi - 1);
      SameEntriesOf(fa, fb, hi - 1, ta[hi - 1]);
    }
  }

  /** What the last page and the chain behind it show, by message. */
  lemma ShownStep(logs: nat -> Session, requests: nat -> Request, k: nat, cursor: Option<Cursor>, i: nat)
    requires GrowingLogs(logs) && CursorFor(logs, k, cursor) && logs(k).Valid() && i < |logs(k).src.msgs|
    requires
      var page := PageOf(logs(k), requests(k).(cursor := cursor));
      page.hasOlder ==>
        page.next.Some? && CursorFor(logs, k + 1, page.next) && page.next.value.before <= |logs(k + 1).src.msgs|
    ensures
      var page := PageOf(logs(k), requests(k).(cursor := cursor));
      ShownTable(logs, requests, k, cursor)[i] ==
        if page.hasOlder && i < page.next.value.before then ShownTable(logs, requests, k + 1, page.next)[i]
        else FullRows(logs(k), i)
  {
    LogGrows(logs, k);
    NextCursorFor(logs, requests, k, cursor);
    hide PageOf, PagesExactly, SourceValid, FullRows, GrowingLogs;
    var page := PageOf(logs(k), requests(k).(cursor := cursor));
    if page.hasOlder && i < page.next.value.before {
      assert ShownAt(logs, requests, k, cursor, i) == ShownAt(logs, requests, k + 1, page.next, i);
    } else {
      assert ShownAt(logs, requests, k, cursor, i) == k;
    }
  }

  /** No duplication and no omission while the log grows, whatever is appended: the
      pages joined are, message by message, what a full conversion showed when the page
      with that message was read. */
  lemma {:induction false} GrowingPagesShow(logs: nat -> Session, requests: nat -> Request, k: nat,
                                            cursor: Option<Cursor>)
    requires GrowingLogs(logs) && CursorFor(logs, k, cursor) && logs(k).Valid()
    ensures FollowGrowing(logs, requests, k, cursor)
         == Entries(FrameOf(logs(k).src), ShownTable(logs, requests, k, cursor), 0, PageEnd(logs(k), cursor))
    decreases PageEnd(logs(k), cursor)
  {
    hide PageOf, PageStart, FullRows, PagesExactly, GrowingLogs, ShownTable;
    var ss, req, hi := logs(k), requests(k).(cursor := cursor), PageEnd(logs(k), cursor);
    var shown := ShownTable(logs, requests, k, cursor);
    LogGrows(logs, k);
    if hi == 0 {
      NothingBeforeStart(ss, req);
    } else {
      PageIsFullSlice(ss, req);
      NextCursorFor(logs, requests, k, cursor);
      var page, start := PageOf(ss, req), PageStart(ss, req, hi);
      forall i | 0 <= i < hi
        ensures shown[i] == if i < start then ShownTable(logs, requests, k + 1, page.next)[i] else FullTable(ss)[i]
      {
        ShownStep(logs, requests, k, cursor, i);
      }
      EntriesAgree(FrameOf(ss.src), shown, FullTable(ss), start, hi);
      if start > 0 {
        var later := ShownTable(logs, requests, k + 1, page.next);
        GrowingPagesShow(logs, requests, k + 1, page.next);
        EntriesAgreeAcross(FrameOf(ss.src), shown, FrameOf(logs(k + 1).src), later, start);
        EntriesJoin(FrameOf(ss.src), shown, 0, start, hi);
      }
    }
  }

  lemma {:induction false} GrowsUpTo(logs: nat -> Session, k: nat, j: nat)
    requires GrowingLogs(logs) && k <= j
    ensures Grows(logs(k), logs(j))
  {
    hide PagesExactly, GrowingLogs;
    if k == j {
      assert logs(k).src.msgs[..|logs(k).src.msgs|] == logs(k).src.msgs;
    } else {
      LogGrows(logs, j - 1);
      GrowsUpTo(logs, k, j - 1);
      hide Grows;
      GrowsOn(logs(k), logs(j - 1), logs(j));
    }
  }

  lemma {:induction false} EntriesTellRows(fr: Frame, a: RowTable, b: RowTable, hi: nat)
    requires TableFor(fr, a) && TableFor(fr, b) && hi <= |a| && Entries(fr, a, 0, hi) == Entries(fr, b, 0, hi)
    ensures forall i :: 0 <= i < hi ==> a[i] == b[i]
  {
    if hi > 0 {
      var n := hi - 1;
      LastRowsAgree(fr, a, b, n);
      assert a[n] == b[n];
      EntriesTellRows(fr, a, b, n);
    }
  }

  /** The order of an entry names its message, so it tells how many entries the last
      message has. */
  lemma NotMoreBefore(fr: Frame, a: RowTable, b: RowTable, n: nat)
    requires TableFor(fr, a) && TableFor(fr, b) && n < |a| && Entries(fr, a, 0, n + 1) == Entries(fr, b, 0, n + 1)
    ensures |Entries(fr, b, 0, n)| <= |Entries(fr, a, 0, n)|
  {
    var older, others, all := Entries(fr, a, 0, n), Entries(fr, b, 0, n), Entries(fr, a, 0, n + 1);
    EntryOrderIncreases(fr, b, 0, n);
    assert all == older + EntriesOf(fr, n, a[n]) && all == others + EntriesOf(fr, n, b[n]);
    hide Entries;
    assert forall p :: 0 <= p < |others| ==> all[p] == others[p] && all[p].order < n;
    assert |older| < |all| ==> all[|older|].order == n;
  }

  lemma LastRowsAgree(fr: Frame, a: RowTable, b: RowTable, n: nat)
    requires TableFor(fr, a) && TableFor(fr, b) && n < |a| && Entries(fr, a, 0, n + 1) == Entries(fr, b, 0, n + 1)
    ensures a[n] == b[n] && Entries(fr, a, 0, n) == Entries(fr, b, 0, n)
  {
    NotMoreBefore(fr, a, b, n);
    NotMoreBefore(fr, b, a, n);
    var older, all := |Entries(fr, a, 0, n)|, Entries(fr, a, 0, n + 1);
    assert all[..older] == Entries(fr, a, 0, n) && all[..older] == Entries(fr, b, 0, n);
    assert all[older..] == EntriesOf(fr, n, a[n]) && all[older..] == EntriesOf(fr, n, b[n]);
    forall k | 0 <= k < |a[n]| ensures a[n][k] == b[n][k] {
      assert all[older..][k].row == a[n][k];
    }
  }

  /** The pages joined are the full conversion of the log as it was at the first
      request if and only if each message's rows were still the same when its page was
      read. */
  lemma GrowingPagesJoinIff(logs: nat -> Session, requests: nat -> Request, k: nat, cursor: Option<Cursor>)
    requires GrowingLogs(logs) && CursorFor(logs, k, cursor) && logs(k).Valid()
    ensures
      FollowGrowing(logs, requests, k, cursor)
        == Entries(FrameOf(logs(k).src), FullTable(logs(k)), 0, PageEnd(logs(k), cursor))
      <==> forall i :: 0 <= i < PageEnd(logs(k), cursor) ==>
             FullRows(logs(ShownAt(logs, requests, k, cursor, i)), i) == FullRows(logs(k), i)
  {
    hide PageOf, FullRows, PagesExactly, GrowingLogs, FollowGrowing, ShownAt, Entries;
    var fr, hi := FrameOf(logs(k).src), PageEnd(logs(k), cursor);
    var shown, full := ShownTable(logs, requests, k, cursor), FullTable(logs(k));
    GrowingPagesShow(logs, requests, k, cursor);
    if Entries(fr, shown, 0, hi) == Entries(fr, full, 0, hi) {
      EntriesTellRows(fr, shown, full, hi);
      forall i | 0 <= i < hi
        ensures FullRows(logs(ShownAt(logs, requests, k, cursor, i)), i) == FullRows(logs(k), i)
      {
        assert shown[i] == full[i];
      }
    }
    if forall i :: 0 <= i < hi ==> FullRows(logs(ShownAt(logs, requests, k, cursor, i)), i) == FullRows(logs(k), i) {
      EntriesAgree(fr, shown, full, 0, hi);
    }
  }

  /** So while what is appended leaves the lookups of the messages still to be read. */
  lemma GrowingPagesJoin(logs: nat -> Session, requests: nat -> Request, k: nat, cursor: Option<Cursor>)
    requires GrowingLogs(logs) && CursorFor(logs, k, cursor) && logs(k).Valid()
    requires forall i :: 0 <= i < PageEnd(logs(k), cursor) ==>
               LeavesLookupsAt(logs(k), logs(ShownAt(logs, requests, k, cursor, i)), i)
    ensures FollowGrowing(logs, requests, k, cursor)
         == Entries(FrameOf(logs(k).src), FullTable(logs(k)), 0, PageEnd(logs(k), cursor))
  {
    hide PageOf, FullRows, FullTable, PagesExactly, GrowingLogs, FollowGrowing, ShownAt, Entries, LeavesLookupsAt;
    forall i | 0 <= i < PageEnd(logs(k), cursor)
      ensures FullRows(logs(ShownAt(logs, requests, k, cursor, i)), i) == FullRows(logs(k), i)
    {
      var j := ShownAt(logs, requests, k, cursor, i);
      GrowsUpTo(logs, k, j);
      assert LeavesLookupsAt(logs(k), logs(j), i);
      hide Grows;
      GrowthKeepsRows(logs(k), logs(j), i);
    }
    GrowingPagesJoinIff(logs, requests, k, cursor);
  }
}
