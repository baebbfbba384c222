/** The rows a steer row costs. The desktop records a planner display under the text
    of the newest user row, which after a mid-turn steer is the steer's
    (desktop/tabs.go:2059-2123); priming then takes it at the steer row. */
module HistorySteerGap {
  import opened Options
  import opened HistoryTypes
  import opened HistoryConvert
  import opened HistoryLookups
  import opened HistoryTodos
  import opened HistoryCut
  import opened HistoryPaging
  import opened HistorySteers
  import opened HistoryTheorems

  lemma {:induction false} FollowStaysBelow(ss: Session, requests: nat -> Request, k: nat, cursor: Option<Cursor>)
    requires ss.Valid()
    ensures forall e :: e in Follow(ss, requests, k, cursor) ==> e.order < PageEnd(ss, cursor)
    decreases PageEnd(ss, cursor)
  {
    hide WindowTable, PageStart, StartTurn, EndTurn;
    var req := requests(k).(cursor := cursor);
    var page, hi := PageOf(ss, req), PageEnd(ss, cursor);
    if page.hasOlder {
      FollowStaysBelow(ss, requests, k + 1, page.next);
    }
    if hi > 0 && !page.stale {
      EntryOrderIncreases(FrameOf(ss.src), WindowTable(ss, CandidateLo(ss.src, Normalized(req).turns, hi), hi),
          PageStart(ss, req, hi), hi);
    }
  }

  /** A window without rows still moves the cursor back, to the window's start. */
  lemma EmptyWindowMovesOn(ss: Session, req: Request)
    requires ss.Valid() && OwnCursor(ss, req.cursor) && 0 < PageEnd(ss, req.cursor)
    requires var hi := PageEnd(ss, req.cursor); var lo := CandidateLo(ss.src, Normalized(req).turns, hi);
             forall i :: lo <= i < hi ==> WindowTable(ss, lo, hi)[i] == []
    ensures
      var hi := PageEnd(ss, req.cursor);
      var lo := CandidateLo(ss.src, Normalized(req).turns, hi);
      var page := PageOf(ss, req);
      && page.entries == [] && page.hasOlder == (lo > 0) && PageStart(ss, req, hi) == lo
      && (lo > 0 ==> page.next.Some? && PageEnd(ss, page.next) == lo)
  {
    hide WindowTable, CandidateLo;
    var hi := PageEnd(ss, req.cursor);
    var lo := CandidateLo(ss.src, Normalized(req).turns, hi);
    NoRowsNoGroups(FrameOf(ss.src), WindowTable(ss, lo, hi), lo, hi);
    NoGroupsNoEntries(FrameOf(ss.src), WindowTable(ss, lo, hi), lo, hi);
  }

  lemma {:induction false} NoRowsNoGroups(fr: Frame, table: RowTable, lo: nat, n: nat)
    requires TableFor(fr, table) && lo <= n <= |table|
    requires forall i :: lo <= i < n ==> table[i] == []
    ensures Groups(fr, table, lo, n) == []
    decreases n
  {
    if n > lo {
      NoRowsNoGroups(fr, table, lo, n - 1);
    }
  }

  /** Message j is too large to be read together with any older one. */
  predicate CutsAlone(src: Source, j: nat) {
    AllOverCap(src, j, j + 1)
  }

  predicate AllOverCap(src: Source, j: nat, hi: nat) {
    forall lo :: 0 <= lo < j ==> OverCap(src, lo, hi)
  }

  lemma {:induction false} ShrinksTo(src: Source, lo: nat, j: nat)
    requires CutsAlone(src, j) && lo <= j
    ensures Shrunk(src, lo, j + 1) == j
    decreases j - lo
  {
    if lo < j {
      assert OverCap(src, lo, j + 1);
      ShrinksTo(src, lo + 1, j);
    }
  }

  lemma AloneIsCandidate(src: Source, turns: nat, j: nat)
    requires SourceValid(src) && j < |src.msgs| && CutsAlone(src, j) && turns >= 1
    ensures CandidateLo(src, turns, j + 1) == j
  {
    hide CutsAlone, Shrunk, TurnLo;
    ShrinksTo(src, TurnLo(src, turns, j + 1), j);
  }

  /** A page cut from such a window is empty where the full conversion is not. */
  lemma LostFromPage(ss: Session, req: Request, i: nat, j: nat)
    requires ss.Valid() && i < j < |ss.src.msgs| && LostRow(ss, i, j) && CutsAlone(ss.src, j)
    requires OwnCursor(ss, req.cursor) && PageEnd(ss, req.cursor) == j + 1
    ensures PageOf(ss, req).entries == [] && PageStart(ss, req, j + 1) == j
    ensures Entries(FrameOf(ss.src), FullTable(ss), j, j + 1) != []
    ensures PageOf(ss, req).hasOlder && PageEnd(ss, PageOf(ss, req).next) == j
  {
    hide PageOf, PageStart, LostRow, CutsAlone, CandidateLo, WindowRows, FullRows, Entries;
    AloneIsCandidate(ss.src, Normalized(req).turns, j);
    LostRowIsMissing(ss, j, j + 1, i, j);
    EmptyWindowMovesOn(ss, req);
    OneMessage(FrameOf(ss.src), FullTable(ss), j);
  }

  lemma OneMessage(fr: Frame, table: RowTable, j: nat)
    requires TableFor(fr, table) && j < |table|
    ensures Entries(fr, table, j, j + 1) == EntriesOf(fr, j, table[j])
  {
    assert Entries(fr, table, j, j) == [];
  }

  /** The same session read through another raw-span estimate. */
  function WithSpan(ss: Session, span: Option<(nat, nat) -> int>): Session {
    ss.(src := ss.src.(spanBytes := span))
  }

  ghost predicate PageShowsFull(ss: Session, req: Request)
    requires ss.Valid()
  {
    var hi := PageEnd(ss, req.cursor);
    hi > 0 ==> PageOf(ss, req).entries == Entries(FrameOf(ss.src), FullTable(ss), PageStart(ss, req, hi), hi)
  }

  lemma SpanChangesNoRow(ss: Session, span: Option<(nat, nat) -> int>)
    ensures WithSpan(ss, span).Initial() == ss.Initial() && FullTable(WithSpan(ss, span)) == FullTable(ss)
    ensures NoLostRows(WithSpan(ss, span)) == NoLostRows(ss)
  {
    hide InitialState, LostRow, FullRows;
    forall j | 0 <= j < |ss.src.msgs| ensures FullRows(WithSpan(ss, span), j) == FullRows(ss, j) {
      SameRowUnderSpan(ss, span, j);
    }
    forall i, j | 0 <= i < j < |ss.src.msgs| ensures LostRow(WithSpan(ss, span), i, j) == LostRow(ss, i, j) {
      SameLoss(ss, span, i, j);
    }
  }

  lemma SameRowUnderSpan(ss: Session, span: Option<(nat, nat) -> int>, j: nat)
    requires j < |ss.src.msgs|
    ensures FullRows(WithSpan(ss, span), j) == FullRows(ss, j)
  {
    hide InitialState, ConvertRows;
  }

  lemma SameLoss(ss: Session, span: Option<(nat, nat) -> int>, i: nat, j: nat)
    requires i < j < |ss.src.msgs|
    ensures LostRow(WithSpan(ss, span), i, j) == LostRow(ss, i, j)
  {
    hide InitialState, ConvertRows, FullRows, Suppresses;
    SameRowUnderSpan(ss, span, j);
    assert PopsSuppression(WithSpan(ss, span), i) == PopsSuppression(ss, i);
    assert NoReset(WithSpan(ss, span), i + 1, j) == NoReset(ss, i + 1, j);
  }

  /** The exact condition for pages: under every raw-span estimate, every request with
      a cursor of this session gets the matching slice of the full conversion, if and
      only if no row is lost behind a steer row. */
  lemma AllPagesExactIff(ss: Session)
    requires ss.Valid() && KeysTellSteersApart(ss.rules, ss.src.msgs) && LookupsExact(ss.src.msgs)
    ensures (forall span, req: Request :: OwnCursor(ss, req.cursor) ==> PageShowsFull(WithSpan(ss, span), req)) <==>
        NoLostRows(ss)
  {
    hide KeysTellSteersApart, LookupsExact, LostRow, PageShowsFull, FullTable;
    if NoLostRows(ss) {
      forall span, req: Request | OwnCursor(ss, req.cursor) ensures PageShowsFull(WithSpan(ss, span), req) {
        SpanChangesNoRow(ss, span);
        ExactPage(WithSpan(ss, span), req);
      }
    } else {
      var i, j :| 0 <= i < j < |ss.src.msgs| && LostRow(ss, i, j);
      var req := LostPage(ss, i, j);
    }
  }

  lemma ExactPage(ss: Session, req: Request)
    requires ss.Valid() && PagesExactly(ss) && OwnCursor(ss, req.cursor)
    ensures PageShowsFull(ss, req)
  {
    hide PagesExactly, PageOf, PageStart, FullTable;
    if PageEnd(ss, req.cursor) > 0 {
      PageIsFullSlice(ss, req);
    }
  }

  /** A raw-span estimate under which message j is read alone. */
  function SpanBefore(j: nat): Option<(nat, nat) -> int> {
    Some((lo: nat, hi: nat) => if lo < j then COLD_WINDOW_BYTES + 1 else 0)
  }

  lemma SpanBeforeCuts(ss: Session, j: nat)
    requires ss.Valid()
    ensures WithSpan(ss, SpanBefore(j)).Valid() && CutsAlone(WithSpan(ss, SpanBefore(j)).src, j)
  {
  }

  lemma LostPage(ss: Session, i: nat, j: nat) returns (req: Request)
    requires ss.Valid() && i < j < |ss.src.msgs| && LostRow(ss, i, j)
    ensures OwnCursor(ss, req.cursor) && exists span :: !PageShowsFull(WithSpan(ss, span), req)
  {
    hide LostRow, CutsAlone, PageOf, PageStart, FullTable, PageShowsFull, SpanBefore, Entries;
    var span := SpanBefore(j);
    var other := WithSpan(ss, span);
    SpanBeforeCuts(ss, j);
    req := Request(Some(Cursor(ss.src.revision, ss.src.revKnown, ss.src.digest, j + 1)), 0, 0, 0);
    assert PageEnd(other, req.cursor) == j + 1 && OwnCursor(other, req.cursor);
    SameLoss(ss, span, i, j);
    LostFromPage(other, req, i, j);
    LostPageShows(other, req, j);
    hide *;
  }

  lemma LostPageShows(ss: Session, req: Request, j: nat)
    requires ss.Valid() && j < |ss.src.msgs| && PageEnd(ss, req.cursor) == j + 1 && PageStart(ss, req, j + 1) == j
    requires PageOf(ss, req).entries == [] && Entries(FrameOf(ss.src), FullTable(ss), j, j + 1) != []
    ensures !PageShowsFull(ss, req)
  {
    hide PageOf, PageStart, FullTable, Entries;
  }

  /** For every session and all rules: when the newest message is one whose rows are
      lost behind a steer row, and a cold source reads it alone, then whatever the
      budgets no page has a row of it, although the full conversion does. */
  lemma SteerRowLosesTheAnswer(ss: Session, requests: nat -> Request, i: nat)
    requires ss.Valid() && i < |ss.src.msgs| - 1 && LostRow(ss, i, |ss.src.msgs| - 1)
    requires CutsAlone(ss.src, |ss.src.msgs| - 1)
    ensures forall e :: e in Follow(ss, requests, 0, None) ==> e.order != |ss.src.msgs| - 1
    ensures exists e :: e in Entries(FrameOf(ss.src), FullTable(ss), 0, |ss.src.msgs|) && e.order == |ss.src.msgs| - 1
  {
    hide *;
    LostFromFull(ss, i);
    LostFromChain(ss, requests, i);
  }

  lemma LostFromFull(ss: Session, i: nat)
    requires ss.Valid() && i < |ss.src.msgs| - 1 && LostRow(ss, i, |ss.src.msgs| - 1)
    ensures exists e :: e in Entries(FrameOf(ss.src), FullTable(ss), 0, |ss.src.msgs|) && e.order == |ss.src.msgs| - 1
  {
    hide PopsSuppression, NoReset, HeldBack, FullRows;
    var j := |ss.src.msgs| - 1;
    var last := EntriesOf(FrameOf(ss.src), j, FullTable(ss)[j]);
    assert last[0].order == j;
    assert Entries(FrameOf(ss.src), FullTable(ss), 0, j + 1) == Entries(FrameOf(ss.src), FullTable(ss), 0, j) + last;
    assert last[0] in Entries(FrameOf(ss.src), FullTable(ss), 0, j + 1);
  }

  lemma LostFromChain(ss: Session, requests: nat -> Request, i: nat)
    requires ss.Valid() && i < |ss.src.msgs| - 1 && LostRow(ss, i, |ss.src.msgs| - 1)
    requires CutsAlone(ss.src, |ss.src.msgs| - 1)
    ensures forall e :: e in Follow(ss, requests, 0, None) ==> e.order != |ss.src.msgs| - 1
  {
    hide PageOf, LostRow, CutsAlone, PageStart, FullTable;
    var req := requests(0).(cursor := None);
    LostFromPage(ss, req, i, |ss.src.msgs| - 1);
    FollowStaysBelow(ss, requests, 1, PageOf(ss, req).next);
  }

  /** Such sessions arise under all rules: a question, a steer during its turn, the
      cancelled planner display recorded under the steer's text, and an answer. */
  lemma SteeredTurnLosesItsAnswer(ss: Session, display: PlannerDisplayTurn)
    requires |ss.src.msgs| == 3 && ss.planner == [display]
    requires
      var (rules, question, steer) := (ss.rules, ss.src.msgs[0], ss.src.msgs[1]);
      && question.role == steer.role == User && !question.localOnly && !steer.localOnly
      && question.decisionReceipt.None? && steer.decisionReceipt.None?
      && !IsSteer(rules, question) && IsSteer(rules, steer) && !rules.synthetic(rules.displayContent(steer))
      && KeyOf(rules, question) != KeyOf(rules, steer)
      && display.userHash == KeyOf(rules, steer) && !rules.blank(display.userHash) && Suppresses(display)
    requires
      var answer := ss.src.msgs[2];
      answer.role == Assistant && !answer.localOnly && answer.decisionReceipt.None?
    ensures LostRow(ss, 1, 2)
  {
    hide CallRows, SubmitText;
    SteeredStates(ss, display);
    hide Converted, Consumed, Suppresses;
    assert NoReset(ss, 2, 2);
  }

  lemma SteeredStates(ss: Session, display: PlannerDisplayTurn)
    requires |ss.src.msgs| == 3 && ss.planner == [display]
    requires
      var (rules, question, steer) := (ss.rules, ss.src.msgs[0], ss.src.msgs[1]);
      && question.role == steer.role == User && !question.localOnly && !steer.localOnly
      && question.decisionReceipt.None? && steer.decisionReceipt.None?
      && !IsSteer(rules, question) && IsSteer(rules, steer) && !rules.synthetic(rules.displayContent(steer))
      && KeyOf(rules, question) != KeyOf(rules, steer)
      && display.userHash == KeyOf(rules, steer) && !rules.blank(display.userHash) && Suppresses(display)
    ensures
      var s := Consumed(ss.rules, ss.src.msgs, ss.Initial(), 1);
      !s.suppress && Queued(s, KeyOf(ss.rules, ss.src.msgs[1]))
        && s.queues[KeyOf(ss.rules, ss.src.msgs[1])][0] == display
    ensures !Converted(ss.rules, ss.src.msgs, ss.Initial(), 0, 2).suppress
  {
    OneDisplay(ss.rules, display);
    hide InitialState, Suppresses;
    var s := ss.Initial();
    assert ConsumeState(ss.rules, s, ss.src.msgs[0]) == s && ConvertState(ss.rules, s, ss.src.msgs[0]) == s;
    assert Consumed(ss.rules, ss.src.msgs, s, 1) == s && Converted(ss.rules, ss.src.msgs, s, 0, 1) == s;
  }
}
